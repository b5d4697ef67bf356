/**
 Reactions toggle, so what matters for one reaction in one conversation is the parity of the toggles
 the server has seen plus those still in the outbox. A delivery pass keeps it, except in one case.
 */
module ReactionParity {
  import opened OutboxRecords
  import opened Deliverer

  /** One reaction in one conversation. */
  datatype Toggle = Toggle(conv: ConvID, text: string, target: nat)

  predicate Is(r: Record, k: Toggle) {
    r.conv == k.conv && r.kind == Reaction(k.text, k.target)
  }

  function IDs(rs: seq<Record>, k: Toggle): set<OutboxID> {
    set r | r in rs && Is(r, k) :: r.id
  }

  function Delivered(rs: seq<Record>, k: Toggle): nat {
    if rs == [] then 0 else Delivered(rs[..|rs| - 1], k) + if Is(rs[|rs| - 1], k) then 1 else 0
  }

  /******* The outbox operations on the set of pending toggles *******/

  lemma DistinctSnoc(rs: seq<Record>, r: Record)
    requires DistinctIDs(rs) && forall x :: x in rs ==> x.id != r.id
    ensures DistinctIDs(rs + [r])
  {
    forall i, j | 0 <= i < j < |rs| + 1 ensures (rs + [r])[i].id != (rs + [r])[j].id {
      assert rs[i] in rs;
    }
  }

  lemma {:induction false} KeepDistinct(rs: seq<Record>, f: Record -> bool)
    requires DistinctIDs(rs)
    ensures DistinctIDs(Keep(rs, f))
  {
    if rs != [] {
      var front, last := rs[..|rs| - 1], rs[|rs| - 1];
      KeepDistinct(front, f);
      assert forall x :: x in front ==> x.id != last.id;
      DistinctSnoc(Keep(front, f), last);
    }
  }

  lemma OthersSnoc(rs: seq<Record>, last: Record, id: OutboxID, k: Toggle)
    requires forall x :: x in rs ==> x.id != last.id
    ensures |IDs(rs + [last], k) - {id}| == |IDs(rs, k) - {id}| + if Is(last, k) && last.id != id then 1 else 0
  {
    assert last.id !in IDs(rs, k);
    if Is(last, k) && last.id != id {
      assert IDs(rs + [last], k) - {id} == (IDs(rs, k) - {id}) + {last.id};
    } else {
      assert IDs(rs + [last], k) - {id} == IDs(rs, k) - {id};
    }
  }

  /** Cancelling removes as many records as it removes pending toggles. */
  lemma {:induction false} CancelCounts(rs: seq<Record>, r: Record, k: Toggle)
    requires DistinctIDs(rs) && Is(r, k)
    ensures |rs| - |CancelDuplicates(rs, r)| == |IDs(rs, k) - {r.id}|
  {
    hide IDs, CancelDuplicates, DistinctIDs;
    if rs == [] {
      CancelNone(r, k);
    } else {
      FrontDistinct(rs);
      var front, last := rs[..|rs| - 1], rs[|rs| - 1];
      CancelCounts(front, r, k);
      OthersSnoc(front, last, r.id, k);
      CancelNext(front, last, r);
      assert rs == front + [last];
    }
  }

  lemma CancelNone(r: Record, k: Toggle)
    ensures CancelDuplicates([], r) == [] && IDs([], k) == {}
  {
  }

  lemma FrontDistinct(rs: seq<Record>)
    requires rs != [] && DistinctIDs(rs)
    ensures DistinctIDs(rs[..|rs| - 1]) && forall x :: x in rs[..|rs| - 1] ==> x.id != rs[|rs| - 1].id
  {
  }

  lemma CancelNext(rs: seq<Record>, last: Record, r: Record)
    ensures |CancelDuplicates(rs + [last], r)| == |CancelDuplicates(rs, r)| + if Duplicates(last, r) then 0 else 1
  {
    assert (rs + [last])[..|rs|] == rs;
  }

  lemma {:induction false} InsertKeeps(rs: seq<Record>, r: Record)
    ensures forall x :: x in Insert(rs, r) <==> x in rs || x == r
    ensures DistinctIDs(rs) && (forall x :: x in rs ==> x.id != r.id) ==> DistinctIDs(Insert(rs, r))
    ensures |Insert(rs, r)| == |rs| + 1
  {
    if !(rs == [] || rs[|rs| - 1].ctime <= r.ctime) {
      var front, last := rs[..|rs| - 1], rs[|rs| - 1];
      InsertKeeps(front, r);
      assert rs == front + [last];
      if DistinctIDs(rs) && forall x :: x in rs ==> x.id != r.id {
        assert forall x :: x in front ==> x in rs && x.id != last.id;
        DistinctSnoc(Insert(front, r), last);
      }
    } else if DistinctIDs(rs) && forall x :: x in rs ==> x.id != r.id {
      DistinctSnoc(rs, r);
    }
  }

  lemma {:induction false} SortKeeps(rs: seq<Record>)
    ensures forall x :: x in SortByCtime(rs) <==> x in rs
    ensures DistinctIDs(rs) ==> DistinctIDs(SortByCtime(rs))
  {
    if rs != [] {
      SortKeeps(rs[..|rs| - 1]);
      InsertKeeps(SortByCtime(rs[..|rs| - 1]), rs[|rs| - 1]);
      assert rs == rs[..|rs| - 1] + [rs[|rs| - 1]];
    }
  }

  /** What never changes about a record while it is in the outbox. */
  datatype Key = Key(id: OutboxID, conv: ConvID, kind: Kind)

  function KeyOf(r: Record): Key {
    Key(r.id, r.conv, r.kind)
  }

  function Keys(rs: seq<Record>): set<Key> {
    set r | r in rs :: KeyOf(r)
  }

  /** Same IDs, and each record keeps its conversation and kind. */
  ghost predicate SameRecords(rs: seq<Record>, rs': seq<Record>) {
    |rs'| == |rs| && forall i :: 0 <= i < |rs| ==>
      rs'[i].id == rs[i].id && rs'[i].conv == rs[i].conv && rs'[i].kind == rs[i].kind
  }

  lemma SameRecordsSameKeys(rs: seq<Record>, rs': seq<Record>)
    requires SameRecords(rs, rs')
    ensures Keys(rs') == Keys(rs)
  {
    forall i | 0 <= i < |rs| ensures KeyOf(rs[i]) in Keys(rs') && KeyOf(rs'[i]) in Keys(rs) {
      assert rs'[i] in rs' && rs[i] in rs;
    }
  }

  lemma SameKeysSameIDs(rs: seq<Record>, rs': seq<Record>, k: Toggle)
    requires Keys(rs) <= Keys(rs')
    ensures IDs(rs, k) <= IDs(rs', k)
  {
    forall r | r in rs && Is(r, k) ensures r.id in IDs(rs', k) {
      assert KeyOf(r) in Keys(rs');
    }
  }

  lemma SameRecordsSameIDs(rs: seq<Record>, rs': seq<Record>, k: Toggle)
    requires SameRecords(rs, rs')
    ensures IDs(rs', k) == IDs(rs, k)
  {
    SameRecordsSameKeys(rs, rs');
    SameKeysSameIDs(rs, rs', k);
    SameKeysSameIDs(rs', rs, k);
  }

  /** The failure branch writes the record itself back, rather than dropping it or marking the conversation. */
  predicate WritesBack(r: Record, e: Env, err: SendError) {
    match DoNotRetryFailure(r, e, err)
    case GiveUp(typ) => !typ.TOOMANYATTEMPTS? && !typ.DUPLICATE? && !typ.ALREADY_DELETED?
    case Retry => !err.DuplicateConnection?
  }

  function WrittenBack(r: Record, e: Env, err: SendError): Record {
    match DoNotRetryFailure(r, e, err)
    case GiveUp(typ) => r.(state := Error(typ))
    case Retry => Bump(r)
  }

  /** The failure drops the record as a duplicate or as already deleted. */
  predicate Drops(r: Record, e: Env, err: SendError) {
    var v := DoNotRetryFailure(r, e, err); v == GiveUp(DUPLICATE) || v == GiveUp(ALREADY_DELETED)
  }

  /** The failure branch keeps a pending record; one that has left the outbox comes back, unless the
      conversation is given up as a whole. */
  lemma FailureEffect(rs: seq<Record>, r: Record, e: Env, err: SendError)
    requires DistinctIDs(rs) && !Drops(r, e, err)
    ensures var rs' := HandleFailure(rs, r, e, err);
      && DistinctIDs(rs')
      && (Has(rs, r.id) || !WritesBack(r, e, err) ==> SameRecords(rs, rs'))
      && (!Has(rs, r.id) && WritesBack(r, e, err) ==> forall y :: y in rs' <==> y in rs || y == WrittenBack(r, e, err))
  {
    hide SortByCtime;
    if !Has(rs, r.id) && WritesBack(r, e, err) {
      var x := WrittenBack(r, e, err);
      assert forall y :: y in rs ==> y.id != r.id;
      DistinctSnoc(rs, x);
      SortKeeps(rs + [x]);
      assert forall y :: y in rs + [x] <==> y in rs || y == x;
    } else {
      FailureInPlace(rs, r, e, err);
      assert DistinctIDs(HandleFailure(rs, r, e, err)) by { SameRecordsDistinct(rs, HandleFailure(rs, r, e, err)); }
    }
  }

  lemma SameRecordsDistinct(rs: seq<Record>, rs': seq<Record>)
    requires DistinctIDs(rs) && SameRecords(rs, rs')
    ensures DistinctIDs(rs')
  {
  }

  lemma FailureInPlace(rs: seq<Record>, r: Record, e: Env, err: SendError)
    requires !Drops(r, e, err) && (Has(rs, r.id) || !WritesBack(r, e, err))
    ensures SameRecords(rs, HandleFailure(rs, r, e, err))
  {
    hide SortByCtime;
  }

  /******* One turn *******/

  /** The snapshot is one conversation's, its IDs are distinct, and the outbox agrees with it. */
  ghost predicate Agrees(keys: set<Key>, snap: seq<Record>, conv: ConvID) {
    && DistinctIDs(snap)
    && (forall s :: s in snap ==> s.conv == conv && s.state.Sending?)
    && (forall x, s :: x in keys && s in snap && x.id == s.id ==> x == KeyOf(s))
  }

  /** Some record before index i of the snapshot is the same reaction. */
  ghost predicate Seen(snap: seq<Record>, i: nat, kind: Kind)
    requires i <= |snap|
  {
    kind.Reaction? && exists j :: 0 <= j < i && snap[j].kind == kind
  }

  /** A reaction handled earlier in the pass has left the outbox with all its duplicates; everything
      else that is still ahead in the snapshot is still in the outbox. */
  ghost predicate PassInv(keys: set<Key>, snap: seq<Record>, conv: ConvID, i: nat)
    requires i <= |snap|
  {
    && Agrees(keys, snap, conv)
    && (forall j :: i <= j < |snap| ==> (KeyOf(snap[j]) in keys <==> !Seen(snap, i, snap[j].kind)))
    && (forall x :: x in keys && x.conv == conv ==> !Seen(snap, i, x.kind))
  }

  lemma RemoveEffect(rs: seq<Record>, id: OutboxID, k: Toggle)
    requires DistinctIDs(rs)
    ensures DistinctIDs(RemoveMessage(rs, id)) && IDs(RemoveMessage(rs, id), k) == IDs(rs, k) - {id}
  {
    KeepDistinct(rs, (x: Record) => x.id != id);
  }

  lemma InOutbox(rs: seq<Record>, r: Record, x: Record)
    requires x in rs && x.id == r.id && x.conv == r.conv && x.kind == r.kind && r.kind.Reaction?
    ensures Has(rs, r.id) && HasReaction(rs, r)
  {
    var i :| 0 <= i < |rs| && rs[i] == x;
  }

  /** Cancelling leaves the reaction alone, and an odd number of duplicates is an even number of toggles. */
  lemma CancelEffect(rs: seq<Record>, r: Record, k: Toggle)
    requires DistinctIDs(rs) && Is(r, k) && r.id in IDs(rs, k)
    ensures var rs' := CancelDuplicates(rs, r);
      && DistinctIDs(rs') && IDs(rs', k) == {r.id} && Has(rs', r.id)
      && HasReaction(rs, r)
      && OddDuplicates(rs, r) == (|IDs(rs, k)| % 2 == 0)
  {
    hide Keep, Has, HasReaction;
    var rs' := CancelDuplicates(rs, r);
    KeepDistinct(rs, (x: Record) => !Duplicates(x, r));
    CancelCounts(rs, r, k);
    var x :| x in rs && Is(x, k) && x.id == r.id;
    assert x in rs';
    assert IDs(rs', k) == {r.id};
    assert IDs(rs, k) == (IDs(rs, k) - {r.id}) + {r.id};
    InOutbox(rs, r, x);
    InOutbox(rs', r, x);
  }

  /** Cancelling and, if need be, sending a pending reaction moves its parity to the server, unless the send
      fails in a way that drops the record. */
  lemma ReactionTurn(rs: seq<Record>, r: Record, e: Env, k: Toggle)
    requires DistinctIDs(rs) && Is(r, k) && r.id in IDs(rs, k)
    ensures var t := SendReaction(rs, r, e);
      && DistinctIDs(t.outbox)
      && ((|IDs(rs, k)| - |IDs(t.outbox, k)|) % 2 == (if t.delivered then 1 else 0) <==>
          !(|IDs(rs, k)| % 2 == 1 && e.send.Failed? && Drops(r, e, e.send.err)))
  {
    hide CancelDuplicates, RemoveMessage, HandleFailure, HasReaction, OddDuplicates, IDs, DistinctIDs, Drops;
    CancelEffect(rs, r, k);
    var rs' := CancelDuplicates(rs, r);
    RemoveEffect(rs', r.id, k);
    if !AbortsSend(rs, r) && e.send.Failed? {
      if Drops(r, e, e.send.err) {
        DropRemoves(rs', r, e, e.send.err);
      } else {
        FailureEffect(rs', r, e, e.send.err);
        SameRecordsSameIDs(rs', HandleFailure(rs', r, e, e.send.err), k);
      }
    }
  }

  lemma DropRemoves(rs: seq<Record>, r: Record, e: Env, err: SendError)
    requires Drops(r, e, err)
    ensures HandleFailure(rs, r, e, err) == RemoveMessage(rs, r.id)
  {
  }

  /** What a turn that does not stop leaves in the outbox. */
  ghost predicate Leaves(keys: set<Key>, r: Record, keys': set<Key>) {
    if r.kind.Reaction? then
      keys' == set x | x in keys && !(x.conv == r.conv && x.kind == r.kind)
    else
      keys' == keys || keys' == set x | x in keys && x.id != r.id
  }

  lemma LeavesKeepsInv(keys: set<Key>, snap: seq<Record>, conv: ConvID, i: nat, keys': set<Key>)
    requires i < |snap| && PassInv(keys, snap, conv, i) && Leaves(keys, snap[i], keys')
    ensures PassInv(keys', snap, conv, i + 1)
  {
    var r := snap[i];
    assert r in snap;
    assert forall kind :: Seen(snap, i + 1, kind) <==> Seen(snap, i, kind) || (kind.Reaction? && kind == r.kind);
    forall j | i + 1 <= j < |snap| ensures KeyOf(snap[j]) in keys' <==> !Seen(snap, i + 1, snap[j].kind) {
      assert snap[j] in snap && snap[j].id != r.id;
    }
  }

  lemma RemoveKeys(rs: seq<Record>, id: OutboxID)
    requires DistinctIDs(rs)
    ensures DistinctIDs(RemoveMessage(rs, id)) && Keys(RemoveMessage(rs, id)) == set x | x in Keys(rs) && x.id != id
  {
    KeepDistinct(rs, (x: Record) => x.id != id);
  }

  lemma CancelKeys(rs: seq<Record>, r: Record)
    requires DistinctIDs(rs) && r.kind.Reaction?
    ensures var rs' := CancelDuplicates(rs, r);
      && DistinctIDs(rs')
      && Keys(rs') == set x | x in Keys(rs) && (x.conv == r.conv && x.kind == r.kind ==> x.id == r.id)
  {
    KeepDistinct(rs, (x: Record) => !Duplicates(x, r));
  }

  lemma HasReactionKey(rs: seq<Record>, r: Record)
    requires KeyOf(r) in Keys(rs) && r.kind.Reaction?
    ensures HasReaction(rs, r) && Has(rs, r.id)
  {
    var x :| x in rs && KeyOf(x) == KeyOf(r);
    var i :| 0 <= i < |rs| && rs[i] == x;
  }

  /** Handling a reaction without stopping takes every pending toggle of it out of the outbox. */
  lemma ReactionLeaves(rs: seq<Record>, r: Record, e: Env)
    requires DistinctIDs(rs) && r.kind.Reaction? && !SendReaction(rs, r, e).stop
    requires forall x :: x in Keys(rs) && x.id == r.id ==> x == KeyOf(r)
    requires KeyOf(r) !in Keys(rs) ==> forall x :: x in Keys(rs) ==> !(x.conv == r.conv && x.kind == r.kind)
    ensures var rs' := SendReaction(rs, r, e).outbox; DistinctIDs(rs') && Leaves(Keys(rs), r, Keys(rs'))
  {
    hide CancelDuplicates, RemoveMessage, HandleFailure, OddDuplicates, HasReaction, Keys, DistinctIDs;
    CancelKeys(rs, r);
    RemoveKeys(CancelDuplicates(rs, r), r.id);
    if KeyOf(r) in Keys(rs) { HasReactionKey(rs, r); }
  }

  /** A failing record that is still pending keeps its place, or is dropped. */
  lemma FailureLeaves(rs: seq<Record>, r: Record, e: Env, err: SendError)
    requires DistinctIDs(rs) && Has(rs, r.id)
    ensures var rs' := HandleFailure(rs, r, e, err);
      DistinctIDs(rs') && (Keys(rs') == Keys(rs) || Keys(rs') == set x | x in Keys(rs) && x.id != r.id)
  {
    RemoveKeys(rs, r.id);
    if !Drops(r, e, err) {
      FailureEffect(rs, r, e, err);
      SameRecordsSameKeys(rs, HandleFailure(rs, r, e, err));
    }
  }

  lemma HasKey(rs: seq<Record>, r: Record)
    requires KeyOf(r) in Keys(rs)
    ensures Has(rs, r.id)
  {
    var x :| x in rs && KeyOf(x) == KeyOf(r);
    var i :| 0 <= i < |rs| && rs[i] == x;
  }

  lemma TurnLeaves(rs: seq<Record>, snap: seq<Record>, conv: ConvID, i: nat, e: Env)
    requires i < |snap| && DistinctIDs(rs) && PassInv(Keys(rs), snap, conv, i) && !Process(rs, snap[i], e).stop
    ensures var rs' := Process(rs, snap[i], e).outbox; DistinctIDs(rs') && Leaves(Keys(rs), snap[i], Keys(rs'))
  {
    hide HandleFailure, AfterCancel, AbortsSend, RemoveMessage, DistinctIDs, Keys;
    var r := snap[i];
    assert r in snap;
    if r.kind.Reaction? {
      ReactionLeaves(rs, r, e);
    } else {
      HasKey(rs, r);
      RemoveKeys(rs, r.id);
      FailureLeaves(rs, r, e, EarlyError(e));
      if e.task.TaskFailed? { FailureLeaves(rs, r, e, e.task.err); }
      if e.send.Failed? { FailureLeaves(rs, r, e, e.send.err); }
    }
  }

  /******* Parity over one turn *******/

  /** The outbox has no other record under r's ID. */
  ghost predicate AgreesOn(rs: seq<Record>, r: Record) {
    forall x :: x in Keys(rs) && x.id == r.id ==> x == KeyOf(r)
  }

  /** When a turn on record r breaks the parity of toggle k: a reaction that has left the outbox is put back, or
      takes an odd number of equal ones with it; or a reaction is dropped when its send fails. */
  predicate Flips(rs: seq<Record>, r: Record, e: Env, k: Toggle) {
    Is(r, k) &&
    if r.id in IDs(rs, k) then
      !FailsEarly(r, e) && |IDs(rs, k)| % 2 == 1 && e.send.Failed? && Drops(r, e, e.send.err)
    else if FailsEarly(r, e) then WritesBack(r, e, EarlyError(e))
    else |IDs(rs, k)| % 2 == 1
  }

  ghost predicate Odd(rs: seq<Record>, k: Toggle) {
    |IDs(rs, k)| % 2 == 1
  }

  /** Records appear and disappear only of r's own kind and conversation. */
  ghost predicate OnlyOwn(keys: set<Key>, r: Record, keys': set<Key>) {
    forall x :: (x in keys <==> x !in keys') ==> x.conv == r.conv && x.kind == r.kind
  }

  lemma FailureOwn(rs: seq<Record>, r: Record, e: Env, err: SendError)
    requires DistinctIDs(rs) && AgreesOn(rs, r)
    ensures var rs' := HandleFailure(rs, r, e, err); DistinctIDs(rs') && OnlyOwn(Keys(rs), r, Keys(rs'))
  {
    var rs' := HandleFailure(rs, r, e, err);
    RemoveKeys(rs, r.id);
    if !Drops(r, e, err) {
      FailureEffect(rs, r, e, err);
      if Has(rs, r.id) || !WritesBack(r, e, err) {
        SameRecordsSameKeys(rs, rs');
      } else {
        assert Keys(rs') == Keys(rs) + {KeyOf(r)} by { AddsKey(rs, rs', WrittenBack(r, e, err)); }
      }
    }
  }

  lemma AddsKey(rs: seq<Record>, rs': seq<Record>, x: Record)
    requires forall y :: y in rs' <==> y in rs || y == x
    ensures Keys(rs') == Keys(rs) + {KeyOf(x)}
  {
    assert x in rs';
  }

  lemma TurnOwn(rs: seq<Record>, r: Record, e: Env)
    requires DistinctIDs(rs) && AgreesOn(rs, r)
    ensures var rs' := Process(rs, r, e).outbox; DistinctIDs(rs') && OnlyOwn(Keys(rs), r, Keys(rs'))
  {
    hide HandleFailure, OddDuplicates, RemoveMessage, CancelDuplicates, DistinctIDs, Keys, Has, HasReaction;
    FailureOwn(rs, r, e, EarlyError(e));
    if e.task.TaskFailed? { FailureOwn(rs, r, e, e.task.err); }
    if e.send.Failed? { FailureOwn(rs, r, e, e.send.err); }
    RemoveKeys(rs, r.id);
    if r.kind.Reaction? {
      CancelKeys(rs, r);
      var rs' := CancelDuplicates(rs, r);
      RemoveKeys(rs', r.id);
      if e.send.Failed? { FailureOwn(rs', r, e, e.send.err); }
    }
  }

  lemma OwnLeavesOthers(rs: seq<Record>, r: Record, rs': seq<Record>, k: Toggle)
    requires OnlyOwn(Keys(rs), r, Keys(rs')) && !Is(r, k)
    ensures IDs(rs', k) == IDs(rs, k)
  {
    forall x | x in rs && Is(x, k) ensures x.id in IDs(rs', k) {
      assert KeyOf(x) in Keys(rs');
    }
    forall x | x in rs' && Is(x, k) ensures x.id in IDs(rs, k) {
      assert KeyOf(x) in Keys(rs);
    }
  }

  lemma EarlyNeverDrops(r: Record, e: Env)
    ensures !Drops(r, e, EarlyError(e))
  {
  }

  /** A failure that does not drop its record adds it when it was gone and is written back. */
  lemma FailureIDs(rs: seq<Record>, r: Record, e: Env, err: SendError, k: Toggle)
    requires DistinctIDs(rs) && AgreesOn(rs, r) && Is(r, k) && !Drops(r, e, err)
    ensures IDs(HandleFailure(rs, r, e, err), k) ==
      if r.id !in IDs(rs, k) && WritesBack(r, e, err) then IDs(rs, k) + {r.id} else IDs(rs, k)
  {
    FailureEffect(rs, r, e, err);
    var rs' := HandleFailure(rs, r, e, err);
    HasIsID(rs, r, k);
    if Has(rs, r.id) || !WritesBack(r, e, err) {
      SameRecordsSameIDs(rs, rs', k);
    }
  }

  lemma HasIsID(rs: seq<Record>, r: Record, k: Toggle)
    requires AgreesOn(rs, r) && Is(r, k)
    ensures Has(rs, r.id) <==> r.id in IDs(rs, k)
  {
    if Has(rs, r.id) {
      var j :| 0 <= j < |rs| && rs[j].id == r.id;
      assert KeyOf(rs[j]) in Keys(rs);
    }
    if r.id in IDs(rs, k) {
      var x :| x in rs && Is(x, k) && x.id == r.id;
      var i :| 0 <= i < |rs| && rs[i] == x;
    }
  }

  /** A reaction of the snapshot that has already left the outbox takes with it whatever equal reactions were
      pushed since, so the parity survives exactly when they were even. */
  lemma StaleEntryCancelsPushes(rs: seq<Record>, r: Record, e: Env, k: Toggle)
    requires Is(r, k) && !FailsEarly(r, e) && !Has(rs, r.id)
    ensures var t := Process(rs, r, e);
      && !t.delivered && IDs(t.outbox, k) == {}
      && (|IDs(rs, k)| % 2 == |IDs(t.outbox, k)| % 2 <==> |IDs(rs, k)| % 2 == 0)
  {
    hide Keep;
    assert !HasReaction(rs, r);
    assert forall x :: x in rs ==> x.id != r.id;
    assert IDs(CancelDuplicates(rs, r), k) == {};
  }

  /** One turn, on any outbox and any record of a snapshot, moves parity between outbox and server exactly when
      it does not flip it. */
  lemma TurnParity(rs: seq<Record>, r: Record, e: Env, k: Toggle)
    requires DistinctIDs(rs) && AgreesOn(rs, r)
    ensures var t := Process(rs, r, e);
      && DistinctIDs(t.outbox)
      && ((Odd(rs, k) == Odd(t.outbox, k)) <==> (t.delivered && Is(r, k)) == Flips(rs, r, e, k))
  {
    hide Keys, IDs, DistinctIDs, HandleFailure, AfterCancel, AbortsSend, Drops, AgreesOn, Has, WritesBack;
    TurnOwn(rs, r, e);
    if !Is(r, k) {
      OwnLeavesOthers(rs, r, Process(rs, r, e).outbox, k);
    } else {
      HasIsID(rs, r, k);
      if FailsEarly(r, e) {
        EarlyNeverDrops(r, e);
        FailureIDs(rs, r, e, EarlyError(e), k);
      } else if r.id in IDs(rs, k) {
        ReactionTurn(rs, r, e, k);
      } else {
        StaleEntryCancelsPushes(rs, r, e, k);
      }
    }
  }

  /******* What a turn does *******/

  /** The other pending records of the same reaction. */
  function Twins(rs: seq<Record>, r: Record): set<OutboxID> {
    set x | x in rs && x.conv == r.conv && x.kind == r.kind && x.id != r.id :: x.id
  }

  predicate StillThere(rs: seq<Record>, r: Record) {
    exists x :: x in rs && x.id == r.id && x.conv == r.conv && x.kind.Reaction?
  }

  /** On line and pending for no more than an hour. */
  predicate InTime(r: Record, e: Env) {
    e.connected && e.now - r.ctime <= 3600000
  }

  predicate WaitsForTask(r: Record) {
    r.kind == Attachment || r.kind == Unfurl || r.kind == Flip
  }

  lemma TwinsAre(rs: seq<Record>, r: Record)
    requires DistinctIDs(rs) && r.kind.Reaction?
    ensures |rs| - |CancelDuplicates(rs, r)| == |Twins(rs, r)|
    ensures HasReaction(rs, r) <==> StillThere(rs, r)
  {
    var k := Toggle(r.conv, r.kind.text, r.kind.target);
    CancelCounts(rs, r, k);
    assert Twins(rs, r) == IDs(rs, k) - {r.id};
    if HasReaction(rs, r) {
      var i :| 0 <= i < |rs| && rs[i].id == r.id && rs[i].conv == r.conv && rs[i].kind.Reaction?;
      assert rs[i] in rs;
    }
    if x :| x in rs && x.id == r.id && x.conv == r.conv && x.kind.Reaction? {
      var i :| 0 <= i < |rs| && rs[i] == x;
    }
  }

  /** The sender is called exactly for a record that is in time, whose background task is done, and, if it is a
      reaction, that is still pending with an even number of twins. */
  lemma GivenIff(rs: seq<Record>, r: Record, e: Env)
    requires DistinctIDs(rs)
    ensures var t := Process(rs, r, e);
      && (t.given <==> InTime(r, e) && (WaitsForTask(r) ==> e.task == TaskDone) && (r.kind.Reaction? ==> StillThere(rs, r) && |Twins(rs, r)| % 2 == 0))
      && (t.delivered <==> t.given && e.send == Sent)
  {
    hide CancelDuplicates, HandleFailure, RemoveMessage, DistinctIDs, Twins, StillThere, HasReaction;
    if r.kind.Reaction? { TwinsAre(rs, r); }
  }

  /** The error a turn fails with: off line, expired, from the background task, or from the send. */
  function FailsWith(rs: seq<Record>, r: Record, e: Env): set<SendError> {
    if !e.connected then {Info(false, MISC)}
    else if e.now - r.ctime > 3600000 then {Info(true, EXPIRED)}
    else if WaitsForTask(r) && e.task.TaskFailed? then {e.task.err}
    else if Process(rs, r, e).given && e.send.Failed? then {e.send.err}
    else {}
  }

  /** Only a failure ends the pass, unless it is an unfurl's. It leaves what the failure branch makes of the outbox; a
      record that is sent goes; one that still waits for its task stays. A reaction takes its twins with it first. */
  lemma TurnOutcome(rs: seq<Record>, r: Record, e: Env)
    ensures var t, errs := Process(rs, r, e), FailsWith(rs, r, e);
      && (t.stop <==> errs != {} && r.kind != Unfurl)
      && (!t.given ==> forall err :: err in errs ==> t.outbox == HandleFailure(rs, r, e, err))
      && (!r.kind.Reaction? && t.given ==> forall err :: err in errs ==> t.outbox == HandleFailure(rs, r, e, err))
      && (!r.kind.Reaction? && t.delivered ==> t.outbox == RemoveMessage(rs, r.id))
      && (!r.kind.Reaction? && errs == {} && !t.delivered ==> t.outbox == rs)
      && (r.kind.Reaction? && t.given ==> forall err :: err in errs ==> t.outbox == HandleFailure(CancelDuplicates(rs, r), r, e, err))
      && (r.kind.Reaction? && t.delivered ==> t.outbox == RemoveMessage(CancelDuplicates(rs, r), r.id))
      && (r.kind.Reaction? && errs == {} && !t.given && HasReaction(rs, r) ==> t.outbox == RemoveMessage(CancelDuplicates(rs, r), r.id))
      && (r.kind.Reaction? && errs == {} && !t.given && !HasReaction(rs, r) ==> t.outbox == CancelDuplicates(rs, r))
  {
    hide CancelDuplicates, HandleFailure, RemoveMessage, HasReaction;
  }

  /******* Parity over half a turn *******/

  /** When half a turn on record r breaks the parity of toggle k. Before the send: a reaction that has left the
      outbox is put back, or takes an odd number of equal ones with it. After it: a reaction that left the outbox
      during the send was sent all the same or is put back, or a pending one is dropped. */
  predicate HalfFlips(rs: seq<Record>, r: Record, e: Env, sending: bool, k: Toggle) {
    Is(r, k) &&
    if sending then
      match e.send
      case Sent => r.id !in IDs(rs, k)
      case Failed(err) => if r.id in IDs(rs, k) then Drops(r, e, err) else WritesBack(r, e, err)
    else r.id !in IDs(rs, k) && if FailsEarly(r, e) then WritesBack(r, e, EarlyError(e)) else |IDs(rs, k)| % 2 == 1
  }

  lemma HalfOwn(rs: seq<Record>, r: Record, e: Env, sending: bool)
    requires DistinctIDs(rs) && AgreesOn(rs, r)
    ensures var rs' := HalfTurn(rs, r, e, sending).outbox; DistinctIDs(rs') && OnlyOwn(Keys(rs), r, Keys(rs'))
  {
    hide HandleFailure, OddDuplicates, RemoveMessage, CancelDuplicates, DistinctIDs, Keys, Has, HasReaction;
    FailureOwn(rs, r, e, EarlyError(e));
    if e.task.TaskFailed? { FailureOwn(rs, r, e, e.task.err); }
    if e.send.Failed? { FailureOwn(rs, r, e, e.send.err); }
    RemoveKeys(rs, r.id);
    if r.kind.Reaction? {
      CancelKeys(rs, r);
      RemoveKeys(CancelDuplicates(rs, r), r.id);
    }
  }

  lemma BeginParity(rs: seq<Record>, r: Record, e: Env, k: Toggle)
    requires DistinctIDs(rs) && AgreesOn(rs, r) && Is(r, k)
    ensures (Odd(rs, k) == Odd(Begin(rs, r, e).outbox, k)) <==> !HalfFlips(rs, r, e, false, k)
  {
    hide Keys, IDs, DistinctIDs, HandleFailure, CancelDuplicates, RemoveMessage, OddDuplicates, HasReaction, Drops, AgreesOn, Has, WritesBack;
    HasIsID(rs, r, k);
    if FailsEarly(r, e) {
      EarlyNeverDrops(r, e);
      FailureIDs(rs, r, e, EarlyError(e), k);
    } else if r.id in IDs(rs, k) {
      CancelEffect(rs, r, k);
      RemoveEffect(CancelDuplicates(rs, r), r.id, k);
    } else {
      StaleCancels(rs, r, k);
    }
  }

  lemma StaleCancels(rs: seq<Record>, r: Record, k: Toggle)
    requires Is(r, k) && !Has(rs, r.id)
    ensures AfterCancel(rs, r) == CancelDuplicates(rs, r) && AbortsSend(rs, r) && IDs(CancelDuplicates(rs, r), k) == {}
  {
    hide Keep;
    assert !HasReaction(rs, r);
    assert forall x :: x in rs ==> x.id != r.id;
  }

  lemma CompleteParity(rs: seq<Record>, r: Record, e: Env, k: Toggle)
    requires DistinctIDs(rs) && AgreesOn(rs, r) && Is(r, k)
    ensures var h := Complete(rs, r, e);
      (Odd(rs, k) == Odd(h.outbox, k)) <==> h.delivered == HalfFlips(rs, r, e, true, k)
  {
    hide Keys, IDs, DistinctIDs, HandleFailure, RemoveMessage, Drops, AgreesOn, Has, WritesBack;
    RemoveEffect(rs, r.id, k);
    if r.id in IDs(rs, k) {
      assert IDs(rs, k) == (IDs(rs, k) - {r.id}) + {r.id};
    } else {
      assert IDs(rs, k) - {r.id} == IDs(rs, k);
    }
    if e.send.Failed? {
      if Drops(r, e, e.send.err) {
        DropRemoves(rs, r, e, e.send.err);
        DropsNotBack(r, e, e.send.err);
      } else {
        FailureIDs(rs, r, e, e.send.err, k);
      }
    }
  }

  lemma DropsNotBack(r: Record, e: Env, err: SendError)
    requires Drops(r, e, err)
    ensures !WritesBack(r, e, err)
  {
  }

  /** Half a turn, on any outbox and any record of a snapshot, moves parity between outbox and server exactly when
      it does not flip it. */
  lemma HalfParity(rs: seq<Record>, r: Record, e: Env, sending: bool, k: Toggle)
    requires DistinctIDs(rs) && AgreesOn(rs, r)
    ensures var h := HalfTurn(rs, r, e, sending);
      (Odd(rs, k) == Odd(h.outbox, k)) <==> (h.delivered && Is(r, k)) == HalfFlips(rs, r, e, sending, k)
  {
    hide Keys, IDs, DistinctIDs, Complete, Begin, Drops, AgreesOn, WritesBack, HalfFlips;
    HalfOwn(rs, r, e, sending);
    if !Is(r, k) {
      OwnLeavesOthers(rs, r, HalfTurn(rs, r, e, sending).outbox, k);
      NoFlipOfOthers(rs, r, e, sending, k);
    } else if sending {
      CompleteParity(rs, r, e, k);
    } else {
      BeginParity(rs, r, e, k);
      BeginDelivers(rs, r, e);
    }
  }

  lemma NoFlipOfOthers(rs: seq<Record>, r: Record, e: Env, sending: bool, k: Toggle)
    requires !Is(r, k)
    ensures !HalfFlips(rs, r, e, sending, k)
  {
  }

  lemma BeginDelivers(rs: seq<Record>, r: Record, e: Env)
    ensures !Begin(rs, r, e).delivered
  {
  }

  /******* Parity over a pass *******/

  lemma KeyIsID(rs: seq<Record>, r: Record, k: Toggle)
    requires Is(r, k) && KeyOf(r) in Keys(rs)
    ensures r.id in IDs(rs, k)
  {
  }

  lemma SeenIsEmpty(rs: seq<Record>, snap: seq<Record>, conv: ConvID, i: nat, k: Toggle)
    requires i < |snap| && PassInv(Keys(rs), snap, conv, i) && Is(snap[i], k) && Seen(snap, i, snap[i].kind)
    ensures IDs(rs, k) == {}
  {
    assert snap[i] in snap;
    assert forall x :: x in rs ==> KeyOf(x) in Keys(rs);
  }

  lemma DeliveredFirst(r: Record, rs: seq<Record>, k: Toggle)
    ensures Delivered([r] + rs, k) == Delivered(rs, k) + if Is(r, k) then 1 else 0
  {
    if rs != [] {
      DeliveredFirst(r, rs[..|rs| - 1], k);
      assert ([r] + rs)[..|rs|] == [r] + rs[..|rs| - 1];
    }
  }

  /** The first turn that stops the pass flips the parity. */
  ghost predicate PassFlips(rs: seq<Record>, snap: seq<Record>, envs: seq<Env>, i: nat, k: Toggle)
    requires i <= |snap| == |envs|
    decreases |snap| - i
  {
    i < |snap| &&
    var t := Process(rs, snap[i], envs[i]);
    if t.stop then Flips(rs, snap[i], envs[i], k) else PassFlips(t.outbox, snap, envs, i + 1, k)
  }

  /** A turn that does not stop flips nothing, as equal reactions were settled together. */
  lemma GoingOnFlipsNothing(rs: seq<Record>, snap: seq<Record>, conv: ConvID, i: nat, e: Env, k: Toggle)
    requires i < |snap| && DistinctIDs(rs) && PassInv(Keys(rs), snap, conv, i) && !Process(rs, snap[i], e).stop
    ensures AgreesOn(rs, snap[i]) && !Flips(rs, snap[i], e, k)
  {
    hide Keys, IDs, HandleFailure, Drops, WritesBack;
    var r := snap[i];
    assert r in snap;
    if Is(r, k) {
      if Seen(snap, i, r.kind) { SeenIsEmpty(rs, snap, conv, i, k); } else { KeyIsID(rs, r, k); }
      if r.id in IDs(rs, k) && Flips(rs, r, e, k) { CancelEffect(rs, r, k); }
    }
  }

  /** What the pass from index i on makes of one toggle, given its first turn. */
  lemma PassStep(rs: seq<Record>, snap: seq<Record>, envs: seq<Env>, i: nat, k: Toggle)
    requires i < |snap| == |envs|
    ensures var t, p := Process(rs, snap[i], envs[i]), Pass(rs, snap, envs, i);
      if t.stop then p.outbox == t.outbox && Delivered(p.delivered, k) == (if t.delivered && Is(snap[i], k) then 1 else 0)
      else
        var rest := Pass(t.outbox, snap, envs, i + 1);
        p.outbox == rest.outbox &&
        Delivered(p.delivered, k) == Delivered(rest.delivered, k) + (if t.delivered && Is(snap[i], k) then 1 else 0)
  {
    hide Process;
    var t := Process(rs, snap[i], envs[i]);
    var rest := if t.stop then [] else Pass(t.outbox, snap, envs, i + 1).delivered;
    DeliveredFirst(snap[i], rest, k);
    assert [] + rest == rest && [snap[i]] + [] == [snap[i]];
  }

  lemma AgreesAt(rs: seq<Record>, snap: seq<Record>, conv: ConvID, i: nat)
    requires i < |snap| && PassInv(Keys(rs), snap, conv, i)
    ensures AgreesOn(rs, snap[i])
  {
    assert snap[i] in snap;
  }

  lemma {:induction false} PassParityFrom(rs: seq<Record>, snap: seq<Record>, conv: ConvID, envs: seq<Env>, i: nat, k: Toggle)
    requires i <= |snap| == |envs| && DistinctIDs(rs) && PassInv(Keys(rs), snap, conv, i)
    ensures var p := Pass(rs, snap, envs, i);
      && DistinctIDs(p.outbox)
      && ((Odd(rs, k) == (Odd(p.outbox, k) != (Delivered(p.delivered, k) % 2 == 1))) <==> !PassFlips(rs, snap, envs, i, k))
    decreases |snap| - i
  {
    hide Process, DistinctIDs, Keys, IDs, Odd, Flips, Pass, PassInv, Leaves, Delivered, AgreesOn;
    if i == |snap| {
      PassEnd(rs, snap, envs, k);
    } else {
      var t := Process(rs, snap[i], envs[i]);
      AgreesAt(rs, snap, conv, i);
      TurnParity(rs, snap[i], envs[i], k);
      PassStep(rs, snap, envs, i, k);
      if !t.stop {
        GoingOnFlipsNothing(rs, snap, conv, i, envs[i], k);
        TurnLeaves(rs, snap, conv, i, envs[i]);
        LeavesKeepsInv(Keys(rs), snap, conv, i, Keys(t.outbox));
        PassParityFrom(t.outbox, snap, conv, envs, i + 1, k);
      }
    }
  }

  lemma PassEnd(rs: seq<Record>, snap: seq<Record>, envs: seq<Env>, k: Toggle)
    requires |snap| == |envs|
    ensures var p := Pass(rs, snap, envs, |snap|); p.outbox == rs && Delivered(p.delivered, k) == 0
  {
  }

  lemma SnapshotInv(rs: seq<Record>, conv: ConvID)
    requires DistinctIDs(rs)
    ensures PassInv(Keys(rs), Pending(rs, conv), conv, 0)
  {
    var snap := Pending(rs, conv);
    KeepDistinct(rs, (r: Record) => r.conv == conv && r.state.Sending?);
    assert forall j :: 0 <= j < |snap| ==> snap[j] in snap;
    forall x, s | x in Keys(rs) && s in snap && x.id == s.id ensures x == KeyOf(s) {
      var y :| y in rs && KeyOf(y) == x;
      var i :| 0 <= i < |rs| && rs[i] == y;
      var j :| 0 <= j < |rs| && rs[j] == s;
    }
  }

  /**
   A delivery pass with no concurrent push keeps the parity of every reaction of every conversation,
   counting the toggles the server received and those left in the outbox: cancelling duplicates means
   the same as sending them all. It fails exactly when the turn that stops the pass puts back a reaction
   already settled by an identical one, because the connection was lost or the record expired, or drops a
   reaction because its send failed as a duplicate or as already deleted.
   */
  lemma PassParity(rs: seq<Record>, conv: ConvID, envs: seq<Env>, k: Toggle)
    requires DistinctIDs(rs) && |envs| == |Pending(rs, conv)|
    ensures var snap := Pending(rs, conv); var p := Pass(rs, snap, envs, 0);
      && DistinctIDs(p.outbox)
      && ((|IDs(rs, k)| % 2 == (|IDs(p.outbox, k)| + Delivered(p.delivered, k)) % 2) <==> !PassFlips(rs, snap, envs, 0, k))
  {
    hide Pass, Pending, IDs, PassFlips;
    SnapshotInv(rs, conv);
    PassParityFrom(rs, Pending(rs, conv), conv, envs, 0, k);
  }

  /** Two equal reactions settle each other, then the second comes back when the connection is lost. */
  lemma SettledReactionCanComeBack()
    ensures var a, b := Record(0, 0, Reaction(":+1:", 7), 0, Sending(0)), Record(1, 0, Reaction(":+1:", 7), 0, Sending(0));
      var up := Env(true, 0, true, false, TaskDone, Sent);
      var p := Pass([a, b], [a, b], [up, up.(connected := false)], 0);
      p.delivered == [] && p.outbox == [Bump(b)]
  {
    var a, b := Record(0, 0, Reaction(":+1:", 7), 0, Sending(0)), Record(1, 0, Reaction(":+1:", 7), 0, Sending(0));
    var up := Env(true, 0, true, false, TaskDone, Sent);
    PairSettles(a, b, up);
    LonelyComesBack(b, up.(connected := false));
    hide Process;
    assert Pass([], [a, b], [up, up.(connected := false)], 1) == PassResult([Bump(b)], []);
  }

  lemma PairSettles(a: Record, b: Record, e: Env)
    requires a.kind.Reaction? && b.kind == a.kind && b.conv == a.conv && a.id != b.id && !FailsEarly(a, e)
    ensures Process([a, b], a, e) == Turn([], false, false, false)
  {
    hide Keep, FailsEarly;
    KeepOne(a, (x: Record) => !Duplicates(x, a));
    KeepNext([a], b, (x: Record) => !Duplicates(x, a));
    KeepOne(a, (x: Record) => x.id != a.id);
    assert [a] + [b] == [a, b] && [a] + [] == [a];
    assert CancelDuplicates([a, b], a) == [a] && RemoveMessage([a], a.id) == [];
    assert HasReaction([a, b], a) by { assert [a, b][0] == a; }
    hide CancelDuplicates, RemoveMessage, HasReaction;
  }

  lemma KeepNext(rs: seq<Record>, r: Record, f: Record -> bool)
    ensures Keep(rs + [r], f) == Keep(rs, f) + if f(r) then [r] else []
  {
    assert (rs + [r])[..|rs|] == rs;
  }

  lemma KeepOne(r: Record, f: Record -> bool)
    ensures Keep([r], f) == if f(r) then [r] else []
  {
    assert [r][..0] == [];
  }

  lemma LonelyComesBack(b: Record, e: Env)
    requires b.kind.Reaction? && b.state == Sending(0) && !e.connected && e.stillConnected
    ensures Process([], b, e) == Turn([Bump(b)], false, false, true)
  {
    assert [] + [Bump(b)] == [Bump(b)] && [Bump(b)][..0] == [];
    assert SortByCtime([Bump(b)]) == [Bump(b)];
  }

  /******* Counting over runs *******/

  lemma {:induction false} DeliveredConcat(a: seq<Record>, b: seq<Record>, k: Toggle)
    ensures Delivered(a + b, k) == Delivered(a, k) + Delivered(b, k)
  {
    if b == [] {
      assert a + b == a;
    } else {
      DeliveredConcat(a, b[..|b| - 1], k);
      assert (a + b)[..|a + b| - 1] == a + b[..|b| - 1];
    }
  }

  lemma IDsSnoc(rs: seq<Record>, r: Record, k: Toggle)
    requires forall x :: x in rs ==> x.id != r.id
    ensures |IDs(rs + [r], k)| == |IDs(rs, k)| + if Is(r, k) then 1 else 0
  {
    assert IDs(rs + [r], k) == if Is(r, k) then IDs(rs, k) + {r.id} else IDs(rs, k);
    assert r.id !in IDs(rs, k);
  }
}
