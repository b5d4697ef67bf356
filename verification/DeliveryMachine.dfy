/**
 The deliverer as a machine: pushes, retries and removals by the user, and the delivery passes of all
 conversations, in any interleaving (go/chat/deliverer.go:234-275, 665-789). A turn takes two steps, up to the
 send and from its answer on, so that everything else may happen while a record is being sent.
 */
module DeliveryMachine {
  import opened OutboxRecords
  import opened Deliverer
  import opened ReactionParity

  /** A conversation's snapshot, the index of its next record, and whether the sender has that record now. */
  datatype Progress = Progress(snap: seq<Record>, at: nat, sending: bool)

  /** `released` collects the records that were ever sent, removed or marked failed, `received` what the
      server got. */
  datatype Delivery = Delivery(pushed: seq<Record>, outbox: seq<Record>, passes: map<ConvID, Progress>,
                               released: set<OutboxID>, received: seq<Record>)

  /** `sorted` is the outbox as sort.Sort leaves it, should the turn put a record back. */
  datatype Event =
    | Queue(conv: ConvID, kind: Kind, now: Time)
    | Pull
    | TakeTurn(conv: ConvID, env: Env, sorted: seq<Record>)
    | RetryMessage(id: OutboxID, now: Time)
    | RemoveByUser(id: OutboxID)

  function SendingIDs(rs: seq<Record>): set<OutboxID> {
    set r | r in rs && r.state.Sending? :: r.id
  }

  /** The conversations a pull starts a pass for: those with a record to send. */
  function Convs(rs: seq<Record>): set<ConvID> {
    set r | r in rs && r.state.Sending? :: r.conv
  }

  /******* Records that come back *******/

  predicate Writes(r: Record, e: Env, sending: bool) {
    if sending then e.send.Failed? && WritesBack(r, e, e.send.err)
    else if FailsEarly(r, e) then WritesBack(r, e, EarlyError(e))
    else NeedsTask(r) && e.task.TaskFailed? && WritesBack(r, e, e.task.err)
  }

  /** The failure branch re-inserts a record that has left the outbox, and re-sorts by ctime. */
  ghost predicate Reinserts(rs: seq<Record>, r: Record, e: Env, sending: bool) {
    !Has(rs, r.id) && Writes(r, e, sending)
  }

  /** The error that a step which writes its record back failed with. */
  function FailedWith(r: Record, e: Env, sending: bool): SendError {
    if sending then (if e.send.Failed? then e.send.err else OtherError)
    else if FailsEarly(r, e) then EarlyError(e)
    else if e.task.TaskFailed? then e.task.err
    else OtherError
  }

  /** The outbox with the record put back, not sorted yet. */
  function PutBack(rs: seq<Record>, r: Record, e: Env, sending: bool): seq<Record> {
    rs + [WrittenBack(r, e, FailedWith(r, e, sending))]
  }

  ghost predicate ByCtime(rs: seq<Record>) {
    forall i, j :: 0 <= i < j < |rs| ==> rs[i].ctime <= rs[j].ctime
  }

  /** s holds the records of rs, each once, in ctime order; records of equal ctime in any order. */
  ghost predicate Sorts(rs: seq<Record>, s: seq<Record>) {
    DistinctIDs(s) && ByCtime(s) && forall x :: x in s <==> x in rs
  }

  lemma {:induction false} InsertSorts(rs: seq<Record>, r: Record)
    requires ByCtime(rs)
    ensures ByCtime(Insert(rs, r))
  {
    if !(rs == [] || rs[|rs| - 1].ctime <= r.ctime) {
      InsertSorts(rs[..|rs| - 1], r);
      InsertKeeps(rs[..|rs| - 1], r);
      var front, last := Insert(rs[..|rs| - 1], r), rs[|rs| - 1];
      forall i | 0 <= i < |front| ensures front[i].ctime <= last.ctime {
        assert front[i] in front;
      }
    }
  }

  lemma {:induction false} SortIsByCtime(rs: seq<Record>)
    ensures ByCtime(SortByCtime(rs))
  {
    if rs != [] {
      SortIsByCtime(rs[..|rs| - 1]);
      InsertSorts(SortByCtime(rs[..|rs| - 1]), rs[|rs| - 1]);
    }
  }

  lemma SortSorts(rs: seq<Record>)
    requires DistinctIDs(rs)
    ensures Sorts(rs, SortByCtime(rs))
  {
    hide SortByCtime;
    SortIsByCtime(rs);
    SortKeeps(rs);
  }

  /** What the outbox methods compute is one of the orders that sort.Sort may leave. */
  lemma ReinsertedOutbox(rs: seq<Record>, r: Record, e: Env, sending: bool)
    requires Reinserts(rs, r, e, sending) && DistinctIDs(rs)
    ensures HalfTurn(rs, r, e, sending).outbox == SortByCtime(PutBack(rs, r, e, sending))
    ensures DistinctIDs(PutBack(rs, r, e, sending)) && Sorts(PutBack(rs, r, e, sending), HalfTurn(rs, r, e, sending).outbox)
  {
    hide SortByCtime;
    assert !exists i :: 0 <= i < |rs| && rs[i].id == r.id;
    assert forall x :: x in rs ==> x.id != r.id;
    DistinctSnoc(rs, WrittenBack(r, e, FailedWith(r, e, sending)));
    SortSorts(PutBack(rs, r, e, sending));
  }

  /******* Steps *******/

  function Current(w: Delivery, conv: ConvID): Record
    requires conv in w.passes && w.passes[conv].at < |w.passes[conv].snap|
  {
    w.passes[conv].snap[w.passes[conv].at]
  }

  /** The next step of the conversation's pass puts its record back. */
  ghost predicate Restores(w: Delivery, conv: ConvID, e: Env)
    requires conv in w.passes && w.passes[conv].at < |w.passes[conv].snap|
  {
    Reinserts(w.outbox, Current(w, conv), e, w.passes[conv].sending)
  }

  function Restored(w: Delivery, conv: ConvID, e: Env): seq<Record>
    requires conv in w.passes && w.passes[conv].at < |w.passes[conv].snap|
  {
    PutBack(w.outbox, Current(w, conv), e, w.passes[conv].sending)
  }

  function Result(w: Delivery, conv: ConvID, e: Env): Half
    requires conv in w.passes && w.passes[conv].at < |w.passes[conv].snap|
  {
    HalfTurn(w.outbox, Current(w, conv), e, w.passes[conv].sending)
  }

  ghost predicate Enabled(w: Delivery, ev: Event) {
    match ev
    case Pull => w.passes == map[]
    case TakeTurn(conv, e, sorted) =>
      && conv in w.passes && w.passes[conv].at < |w.passes[conv].snap|
      && (Restores(w, conv, e) ==> Sorts(Restored(w, conv, e), sorted))
    case _ => true
  }

  /** A record stops being pending when the outbox no longer holds it in the sending state. */
  function WithOutbox(w: Delivery, rs: seq<Record>): Delivery {
    w.(outbox := rs, released := w.released + (SendingIDs(w.outbox) - SendingIDs(rs)))
  }

  function Reset(rs: seq<Record>, id: OutboxID, now: Time): seq<Record> {
    Map(rs, (x: Record) => if x.id == id then x.(state := Sending(0), ctime := now) else x)
  }

  ghost function OutboxAfter(w: Delivery, conv: ConvID, e: Env, sorted: seq<Record>): seq<Record>
    requires Enabled(w, TakeTurn(conv, e, sorted))
  {
    if Restores(w, conv, e) then sorted else Result(w, conv, e).outbox
  }

  function PassesAfter(passes: map<ConvID, Progress>, conv: ConvID, after: After): map<ConvID, Progress>
    requires conv in passes
  {
    var p := passes[conv];
    match after
    case Sends => passes[conv := p.(sending := true)]
    case GoesOn => if p.at + 1 < |p.snap| then passes[conv := Progress(p.snap, p.at + 1, false)] else passes - {conv}
    case Stops => passes - {conv}
  }

  ghost function Next(w: Delivery, ev: Event): Delivery
    requires Enabled(w, ev)
  {
    match ev
    case Queue(conv, kind, now) =>
      var r := Record(|w.pushed|, conv, kind, now, Sending(0));
      w.(pushed := w.pushed + [r], outbox := w.outbox + [r])
    case Pull => w.(passes := map c | c in Convs(w.outbox) :: Progress(Pending(w.outbox, c), 0, false))
    case TakeTurn(conv, e, sorted) =>
      var h := Result(w, conv, e);
      var w' := WithOutbox(w, OutboxAfter(w, conv, e, sorted));
      var received := if h.delivered then w.received + [Current(w, conv)] else w.received;
      w'.(received := received, passes := PassesAfter(w.passes, conv, h.after))
    case RetryMessage(id, now) => WithOutbox(w, Reset(w.outbox, id, now))
    case RemoveByUser(id) => WithOutbox(w, OutboxRecords.RemoveMessage(w.outbox, id))
  }

  const Empty := Delivery([], [], map[], {}, [])

  ghost predicate IsRun(w: Delivery, evs: seq<Event>)
    decreases |evs|
  {
    evs == [] || (Enabled(w, evs[0]) && IsRun(Next(w, evs[0]), evs[1..]))
  }

  ghost function Final(w: Delivery, evs: seq<Event>): Delivery
    requires IsRun(w, evs)
    decreases |evs|
  {
    if evs == [] then w else Final(Next(w, evs[0]), evs[1..])
  }

  lemma {:induction false} RunThen(w: Delivery, evs: seq<Event>, ev: Event)
    requires IsRun(w, evs) && Enabled(Final(w, evs), ev)
    ensures IsRun(w, evs + [ev]) && Final(w, evs + [ev]) == Next(Final(w, evs), ev)
    decreases |evs|
  {
    hide Next, Enabled;
    if evs == [] {
      assert ([] + [ev])[1..] == [];
    } else {
      RunThen(Next(w, evs[0]), evs[1..], ev);
      assert (evs + [ev])[1..] == evs[1..] + [ev];
    }
  }

  /******* What holds throughout *******/

  /** The record is one that was pushed, whatever its state and ctime are now. */
  ghost predicate Known(w: Delivery, r: Record) {
    r.id < |w.pushed| && KeyOf(w.pushed[r.id]) == KeyOf(r)
  }

  /** Every pushed record has its own ID, is in the outbox at most once, and is released or still sending. */
  ghost predicate OutboxInv(w: Delivery) {
    && DistinctIDs(w.outbox)
    && (forall i :: 0 <= i < |w.pushed| ==> w.pushed[i].id == i)
    && (forall x :: x in w.outbox ==> Known(w, x))
    && (forall i :: 0 <= i < |w.pushed| && i !in w.released ==> i in SendingIDs(w.outbox))
  }

  /** A pass has a record to go on with, and all those ahead were pushed for its conversation. */
  ghost predicate PassKnown(w: Delivery, conv: ConvID, p: Progress) {
    p.at < |p.snap| && forall j :: p.at <= j < |p.snap| ==> Known(w, p.snap[j]) && p.snap[j].conv == conv
  }

  ghost predicate Inv(w: Delivery) {
    OutboxInv(w) && forall c :: c in w.passes ==> PassKnown(w, c, w.passes[c])
  }

  lemma CurrentAgrees(w: Delivery, conv: ConvID)
    requires Inv(w) && conv in w.passes && w.passes[conv].at < |w.passes[conv].snap|
    ensures Known(w, Current(w, conv)) && Current(w, conv).conv == conv && AgreesOn(w.outbox, Current(w, conv))
  {
    assert Known(w, Current(w, conv));
    assert forall x :: x in w.outbox ==> Known(w, x);
  }

  /** A step of a turn adds at most its own record. */
  lemma TurnKeys(w: Delivery, conv: ConvID, e: Env, sorted: seq<Record>)
    requires Inv(w) && Enabled(w, TakeTurn(conv, e, sorted))
    ensures var rs := OutboxAfter(w, conv, e, sorted);
      DistinctIDs(rs) && Keys(rs) == Keys(Result(w, conv, e).outbox) &&
      OnlyOwn(Keys(w.outbox), Current(w, conv), Keys(rs)) && Keys(rs) <= Keys(w.outbox) + {KeyOf(Current(w, conv))}
  {
    hide HalfTurn, Inv, DistinctIDs;
    var r, sending := Current(w, conv), w.passes[conv].sending;
    CurrentAgrees(w, conv);
    InvDistinct(w);
    HalfOwn(w.outbox, r, e, sending);
    HalfAdds(w.outbox, r, e, sending);
    if Restores(w, conv, e) {
      ReinsertedOutbox(w.outbox, r, e, sending);
      SameMembersSameKeys(sorted, Result(w, conv, e).outbox);
    }
  }

  lemma InvDistinct(w: Delivery)
    requires Inv(w)
    ensures DistinctIDs(w.outbox)
  {
  }

  lemma SameMembersSameKeys(s: seq<Record>, rs: seq<Record>)
    requires forall x :: x in s <==> x in rs
    ensures Keys(s) == Keys(rs)
  {
  }

  lemma FailureAdds(rs: seq<Record>, r: Record, e: Env, err: SendError)
    requires DistinctIDs(rs)
    ensures Keys(HandleFailure(rs, r, e, err)) <= Keys(rs) + {KeyOf(r)}
  {
    RemoveKeys(rs, r.id);
    if !Drops(r, e, err) {
      FailureEffect(rs, r, e, err);
      var rs' := HandleFailure(rs, r, e, err);
      if Has(rs, r.id) || !WritesBack(r, e, err) { SameRecordsSameKeys(rs, rs'); } else { AddsKey(rs, rs', WrittenBack(r, e, err)); }
    }
  }

  lemma HalfAdds(rs: seq<Record>, r: Record, e: Env, sending: bool)
    requires DistinctIDs(rs)
    ensures Keys(HalfTurn(rs, r, e, sending).outbox) <= Keys(rs) + {KeyOf(r)}
  {
    hide HandleFailure, OddDuplicates, OutboxRecords.RemoveMessage, CancelDuplicates, DistinctIDs, Keys, HasReaction;
    FailureAdds(rs, r, e, EarlyError(e));
    if e.task.TaskFailed? { FailureAdds(rs, r, e, e.task.err); }
    if e.send.Failed? { FailureAdds(rs, r, e, e.send.err); }
    RemoveKeys(rs, r.id);
    if r.kind.Reaction? {
      CancelKeys(rs, r);
      RemoveKeys(CancelDuplicates(rs, r), r.id);
    }
  }

  lemma NewOutboxKeepsInv(w: Delivery, rs: seq<Record>, r: Record)
    requires Inv(w) && Known(w, r) && DistinctIDs(rs) && Keys(rs) <= Keys(w.outbox) + {KeyOf(r)}
    ensures Inv(WithOutbox(w, rs))
  {
    var w' := WithOutbox(w, rs);
    forall x | x in rs ensures Known(w', x) {
      assert KeyOf(x) in Keys(rs);
    }
    assert forall x :: Known(w, x) ==> Known(w', x);
  }

  lemma TurnKeepsInv(w: Delivery, conv: ConvID, e: Env, sorted: seq<Record>)
    requires Inv(w) && Enabled(w, TakeTurn(conv, e, sorted))
    ensures Inv(Next(w, TakeTurn(conv, e, sorted)))
  {
    hide HalfTurn, DistinctIDs, Keys, Inv, OutboxAfter;
    CurrentAgrees(w, conv);
    TurnKeys(w, conv, e, sorted);
    var rs := OutboxAfter(w, conv, e, sorted);
    NewOutboxKeepsInv(w, rs, Current(w, conv));
    FewerPasses(WithOutbox(w, rs), Next(w, TakeTurn(conv, e, sorted)), conv, Result(w, conv, e).after);
  }

  /** Going on in a pass, or ending it, keeps the invariant. */
  lemma FewerPasses(w: Delivery, w': Delivery, conv: ConvID, after: After)
    requires Inv(w) && conv in w.passes && w' == w.(passes := w'.passes, received := w'.received)
    requires w'.passes == PassesAfter(w.passes, conv, after)
    ensures Inv(w')
  {
    assert forall x :: Known(w, x) ==> Known(w', x);
  }

  lemma SnapshotsKnown(w: Delivery)
    requires Inv(w)
    ensures Inv(w.(passes := map c | c in Convs(w.outbox) :: Progress(Pending(w.outbox, c), 0, false)))
  {
    var w' := w.(passes := map c | c in Convs(w.outbox) :: Progress(Pending(w.outbox, c), 0, false));
    forall c | c in w'.passes ensures |w'.passes[c].snap| > 0 { SomePending(w.outbox, c); }
    hide Keep, DistinctIDs;
    assert forall x :: Known(w, x) ==> Known(w', x);
    forall c, j | c in w'.passes && 0 <= j < |w'.passes[c].snap| ensures Known(w', w'.passes[c].snap[j]) && w'.passes[c].snap[j].conv == c {
      assert w'.passes[c].snap[j] in Pending(w.outbox, c);
    }
  }

  lemma SomePending(rs: seq<Record>, c: ConvID)
    requires c in Convs(rs)
    ensures Pending(rs, c) != []
  {
    var r :| r in rs && r.state.Sending? && r.conv == c;
    assert r in Pending(rs, c);
  }

  lemma QueueKeepsInv(w: Delivery, conv: ConvID, kind: Kind, now: Time)
    requires Inv(w)
    ensures Inv(Next(w, Queue(conv, kind, now)))
  {
    var w' := Next(w, Queue(conv, kind, now));
    var r := w'.pushed[|w.pushed|];
    assert forall x :: x in w.outbox ==> Known(w, x);
    DistinctSnoc(w.outbox, r);
    assert SendingIDs(w'.outbox) == SendingIDs(w.outbox) + {r.id};
    assert forall x :: Known(w, x) ==> Known(w', x);
    assert Known(w', r);
  }

  lemma ResetKeeps(rs: seq<Record>, id: OutboxID, now: Time)
    requires DistinctIDs(rs)
    ensures SameRecords(rs, Reset(rs, id, now)) && DistinctIDs(Reset(rs, id, now)) && Keys(Reset(rs, id, now)) == Keys(rs)
  {
    SameRecordsSameKeys(rs, Reset(rs, id, now));
  }

  lemma SameKeysKeepInv(w: Delivery, rs: seq<Record>)
    requires Inv(w) && DistinctIDs(rs) && Keys(rs) <= Keys(w.outbox)
    ensures Inv(WithOutbox(w, rs))
  {
    if rs == [] {
      assert forall x :: Known(w, x) ==> Known(WithOutbox(w, rs), x);
    } else {
      assert KeyOf(rs[0]) in Keys(rs);
      var x :| x in w.outbox && KeyOf(x) == KeyOf(rs[0]);
      NewOutboxKeepsInv(w, rs, x);
    }
  }

  lemma StepKeepsInv(w: Delivery, ev: Event)
    requires Inv(w) && Enabled(w, ev)
    ensures Inv(Next(w, ev))
  {
    hide Inv, DistinctIDs, Keys, Pending;
    InvDistinct(w);
    match ev
    case Queue(conv, kind, now) => QueueKeepsInv(w, conv, kind, now);
    case Pull => SnapshotsKnown(w);
    case TakeTurn(conv, e, sorted) => TurnKeepsInv(w, conv, e, sorted);
    case RetryMessage(id, now) => ResetKeeps(w.outbox, id, now); SameKeysKeepInv(w, Reset(w.outbox, id, now));
    case RemoveByUser(id) => RemoveKeys(w.outbox, id); SameKeysKeepInv(w, OutboxRecords.RemoveMessage(w.outbox, id));
  }

  lemma {:induction false} RunKeepsInv(w: Delivery, evs: seq<Event>)
    requires Inv(w) && IsRun(w, evs)
    ensures Inv(Final(w, evs))
    decreases |evs|
  {
    hide Inv, Next, Enabled;
    if evs != [] {
      StepKeepsInv(w, evs[0]);
      RunKeepsInv(Next(w, evs[0]), evs[1..]);
    }
  }

  /******* Passes end *******/

  /** In every reachable state each pass under way has a record to go on with. */
  lemma PassesHaveTurns(evs: seq<Event>, conv: ConvID)
    requires IsRun(Empty, evs) && conv in Final(Empty, evs).passes
    ensures var p := Final(Empty, evs).passes[conv]; p.at < |p.snap|
  {
    hide IsRun, Final;
    RunKeepsInv(Empty, evs);
    assert PassKnown(Final(Empty, evs), conv, Final(Empty, evs).passes[conv]);
  }

  /** Whatever the world answers, the next step of a pass can be taken. */
  lemma TurnIsEnabled(w: Delivery, conv: ConvID, e: Env) returns (sorted: seq<Record>)
    requires Inv(w) && conv in w.passes
    ensures Enabled(w, TakeTurn(conv, e, sorted)) && sorted == Result(w, conv, e).outbox
  {
    hide Sorts, HalfTurn;
    InvDistinct(w);
    assert PassKnown(w, conv, w.passes[conv]);
    sorted := Result(w, conv, e).outbox;
    if Restores(w, conv, e) { ReinsertedOutbox(w.outbox, Current(w, conv), e, w.passes[conv].sending); }
  }

  ghost predicate OnlyTurns(evs: seq<Event>, e: Env) {
    forall i :: 0 <= i < |evs| ==> evs[i].TakeTurn? && evs[i].env == e
  }

  lemma {:induction false} PassEnds(w: Delivery, conv: ConvID, e: Env) returns (evs: seq<Event>)
    requires Inv(w) && conv in w.passes
    ensures IsRun(w, evs) && OnlyTurns(evs, e) && Inv(Final(w, evs)) && Final(w, evs).passes == w.passes - {conv}
    decreases |w.passes[conv].snap| - w.passes[conv].at, !w.passes[conv].sending
  {
    hide Inv, Enabled, Next;
    var ev := PassMoves(w, conv, e);
    var w' := Next(w, ev);
    if conv in w'.passes {
      var rest := PassEnds(w', conv, e);
      evs := [ev] + rest;
      assert evs[1..] == rest;
    } else {
      evs := [ev];
      assert evs[1..] == [];
    }
  }

  /** A step of a pass ends it, moves it on, or hands its record to the sender, which happens once for each. */
  lemma PassMoves(w: Delivery, conv: ConvID, e: Env) returns (ev: Event)
    requires Inv(w) && conv in w.passes
    ensures Enabled(w, ev) && ev.TakeTurn? && ev.env == e && Inv(Next(w, ev))
    ensures var passes := Next(w, ev).passes;
      && passes - {conv} == w.passes - {conv} && (conv !in passes ==> passes == w.passes - {conv})
      && (conv in passes ==> var p, p' := w.passes[conv], passes[conv];
            p'.snap == p.snap && p.at < |p.snap| && (p'.at > p.at || (p'.at == p.at && p'.sending && !p.sending)))
  {
    var sorted := TurnIsEnabled(w, conv, e);
    ev := TakeTurn(conv, e, sorted);
    StepKeepsInv(w, ev);
    hide Inv, HalfTurn, Sorts, OutboxAfter;
    ResultEnds(w, conv, e);
  }

  lemma ResultEnds(w: Delivery, conv: ConvID, e: Env)
    requires conv in w.passes && w.passes[conv].at < |w.passes[conv].snap|
    ensures w.passes[conv].sending ==> !Result(w, conv, e).after.Sends?
  {
    hide Begin, Complete;
    CompleteEnds(w.outbox, Current(w, conv), e);
  }

  lemma CompleteEnds(rs: seq<Record>, r: Record, e: Env)
    ensures !Complete(rs, r, e).after.Sends?
  {
  }

  lemma {:induction false} RunOn(w: Delivery, evs: seq<Event>, more: seq<Event>)
    requires IsRun(w, evs) && IsRun(Final(w, evs), more)
    ensures IsRun(w, evs + more) && Final(w, evs + more) == Final(Final(w, evs), more)
    decreases |evs|
  {
    hide Next, Enabled;
    if evs == [] {
      assert evs + more == more;
    } else {
      RunOn(Next(w, evs[0]), evs[1..], more);
      assert (evs + more)[1..] == evs[1..] + more;
    }
  }

  /** The deliverer never gets stuck: whatever the world keeps answering, all passes end and a pull comes again. */
  lemma {:induction false} PullComesAgain(w: Delivery, e: Env) returns (evs: seq<Event>)
    requires Inv(w)
    ensures IsRun(w, evs) && OnlyTurns(evs, e) && Inv(Final(w, evs)) && Enabled(Final(w, evs), Pull)
    decreases |w.passes|
  {
    hide Inv, IsRun, Final;
    if w.passes == map[] {
      evs := [];
      NoRun(w);
    } else {
      var conv :| conv in w.passes;
      var first := PassEnds(w, conv, e);
      FewerKeys(w.passes, conv);
      var rest := PullComesAgain(Final(w, first), e);
      evs := first + rest;
      RunOn(w, first, rest);
    }
  }

  lemma NoRun(w: Delivery)
    ensures IsRun(w, []) && Final(w, []) == w
  {
  }

  lemma FewerKeys(m: map<ConvID, Progress>, c: ConvID)
    requires c in m
    ensures |m - {c}| < |m|
  {
    assert (m - {c}).Keys == m.Keys - {c};
    assert |m.Keys - {c}| < |m.Keys|;
  }

  /******* A pass without interference *******/

  /** One step of a pass, with the outbox as the outbox methods leave it. */
  lemma StepRuns(w: Delivery, conv: ConvID, e: Env) returns (ev: Event)
    requires Inv(w) && conv in w.passes
    ensures Enabled(w, ev) && ev.TakeTurn? && ev.conv == conv && Inv(Next(w, ev)) && w.passes[conv].at < |w.passes[conv].snap|
    ensures var h, w' := Result(w, conv, e), Next(w, ev);
      && w'.outbox == h.outbox && w'.passes == PassesAfter(w.passes, conv, h.after)
      && w'.received == w.received + if h.delivered then [Current(w, conv)] else []
  {
    var sorted := TurnIsEnabled(w, conv, e);
    ev := TakeTurn(conv, e, sorted);
    StepKeepsInv(w, ev);
    hide Inv, HalfTurn, Sorts;
    assert w.received + [] == w.received;
  }

  ghost predicate OnlyOf(evs: seq<Event>, conv: ConvID) {
    forall ev :: ev in evs ==> ev.TakeTurn? && ev.conv == conv
  }

  /** The pass has taken the turn of its record and is ready for the next, or over. */
  ghost predicate TookTurn(w: Delivery, conv: ConvID, e: Env, w': Delivery)
    requires conv in w.passes && w.passes[conv].at < |w.passes[conv].snap|
  {
    var p, t := w.passes[conv], Process(w.outbox, Current(w, conv), e);
    && w'.outbox == t.outbox && w'.received == w.received + (if t.delivered then [Current(w, conv)] else [])
    && w'.passes == if t.stop || p.at + 1 == |p.snap| then w.passes - {conv} else w.passes[conv := Progress(p.snap, p.at + 1, false)]
  }

  lemma TurnRuns(w: Delivery, conv: ConvID, e: Env) returns (evs: seq<Event>)
    requires Inv(w) && conv in w.passes && !w.passes[conv].sending
    ensures w.passes[conv].at < |w.passes[conv].snap|
    ensures IsRun(w, evs) && OnlyOf(evs, conv) && Inv(Final(w, evs)) && TookTurn(w, conv, e, Final(w, evs))
  {
    hide Inv, Next, Enabled, Process, HandleFailure, AfterCancel, AbortsSend, OutboxRecords.RemoveMessage;
    var ev := StepRuns(w, conv, e);
    var w1, r := Next(w, ev), Current(w, conv);
    TurnIsTwoHalves(w.outbox, r, e);
    BeginDelivers(w.outbox, r, e);
    CompleteEnds(w1.outbox, r, e);
    hide Begin, Complete;
    if Result(w, conv, e).after.Sends? {
      var ev' := StepRuns(w1, conv, e);
      evs := [ev, ev'];
      assert evs[1..] == [ev'] && [ev'][1..] == [];
      var w2 := Next(w1, ev');
      assert IsRun(w2, []) && IsRun(w1, [ev']) && Final(w1, [ev']) == w2;
      SentThenDone(w, conv);
      assert w.received + [] == w.received;
    } else {
      evs := [ev];
      assert evs[1..] == [];
    }
  }

  lemma SentThenDone(w: Delivery, conv: ConvID)
    requires conv in w.passes && !w.passes[conv].sending
    ensures var ps := w.passes[conv := w.passes[conv].(sending := true)]; var p := w.passes[conv];
      && ps - {conv} == w.passes - {conv}
      && ps[conv := Progress(p.snap, p.at + 1, false)] == w.passes[conv := Progress(p.snap, p.at + 1, false)]
  {
  }

  /** A pass that runs with nothing in between is deliverForConv: the same outbox and the same deliveries. */
  lemma {:induction false} PassRuns(w: Delivery, conv: ConvID, envs: seq<Env>) returns (evs: seq<Event>)
    requires Inv(w) && conv in w.passes && !w.passes[conv].sending && |envs| == |w.passes[conv].snap|
    ensures IsRun(w, evs) && OnlyOf(evs, conv) && w.passes[conv].at < |w.passes[conv].snap|
    ensures var p, w' := w.passes[conv], Final(w, evs); var res := Pass(w.outbox, p.snap, envs, p.at);
      w'.outbox == res.outbox && w'.received == w.received + res.delivered && w'.passes == w.passes - {conv}
    decreases |w.passes[conv].snap| - w.passes[conv].at
  {
    hide Inv, IsRun, Final, Process, Pass;
    InvHasTurn(w, conv);
    var p := w.passes[conv];
    var first := TurnRuns(w, conv, envs[p.at]);
    var w1 := Final(w, first);
    PassNext(w.outbox, p.snap, envs, p.at, []);
    PassFrom(w.outbox, p.snap, envs, p.at);
    if conv in w1.passes {
      assert w1.passes - {conv} == w.passes - {conv};
      var rest := PassRuns(w1, conv, envs);
      RunOn(w, first, rest);
      evs := first + rest;
      var t := Process(w.outbox, p.snap[p.at], envs[p.at]);
      var sent := if t.delivered then [p.snap[p.at]] else [];
      assert w.received + sent + Pass(t.outbox, p.snap, envs, p.at + 1).delivered == w.received + (sent + Pass(t.outbox, p.snap, envs, p.at + 1).delivered);
      assert [] + sent == sent;
    } else {
      evs := first;
      PassLast(w.outbox, p.snap, envs, p.at);
    }
  }

  lemma InvHasTurn(w: Delivery, conv: ConvID)
    requires Inv(w) && conv in w.passes
    ensures w.passes[conv].at < |w.passes[conv].snap|
  {
    assert PassKnown(w, conv, w.passes[conv]);
  }

  lemma PassFrom(rs: seq<Record>, snap: seq<Record>, envs: seq<Env>, i: nat)
    requires i < |snap| == |envs|
    ensures Following([], Pass(rs, snap, envs, i)) == Pass(rs, snap, envs, i)
  {
    hide Process, Pass;
    assert [] + Pass(rs, snap, envs, i).delivered == Pass(rs, snap, envs, i).delivered;
  }

  lemma PassLast(rs: seq<Record>, snap: seq<Record>, envs: seq<Env>, i: nat)
    requires i < |snap| == |envs| && (Process(rs, snap[i], envs[i]).stop || i + 1 == |snap|)
    ensures var t := Process(rs, snap[i], envs[i]);
      Pass(rs, snap, envs, i) == PassResult(t.outbox, if t.delivered then [snap[i]] else [])
  {
    hide Process;
  }
}
