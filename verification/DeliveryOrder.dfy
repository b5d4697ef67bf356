/**
 The order in which plain records of a conversation reach the sender, over every interleaving of pushes,
 retries and removals with the delivery passes of all conversations (go/chat/deliverer.go:665-789).
 */
module DeliveryOrder {
  import opened OutboxRecords
  import opened Deliverer
  import opened ReactionParity
  import opened DeliveryMachine

  /** Record i was pushed for this conversation as a plain record and has never been released. */
  ghost predicate Waiting(w: Delivery, conv: ConvID, i: nat) {
    i < |w.pushed| && w.pushed[i].conv == conv && w.pushed[i].kind.Plain? && i !in w.released
  }

  ghost function WaitingIDs(w: Delivery, conv: ConvID): set<OutboxID> {
    set i | 0 <= i < |w.pushed| && Waiting(w, conv, i)
  }

  predicate PlainOf(r: Record, conv: ConvID) {
    r.conv == conv && r.kind.Plain?
  }

  /** Among the plain records of the conversation, no waiting one comes after one that was pushed later. */
  ghost predicate Lined(rs: seq<Record>, conv: ConvID, waiting: set<OutboxID>) {
    forall p, q :: 0 <= p < q < |rs| && PlainOf(rs[p], conv) && PlainOf(rs[q], conv) && rs[q].id in waiting ==> rs[p].id < rs[q].id
  }

  /******* Steps that put nothing back *******/

  lemma {:induction false} KeepLined(rs: seq<Record>, f: Record -> bool, conv: ConvID, waiting: set<OutboxID>)
    requires Lined(rs, conv, waiting)
    ensures Lined(Keep(rs, f), conv, waiting)
  {
    if rs != [] {
      var front, last := rs[..|rs| - 1], rs[|rs| - 1];
      KeepLined(front, f, conv, waiting);
      var r := Keep(front, f);
      forall p | 0 <= p < |r| && PlainOf(r[p], conv) && PlainOf(last, conv) && last.id in waiting ensures r[p].id < last.id {
        assert r[p] in front;
        var i :| 0 <= i < |front| && front[i] == r[p];
        assert rs[i] == r[p];
      }
    }
  }

  lemma SameRecordsLined(rs: seq<Record>, rs': seq<Record>, conv: ConvID, waiting: set<OutboxID>)
    requires Lined(rs, conv, waiting) && SameRecords(rs, rs')
    ensures Lined(rs', conv, waiting)
  {
  }

  lemma FailureLined(rs: seq<Record>, r: Record, e: Env, err: SendError, conv: ConvID, waiting: set<OutboxID>)
    requires DistinctIDs(rs) && Lined(rs, conv, waiting) && (Has(rs, r.id) || !WritesBack(r, e, err))
    ensures Lined(HandleFailure(rs, r, e, err), conv, waiting)
  {
    hide Lined;
    KeepLined(rs, (x: Record) => x.id != r.id, conv, waiting);
    if !Drops(r, e, err) {
      FailureEffect(rs, r, e, err);
      SameRecordsLined(rs, HandleFailure(rs, r, e, err), conv, waiting);
    }
  }

  lemma CancelLined(rs: seq<Record>, r: Record, conv: ConvID, waiting: set<OutboxID>)
    requires Lined(rs, conv, waiting)
    ensures Lined(AfterCancel(rs, r), conv, waiting)
  {
    hide OddDuplicates, HasReaction, Lined;
    KeepLined(rs, (x: Record) => !Duplicates(x, r), conv, waiting);
    KeepLined(CancelDuplicates(rs, r), (x: Record) => x.id != r.id, conv, waiting);
  }

  lemma HalfLined(rs: seq<Record>, r: Record, e: Env, sending: bool, conv: ConvID, waiting: set<OutboxID>)
    requires DistinctIDs(rs) && Lined(rs, conv, waiting) && !Reinserts(rs, r, e, sending)
    ensures Lined(HalfTurn(rs, r, e, sending).outbox, conv, waiting)
  {
    hide HandleFailure, AfterCancel, AbortsSend, WritesBack, Has, Lined, DistinctIDs;
    if sending {
      KeepLined(rs, (x: Record) => x.id != r.id, conv, waiting);
      if e.send.Failed? { FailureLined(rs, r, e, e.send.err, conv, waiting); }
    } else if FailsEarly(r, e) {
      FailureLined(rs, r, e, EarlyError(e), conv, waiting);
    } else if NeedsTask(r) && e.task.TaskFailed? {
      FailureLined(rs, r, e, e.task.err, conv, waiting);
    } else {
      CancelLined(rs, r, conv, waiting);
    }
  }

  /******* Steps that put a record back *******/

  /** A waiting plain record has an earlier ctime than every plain record pushed after it. */
  ghost predicate ClockOrder(rs: seq<Record>, conv: ConvID, waiting: set<OutboxID>) {
    forall x, y :: x in rs && y in rs && PlainOf(x, conv) && PlainOf(y, conv) && x.id in waiting && x.id < y.id ==> x.ctime < y.ctime
  }

  lemma ClockOrderLines(rs: seq<Record>, s: seq<Record>, conv: ConvID, waiting: set<OutboxID>)
    requires ClockOrder(rs, conv, waiting) && Sorts(rs, s)
    ensures Lined(s, conv, waiting)
  {
    forall p, q | 0 <= p < q < |s| && PlainOf(s[p], conv) && PlainOf(s[q], conv) && s[q].id in waiting ensures s[p].id < s[q].id {
      assert s[p] in s && s[q] in s;
    }
  }

  /** Everything before y is strictly earlier. */
  ghost predicate FirstOf(s: seq<Record>, y: Record) {
    exists i :: 0 <= i < |s| && s[i] == y && forall j :: 0 <= j < i ==> s[j].ctime < y.ctime
  }

  lemma {:induction false} InsertFirst(s: seq<Record>, y: Record, z: Record)
    requires ByCtime(s) && FirstOf(s, y)
    ensures FirstOf(Insert(s, z), y)
  {
    var i :| 0 <= i < |s| && s[i] == y && forall j :: 0 <= j < i ==> s[j].ctime < y.ctime;
    if s[|s| - 1].ctime <= z.ctime {
      assert (s + [z])[i] == y;
    } else {
      var front, last := s[..|s| - 1], s[|s| - 1];
      var r := Insert(front, z) + [last];
      InsertKeeps(front, z);
      if i < |s| - 1 {
        assert front[i] == y;
        InsertFirst(front, y, z);
        var k :| 0 <= k < |Insert(front, z)| && Insert(front, z)[k] == y && forall j :: 0 <= j < k ==> Insert(front, z)[j].ctime < y.ctime;
        assert r[k] == y;
      } else {
        assert r[|s|] == y;
        forall j | 0 <= j < |s| ensures r[j].ctime < y.ctime {
          assert Insert(front, z)[j] in Insert(front, z);
          assert forall x :: x in front ==> exists m :: 0 <= m < i && s[m] == x;
        }
      }
    }
  }

  lemma {:induction false} SortPutsFirst(y: Record, rs: seq<Record>)
    ensures FirstOf(SortByCtime([y] + rs), y)
  {
    if rs == [] {
      assert [y] + [] == [y] && [y][..0] == [];
      assert SortByCtime([y]) == [y];
      assert [y][0] == y;
    } else {
      var n := |rs| - 1;
      SortPutsFirst(y, rs[..n]);
      assert ([y] + rs)[..n + 1] == [y] + rs[..n];
      SortIsByCtime([y] + rs[..n]);
      InsertFirst(SortByCtime([y] + rs[..n]), y, rs[n]);
    }
  }

  lemma WithoutOne(rs: seq<Record>, y: Record) returns (s: seq<Record>)
    requires DistinctIDs(rs) && y in rs
    ensures DistinctIDs([y] + s) && forall x :: x in [y] + s <==> x in rs
  {
    var i :| 0 <= i < |rs| && rs[i] == y;
    s := rs[..i] + rs[i + 1..];
    assert rs == rs[..i] + [y] + rs[i + 1..];
    var t := [y] + s;
    forall p, q | 0 <= p < q < |t| ensures t[p].id != t[q].id {
      assert t[q] == rs[if q <= i then q - 1 else q];
      assert p > 0 ==> t[p] == rs[if p <= i then p - 1 else p];
    }
  }

  /** A sort may put y before any record that is not strictly earlier. */
  lemma SortWithFirst(rs: seq<Record>, y: Record) returns (s: seq<Record>)
    requires DistinctIDs(rs) && y in rs
    ensures Sorts(rs, s) && FirstOf(s, y)
  {
    var rest := WithoutOne(rs, y);
    hide SortByCtime;
    s := SortByCtime([y] + rest);
    SortSorts([y] + rest);
    SortPutsFirst(y, rest);
  }

  /** Re-sorting by ctime keeps every waiting record of the conversation ahead of those pushed after it, whatever
      the sort does with equal ctimes, exactly when its ctime is strictly earlier than theirs. */
  lemma SortKeepsOrderIff(rs: seq<Record>, conv: ConvID, waiting: set<OutboxID>)
    requires DistinctIDs(rs)
    ensures (forall s :: Sorts(rs, s) ==> Lined(s, conv, waiting)) <==> ClockOrder(rs, conv, waiting)
  {
    hide Sorts;
    if ClockOrder(rs, conv, waiting) {
      forall s | Sorts(rs, s) ensures Lined(s, conv, waiting) { ClockOrderLines(rs, s, conv, waiting); }
    } else {
      var x, y :| x in rs && y in rs && PlainOf(x, conv) && PlainOf(y, conv) && x.id in waiting && x.id < y.id && x.ctime >= y.ctime;
      var s := SortWithFirst(rs, y);
      FirstBreaksLine(rs, s, x, y, conv, waiting);
    }
  }

  lemma FirstBreaksLine(rs: seq<Record>, s: seq<Record>, x: Record, y: Record, conv: ConvID, waiting: set<OutboxID>)
    requires Sorts(rs, s) && FirstOf(s, y) && x in rs && PlainOf(x, conv) && PlainOf(y, conv)
    requires x.id in waiting && x.id < y.id && x.ctime >= y.ctime
    ensures !Lined(s, conv, waiting)
  {
    var i :| 0 <= i < |s| && s[i] == y && forall j :: 0 <= j < i ==> s[j].ctime < y.ctime;
    var j :| 0 <= j < |s| && s[j] == x;
    assert i < j;
  }

  /******* Every step keeps the conversation in line *******/

  /** A plain record still waiting that was pushed before a plain record ahead in the pass is itself
      ahead in the pass, and earlier. */
  ghost predicate PassInOrder(w: Delivery, conv: ConvID, p: Progress) {
    forall j, i: nat :: p.at <= j < |p.snap| && p.snap[j].kind.Plain? && Waiting(w, conv, i) && i < p.snap[j].id ==>
      exists k :: p.at <= k < j && p.snap[k].id == i
  }

  ghost predicate InLine(w: Delivery, conv: ConvID) {
    Lined(w.outbox, conv, WaitingIDs(w, conv)) && (conv in w.passes ==> PassInOrder(w, conv, w.passes[conv]))
  }

  /** Should the step put a record back, the ctimes of the conversation's plain records are in push order. */
  ghost predicate Guard(w: Delivery, ev: Event, conv: ConvID)
    requires Enabled(w, ev)
  {
    ev.TakeTurn? && Restores(w, ev.conv, ev.env) ==> ClockOrder(Restored(w, ev.conv, ev.env), conv, WaitingIDs(w, conv))
  }

  lemma FewerWaitingLined(rs: seq<Record>, conv: ConvID, waiting: set<OutboxID>, fewer: set<OutboxID>)
    requires Lined(rs, conv, waiting) && fewer <= waiting
    ensures Lined(rs, conv, fewer)
  {
  }

  /** Releasing records and moving past a released one keeps a pass in order. */
  lemma PassStaysInOrder(w: Delivery, w': Delivery, conv: ConvID, p: Progress, p': Progress)
    requires PassInOrder(w, conv, p) && PassKnown(w, conv, p) && OutboxInv(w) && w'.pushed == w.pushed && w.released <= w'.released
    requires p'.snap == p.snap && p.at <= p'.at <= |p.snap|
    requires forall k :: p.at <= k < p'.at && p.snap[k].kind.Plain? ==> p.snap[k].id in w'.released
    ensures PassInOrder(w', conv, p')
  {
    forall j, i: nat | p'.at <= j < |p.snap| && p.snap[j].kind.Plain? && Waiting(w', conv, i) && i < p.snap[j].id
      ensures exists k :: p'.at <= k < j && p.snap[k].id == i
    {
      assert Waiting(w, conv, i);
      var k :| p.at <= k < j && p.snap[k].id == i;
      assert Known(w, p.snap[k]);
    }
  }

  /** A plain record that the loop moves on from is no longer pending. */
  lemma PlainTurn(rs: seq<Record>, r: Record, e: Env, sending: bool)
    requires r.kind.Plain? && HalfTurn(rs, r, e, sending).after.GoesOn?
    ensures r.id !in SendingIDs(HalfTurn(rs, r, e, sending).outbox) && !Writes(r, e, sending)
  {
  }

  lemma TurnLinesOutbox(w: Delivery, ev: Event, conv: ConvID)
    requires Inv(w) && InLine(w, conv) && Enabled(w, ev) && ev.TakeTurn? && Guard(w, ev, conv)
    ensures Lined(Next(w, ev).outbox, conv, WaitingIDs(Next(w, ev), conv))
  {
    hide HalfTurn, Lined, Inv, ClockOrder, Sorts, PassInOrder;
    var w' := Next(w, ev);
    var waiting := WaitingIDs(w, conv);
    InvDistinct(w);
    if Restores(w, ev.conv, ev.env) {
      ClockOrderLines(Restored(w, ev.conv, ev.env), ev.sorted, conv, waiting);
    } else {
      HalfLined(w.outbox, Current(w, ev.conv), ev.env, w.passes[ev.conv].sending, conv, waiting);
    }
    assert WaitingIDs(w', conv) <= waiting;
    FewerWaitingLined(w'.outbox, conv, waiting, WaitingIDs(w', conv));
  }

  lemma TurnKeepsLine(w: Delivery, ev: Event, conv: ConvID)
    requires Inv(w) && InLine(w, conv) && Enabled(w, ev) && ev.TakeTurn? && Guard(w, ev, conv)
    ensures InLine(Next(w, ev), conv)
  {
    hide HalfTurn, Lined, DistinctIDs, PassInOrder, Keys, Sorts, ClockOrder;
    TurnLinesOutbox(w, ev, conv);
    var w' := Next(w, ev);
    if conv in w'.passes {
      if ev.conv == conv && w'.passes[conv].at > w.passes[conv].at && Current(w, conv).kind.Plain? { PlainIsReleased(w, ev); }
      PassStaysInOrder(w, w', conv, w.passes[conv], w'.passes[conv]);
    }
  }

  lemma PlainIsReleased(w: Delivery, ev: Event)
    requires Inv(w) && Enabled(w, ev) && ev.TakeTurn?
    requires Result(w, ev.conv, ev.env).after.GoesOn? && Current(w, ev.conv).kind.Plain?
    ensures Current(w, ev.conv).id in Next(w, ev).released
  {
    hide HalfTurn, Sorts, DistinctIDs;
    var r := Current(w, ev.conv);
    PlainTurn(w.outbox, r, ev.env, w.passes[ev.conv].sending);
    assert Known(w, r);
  }

  lemma PullKeepsLine(w: Delivery, conv: ConvID)
    requires Inv(w) && InLine(w, conv) && Enabled(w, Pull)
    ensures InLine(Next(w, Pull), conv)
  {
    hide Lined, PassInOrder, Inv, Pending;
    var w' := Next(w, Pull);
    assert WaitingIDs(w', conv) == WaitingIDs(w, conv);
    if conv in w'.passes { PullInOrder(w, w', conv); }
  }

  lemma PullInOrder(w: Delivery, w': Delivery, conv: ConvID)
    requires Inv(w) && Lined(w.outbox, conv, WaitingIDs(w, conv)) && w' == w.(passes := w'.passes)
    ensures PassInOrder(w', conv, Progress(Pending(w.outbox, conv), 0, false))
  {
    var snap := Pending(w.outbox, conv);
    KeepLined(w.outbox, (r: Record) => r.conv == conv && r.state.Sending?, conv, WaitingIDs(w, conv));
    forall j, i: nat | 0 <= j < |snap| && snap[j].kind.Plain? && Waiting(w', conv, i) && i < snap[j].id
      ensures exists k :: 0 <= k < j && snap[k].id == i
    {
      assert snap[j] in snap;
      WaitingIsPending(w, conv, i);
      var k :| 0 <= k < |snap| && snap[k].id == i && PlainOf(snap[k], conv);
      assert i in WaitingIDs(w, conv);
    }
  }

  lemma WaitingIsPending(w: Delivery, conv: ConvID, i: nat)
    requires Inv(w) && Waiting(w, conv, i)
    ensures exists k :: 0 <= k < |Pending(w.outbox, conv)| && Pending(w.outbox, conv)[k].id == i && PlainOf(Pending(w.outbox, conv)[k], conv)
  {
    assert i in SendingIDs(w.outbox);
    var x :| x in w.outbox && x.state.Sending? && x.id == i;
    assert Known(w, x);
    assert x in Pending(w.outbox, conv);
    var k :| 0 <= k < |Pending(w.outbox, conv)| && Pending(w.outbox, conv)[k] == x;
  }

  lemma QueueKeepsLine(w: Delivery, c: ConvID, kind: Kind, now: Time, conv: ConvID)
    requires Inv(w) && InLine(w, conv)
    ensures InLine(Next(w, Queue(c, kind, now)), conv)
  {
    var w' := Next(w, Queue(c, kind, now));
    assert forall x :: x in w.outbox ==> Known(w, x);
    assert forall i :: 0 <= i < |w.outbox| ==> w.outbox[i] in w.outbox && w'.outbox[i] == w.outbox[i];
    assert forall i: nat :: i < |w.pushed| ==> (Waiting(w', conv, i) <==> Waiting(w, conv, i));
    if conv in w'.passes {
      assert PassKnown(w, conv, w.passes[conv]);
    }
  }

  lemma NewOutboxKeepsLine(w: Delivery, rs: seq<Record>, conv: ConvID)
    requires Inv(w) && InLine(w, conv) && Lined(rs, conv, WaitingIDs(w, conv))
    ensures InLine(WithOutbox(w, rs), conv)
  {
    hide Lined, PassInOrder;
    var w' := WithOutbox(w, rs);
    assert WaitingIDs(w', conv) <= WaitingIDs(w, conv);
    FewerWaitingLined(rs, conv, WaitingIDs(w, conv), WaitingIDs(w', conv));
    if conv in w.passes { PassStaysInOrder(w, w', conv, w.passes[conv], w.passes[conv]); }
  }

  lemma StepKeepsLine(w: Delivery, ev: Event, conv: ConvID)
    requires Inv(w) && InLine(w, conv) && Enabled(w, ev) && Guard(w, ev, conv)
    ensures InLine(Next(w, ev), conv)
  {
    hide Inv, Guard, Lined, DistinctIDs;
    match ev
    case Queue(c, kind, now) => QueueKeepsLine(w, c, kind, now, conv);
    case Pull => PullKeepsLine(w, conv);
    case TakeTurn(_, _, _) => TurnKeepsLine(w, ev, conv);
    case RetryMessage(id, now) =>
      InvDistinct(w);
      ResetKeeps(w.outbox, id, now);
      SameRecordsLined(w.outbox, Reset(w.outbox, id, now), conv, WaitingIDs(w, conv));
      NewOutboxKeepsLine(w, Reset(w.outbox, id, now), conv);
    case RemoveByUser(id) =>
      KeepLined(w.outbox, (x: Record) => x.id != id, conv, WaitingIDs(w, conv));
      NewOutboxKeepsLine(w, OutboxRecords.RemoveMessage(w.outbox, id), conv);
  }

  /******* Whole runs *******/

  ghost predicate Guarded(w: Delivery, evs: seq<Event>, conv: ConvID)
    requires IsRun(w, evs)
    decreases |evs|
  {
    evs == [] || (Guard(w, evs[0], conv) && Guarded(Next(w, evs[0]), evs[1..], conv))
  }

  lemma {:induction false} RunKeepsLine(w: Delivery, evs: seq<Event>, conv: ConvID)
    requires Inv(w) && InLine(w, conv) && IsRun(w, evs) && Guarded(w, evs, conv)
    ensures Inv(Final(w, evs)) && InLine(Final(w, evs), conv)
    decreases |evs|
  {
    hide Inv, InLine, Next, Enabled, Guard;
    if evs != [] {
      StepKeepsInv(w, evs[0]);
      StepKeepsLine(w, evs[0], conv);
      RunKeepsLine(Next(w, evs[0]), evs[1..], conv);
    }
  }

  /** The pass of the conversation is at plain record b, and this environment gives it to the sender. */
  ghost predicate Gives(w: Delivery, conv: ConvID, e: Env, b: OutboxID) {
    && conv in w.passes && w.passes[conv].at < |w.passes[conv].snap|
    && Current(w, conv).id == b && Current(w, conv).kind.Plain? && Result(w, conv, e).after.Sends?
  }

  lemma InLineGives(w: Delivery, conv: ConvID, e: Env, b: OutboxID, i: nat)
    requires Inv(w) && InLine(w, conv) && Gives(w, conv, e, b) && i < b
    ensures !Waiting(w, conv, i)
  {
    assert PassKnown(w, conv, w.passes[conv]);
  }

  /** However pushes, retries, removals and the passes of all conversations interleave, a plain record is given
      to the sender only after every plain record pushed before it for the same conversation has been sent,
      removed or marked failed, as long as no record is put back while ctimes of this conversation are out of
      push order. */
  lemma SenderGetsPlainRecordsInOrder(evs: seq<Event>, conv: ConvID, e: Env, b: OutboxID, i: nat)
    requires IsRun(Empty, evs) && Guarded(Empty, evs, conv) && Gives(Final(Empty, evs), conv, e, b) && i < b
    ensures !Waiting(Final(Empty, evs), conv, i)
  {
    hide IsRun, Guarded, Final, Gives;
    RunKeepsLine(Empty, evs, conv);
    InLineGives(Final(Empty, evs), conv, e, b, i);
  }

  /******* Runs without retries are guarded *******/

  /** Plain records of the conversation are pushed at later and later times, and none is retried. */
  ghost predicate Untouched(w: Delivery, evs: seq<Event>, conv: ConvID)
    requires IsRun(w, evs)
    decreases |evs|
  {
    evs == [] || (Undisturbed(w, evs[0], conv) && Untouched(Next(w, evs[0]), evs[1..], conv))
  }

  ghost predicate Undisturbed(w: Delivery, ev: Event, conv: ConvID) {
    match ev
    case Queue(c, kind, now) => c == conv && kind.Plain? ==> forall x :: x in w.pushed && PlainOf(x, conv) ==> x.ctime < now
    case RetryMessage(id, _) => id < |w.pushed| ==> !PlainOf(w.pushed[id], conv)
    case _ => true
  }

  /** The record has the ctime of its push. */
  ghost predicate AsPushed(w: Delivery, x: Record, conv: ConvID) {
    PlainOf(x, conv) && x.id < |w.pushed| ==> x.ctime == w.pushed[x.id].ctime
  }

  ghost predicate Stamped(w: Delivery, conv: ConvID) {
    && (forall i, j :: 0 <= i < j < |w.pushed| && PlainOf(w.pushed[i], conv) && PlainOf(w.pushed[j], conv) ==> w.pushed[i].ctime < w.pushed[j].ctime)
    && (forall x :: x in w.outbox ==> AsPushed(w, x, conv))
    && (forall c, j :: c in w.passes && w.passes[c].at <= j < |w.passes[c].snap| ==> AsPushed(w, w.passes[c].snap[j], conv))
  }

  lemma StampedIsGuarded(w: Delivery, ev: Event, conv: ConvID)
    requires Inv(w) && Stamped(w, conv) && Enabled(w, ev)
    ensures Guard(w, ev, conv)
  {
    hide HalfTurn, Sorts, DistinctIDs;
    if ev.TakeTurn? {
      var r := Current(w, ev.conv);
      assert Known(w, r) && AsPushed(w, r, conv);
      var rs := Restored(w, ev.conv, ev.env);
      forall x | x in rs && PlainOf(x, conv) ensures Known(w, x) && x.ctime == w.pushed[x.id].ctime && PlainOf(w.pushed[x.id], conv) {
        assert x in w.outbox || KeyOf(x) == KeyOf(r);
      }
    }
  }

  /** y has the ID and the ctime of a record of rs, or of r. */
  ghost predicate From(rs: seq<Record>, r: Record, y: Record) {
    (exists x :: x in rs && KeyOf(x) == KeyOf(y) && x.ctime == y.ctime) || (KeyOf(r) == KeyOf(y) && r.ctime == y.ctime)
  }

  lemma FailureCtimes(rs: seq<Record>, r: Record, e: Env, err: SendError, y: Record)
    requires DistinctIDs(rs) && y in HandleFailure(rs, r, e, err)
    ensures From(rs, r, y)
  {
    var rs' := HandleFailure(rs, r, e, err);
    if Drops(r, e, err) {
      assert y in rs;
    } else if !Has(rs, r.id) && WritesBack(r, e, err) {
      FailureEffect(rs, r, e, err);
    } else {
      var i :| 0 <= i < |rs'| && rs'[i] == y;
      hide HandleFailure, Drops, WritesBack;
      CtimesInPlace(rs, r, e, err);
      assert rs[i] in rs;
    }
  }

  lemma CtimesInPlace(rs: seq<Record>, r: Record, e: Env, err: SendError)
    requires !Drops(r, e, err) && (Has(rs, r.id) || !WritesBack(r, e, err))
    ensures var rs' := HandleFailure(rs, r, e, err);
      |rs'| == |rs| && forall i :: 0 <= i < |rs| ==> KeyOf(rs'[i]) == KeyOf(rs[i]) && rs'[i].ctime == rs[i].ctime
  {
    hide SortByCtime;
  }

  lemma HalfCtimes(rs: seq<Record>, r: Record, e: Env, sending: bool, y: Record)
    requires DistinctIDs(rs) && y in HalfTurn(rs, r, e, sending).outbox
    ensures From(rs, r, y)
  {
    hide HandleFailure, OddDuplicates, HasReaction, DistinctIDs, Drops, WritesBack, From;
    if y in rs {
      InFrom(rs, r, y);
    } else if sending {
      FailureCtimes(rs, r, e, e.send.err, y);
    } else if FailsEarly(r, e) {
      FailureCtimes(rs, r, e, EarlyError(e), y);
    } else {
      FailureCtimes(rs, r, e, e.task.err, y);
    }
  }

  lemma InFrom(rs: seq<Record>, r: Record, y: Record)
    requires y in rs
    ensures From(rs, r, y)
  {
  }

  lemma TurnStaysStamped(w: Delivery, ev: Event, conv: ConvID)
    requires Inv(w) && Stamped(w, conv) && Enabled(w, ev) && ev.TakeTurn?
    ensures Stamped(Next(w, ev), conv)
  {
    hide HalfTurn, DistinctIDs, Inv, OutboxAfter, From;
    var r, w' := Current(w, ev.conv), Next(w, ev);
    InvDistinct(w);
    forall y | y in w'.outbox ensures AsPushed(w', y, conv) {
      TurnIsFrom(w, ev, y);
      FromIsPushed(w, r, y, conv);
    }
  }

  lemma TurnIsFrom(w: Delivery, ev: Event, y: Record)
    requires DistinctIDs(w.outbox) && Enabled(w, ev) && ev.TakeTurn? && y in OutboxAfter(w, ev.conv, ev.env, ev.sorted)
    ensures From(w.outbox, Current(w, ev.conv), y)
  {
    hide HalfTurn, DistinctIDs, From;
    var r, sending := Current(w, ev.conv), w.passes[ev.conv].sending;
    if Restores(w, ev.conv, ev.env) { ReinsertedOutbox(w.outbox, r, ev.env, sending); }
    HalfCtimes(w.outbox, r, ev.env, sending, y);
  }

  lemma FromIsPushed(w: Delivery, r: Record, y: Record, conv: ConvID)
    requires From(w.outbox, r, y) && AsPushed(w, r, conv) && forall x :: x in w.outbox ==> AsPushed(w, x, conv)
    ensures AsPushed(w, y, conv)
  {
    if !(KeyOf(r) == KeyOf(y) && r.ctime == y.ctime) {
      var x :| x in w.outbox && KeyOf(x) == KeyOf(y) && x.ctime == y.ctime;
      assert AsPushed(w, x, conv);
    }
  }

  lemma QueueStaysStamped(w: Delivery, ev: Event, conv: ConvID)
    requires Inv(w) && Stamped(w, conv) && ev.Queue? && Undisturbed(w, ev, conv)
    ensures Stamped(Next(w, ev), conv)
  {
    hide OutboxInv, PassKnown, AsPushed;
    var w' := Next(w, ev);
    assert forall i :: 0 <= i < |w.pushed| ==> w'.pushed[i] == w.pushed[i] && w.pushed[i] in w.pushed;
    forall x | x in w'.outbox ensures AsPushed(w', x, conv) {
      if x in w.outbox { InvKnown(w, x); StillAsPushed(w, w', x, conv); } else { NewAsPushed(w', x, conv); }
    }
    forall c, j | c in w.passes && w.passes[c].at <= j < |w.passes[c].snap| ensures AsPushed(w', w.passes[c].snap[j], conv) {
      InvKnownAhead(w, c, j);
      StillAsPushed(w, w', w.passes[c].snap[j], conv);
    }
  }

  lemma InvKnown(w: Delivery, x: Record)
    requires Inv(w) && x in w.outbox
    ensures Known(w, x)
  {
  }

  lemma InvKnownAhead(w: Delivery, c: ConvID, j: nat)
    requires Inv(w) && c in w.passes && w.passes[c].at <= j < |w.passes[c].snap|
    ensures Known(w, w.passes[c].snap[j])
  {
    assert PassKnown(w, c, w.passes[c]);
  }

  lemma StillAsPushed(w: Delivery, w': Delivery, x: Record, conv: ConvID)
    requires Known(w, x) && AsPushed(w, x, conv) && |w'.pushed| >= |w.pushed|
    requires forall i :: 0 <= i < |w.pushed| ==> w'.pushed[i] == w.pushed[i]
    ensures AsPushed(w', x, conv)
  {
  }

  lemma NewAsPushed(w: Delivery, x: Record, conv: ConvID)
    requires x.id < |w.pushed| && w.pushed[x.id] == x
    ensures AsPushed(w, x, conv)
  {
  }

  lemma StepStaysStamped(w: Delivery, ev: Event, conv: ConvID)
    requires Inv(w) && Stamped(w, conv) && Enabled(w, ev) && Undisturbed(w, ev, conv)
    ensures Stamped(Next(w, ev), conv)
  {
    hide DistinctIDs;
    if ev.TakeTurn? {
      TurnStaysStamped(w, ev, conv);
    } else if ev.Queue? {
      QueueStaysStamped(w, ev, conv);
    } else if ev.Pull? {
      var w' := Next(w, ev);
      assert forall x :: AsPushed(w, x, conv) ==> AsPushed(w', x, conv);
      forall c, j | c in w'.passes && 0 <= j < |w'.passes[c].snap| ensures AsPushed(w', w'.passes[c].snap[j], conv) {
        assert w'.passes[c].snap[j] in Pending(w.outbox, c);
      }
    } else {
      OutboxStaysStamped(w, ev, conv);
    }
  }

  lemma OutboxStaysStamped(w: Delivery, ev: Event, conv: ConvID)
    requires Inv(w) && Stamped(w, conv) && Enabled(w, ev) && Undisturbed(w, ev, conv) && (ev.RetryMessage? || ev.RemoveByUser?)
    ensures Stamped(Next(w, ev), conv)
  {
    hide DistinctIDs;
    var w' := Next(w, ev);
    assert forall x :: AsPushed(w, x, conv) ==> AsPushed(w', x, conv);
    forall y | y in w'.outbox ensures AsPushed(w', y, conv) {
      if ev.RetryMessage? {
        var i :| 0 <= i < |w'.outbox| && w'.outbox[i] == y;
        assert w.outbox[i] in w.outbox && Known(w, w.outbox[i]) && AsPushed(w, w.outbox[i], conv);
      } else {
        assert y in w.outbox;
      }
    }
  }

  /** So the order theorem covers every run in which the conversation's plain records are pushed at later and
      later times and none of them is retried, whatever happens to all other records. */
  lemma {:induction false} UntouchedIsGuarded(w: Delivery, evs: seq<Event>, conv: ConvID)
    requires Inv(w) && Stamped(w, conv) && IsRun(w, evs) && Untouched(w, evs, conv)
    ensures Guarded(w, evs, conv)
    decreases |evs|
  {
    hide Inv, Stamped, Next, Enabled, Guard, Undisturbed;
    if evs != [] {
      StampedIsGuarded(w, evs[0], conv);
      StepKeepsInv(w, evs[0]);
      StepStaysStamped(w, evs[0], conv);
      UntouchedIsGuarded(Next(w, evs[0]), evs[1..], conv);
    }
  }

  lemma UntouchedRunsDeliverInOrder(evs: seq<Event>, conv: ConvID, e: Env, b: OutboxID, i: nat)
    requires IsRun(Empty, evs) && Untouched(Empty, evs, conv) && Gives(Final(Empty, evs), conv, e, b) && i < b
    ensures !Waiting(Final(Empty, evs), conv, i)
  {
    hide IsRun, Guarded, Final, Gives, Untouched;
    UntouchedIsGuarded(Empty, evs, conv);
    SenderGetsPlainRecordsInOrder(evs, conv, e, b, i);
  }
}
