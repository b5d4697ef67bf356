/**
 What goes wrong when a record is put back while ctimes are out of push order: some sort leaves the conversation
 out of line, it is then overtaken, and a retry gets it there (go/chat/storage/outbox.go:257-307, 376-408).
 */
module DeliveryOvertaken {
  import opened OutboxRecords
  import opened Deliverer
  import opened ReactionParity
  import opened DeliveryMachine
  import opened DeliveryOrder

  function Online(now: Time): Env {
    Env(true, now, true, false, TaskDone, Sent)
  }

  function Offline(now: Time): Env {
    Env(false, now, false, false, TaskDone, Sent)
  }

  /** Every send is answered with a duplicate-connection error, which leaves the record as it is. */
  function Refusing(now: Time): Env {
    Env(true, now, true, false, TaskDone, Failed(DuplicateConnection))
  }

  /******* The clock of a run *******/

  predicate Timed(ev: Event) {
    ev.Queue? || ev.TakeTurn? || ev.RetryMessage?
  }

  function When(ev: Event): Time
    requires Timed(ev)
  {
    match ev
    case Queue(_, _, now) => now
    case TakeTurn(_, e, _) => e.now
    case RetryMessage(_, now) => now
  }

  /** Time does not go back from one event to a later one. */
  ghost predicate Rising(evs: seq<Event>) {
    forall i, j :: 0 <= i < j < |evs| && Timed(evs[i]) && Timed(evs[j]) ==> When(evs[i]) <= When(evs[j])
  }

  ghost predicate AllAt(evs: seq<Event>, now: Time) {
    forall i :: 0 <= i < |evs| && Timed(evs[i]) ==> When(evs[i]) == now
  }

  /******* A later record gets ahead *******/

  ghost predicate Before(rs: seq<Record>, y: Record, x: Record) {
    exists p, q :: 0 <= p < q < |rs| && rs[p] == y && rs[q] == x
  }

  lemma {:induction false} KeepBefore(rs: seq<Record>, f: Record -> bool, y: Record, x: Record)
    requires Before(rs, y, x) && f(y) && f(x)
    ensures Before(Keep(rs, f), y, x)
  {
    var p, q :| 0 <= p < q < |rs| && rs[p] == y && rs[q] == x;
    var front, last := rs[..|rs| - 1], rs[|rs| - 1];
    var r := Keep(front, f);
    if q < |rs| - 1 {
      assert front[p] == y && front[q] == x;
      KeepBefore(front, f, y, x);
      var i, j :| 0 <= i < j < |r| && r[i] == y && r[j] == x;
      assert Keep(rs, f)[i] == y && Keep(rs, f)[j] == x;
    } else {
      assert front[p] == y;
      var i :| 0 <= i < |r| && r[i] == y;
      assert Keep(rs, f)[i] == y && Keep(rs, f)[|r|] == x;
    }
  }

  /** The user removes every other record, one by one. */
  lemma {:induction false} RemoveOthers(w: Delivery, y: Record, x: Record) returns (evs: seq<Event>)
    requires Inv(w) && w.passes == map[] && Before(w.outbox, y, x) && x.state.Sending?
    ensures IsRun(w, evs) && forall i :: 0 <= i < |evs| ==> evs[i].RemoveByUser?
    ensures var w' := Final(w, evs); Inv(w') && w'.outbox == [y, x] && w'.passes == map[] && w'.pushed == w.pushed
    ensures x.id !in w.released ==> x.id !in Final(w, evs).released
    decreases |w.outbox|
  {
    var p, q :| 0 <= p < q < |w.outbox| && w.outbox[p] == y && w.outbox[q] == x;
    if z :| z in w.outbox && z != y && z != x {
      RemovesOne(w, y, x, z);
      StepKeepsInv(w, RemoveByUser(z.id));
      var w1 := Next(w, RemoveByUser(z.id));
      hide Inv, Next, Enabled, Before;
      var rest := RemoveOthers(w1, y, x);
      evs := [RemoveByUser(z.id)] + rest;
      assert evs[1..] == rest;
      assert Enabled(w, evs[0]) by { AlwaysEnabled(w, z.id); }
    } else {
      TwoLeft(w.outbox, y, x);
      evs := [];
    }
  }

  lemma AlwaysEnabled(w: Delivery, id: OutboxID)
    ensures Enabled(w, RemoveByUser(id))
  {
  }

  lemma TwoLeft(rs: seq<Record>, y: Record, x: Record)
    requires DistinctIDs(rs) && Before(rs, y, x) && forall z :: z in rs ==> z == y || z == x
    ensures rs == [y, x]
  {
    assert forall k :: 0 <= k < |rs| ==> rs[k] in rs;
    if |rs| > 2 { ThreeOfTwo(rs, y, x); }
  }

  lemma ThreeOfTwo(rs: seq<Record>, y: Record, x: Record)
    requires |rs| > 2 && forall z :: z in rs ==> z == y || z == x
    ensures !DistinctIDs(rs)
  {
    assert rs[0] in rs && rs[1] in rs && rs[2] in rs;
  }

  lemma RemovesOne(w: Delivery, y: Record, x: Record, z: Record)
    requires Inv(w) && Before(w.outbox, y, x) && z in w.outbox && z != y && z != x && x.state.Sending?
    ensures var w' := Next(w, RemoveByUser(z.id));
      && |w'.outbox| < |w.outbox| && Before(w'.outbox, y, x) && w'.passes == w.passes && w'.pushed == w.pushed
      && (x.id !in w.released ==> x.id !in w'.released)
  {
    hide Keep;
    OtherIDs(w.outbox, y, x, z);
    hide Before, DistinctIDs;
    KeepBefore(w.outbox, (r: Record) => r.id != z.id, y, x);
    KeepLess(w.outbox, (r: Record) => r.id != z.id, z);
    assert x in OutboxRecords.RemoveMessage(w.outbox, z.id);
  }

  lemma OtherIDs(rs: seq<Record>, y: Record, x: Record, z: Record)
    requires DistinctIDs(rs) && Before(rs, y, x) && z in rs && z != y && z != x
    ensures z.id != y.id && z.id != x.id && x in rs
  {
    var i :| 0 <= i < |rs| && rs[i] == z;
  }

  lemma {:induction false} KeepLess(rs: seq<Record>, f: Record -> bool, z: Record)
    requires z in rs && !f(z)
    ensures |Keep(rs, f)| < |rs|
  {
    if rs[|rs| - 1] != z {
      assert z in rs[..|rs| - 1];
      KeepLess(rs[..|rs| - 1], f, z);
    }
  }

  /** Record b of the conversation is given to the sender while record i, pushed before it, waits. */
  ghost predicate Overtakes(w: Delivery, conv: ConvID, now: Time, b: OutboxID, i: OutboxID) {
    i < b && Gives(w, conv, Online(now), b) && Waiting(w, conv, i)
  }

  /** y before x, both of the conversation: retry y if it has failed, pull, and it is y's turn. */
  lemma PairOvertakes(w: Delivery, conv: ConvID, y: Record, x: Record, now: Time) returns (evs: seq<Event>)
    requires Inv(w) && w.passes == map[] && w.outbox == [y, x] && PlainOf(y, conv) && PlainOf(x, conv)
    requires x.id < y.id && Waiting(w, conv, x.id) && now - y.ctime <= HourMillis
    ensures IsRun(w, evs) && AllAt(evs, now) && Overtakes(Final(w, evs), conv, now, y.id, x.id)
  {
    hide Inv, Next, HalfTurn;
    XIsSending(w, x);
    if y.state.Sending? {
      PullsPair(w, conv, y, x, now);
      evs := [Pull];
      OneStep(w, Pull);
    } else {
      var y' := y.(state := Sending(0), ctime := now);
      var w1 := RetriesFirst(w, y, x, now);
      PullsPair(w1, conv, y', x, now);
      evs := [RetryMessage(y.id, now), Pull];
      TwoSteps(w, RetryMessage(y.id, now), Pull);
    }
  }

  lemma OneStep(w: Delivery, a: Event)
    requires Enabled(w, a)
    ensures IsRun(w, [a]) && Final(w, [a]) == Next(w, a)
  {
    hide Next, Enabled;
    assert [a][1..] == [];
  }

  lemma RetriesFirst(w: Delivery, y: Record, x: Record, now: Time) returns (w': Delivery)
    requires w.outbox == [y, x] && y.id != x.id && x.state.Sending? && x.id !in w.released
    ensures w' == Next(w, RetryMessage(y.id, now)) && w'.outbox == [y.(state := Sending(0), ctime := now), x]
    ensures w'.passes == w.passes && w'.pushed == w.pushed && x.id !in w'.released
  {
    w' := Next(w, RetryMessage(y.id, now));
    assert x in w'.outbox by { assert w'.outbox[1] == x; }
  }

  lemma PullsPair(w: Delivery, conv: ConvID, y: Record, x: Record, now: Time)
    requires w.outbox == [y, x] && w.passes == map[] && PlainOf(y, conv) && PlainOf(x, conv)
    requires y.state.Sending? && x.state.Sending? && now - y.ctime <= HourMillis
    ensures var w' := Next(w, Pull);
      Gives(w', conv, Online(now), y.id) && w'.outbox == w.outbox && w'.pushed == w.pushed && w'.released == w.released
  {
    hide Pending;
    PendingPair(y, x, conv);
    assert y in w.outbox && conv in Convs(w.outbox);
  }

  lemma XIsSending(w: Delivery, x: Record)
    requires Inv(w) && x in w.outbox && x.id !in w.released
    ensures x.state.Sending?
  {
    assert Known(w, x) && x.id in SendingIDs(w.outbox);
    var z :| z in w.outbox && z.state.Sending? && z.id == x.id;
    var i :| 0 <= i < |w.outbox| && w.outbox[i] == x;
    var j :| 0 <= j < |w.outbox| && w.outbox[j] == z;
  }

  lemma PendingPair(y: Record, x: Record, conv: ConvID)
    requires y.conv == x.conv == conv && y.state.Sending? && x.state.Sending?
    ensures Pending([y, x], conv) == [y, x]
  {
    assert [y, x][..1] == [y] && [y][..0] == [];
    assert Pending([y], conv) == [y];
  }

  lemma TwoSteps(w: Delivery, a: Event, b: Event)
    requires Enabled(w, a) && Enabled(Next(w, a), b)
    ensures IsRun(w, [a, b]) && Final(w, [a, b]) == Next(Next(w, a), b)
  {
    hide Next, Enabled;
    assert [a, b][1..] == [b] && [b][1..] == [];
    assert IsRun(Next(w, a), [b]) && Final(Next(w, a), [b]) == Next(Next(w, a), b) by {
      assert IsRun(Next(Next(w, a), b), [b][1..]);
    }
  }

  /******* Refused sends end the passes under way *******/

  /** No record has been pending for more than an hour, in the outbox or ahead in a pass. */
  ghost predicate Recent(w: Delivery, now: Time) {
    && (forall x :: x in w.outbox ==> now - x.ctime <= HourMillis)
    && (forall c, j :: c in w.passes && w.passes[c].at <= j < |w.passes[c].snap| ==> now - w.passes[c].snap[j].ctime <= HourMillis)
  }

  predicate LastAttempt(r: Record) {
    r.state.Sending? && r.state.attempts >= MaxAttempts
  }

  /** No record ahead in the conversation's pass is at its last attempt, whose failure fails the conversation. */
  ghost predicate AttemptsLeft(w: Delivery, conv: ConvID) {
    conv in w.passes ==> forall j :: w.passes[conv].at <= j < |w.passes[conv].snap| ==> !LastAttempt(w.passes[conv].snap[j])
  }

  /** A refused send changes nothing, unless it was the last attempt. */
  lemma RefusedHalf(rs: seq<Record>, r: Record, now: Time, sending: bool)
    requires now - r.ctime <= HourMillis
    ensures !Writes(r, Refusing(now), sending)
    ensures HalfTurn(rs, r, Refusing(now), sending).outbox ==
      if sending then (if LastAttempt(r) then MarkConvAsError(rs, r.conv, TOOMANYATTEMPTS) else rs)
      else if r.kind.Reaction? then AfterCancel(rs, r) else rs
  {
    hide AfterCancel, AbortsSend, MarkConvAsError;
  }

  /** y before x, plain records of the conversation, the second one waiting. */
  ghost predicate Ahead(w: Delivery, conv: ConvID, y: Record, x: Record) {
    && Before(w.outbox, y, x) && PlainOf(y, conv) && PlainOf(x, conv) && x.state.Sending?
    && x.id < y.id && Waiting(w, conv, x.id)
  }

  lemma MarkBefore(rs: seq<Record>, c: ConvID, typ: ErrorType, y: Record, x: Record)
    requires Before(rs, y, x) && y.conv != c && x.conv != c
    ensures Before(MarkConvAsError(rs, c, typ), y, x)
  {
    var p, q :| 0 <= p < q < |rs| && rs[p] == y && rs[q] == x;
    var rs' := MarkConvAsError(rs, c, typ);
    assert rs'[p] == y && rs'[q] == x;
  }

  lemma CancelBefore(rs: seq<Record>, r: Record, y: Record, x: Record)
    requires Before(rs, y, x) && y.kind.Plain? && x.kind.Plain? && r.kind.Reaction? && AgreesOn(rs, r)
    ensures Before(AfterCancel(rs, r), y, x)
  {
    assert y in rs && x in rs && KeyOf(y) in Keys(rs) && KeyOf(x) in Keys(rs);
    hide Before, OddDuplicates, HasReaction;
    KeepBefore(rs, (z: Record) => !Duplicates(z, r), y, x);
    KeepBefore(CancelDuplicates(rs, r), (z: Record) => z.id != r.id, y, x);
  }

  lemma RefusedKeepsBefore(w: Delivery, ev: Event, now: Time, conv: ConvID, y: Record, x: Record)
    requires Inv(w) && Enabled(w, ev) && ev.TakeTurn? && ev.env == Refusing(now)
    requires Recent(w, now) && AttemptsLeft(w, conv) && Before(w.outbox, y, x) && PlainOf(y, conv) && PlainOf(x, conv)
    ensures !Restores(w, ev.conv, ev.env) && Before(Next(w, ev).outbox, y, x)
  {
    hide HalfTurn, Inv, Before, MarkConvAsError, AfterCancel, AgreesOn;
    var r, sending := Current(w, ev.conv), w.passes[ev.conv].sending;
    CurrentAgrees(w, ev.conv);
    RefusedHalf(w.outbox, r, now, sending);
    if sending {
      if LastAttempt(r) { MarkBefore(w.outbox, r.conv, TOOMANYATTEMPTS, y, x); }
    } else if r.kind.Reaction? {
      CancelBefore(w.outbox, r, y, x);
    }
  }

  lemma BeforeIn(rs: seq<Record>, y: Record, x: Record)
    requires Before(rs, y, x)
    ensures y in rs && x in rs
  {
  }

  lemma StaysWaiting(w: Delivery, ev: Event, conv: ConvID, x: Record)
    requires Enabled(w, ev) && ev.TakeTurn? && Waiting(w, conv, x.id) && x in Next(w, ev).outbox && x.state.Sending?
    ensures Waiting(Next(w, ev), conv, x.id)
  {
    hide HalfTurn, Sorts;
    assert x.id in SendingIDs(Next(w, ev).outbox);
  }

  lemma TurnStaysRecent(w: Delivery, ev: Event, now: Time, conv: ConvID)
    requires Inv(w) && Enabled(w, ev) && ev.TakeTurn? && Recent(w, now) && AttemptsLeft(w, conv)
    ensures Recent(Next(w, ev), now) && AttemptsLeft(Next(w, ev), conv)
  {
    hide HalfTurn, Inv, OutboxAfter, From;
    var r, w' := Current(w, ev.conv), Next(w, ev);
    InvDistinct(w);
    forall y | y in w'.outbox ensures now - y.ctime <= HourMillis {
      TurnIsFrom(w, ev, y);
      FromIsRecent(w.outbox, r, y, now);
    }
  }

  lemma FromIsRecent(rs: seq<Record>, r: Record, y: Record, now: Time)
    requires From(rs, r, y) && now - r.ctime <= HourMillis && forall x :: x in rs ==> now - x.ctime <= HourMillis
    ensures now - y.ctime <= HourMillis
  {
  }

  /** Over refused turns of any conversations the pair stays as it is. */
  lemma {:induction false} RefusedRunKeepsPair(w: Delivery, evs: seq<Event>, now: Time, conv: ConvID, y: Record, x: Record)
    requires Inv(w) && IsRun(w, evs) && OnlyTurns(evs, Refusing(now)) && Recent(w, now) && AttemptsLeft(w, conv) && Ahead(w, conv, y, x)
    ensures Inv(Final(w, evs)) && Recent(Final(w, evs), now) && Ahead(Final(w, evs), conv, y, x)
    decreases |evs|
  {
    hide Inv, Next, Enabled, Recent, AttemptsLeft, Before, Waiting;
    if evs != [] {
      StepKeepsInv(w, evs[0]);
      RefusedKeepsBefore(w, evs[0], now, conv, y, x);
      BeforeIn(Next(w, evs[0]).outbox, y, x);
      StaysWaiting(w, evs[0], conv, x);
      TurnStaysRecent(w, evs[0], now, conv);
      RefusedRunKeepsPair(Next(w, evs[0]), evs[1..], now, conv, y, x);
    }
  }

  /******* Out of line is overtaken *******/

  lemma LaterFirst(rs: seq<Record>, conv: ConvID, waiting: set<OutboxID>) returns (y: Record, x: Record)
    requires DistinctIDs(rs) && !Lined(rs, conv, waiting)
    ensures Before(rs, y, x) && PlainOf(y, conv) && PlainOf(x, conv) && x.id in waiting && x.id < y.id
  {
    var p, q :| 0 <= p < q < |rs| && PlainOf(rs[p], conv) && PlainOf(rs[q], conv) && rs[q].id in waiting && !(rs[p].id < rs[q].id);
    y, x := rs[p], rs[q];
  }

  lemma AheadFrom(w: Delivery, conv: ConvID) returns (y: Record, x: Record)
    requires Inv(w) && !Lined(w.outbox, conv, WaitingIDs(w, conv))
    ensures Ahead(w, conv, y, x)
  {
    hide Lined;
    y, x := LaterFirst(w.outbox, conv, WaitingIDs(w, conv));
    BeforeIn(w.outbox, y, x);
    XIsSending(w, x);
  }

  lemma AheadIsOvertaken(w: Delivery, conv: ConvID, y: Record, x: Record, now: Time) returns (evs: seq<Event>)
    requires Inv(w) && w.passes == map[] && Recent(w, now) && Ahead(w, conv, y, x)
    ensures IsRun(w, evs) && AllAt(evs, now) && Overtakes(Final(w, evs), conv, now, y.id, x.id)
  {
    hide Overtakes, Before, IsRun, Final, Inv;
    BeforeIn(w.outbox, y, x);
    var first := RemoveOthers(w, y, x);
    var rest := PairOvertakes(Final(w, first), conv, y, x, now);
    RunOn(w, first, rest);
    evs := first + rest;
  }

  /**
   From every state in which a waiting record is behind one pushed later, whatever passes are under way, a run
   goes on to give the later one to the sender first: sends are refused until the passes have ended, the user
   removes the other records, and the deliverer pulls. No record may have expired, and none ahead in the
   conversation's pass may be at its last attempt, as its failure would fail the whole conversation.
   */
  lemma OutOfLineIsOvertaken(w: Delivery, conv: ConvID, now: Time) returns (evs: seq<Event>, b: OutboxID, i: OutboxID)
    requires Inv(w) && Recent(w, now) && AttemptsLeft(w, conv) && !Lined(w.outbox, conv, WaitingIDs(w, conv))
    ensures IsRun(w, evs) && AllAt(evs, now) && Overtakes(Final(w, evs), conv, now, b, i)
  {
    hide Overtakes, Lined, IsRun, Final, Inv, Recent, AttemptsLeft, Ahead;
    var y, x := AheadFrom(w, conv);
    var first := PullComesAgain(w, Refusing(now));
    RefusedRunKeepsPair(w, first, now, conv, y, x);
    var rest := AheadIsOvertaken(Final(w, first), conv, y, x, now);
    RunOn(w, first, rest);
    evs, b, i := first + rest, y.id, x.id;
  }

  /** Among the records put back, one that was waiting is one of the outbox and still to be sent. */
  lemma WaitingStaysSending(w: Delivery, ev: Event, conv: ConvID, x: Record)
    requires Inv(w) && Enabled(w, ev) && ev.TakeTurn? && Restores(w, ev.conv, ev.env)
    requires x in Restored(w, ev.conv, ev.env) && Waiting(w, conv, x.id)
    ensures x.state.Sending?
  {
    hide HalfTurn, Sorts;
    var r := Current(w, ev.conv);
    assert x.id in SendingIDs(w.outbox);
    var z :| z in w.outbox && z.id == x.id;
    var k :| 0 <= k < |w.outbox| && w.outbox[k] == z;
    assert x.id != r.id;
    XIsSending(w, x);
  }

  /** A step that puts a record back while the ctimes of the conversation are out of push order, which is exactly
      when the order theorem does not cover it: some sort and some run after it have a record overtaken. */
  lemma UnguardedIsOvertaken(w: Delivery, ev: Event, conv: ConvID, now: Time)
    returns (sorted: seq<Record>, evs: seq<Event>, b: OutboxID, i: OutboxID)
    requires Inv(w) && Enabled(w, ev) && !Guard(w, ev, conv) && Recent(w, now) && AttemptsLeft(w, conv)
    ensures ev.TakeTurn? && Enabled(w, ev.(sorted := sorted))
    ensures IsRun(Next(w, ev.(sorted := sorted)), evs) && AllAt(evs, now)
    ensures Overtakes(Final(Next(w, ev.(sorted := sorted)), evs), conv, now, b, i)
  {
    hide HalfTurn, Inv, Sorts, Lined, Recent, AttemptsLeft, Overtakes, IsRun, Final;
    var rs, waiting := Restored(w, ev.conv, ev.env), WaitingIDs(w, conv);
    InvDistinct(w);
    ReinsertedOutbox(w.outbox, Current(w, ev.conv), ev.env, w.passes[ev.conv].sending);
    var x, y :| x in rs && y in rs && PlainOf(x, conv) && PlainOf(y, conv) && x.id in waiting && x.id < y.id && x.ctime >= y.ctime;
    sorted := SortWithFirst(rs, y);
    var ev' := ev.(sorted := sorted);
    var w' := Next(w, ev');
    StepKeepsInv(w, ev');
    TurnStaysRecent(w, ev', now, conv);
    WaitingStaysSending(w, ev, conv, x);
    assert x in w'.outbox by { SortsMember(rs, sorted, x); }
    StaysWaiting(w, ev', conv, x);
    FirstBreaksLine(rs, sorted, x, y, conv, WaitingIDs(w', conv));
    evs, b, i := OutOfLineIsOvertaken(w', conv, now);
  }

  lemma SortsMember(rs: seq<Record>, s: seq<Record>, x: Record)
    requires Sorts(rs, s) && x in rs
    ensures x in s
  {
  }

  /******* A retry gets it there *******/

  /** A run from the empty outbox on which time does not go back, up to time t, leads here. */
  ghost predicate Reached(w: Delivery, t: Time) {
    exists evs :: IsRun(Empty, evs) && Final(Empty, evs) == w && Rising(evs) && UpTo(evs, t)
  }

  ghost predicate UpTo(evs: seq<Event>, t: Time) {
    forall i :: 0 <= i < |evs| && Timed(evs[i]) ==> When(evs[i]) <= t
  }

  lemma Reaches(w: Delivery, t: Time, ev: Event, t': Time)
    requires Reached(w, t) && Enabled(w, ev) && t <= t' && (Timed(ev) ==> When(ev) == t')
    ensures Reached(Next(w, ev), t')
  {
    hide Next, Enabled, IsRun, Final;
    var evs :| IsRun(Empty, evs) && Final(Empty, evs) == w && Rising(evs) && UpTo(evs, t);
    RunThen(Empty, evs, ev);
    assert Rising(evs + [ev]) && UpTo(evs + [ev], t');
  }

  /** The first record of conversation 1, retried at time 10, the second, and one of conversation 2. */
  const A := Record(0, 1, Plain, 10, Sending(0))
  const B := Record(1, 1, Plain, 1, Sending(0))
  const X := Record(2, 2, Plain, 2, Sending(0))

  lemma ThreeQueued() returns (w: Delivery)
    ensures Reached(w, 10) && w.outbox == [A, B, X] && w.passes == map[] && w.released == {} && |w.pushed| == 3
    ensures PlainOf(w.pushed[0], 1)
  {
    hide Reached;
    assert Reached(Empty, 0) by { EmptyReached(); }
    Reaches(Empty, 0, Queue(1, Plain, 0), 0);
    var w1 := Next(Empty, Queue(1, Plain, 0));
    Reaches(w1, 0, Queue(1, Plain, 1), 1);
    var w2 := Next(w1, Queue(1, Plain, 1));
    Reaches(w2, 1, Queue(2, Plain, 2), 2);
    var w3 := Next(w2, Queue(2, Plain, 2));
    Reaches(w3, 2, RetryMessage(0, 10), 10);
    w := Next(w3, RetryMessage(0, 10));
    assert w3.outbox == [A.(ctime := 0), B, X];
    assert SendingIDs(w3.outbox) - SendingIDs(w.outbox) == {} by {
      assert w.outbox == [A, B, X];
      assert SendingIDs([A, B, X]) == {0, 1, 2};
    }
  }

  lemma EmptyReached()
    ensures Reached(Empty, 0)
  {
    assert IsRun(Empty, []) && Final(Empty, []) == Empty && Rising([]) && UpTo([], 0);
  }

  lemma KeepThree(x: Record, y: Record, z: Record, f: Record -> bool)
    ensures Keep([x, y, z], f) == (if f(x) then [x] else []) + (if f(y) then [y] else []) + (if f(z) then [z] else [])
  {
    assert Keep([], f) == [];
    hide Keep;
    KeepNext([], x, f);
    KeepNext([x], y, f);
    KeepNext([x, y], z, f);
    assert [x] + [y] == [x, y] && [x, y] + [z] == [x, y, z] && [] + [x] == [x];
  }

  lemma PendingABX()
    ensures Pending([A, B, X], 1) == [A, B] && Pending([A, B, X], 2) == [X]
  {
    hide Keep;
    KeepThree(A, B, X, (r: Record) => r.conv == 1 && r.state.Sending?);
    KeepThree(A, B, X, (r: Record) => r.conv == 2 && r.state.Sending?);
    assert [A] + [B] + [] == [A, B] && [] + [] + [X] == [X];
  }

  lemma PullsBoth(w: Delivery)
    requires w.outbox == [A, B, X]
    ensures Next(w.(passes := map[]), Pull).passes == map[1 := Progress([A, B], 0, false), 2 := Progress([X], 0, false)]
  {
    hide Pending;
    PendingABX();
    assert Convs([A, B, X]) == {1, 2};
  }

  lemma RemovesX(w: Delivery)
    requires w.outbox == [A, B, X] && w.released == {}
    ensures Next(w, RemoveByUser(2)).outbox == [A, B] && Next(w, RemoveByUser(2)).released == {2}
  {
    KeepThree(A, B, X, (x: Record) => x.id != 2);
    hide Keep;
    assert [A] + [B] + [] == [A, B];
    assert SendingIDs([A, B, X]) == {0, 1, 2} && SendingIDs([A, B]) == {0, 1};
  }

  /** Offline, a record fails for now: bumped in place, or put back by its ctime. */
  lemma OfflineTurn(rs: seq<Record>, r: Record, now: Time)
    requires r.state == Sending(0) && r.kind.Plain?
    ensures HalfTurn(rs, r, Offline(now), false) == Half(RecordFailedAttempt(rs, r), false, Stops)
    ensures Writes(r, Offline(now), false) && PutBack(rs, r, Offline(now), false) == rs + [Bump(r)]
  {
  }

  /** The pass of conversation 2 puts its removed record back, and conversation 1 is out of line. */
  lemma PutsXBack(w: Delivery) returns (w': Delivery)
    requires Reached(w, 10) && w.outbox == [A, B] && w.released == {2} && w.passes == map[1 := Progress([A, B], 0, false), 2 := Progress([X], 0, false)]
    ensures Reached(w', 10) && w'.outbox == [B, Bump(X), A] && w'.released == {2} && w'.pushed == w.pushed
    ensures w'.passes == map[1 := Progress([A, B], 0, false)]
  {
    hide Reached, RecordFailedAttempt, HalfTurn, Sorts;
    OfflineTurn([A, B], X, 10);
    var sorted := [B, Bump(X), A];
    SortsThree();
    Reaches(w, 10, TakeTurn(2, Offline(10), sorted), 10);
    w' := Next(w, TakeTurn(2, Offline(10), sorted));
    assert SendingIDs([A, B]) - SendingIDs(sorted) == {};
  }

  lemma SortsThree()
    ensures Sorts([A, B] + [Bump(X)], [B, Bump(X), A]) && !Has([A, B], X.id)
    ensures SendingIDs([A, B]) == {0, 1} && SendingIDs([B, Bump(X), A]) == {0, 1, 2}
  {
  }

  lemma FirstFails(w: Delivery) returns (w': Delivery)
    requires Reached(w, 10) && w.outbox == [B, Bump(X), A] && w.released == {2} && w.passes == map[1 := Progress([A, B], 0, false)]
    ensures Reached(w', 10) && w'.outbox == [B, Bump(X), Bump(A)] && w'.released == {2} && w'.passes == map[] && w'.pushed == w.pushed
  {
    OfflineTurn([B, Bump(X), A], A, 10);
    BumpsA();
    hide Reached, RecordFailedAttempt, HalfTurn, SendingIDs;
    SendingThree();
    assert Has(w.outbox, A.id) by { assert w.outbox[2].id == A.id; }
    Reaches(w, 10, TakeTurn(1, Offline(10), []), 10);
    w' := Next(w, TakeTurn(1, Offline(10), []));
  }

  lemma SendingThree()
    ensures SendingIDs([B, Bump(X), A]) == {0, 1, 2} && SendingIDs([B, Bump(X), Bump(A)]) == {0, 1, 2}
  {
  }

  lemma BumpsA()
    ensures RecordFailedAttempt([B, Bump(X), A], A) == [B, Bump(X), Bump(A)]
  {
    var rs := [B, Bump(X), A];
    assert rs[2].id == A.id;
  }

  lemma PullsSecondFirst(w: Delivery)
    requires w.outbox == [B, Bump(X), Bump(A)] && w.passes == map[]
    ensures Next(w, Pull) == w.(passes := Next(w, Pull).passes)
    ensures 1 in Next(w, Pull).passes && Next(w, Pull).passes[1] == Progress([B, Bump(A)], 0, false)
  {
    KeepThree(B, Bump(X), Bump(A), (r: Record) => r.conv == 1 && r.state.Sending?);
    assert [B] + [] + [Bump(A)] == [B, Bump(A)];
    hide Keep;
    assert B in w.outbox && 1 in Convs(w.outbox);
  }

  /** A run from the empty outbox, its clock rising to 10, in which a retry renews a ctime, a record of another
      conversation is removed by the user and put back by its pass; after it the second record is given to the
      sender while the first one waits, at any time of the next hour. */
  lemma RetriedRecordIsOvertaken() returns (w: Delivery)
    ensures Reached(w, 10) && forall now :: 10 <= now <= HourMillis ==> Overtakes(w, 1, now, 1, 0)
  {
    hide Reached, Next, HalfTurn, Inv;
    var w0 := ThreeQueued();
    PullsBoth(w0);
    Reaches(w0, 10, Pull, 10);
    var w1 := Next(w0, Pull);
    assert w1 == w0.(passes := w1.passes) by { PullOnlyPulls(w0); }
    RemovesX(w1);
    Reaches(w1, 10, RemoveByUser(2), 10);
    var w2 := Next(w1, RemoveByUser(2));
    assert w2.passes == w1.passes && w2.pushed == w1.pushed by { RemoveOnlyRemoves(w1); }
    var w3 := PutsXBack(w2);
    var w4 := FirstFails(w3);
    PullsSecondFirst(w4);
    Reaches(w4, 10, Pull, 10);
    w := Next(w4, Pull);
    forall now | 10 <= now <= HourMillis ensures Overtakes(w, 1, now, 1, 0) { OnlineGives(w.outbox, now); }
  }

  lemma OnlineGives(rs: seq<Record>, now: Time)
    requires now <= HourMillis
    ensures HalfTurn(rs, B, Online(now), false).after.Sends?
  {
  }

  lemma PullOnlyPulls(w: Delivery)
    requires w.passes == map[]
    ensures Next(w, Pull) == w.(passes := Next(w, Pull).passes)
  {
  }

  lemma RemoveOnlyRemoves(w: Delivery)
    ensures Next(w, RemoveByUser(2)).passes == w.passes && Next(w, RemoveByUser(2)).pushed == w.pushed
  {
  }
}
