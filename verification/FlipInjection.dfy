/**
 Feeding the messages of a coin flip game to the dealer: gaps are refilled from the thread, own
 messages only move the mark (go/chat/flipmanager.go:1102-1183, 1237-1265).
 */
module FlipInjection {
  import opened Wrappers

  type Game = nat

  /** `sent` says that the outbox ID is one this device has sent. */
  datatype Msg = Msg(id: nat, valid: bool, sent: bool, flip: bool)

  datatype Injection = Injection(game: Game, id: nat)

  /** The mark of each game (gameMsgIDs) and everything given to the dealer. */
  datatype State = State(marks: map<Game, nat>, dealt: seq<Injection>)

  const StartMsgID := 3

  predicate Injectable(m: Msg) {
    m.valid && !m.sent && m.flip
  }

  function Inject(s: State, g: Game, m: Msg): State {
    if Injectable(m) then State(s.marks[g := m.id], s.dealt + [Injection(g, m.id)]) else s
  }

  /** A valid flip message that this device has not sent is dealt and becomes the mark; any other changes nothing. */
  lemma InjectsIff(s: State, g: Game, m: Msg)
    ensures m.valid && m.flip && !m.sent ==> Inject(s, g, m) == State(s.marks[g := m.id], s.dealt + [Injection(g, m.id)])
    ensures !(m.valid && m.flip && !m.sent) ==> Inject(s, g, m) == s
  {
  }

  function InjectAll(s: State, g: Game, ms: seq<Msg>): State {
    if ms == [] then s else Inject(InjectAll(s, g, ms[..|ms| - 1]), g, ms[|ms| - 1])
  }

  /** The refill loop over the n newest messages, from the oldest of them on: what it tries to inject. */
  function Scan(thread: seq<Msg>, n: nat, start: nat, next: nat): seq<Msg>
    requires n <= |thread|
  {
    if n == 0 then []
    else if thread[n - 1].id <= start then Scan(thread, n - 1, start, next)
    else if thread[n - 1].id >= next then []
    else [thread[n - 1]] + Scan(thread, n - 1, start, next)
  }

  /** The two oldest messages of the thread are not part of a game. */
  function Played(thread: seq<Msg>): (n: nat)
    ensures n <= |thread|
  {
    if |thread| < 2 then 0 else |thread| - 2
  }

  datatype Plan = Ignore | Refilled(start: nat) | Direct

  /** What an arrival calls for, given the game's mark. */
  function PlanFor(s: State, g: Game, next: Msg): Plan {
    if g in s.marks then
      if next.id == s.marks[g] + 1 then Direct
      else if next.id <= s.marks[g] then Ignore
      else Refilled(s.marks[g])
    else if next.id == StartMsgID then Direct
    else Refilled(0)
  }

  /** updateActiveGame; the pulled thread is None when the pull failed. */
  function Update(s: State, g: Game, next: Msg, pulled: Option<seq<Msg>>): State {
    match PlanFor(s, g, next)
    case Ignore => s
    case Direct => Inject(s, g, next)
    case Refilled(start) =>
      if pulled.None? then s else Inject(InjectAll(s, g, Scan(pulled.value, Played(pulled.value), start, next.id)), g, next)
  }

  /** What the closures of maybeInjectLoop do, one after the other; an ignored message changes nothing. */
  datatype Event = Arrive(game: Game, next: Msg, pulled: Option<seq<Msg>>) | Own(game: Game, id: nat)
  {
    function ID(): nat { if Own? then id else next.id }
  }

  function Step(s: State, e: Event): State {
    match e
    case Arrive(g, next, pulled) => Update(s, g, next, pulled)
    case Own(g, id) => s.(marks := s.marks[g := id])
  }

  function Run(es: seq<Event>): State {
    if es == [] then State(map[], []) else Step(Run(es[..|es| - 1]), es[|es| - 1])
  }

  /******* Safety *******/

  ghost predicate Increasing(dealt: seq<Injection>) {
    forall i, j :: 0 <= i < j < |dealt| && dealt[i].game == dealt[j].game ==> dealt[i].id < dealt[j].id
  }

  /** No game's mark is behind what its dealer has seen. */
  ghost predicate Marked(s: State) {
    forall x :: x in s.dealt ==> x.game in s.marks && x.id <= s.marks[x.game]
  }

  ghost predicate Inv(s: State) {
    Increasing(s.dealt) && Marked(s)
  }

  ghost predicate NewestFirst(thread: seq<Msg>) {
    forall i, j :: 0 <= i < j < |thread| ==> thread[i].id > thread[j].id
  }

  lemma InjectKeepsInv(s: State, g: Game, m: Msg)
    requires Inv(s) && (g in s.marks ==> s.marks[g] < m.id)
    ensures Inv(Inject(s, g, m))
  {
    if Injectable(m) {
      assert forall x :: x in s.dealt && x.game == g ==> x.id < m.id;
      assert forall i :: 0 <= i < |s.dealt| ==> s.dealt[i] in s.dealt;
    }
  }

  ghost predicate Ascending(ms: seq<Msg>) {
    forall i, j :: 0 <= i < j < |ms| ==> ms[i].id < ms[j].id
  }

  predicate MarkAtMost(s: State, g: Game, hi: nat) {
    g in s.marks ==> s.marks[g] <= hi
  }

  lemma {:induction false} InjectAllKeepsInv(s: State, g: Game, ms: seq<Msg>, lo: nat)
    requires Inv(s) && Ascending(ms) && MarkAtMost(s, g, lo) && forall m :: m in ms ==> lo < m.id
    ensures Inv(InjectAll(s, g, ms)) && MarkAtMost(InjectAll(s, g, ms), g, if ms == [] then lo else ms[|ms| - 1].id)
  {
    hide Inv;
    if ms != [] {
      var front, last := ms[..|ms| - 1], ms[|ms| - 1];
      assert forall m :: m in front ==> m in ms;
      assert front != [] ==> front[|front| - 1] == ms[|ms| - 2];
      InjectAllKeepsInv(s, g, front, lo);
      InjectKeepsInv(InjectAll(s, g, front), g, last);
    }
  }

  /** On a newest-first thread the loop tries, oldest first, exactly the messages between the mark and the arrival. */
  lemma {:induction false} ScanIs(thread: seq<Msg>, n: nat, start: nat, next: nat)
    requires NewestFirst(thread) && n <= |thread|
    ensures Ascending(Scan(thread, n, start, next))
    ensures forall m :: m in Scan(thread, n, start, next) <==> start < m.id < next && m in thread[..n]
  {
    if n > 0 {
      ScanIs(thread, n - 1, start, next);
      assert thread[..n] == thread[..n - 1] + [thread[n - 1]];
      assert forall m :: m in thread[..n - 1] ==> m.id > thread[n - 1].id;
      hide NewestFirst;
      AscendingCons(thread[n - 1], Scan(thread, n - 1, start, next));
    }
  }

  lemma AscendingCons(m: Msg, ms: seq<Msg>)
    requires Ascending(ms)
    ensures Ascending([m] + ms) <==> forall x :: x in ms ==> m.id < x.id
  {
    var r := [m] + ms;
    forall x | x in ms && Ascending(r) ensures m.id < x.id {
      var i :| 0 <= i < |ms| && ms[i] == x;
      assert r[0].id < r[i + 1].id;
    }
  }

  lemma UpdateKeepsInv(s: State, g: Game, next: Msg, pulled: Option<seq<Msg>>)
    requires Inv(s) && (pulled.Some? ==> NewestFirst(pulled.value))
    ensures Inv(Update(s, g, next, pulled))
  {
    hide Inv, NewestFirst, Scan;
    match PlanFor(s, g, next) {
      case Ignore =>
      case Direct => InjectKeepsInv(s, g, next);
      case Refilled(start) =>
        if pulled.Some? {
          var ms := Scan(pulled.value, Played(pulled.value), start, next.id);
          ScanIs(pulled.value, Played(pulled.value), start, next.id);
          InjectAllKeepsInv(s, g, ms, start);
          assert ms != [] ==> ms[|ms| - 1] in ms;
          InjectKeepsInv(InjectAll(s, g, ms), g, next);
        }
    }
  }

  /** An own message keeps the marks right exactly when it is not older than what the dealer has seen. */
  lemma OwnKeepsInvIff(s: State, g: Game, id: nat)
    requires Inv(s)
    ensures Inv(Step(s, Own(g, id))) <==> forall x :: x in s.dealt && x.game == g ==> x.id <= id
  {
  }

  /** Otherwise the very next message that does arrive in sequence goes to the dealer out of order. */
  lemma OlderOwnMessageReinjects(s: State, g: Game, id: nat, next: Msg, pulled: Option<seq<Msg>>)
    requires !(forall x :: x in s.dealt && x.game == g ==> x.id <= id)
    requires Injectable(next) && next.id == id + 1
    ensures !Increasing(Step(Step(s, Own(g, id)), Arrive(g, next, pulled)).dealt)
  {
    var x :| x in s.dealt && x.game == g && x.id > id;
    var i :| 0 <= i < |s.dealt| && s.dealt[i] == x;
    var dealt := Step(Step(s, Own(g, id)), Arrive(g, next, pulled)).dealt;
    assert dealt == s.dealt + [Injection(g, next.id)];
    assert dealt[i].id >= dealt[|s.dealt|].id;
  }

  /******* Whole runs *******/

  /** Threads come newest first, and no own message is older than what its dealer has seen by then. */
  ghost predicate Orderly(es: seq<Event>) {
    && (forall e :: e in es && e.Arrive? && e.pulled.Some? ==> NewestFirst(e.pulled.value))
    && (forall n :: 0 <= n < |es| && es[n].Own? ==> forall x :: x in Run(es[..n]).dealt && x.game == es[n].game ==> x.id <= es[n].id)
  }

  lemma OrderlyFront(es: seq<Event>)
    requires Orderly(es) && es != []
    ensures Orderly(es[..|es| - 1])
    ensures var e := es[|es| - 1]; e.Own? ==> forall x :: x in Run(es[..|es| - 1]).dealt && x.game == e.game ==> x.id <= e.id
  {
    hide Run, NewestFirst;
    var front := es[..|es| - 1];
    assert forall n :: 0 <= n < |front| ==> front[n] == es[n] && front[..n] == es[..n];
  }

  /** Over every run, in whatever order messages arrive, the marks are never behind what was dealt. */
  lemma {:induction false} RunKeepsInv(es: seq<Event>)
    requires Orderly(es)
    ensures Inv(Run(es))
  {
    if es != [] {
      var front, e := es[..|es| - 1], es[|es| - 1];
      OrderlyFront(es);
      RunKeepsInv(front);
      assert e in es;
      hide Inv, NewestFirst, Orderly;
      if e.Arrive? { UpdateKeepsInv(Run(front), e.game, e.next, e.pulled); }
      else { OwnKeepsInvIff(Run(front), e.game, e.id); }
    }
  }

  /** Over every run, through refills, own messages, invalid ones and arrivals in any order, the dealer of each
      game is given strictly increasing message IDs. */
  lemma DealtIDsIncrease(es: seq<Event>, i: nat, j: nat)
    requires Orderly(es) && i < j < |Run(es).dealt| && Run(es).dealt[i].game == Run(es).dealt[j].game
    ensures Run(es).dealt[i].id < Run(es).dealt[j].id
  {
    RunKeepsInv(es);
  }

  /******* Arrivals in order are enough *******/

  /** The messages of each game arrive in order, and threads come newest first. */
  ghost predicate InOrder(es: seq<Event>) {
    && (forall i, j :: 0 <= i < j < |es| && es[i].game == es[j].game ==> es[i].ID() <= es[j].ID())
    && (forall e :: e in es && e.Arrive? && e.pulled.Some? ==> NewestFirst(e.pulled.value))
  }

  /** The dealer has seen nothing newer than the arrivals. */
  ghost predicate Arrived(s: State, es: seq<Event>) {
    forall x :: x in s.dealt ==> exists e :: e in es && e.game == x.game && x.id <= e.ID()
  }

  lemma {:induction false} InjectAllDeals(s: State, g: Game, ms: seq<Msg>)
    ensures var r := InjectAll(s, g, ms);
      forall x :: x in r.dealt <==> x in s.dealt || (x.game == g && exists m :: m in ms && Injectable(m) && m.id == x.id)
  {
    if ms != [] {
      InjectAllDeals(s, g, ms[..|ms| - 1]);
      assert ms == ms[..|ms| - 1] + [ms[|ms| - 1]];
    }
  }

  /** A refill leaves no message out: everything injectable between the mark and the arrival has been dealt, but for
      the two oldest messages of the thread, which are not part of a game. */
  lemma RefillIsComplete(s: State, g: Game, next: Msg, thread: seq<Msg>)
    requires NewestFirst(thread) && if g in s.marks then next.id > s.marks[g] + 1 else next.id != 3
    ensures var r := Update(s, g, next, Some(thread));
      forall x :: x in r.dealt <==>
        || x in s.dealt
        || (x.game == g && Injectable(next) && x.id == next.id)
        || (x.game == g && (if g in s.marks then s.marks[g] else 0) < x.id < next.id &&
            exists i :: 0 <= i < |thread| - 2 && Injectable(thread[i]) && thread[i].id == x.id)
  {
    hide Scan, NewestFirst, InjectAll;
    var start := PlanFor(s, g, next).start;
    assert forall m :: m in thread[..Played(thread)] <==> exists i :: 0 <= i < |thread| - 2 && thread[i] == m;
    ScanIs(thread, Played(thread), start, next.id);
    InjectAllDeals(s, g, Scan(thread, Played(thread), start, next.id));
  }

  /** An injectable arrival is dealt last and becomes the mark exactly when it is ahead of the mark and, where
      there is a gap to fill, the thread could be pulled; otherwise nothing changes. */
  lemma ArrivalIsDealtIff(s: State, g: Game, next: Msg, pulled: Option<seq<Msg>>)
    requires Injectable(next)
    ensures var r := Update(s, g, next, pulled);
      if (if g in s.marks then next.id == s.marks[g] + 1 || (next.id > s.marks[g] && pulled.Some?) else next.id == 3 || pulled.Some?)
      then r.dealt != [] && r.dealt[|r.dealt| - 1] == Injection(g, next.id) && g in r.marks && r.marks[g] == next.id
      else r == s
  {
    hide Scan, InjectAll;
  }

  /** A message in sequence, or the first of a game, is dealt without looking at the thread. */
  lemma DirectIgnoresThread(s: State, g: Game, next: Msg, pulled: Option<seq<Msg>>)
    requires if g in s.marks then next.id == s.marks[g] + 1 else next.id == 3
    ensures Update(s, g, next, pulled) == Inject(s, g, next)
  {
  }

  lemma StepArrived(s: State, es: seq<Event>, e: Event)
    requires Arrived(s, es) && (e.Arrive? && e.pulled.Some? ==> NewestFirst(e.pulled.value))
    ensures Arrived(Step(s, e), es + [e])
  {
    hide Scan, NewestFirst, InjectAll;
    var r := Step(s, e);
    if e.Arrive? && e.pulled.Some? && PlanFor(s, e.game, e.next).Refilled? { RefillIsComplete(s, e.game, e.next, e.pulled.value); }
    forall x | x in r.dealt ensures exists e' :: e' in es + [e] && e'.game == x.game && x.id <= e'.ID() {
      if x in s.dealt {
        var e' :| e' in es && e'.game == x.game && x.id <= e'.ID();
        assert e' in es + [e];
      } else {
        assert e in es + [e];
      }
    }
  }

  lemma {:induction false} RunArrived(es: seq<Event>)
    requires InOrder(es)
    ensures Arrived(Run(es), es)
  {
    if es != [] {
      var front, e := es[..|es| - 1], es[|es| - 1];
      assert es == front + [e];
      assert forall x :: x in front ==> x in es;
      RunArrived(front);
      hide NewestFirst, Arrived;
      StepArrived(Run(front), front, e);
    }
  }

  /** When each game's messages arrive in order, no own message is older than what was dealt. */
  lemma InOrderIsOrderly(es: seq<Event>)
    requires InOrder(es)
    ensures Orderly(es)
  {
    hide Run, NewestFirst;
    forall n, x | 0 <= n < |es| && es[n].Own? && x in Run(es[..n]).dealt && x.game == es[n].game ensures x.id <= es[n].id {
      assert forall e :: e in es[..n] ==> e in es;
      RunArrived(es[..n]);
      var e :| e in es[..n] && e.game == x.game && x.id <= e.ID();
      var i :| 0 <= i < n && es[i] == e;
    }
  }
}
