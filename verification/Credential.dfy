/**
 One cached user of the credential authority, shared by any number of concurrent checks: the user is
 loaded at most once per timeout under a read/write lock (go/auth/credential_authority.go:319-420).
 */
module Credential {
  import opened Wrappers

  type KID = nat
  type Time = int
  type Thread = nat

  /** Three hours, in milliseconds. */
  const UserTimeout: Time := 3 * 60 * 60 * 1000

  datatype User = User(username: string, sibkeys: set<KID>, subkeys: set<KID>, isOK: bool, isDeleted: bool, ctime: Time)

  const NewUser := User("", {}, {}, false, false, 0)

  datatype Reply = Reply(username: string, sibkeys: seq<KID>, subkeys: seq<KID>, isDeleted: bool)

  /** A load that the server answered; start is the time taken before asking. */
  datatype Load = Load(start: Time, reply: Reply)

  predicate Populated(u: User, now: Time) {
    u.isOK && now - u.ctime <= UserTimeout
  }

  /******* What a load writes, one field or key at a time *******/

  datatype Write = SetUsername(username: string) | AddSibkey(kid: KID) | AddSubkey(kid: KID) | SetOK | SetCtime(time: Time) | SetDeleted(isDeleted: bool)

  function Apply(u: User, w: Write): User {
    match w
    case SetUsername(n) => u.(username := n)
    case AddSibkey(k) => u.(sibkeys := u.sibkeys + {k})
    case AddSubkey(k) => u.(subkeys := u.subkeys + {k})
    case SetOK => u.(isOK := true)
    case SetCtime(t) => u.(ctime := t)
    case SetDeleted(d) => u.(isDeleted := d)
  }

  function ApplyAll(u: User, ws: seq<Write>): User {
    if ws == [] then u else Apply(ApplyAll(u, ws[..|ws| - 1]), ws[|ws| - 1])
  }

  function AddSibkeys(ks: seq<KID>): seq<Write> {
    if ks == [] then [] else AddSibkeys(ks[..|ks| - 1]) + [AddSibkey(ks[|ks| - 1])]
  }

  function AddSubkeys(ks: seq<KID>): seq<Write> {
    if ks == [] then [] else AddSubkeys(ks[..|ks| - 1]) + [AddSubkey(ks[|ks| - 1])]
  }

  function Writes(l: Load): seq<Write> {
    var r := l.reply;
    [SetUsername(r.username)] +
    AddSibkeys(r.sibkeys) +
    AddSubkeys(r.subkeys) +
    [SetOK, SetCtime(l.start), SetDeleted(r.isDeleted)]
  }

  function Keys(ks: seq<KID>): set<KID> {
    set k | k in ks
  }

  /** The user after a whole load: keys are added, never taken away. */
  function Loaded(u: User, l: Load): User {
    User(l.reply.username, u.sibkeys + Keys(l.reply.sibkeys), u.subkeys + Keys(l.reply.subkeys), true, l.reply.isDeleted, l.start)
  }

  lemma {:induction false} ApplyBoth(u: User, ws: seq<Write>, ws': seq<Write>)
    ensures ApplyAll(u, ws + ws') == ApplyAll(ApplyAll(u, ws), ws')
  {
    if ws' == [] {
      assert ws + ws' == ws;
    } else {
      var n := |ws'| - 1;
      ApplyBoth(u, ws, ws'[..n]);
      assert (ws + ws')[..|ws| + n] == ws + ws'[..n];
    }
  }

  lemma {:induction false} AddsSibkeys(u: User, ks: seq<KID>)
    ensures ApplyAll(u, AddSibkeys(ks)) == u.(sibkeys := u.sibkeys + Keys(ks))
  {
    if ks != [] {
      var n := |ks| - 1;
      AddsSibkeys(u, ks[..n]);
      assert AddSibkeys(ks)[..|AddSibkeys(ks[..n])|] == AddSibkeys(ks[..n]);
      assert ks == ks[..n] + [ks[n]];
    }
  }

  lemma {:induction false} AddsSubkeys(u: User, ks: seq<KID>)
    ensures ApplyAll(u, AddSubkeys(ks)) == u.(subkeys := u.subkeys + Keys(ks))
  {
    if ks != [] {
      var n := |ks| - 1;
      AddsSubkeys(u, ks[..n]);
      assert AddSubkeys(ks)[..|AddSubkeys(ks[..n])|] == AddSubkeys(ks[..n]);
      assert ks == ks[..n] + [ks[n]];
    }
  }

  lemma AppliesOne(u: User, w: Write)
    ensures ApplyAll(u, [w]) == Apply(u, w)
  {
    assert [w][..0] == [];
  }

  lemma AppliesLast(u: User, t: Time, d: bool)
    ensures ApplyAll(u, [SetOK, SetCtime(t), SetDeleted(d)]) == u.(isOK := true, ctime := t, isDeleted := d)
  {
    assert [SetOK, SetCtime(t), SetDeleted(d)][..2] == [SetOK, SetCtime(t)];
    assert [SetOK, SetCtime(t)][..1] == [SetOK];
    AppliesOne(u, SetOK);
  }

  /** All the writes together are the load. */
  lemma WritesLoad(u: User, l: Load)
    ensures ApplyAll(u, Writes(l)) == Loaded(u, l)
  {
    hide ApplyAll;
    var r := l.reply;
    var u1 := u.(username := r.username);
    var u2 := u1.(sibkeys := u1.sibkeys + Keys(r.sibkeys));
    var u3 := u2.(subkeys := u2.subkeys + Keys(r.subkeys));
    var name, last := [SetUsername(r.username)], [SetOK, SetCtime(l.start), SetDeleted(r.isDeleted)];
    AppliesOne(u, SetUsername(r.username));
    AddsSibkeys(u1, r.sibkeys);
    AddsSubkeys(u2, r.subkeys);
    AppliesLast(u3, l.start, r.isDeleted);
    ApplyBoth(u, name, AddSibkeys(r.sibkeys));
    ApplyBoth(u, name + AddSibkeys(r.sibkeys), AddSubkeys(r.subkeys));
    ApplyBoth(u, name + AddSibkeys(r.sibkeys) + AddSubkeys(r.subkeys), last);
  }

  /******* Finished loads *******/

  datatype Past = Done(load: Load) | LoadFailed

  function After(h: seq<Past>): User {
    if h == [] then NewUser
    else
      var u := After(h[..|h| - 1]);
      match h[|h| - 1]
      case Done(l) => Loaded(u, l)
      case LoadFailed => u.(isOK := false)
  }

  /** When the last successful load started. */
  function Latest(h: seq<Past>): Option<Time> {
    if h == [] then None
    else if h[|h| - 1].Done? then Some(h[|h| - 1].load.start)
    else Latest(h[..|h| - 1])
  }

  /******* The threads *******/

  datatype Pc =
    | Start
    | Checking                                // holds the read lock, about to look whether the user is populated
    | Checked(populated: bool, at: Time)      // holds the read lock, has looked
    | WantLock
    | Rechecking                              // holds the write lock
    | Loading(start: Time)                    // holds the write lock, waits for the server
    | Writing(load: Load, done: nat)          // holds the write lock
    | Unlocking(ok: bool, at: Time)           // holds the write lock
    | Ready(at: Time)
    | Reading(at: Time)                       // holds the read lock
    | Releasing(seen: User, at: Time, loads: nat)   // holds the read lock; loads had finished when it read
    | Finished(seen: User, at: Time, loads: nat)
    | Failed

  datatype State = State(user: User, readers: set<Thread>, writer: Option<Thread>, pcs: seq<Pc>, now: Time, past: seq<Past>)

  datatype Step = Tick(time: Time) | Go(thread: Thread, reply: Option<Reply>)

  predicate MayGo(s: State, t: Thread)
    requires t < |s.pcs|
  {
    match s.pcs[t]
    case Start => s.writer.None?
    case Ready(_) => s.writer.None?
    case WantLock => s.writer.None? && s.readers == {}
    case Finished(_, _, _) => false
    case Failed => false
    case _ => true
  }

  predicate Enabled(s: State, e: Step) {
    match e
    case Tick(time) => s.now <= time
    case Go(t, _) => t < |s.pcs| && MayGo(s, t)
  }

  function Goto(s: State, t: Thread, pc: Pc): State
    requires t < |s.pcs|
  {
    s.(pcs := s.pcs[t := pc])
  }

  /** The next atomic action of thread t; the reply is what the server says if it is asked. */
  function Act(s: State, t: Thread, reply: Option<Reply>): State
    requires t < |s.pcs|
  {
    match s.pcs[t]
    case Start => Goto(s, t, Checking).(readers := s.readers + {t})
    case Checking => Goto(s, t, Checked(Populated(s.user, s.now), s.now))
    case Checked(populated, at) => Goto(s, t, if populated then Ready(at) else WantLock).(readers := s.readers - {t})
    case WantLock => Goto(s, t, Rechecking).(writer := Some(t))
    case Rechecking => Goto(s, t, if Populated(s.user, s.now) then Unlocking(true, s.now) else Loading(s.now))
    case Loading(start) =>
      if reply.None? then Goto(s, t, Unlocking(false, start)).(user := s.user.(isOK := false), past := s.past + [LoadFailed])
      else Goto(s, t, Writing(Load(start, reply.value), 0))
    case Writing(l, done) =>
      if done < |Writes(l)| then Goto(s, t, Writing(l, done + 1)).(user := Apply(s.user, Writes(l)[done]))
      else Goto(s, t, Unlocking(true, l.start)).(past := s.past + [Done(l)])
    case Unlocking(ok, at) => Goto(s, t, if ok then Ready(at) else Failed).(writer := None)
    case Ready(at) => Goto(s, t, Reading(at)).(readers := s.readers + {t})
    case Reading(at) => Goto(s, t, Releasing(s.user, at, |s.past|))
    case Releasing(seen, at, loads) => Goto(s, t, Finished(seen, at, loads)).(readers := s.readers - {t})
    case _ => s
  }

  function Next(s: State, e: Step): State
    requires Enabled(s, e)
  {
    match e
    case Tick(time) => s.(now := time)
    case Go(t, reply) => Act(s, t, reply)
  }

  /******* Invariant *******/

  predicate HoldsRead(pc: Pc) {
    pc.Checking? || pc.Checked? || pc.Reading? || pc.Releasing?
  }

  predicate HoldsWrite(pc: Pc) {
    pc.Rechecking? || pc.Loading? || pc.Writing? || pc.Unlocking?
  }

  ghost predicate Locks(s: State) {
    && (s.writer.Some? ==> s.readers == {} && s.writer.value < |s.pcs|)
    && (forall t :: t in s.readers ==> t < |s.pcs|)
    && (forall t: Thread :: t < |s.pcs| ==> (HoldsRead(s.pcs[t]) <==> t in s.readers))
    && (forall t: Thread :: t < |s.pcs| ==> (HoldsWrite(s.pcs[t]) <==> s.writer == Some(t)))
  }

  /** The user is what the finished loads made of it, except for the writes of a load under way. */
  ghost predicate Data(s: State) {
    if s.writer.Some? && s.writer.value < |s.pcs| && s.pcs[s.writer.value].Writing? then
      var pc := s.pcs[s.writer.value];
      pc.done <= |Writes(pc.load)| && s.user == ApplyAll(After(s.past), Writes(pc.load)[..pc.done])
    else s.user == After(s.past)
  }

  predicate Spaced(h: seq<Past>, start: Time) {
    Latest(h).Some? ==> start - Latest(h).value > UserTimeout
  }

  /** Loads are spaced, and a user that is not good any more has timed out. */
  ghost predicate Times(h: seq<Past>, now: Time) {
    && (forall i :: 0 <= i < |h| && h[i].Done? ==> Spaced(h[..i], h[i].load.start))
    && (Latest(h).Some? ==> Latest(h).value <= now)
    && (After(h).isOK ==> Latest(h) == Some(After(h).ctime))
    && (!After(h).isOK ==> Spaced(h, now))
  }

  /** A load that satisfied a check at that time. */
  predicate FreshAt(h: seq<Past>, at: Time) {
    Latest(h).Some? && at - Latest(h).value <= UserTimeout
  }

  /** The user seen is what the first n loads made of it. */
  ghost predicate SawPast(h: seq<Past>, seen: User, at: Time, n: nat) {
    n <= |h| && seen == After(h[..n]) && FreshAt(h[..n], at)
  }

  ghost predicate ThreadOK(h: seq<Past>, now: Time, pc: Pc) {
    match pc
    case Checked(populated, at) => populated ==> FreshAt(h, at)
    case Loading(start) => start <= now && Spaced(h, start)
    case Writing(l, _) => l.start <= now && Spaced(h, l.start)
    case Unlocking(ok, at) => ok ==> FreshAt(h, at)
    case Ready(at) => FreshAt(h, at)
    case Reading(at) => FreshAt(h, at)
    case Releasing(seen, at, loads) => SawPast(h, seen, at, loads)
    case Finished(seen, at, loads) => SawPast(h, seen, at, loads)
    case _ => true
  }

  ghost predicate Inv(s: State) {
    Locks(s) && Data(s) && Times(s.past, s.now) && forall t: Thread :: t < |s.pcs| ==> ThreadOK(s.past, s.now, s.pcs[t])
  }

  function Init(n: nat, now: Time): State {
    State(NewUser, {}, None, seq(n, _ => Start), now, [])
  }

  lemma InitInv(n: nat, now: Time)
    ensures Inv(Init(n, now))
  {
  }

  /** The lock excludes: at most one writer, and no reader beside it. */
  lemma ActLocks(s: State, t: Thread, reply: Option<Reply>)
    requires Locks(s) && t < |s.pcs| && MayGo(s, t)
    ensures Locks(Act(s, t, reply))
  {
    hide Populated, Apply, Writes;
  }

  lemma ActData(s: State, t: Thread, reply: Option<Reply>)
    requires Locks(s) && Data(s) && t < |s.pcs| && MayGo(s, t)
    ensures Data(Act(s, t, reply))
  {
    hide Populated, Apply, Writes, ApplyAll;
    var pc := s.pcs[t];
    if pc.Loading? || (pc.Writing? && pc.done >= |Writes(pc.load)|) {
      ActEnds(s, t, reply);
    } else if pc.Writing? {
      WriteNext(After(s.past), Writes(pc.load), pc.done);
    }
  }

  lemma WriteNext(u: User, ws: seq<Write>, k: nat)
    requires k < |ws|
    ensures ApplyAll(u, ws[..k + 1]) == Apply(ApplyAll(u, ws[..k]), ws[k])
  {
    assert ws[..k + 1][..k] == ws[..k];
  }

  lemma AfterNext(h: seq<Past>, p: Past)
    ensures After(h + [p]) == if p.Done? then Loaded(After(h), p.load) else After(h).(isOK := false)
    ensures Latest(h + [p]) == if p.Done? then Some(p.load.start) else Latest(h)
  {
    assert (h + [p])[..|h|] == h;
  }

  lemma ActEnds(s: State, t: Thread, reply: Option<Reply>)
    requires Locks(s) && Data(s) && t < |s.pcs|
    requires s.pcs[t].Loading? || (s.pcs[t].Writing? && s.pcs[t].done >= |Writes(s.pcs[t].load)|)
    ensures Data(Act(s, t, reply))
  {
    hide Populated, Apply, Writes, ApplyAll, After, Latest;
    var pc := s.pcs[t];
    if pc.Writing? {
      assert Writes(pc.load)[..pc.done] == Writes(pc.load);
      WritesLoad(After(s.past), pc.load);
      AfterNext(s.past, Done(pc.load));
    } else if reply.None? {
      AfterNext(s.past, LoadFailed);
    } else {
      AppliesNone(After(s.past), Writes(Load(pc.start, reply.value)));
    }
  }

  lemma AppliesNone(u: User, ws: seq<Write>)
    ensures ApplyAll(u, ws[..0]) == u
  {
  }

  /** A finished load changes what is known about the past in one direction only. */
  lemma PastGrows(h: seq<Past>, now: Time, p: Past, pc: Pc)
    requires Times(h, now) && ThreadOK(h, now, pc) && !HoldsWrite(pc)
    requires p.Done? ==> Spaced(h, p.load.start)
    ensures ThreadOK(h + [p], now, pc)
  {
    hide After, Latest, Times;
    AfterNext(h, p);
    if pc.Releasing? || pc.Finished? {
      assert (h + [p])[..pc.loads] == h[..pc.loads];
    }
  }

  lemma TimesGrow(h: seq<Past>, now: Time, p: Past)
    requires Times(h, now) && Spaced(h, now)
    requires p.Done? ==> p.load.start <= now && Spaced(h, p.load.start)
    ensures Times(h + [p], now)
  {
    hide After, Latest;
    AfterNext(h, p);
    var h' := h + [p];
    forall i | 0 <= i < |h'| && h'[i].Done? ensures Spaced(h'[..i], h'[i].load.start) {
      assert h'[..i] == h[..i];
    }
  }

  /** A thread that looks at a populated user relies on a load that is fresh. */
  lemma PopulatedIsFresh(h: seq<Past>, now: Time)
    requires Times(h, now)
    ensures if Populated(After(h), now) then FreshAt(h, now) else Spaced(h, now)
  {
    hide After, Latest;
  }

  lemma ReadIsPast(h: seq<Past>, at: Time)
    requires FreshAt(h, at)
    ensures SawPast(h, After(h), at, |h|)
  {
    assert h[..|h|] == h;
  }

  /** The acting thread's own part of the invariant. */
  lemma ActOwn(s: State, t: Thread, reply: Option<Reply>)
    requires Inv(s) && t < |s.pcs| && MayGo(s, t)
    ensures ThreadOK(Act(s, t, reply).past, s.now, Act(s, t, reply).pcs[t])
  {
    hide Apply, Writes, ApplyAll, After, Latest, Times, SawPast;
    var pc := s.pcs[t];
    if pc.Checking? || pc.Rechecking? {
      PopulatedIsFresh(s.past, s.now);
    } else if pc.Reading? {
      ReadIsPast(s.past, pc.at);
    } else if pc.Writing? {
      AfterNext(s.past, Done(pc.load));
    }
  }

  /** Only the writer's finishing touches what the other threads know. */
  lemma ActTimes(s: State, t: Thread, reply: Option<Reply>)
    requires Inv(s) && t < |s.pcs| && MayGo(s, t)
    ensures var s' := Act(s, t, reply);
      Times(s'.past, s.now) && forall t': Thread :: t' < |s.pcs| && t' != t ==> ThreadOK(s'.past, s.now, s.pcs[t'])
  {
    hide Apply, Writes, ApplyAll, After, Latest, Times, ThreadOK;
    var pc, s' := s.pcs[t], Act(s, t, reply);
    if s'.past != s.past {
      var p := if pc.Writing? then Done(pc.load) else LoadFailed;
      assert s'.past == s.past + [p];
      WriterOK(s, t);
      TimesGrow(s.past, s.now, p);
      forall t': Thread | t' < |s.pcs| && t' != t ensures ThreadOK(s'.past, s.now, s.pcs[t']) {
        PastGrows(s.past, s.now, p, s.pcs[t']);
      }
    }
  }

  lemma WriterOK(s: State, t: Thread)
    requires Inv(s) && t < |s.pcs| && (s.pcs[t].Writing? || s.pcs[t].Loading?)
    ensures var start := if s.pcs[t].Writing? then s.pcs[t].load.start else s.pcs[t].start;
      start <= s.now && Spaced(s.past, start) && Spaced(s.past, s.now)
  {
    hide After, Latest, Times, Locks, Data;
  }

  lemma ActKeepsInv(s: State, t: Thread, reply: Option<Reply>)
    requires Inv(s) && t < |s.pcs| && MayGo(s, t)
    ensures Inv(Act(s, t, reply))
  {
    ActLocks(s, t, reply);
    ActData(s, t, reply);
    ActOwn(s, t, reply);
    ActTimes(s, t, reply);
    ActElse(s, t, reply);
    hide Act, Locks, Data, Times, ThreadOK;
  }

  lemma ActElse(s: State, t: Thread, reply: Option<Reply>)
    requires t < |s.pcs|
    ensures var s' := Act(s, t, reply);
      s'.now == s.now && |s'.pcs| == |s.pcs| && forall t': Thread :: t' < |s.pcs| && t' != t ==> s'.pcs[t'] == s.pcs[t']
  {
  }

  lemma TickKeepsInv(s: State, time: Time)
    requires Inv(s) && s.now <= time
    ensures Inv(s.(now := time))
  {
    hide After, Latest, ApplyAll, Writes, SawPast;
  }

  /******* Whole runs *******/

  ghost predicate IsRun(states: seq<State>, n: nat) {
    && states != []
    && states[0] == Init(n, states[0].now)
    && forall i :: 0 <= i < |states| - 1 ==> exists e: Step :: Enabled(states[i], e) && states[i + 1] == Next(states[i], e)
  }

  lemma StepKeepsInv(s: State, e: Step)
    requires Inv(s) && Enabled(s, e)
    ensures Inv(Next(s, e))
  {
    hide Inv, Act, MayGo;
    match e {
      case Tick(time) => TickKeepsInv(s, time);
      case Go(t, reply) => ActKeepsInv(s, t, reply);
    }
  }

  lemma {:induction false} RunKeepsInv(states: seq<State>, n: nat, i: nat)
    requires IsRun(states, n) && i < |states|
    ensures Inv(states[i])
  {
    hide Inv, Next, Enabled, Init;
    if i == 0 {
      InitInv(n, states[0].now);
    } else {
      RunKeepsInv(states, n, i - 1);
      assert 0 <= i - 1 < |states| - 1;
      var e: Step :| Enabled(states[i - 1], e) && states[i - 1 + 1] == Next(states[i - 1], e);
      StepKeepsInv(states[i - 1], e);
    }
  }

  /** A success is at or before the latest one. */
  lemma {:induction false} LatestIsLast(h: seq<Past>, now: Time, i: nat)
    requires (forall k :: 0 <= k < |h| && h[k].Done? ==> Spaced(h[..k], h[k].load.start)) && i < |h| && h[i].Done?
    ensures Latest(h).Some? && h[i].load.start <= Latest(h).value
  {
    var n := |h| - 1;
    if i < n {
      assert forall k :: 0 <= k < n ==> h[..n][..k] == h[..k];
      LatestIsLast(h[..n], now, i);
    }
  }

  /** In every interleaving of any number of checks, successful loads start more than the timeout apart. */
  lemma LoadsAreSpaced(states: seq<State>, n: nat, m: nat, i: nat, j: nat)
    requires IsRun(states, n) && m < |states|
    requires i < j < |states[m].past| && states[m].past[i].Done? && states[m].past[j].Done?
    ensures states[m].past[j].load.start - states[m].past[i].load.start > UserTimeout
  {
    hide IsRun, Locks, Data, ThreadOK, After, Latest;
    RunKeepsInv(states, n, m);
    var h := states[m].past;
    assert forall k :: 0 <= k < j ==> h[..j][..k] == h[..k];
    LatestIsLast(h[..j], states[m].now, i);
    assert Spaced(h[..j], h[j].load.start);
  }

  /** A check that got past repopulate read a user made by finished loads only, of which the latest was
      fresh when the check looked, or is the load the check did itself. */
  lemma ChecksReadFinishedLoads(states: seq<State>, n: nat, m: nat, t: Thread)
    requires IsRun(states, n) && m < |states| && t < |states[m].pcs| && states[m].pcs[t].Finished?
    ensures var pc := states[m].pcs[t]; SawPast(states[m].past, pc.seen, pc.at, pc.loads)
  {
    hide IsRun, Locks, Data, After, Latest, SawPast;
    RunKeepsInv(states, n, m);
    assert ThreadOK(states[m].past, states[m].now, states[m].pcs[t]);
  }

  /** A writer is alone. */
  lemma WriterIsAlone(states: seq<State>, n: nat, m: nat, t: Thread, t': Thread)
    requires IsRun(states, n) && m < |states| && t < |states[m].pcs| && t' < |states[m].pcs| && t != t'
    requires HoldsWrite(states[m].pcs[t])
    ensures !HoldsWrite(states[m].pcs[t']) && !HoldsRead(states[m].pcs[t'])
  {
    hide IsRun;
    RunKeepsInv(states, n, m);
  }

  /******* Progress *******/

  predicate Over(pc: Pc) {
    pc.Finished? || pc.Failed?
  }

  /** How many kinds of action a check still has ahead of it. */
  function Phase(pc: Pc): nat {
    match pc
    case Start => 11
    case Checking => 10
    case Checked(_, _) => 9
    case WantLock => 8
    case Rechecking => 7
    case Loading(_) => 6
    case Writing(_, _) => 5
    case Unlocking(_, _) => 4
    case Ready(_) => 3
    case Reading(_) => 2
    case Releasing(_, _, _) => 1
    case Finished(_, _, _) => 0
    case Failed => 0
  }

  /** Every action takes its check further: to a later phase, or to the next write of its load. */
  lemma ActAdvances(s: State, t: Thread, reply: Option<Reply>)
    requires t < |s.pcs| && MayGo(s, t)
    ensures var pc, pc' := s.pcs[t], Act(s, t, reply).pcs[t];
      || Phase(pc') < Phase(pc)
      || (pc.Writing? && pc'.Writing? && pc'.load == pc.load && pc.done < pc'.done <= |Writes(pc.load)|)
  {
    hide Writes, Populated, Apply;
  }

  /** In every reachable state in which some check is not over, one can act: the holder of the write lock, else any
      holder of the read lock, else any. Without a writer every check that wants the read lock gets it, whoever else
      has it. */
  lemma NeverStuck(states: seq<State>, n: nat, m: nat, u: Thread) returns (t: Thread)
    requires IsRun(states, n) && m < |states| && u < |states[m].pcs| && !Over(states[m].pcs[u])
    ensures t < |states[m].pcs| && Enabled(states[m], Go(t, None)) && !Over(states[m].pcs[t])
    ensures states[m].writer.None? && (states[m].pcs[u].Start? || states[m].pcs[u].Ready?) ==> t == u
    ensures states[m].writer.None? && states[m].readers == {} ==> t == u
  {
    hide IsRun, Data, Times, ThreadOK;
    RunKeepsInv(states, n, m);
    var s := states[m];
    if s.writer.Some? {
      t := s.writer.value;
    } else if s.readers != {} && !s.pcs[u].Start? && !s.pcs[u].Ready? {
      t :| t in s.readers;
    } else {
      t := u;
    }
  }
}
