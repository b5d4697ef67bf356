/**
 The first-writer-wins checks on body hashes, header hashes and prev pointers, run by several unboxing
 threads at once (go/chat/boxer.go:407-482, 1400-1445; go/chat/storage/checkers.go:27-94).
 */
module BoxerChecks {
  import opened BoxerTypes

  /** Keys and values of the table: a body hash belongs to one message, a message has one header hash. */
  datatype Key = BodyKey(hash: Bytes) | PrevKey(conv: Bytes, id: nat)
  datatype Value = Owner(conv: Bytes, id: nat) | HeaderIs(hash: Bytes)
  datatype Claim = Claim(key: Key, value: Value)

  type Table = map<Key, Value>

  /** What a message says about itself and its predecessors. */
  datatype Message = Message(conv: Bytes, id: nat, bodyHash: Bytes, headerHash: Bytes, prev: seq<PrevPointer>)

  function PrevClaims(conv: Bytes, prev: seq<PrevPointer>): (r: seq<Claim>)
    ensures |r| == |prev| && forall i :: 0 <= i < |prev| ==> r[i] == Claim(PrevKey(conv, prev[i].id), HeaderIs(prev[i].hash))
  {
    if prev == [] then []
    else
      var p := prev[|prev| - 1];
      PrevClaims(conv, prev[..|prev| - 1]) + [Claim(PrevKey(conv, p.id), HeaderIs(p.hash))]
  }

  /** The checks of one message, in the order they are made. */
  function Claims(m: Message): seq<Claim> {
    [Claim(BodyKey(m.bodyHash), Owner(m.conv, m.id)), Claim(PrevKey(m.conv, m.id), HeaderIs(m.headerHash))] + PrevClaims(m.conv, m.prev)
  }

  /******* Threads *******/

  /** next is the check a thread is at; missed says that it has looked there and found nothing. */
  datatype Thread = Thread(msg: Message, next: nat, missed: bool, rejected: bool)
  {
    predicate Busy() { !rejected && next < |Claims(msg)| }
    predicate Accepted() { !rejected && next >= |Claims(msg)| }
    function Current(): Claim requires Busy() { Claims(msg)[next] }
  }

  /** passed holds every check that any thread got past. */
  datatype State = State(table: Table, threads: seq<Thread>, passed: set<Claim>)

  /** A check reads the table and, when it finds nothing, writes later; both can fail and are then skipped. */
  datatype Step = Get(t: nat) | Put(t: nat) | GetFails(t: nat) | PutFails(t: nat)

  predicate Enabled(s: State, e: Step) {
    && e.t < |s.threads| && s.threads[e.t].Busy()
    && (s.threads[e.t].missed <==> e.Put? || e.PutFails?)
  }

  /** Thread t gets past its check. */
  function Pass(s: State, t: nat): State
    requires t < |s.threads| && s.threads[t].Busy()
  {
    var th := s.threads[t];
    s.(threads := s.threads[t := th.(next := th.next + 1, missed := false)], passed := s.passed + {th.Current()})
  }

  function Next(s: State, e: Step): State
    requires Enabled(s, e)
  {
    var th := s.threads[e.t];
    var c := th.Current();
    match e
    case Get(t) =>
      if c.key !in s.table then s.(threads := s.threads[t := th.(missed := true)])
      else if s.table[c.key] == c.value then Pass(s, t)
      else s.(threads := s.threads[t := th.(rejected := true)])
    case Put(t) => Pass(s, t).(table := s.table[c.key := c.value])
    case GetFails(t) => Pass(s, t)
    case PutFails(t) => Pass(s, t)
  }

  function Init(ms: seq<Message>): State {
    State(map[], seq(|ms|, i requires 0 <= i < |ms| => Thread(ms[i], 0, false, false)), {})
  }

  /** A run, as its states, with the steps between them. */
  ghost predicate IsRun(ss: seq<State>, es: seq<Step>, ms: seq<Message>) {
    && |ss| == |es| + 1
    && ss[0] == Init(ms)
    && forall i :: 0 <= i < |es| ==> Enabled(ss[i], es[i]) && ss[i + 1] == Next(ss[i], es[i])
  }

  /** The table is readable and writable throughout. */
  ghost predicate Reliable(es: seq<Step>) {
    forall e :: e in es ==> e.Get? || e.Put?
  }

  /** This step writes over a different value that another thread recorded since the look. */
  predicate LosesRace(s: State, e: Step) {
    Enabled(s, e) && e.Put? && var c := s.threads[e.t].Current(); c.key in s.table && s.table[c.key] != c.value
  }

  ghost predicate Agree(cs: set<Claim>) {
    forall a, b :: a in cs && b in cs && a.key == b.key ==> a.value == b.value
  }

  /******* What holds throughout *******/

  /** What the table holds was checked by someone. */
  ghost predicate Backed(s: State) {
    forall k :: k in s.table ==> Claim(k, s.table[k]) in s.passed
  }

  /** What anyone checked is in the table. */
  ghost predicate Recorded(s: State) {
    forall c :: c in s.passed ==> c.key in s.table && s.table[c.key] == c.value
  }

  /** A thread's checks up to where it is have passed. */
  ghost predicate Progress(s: State) {
    forall t: nat, i: nat :: t < |s.threads| && i < s.threads[t].next && i < |Claims(s.threads[t].msg)| ==> Claims(s.threads[t].msg)[i] in s.passed
  }

  ghost predicate Inv(s: State) {
    Backed(s) && Progress(s)
  }

  lemma StepProgress(s: State, e: Step)
    requires Progress(s) && Enabled(s, e)
    ensures Progress(Next(s, e)) && s.passed <= Next(s, e).passed && |Next(s, e).threads| == |s.threads|
    ensures forall t: nat :: t < |s.threads| ==> Next(s, e).threads[t].msg == s.threads[t].msg
  {
    hide Claims;
  }

  lemma StepBacked(s: State, e: Step)
    requires Backed(s) && Enabled(s, e)
    ensures Backed(Next(s, e))
  {
    hide Claims;
  }

  /** Recording loses nothing unless a race is lost. */
  lemma StepRecorded(s: State, e: Step)
    requires Recorded(s) && Enabled(s, e) && (e.Get? || e.Put?) && !LosesRace(s, e)
    ensures Recorded(Next(s, e))
  {
    hide Claims;
  }

  /** A lost race leaves two contradicting checks passed. */
  lemma LostRaceDisagrees(s: State, e: Step)
    requires Backed(s) && LosesRace(s, e)
    ensures !Agree(Next(s, e).passed)
  {
    hide Claims;
    var c := s.threads[e.t].Current();
    var a := Claim(c.key, s.table[c.key]);
    assert a in Next(s, e).passed && c in Next(s, e).passed;
  }

  lemma {:induction false} RunInv(ss: seq<State>, es: seq<Step>, ms: seq<Message>, n: nat)
    requires IsRun(ss, es, ms) && n < |ss|
    ensures Inv(ss[n]) && |ss[n].threads| == |ms|
    ensures forall t: nat :: t < |ms| ==> ss[n].threads[t].msg == ms[t]
  {
    hide Claims;
    if n > 0 {
      RunInv(ss, es, ms, n - 1);
      assert ss[n - 1 + 1] == Next(ss[n - 1], es[n - 1]);
      hide Next, Backed, Progress, Enabled;
      StepProgress(ss[n - 1], es[n - 1]);
      StepBacked(ss[n - 1], es[n - 1]);
    }
  }

  lemma {:induction false} PassedGrows(ss: seq<State>, es: seq<Step>, ms: seq<Message>, m: nat, n: nat)
    requires IsRun(ss, es, ms) && m <= n < |ss|
    ensures ss[m].passed <= ss[n].passed
    decreases n
  {
    hide Claims;
    if m < n {
      PassedGrows(ss, es, ms, m, n - 1);
      RunInv(ss, es, ms, n - 1);
      assert ss[n - 1 + 1] == Next(ss[n - 1], es[n - 1]);
      hide Next, Backed, Progress, Enabled;
      StepProgress(ss[n - 1], es[n - 1]);
    }
  }

  ghost predicate RaceFree(ss: seq<State>, es: seq<Step>) {
    |ss| == |es| + 1 && forall i :: 0 <= i < |es| ==> !LosesRace(ss[i], es[i])
  }

  lemma {:induction false} RunRecorded(ss: seq<State>, es: seq<Step>, ms: seq<Message>, n: nat)
    requires IsRun(ss, es, ms) && Reliable(es) && RaceFree(ss, es) && n < |ss|
    ensures Recorded(ss[n])
  {
    hide Claims;
    if n > 0 {
      RunRecorded(ss, es, ms, n - 1);
      assert ss[n - 1 + 1] == Next(ss[n - 1], es[n - 1]);
      assert es[n - 1] in es;
      hide Next, Recorded, Enabled, LosesRace;
      StepRecorded(ss[n - 1], es[n - 1]);
    }
  }

  /** Over every run with a working table: all checks passed agree, exactly when no thread ever wrote over
      a different value recorded between its look and its write. */
  lemma PassedChecksAgreeIff(ss: seq<State>, es: seq<Step>, ms: seq<Message>)
    requires IsRun(ss, es, ms) && Reliable(es)
    ensures Agree(ss[|es|].passed) <==> RaceFree(ss, es)
  {
    hide Claims, Next, LosesRace;
    if RaceFree(ss, es) {
      RunRecorded(ss, es, ms, |es|);
    } else {
      var i :| 0 <= i < |es| && LosesRace(ss[i], es[i]);
      RunInv(ss, es, ms, i);
      LostRaceDisagrees(ss[i], es[i]);
      PassedGrows(ss, es, ms, i + 1, |es|);
    }
  }

  /** Every write directly follows its own thread's look. */
  ghost predicate Atomic(es: seq<Step>) {
    forall i :: 0 <= i < |es| && es[i].Put? ==> i > 0 && es[i - 1] == Get(es[i].t)
  }

  /** Were look and write one step, no run would lose a race. */
  lemma AtomicIsRaceFree(ss: seq<State>, es: seq<Step>, ms: seq<Message>)
    requires IsRun(ss, es, ms) && Atomic(es)
    ensures RaceFree(ss, es)
  {
    hide Claims;
    forall i | 0 <= i < |es| && es[i].Put? ensures !LosesRace(ss[i], es[i]) {
      assert ss[i - 1 + 1] == Next(ss[i - 1], es[i - 1]);
      LookThenWrite(ss[i - 1], es[i].t);
    }
  }

  lemma LookThenWrite(s: State, t: nat)
    requires Enabled(s, Get(t)) && Enabled(Next(s, Get(t)), Put(t))
    ensures !LosesRace(Next(s, Get(t)), Put(t))
  {
    hide Claims;
  }

  /******* What it means for accepted messages *******/

  lemma AcceptedPassed(s: State, t: nat, c: Claim)
    requires Progress(s) && t < |s.threads| && s.threads[t].Accepted() && c in Claims(s.threads[t].msg)
    ensures c in s.passed
  {
    hide Claims;
    var m := s.threads[t].msg;
    var i: nat :| i < |Claims(m)| && Claims(m)[i] == c;
  }

  lemma ClaimsOf(m: Message)
    ensures Claim(BodyKey(m.bodyHash), Owner(m.conv, m.id)) in Claims(m)
    ensures Claim(PrevKey(m.conv, m.id), HeaderIs(m.headerHash)) in Claims(m)
    ensures forall p :: p in m.prev ==> Claim(PrevKey(m.conv, p.id), HeaderIs(p.hash)) in Claims(m)
  {
    var cs := Claims(m);
    assert cs[0] in cs && cs[1] in cs;
    forall p | p in m.prev ensures Claim(PrevKey(m.conv, p.id), HeaderIs(p.hash)) in cs {
      var i :| 0 <= i < |m.prev| && m.prev[i] == p;
      assert cs[i + 2] == Claim(PrevKey(m.conv, p.id), HeaderIs(p.hash));
    }
  }

  /** Two accepted messages never share a body hash, never disagree about the header hash of one message,
      and a prev pointer of one agrees with the header hash of the other it names. */
  lemma AcceptedMessagesAgree(ss: seq<State>, es: seq<Step>, ms: seq<Message>, t: nat, u: nat)
    requires IsRun(ss, es, ms) && Reliable(es) && RaceFree(ss, es) && t < |ms| && u < |ms|
    requires |ss[|es|].threads| == |ms| && ss[|es|].threads[t].Accepted() && ss[|es|].threads[u].Accepted()
    ensures ms[t].bodyHash == ms[u].bodyHash ==> ms[t].conv == ms[u].conv && ms[t].id == ms[u].id
    ensures ms[t].conv == ms[u].conv && ms[t].id == ms[u].id ==> ms[t].headerHash == ms[u].headerHash
    ensures ms[t].conv == ms[u].conv ==> forall p :: p in ms[t].prev && p.id == ms[u].id ==> p.hash == ms[u].headerHash
  {
    hide IsRun, RaceFree, Claims;
    RunIsLong(ss, es, ms);
    var s := ss[|es|];
    RunInv(ss, es, ms, |es|);
    PassedChecksAgreeIff(ss, es, ms);
    ClaimsOf(ms[t]);
    ClaimsOf(ms[u]);
    forall c | c in Claims(ms[t]) || c in Claims(ms[u]) ensures c in s.passed {
      AcceptedPassed(s, if c in Claims(ms[t]) then t else u, c);
    }
    hide Progress;
    AgreeingOwners(s.passed, ms[t], ms[u]);
  }

  lemma RunIsLong(ss: seq<State>, es: seq<Step>, ms: seq<Message>)
    requires IsRun(ss, es, ms)
    ensures |ss| == |es| + 1
  {
  }

  lemma AgreeingOwners(passed: set<Claim>, m: Message, n: Message)
    requires Agree(passed)
    requires Claim(BodyKey(m.bodyHash), Owner(m.conv, m.id)) in passed && Claim(BodyKey(n.bodyHash), Owner(n.conv, n.id)) in passed
    requires Claim(PrevKey(m.conv, m.id), HeaderIs(m.headerHash)) in passed && Claim(PrevKey(n.conv, n.id), HeaderIs(n.headerHash)) in passed
    requires forall p :: p in m.prev ==> Claim(PrevKey(m.conv, p.id), HeaderIs(p.hash)) in passed
    ensures m.bodyHash == n.bodyHash ==> m.conv == n.conv && m.id == n.id
    ensures m.conv == n.conv && m.id == n.id ==> m.headerHash == n.headerHash
    ensures m.conv == n.conv ==> forall p :: p in m.prev && p.id == n.id ==> p.hash == n.headerHash
  {
  }

  ghost predicate AllAccepted(s: State) {
    forall t :: 0 <= t < |s.threads| ==> s.threads[t].Accepted()
  }

  /** States that some run with a working table ends in. */
  ghost predicate Reaches(ms: seq<Message>, s: State) {
    exists ss: seq<State>, es: seq<Step> :: IsRun(ss, es, ms) && Reliable(es) && ss[|es|] == s
  }

  lemma ReachesInit(ms: seq<Message>)
    ensures Reaches(ms, Init(ms))
  {
    assert IsRun([Init(ms)], [], ms);
  }

  lemma ReachesNext(ms: seq<Message>, s: State, e: Step)
    requires Reaches(ms, s) && Enabled(s, e) && (e.Get? || e.Put?)
    ensures Reaches(ms, Next(s, e))
  {
    hide Next, Enabled, Init;
    var ss: seq<State>, es: seq<Step> :| IsRun(ss, es, ms) && Reliable(es) && ss[|es|] == s;
    assert IsRun(ss + [Next(s, e)], es + [e], ms);
  }

  /** Thread t, at check n of its message, looks it up and finds nothing. */
  lemma Looks(ms: seq<Message>, s: State, t: nat, m: Message, n: nat) returns (s': State)
    requires Reaches(ms, s) && t < |s.threads| && s.threads[t] == Thread(m, n, false, false)
    requires n < |Claims(m)| && Claims(m)[n].key !in s.table
    ensures Reaches(ms, s') && s'.table == s.table && Moved(s, s', t, Thread(m, n, true, false))
  {
    hide Reaches, Claims;
    ReachesNext(ms, s, Get(t));
    s' := Next(s, Get(t));
  }

  /** Thread t, having found nothing, records its check. */
  lemma Writes(ms: seq<Message>, s: State, t: nat, m: Message, n: nat) returns (s': State)
    requires Reaches(ms, s) && t < |s.threads| && s.threads[t] == Thread(m, n, true, false) && n < |Claims(m)|
    ensures Reaches(ms, s') && (forall k :: k in s'.table <==> k in s.table || k == Claims(m)[n].key)
    ensures Moved(s, s', t, Thread(m, n + 1, false, false))
  {
    hide Reaches, Claims;
    ReachesNext(ms, s, Put(t));
    s' := Next(s, Put(t));
  }

  lemma InitPair(a: Message, b: Message)
    ensures Init([a, b]) == State(map[], [Thread(a, 0, false, false), Thread(b, 0, false, false)], {})
  {
  }

  /** Two threads, at the given checks of their messages. */
  ghost predicate At(s: State, a: Message, i: nat, x: bool, b: Message, j: nat, y: bool) {
    |s.threads| == 2 && s.threads[0] == Thread(a, i, x, false) && s.threads[1] == Thread(b, j, y, false)
  }

  /** Only thread t has moved. */
  ghost predicate Moved(s: State, s': State, t: nat, th: Thread) {
    |s'.threads| == |s.threads| && forall u :: 0 <= u < |s.threads| ==> s'.threads[u] == if u == t then th else s.threads[u]
  }

  /** Both threads look at the body hash before either writes. */
  lemma BothLook(ms: seq<Message>, a: Message, b: Message) returns (s: State)
    requires ms == [a, b] && a.prev == b.prev == []
    ensures Reaches(ms, s) && At(s, a, 0, true, b, 0, true) && s.table == map[]
  {
    ClaimKeys(a);
    ClaimKeys(b);
    InitPair(a, b);
    hide Claims, Reaches, Init;
    ReachesInit(ms);
    s := Looks(ms, Init(ms), 0, a, 0);
    s := Looks(ms, s, 1, b, 0);
  }

  /** The table after one more key has been recorded. */
  ghost predicate Adds(s: State, s': State, key: Key) {
    forall k :: k in s'.table <==> k in s.table || k == key
  }

  lemma FirstWrites(ms: seq<Message>, s: State, a: Message, b: Message) returns (s': State)
    requires Reaches(ms, s) && At(s, a, 0, true, b, 0, true) && a.prev == []
    ensures Reaches(ms, s') && At(s', a, 1, false, b, 0, true) && Adds(s, s', BodyKey(a.bodyHash))
  {
    ClaimKeys(a);
    hide Claims, Reaches;
    s' := Writes(ms, s, 0, a, 0);
  }

  lemma SecondWrites(ms: seq<Message>, s: State, a: Message, b: Message) returns (s': State)
    requires Reaches(ms, s) && At(s, a, 1, false, b, 0, true) && b.prev == []
    ensures Reaches(ms, s') && At(s', a, 1, false, b, 1, false) && Adds(s, s', BodyKey(b.bodyHash))
  {
    ClaimKeys(b);
    hide Claims, Reaches;
    s' := Writes(ms, s, 1, b, 0);
  }

  lemma BothWrite(ms: seq<Message>, a: Message, b: Message) returns (s: State)
    requires ms == [a, b] && a.prev == b.prev == [] && a.bodyHash == b.bodyHash
    ensures Reaches(ms, s) && At(s, a, 1, false, b, 1, false) && (forall k :: k in s.table ==> k == BodyKey(a.bodyHash))
  {
    hide At, Reaches;
    s := BothLook(ms, a, b);
    s := FirstWrites(ms, s, a, b);
    s := SecondWrites(ms, s, a, b);
  }

  /** A thread alone at its last check, the header hash of its message. */
  lemma Finishes(ms: seq<Message>, s: State, t: nat, m: Message) returns (s': State)
    requires Reaches(ms, s) && t < |s.threads| && m.prev == [] && s.threads[t] == Thread(m, 1, false, false)
    requires PrevKey(m.conv, m.id) !in s.table
    ensures Reaches(ms, s') && Moved(s, s', t, Thread(m, 2, false, false)) && Thread(m, 2, false, false).Accepted()
    ensures forall k :: k in s'.table <==> k in s.table || k == PrevKey(m.conv, m.id)
  {
    ClaimKeys(m);
    hide Claims, Reaches;
    s' := Looks(ms, s, t, m, 1);
    s' := Writes(ms, s', t, m, 1);
  }

  /** When a race is lost a replay gets through: two threads look, find nothing, and both write. */
  lemma RaceLetsReplayThrough(a: Message, b: Message)
    requires a.bodyHash == b.bodyHash && a.id != b.id && a.prev == b.prev == []
    ensures exists s :: Reaches([a, b], s) && AllAccepted(s)
  {
    hide Claims, Reaches;
    var s := BothWrite([a, b], a, b);
    s := Finishes([a, b], s, 0, a);
    s := Finishes([a, b], s, 1, b);
    assert AllAccepted(s);
  }

  lemma ClaimKeys(m: Message)
    requires m.prev == []
    ensures |Claims(m)| == 2 && Claims(m)[0].key == BodyKey(m.bodyHash) && Claims(m)[1].key == PrevKey(m.conv, m.id)
  {
  }
}
