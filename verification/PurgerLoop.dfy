/**
 The purger as a machine of atomic steps, each taken under queueLock or on one channel receive:
 Start, Stop, Queue, the timer firing, the loop picking up a wake-up, and the purge pass it leads to.
 */
module PurgerLoop {
  import opened Wrappers
  import opened EphemeralTypes
  import opened PurgeHeap
  import opened Purger

  /**
   `deadline` is the armed purgeTimer, `fired` a tick waiting in its channel, `passes` the wake-ups a
   loop has taken and not yet turned into a pass, and `now` the clock. While `starting`, the queue is
   filled and the new timer is not made yet; `hasTimer` says that some Start has made one.
   */
  datatype State = State(queue: Queue, created: bool, started: bool, starting: bool, hasTimer: bool, deadline: Option<Time>, fired: bool,
                         passes: nat, now: Time)

  datatype Step =
    | Start(all: seq<PurgeInfo>)
    | StartTimer
    | Stop
    | Enqueue(info: PurgeInfo)
    | Tick(to: Time)
    | TimerFires
    | LoopWakes
    | Resumed
    | Pass(clock: nat -> Time)

  const Fresh := State([], false, false, false, false, None, false, 0, 0)

  /** purgeTimer.Stop leaves a delivered tick in the channel; Reset arms the timer for now + (t - now). */
  function ResetTimer(st: State, info: PurgeInfo): State {
    st.(deadline := Some(info.nextPurgeTime))
  }

  predicate JumpsQueue(q: Queue, info: PurgeInfo) {
    q == [] || info.nextPurgeTime < q[0].nextPurgeTime
  }

  /** Put a future entry in the queue, moving the timer up when it becomes the head. */
  function Reschedule(st: State, info: PurgeInfo): (r: State) {
    var st1 := if JumpsQueue(st.queue, info) then ResetTimer(st, info) else st;
    var st2 := st1.(queue := UpdateQueue(st.queue, info));
    if st2.queue != [] && st2.queue[0].nextPurgeTime < st.now then ResetTimer(st2, st2.queue[0]) else st2
  }

  /** Queue, once past its error return; the second result is what goes straight to the conv loader. */
  function QueueInfo(st: State, info: PurgeInfo): (r: (State, seq<PurgeInfo>)) {
    var i := Slot(st.queue, info.convID);
    if i >= 0 && st.queue[i] == info then (st, [])
    else if !info.isActive then (st, [])
    else if info.nextPurgeTime <= st.now then (st, [info])
    else (Reschedule(st, info), [])
  }

  /** Queue gets as far as arming the timer. */
  predicate ArmsTimer(st: State, info: PurgeInfo) {
    var i := Slot(st.queue, info.convID);
    && !(i >= 0 && st.queue[i] == info) && info.isActive && info.nextPurgeTime > st.now
    && (JumpsQueue(st.queue, info) || (var q := UpdateQueue(st.queue, info); q != [] && q[0].nextPurgeTime < st.now))
  }

  /** queuePurges: drop as many entries as were sent, then arm the timer for the new head. */
  function QueuePurges(st: State, clock: nat -> Time): (r: State) {
    var q := PopMany(st.queue, SendCount(st.queue, clock, 0));
    var st1 := st.(queue := q, now := clock(|st.queue|));
    if q == [] then st1 else ResetTimer(st1, q[0])
  }

  predicate Enabled(st: State, s: Step) {
    match s
    case Start(_) | Stop => !st.starting
    case StartTimer => st.starting
    case Resumed => st.hasTimer
    case Enqueue(_) => st.created
    case Tick(to) => st.now <= to
    case TimerFires => st.deadline.Some? && st.deadline.value <= st.now
    case LoopWakes => st.fired
    case Pass(clock) => st.created && st.passes > 0 && st.now <= clock(0)
  }

  /** The step arms a timer that is still nil, which crashes the process. */
  predicate Crashes(st: State, s: Step) {
    !st.hasTimer && match s
      case Enqueue(info) => ArmsTimer(st, info)
      case Pass(clock) => PopMany(st.queue, SendCount(st.queue, clock, 0)) != []
      case _ => false
  }

  function Next(st: State, s: Step): State
    requires Enabled(st, s)
  {
    match s
    case Start(all) =>
      if st.started then st else st.(queue := InitQueue(all), created := true, started := true, starting := true)
    case StartTimer => st.(starting := false, hasTimer := true, deadline := Some(st.now), fired := false)
    case Stop => st.(started := false)
    case Enqueue(info) => QueueInfo(st, info).0
    case Tick(to) => st.(now := to)
    case TimerFires => st.(deadline := None, fired := true)
    case LoopWakes => st.(fired := false, passes := st.passes + 1)
    case Resumed => st.(passes := st.passes + 1)
    case Pass(clock) => QueuePurges(st.(passes := st.passes - 1), clock)
  }

  ghost predicate IsRun(st: State, steps: seq<Step>)
    decreases |steps|
  {
    steps == [] || (
      var s := steps[0];
      && Enabled(st, s) && !Crashes(st, s)
      && (s.Pass? ==> NonDecreasing(s.clock))
      && IsRun(Next(st, s), steps[1..]))
  }

  function Final(st: State, steps: seq<Step>): State
    requires IsRun(st, steps)
    decreases |steps|
  {
    if steps == [] then st else Final(Next(st, steps[0]), steps[1..])
  }

  /******* Invariants *******/

  /** A wake-up is on its way: delivered, taken by the loop, owed by a timer that has run out, or by the timer
      that Start is about to make. */
  predicate WakeupPending(st: State) {
    st.starting || st.fired || st.passes > 0 || (st.deadline.Some? && st.deadline.value <= st.now)
  }

  ghost predicate Inv(st: State, m: Schedule) {
    && Healthy(st.queue, m)
    && (st.started ==> st.created) && (st.starting ==> st.started)
    && (st.created && !st.hasTimer ==> st.starting) && (st.passes > 0 || st.fired || st.deadline.Some? ==> st.hasTimer)
    && (st.started && st.queue != [] ==>
          WakeupPending(st) || (st.deadline.Some? && st.deadline.value <= st.queue[0].nextPurgeTime))
  }

  /** A head that moves can only move to an entry already queued or to the new one. */
  lemma HeadAfterUpdate(q: Queue, m: Schedule, info: PurgeInfo)
    requires Healthy(q, m) && info.isActive
    ensures var r := UpdateQueue(q, info);
      && r != [] && r[0].nextPurgeTime <= info.nextPurgeTime
      && (q != [] ==> q[0].nextPurgeTime <= r[0].nextPurgeTime || r[0] == info)
  {
    var r := UpdateQueue(q, info);
    UpdateRefinesMap(q, m, info);
    hide UpdateQueue, Heap;
    var m' := m[info.convID := info];
    assert m'[info.convID] in multiset(r);
    assert info in r;
    var k :| 0 <= k < |r| && r[k] == info;
    RootIsEarliest(r, k);
    assert r[0] in multiset(r);
    if q != [] && r[0] != info {
      assert r[0] in multiset(q);
      var j :| 0 <= j < |q| && q[j] == r[0];
      RootIsEarliest(q, j);
    }
  }

  /** A new entry that is scheduled comes before everything else, or something scheduled is already overdue. */
  ghost predicate NeedsTimer(m: Schedule, info: PurgeInfo, now: Time) {
    || (forall c :: c in m ==> info.nextPurgeTime < m[c].nextPurgeTime)
    || (exists c :: c in m && c != info.convID && m[c].nextPurgeTime < now)
  }

  /** t is the earliest purge time scheduled. */
  ghost predicate Earliest(m: Schedule, t: Time) {
    (exists c :: c in m && m[c].nextPurgeTime == t) && forall c :: c in m ==> t <= m[c].nextPurgeTime
  }

  /** Queue against the schedule: an inactive entry, or one that is scheduled as it is, changes nothing; another that
      is due goes straight to the conv loader; every other one is scheduled, and the timer is set to the earliest time
      if the entry comes first or something is overdue, and is left alone otherwise. */
  lemma QueueSchedules(st: State, m: Schedule, info: PurgeInfo)
    requires Healthy(st.queue, m)
    ensures var (st', sent) := QueueInfo(st, info); var m' := m[info.convID := info];
      if !info.isActive || (info.convID in m && m[info.convID] == info) then st' == st && sent == []
      else if info.nextPurgeTime <= st.now then st' == st && sent == [info]
      else
        && Healthy(st'.queue, m') && sent == []
        && st' == st.(queue := st'.queue, deadline := st'.deadline)
        && (if NeedsTimer(m, info, st.now) then st'.deadline.Some? && Earliest(m', st'.deadline.value) else st'.deadline == st.deadline)
  {
    hide UpdateQueue, Healthy, NeedsTimer, Earliest;
    SlotIsScheduled(st.queue, m, info);
    if info.isActive && info.nextPurgeTime > st.now {
      UpdateRefinesMap(st.queue, m, info);
      JumpsIff(st.queue, m, info);
      HeadIsEarliest(UpdateQueue(st.queue, info), m[info.convID := info]);
      TimerCases(st.queue, m, info, st.now);
    }
  }

  /** When Queue arms the timer, in terms of the schedule. */
  lemma ArmsIff(st: State, m: Schedule, info: PurgeInfo)
    requires Healthy(st.queue, m)
    ensures ArmsTimer(st, info) <==>
      info.isActive && !(info.convID in m && m[info.convID] == info) && info.nextPurgeTime > st.now && NeedsTimer(m, info, st.now)
  {
    hide UpdateQueue, Healthy, NeedsTimer, Earliest;
    SlotIsScheduled(st.queue, m, info);
    if info.isActive && info.nextPurgeTime > st.now {
      UpdateRefinesMap(st.queue, m, info);
      JumpsIff(st.queue, m, info);
      HeadIsEarliest(UpdateQueue(st.queue, info), m[info.convID := info]);
      TimerCases(st.queue, m, info, st.now);
    }
  }

  lemma JumpsIff(q: Queue, m: Schedule, info: PurgeInfo)
    requires Healthy(q, m)
    ensures JumpsQueue(q, info) <==> forall c :: c in m ==> info.nextPurgeTime < m[c].nextPurgeTime
  {
    hide Healthy;
    HeadIsEarliest(q, m);
  }

  lemma HeadIsEarliest(q: Queue, m: Schedule)
    requires Healthy(q, m)
    ensures m == map[] <==> q == []
    ensures q != [] ==> Earliest(m, q[0].nextPurgeTime)
  {
    hide Heap;
    forall c | c in m ensures q != [] && q[0].nextPurgeTime <= m[c].nextPurgeTime {
      assert m[c] in multiset(q);
      var k :| 0 <= k < |q| && q[k] == m[c];
      HealthyIsHeap(q, m);
      RootIsEarliest(q, k);
    }
    if q != [] { assert q[0] in multiset(q) && m[q[0].convID] == q[0]; }
  }

  /** The two resets of Queue, by the schedule: an entry that jumps the queue is the earliest, and the head is overdue
      exactly when another entry is. */
  lemma TimerCases(q: Queue, m: Schedule, info: PurgeInfo, now: Time)
    requires Healthy(q, m) && Healthy(UpdateQueue(q, info), m[info.convID := info]) && now < info.nextPurgeTime
    ensures var q' := UpdateQueue(q, info); var m' := m[info.convID := info];
      && q' != [] && (NeedsTimer(m, info, now) <==> JumpsQueue(q, info) || q'[0].nextPurgeTime < now)
      && (JumpsQueue(q, info) ==> Earliest(m', info.nextPurgeTime) && q'[0].nextPurgeTime == info.nextPurgeTime)
  {
    hide UpdateQueue, Healthy;
    JumpsIff(q, m, info);
    var q', m' := UpdateQueue(q, info), m[info.convID := info];
    assert info.convID in m';
    HeadIsEarliest(q', m');
    assert forall c :: c in m && c != info.convID ==> c in m' && m'[c] == m[c];
  }

  lemma SlotIsScheduled(q: Queue, m: Schedule, info: PurgeInfo)
    requires Healthy(q, m)
    ensures var i := Slot(q, info.convID); i >= 0 && q[i] == info <==> info.convID in m && m[info.convID] == info
  {
    hide Heap;
    var i := Slot(q, info.convID);
    if i >= 0 { assert q[i] in multiset(q); }
    if info.convID in m && m[info.convID] == info { assert info in multiset(q); }
  }

  /** What each step makes of the schedule. */
  ghost function Scheduled(st: State, m: Schedule, s: Step): Schedule {
    match s
    case Start(all) => if st.started then m else LatestActive(all)
    case Enqueue(info) => if info.isActive && info.nextPurgeTime > st.now then m[info.convID := info] else m
    case Pass(clock) => Without(m, multiset(Popped(st.queue, SendCount(st.queue, clock, 0))))
    case _ => m
  }

  lemma EnqueueKeepsInv(st: State, m: Schedule, info: PurgeInfo)
    requires Inv(st, m) && st.created && !Crashes(st, Enqueue(info))
    ensures Inv(QueueInfo(st, info).0, Scheduled(st, m, Enqueue(info)))
  {
    hide UpdateQueue, Heap;
    SlotIsScheduled(st.queue, m, info);
    if info.isActive && info.nextPurgeTime > st.now {
      if info.convID in m && m[info.convID] == info {
        assert m[info.convID := info] == m;
      } else {
        UpdateRefinesMap(st.queue, m, info);
        HeadAfterUpdate(st.queue, m, info);
      }
    }
  }

  lemma PassKeepsInv(st: State, m: Schedule, clock: nat -> Time)
    requires Inv(st, m) && Enabled(st, Pass(clock))
    ensures Inv(Next(st, Pass(clock)), Scheduled(st, m, Pass(clock)))
  {
    hide SendCount, PopMany;
    PopManyRefinesMap(st.queue, m, SendCount(st.queue, clock, 0));
    hide Healthy;
  }

  lemma StepKeepsInv(st: State, m: Schedule, s: Step)
    requires Inv(st, m) && Enabled(st, s) && !Crashes(st, s) && (s.Pass? ==> NonDecreasing(s.clock))
    ensures Inv(Next(st, s), Scheduled(st, m, s))
  {
    hide UpdateQueue, PopMany, SendCount, Healthy, Crashes;
    match s
    case Start(all) => InitQueueHolds(all);
    case Enqueue(info) => EnqueueKeepsInv(st, m, info);
    case Pass(clock) => PassKeepsInv(st, m, clock);
    case _ =>
  }

  ghost function ScheduleAfter(st: State, m: Schedule, steps: seq<Step>): Schedule
    requires IsRun(st, steps)
    decreases |steps|
  {
    if steps == [] then m else ScheduleAfter(Next(st, steps[0]), Scheduled(st, m, steps[0]), steps[1..])
  }

  /** Over every run the queue is a heap that holds exactly the schedule, one active entry per conversation, and a
      started purger with a non-empty queue has a wake-up pending or a timer no later than its head. */
  lemma {:induction false} RunKeepsInv(st: State, m: Schedule, steps: seq<Step>)
    requires Inv(st, m) && IsRun(st, steps)
    ensures Inv(Final(st, steps), ScheduleAfter(st, m, steps))
    decreases |steps|
  {
    hide Inv, Enabled, Next, Crashes, Scheduled;
    if steps != [] {
      StepKeepsInv(st, m, steps[0]);
      RunKeepsInv(Next(st, steps[0]), Scheduled(st, m, steps[0]), steps[1..]);
    }
  }

  /** Whenever the earliest entry of a started purger is due, a wake-up is pending. */
  lemma DueHeadIsNeverForgotten(steps: seq<Step>)
    requires IsRun(Fresh, steps)
    ensures var st := Final(Fresh, steps);
      st.started && st.queue != [] && st.queue[0].nextPurgeTime <= st.now ==> WakeupPending(st)
  {
    assert Healthy([], map[]);
    RunKeepsInv(Fresh, map[], steps);
  }

  /** A step crashes exactly when it is a Queue that arms the timer while the first Start has filled the queue and
      not yet made its timer. */
  lemma CrashesIff(steps: seq<Step>, s: Step)
    requires IsRun(Fresh, steps) && Enabled(Final(Fresh, steps), s)
    ensures var st := Final(Fresh, steps);
      Crashes(st, s) <==> s.Enqueue? && st.starting && !st.hasTimer && ArmsTimer(st, s.info)
  {
    hide UpdateQueue, PopMany, SendCount, IsRun, Final;
    assert Healthy([], map[]);
    RunKeepsInv(Fresh, map[], steps);
  }

  /** It can happen: any active future entry queued while the first Start of an empty tracker is under way. */
  lemma FirstStartCanCrash(info: PurgeInfo)
    requires info.isActive && info.nextPurgeTime > 0
    ensures IsRun(Fresh, [Start([])]) && Crashes(Final(Fresh, [Start([])]), Enqueue(info))
  {
    assert [Start([])][1..] == [];
  }

  /******* Wake-ups and passes *******/

  function Count(b: bool): nat {
    if b then 1 else 0
  }

  /** The step delivers a wake-up. */
  predicate Wakes(s: Step) {
    s.TimerFires? || s.Resumed?
  }

  /** A tick is lost when another is waiting, or when a start replaces the timer. */
  predicate Loses(st: State, s: Step) {
    st.fired && (s.TimerFires? || s.StartTimer?)
  }

  /** Wake-ups delivered, less those lost and the passes made, over a run. */
  ghost function Balance(st: State, steps: seq<Step>): int
    requires IsRun(st, steps)
    decreases |steps|
  {
    if steps == [] then 0
    else Count(Wakes(steps[0])) - Count(Loses(st, steps[0])) - Count(steps[0].Pass?) + Balance(Next(st, steps[0]), steps[1..])
  }

  /** Every wake-up leads to one pass or is still on its way. */
  lemma {:induction false} WakeupsArePasses(st: State, steps: seq<Step>)
    requires IsRun(st, steps)
    ensures var st' := Final(st, steps); st'.passes + Count(st'.fired) == st.passes + Count(st.fired) + Balance(st, steps)
    decreases |steps|
  {
    if steps != [] {
      WakeupCounts(st, steps[0]);
      hide Next, Enabled, Crashes, Wakes, Loses, Count;
      WakeupsArePasses(Next(st, steps[0]), steps[1..]);
    }
  }

  lemma WakeupCounts(st: State, s: Step)
    requires Enabled(st, s)
    ensures var st' := Next(st, s);
      st'.passes + Count(st'.fired) == st.passes + Count(st.fired) + Count(Wakes(s)) - Count(Loses(st, s)) - Count(s.Pass?)
  {
    hide QueueInfo, QueuePurges, InitQueue;
    match s
    case Enqueue(info) => QueueKeepsTicks(st, info);
    case Pass(clock) => PassKeepsTicks(st.(passes := st.passes - 1), clock);
    case _ =>
  }

  lemma QueueKeepsTicks(st: State, info: PurgeInfo)
    ensures var st' := QueueInfo(st, info).0; st'.passes == st.passes && st'.fired == st.fired
  {
    hide UpdateQueue;
  }

  lemma PassKeepsTicks(st: State, clock: nat -> Time)
    ensures var st' := QueuePurges(st, clock); st'.passes == st.passes && st'.fired == st.fired
  {
    hide PopMany, SendCount;
  }

  /** The steps that lead from a pending wake-up to a pass. */
  predicate Routine(s: Step) {
    s.StartTimer? || s.TimerFires? || s.LoopWakes? || s.Pass?
  }

  /** A run of such steps that ends with a pass which sends the head of this queue. */
  ghost predicate SendsHead(st: State, more: seq<Step>) {
    && more != [] && (forall s :: s in more ==> Routine(s))
    && var n := |more| - 1;
    && IsRun(st, more[..n]) && var st' := Final(st, more[..n]);
    && st'.queue == st.queue && more[n].Pass? && IsRun(st', [more[n]]) && SendCount(st'.queue, more[n].clock, 0) > 0
  }

  lemma Leads(st: State, s: Step, more: seq<Step>)
    requires Enabled(st, s) && !Crashes(st, s) && Routine(s) && !s.Pass? && Next(st, s).queue == st.queue
    requires SendsHead(Next(st, s), more)
    ensures SendsHead(st, [s] + more)
  {
    hide Next, Enabled, Crashes, SendCount;
    var n := |more| - 1;
    var front := ([s] + more)[..n + 1];
    assert front == [s] + more[..n] && front[1..] == more[..n];
    assert IsRun(st, front) && Final(st, front) == Final(Next(st, s), more[..n]);
    assert ([s] + more)[n + 1] == more[n];
  }

  lemma PassSends(st: State) returns (more: seq<Step>)
    requires st.created && st.hasTimer && st.passes > 0 && st.queue != [] && st.queue[0].nextPurgeTime <= st.now
    ensures SendsHead(st, more)
  {
    var pass := Pass((k: nat) => st.now);
    more := [pass];
    assert SendCount(st.queue, pass.clock, 0) > 0;
    hide QueuePurges, SendCount, PopMany;
    assert more[..0] == [] && more[1..] == [];
    assert IsRun(st, more) by { assert IsRun(Next(st, pass), []); }
  }

  lemma TickSends(st: State) returns (more: seq<Step>)
    requires st.created && st.hasTimer && (st.fired || st.passes > 0) && st.queue != [] && st.queue[0].nextPurgeTime <= st.now
    ensures SendsHead(st, more)
  {
    hide SendsHead;
    if st.passes > 0 {
      more := PassSends(st);
    } else {
      var rest := PassSends(Next(st, LoopWakes));
      Leads(st, LoopWakes, rest);
      more := [LoopWakes] + rest;
    }
  }

  lemma DeadlineSends(st: State) returns (more: seq<Step>)
    requires st.created && st.hasTimer && st.deadline.Some? && st.deadline.value <= st.now && st.queue != [] && st.queue[0].nextPurgeTime <= st.now
    ensures SendsHead(st, more)
  {
    hide SendsHead;
    var rest := TickSends(Next(st, TimerFires));
    Leads(st, TimerFires, rest);
    more := [TimerFires] + rest;
  }

  /** In every reachable state whose head is due, with no steps but those of the timer and the loop, a pass can be
      reached that sends the head. */
  lemma DueHeadCanBeSent(steps: seq<Step>) returns (more: seq<Step>)
    requires IsRun(Fresh, steps)
    requires var st := Final(Fresh, steps); st.started && st.queue != [] && st.queue[0].nextPurgeTime <= st.now
    ensures SendsHead(Final(Fresh, steps), more)
  {
    hide SendsHead, IsRun, Final;
    assert Healthy([], map[]);
    RunKeepsInv(Fresh, map[], steps);
    hide Healthy;
    var st := Final(Fresh, steps);
    if st.fired || st.passes > 0 {
      more := TickSends(st);
    } else if st.deadline.Some? && st.deadline.value <= st.now {
      more := DeadlineSends(st);
    } else {
      var rest := DeadlineSends(Next(st, StartTimer));
      Leads(st, StartTimer, rest);
      more := [StartTimer] + rest;
    }
  }
}
