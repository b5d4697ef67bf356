/**
 The background purger of exploding messages: the scheduling queue, one purge pass, and the timer
 that wakes the purge loop (go/chat/ephemeral_purger.go).
 */
module Purger {
  import opened EphemeralTypes
  import opened PurgeHeap

  /******* The queue as a schedule with one entry per conversation *******/

  type Schedule = map<ConvID, PurgeInfo>

  /** The queue holds every entry of the plain map m exactly once, and nothing else. */
  ghost predicate Holds(q: multiset<PurgeInfo>, m: Schedule) {
    && (forall c :: c in m ==> m[c].convID == c)
    && (forall p :: q[p] == if p.convID in m && m[p.convID] == p then 1 else 0)
  }

  /** What every operation keeps: heap order, one entry per conversation, active entries only. */
  ghost predicate Healthy(q: Queue, m: Schedule) {
    && Heap(q)
    && Holds(multiset(q), m)
    && forall c :: c in m ==> m[c].isActive
  }

  /** The slot of a conversation, or -1. The source finds it through itemMap and the item's index. */
  function Slot(q: Queue, c: ConvID): (i: int)
    ensures -1 <= i < |q|
    ensures i >= 0 ==> q[i].convID == c
    ensures i < 0 ==> forall p :: p in q ==> p.convID != c
  {
    if q == [] then -1
    else if q[|q| - 1].convID == c then |q| - 1
    else Slot(q[..|q| - 1], c)
  }

  function UpdateQueue(q: Queue, info: PurgeInfo): Queue {
    var i := Slot(q, info.convID);
    if i >= 0 then Fix(q[i := info], i) else Push(q, info)
  }

  /** updateQueue is a map update, whether it reschedules an entry or inserts one. */
  lemma UpdateRefinesMap(q: Queue, m: Schedule, info: PurgeInfo)
    requires Healthy(q, m) && info.isActive
    ensures Healthy(UpdateQueue(q, info), m[info.convID := info])
  {
    hide Fix, Push, Heap;
    var i := Slot(q, info.convID);
    if i >= 0 {
      assert q[i] in multiset(q);
      FixReplaces(q, i, info);
    } else {
      PushInserts(q, info);
    }
  }

  /** initQueue: a fresh queue filled with the active entries the tracker has stored. */
  function InitQueue(all: seq<PurgeInfo>): Queue {
    if all == [] then []
    else
      var q := InitQueue(all[..|all| - 1]);
      var info := all[|all| - 1];
      if info.isActive then UpdateQueue(q, info) else q
  }

  /** The last active entry stored for each conversation. */
  function LatestActive(all: seq<PurgeInfo>): Schedule {
    if all == [] then map[]
    else
      var m := LatestActive(all[..|all| - 1]);
      var info := all[|all| - 1];
      if info.isActive then m[info.convID := info] else m
  }

  /** An active entry is the latest of its conversation when no later one of it is active. */
  ghost predicate IsLatest(all: seq<PurgeInfo>, i: nat) {
    i < |all| && all[i].isActive && forall j :: i < j < |all| && all[j].convID == all[i].convID ==> !all[j].isActive
  }

  lemma {:induction false} LatestActiveIs(all: seq<PurgeInfo>, i: nat, c: ConvID)
    ensures IsLatest(all, i) ==> all[i].convID in LatestActive(all) && LatestActive(all)[all[i].convID] == all[i]
    ensures c in LatestActive(all) ==> exists k :: 0 <= k < |all| && all[k].convID == c && all[k].isActive
  {
    if all != [] {
      var front := all[..|all| - 1];
      LatestActiveIs(front, i, c);
      if c in LatestActive(front) {
        var k :| 0 <= k < |front| && front[k].convID == c && front[k].isActive;
        assert all[k] == front[k];
      }
      if i < |front| && IsLatest(all, i) { assert IsLatest(front, i) && all[|front|].convID == all[i].convID ==> !all[|front|].isActive; }
    }
  }

  lemma {:induction false} InitQueueHolds(all: seq<PurgeInfo>)
    ensures Healthy(InitQueue(all), LatestActive(all))
  {
    if all != [] {
      var front, info := all[..|all| - 1], all[|all| - 1];
      InitQueueHolds(front);
      if info.isActive {
        UpdateRefinesMap(InitQueue(front), LatestActive(front), info);
      }
    }
  }

  /******* One purge pass *******/

  /** The k-th clock reading of a pass is clock(k). */
  ghost predicate NonDecreasing(clock: nat -> Time) {
    forall i: nat, j: nat :: i <= j ==> clock(i) <= clock(j)
  }

  /** How many leading slots the pass finds expired before it stops, starting at slot i. */
  function SendCount(q: Queue, clock: nat -> Time, i: nat): (n: nat)
    requires i <= |q|
    ensures i <= n <= |q|
    ensures forall k :: i <= k < n ==> q[k].nextPurgeTime <= clock(k)
    ensures n < |q| ==> q[n].nextPurgeTime > clock(n)
    decreases |q| - i
  {
    if i < |q| && q[i].nextPurgeTime <= clock(i) then SendCount(q, clock, i + 1) else i
  }

  function PopMany(q: Queue, n: nat): (r: Queue)
    requires n <= |q|
    ensures |r| == |q| - n
    decreases n
  {
    if n == 0 then q else PopRemovesRoot(q); PopMany(Pop(q), n - 1)
  }

  function Popped(q: Queue, n: nat): (r: seq<PurgeInfo>)
    requires n <= |q|
    ensures |r| == n
    decreases n
  {
    if n == 0 then [] else PopRemovesRoot(q); [q[0]] + Popped(Pop(q), n - 1)
  }

  lemma {:induction false} PopManyConserves(q: Queue, n: nat)
    requires n <= |q|
    ensures multiset(q) == multiset(Popped(q, n)) + multiset(PopMany(q, n))
    decreases n
  {
    hide Pop;
    if n > 0 {
      PopRemovesRoot(q);
      var p, rest := Popped(Pop(q), n - 1), PopMany(Pop(q), n - 1);
      PopManyConserves(Pop(q), n - 1);
      assert Popped(q, n) == [q[0]] + p && PopMany(q, n) == rest;
      assert multiset(q) == multiset{q[0]} + (multiset(p) + multiset(rest));
    }
  }

  /** Popping n times takes out the n earliest entries. */
  lemma {:induction false} PopManyTakesEarliest(q: Queue, n: nat)
    requires Heap(q) && n <= |q|
    ensures Heap(PopMany(q, n))
    ensures forall p, r :: p in multiset(Popped(q, n)) && r in multiset(PopMany(q, n)) ==> p.nextPurgeTime <= r.nextPurgeTime
    decreases n
  {
    hide Pop, Heap;
    if n > 0 {
      PopRemovesEarliest(q);
      PopManyTakesEarliest(Pop(q), n - 1);
      PopManyConserves(q, n);
      forall r | r in multiset(PopMany(q, n)) ensures q[0].nextPurgeTime <= r.nextPurgeTime {
        assert r in multiset(q);
        assert r in q;
      }
      assert multiset(Popped(q, n)) == multiset{q[0]} + multiset(Popped(Pop(q), n - 1));
    }
  }

  /** What is left of the schedule once the entries in `gone` are popped. */
  ghost function Without(m: Schedule, gone: multiset<PurgeInfo>): Schedule {
    map c | c in m && m[c] !in gone :: m[c]
  }

  lemma PopManyRefinesMap(q: Queue, m: Schedule, n: nat)
    requires Healthy(q, m) && n <= |q|
    ensures Healthy(PopMany(q, n), Without(m, multiset(Popped(q, n))))
  {
    hide Pop, PopMany, Popped;
    PopManyTakesEarliest(q, n);
    PopManyConserves(q, n);
    var gone, rest := multiset(Popped(q, n)), multiset(PopMany(q, n));
    forall p ensures rest[p] == if p.convID in Without(m, gone) && Without(m, gone)[p.convID] == p then 1 else 0 {
      assert multiset(q)[p] == gone[p] + rest[p];
    }
  }

  ghost predicate AllBy(ps: seq<PurgeInfo>, t: Time) {
    forall p :: p in ps ==> p.nextPurgeTime <= t
  }

  /** While at least n entries are due by t, the next n pops are all due by t. */
  lemma {:induction false} PopsDueEntries(q: Queue, n: nat, t: Time, due: multiset<PurgeInfo>)
    requires Heap(q) && n <= |q| && due <= multiset(q) && |due| >= n
    requires forall p :: p in due ==> p.nextPurgeTime <= t
    ensures AllBy(Popped(q, n), t)
    decreases n
  {
    hide Pop, Heap, Popped;
    if n == 0 {
      PoppedNone(q);
    } else {
      PoppedNext(q, n);
      var due' := PopLeavesDue(q, t, due);
      PopsDueEntries(Pop(q), n - 1, t, due');
    }
  }

  /** The head is due, and all but one of the due entries are left. */
  lemma PopLeavesDue(q: Queue, t: Time, due: multiset<PurgeInfo>) returns (due': multiset<PurgeInfo>)
    requires Heap(q) && |q| > 0 && due <= multiset(q) && |due| > 0
    requires forall p :: p in due ==> p.nextPurgeTime <= t
    ensures q[0].nextPurgeTime <= t && Heap(Pop(q)) && due' <= multiset(Pop(q)) && |due'| == |due| - 1
    ensures forall p :: p in due' ==> p.nextPurgeTime <= t
  {
    hide Pop, Heap;
    PopRemovesEarliest(q);
    var d :| d in due;
    assert d in multiset(q);
    assert d in q;
    due' := due - multiset{if q[0] in due then q[0] else d};
    DueLeft(due, multiset(q), q[0], d);
    assert multiset(Pop(q)) == multiset(q) - multiset{q[0]};
    assert forall p :: p in due' ==> p in due;
  }

  lemma PoppedNone(q: Queue)
    ensures Popped(q, 0) == []
  {
  }

  lemma PoppedNext(q: Queue, n: nat)
    requires 0 < n <= |q|
    ensures |Pop(q)| == |q| - 1 && Popped(q, n) == [q[0]] + Popped(Pop(q), n - 1)
  {
    PopRemovesRoot(q);
    hide Pop;
  }

  lemma DueLeft(due: multiset<PurgeInfo>, all: multiset<PurgeInfo>, head: PurgeInfo, d: PurgeInfo)
    requires due <= all && head in all && d in due
    ensures due - multiset{if head in due then head else d} <= all - multiset{head}
  {
  }

  /** Every popped entry has expired, and as many are popped as were sent; the head goes if it is due. */
  lemma PassPopsOnlyExpired(q: Queue, clock: nat -> Time)
    requires Heap(q) && NonDecreasing(clock)
    ensures var n := SendCount(q, clock, 0);
      && |Popped(q, n)| == |q[..n]| && |PopMany(q, n)| == |q| - n
      && (n > 0 ==> AllBy(Popped(q, n), clock(n - 1)))
      && (q != [] && q[0].nextPurgeTime <= clock(0) ==> n > 0)
  {
    hide Popped, PopMany, Heap;
    var n := SendCount(q, clock, 0);
    if n > 0 {
      assert q == q[..n] + q[n..];
      PopsDueEntries(q, n, clock(n - 1), multiset(q[..n]));
    }
  }

  ghost predicate Before(a: multiset<PurgeInfo>, b: multiset<PurgeInfo>, strictly: bool) {
    forall p, r :: p in a && r in b ==>
      p.nextPurgeTime <= r.nextPurgeTime && (strictly ==> p.nextPurgeTime != r.nextPurgeTime)
  }

  lemma NoExchange(a: multiset<PurgeInfo>, b: multiset<PurgeInfo>, c: multiset<PurgeInfo>, d: multiset<PurgeInfo>,
                   x: PurgeInfo, y: PurgeInfo)
    requires a + b == c + d && Before(a, b, true) && Before(c, d, false)
    ensures a[x] <= c[x] || c[y] <= a[y]
  {
    assert (a + b)[x] == (c + d)[x] && (a + b)[y] == (c + d)[y];
  }

  lemma SameSizeSubset(a: multiset<PurgeInfo>, c: multiset<PurgeInfo>)
    requires |a| == |c| && a <= c
    ensures a == c
  {
    assert c == a + (c - a);
  }

  /** Only one split of a multiset has n members strictly earlier than the rest. */
  lemma EarliestSplitUnique(a: multiset<PurgeInfo>, b: multiset<PurgeInfo>, c: multiset<PurgeInfo>, d: multiset<PurgeInfo>)
    requires a + b == c + d && |a| == |c| && Before(a, b, true) && Before(c, d, false)
    ensures a == c
  {
    forall x, y ensures a[x] <= c[x] || c[y] <= a[y] { NoExchange(a, b, c, d, x, y); }
    assert a <= c || c <= a;
    if a <= c { SameSizeSubset(a, c); }
    if c <= a { SameSizeSubset(c, a); }
  }

  /******* The same for purge times, where ties do not matter *******/

  function Times(ps: seq<PurgeInfo>): multiset<Time> {
    if ps == [] then multiset{} else Times(ps[..|ps| - 1]) + multiset{ps[|ps| - 1].nextPurgeTime}
  }

  lemma {:induction false} TimesAre(ps: seq<PurgeInfo>, t: Time)
    ensures |Times(ps)| == |ps|
    ensures t in Times(ps) <==> exists p :: p in ps && p.nextPurgeTime == t
  {
    if ps != [] {
      TimesAre(ps[..|ps| - 1], t);
      assert ps == ps[..|ps| - 1] + [ps[|ps| - 1]];
    }
  }

  lemma TimesNext(ps: seq<PurgeInfo>, p: PurgeInfo)
    ensures Times(ps + [p]) == Times(ps) + multiset{p.nextPurgeTime}
  {
    assert (ps + [p])[..|ps|] == ps;
  }

  lemma TimesNone()
    ensures Times([]) == multiset{}
  {
  }

  lemma {:induction false} TimesConcat(a: seq<PurgeInfo>, b: seq<PurgeInfo>)
    ensures Times(a + b) == Times(a) + Times(b)
  {
    hide Times;
    if b == [] {
      assert a + b == a;
      TimesNone();
    } else {
      var c, x := b[..|b| - 1], b[|b| - 1];
      TimesConcat(a, c);
      TimesNext(a + c, x);
      TimesNext(c, x);
      assert c + [x] == b && a + c + [x] == a + b;
    }
  }

  /** Taking x out of its place takes its time out. */
  lemma TimesWithout(c: seq<PurgeInfo>, x: PurgeInfo, d: seq<PurgeInfo>)
    ensures Times(c + [x] + d) == Times(c + d) + multiset{x.nextPurgeTime}
  {
    hide Times;
    TimesConcat(c + [x], d);
    TimesNext(c, x);
    TimesConcat(c, d);
  }

  lemma TakeOut(front: seq<PurgeInfo>, x: PurgeInfo, c: seq<PurgeInfo>, d: seq<PurgeInfo>)
    requires multiset(front + [x]) == multiset(c + [x] + d)
    ensures multiset(front) == multiset(c + d)
  {
    assert multiset(front) == multiset(front + [x]) - multiset{x};
    assert multiset(c + d) == multiset(c + [x] + d) - multiset{x};
  }

  lemma {:induction false} TimesOfSame(a: seq<PurgeInfo>, b: seq<PurgeInfo>)
    requires multiset(a) == multiset(b)
    ensures Times(a) == Times(b)
  {
    hide Times;
    if a == [] {
      assert |multiset(b)| == 0;
      assert b == [];
    } else {
      var x, front := a[|a| - 1], a[..|a| - 1];
      assert x in multiset(b);
      var i :| 0 <= i < |b| && b[i] == x;
      var c, d := b[..i], b[i + 1..];
      assert a == front + [x] && b == c + [x] + d;
      TakeOut(front, x, c, d);
      TimesOfSame(front, c + d);
      TimesNext(front, x);
      TimesWithout(c, x, d);
    }
  }

  ghost predicate NotAfter(a: multiset<Time>, b: multiset<Time>) {
    forall x, y :: x in a && y in b ==> x <= y
  }

  lemma NoTimeExchange(a: multiset<Time>, b: multiset<Time>, c: multiset<Time>, d: multiset<Time>, x: Time, y: Time)
    requires a + b == c + d && NotAfter(a, b) && NotAfter(c, d)
    ensures a[x] <= c[x] || c[y] <= a[y]
  {
    assert (a + b)[x] == (c + d)[x] && (a + b)[y] == (c + d)[y];
  }

  /** The n earliest times of a multiset are always the same ones. */
  lemma EarliestTimesUnique(a: multiset<Time>, b: multiset<Time>, c: multiset<Time>, d: multiset<Time>)
    requires a + b == c + d && |a| == |c| && NotAfter(a, b) && NotAfter(c, d)
    ensures a == c
  {
    forall x, y ensures a[x] <= c[x] || c[y] <= a[y] { NoTimeExchange(a, b, c, d, x, y); }
    assert a <= c || c <= a;
    assert a <= c ==> c == a + (c - a);
    assert c <= a ==> a == c + (a - c);
  }

  lemma BeforeTimes(a: seq<PurgeInfo>, b: seq<PurgeInfo>)
    ensures Before(multiset(a), multiset(b), false) <==> NotAfter(Times(a), Times(b))
  {
    hide Times;
    if NotAfter(Times(a), Times(b)) {
      forall p, r | p in multiset(a) && r in multiset(b) ensures p.nextPurgeTime <= r.nextPurgeTime {
        TimesAre(a, p.nextPurgeTime);
        TimesAre(b, r.nextPurgeTime);
        assert p in a && r in b;
      }
    }
    if Before(multiset(a), multiset(b), false) {
      forall x, y | x in Times(a) && y in Times(b) ensures x <= y {
        TimesAre(a, x);
        TimesAre(b, y);
        var p :| p in a && p.nextPurgeTime == x;
        var r :| r in b && r.nextPurgeTime == y;
        assert p in multiset(a) && r in multiset(b);
      }
    }
  }

  lemma PassTimes(q: Queue, n: nat)
    requires Heap(q) && n <= |q|
    ensures Times(q[..n]) + Times(q[n..]) == Times(Popped(q, n)) + Times(PopMany(q, n))
    ensures NotAfter(Times(Popped(q, n)), Times(PopMany(q, n)))
  {
    hide Popped, PopMany, Heap, Times, NotAfter;
    PopManyTakesEarliest(q, n);
    PopManyConserves(q, n);
    BeforeTimes(Popped(q, n), PopMany(q, n));
    TimesConcat(q[..n], q[n..]);
    TimesConcat(Popped(q, n), PopMany(q, n));
    assert q == q[..n] + q[n..];
    TimesOfSame(q, Popped(q, n) + PopMany(q, n));
  }

  /** The pass sends the first n slots but pops the n earliest entries. Both have the same purge times if and only
      if no slot from n on is earlier than a slot before n. They are the same entries if none is as early, and
      only if none is earlier; entries of one time may stand for each other. */
  lemma PassPopsWhatItSentIff(q: Queue, n: nat)
    requires Heap(q) && n <= |q|
    ensures Times(Popped(q, n)) == Times(q[..n]) <==> Before(multiset(q[..n]), multiset(q[n..]), false)
    ensures Before(multiset(q[..n]), multiset(q[n..]), true) ==> multiset(Popped(q, n)) == multiset(q[..n])
    ensures multiset(Popped(q, n)) == multiset(q[..n]) ==> Before(multiset(q[..n]), multiset(q[n..]), false)
  {
    hide Popped, PopMany, Heap, Times, NotAfter;
    PassTimes(q, n);
    BeforeTimes(q[..n], q[n..]);
    var ts, tl, tp, tr := Times(q[..n]), Times(q[n..]), Times(Popped(q, n)), Times(PopMany(q, n));
    if tp == ts { assert tl == (ts + tl) - ts && tr == (tp + tr) - tp; }
    TimesAre(q[..n], 0);
    TimesAre(Popped(q, n), 0);
    if NotAfter(ts, tl) { EarliestTimesUnique(ts, tl, tp, tr); }
    SameEntries(q, n);
    if multiset(Popped(q, n)) == multiset(q[..n]) { TimesOfSame(Popped(q, n), q[..n]); }
  }

  lemma SameEntries(q: Queue, n: nat)
    requires Heap(q) && n <= |q|
    ensures Before(multiset(q[..n]), multiset(q[n..]), true) ==> multiset(Popped(q, n)) == multiset(q[..n])
  {
    hide Popped, PopMany, Heap;
    assert q == q[..n] + q[n..];
    PopManyTakesEarliest(q, n);
    PopManyConserves(q, n);
    if Before(multiset(q[..n]), multiset(q[n..]), true) {
      EarliestSplitUnique(multiset(q[..n]), multiset(q[n..]), multiset(Popped(q, n)), multiset(PopMany(q, n)));
    }
  }

  /** When nothing expired lies after the first unexpired slot, the pass pops exactly what it sent. */
  lemma PassPopsWhatItSent(q: Queue, clock: nat -> Time)
    requires Heap(q) && NonDecreasing(clock)
    requires var n := SendCount(q, clock, 0); forall p :: p in q[n..] ==> p.nextPurgeTime > clock(n)
    ensures var n := SendCount(q, clock, 0); multiset(Popped(q, n)) == multiset(q[..n])
  {
    hide Popped, SendCount, Heap;
    var n := SendCount(q, clock, 0);
    forall p, r | p in multiset(q[..n]) && r in multiset(q[n..]) ensures p.nextPurgeTime < r.nextPurgeTime {
      var i :| 0 <= i < n && q[i] == p;
      assert r in q[n..];
      assert clock(i) <= clock(n);
    }
    PassPopsWhatItSentIff(q, n);
  }

  /** Otherwise the pass pops an entry it never sent, so that conversation is not purged on time. */
  lemma PassLosesUnsentEntry(q: Queue, m: Schedule, n: nat) returns (lost: PurgeInfo)
    requires Healthy(q, m) && n <= |q|
    requires !Before(multiset(q[..n]), multiset(q[n..]), false)
    ensures lost in Popped(q, n) && lost !in q[..n] && lost !in PopMany(q, n)
  {
    hide Pop, PopMany, Popped, Healthy, Heap, Before, Times;
    assert Heap(q) by { HealthyIsHeap(q, m); }
    var sent, popped := multiset(q[..n]), multiset(Popped(q, n));
    PassPopsWhatItSentIff(q, n);
    PopManyConserves(q, n);
    if popped <= sent { SameSizeSubset(popped, sent); }
    lost :| popped[lost] > sent[lost];
    QueuedOnce(q, m, lost);
    assert lost in popped && multiset(q)[lost] == popped[lost] + multiset(PopMany(q, n))[lost];
    assert q == q[..n] + q[n..];
    assert multiset(q)[lost] == sent[lost] + multiset(q[n..])[lost];
  }

  lemma HealthyIsHeap(q: Queue, m: Schedule)
    requires Healthy(q, m)
    ensures Heap(q)
  {
  }

  lemma QueuedOnce(q: Queue, m: Schedule, p: PurgeInfo)
    requires Healthy(q, m)
    ensures multiset(q)[p] <= 1
  {
  }

  function Entry(c: ConvID, t: Time): PurgeInfo {
    PurgeInfo(c, true, t, 0)
  }

  /** Slot 3 is unexpired at time 5, so the pass stops there and never looks at slot 5. */
  function Layout(): (q: Queue)
    ensures |q| == 6 && SendCount(q, _ => 5, 0) == 3
  {
    var q := [Entry(0, 1), Entry(1, 4), Entry(2, 2), Entry(3, 10), Entry(4, 11), Entry(5, 3)];
    assert SendCount(q, _ => 5, 3) == 3;
    assert SendCount(q, _ => 5, 2) == 3;
    assert SendCount(q, _ => 5, 0) == 3;
    q
  }

  lemma LayoutIsHeap()
    ensures Heap(Layout())
  {
    forall k | 0 < k < 6 ensures InOrder(Layout(), Parent(k), k) {
      assert Parent(k) == if k < 3 then 0 else if k < 5 then 1 else 2;
    }
  }

  lemma LayoutSplits()
    ensures var q := Layout(); Entry(1, 4) in multiset(q[..3]) && Entry(5, 3) in multiset(q[3..])
    ensures forall p :: p in multiset(Layout()[..3]) ==> p.nextPurgeTime in {1, 4, 2}
    ensures forall r :: r in multiset(Layout()[3..]) ==> r.nextPurgeTime in {10, 11, 3}
  {
    var q := Layout();
    assert q[..3] == [Entry(0, 1), Entry(1, 4), Entry(2, 2)];
    assert q[3..] == [Entry(3, 10), Entry(4, 11), Entry(5, 3)];
    forall p | p in multiset(q[..3]) ensures p.nextPurgeTime in {1, 4, 2} { assert p in q[..3]; }
    forall r | r in multiset(q[3..]) ensures r.nextPurgeTime in {10, 11, 3} { assert r in q[3..]; }
  }

  /** The initial queue filled with the entries of a heap, in array order, is that heap. */
  lemma {:induction false} HeapIsReached(q: Queue)
    requires Heap(q) && (forall p :: p in q ==> p.isActive)
    requires forall i, j :: 0 <= i < j < |q| ==> q[i].convID != q[j].convID
    ensures InitQueue(q) == q
  {
    if q != [] {
      var n := |q| - 1;
      assert q == q[..n] + [q[n]];
      HeapPrefix(q, n);
      HeapIsReached(q[..n]);
      InOrderStays(q, n);
      assert forall p :: p in q[..n] ==> p.convID != q[n].convID;
    }
  }

  lemma InOrderStays(q: Queue, n: nat)
    requires Heap(q) && n == |q| - 1
    ensures Push(q[..n], q[n]) == q
  {
    assert q == q[..n] + [q[n]];
    if n > 0 { assert InOrder(q, Parent(n), n); }
  }

  /** A queue that a start can leave behind, on which a pass at time 5 sends three entries, none of them that
      of conversation 5, and pops that one. */
  lemma PassCanMissAnEntry() returns (lost: PurgeInfo)
    ensures InitQueue(Layout()) == Layout() && Heap(Layout())
    ensures lost == Entry(5, 3) && lost in Popped(Layout(), 3) && lost !in Layout()[..3] && lost !in PopMany(Layout(), 3)
  {
    LayoutIsHeap();
    LayoutSplits();
    LayoutReached();
    hide Layout, Pop, Popped, PopMany, Heap, InitQueue;
    InitQueueHolds(Layout());
    lost := PassLosesUnsentEntry(Layout(), LatestActive(Layout()), 3);
    PassPopsOnlyExpired(Layout(), _ => 5);
    PopManyConserves(Layout(), 3);
    assert lost in multiset(Popped(Layout(), 3));
    OnlyFive(lost);
  }

  lemma OnlyFive(p: PurgeInfo)
    requires p in multiset(Layout()) && p !in Layout()[..3] && p.nextPurgeTime <= 5
    ensures p == Entry(5, 3)
  {
    var q := Layout();
    var i :| 0 <= i < |q| && q[i] == p;
    assert q[..3] == [q[0], q[1], q[2]];
  }

  lemma LayoutReached()
    ensures InitQueue(Layout()) == Layout()
  {
    LayoutIsHeap();
    HeapIsReached(Layout());
  }
}
