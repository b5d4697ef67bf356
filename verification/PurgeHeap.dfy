/**
 The binary heap that orders conversations by their next purge time: sift-up, sift-down, Fix,
 Push and Pop as Go's container/heap runs them over the Less and Swap of the purger's queue.
 */
module PurgeHeap {
  import opened EphemeralTypes

  type Queue = seq<PurgeInfo>

  predicate Less(q: Queue, i: nat, j: nat)
    requires i < |q| && j < |q|
  {
    q[i].nextPurgeTime < q[j].nextPurgeTime
  }

  function Swap(q: Queue, i: nat, j: nat): (r: Queue)
    requires i < |q| && j < |q|
    ensures |r| == |q| && multiset(r) == multiset(q)
    ensures r[i] == q[j] && r[j] == q[i]
    ensures forall k :: 0 <= k < |q| && k != i && k != j ==> r[k] == q[k]
  {
    q[i := q[j]][j := q[i]]
  }

  /** Go's (j-1)/2 truncates toward zero, so the root is its own parent. */
  function Parent(j: nat): nat {
    if j == 0 then 0 else (j - 1) / 2
  }

  function Up(q: Queue, j: nat): Queue
    requires j < |q|
    decreases j
  {
    var i := Parent(j);
    if i == j || !Less(q, j, i) then q else Up(Swap(q, i, j), i)
  }

  /** The child of i that sift-down compares with i. */
  function SmallerChild(q: Queue, i: nat, n: nat): (j: nat)
    requires 2 * i + 1 < n <= |q|
  {
    var j1 := 2 * i + 1;
    if j1 + 1 < n && Less(q, j1 + 1, j1) then j1 + 1 else j1
  }

  predicate Sinks(q: Queue, i: nat, n: nat)
    requires n <= |q|
  {
    2 * i + 1 < n && Less(q, SmallerChild(q, i, n), i)
  }

  function Down(q: Queue, i: nat, n: nat): Queue
    requires n <= |q|
    decreases n - i
  {
    if Sinks(q, i, n) then
      var j := SmallerChild(q, i, n);
      Down(Swap(q, i, j), j, n)
    else q
  }

  lemma DownUnfolds(q: Queue, i: nat, n: nat)
    requires n <= |q|
    ensures Down(q, i, n) ==
      if Sinks(q, i, n) then Down(Swap(q, i, SmallerChild(q, i, n)), SmallerChild(q, i, n), n) else q
  {
  }

  function Fix(q: Queue, i: nat): Queue
    requires i < |q|
  {
    if Sinks(q, i, |q|) then Down(q, i, |q|) else Up(q, i)
  }

  function Push(q: Queue, info: PurgeInfo): Queue {
    Up(q + [info], |q|)
  }

  /** What is left after heap.Pop; the popped item is the root. */
  function Pop(q: Queue): Queue
    requires |q| > 0
  {
    var n := |q| - 1;
    DownKeeps(Swap(q, 0, n), 0, n);
    Down(Swap(q, 0, n), 0, n)[..n]
  }

  /******* Heap order *******/

  predicate InOrder(q: Queue, p: nat, k: nat)
    requires p < |q| && k < |q|
  {
    q[p].nextPurgeTime <= q[k].nextPurgeTime
  }

  ghost predicate HeapTo(q: Queue, n: nat)
    requires n <= |q|
  {
    forall k :: 0 < k < n ==> InOrder(q, Parent(k), k)
  }

  ghost predicate Heap(q: Queue) {
    HeapTo(q, |q|)
  }

  /** Heap order among the first n slots, except perhaps on the edges that meet slot i, whose parent
      is still no later than its children. */
  ghost predicate HeapAround(q: Queue, i: nat, n: nat)
    requires i < |q| && n <= |q|
  {
    && (forall k :: 0 < k < n && k != i && Parent(k) != i ==> InOrder(q, Parent(k), k))
    && (forall k :: 0 < k < n && Parent(k) == i && i > 0 ==> InOrder(q, Parent(i), k))
  }

  lemma {:induction false} UpRestores(q: Queue, j: nat)
    requires j < |q| && HeapAround(q, j, |q|)
    requires forall k :: 0 < k < |q| && Parent(k) == j ==> InOrder(q, j, k)
    ensures var r := Up(q, j); |r| == |q| && Heap(r) && multiset(r) == multiset(q)
    decreases j
  {
    var i := Parent(j);
    if i != j && Less(q, j, i) {
      var r := Swap(q, i, j);
      forall k | 0 < k < |r| && Parent(k) == i ensures InOrder(r, i, k) {
        assert k == j || InOrder(q, i, k);
      }
      UpRestores(r, i);
    }
  }

  lemma {:induction false} DownKeeps(q: Queue, i: nat, n: nat)
    requires n <= |q|
    ensures var r := Down(q, i, n); |r| == |q| && r[n..] == q[n..] && multiset(r) == multiset(q)
    decreases n - i
  {
    if Sinks(q, i, n) {
      var j := SmallerChild(q, i, n);
      DownKeeps(Swap(q, i, j), j, n);
    }
  }

  /** One sinking step moves the gap in the order from slot i to its smaller child. */
  lemma SinkStep(q: Queue, i: nat, n: nat)
    requires i < |q| && n <= |q| && HeapAround(q, i, n) && Sinks(q, i, n)
    ensures var j := SmallerChild(q, i, n); var r := Swap(q, i, j);
      HeapAround(r, j, n) && InOrder(r, i, j) && (i > 0 && i < n ==> InOrder(r, Parent(i), i))
  {
    var j := SmallerChild(q, i, n);
    var r := Swap(q, i, j);
    assert Parent(j) == i;
    forall k | 0 < k < n && k != j && Parent(k) != j ensures InOrder(r, Parent(k), k) {
      if Parent(k) == i {
        assert k == 2 * i + 1 || k == 2 * i + 2;
      } else if k == i {
        assert InOrder(q, Parent(i), j);
      } else {
        assert InOrder(q, Parent(k), k);
      }
    }
    forall k | 0 < k < n && Parent(k) == j ensures InOrder(r, Parent(j), k) {
      assert InOrder(q, j, k);
    }
  }

  lemma {:induction false} DownRestores(q: Queue, i: nat, n: nat)
    requires i < |q| && n <= |q| && HeapAround(q, i, n)
    requires 0 < i < n ==> InOrder(q, Parent(i), i)
    ensures |Down(q, i, n)| == |q| && HeapTo(Down(q, i, n), n)
    decreases n - i
  {
    if Sinks(q, i, n) {
      SinkStep(q, i, n);
      var j := SmallerChild(q, i, n);
      DownRestores(Swap(q, i, j), j, n);
    } else {
      forall k | 0 < k < n ensures InOrder(q, Parent(k), k) {
        if Parent(k) == i { assert k == 2 * i + 1 || k == 2 * i + 2; }
      }
    }
  }

  lemma {:induction false} RootIsEarliest(q: Queue, k: nat)
    requires Heap(q) && k < |q|
    ensures InOrder(q, 0, k)
    decreases k
  {
    if k > 0 {
      RootIsEarliest(q, Parent(k));
      assert InOrder(q, Parent(k), k);
    }
  }

  /******* The heap operations against the multiset they hold *******/

  lemma PushInserts(q: Queue, info: PurgeInfo)
    requires Heap(q)
    ensures Heap(Push(q, info)) && multiset(Push(q, info)) == multiset(q) + multiset{info}
  {
    var s := q + [info];
    assert forall k :: 0 < k < |q| ==> InOrder(q, Parent(k), k);
    UpRestores(s, |q|);
  }

  lemma ReplaceLeavesGap(q: Queue, i: nat, info: PurgeInfo)
    requires Heap(q) && i < |q|
    ensures HeapAround(q[i := info], i, |q|)
  {
    var s := q[i := info];
    forall k | 0 < k < |s| && Parent(k) == i && i > 0 ensures InOrder(s, Parent(i), k) {
      assert InOrder(q, Parent(i), i) && InOrder(q, i, k);
    }
    forall k | 0 < k < |s| && k != i && Parent(k) != i ensures InOrder(s, Parent(k), k) {
      assert InOrder(q, Parent(k), k);
    }
  }

  lemma FixRestores(s: Queue, i: nat)
    requires i < |s| && HeapAround(s, i, |s|)
    ensures var r := Fix(s, i); |r| == |s| && Heap(r) && multiset(r) == multiset(s)
  {
    if Sinks(s, i, |s|) {
      DownKeeps(s, i, |s|);
      SinkStep(s, i, |s|);
      var j := SmallerChild(s, i, |s|);
      DownRestores(Swap(s, i, j), j, |s|);
    } else {
      forall k | 0 < k < |s| && Parent(k) == i ensures InOrder(s, i, k) {
        assert k == 2 * i + 1 || k == 2 * i + 2;
      }
      UpRestores(s, i);
    }
  }

  /** Replacing any slot and calling Fix restores the order, whichever way the new time lies. */
  lemma FixReplaces(q: Queue, i: nat, info: PurgeInfo)
    requires Heap(q) && i < |q|
    ensures var r := Fix(q[i := info], i);
      Heap(r) && |r| == |q| && multiset(r) == multiset(q) - multiset{q[i]} + multiset{info}
  {
    hide Fix;
    ReplaceLeavesGap(q, i, info);
    FixRestores(q[i := info], i);
  }

  lemma HeapPrefix(q: Queue, n: nat)
    requires n <= |q| && HeapTo(q, n)
    ensures Heap(q[..n])
  {
    forall k | 0 < k < n ensures InOrder(q[..n], Parent(k), k) {
      assert InOrder(q, Parent(k), k);
    }
  }

  lemma PopKeepsOrder(q: Queue)
    requires Heap(q) && |q| > 0
    ensures Heap(Pop(q))
  {
    hide Down;
    var n := |q| - 1;
    var s := Swap(q, 0, n);
    assert HeapAround(s, 0, n) by {
      forall k | 0 < k < n && Parent(k) != 0 ensures InOrder(s, Parent(k), k) {
        assert InOrder(q, Parent(k), k);
      }
    }
    DownRestores(s, 0, n);
    HeapPrefix(Down(s, 0, n), n);
  }

  lemma PopRemovesRoot(q: Queue)
    requires |q| > 0
    ensures |Pop(q)| == |q| - 1 && multiset(q) == multiset{q[0]} + multiset(Pop(q))
  {
    hide Down;
    var n := |q| - 1;
    var s := Swap(q, 0, n);
    DownKeeps(s, 0, n);
    var r := Down(s, 0, n);
    assert r == r[..n] + r[n..] && r[n..] == [q[0]];
  }

  lemma PopRemovesEarliest(q: Queue)
    requires Heap(q) && |q| > 0
    ensures Heap(Pop(q)) && |Pop(q)| == |q| - 1 && multiset(q) == multiset{q[0]} + multiset(Pop(q))
    ensures forall p :: p in q ==> q[0].nextPurgeTime <= p.nextPurgeTime
  {
    hide Pop, Heap;
    PopKeepsOrder(q);
    PopRemovesRoot(q);
    forall p | p in q ensures q[0].nextPurgeTime <= p.nextPurgeTime {
      var k :| 0 <= k < |q| && q[k] == p;
      RootIsEarliest(q, k);
    }
  }
}
