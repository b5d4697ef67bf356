/**
 The purger's priority queue as the source keeps it: a slice of item objects that know their own slot,
 and a map from conversation to item, both changed in place (go/chat/ephemeral_purger.go:19-107).
 */
module PurgePriorityQueue {
  import opened EphemeralTypes
  import opened PurgeHeap
  import opened Purger

  class QueueItem {
    var purgeInfo: PurgeInfo
    var index: int

    constructor (info: PurgeInfo)
      ensures purgeInfo == info && index == 0
    {
      purgeInfo := info;
      index := 0;
    }
  }

  class PriorityQueue {
    var queue: seq<QueueItem>
    var itemMap: map<ConvID, QueueItem>
    ghost var infos: Queue
    ghost var repr: set<QueueItem>

    /** Every item's index is its slot, and itemMap holds exactly the queued items. */
    ghost predicate Valid()
      reads this, repr
      ensures Valid() ==> |infos| == |queue|
    {
      && |infos| == |queue|
      && (forall i :: 0 <= i < |queue| ==>
            && queue[i] in repr
            && queue[i].index == i
            && queue[i].purgeInfo == infos[i]
            && infos[i].convID in itemMap
            && itemMap[infos[i].convID] == queue[i])
      && (forall c :: c in itemMap ==>
            && itemMap[c] in repr
            && 0 <= itemMap[c].index < |queue|
            && queue[itemMap[c].index] == itemMap[c]
            && itemMap[c].purgeInfo.convID == c)
    }

    constructor ()
      ensures Valid() && infos == [] && repr == {}
    {
      queue, itemMap, infos, repr := [], map[], [], {};
    }

    predicate Less(i: nat, j: nat)
      requires Valid() && i < |queue| && j < |queue|
      reads this, repr
      ensures Less(i, j) == PurgeHeap.Less(infos, i, j)
    {
      queue[i].purgeInfo.nextPurgeTime < queue[j].purgeInfo.nextPurgeTime
    }

    method Swap(i: nat, j: nat)
      requires Valid() && i < |queue| && j < |queue|
      modifies this, repr
      ensures Valid() && repr == old(repr) && infos == PurgeHeap.Swap(old(infos), i, j)
    {
      queue := queue[i := queue[j]][j := queue[i]];
      queue[i].index := i;
      queue[j].index := j;
      infos := PurgeHeap.Swap(infos, i, j);
    }

    method Up(j0: nat)
      requires Valid() && j0 < |queue|
      modifies this, repr
      ensures Valid() && repr == old(repr) && infos == PurgeHeap.Up(old(infos), j0)
    {
      hide Valid;
      var j: nat := j0;
      while true
        invariant Valid() && repr == old(repr) && j < |queue|
        invariant PurgeHeap.Up(infos, j) == PurgeHeap.Up(old(infos), j0)
        decreases j
      {
        var i := Parent(j);
        if i == j || !Less(j, i) { break; }
        Swap(i, j);
        j := i;
      }
    }

    method SmallerChild(i: nat, n: nat) returns (j: nat)
      requires Valid() && 2 * i + 1 < n <= |queue|
      ensures j == PurgeHeap.SmallerChild(infos, i, n) && i < j < n
    {
      j := 2 * i + 1;
      if j + 1 < n && Less(j + 1, j) { j := j + 1; }
    }

    method Down(i0: nat, n: nat) returns (moved: bool)
      requires Valid() && n <= |queue|
      modifies this, repr
      ensures Valid() && repr == old(repr) && infos == PurgeHeap.Down(old(infos), i0, n)
      ensures moved == Sinks(old(infos), i0, n)
      ensures !moved ==> infos == old(infos)
    {
      hide Valid, PurgeHeap.Down, PurgeHeap.SmallerChild, PurgeHeap.Less;
      var i: nat := i0;
      while true
        invariant Valid() && repr == old(repr) && n <= |queue| && i >= i0
        invariant PurgeHeap.Down(infos, i, n) == PurgeHeap.Down(old(infos), i0, n)
        invariant if i == i0 then infos == old(infos) else Sinks(old(infos), i0, n)
        decreases n - i
      {
        DownUnfolds(infos, i, n);
        if 2 * i + 1 >= n { break; }
        var j := SmallerChild(i, n);
        if !Less(j, i) { break; }
        Swap(i, j);
        i := j;
      }
      moved := i > i0;
    }

    /** heap.Push of a new item, for a conversation that is not queued yet. */
    method Push(item: QueueItem)
      requires Valid() && item !in repr && item.purgeInfo.convID !in itemMap
      modifies this, repr, item
      ensures Valid() && repr == old(repr) + {item}
      ensures infos == PurgeHeap.Push(old(infos), old(item.purgeInfo))
    {
      hide PurgeHeap.Up;
      item.index := |queue|;
      queue := queue + [item];
      itemMap := itemMap[item.purgeInfo.convID := item];
      repr := repr + {item};
      infos := infos + [item.purgeInfo];
      Up(|queue| - 1);
    }

    /** heap.Fix of the item in slot i. */
    method Fix(i: nat)
      requires Valid() && i < |queue|
      modifies this, repr
      ensures Valid() && repr == old(repr) && infos == PurgeHeap.Fix(old(infos), i)
    {
      hide Valid;
      var moved := Down(i, |queue|);
      if !moved { Up(i); }
    }

    /** The queue's own Pop: drop the last slot and its map entry. */
    method Pop() returns (item: QueueItem)
      requires Valid() && |queue| > 0
      modifies this, repr
      ensures Valid() && repr == old(repr) && infos == old(infos[..|infos| - 1])
      ensures item.purgeInfo == old(infos[|infos| - 1])
    {
      var n := |queue| - 1;
      item := queue[n];
      item.index := -1;
      queue := queue[..n];
      itemMap := itemMap - {item.purgeInfo.convID};
      infos := infos[..n];
    }

    /** heap.Pop: swap the root to the end, sink the new root, and pop the last slot. */
    method PopEarliest() returns (item: QueueItem)
      requires Valid() && |queue| > 0
      modifies this, repr
      ensures Valid() && repr == old(repr) && infos == PurgeHeap.Pop(old(infos))
      ensures item.purgeInfo == old(infos)[0]
    {
      hide Valid, PurgeHeap.Down;
      var n := |queue| - 1;
      Swap(0, n);
      ghost var s := infos;
      DownKeeps(s, 0, n);
      var _ := Down(0, n);
      assert infos[n] == infos[n..][0] == s[n..][0] == s[n];
      item := Pop();
    }

    method Peek() returns (item: QueueItem?)
      requires Valid()
      ensures item == null <==> infos == []
      ensures item != null ==> item in repr && item.purgeInfo == infos[0]
    {
      if |queue| == 0 { return null; }
      return queue[0];
    }

    /** updateQueue: reschedule the conversation's item, or push a new one. */
    method Update(info: PurgeInfo)
      requires Valid()
      modifies this, repr
      ensures Valid() && fresh(repr - old(repr)) && infos == UpdateQueue(old(infos), info)
    {
      hide PurgeHeap.Fix, PurgeHeap.Push;
      if info.convID in itemMap {
        var item := itemMap[info.convID];
        SlotUnique(item.index);
        item.purgeInfo := info;
        infos := infos[item.index := info];
        Fix(item.index);
      } else {
        assert forall p :: p in infos ==> p.convID in itemMap;
        var item := new QueueItem(info);
        Push(item);
      }
    }

    lemma SlotUnique(i: nat)
      requires Valid() && i < |queue|
      ensures Slot(infos, infos[i].convID) == i
    {
      var s := Slot(infos, infos[i].convID);
      assert infos[i] in infos;
      assert queue[s] == queue[i];
    }
  }
}
