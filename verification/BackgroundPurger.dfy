/**
 BackgroundEphemeralPurger's methods on the in-place queue, each proved to take the step that
 PurgerLoop gives it. Clock readings are arguments; what is handed to the conv loader is a result.
 */
module BackgroundPurger {
  import opened Wrappers
  import opened EphemeralTypes
  import PurgeHeap
  import opened Purger
  import opened PurgePriorityQueue
  import L = PurgerLoop

  class BackgroundEphemeralPurger {
    var pq: PriorityQueue?
    var started: bool
    var timerMade: bool
    var deadline: Option<Time>
    var fired: bool
    var passes: nat

    ghost predicate Valid()
      reads this, pq, if pq != null then pq.repr else {}
    {
      pq != null ==> timerMade && pq.Valid()
    }

    ghost function Abs(now: Time): L.State
      reads this, pq
    {
      L.State(if pq != null then pq.infos else [], pq != null, started, false, timerMade, deadline, fired, passes, now)
    }

    constructor ()
      ensures Valid() && pq == null && Abs(0) == L.Fresh
    {
      pq, started, timerMade, deadline, fired, passes := null, false, false, None, false, 0;
    }

    method ResetTimer(info: PurgeInfo, now: Time)
      modifies this`deadline
      ensures deadline == Some(info.nextPurgeTime)
    {
      var duration := info.nextPurgeTime - now;
      deadline := Some(now + duration);
    }

    method Reschedule(info: PurgeInfo, now: Time)
      requires Valid() && pq != null
      modifies this`deadline, pq, pq.repr
      ensures Valid() && Abs(now) == L.Reschedule(old(Abs(now)), info)
    {
      hide UpdateQueue, PriorityQueue.Valid;
      var head := pq.Peek();
      if head == null || info.nextPurgeTime < head.purgeInfo.nextPurgeTime {
        ResetTimer(info, now);
      }
      pq.Update(info);
      head := pq.Peek();
      if head != null && head.purgeInfo.nextPurgeTime < now {
        ResetTimer(head.purgeInfo, now);
      }
    }

    /** Queue; `failed` is its error return before Start. */
    method Queue(info: PurgeInfo, now: Time) returns (failed: bool, sent: seq<PurgeInfo>)
      requires Valid()
      modifies this`deadline, pq, if pq != null then pq.repr else {}
      ensures Valid() && failed == (pq == null)
      ensures failed ==> sent == [] && Abs(now) == old(Abs(now))
      ensures !failed ==> (Abs(now), sent) == L.QueueInfo(old(Abs(now)), info) && !L.Crashes(old(Abs(now)), L.Enqueue(info))
    {
      hide L.Reschedule;
      failed, sent := pq == null, [];
      if failed { return; }
      if info.convID in pq.itemMap {
        pq.SlotUnique(pq.itemMap[info.convID].index);
        if pq.itemMap[info.convID].purgeInfo == info { return; }
      } else {
        assert forall p :: p in pq.infos ==> p.convID in pq.itemMap;
      }
      if !info.isActive { return; }
      if info.nextPurgeTime <= now {
        sent := [info];
        return;
      }
      Reschedule(info, now);
    }

    method InitQueue(all: seq<PurgeInfo>)
      modifies this`pq
      ensures pq != null && fresh(pq) && fresh(pq.repr) && pq.Valid() && pq.infos == Purger.InitQueue(all)
    {
      pq := new PriorityQueue();
      for k := 0 to |all|
        invariant pq != null && fresh(pq) && fresh(pq.repr) && pq.Valid()
        invariant pq.infos == Purger.InitQueue(all[..k])
      {
        assert all[..k + 1][..k] == all[..k];
        if all[k].isActive { pq.Update(all[k]); }
      }
      assert all[..|all|] == all;
    }

    method Start(all: seq<PurgeInfo>, now: Time)
      requires Valid()
      modifies this
      ensures Valid() && (old(started) ==> Abs(now) == old(Abs(now)))
      ensures !old(started) ==> Abs(now) == L.Next(L.Next(old(Abs(now)), L.Start(all)), L.StartTimer)
    {
      if started { return; }
      started := true;
      InitQueue(all);
      timerMade, deadline, fired := true, Some(now), false;
    }

    /** The first loop of queuePurges: send the leading expired slots to the conv loader. */
    method SendExpired(clock: nat -> Time) returns (sent: seq<PurgeInfo>)
      requires Valid() && pq != null
      ensures sent == pq.infos[..SendCount(pq.infos, clock, 0)]
    {
      var i: nat := 0;
      sent := [];
      while i < |pq.queue|
        invariant i <= |pq.infos| && sent == pq.infos[..i]
        invariant SendCount(pq.infos, clock, i) == SendCount(pq.infos, clock, 0)
      {
        var info := pq.queue[i].purgeInfo;
        if info.nextPurgeTime > clock(i) { break; }
        sent := sent + [info];
        i := i + 1;
      }
    }

    /** The second loop of queuePurges: one heap.Pop for each entry sent. */
    method PopSent(n: nat)
      requires Valid() && pq != null && n <= |pq.infos|
      modifies pq, pq.repr
      ensures Valid() && pq.repr == old(pq.repr) && pq.infos == PopMany(old(pq.infos), n)
    {
      hide PurgeHeap.Pop;
      var i: nat := n;
      while i > 0
        invariant pq.Valid() && pq.repr == old(pq.repr) && i <= |pq.infos|
        invariant PopMany(pq.infos, i) == PopMany(old(pq.infos), n)
      {
        PurgeHeap.PopRemovesRoot(pq.infos);
        var _ := pq.PopEarliest();
        i := i - 1;
      }
    }

    /** queuePurges; the result says that the queue is empty. */
    method QueuePurges(clock: nat -> Time) returns (done: bool, sent: seq<PurgeInfo>)
      requires Valid() && pq != null
      modifies this`deadline, pq, pq.repr
      ensures Valid() && pq == old(pq)
      ensures Abs(clock(|old(pq.infos)|)) == L.QueuePurges(old(Abs(0)), clock)
      ensures sent == old(pq.infos)[..SendCount(old(pq.infos), clock, 0)]
      ensures done == (pq.infos == [])
    {
      hide PopMany, SendCount;
      var size := |pq.queue|;
      sent := SendExpired(clock);
      PopSent(|sent|);
      var next := pq.Peek();
      done := next == null;
      if next != null { ResetTimer(next.purgeInfo, clock(size)); }
    }
  }
}
