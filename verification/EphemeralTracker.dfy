/** The tracker object: its methods change the cache and the database in place. */
module EphemeralTrackerObject {
  import opened Wrappers
  import opened EphemeralTypes
  import T = Tracker
  import R = TrackerRun

  class EphemeralTracker {
    var lru: seq<T.Slot>
    var db: map<ConvID, T.DbEntry>
    const cap: nat

    function Abs(): T.Store
      reads this
    {
      T.Store(lru, db, cap)
    }

    constructor (size: nat)
      ensures lru == [] && db == map[] && cap == size
    {
      lru, db, cap := [], map[], size;
    }

    method Get(c: ConvID) returns (res: Option<PurgeInfo>)
      modifies this`lru
      ensures (Abs(), res) == T.Get(old(Abs()), c)
    {
      var i := T.Find(lru, c);
      if i >= 0 {
        res := Some(lru[i].info);
        lru := T.Touch(lru, i);
        return;
      }
      if c !in db { return None; }
      if db[c].version == T.DiskVersion {
        res := Some(db[c].info);
        lru := T.Add(lru, T.Slot(c, false, db[c].info), cap);
      } else {
        res := None;
      }
    }

    method Put(c: ConvID, info: PurgeInfo)
      modifies this`lru
      ensures Abs() == T.Put(old(Abs()), c, info)
      ensures T.Valid(old(Abs())) ==> T.Value(Abs(), c) == Some(info)
      ensures T.Valid(old(Abs())) && T.KeepsVictim(old(Abs()), c) ==> forall d :: d != c ==> T.Value(Abs(), d) == T.Value(old(Abs()), d)
    {
      ghost var t := Abs();
      if T.Valid(t) {
        forall d { T.AddValue(t, T.Slot(c, true, info), d); }
      }
      hide T.Valid, T.Value, T.Add;
      lru := T.Add(lru, T.Slot(c, true, info), cap);
    }

    /** flushLocked: look up every key from oldest to newest, and save and re-add the dirty ones. */
    method FlushLocked()
      requires T.Valid(Abs())
      modifies this
      ensures Abs() == T.Flush(old(Abs()))
    {
      var l := lru;
      for k := 0 to |l|
        invariant lru == l[k..] + T.Clean(l[..k]) && db == T.WriteBack(old(db), l[..k])
      {
        FrontKey(l, k);
        FlushTurn(l, k, cap, old(db));
        hide T.Find, T.Clean, T.Add, T.Touch, T.WriteBack, T.Valid;
        var i := T.Find(lru, l[k].conv);
        var s := lru[i];
        lru := T.Touch(lru, i);
        if s.isDirty {
          db := db[s.info.convID := T.DbEntry(T.DiskVersion, s.info)];
          lru := T.Add(lru, s.(isDirty := false), cap);
        }
      }
      assert l[..|l|] == l && l[|l|..] == [];
    }

    /** GetAllPurgeInfo; `keys` are the database keys in the order the engine yields them. */
    method GetAllPurgeInfo(keys: seq<ConvID>) returns (res: seq<PurgeInfo>)
      requires T.Valid(Abs())
      modifies this
      ensures (Abs(), res) == T.GetAll(old(Abs()), keys)
    {
      FlushLocked();
      ghost var t := Abs();
      res := [];
      for k := 0 to |keys|
        invariant (Abs(), res) == T.GetEach(t, keys[..k])
      {
        assert keys[..k + 1][..k] == keys[..k];
        var v := Get(keys[k]);
        if v.Some? { res := res + [v.value]; }
      }
      assert keys[..|keys|] == keys;
    }

    method SetPurgeInfo(c: ConvID, info: Option<PurgeInfo>) returns (queued: Option<PurgeInfo>)
      modifies this`lru
      ensures (Abs(), R.Done(queued)) == R.StoreStep(old(Abs()), R.SetInfo(c, info))
    {
      if info.None? { return None; }
      Put(c, info.value);
      return info;
    }

    method MaybeUpdatePurgeInfo(c: ConvID, info: Option<PurgeInfo>) returns (queued: Option<PurgeInfo>)
      modifies this`lru
      ensures (Abs(), R.Done(queued)) == R.StoreStep(old(Abs()), R.MaybeUpdate(c, info))
    {
      if info.None? || R.IsNil(info.value) { return None; }
      var p := info.value;
      var cache := Get(c);
      if cache.Some? {
        var stored := cache.value;
        if stored.isActive { p := p.(isActive := true); }
        if p.minUnexplodedID == 0 || stored.minUnexplodedID < p.minUnexplodedID {
          p := p.(minUnexplodedID := stored.minUnexplodedID);
        }
        if p.nextPurgeTime == 0 || (stored.nextPurgeTime != 0 && stored.nextPurgeTime < p.nextPurgeTime) {
          p := p.(nextPurgeTime := stored.nextPurgeTime);
        }
        if p == stored { return None; }
      }
      Put(c, p);
      return Some(p);
    }

    method InactivatePurgeInfo(c: ConvID) returns (queued: Option<PurgeInfo>)
      modifies this`lru
      ensures (Abs(), R.Done(queued)) == R.StoreStep(old(Abs()), R.Inactivate(c))
    {
      var cache := Get(c);
      if cache.None? { return None; }
      var p := cache.value.(isActive := false);
      Put(c, p);
      return Some(p);
    }

    method Clear(c: ConvID)
      modifies this
      ensures Abs() == T.Clear(old(Abs()), c)
      ensures T.Valid(old(Abs())) ==> forall d :: T.Value(Abs(), d) == if d == c then None else T.Value(old(Abs()), d)
    {
      ghost var t := Abs();
      if T.Valid(t) {
        forall d { T.ClearValue(t, c, d); }
      }
      hide T.Valid, T.Value, T.Remove;
      lru := T.Remove(lru, c);
      db := db - {c};
    }
  }

  /** After k keys the next one to flush is the oldest entry of the cache. */
  lemma FrontKey(l: seq<T.Slot>, k: nat)
    requires k < |l| && T.Distinct(l)
    ensures T.Find(l[k..] + T.Clean(l[..k]), l[k].conv) == 0
    ensures T.Find(l[k + 1..] + T.Clean(l[..k]) + [l[k]], l[k].conv) == |l| - 1
  {
    hide T.Clean;
    var r := l[k..] + T.Clean(l[..k]);
    forall i | 0 < i < |r| ensures r[i].conv != l[k].conv { }
  }

  /** One turn of the flush loop: the entry at the old end moves, clean, to the new end. */
  lemma FlushTurn(l: seq<T.Slot>, k: nat, cap: nat, db: map<ConvID, T.DbEntry>)
    requires k < |l| && T.Distinct(l)
    ensures var s, touched, clean := l[k], T.Touch(l[k..] + T.Clean(l[..k]), 0), l[k + 1..] + T.Clean(l[..k + 1]);
      && (s.isDirty ==> T.Add(touched, s.(isDirty := false), cap) == clean)
      && (!s.isDirty ==> touched == clean)
    ensures T.WriteBack(db, l[..k + 1]) ==
      if l[k].isDirty then T.WriteBack(db, l[..k])[l[k].info.convID := T.DbEntry(T.DiskVersion, l[k].info)] else T.WriteBack(db, l[..k])
  {
    hide T.Find, T.Clean, T.WriteBack, T.Distinct;
    FrontKey(l, k);
    CleanNext(l, k);
    WriteBackNext(db, l, k);
    var r, s := l[k + 1..] + T.Clean(l[..k]), l[k];
    assert T.Touch(l[k..] + T.Clean(l[..k]), 0) == r + [s];
    AddLast(r, s, s.(isDirty := false), cap);
  }

  lemma AddLast(r: seq<T.Slot>, s: T.Slot, s': T.Slot, cap: nat)
    requires s.conv == s'.conv && T.Find(r + [s], s.conv) == |r|
    ensures T.Add(r + [s], s', cap) == r + [s']
  {
    hide T.Find;
  }

  lemma WriteBackNext(db: map<ConvID, T.DbEntry>, l: seq<T.Slot>, k: nat)
    requires k < |l|
    ensures T.WriteBack(db, l[..k + 1]) ==
      if l[k].isDirty then T.WriteBack(db, l[..k])[l[k].info.convID := T.DbEntry(T.DiskVersion, l[k].info)] else T.WriteBack(db, l[..k])
  {
    assert l[..k + 1][..k] == l[..k];
  }

  lemma CleanNext(l: seq<T.Slot>, k: nat)
    requires k < |l|
    ensures T.Clean(l[..k + 1]) == T.Clean(l[..k]) + [l[k].(isDirty := false)]
  {
    assert l[..k + 1][..k] == l[..k];
  }
}
