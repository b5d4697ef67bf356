/**
 Every run of the tracker's operations against the plain map, and the tracker object whose methods
 take those steps in place.
 */
module TrackerRun {
  import opened Wrappers
  import opened EphemeralTypes
  import opened Tracker

  predicate IsNil(p: PurgeInfo) {
    !p.isActive && p.nextPurgeTime == 0 && p.minUnexplodedID <= 1
  }

  /** MaybeUpdatePurgeInfo keeps whichever of the stored and the new info is more restrictive. */
  function Merge(stored: PurgeInfo, p: PurgeInfo): PurgeInfo {
    p.(isActive := p.isActive || stored.isActive,
       minUnexplodedID := if p.minUnexplodedID == 0 || stored.minUnexplodedID < p.minUnexplodedID
                          then stored.minUnexplodedID else p.minUnexplodedID,
       nextPurgeTime := if p.nextPurgeTime == 0 || (stored.nextPurgeTime != 0 && stored.nextPurgeTime < p.nextPurgeTime)
                        then stored.nextPurgeTime else p.nextPurgeTime)
  }

  /** The merged purge time is the earlier of those that are set, whichever came first; the merged
      message ID depends on the order exactly when one of the two is unset. */
  lemma MergeOrder(a: PurgeInfo, b: PurgeInfo)
    ensures var t := Merge(a, b).nextPurgeTime;
      && t == Merge(b, a).nextPurgeTime
      && (t == 0 <==> a.nextPurgeTime == 0 && b.nextPurgeTime == 0)
      && (a.nextPurgeTime != 0 ==> t <= a.nextPurgeTime) && (b.nextPurgeTime != 0 ==> t <= b.nextPurgeTime)
    ensures Merge(a, b).minUnexplodedID == Merge(b, a).minUnexplodedID <==> (a.minUnexplodedID == 0 <==> b.minUnexplodedID == 0)
  {
  }

  /** The merge is active when either info is, purges at the earlier of the times that are set, and keeps the stored
      message ID unless the new one is set and smaller. */
  lemma MergeIs(a: PurgeInfo, b: PurgeInfo)
    ensures var p := Merge(a, b);
      && p.convID == b.convID && (p.isActive <==> a.isActive || b.isActive)
      && (a.nextPurgeTime == 0 ==> p.nextPurgeTime == b.nextPurgeTime)
      && (b.nextPurgeTime == 0 ==> p.nextPurgeTime == a.nextPurgeTime)
      && (a.nextPurgeTime != 0 && b.nextPurgeTime != 0 ==> p.nextPurgeTime == Min(a.nextPurgeTime, b.nextPurgeTime))
      && p.minUnexplodedID == if b.minUnexplodedID == 0 then a.minUnexplodedID else Min(a.minUnexplodedID, b.minUnexplodedID)
  {
  }

  function Min(x: int, y: int): int {
    if x <= y then x else y
  }

  datatype Op =
    | SetInfo(conv: ConvID, info: Option<PurgeInfo>)
    | MaybeUpdate(conv: ConvID, info: Option<PurgeInfo>)
    | Inactivate(conv: ConvID)
    | GetInfo(conv: ConvID)
    | FlushAll
    | ListAll(keys: seq<ConvID>)
    | ClearConv(conv: ConvID)

  /** What an operation answers its caller, and what it hands to the purger's queue. */
  datatype Answer = Done(queued: Option<PurgeInfo>) | Found(info: Option<PurgeInfo>) | All(infos: seq<PurgeInfo>)

  /******* The plain map *******/

  function Lookup(m: map<ConvID, PurgeInfo>, c: ConvID): Option<PurgeInfo> {
    if c in m then Some(m[c]) else None
  }

  function MapStep(m: map<ConvID, PurgeInfo>, op: Op): (map<ConvID, PurgeInfo>, Answer) {
    match op
    case SetInfo(c, info) => if info.None? then (m, Done(None)) else (m[c := info.value], Done(info))
    case MaybeUpdate(c, info) =>
      if info.None? || IsNil(info.value) then (m, Done(None))
      else
        var p := if c in m then Merge(m[c], info.value) else info.value;
        if c in m && p == m[c] then (m, Done(None)) else (m[c := p], Done(Some(p)))
    case Inactivate(c) =>
      if c in m then (m[c := m[c].(isActive := false)], Done(Some(m[c].(isActive := false)))) else (m, Done(None))
    case GetInfo(c) => (m, Found(Lookup(m, c)))
    case FlushAll => (m, Done(None))
    case ListAll(keys) => (m, All(Listed(m, keys)))
    case ClearConv(c) => (m - {c}, Done(None))
  }

  /** Every other operation on the plain map, by what a caller sees afterwards. */
  lemma PlainMapSees(m: map<ConvID, PurgeInfo>, c: ConvID, p: PurgeInfo, d: ConvID)
    ensures Lookup(MapStep(m, SetInfo(c, Some(p))).0, d) == (if d == c then Some(p) else Lookup(m, d))
    ensures Lookup(MapStep(m, Inactivate(c)).0, d) == (if d == c && c in m then Some(m[c].(isActive := false)) else Lookup(m, d))
    ensures Lookup(MapStep(m, ClearConv(c)).0, d) == (if d == c then None else Lookup(m, d))
    ensures MapStep(m, GetInfo(c)) == (m, Found(Lookup(m, c))) && MapStep(m, FlushAll) == (m, Done(None)) && MapStep(m, SetInfo(c, None)) == (m, Done(None))
  {
  }

  /** An update keeps an active entry active and purges it no later; one that is inactive, without a purge time and
      without a message ID worth keeping changes nothing; others leave the conversation scheduled as merged, and are
      queued exactly when that is news. */
  lemma UpdateOnlyTightens(m: map<ConvID, PurgeInfo>, c: ConvID, info: PurgeInfo)
    ensures var (m', a) := MapStep(m, MaybeUpdate(c, Some(info)));
      && (forall d :: d != c ==> Lookup(m', d) == Lookup(m, d))
      && (!info.isActive && info.nextPurgeTime == 0 && info.minUnexplodedID <= 1 ==> m' == m && a == Done(None))
      && (c in m ==> c in m' && (m[c].isActive ==> m'[c].isActive))
      && (c in m && m[c].nextPurgeTime != 0 ==> 0 != m'[c].nextPurgeTime <= m[c].nextPurgeTime)
      && (info.isActive ==> c in m' && m'[c].isActive)
      && (info.nextPurgeTime > 0 && (c in m ==> m[c].nextPurgeTime >= 0) ==> c in m' && 0 < m'[c].nextPurgeTime <= info.nextPurgeTime)
      && (a == Done(None) <==> m' == m && (info.isActive || info.nextPurgeTime != 0 || info.minUnexplodedID > 1 ==> c in m))
      && (a != Done(None) ==> c in m' && a == Done(Some(m'[c])))
  {
    if c in m { MergeIs(m[c], info); }
    hide Merge;
    assert c in m ==> m[c := m[c]] == m;
  }

  /******* The cache over the database *******/

  function StoreStep(t: Store, op: Op): (Store, Answer) {
    match op
    case SetInfo(c, info) => if info.None? then (t, Done(None)) else (Put(t, c, info.value), Done(info))
    case MaybeUpdate(c, info) =>
      if info.None? || IsNil(info.value) then (t, Done(None))
      else
        var (t1, v) := Get(t, c);
        var p := if v.Some? then Merge(v.value, info.value) else info.value;
        if v == Some(p) then (t1, Done(None)) else (Put(t1, c, p), Done(Some(p)))
    case Inactivate(c) =>
      var (t1, v) := Get(t, c);
      if v.None? then (t1, Done(None))
      else
        var p := v.value.(isActive := false);
        (Put(t1, c, p), Done(Some(p)))
    case GetInfo(c) => var (t1, v) := Get(t, c); (t1, Found(v))
    case FlushAll => (Flush(t), Done(None))
    case ListAll(keys) => var (t1, infos) := GetAll(t, keys); (t1, All(infos))
    case ClearConv(c) => (Clear(t, c), Done(None))
  }

  /** Callers pass the conversation of the info they store, and the listing sees each database key once. */
  ghost predicate WellFormed(t: Store, op: Op) {
    match op
    case SetInfo(c, info) => info.Some? ==> info.value.convID == c
    case MaybeUpdate(c, info) => info.Some? ==> info.value.convID == c
    case ListAll(keys) => Enumerates(keys, Flush(t).db)
    case _ => true
  }

  /** The operation pushes no unsaved entry out of the cache. */
  predicate Safe(t: Store, op: Op) {
    match op
    case SetInfo(c, info) => info.None? || KeepsVictim(t, c)
    case MaybeUpdate(c, info) => info.None? || IsNil(info.value) || KeepsVictim(t, c)
    case Inactivate(c) => KeepsVictim(t, c) || !InDb(t.db, c)
    case GetInfo(c) => KeepsVictim(t, c) || !InDb(t.db, c)
    case _ => true
  }

  /** After a hit the conversation is cached, so a following put pushes nothing out. */
  lemma PutAfterGet(t: Store, c: ConvID)
    requires Valid(t) && (Get(t, c).1.Some? || KeepsVictim(t, c))
    ensures KeepsVictim(Get(t, c).0, c)
  {
    var i := Find(t.lru, c);
    if i >= 0 {
      TouchKeeps(t.lru, i);
      FindIs(Touch(t.lru, i), t.lru[i]);
    } else if InDb(t.db, c) {
      var s := Slot(c, false, t.db[c].info);
      AddKeeps(t.lru, s, t.cap);
      FindIs(Add(t.lru, s, t.cap), s);
    }
  }

  /** The answer is always the plain map's; the new state is the plain map's exactly when the operation pushes no
      unsaved entry out. */
  lemma StepRefines(t: Store, m: map<ConvID, PurgeInfo>, op: Op)
    requires Valid(t) && Refines(t, m) && WellFormed(t, op)
    ensures var (t', a) := StoreStep(t, op);
      Valid(t') && a == MapStep(m, op).1 && (Refines(t', MapStep(m, op).0) <==> Safe(t, op))
  {
    hide Valid, Refines, KeepsVictim, Get, Put, Flush, GetAll, Clear, Merge;
    match op
    case SetInfo(c, info) =>
      if info.Some? { PutRefinesIff(t, m, c, info.value); }
    case MaybeUpdate(c, info) =>
      if info.Some? && !IsNil(info.value) { UpdateRefines(t, m, c, info.value); }
    case Inactivate(c) =>
      InactivateRefines(t, m, c);
    case GetInfo(c) =>
      GetRefinesIff(t, m, c);
    case FlushAll =>
      FlushRefines(t, m);
    case ListAll(keys) =>
      FlushRefines(t, m);
      GetAllReturnsEverythingOnce(t, m, keys);
      assert GetAll(t, keys).1 == Listed(m, keys) by { ListAllLists(t, m, keys); }
    case ClearConv(c) =>
      ClearRefines(t, m, c);
  }

  lemma ListAllLists(t: Store, m: map<ConvID, PurgeInfo>, keys: seq<ConvID>)
    requires Valid(t) && Refines(t, m)
    ensures GetAll(t, keys).1 == Listed(m, keys)
  {
    FlushRefines(t, m);
    GetEachLists(Flush(t), m, keys);
  }

  lemma InfoIsOwn(t: Store, m: map<ConvID, PurgeInfo>, c: ConvID)
    requires Valid(t) && Refines(t, m) && c in m
    ensures m[c].convID == c
  {
    assert Value(t, c) == Some(m[c]);
    var i := Find(t.lru, c);
    if i >= 0 { assert t.lru[i] in t.lru; }
  }

  lemma UpdateRefines(t: Store, m: map<ConvID, PurgeInfo>, c: ConvID, info: PurgeInfo)
    requires Valid(t) && Refines(t, m) && info.convID == c && !IsNil(info)
    ensures var op := MaybeUpdate(c, Some(info)); var (t', a) := StoreStep(t, op);
      Valid(t') && a == MapStep(m, op).1 && (Refines(t', MapStep(m, op).0) <==> KeepsVictim(t, c))
  {
    hide Valid, Refines, KeepsVictim, Get, Put;
    GetRefinesIff(t, m, c);
    var p := if c in m then Merge(m[c], info) else info;
    if KeepsVictim(t, c) {
      PutAfterGet(t, c);
      PutRefinesIff(Get(t, c).0, m, c, p);
    } else if InDb(t.db, c) {
      LostForGood(t, m, c, p);
    } else {
      NotStored(t, m, c);
      PutRefinesIff(t, m, c, p);
    }
  }

  /** An unsaved entry that a reload pushed out does not come back with the put that follows. */
  lemma LostForGood(t: Store, m: map<ConvID, PurgeInfo>, c: ConvID, p: PurgeInfo)
    requires Valid(t) && Refines(t, m) && p.convID == c && !KeepsVictim(t, c) && InDb(t.db, c)
    ensures var t1 := Get(t, c).0; Valid(Put(t1, c, p)) && !Refines(Put(t1, c, p), m[c := p])
  {
    var t1, d := Get(t, c).0, t.lru[0].conv;
    GetRefinesIff(t, m, c);
    VictimIsOther(t, c);
    hide Valid, Refines, Value, KeepsVictim, Put, Get;
    MissReloads(t, c);
    PutAfterGet(t, c);
    AddValue(t, Slot(c, false, t.db[c].info), d);
    AddValue(t1, Slot(c, true, p), d);
    PutStaysValid(t1, Slot(c, true, p));
    PutAdds(t1, c, p);
    LostValue(t, m, Put(t1, c, p), m[c := p], d);
  }

  lemma MissReloads(t: Store, c: ConvID)
    requires !KeepsVictim(t, c) && InDb(t.db, c)
    ensures Get(t, c) == (t.(lru := Add(t.lru, Slot(c, false, t.db[c].info), t.cap)), Some(t.db[c].info))
  {
  }

  lemma PutAdds(t: Store, c: ConvID, p: PurgeInfo)
    ensures Put(t, c, p) == t.(lru := Add(t.lru, Slot(c, true, p), t.cap))
  {
  }

  lemma LostValue(t: Store, m: map<ConvID, PurgeInfo>, t': Store, m': map<ConvID, PurgeInfo>, d: ConvID)
    requires Refines(t, m) && Value(t', d) != Value(t, d) && Lookup(m', d) == Lookup(m, d)
    ensures !Refines(t', m')
  {
  }

  lemma NotStored(t: Store, m: map<ConvID, PurgeInfo>, c: ConvID)
    requires Refines(t, m) && !KeepsVictim(t, c) && !InDb(t.db, c)
    ensures c !in m && Get(t, c) == (t, None)
  {
    assert Value(t, c) == Lookup(m, c);
  }

  lemma InactivateRefines(t: Store, m: map<ConvID, PurgeInfo>, c: ConvID)
    requires Valid(t) && Refines(t, m)
    ensures var op := Inactivate(c); var (t', a) := StoreStep(t, op);
      Valid(t') && a == MapStep(m, op).1 && (Refines(t', MapStep(m, op).0) <==> KeepsVictim(t, c) || !InDb(t.db, c))
  {
    hide Valid, Refines, KeepsVictim, Get, Put;
    GetRefinesIff(t, m, c);
    if c in m {
      InfoIsOwn(t, m, c);
      var p := m[c].(isActive := false);
      PutAfterGet(t, c);
      PutRefinesOr(t, m, c, p);
    }
  }

  lemma PutRefinesOr(t: Store, m: map<ConvID, PurgeInfo>, c: ConvID, p: PurgeInfo)
    requires Valid(t) && Refines(t, m) && p.convID == c && KeepsVictim(Get(t, c).0, c)
    ensures var t' := Put(Get(t, c).0, c, p);
      Valid(t') && (Refines(t', m[c := p]) <==> KeepsVictim(t, c) || !InDb(t.db, c))
  {
    hide Valid, Refines, KeepsVictim, Get, Put;
    GetRefinesIff(t, m, c);
    if KeepsVictim(t, c) || !InDb(t.db, c) {
      PutRefinesIff(Get(t, c).0, m, c, p);
    } else {
      LostForGood(t, m, c, p);
    }
  }

  /******* Runs *******/

  ghost predicate SafeRun(t: Store, ops: seq<Op>)
    decreases |ops|
  {
    ops == [] || (WellFormed(t, ops[0]) && Safe(t, ops[0]) && SafeRun(StoreStep(t, ops[0]).0, ops[1..]))
  }

  function StoreRun(t: Store, ops: seq<Op>): (Store, seq<Answer>)
    decreases |ops|
  {
    if ops == [] then (t, [])
    else
      var (t1, a) := StoreStep(t, ops[0]);
      var (t2, rest) := StoreRun(t1, ops[1..]);
      (t2, [a] + rest)
  }

  function MapRun(m: map<ConvID, PurgeInfo>, ops: seq<Op>): (map<ConvID, PurgeInfo>, seq<Answer>)
    decreases |ops|
  {
    if ops == [] then (m, [])
    else
      var (m1, a) := MapStep(m, ops[0]);
      var (m2, rest) := MapRun(m1, ops[1..]);
      (m2, [a] + rest)
  }

  /** Through any mix of sets, updates, flushes, evictions, reloads and clears, the tracker gives every
      caller the answer of a plain map, as long as no unsaved entry is pushed out. */
  lemma {:induction false} RunRefines(t: Store, m: map<ConvID, PurgeInfo>, ops: seq<Op>)
    requires Valid(t) && Refines(t, m) && SafeRun(t, ops)
    ensures var (t', answers) := StoreRun(t, ops);
      Valid(t') && Refines(t', MapRun(m, ops).0) && answers == MapRun(m, ops).1
    decreases |ops|
  {
    hide Valid, Refines, StoreStep, MapStep;
    if ops != [] {
      StepRefines(t, m, ops[0]);
      RunRefines(StoreStep(t, ops[0]).0, MapStep(m, ops[0]).0, ops[1..]);
    }
  }

  /** With room for one entry, storing a second conversation's info loses the first one's: the tracker answers
      that it has none, where the plain map has it. */
  lemma UnsavedEntryIsLost(p: PurgeInfo, q: PurgeInfo)
    requires p.convID != q.convID
    ensures var t := Store([], map[], 1);
      var t1 := StoreStep(t, SetInfo(p.convID, Some(p))).0;
      var t2 := StoreStep(t1, SetInfo(q.convID, Some(q))).0;
      && Valid(t) && !Safe(t1, SetInfo(q.convID, Some(q)))
      && StoreStep(t2, GetInfo(p.convID)).1 == Found(None)
      && MapStep(map[p.convID := p][q.convID := q], GetInfo(p.convID)).1 == Found(Some(p))
  {
    hide Find, Add;
    var s1, s2 := Slot(p.convID, true, p), Slot(q.convID, true, q);
    AddToNone(s1);
    AddToOne(s1, s2);
    FindInOne(s1, q.convID);
    FindInOne(s2, p.convID);
  }

  lemma AddToNone(s: Slot)
    ensures Add([], s, 1) == [s]
  {
  }

  lemma AddToOne(r: Slot, s: Slot)
    requires r.conv != s.conv
    ensures Add([r], s, 1) == [s]
  {
    FindInOne(r, s.conv);
    hide Find;
    assert [r] + [s] == [r, s] && [r, s][1..] == [s];
  }

  lemma FindInOne(s: Slot, c: ConvID)
    requires s.conv != c
    ensures Find([s], c) == -1
  {
    assert [s][..0] == [];
  }
}
