/**
 The ephemeral tracker: purge infos cached in an LRU over a database, written back lazily
 (go/chat/ephemeral_purge_tracker.go), against the plain map its callers think they use.
 */
module Tracker {
  import opened Wrappers
  import opened EphemeralTypes

  const DiskVersion := 1

  datatype Slot = Slot(conv: ConvID, isDirty: bool, info: PurgeInfo)
  datatype DbEntry = DbEntry(version: int, info: PurgeInfo)

  /** The LRU holds its entries from oldest to newest, at most cap of them. */
  datatype Store = Store(lru: seq<Slot>, db: map<ConvID, DbEntry>, cap: nat)

  /******* The LRU *******/

  function Find(l: seq<Slot>, c: ConvID): (i: int)
    ensures -1 <= i < |l|
    ensures i >= 0 ==> l[i].conv == c
    ensures i < 0 ==> forall s :: s in l ==> s.conv != c
  {
    if l == [] then -1 else if l[|l| - 1].conv == c then |l| - 1 else Find(l[..|l| - 1], c)
  }

  /** Get moves the entry to the newest end. */
  function Touch(l: seq<Slot>, i: nat): seq<Slot>
    requires i < |l|
  {
    l[..i] + l[i + 1..] + [l[i]]
  }

  /** Add replaces and moves an existing entry; a new one may push out the oldest. */
  function Add(l: seq<Slot>, s: Slot, cap: nat): seq<Slot> {
    var i := Find(l, s.conv);
    if i >= 0 then l[..i] + l[i + 1..] + [s]
    else if |l| + 1 > cap then (l + [s])[1..]
    else l + [s]
  }

  function Remove(l: seq<Slot>, c: ConvID): seq<Slot> {
    var i := Find(l, c);
    if i >= 0 then l[..i] + l[i + 1..] else l
  }

  /******* The plain map *******/

  predicate InDb(db: map<ConvID, DbEntry>, c: ConvID) {
    c in db && db[c].version == DiskVersion
  }

  /** What a caller would be told about conversation c. */
  function Value(t: Store, c: ConvID): Option<PurgeInfo> {
    var i := Find(t.lru, c);
    if i >= 0 then Some(t.lru[i].info)
    else if InDb(t.db, c) then Some(t.db[c].info)
    else None
  }

  /** An entry that the database has under another version is as good as absent. */
  lemma OtherVersionsAreAbsent(t: Store, c: ConvID)
    requires c in t.db && t.db[c].version != 1 && forall s :: s in t.lru ==> s.conv != c
    ensures Value(t, c) == None && Get(t, c) == (t, None)
  {
  }

  /** A put makes the conversation the newest in the cache. */
  lemma PutIsNewest(t: Store, c: ConvID, info: PurgeInfo)
    requires t.cap > 0
    ensures var l := Put(t, c, info).lru; l != [] && l[|l| - 1] == Slot(c, true, info)
  {
    hide Add;
    AddedIsLast(t.lru, Slot(c, true, info), t.cap);
  }

  /** So does a lookup that finds something, and a hit keeps the order of the others. */
  lemma FoundIsNewest(t: Store, c: ConvID)
    requires t.cap > 0 && Get(t, c).1.Some?
    ensures var l := Get(t, c).0.lru; l != [] && l[|l| - 1].conv == c
    ensures var i := Find(t.lru, c); i >= 0 ==> Get(t, c).0.lru[..|t.lru| - 1] == t.lru[..i] + t.lru[i + 1..]
  {
    hide Add, Touch, Find;
    var i := Find(t.lru, c);
    if i >= 0 { TouchedIsLast(t.lru, i); } else { AddedIsLast(t.lru, Slot(c, false, t.db[c].info), t.cap); }
  }

  lemma AddedIsLast(l: seq<Slot>, s: Slot, cap: nat)
    requires cap > 0
    ensures var r := Add(l, s, cap); r != [] && r[|r| - 1] == s
  {
    hide Find;
    if l != [] && |l| + 1 > cap { assert (l + [s])[1..][|l| - 1] == s; }
  }

  lemma TouchedIsLast(l: seq<Slot>, i: nat)
    requires i < |l|
    ensures var r := Touch(l, i); |r| == |l| && r[|r| - 1] == l[i] && r[..|l| - 1] == l[..i] + l[i + 1..]
  {
  }

  /** The tracker stands for the plain map m. */
  ghost predicate Refines(t: Store, m: map<ConvID, PurgeInfo>) {
    forall c :: Value(t, c) == if c in m then Some(m[c]) else None
  }

  ghost predicate Distinct(l: seq<Slot>) {
    forall i, j :: 0 <= i < j < |l| ==> l[i].conv != l[j].conv
  }

  /** Entries carry their own conversation, and a clean entry is what the database holds. */
  ghost predicate Valid(t: Store) {
    && 0 < t.cap && |t.lru| <= t.cap
    && Distinct(t.lru)
    && (forall s :: s in t.lru ==> s.info.convID == s.conv)
    && (forall c :: InDb(t.db, c) ==> t.db[c].info.convID == c)
    && (forall s :: s in t.lru && !s.isDirty ==> InDb(t.db, s.conv) && t.db[s.conv].info == s.info)
  }

  /******* Operations *******/

  function Get(t: Store, c: ConvID): (Store, Option<PurgeInfo>) {
    var i := Find(t.lru, c);
    if i >= 0 then (t.(lru := Touch(t.lru, i)), Some(t.lru[i].info))
    else if InDb(t.db, c) then (t.(lru := Add(t.lru, Slot(c, false, t.db[c].info), t.cap)), Some(t.db[c].info))
    else (t, None)
  }

  function Put(t: Store, c: ConvID, info: PurgeInfo): Store {
    t.(lru := Add(t.lru, Slot(c, true, info), t.cap))
  }

  function Clear(t: Store, c: ConvID): Store {
    t.(lru := Remove(t.lru, c), db := t.db - {c})
  }

  function Clean(l: seq<Slot>): (r: seq<Slot>)
    ensures |r| == |l| && forall i :: 0 <= i < |l| ==> r[i] == l[i].(isDirty := false)
  {
    if l == [] then [] else Clean(l[..|l| - 1]) + [l[|l| - 1].(isDirty := false)]
  }

  /** The database after writing back the dirty entries of l, oldest first, under the info's own ID. */
  function WriteBack(db: map<ConvID, DbEntry>, l: seq<Slot>): map<ConvID, DbEntry> {
    if l == [] then db
    else
      var db' := WriteBack(db, l[..|l| - 1]);
      var s := l[|l| - 1];
      if s.isDirty then db'[s.info.convID := DbEntry(DiskVersion, s.info)] else db'
  }

  function Flush(t: Store): Store {
    t.(lru := Clean(t.lru), db := WriteBack(t.db, t.lru))
  }

  /** Adding conversation c pushes out nothing, a clean entry, or one the database already agrees with. */
  predicate KeepsVictim(t: Store, c: ConvID) {
    || Find(t.lru, c) >= 0
    || |t.lru| < t.cap
    || t.lru == []
    || !t.lru[0].isDirty
    || (InDb(t.db, t.lru[0].conv) && t.db[t.lru[0].conv].info == t.lru[0].info)
  }

  /******* What the LRU operations do to its contents *******/

  lemma FindIs(l: seq<Slot>, s: Slot)
    requires Distinct(l) && s in l
    ensures Find(l, s.conv) >= 0 && l[Find(l, s.conv)] == s
  {
    var i :| 0 <= i < |l| && l[i] == s;
  }

  lemma SpliceKeeps(l: seq<Slot>, i: nat)
    requires i < |l| && Distinct(l)
    ensures var r := l[..i] + l[i + 1..];
      Distinct(r) && |r| == |l| - 1 && forall x :: x in r <==> x in l && x.conv != l[i].conv
  {
    var r := l[..i] + l[i + 1..];
    assert l == l[..i] + [l[i]] + l[i + 1..];
    forall x | x in l && x.conv != l[i].conv ensures x in r {
      var j :| 0 <= j < |l| && l[j] == x;
      assert r[if j < i then j else j - 1] == x;
    }
  }

  lemma SnocKeeps(l: seq<Slot>, s: Slot)
    requires Distinct(l) && forall x :: x in l ==> x.conv != s.conv
    ensures Distinct(l + [s]) && forall x :: x in l + [s] <==> x in l || x == s
  {
    forall i, j | 0 <= i < j < |l| + 1 ensures (l + [s])[i].conv != (l + [s])[j].conv {
      assert l[i] in l;
    }
  }

  lemma TouchKeeps(l: seq<Slot>, i: nat)
    requires i < |l| && Distinct(l)
    ensures var r := Touch(l, i); Distinct(r) && |r| == |l| && forall x :: x in r <==> x in l
  {
    SpliceKeeps(l, i);
    SnocKeeps(l[..i] + l[i + 1..], l[i]);
    forall x | x in l ensures x in Touch(l, i) {
      var j :| 0 <= j < |l| && l[j] == x;
    }
  }

  /** The entry that Add pushes out, if any. */
  predicate IsVictim(l: seq<Slot>, c: ConvID, cap: nat, x: Slot) {
    Find(l, c) < 0 && |l| + 1 > cap && l != [] && x == l[0]
  }

  lemma AddKeeps(l: seq<Slot>, s: Slot, cap: nat)
    requires Distinct(l) && 0 < cap && |l| <= cap
    ensures var r := Add(l, s, cap);
      Distinct(r) && |r| <= cap && forall x :: x in r <==> x == s || (x in l && x.conv != s.conv && !IsVictim(l, s.conv, cap, x))
  {
    var i := Find(l, s.conv);
    if i >= 0 {
      SpliceKeeps(l, i);
      SnocKeeps(l[..i] + l[i + 1..], s);
    } else {
      SnocKeeps(l, s);
      if |l| + 1 > cap { SpliceKeeps(l + [s], 0); }
    }
  }

  lemma RemoveKeeps(l: seq<Slot>, c: ConvID)
    requires Distinct(l)
    ensures var r := Remove(l, c); Distinct(r) && |r| <= |l| && forall x :: x in r <==> x in l && x.conv != c
  {
    hide Find, Distinct;
    var i := Find(l, c);
    if i >= 0 { SpliceKeeps(l, i); }
  }

  /******* Each operation against the plain map *******/

  /** Value looks in the cache first, whatever the order of its entries. */
  lemma ValueIs(t: Store, s: Slot)
    requires Distinct(t.lru) && s in t.lru
    ensures Value(t, s.conv) == Some(s.info)
  {
    FindIs(t.lru, s);
  }

  lemma AddValue(t: Store, s: Slot, c: ConvID)
    requires Valid(t)
    ensures var t' := t.(lru := Add(t.lru, s, t.cap));
      && (c == s.conv ==> Value(t', c) == Some(s.info))
      && (c != s.conv && (KeepsVictim(t, s.conv) || t.lru[0].conv != c) ==> Value(t', c) == Value(t, c))
      && (c != s.conv && !KeepsVictim(t, s.conv) && t.lru[0].conv == c ==> Value(t', c) != Value(t, c))
  {
    hide Add, Touch, Find;
    AddKeeps(t.lru, s, t.cap);
    var t' := t.(lru := Add(t.lru, s, t.cap));
    if c == s.conv {
      ValueIs(t', s);
    } else {
      var i := Find(t.lru, c);
      if i >= 0 {
        ValueIs(t, t.lru[i]);
        if t.lru[i] in t'.lru { ValueIs(t', t.lru[i]); }
      }
    }
  }

  lemma PutStaysValid(t: Store, s: Slot)
    requires Valid(t) && s.info.convID == s.conv
    requires !s.isDirty ==> InDb(t.db, s.conv) && t.db[s.conv].info == s.info
    ensures Valid(t.(lru := Add(t.lru, s, t.cap)))
  {
    AddKeeps(t.lru, s, t.cap);
  }

  /** A put is a map update exactly when it pushes out no unsaved entry. */
  lemma PutRefinesIff(t: Store, m: map<ConvID, PurgeInfo>, c: ConvID, info: PurgeInfo)
    requires Valid(t) && Refines(t, m) && info.convID == c
    ensures Valid(Put(t, c, info))
    ensures Refines(Put(t, c, info), m[c := info]) <==> KeepsVictim(t, c)
  {
    var s := Slot(c, true, info);
    PutStaysValid(t, s);
    hide Add, Valid, Value;
    forall c' ensures var v, v' := Value(t, c'), Value(Put(t, c, info), c');
      (c' == c ==> v' == Some(info)) && (c' != c && KeepsVictim(t, c) ==> v' == v)
    {
      AddValue(t, s, c');
    }
    if !KeepsVictim(t, c) { AddValue(t, s, t.lru[0].conv); VictimIsOther(t, c); }
  }

  lemma VictimIsOther(t: Store, c: ConvID)
    requires !KeepsVictim(t, c)
    ensures t.lru != [] && t.lru[0].conv != c
  {
    assert t.lru[0] in t.lru;
  }

  /** A lookup answers from the plain map, and changes nothing unless a reload pushes out an unsaved entry. */
  lemma GetRefinesIff(t: Store, m: map<ConvID, PurgeInfo>, c: ConvID)
    requires Valid(t) && Refines(t, m)
    ensures var (t', v) := Get(t, c);
      && v == (if c in m then Some(m[c]) else None)
      && Valid(t')
      && (Refines(t', m) <==> KeepsVictim(t, c) || !InDb(t.db, c))
  {
    var i := Find(t.lru, c);
    if i >= 0 {
      TouchKeeps(t.lru, i);
      GetTouches(t, c);
    } else if InDb(t.db, c) {
      var s := Slot(c, false, t.db[c].info);
      PutStaysValid(t, s);
      hide Add, Valid, Value;
      assert Value(t, c) == Some(t.db[c].info) by { ValueInDb(t, c); }
      forall c' ensures var v, v' := Value(t, c'), Value(Get(t, c).0, c');
        (c' == c ==> v' == v) && (c' != c && KeepsVictim(t, c) ==> v' == v)
      {
        AddValue(t, s, c');
      }
      if !KeepsVictim(t, c) { AddValue(t, s, t.lru[0].conv); VictimIsOther(t, c); }
    }
  }

  lemma ValueInDb(t: Store, c: ConvID)
    requires Find(t.lru, c) < 0 && InDb(t.db, c)
    ensures Value(t, c) == Some(t.db[c].info)
  {
  }

  lemma GetTouches(t: Store, c: ConvID)
    requires Valid(t) && Find(t.lru, c) >= 0
    ensures forall c' :: Value(Get(t, c).0, c') == Value(t, c')
  {
    var t' := Get(t, c).0;
    TouchKeeps(t.lru, Find(t.lru, c));
    forall c' ensures Value(t', c') == Value(t, c') {
      var i := Find(t.lru, c');
      if i >= 0 { ValueIs(t', t.lru[i]); }
    }
  }

  lemma ClearValue(t: Store, c: ConvID, d: ConvID)
    requires Valid(t)
    ensures Value(Clear(t, c), d) == if d == c then None else Value(t, d)
  {
    hide Find, Remove, Distinct;
    RemoveKeeps(t.lru, c);
    var j := Find(t.lru, d);
    if j >= 0 && d != c { ValueIs(Clear(t, c), t.lru[j]); }
  }

  lemma ClearRefines(t: Store, m: map<ConvID, PurgeInfo>, c: ConvID)
    requires Valid(t) && Refines(t, m)
    ensures Valid(Clear(t, c)) && Refines(Clear(t, c), m - {c})
  {
    hide Find, Remove, Distinct, Value;
    RemoveKeeps(t.lru, c);
    forall d ensures Value(Clear(t, c), d) == if d == c then None else Value(t, d) { ClearValue(t, c, d); }
  }

  /******* Flush and the listing of all entries *******/

  lemma {:induction false} WriteBackAt(db: map<ConvID, DbEntry>, l: seq<Slot>, c: ConvID)
    requires Distinct(l) && forall s :: s in l ==> s.info.convID == s.conv
    ensures var i, db' := Find(l, c), WriteBack(db, l);
      if i >= 0 && l[i].isDirty then c in db' && db'[c] == DbEntry(DiskVersion, l[i].info)
      else (c in db' <==> c in db) && (c in db ==> db'[c] == db[c])
  {
    if l != [] {
      var front, last := l[..|l| - 1], l[|l| - 1];
      assert forall x :: x in front ==> x in l;
      WriteBackAt(db, front, c);
      if last.conv == c { assert forall x :: x in front ==> x.conv != c; }
    }
  }

  ghost predicate AllClean(t: Store) {
    forall s :: s in t.lru ==> !s.isDirty
  }

  lemma CleanFind(l: seq<Slot>, c: ConvID)
    requires Distinct(l)
    ensures Distinct(Clean(l)) && Find(Clean(l), c) == Find(l, c)
  {
    var i, r := Find(l, c), Clean(l);
    if i >= 0 { FindIs(r, r[i]); } else { assert forall k :: 0 <= k < |l| ==> l[k] in l; }
  }

  lemma FlushValue(t: Store, c: ConvID)
    requires Valid(t)
    ensures var t' := Flush(t); Value(t', c) == Value(t, c) && (InDb(t'.db, c) ==> t'.db[c].info.convID == c)
  {
    hide Find, Clean, WriteBack, Distinct;
    CleanFind(t.lru, c);
    WriteBackAt(t.db, t.lru, c);
    if Find(t.lru, c) >= 0 { assert t.lru[Find(t.lru, c)] in t.lru; }
  }

  /** A flush saves every unsaved entry and is invisible to callers; the cache keeps its order. */
  lemma FlushRefines(t: Store, m: map<ConvID, PurgeInfo>)
    requires Valid(t) && Refines(t, m)
    ensures var t' := Flush(t); Valid(t') && Refines(t', m) && AllClean(t')
  {
    hide Find, Clean, WriteBack, Value, Distinct;
    var t' := Flush(t);
    forall c ensures Value(t', c) == Value(t, c) && (InDb(t'.db, c) ==> t'.db[c].info.convID == c) { FlushValue(t, c); }
    forall s | s in t'.lru ensures !s.isDirty && s.info.convID == s.conv && InDb(t'.db, s.conv) && t'.db[s.conv].info == s.info {
      var i :| 0 <= i < |t'.lru| && t'.lru[i] == s;
      assert t.lru[i] in t.lru;
      FindIs(t.lru, t.lru[i]);
      WriteBackAt(t.db, t.lru, s.conv);
    }
    CleanFind(t.lru, 0);
  }

  /** The loop of GetAllPurgeInfo over the database keys. */
  function GetEach(t: Store, keys: seq<ConvID>): (Store, seq<PurgeInfo>) {
    if keys == [] then (t, [])
    else
      var (t1, infos) := GetEach(t, keys[..|keys| - 1]);
      var (t2, v) := Get(t1, keys[|keys| - 1]);
      (t2, if v.Some? then infos + [v.value] else infos)
  }

  function Listed(m: map<ConvID, PurgeInfo>, keys: seq<ConvID>): seq<PurgeInfo> {
    if keys == [] then []
    else
      var c := keys[|keys| - 1];
      Listed(m, keys[..|keys| - 1]) + if c in m then [m[c]] else []
  }

  lemma CleanGet(t: Store, m: map<ConvID, PurgeInfo>, c: ConvID)
    requires Valid(t) && Refines(t, m) && AllClean(t)
    ensures var t' := Get(t, c).0; Valid(t') && Refines(t', m) && AllClean(t')
  {
    GetRefinesIff(t, m, c);
    var i := Find(t.lru, c);
    if i >= 0 { TouchKeeps(t.lru, i); }
    else if InDb(t.db, c) { AddKeeps(t.lru, Slot(c, false, t.db[c].info), t.cap); }
  }

  lemma {:induction false} GetEachLists(t: Store, m: map<ConvID, PurgeInfo>, keys: seq<ConvID>)
    requires Valid(t) && Refines(t, m) && AllClean(t)
    ensures var (t', infos) := GetEach(t, keys);
      Valid(t') && Refines(t', m) && AllClean(t') && infos == Listed(m, keys)
  {
    if keys != [] {
      GetEachLists(t, m, keys[..|keys| - 1]);
      hide Valid, Refines, AllClean, Get;
      var t1 := GetEach(t, keys[..|keys| - 1]).0;
      CleanGet(t1, m, keys[|keys| - 1]);
      GetRefinesIff(t1, m, keys[|keys| - 1]);
    }
  }

  function GetAll(t: Store, keys: seq<ConvID>): (Store, seq<PurgeInfo>) {
    GetEach(Flush(t), keys)
  }

  ghost predicate Enumerates(keys: seq<ConvID>, db: map<ConvID, DbEntry>) {
    && (forall i, j :: 0 <= i < j < |keys| ==> keys[i] != keys[j])
    && (forall c :: c in keys <==> c in db)
  }

  lemma {:induction false} ListedOnce(m: map<ConvID, PurgeInfo>, keys: seq<ConvID>)
    requires forall i, j :: 0 <= i < j < |keys| ==> keys[i] != keys[j]
    requires forall c :: c in m ==> m[c].convID == c
    ensures var infos := Listed(m, keys);
      && (forall p :: p in infos <==> p.convID in keys && p.convID in m && m[p.convID] == p)
      && (forall i, j :: 0 <= i < j < |infos| ==> infos[i].convID != infos[j].convID)
  {
    if keys != [] {
      var front, c := keys[..|keys| - 1], keys[|keys| - 1];
      ListedOnce(m, front);
      assert keys == front + [c];
      var infos := Listed(m, front);
      assert forall i :: 0 <= i < |infos| ==> infos[i] in infos;
      assert c !in front;
    }
  }

  /** The listing returns every stored entry exactly once, for any order of the database keys. */
  lemma GetAllReturnsEverythingOnce(t: Store, m: map<ConvID, PurgeInfo>, keys: seq<ConvID>)
    requires Valid(t) && Refines(t, m) && Enumerates(keys, Flush(t).db)
    ensures var (t', infos) := GetAll(t, keys);
      && Valid(t') && Refines(t', m)
      && (forall p :: p in infos <==> p.convID in m && m[p.convID] == p)
      && (forall i, j :: 0 <= i < j < |infos| ==> infos[i].convID != infos[j].convID)
  {
    FlushRefines(t, m);
    GetEachLists(Flush(t), m, keys);
    hide Flush;
    forall c | c in m ensures m[c].convID == c && c in keys {
      StoredAfterFlush(Flush(t), m, c);
    }
    ListedOnce(m, keys);
  }

  lemma StoredAfterFlush(t: Store, m: map<ConvID, PurgeInfo>, c: ConvID)
    requires Valid(t) && Refines(t, m) && AllClean(t) && c in m
    ensures InDb(t.db, c) && m[c].convID == c
  {
    assert Value(t, c) == Some(m[c]);
    var i := Find(t.lru, c);
    if i >= 0 { assert t.lru[i] in t.lru; }
  }
}
