/**
 Filling the holes of a thread: GetMessages merges local and remote messages in request order, and
 resolveHoles writes them into the placeholders' slots (go/chat/convsource.go:588-629, 894-971).
 */
module ConvSource {
  import opened Wrappers

  datatype MsgState = Unset | Valid | Failed | Placeholder | InOutbox | Journeycard

  datatype Msg = Msg(id: nat, state: MsgState, content: nat)
  {
    predicate IsPlaceholder() { state.Placeholder? }
  }

  /** What an absent table entry reads as. */
  const Zero := Msg(0, Unset, 0)

  /** Local storage by message ID, and the server as its unboxed answer to a request, if it answers. */
  datatype Source = Source(local: map<nat, Msg>, remote: seq<nat> -> Option<seq<Msg>>)

  /** Storage files a message under its own ID, and has none for ID 0. */
  ghost predicate Filed(local: map<nat, Msg>) {
    0 !in local && forall id :: id in local ==> local[id].id == id
  }

  /******* GetMessages *******/

  /** What has to be asked of the server, in request order. */
  function Missing(local: map<nat, Msg>, ids: seq<nat>): seq<nat> {
    if ids == [] then []
    else
      var id := ids[|ids| - 1];
      Missing(local, ids[..|ids| - 1]) + if id in local then [] else [id]
  }

  /** A table of messages by ID; the last of several wins. */
  function Table(ms: seq<Msg>): (t: map<nat, Msg>)
    ensures forall id :: id in t <==> exists m :: m in ms && m.id == id
    ensures forall id :: id in t ==> t[id].id == id && t[id] in ms
  {
    if ms == [] then map[]
    else
      var m := ms[|ms| - 1];
      var t := Table(ms[..|ms| - 1])[m.id := m];
      assert ms == ms[..|ms| - 1] + [m];
      t
  }

  /** The server's table, empty when nothing is missing. */
  function Fetched(s: Source, ids: seq<nat>): Option<map<nat, Msg>> {
    var missing := Missing(s.local, ids);
    if missing == [] then Some(map[])
    else
      var r := s.remote(missing);
      if r.None? then None else Some(Table(r.value))
  }

  function Pick(local: map<nat, Msg>, tab: map<nat, Msg>, id: nat): Msg {
    if id in local then local[id] else if id in tab then tab[id] else Zero
  }

  /** Exactly what is not stored locally is asked of the server. */
  lemma {:induction false} MissingAre(local: map<nat, Msg>, ids: seq<nat>, id: nat)
    ensures id in Missing(local, ids) <==> id in ids && id !in local
  {
    if ids != [] {
      MissingAre(local, ids[..|ids| - 1], id);
      assert ids == ids[..|ids| - 1] + [ids[|ids| - 1]];
    }
  }

  /** So when the server knows every message it is asked for, every message comes back, the local ones as stored. */
  lemma CompleteWhenServerIs(s: Source, ids: seq<nat>, id: nat)
    requires Fetched(s, ids).Some? && id in ids && Filed(s.local)
    requires forall q: seq<nat>, ms: seq<Msg>, i: nat :: s.remote(q) == Some(ms) && i in q ==> exists m :: m in ms && m.id == i
    ensures Pick(s.local, Fetched(s, ids).value, id).id == id
    ensures id in s.local ==> Pick(s.local, Fetched(s, ids).value, id) == s.local[id]
    ensures (forall i :: i in ids ==> i in s.local) ==> Fetched(s, ids) == Some(map[])
  {
    MissingAre(s.local, ids, id);
    hide Missing;
    var missing := Missing(s.local, ids);
    if id !in s.local {
      var ms := s.remote(missing).value;
      assert s.remote(missing) == Some(ms) && id in missing;
    }
    if missing != [] { MissingAre(s.local, ids, missing[0]); }
  }

  method GetMessages(s: Source, ids: seq<nat>) returns (res: Option<seq<Msg>>)
    ensures res.Some? <==> Fetched(s, ids).Some?
    ensures res.Some? ==> |res.value| == |ids| && forall i :: 0 <= i < |ids| ==> res.value[i] == Pick(s.local, Fetched(s, ids).value, ids[i])
  {
    var msgs: seq<Option<Msg>> := seq(|ids|, i requires 0 <= i < |ids| => if ids[i] in s.local then Some(s.local[ids[i]]) else None);
    var remoteMsgs := [];
    for index := 0 to |msgs|
      invariant remoteMsgs == Missing(s.local, ids[..index])
    {
      assert ids[..index + 1][..index] == ids[..index];
      if msgs[index].None? { remoteMsgs := remoteMsgs + [ids[index]]; }
    }
    assert ids[..|msgs|] == ids;
    var tab := map[];
    if remoteMsgs != [] {
      var r := s.remote(remoteMsgs);
      if r.None? { return None; }
      tab := MakeTable(r.value);
    }
    var out := [];
    for index := 0 to |msgs|
      invariant |out| == index && forall i :: 0 <= i < index ==> out[i] == Pick(s.local, tab, ids[i])
    {
      if msgs[index].Some? { out := out + [msgs[index].value]; }
      else { out := out + [if ids[index] in tab then tab[ids[index]] else Zero]; }
    }
    res := Some(out);
  }

  method MakeTable(ms: seq<Msg>) returns (t: map<nat, Msg>)
    ensures t == Table(ms)
  {
    t := map[];
    for i := 0 to |ms|
      invariant t == Table(ms[..i])
    {
      assert ms[..i + 1][..i] == ms[..i];
      t := t[ms[i].id := ms[i]];
    }
    assert ms[..|ms|] == ms;
  }

  /** Results come in request order: each is the message asked for, unless neither side had it. */
  lemma PickHasID(s: Source, tab: map<nat, Msg>, ms: seq<Msg>, id: nat)
    requires Filed(s.local) && tab == Table(ms)
    ensures Pick(s.local, tab, id) == Zero || Pick(s.local, tab, id).id == id
    ensures id != 0 ==> (Pick(s.local, tab, id).id == id <==> id in s.local || id in tab)
  {
  }

  /******* resolveHoles *******/

  function Holes(ms: seq<Msg>): seq<nat> {
    if ms == [] then []
    else
      var m := ms[|ms| - 1];
      Holes(ms[..|ms| - 1]) + if m.IsPlaceholder() then [m.id] else []
  }

  lemma {:induction false} HolesAre(ms: seq<Msg>, id: nat)
    ensures id in Holes(ms) <==> exists i :: 0 <= i < |ms| && ms[i].IsPlaceholder() && ms[i].id == id
  {
    if ms != [] {
      HolesAre(ms[..|ms| - 1], id);
      assert forall i :: 0 <= i < |ms| - 1 ==> ms[..|ms| - 1][i] == ms[i];
    }
  }

  datatype Outcome = Resolved | Miss | FetchFailed | NoResolution(id: nat)

  predicate EndsInHole(ms: seq<Msg>) {
    ms != [] && ms[|ms| - 1].IsPlaceholder()
  }

  /** The message that either side has for a hole. */
  ghost predicate Resolvable(s: Source, tab: map<nat, Msg>, id: nat) {
    id in s.local || id in tab || id == 0
  }

  ghost predicate AllResolvable(s: Source, ms: seq<Msg>) {
    Fetched(s, Holes(ms)).Some? && forall id :: id in Holes(ms) ==> Resolvable(s, Fetched(s, Holes(ms)).value, id)
  }

  /** The thread with its holes among the first n messages filled by the message of the same ID. */
  ghost predicate FilledTo(s: Source, was: seq<Msg>, now: seq<Msg>, n: nat) {
    && |now| == |was|
    && (forall i :: 0 <= i < |was| ==> now[i].id == was[i].id)
    && (forall i :: 0 <= i < |was| && (i >= n || !was[i].IsPlaceholder()) ==> now[i] == was[i])
    && (Fetched(s, Holes(was)).Some? ==>
        forall i :: 0 <= i < |was| && i < n && was[i].IsPlaceholder() && was[i].id != 0 ==>
          now[i] == Pick(s.local, Fetched(s, Holes(was)).value, was[i].id))
  }

  /** Slot n is the first hole that neither side has a message for. */
  ghost predicate StoppedAt(s: Source, was: seq<Msg>, n: nat) {
    && n < |was| && was[n].IsPlaceholder() && Fetched(s, Holes(was)).Some?
    && !Resolvable(s, Fetched(s, Holes(was)).value, was[n].id)
    && forall i :: 0 <= i < n && was[i].IsPlaceholder() ==> Resolvable(s, Fetched(s, Holes(was)).value, was[i].id)
  }

  ghost predicate Answer(s: Source, tab: map<nat, Msg>, ids: seq<nat>, res: seq<Msg>) {
    |res| == |ids| && forall i :: 0 <= i < |ids| ==> res[i] == Pick(s.local, tab, ids[i])
  }

  /** What the table of resolutions holds for a hole. */
  lemma ResolutionIs(s: Source, tab: map<nat, Msg>, ms: seq<Msg>, ids: seq<nat>, res: seq<Msg>, id: nat)
    requires Filed(s.local) && tab == Table(ms) && Answer(s, tab, ids, res) && id in ids
    ensures id in Table(res) <==> Resolvable(s, tab, id)
    ensures id in Table(res) && id != 0 ==> Table(res)[id] == Pick(s.local, tab, id)
  {
    hide Table;
    var i :| 0 <= i < |ids| && ids[i] == id;
    assert res[i] in res;
    forall m | m in res && m.id == id && id != 0 ensures m == Pick(s.local, tab, id) {
      var j :| 0 <= j < |res| && res[j] == m;
      PickHasID(s, tab, ms, ids[j]);
    }
    PickHasID(s, tab, ms, id);
  }

  method GatherHoles(thread: array<Msg>) returns (miss: bool, ids: seq<nat>)
    ensures miss == EndsInHole(thread[..])
    ensures !miss ==> ids == Holes(thread[..])
  {
    ids := [];
    for index := 0 to thread.Length
      invariant ids == Holes(thread[..index])
      invariant thread.Length > 0 && index == thread.Length ==> !thread[index - 1].IsPlaceholder()
    {
      assert thread[..index + 1][..index] == thread[..index];
      if thread[index].IsPlaceholder() {
        if index == thread.Length - 1 { return true, []; }
        ids := ids + [thread[index].id];
      }
    }
    assert thread[..thread.Length] == thread[..];
    miss := false;
  }

  ghost predicate Asked(s: Source, was: seq<Msg>, res: seq<Msg>) {
    Fetched(s, Holes(was)).Some? && Answer(s, Fetched(s, Holes(was)).value, Holes(was), res)
  }

  /** The hole in one slot of the thread: whether it is resolved, and by what. */
  lemma SlotResolves(s: Source, was: seq<Msg>, res: seq<Msg>, i: nat)
    requires Filed(s.local) && Asked(s, was, res) && i < |was| && was[i].IsPlaceholder()
    ensures was[i].id in Holes(was)
    ensures was[i].id in Table(res) <==> Resolvable(s, Fetched(s, Holes(was)).value, was[i].id)
    ensures was[i].id in Table(res) && was[i].id != 0 ==> Table(res)[was[i].id] == Pick(s.local, Fetched(s, Holes(was)).value, was[i].id)
  {
    HolesAre(was, was[i].id);
    var tab := Fetched(s, Holes(was)).value;
    var ms := if Missing(s.local, Holes(was)) == [] then [] else s.remote(Missing(s.local, Holes(was))).value;
    assert tab == Table(ms);
    ResolutionIs(s, tab, ms, Holes(was), res, was[i].id);
  }

  method FillHoles(thread: array<Msg>, s: Source, ghost res: seq<Msg>, msgMap: map<nat, Msg>) returns (o: Outcome)
    requires Filed(s.local) && Asked(s, thread[..], res) && msgMap == Table(res)
    modifies thread
    ensures o.Resolved? || o.NoResolution?
    ensures o.Resolved? <==> AllResolvable(s, old(thread[..]))
    ensures o.Resolved? ==> FilledTo(s, old(thread[..]), thread[..], thread.Length)
    ensures o.NoResolution? ==> exists n: nat :: StoppedAt(s, old(thread[..]), n) && old(thread[..])[n].id == o.id && FilledTo(s, old(thread[..]), thread[..], n)
  {
    ghost var was := thread[..];
    assert Fetched(s, Holes(was)).Some?;
    hide Table, Fetched, Holes, Asked, Filed, Resolvable, FilledTo, AllResolvable, StoppedAt, Pick;
    NoneFilled(s, was);
    for index := 0 to thread.Length
      invariant FilledTo(s, was, thread[..], index)
      invariant forall i :: 0 <= i < index && was[i].IsPlaceholder() ==> was[i].id in msgMap
    {
      Unfilled(s, was, thread[..], index);
      var msg := thread[index];
      ghost var now := thread[..];
      if msg.IsPlaceholder() {
        SlotResolves(s, was, res, index);
        if msg.id !in msgMap {
          StopsHere(s, was, res, index);
          return NoResolution(msg.id);
        }
        FillOne(s, was, thread[..], index, msgMap[msg.id]);
        thread[index] := msgMap[msg.id];
        assert thread[..] == now[index := msgMap[msg.id]];
      } else {
        SkipOne(s, was, thread[..], index);
      }
    }
    AllSlotsResolve(s, was, res);
    o := Resolved;
  }

  lemma StopsHere(s: Source, was: seq<Msg>, res: seq<Msg>, n: nat)
    requires Filed(s.local) && Asked(s, was, res) && n < |was| && was[n].IsPlaceholder() && was[n].id !in Table(res)
    requires forall i :: 0 <= i < n && was[i].IsPlaceholder() ==> was[i].id in Table(res)
    ensures StoppedAt(s, was, n) && !AllResolvable(s, was)
  {
    hide Table, Fetched, Holes, Resolvable;
    SlotResolves(s, was, res, n);
    forall i: nat | i < n && was[i].IsPlaceholder() ensures Resolvable(s, Fetched(s, Holes(was)).value, was[i].id) {
      SlotResolves(s, was, res, i);
    }
  }

  lemma NoneFilled(s: Source, was: seq<Msg>)
    ensures FilledTo(s, was, was, 0)
  {
  }

  lemma Unfilled(s: Source, was: seq<Msg>, now: seq<Msg>, i: nat)
    requires FilledTo(s, was, now, i) && i < |was|
    ensures |now| == |was| && now[i] == was[i]
  {
  }

  lemma SkipOne(s: Source, was: seq<Msg>, now: seq<Msg>, i: nat)
    requires FilledTo(s, was, now, i) && i < |was| && !was[i].IsPlaceholder()
    ensures FilledTo(s, was, now, i + 1)
  {
  }

  lemma FillOne(s: Source, was: seq<Msg>, now: seq<Msg>, i: nat, m: Msg)
    requires FilledTo(s, was, now, i) && i < |was| && was[i].IsPlaceholder() && m.id == was[i].id && Fetched(s, Holes(was)).Some?
    requires m.id != 0 ==> m == Pick(s.local, Fetched(s, Holes(was)).value, m.id)
    ensures |now| == |was| && FilledTo(s, was, now[i := m], i + 1)
  {
    hide Fetched, Holes, Pick;
  }

  lemma AllSlotsResolve(s: Source, was: seq<Msg>, res: seq<Msg>)
    requires Filed(s.local) && Asked(s, was, res)
    requires forall i :: 0 <= i < |was| && was[i].IsPlaceholder() ==> was[i].id in Table(res)
    ensures AllResolvable(s, was)
  {
    forall id | id in Holes(was) ensures Resolvable(s, Fetched(s, Holes(was)).value, id) {
      HolesAre(was, id);
      var i: nat :| i < |was| && was[i].IsPlaceholder() && was[i].id == id;
      SlotResolves(s, was, res, i);
    }
  }

  /** No placeholder remains unless a fetched message is itself one. */
  lemma NoHoleRemainsIff(s: Source, was: seq<Msg>, now: seq<Msg>)
    requires AllResolvable(s, was) && FilledTo(s, was, now, |was|) && 0 !in Holes(was)
    ensures (exists m :: m in now && m.IsPlaceholder()) <==>
      exists id :: id in Holes(was) && Pick(s.local, Fetched(s, Holes(was)).value, id).IsPlaceholder()
  {
    hide Fetched;
    if m :| m in now && m.IsPlaceholder() {
      var i :| 0 <= i < |now| && now[i] == m;
      HolesAre(was, was[i].id);
    }
    if id :| id in Holes(was) && Pick(s.local, Fetched(s, Holes(was)).value, id).IsPlaceholder() {
      HolesAre(was, id);
      var i :| 0 <= i < |was| && was[i].IsPlaceholder() && was[i].id == id;
      assert now[i] in now;
    }
  }

  /** resolveHoles succeeds exactly when the thread does not end in a hole and every hole has a message of its
      ID; then IDs and other messages are as they were and each hole holds its message. When one is missing,
      the holes before it have been filled already. */
  method ResolveHoles(thread: array<Msg>, s: Source) returns (o: Outcome)
    requires Filed(s.local)
    modifies thread
    ensures o.Miss? <==> EndsInHole(old(thread[..]))
    ensures o.FetchFailed? <==> !EndsInHole(old(thread[..])) && Fetched(s, Holes(old(thread[..]))).None?
    ensures o.Resolved? <==> !EndsInHole(old(thread[..])) && AllResolvable(s, old(thread[..]))
    ensures o.Miss? || o.FetchFailed? ==> thread[..] == old(thread[..])
    ensures o.Resolved? ==> FilledTo(s, old(thread[..]), thread[..], thread.Length)
    ensures o.NoResolution? ==> exists n: nat :: StoppedAt(s, old(thread[..]), n) && old(thread[..])[n].id == o.id && FilledTo(s, old(thread[..]), thread[..], n)
  {
    var miss, ids := GatherHoles(thread);
    if miss { return Miss; }
    if ids == [] {
      NoHoles(s, thread[..]);
      return Resolved;
    }
    var res := GetMessages(s, ids);
    if res.None? { return FetchFailed; }
    var msgMap := MakeTable(res.value);
    o := FillHoles(thread, s, res.value, msgMap);
  }

  lemma NoHoles(s: Source, ms: seq<Msg>)
    requires Holes(ms) == []
    ensures AllResolvable(s, ms) && FilledTo(s, ms, ms, |ms|)
  {
    forall i | 0 <= i < |ms| ensures !ms[i].IsPlaceholder() { HolesAre(ms, ms[i].id); }
  }
}
