/**
 The outbox: an ordered list of records, each change of which reads the list, rewrites it and stores
 it under the outbox lock (go/chat/storage/outbox.go).
 */
module OutboxRecords {

  type OutboxID = nat
  type ConvID = nat
  type Time = int

  /** Attachments, unfurls and flips wait for a background task; reactions may cancel each other. */
  datatype Kind = Plain | Attachment | Unfurl | Flip | Reaction(text: string, target: nat)

  datatype ErrorType = MISC | OFFLINE | IDENTIFY | TOOLONG | DUPLICATE | EXPIRED | TOOMANYATTEMPTS
                     | ALREADY_DELETED | UPLOADFAILED | RESTRICTEDBOT | MINWRITER

  datatype SendState = Sending(attempts: nat) | Error(typ: ErrorType)

  /** Outbox IDs are random and distinct in the source; here they are numbered in the order of pushes. */
  datatype Record = Record(id: OutboxID, conv: ConvID, kind: Kind, ctime: Time, state: SendState)

  ghost predicate DistinctIDs(rs: seq<Record>) {
    forall i, j :: 0 <= i < j < |rs| ==> rs[i].id != rs[j].id
  }

  ghost predicate Has(rs: seq<Record>, id: OutboxID) {
    exists i :: 0 <= i < |rs| && rs[i].id == id
  }

  /******* What each operation makes of the list *******/

  function Keep(rs: seq<Record>, f: Record -> bool): (r: seq<Record>)
    ensures |r| <= |rs|
    ensures forall x :: x in r <==> x in rs && f(x)
  {
    if rs == [] then []
    else Keep(rs[..|rs| - 1], f) + if f(rs[|rs| - 1]) then [rs[|rs| - 1]] else []
  }

  function Map(rs: seq<Record>, f: Record -> Record): (r: seq<Record>)
    ensures |r| == |rs| && forall i :: 0 <= i < |rs| ==> r[i] == f(rs[i])
  {
    if rs == [] then [] else Map(rs[..|rs| - 1], f) + [f(rs[|rs| - 1])]
  }

  function Insert(rs: seq<Record>, r: Record): seq<Record> {
    if rs == [] || rs[|rs| - 1].ctime <= r.ctime then rs + [r]
    else Insert(rs[..|rs| - 1], r) + [rs[|rs| - 1]]
  }

  /** sort.Sort(ByCtimeOrder) does not order records of equal ctime; this picks their stored order. */
  function SortByCtime(rs: seq<Record>): seq<Record> {
    if rs == [] then [] else Insert(SortByCtime(rs[..|rs| - 1]), rs[|rs| - 1])
  }

  function Pending(rs: seq<Record>, conv: ConvID): seq<Record> {
    Keep(rs, (r: Record) => r.conv == conv && r.state.Sending?)
  }

  function Bump(r: Record): Record {
    if r.state.Sending? then r.(state := Sending(r.state.attempts + 1)) else r
  }

  function RecordFailedAttempt(rs: seq<Record>, r: Record): seq<Record> {
    if exists i :: 0 <= i < |rs| && rs[i].id == r.id
    then Map(rs, (x: Record) => if x.id == r.id then Bump(x) else x)
    else SortByCtime(rs + [Bump(r)])
  }

  function MarkAsError(rs: seq<Record>, r: Record, typ: ErrorType): seq<Record> {
    if exists i :: 0 <= i < |rs| && rs[i].id == r.id
    then Map(rs, (x: Record) => if x.id == r.id then x.(state := Error(typ)) else x)
    else SortByCtime(rs + [r.(state := Error(typ))])
  }

  function MarkConvAsError(rs: seq<Record>, conv: ConvID, typ: ErrorType): seq<Record> {
    Map(rs, (x: Record) => if x.conv == conv && x.state.Sending? then x.(state := Error(typ)) else x)
  }

  function RemoveMessage(rs: seq<Record>, id: OutboxID): seq<Record> {
    Keep(rs, (x: Record) => x.id != id)
  }

  /** The predicate that cancelPendingDuplicateReactions hands to the outbox. */
  predicate Duplicates(x: Record, r: Record) {
    x.conv == r.conv && x.kind.Reaction? && x.kind == r.kind && x.id != r.id
  }

  function CancelDuplicates(rs: seq<Record>, r: Record): seq<Record> {
    Keep(rs, (x: Record) => !Duplicates(x, r))
  }
}

/** The outbox object and the loops that rewrite its list. */
module OutboxStorage {
  import opened OutboxRecords
  import R = OutboxRecords

  class OutboxStore {
    var records: seq<Record>

    constructor ()
      ensures records == []
    {
      records := [];
    }

    method PushMessage(r: Record)
      modifies this
      ensures records == old(records) + [r]
      ensures forall c :: Pending(records, c) == Pending(old(records), c) + if c == r.conv && r.state.Sending? then [r] else []
      ensures DistinctIDs(old(records)) && !Has(old(records), r.id) ==> DistinctIDs(records)
    {
      assert (records + [r])[..|records|] == records;
      records := records + [r];
    }

    method PullConversation(conv: ConvID) returns (res: seq<Record>)
      ensures res == Pending(records, conv)
    {
      res := [];
      for i := 0 to |records|
        invariant res == Pending(records[..i], conv)
      {
        assert records[..i + 1][..i] == records[..i];
        if records[i].conv == conv && records[i].state.Sending? { res := res + [records[i]]; }
      }
      assert records[..|records|] == records;
    }

    method RemoveMessage(id: OutboxID)
      modifies this
      ensures records == R.RemoveMessage(old(records), id)
    {
      var recs := [];
      for i := 0 to |records|
        invariant records == old(records) && recs == R.RemoveMessage(records[..i], id)
      {
        assert records[..i + 1][..i] == records[..i];
        if records[i].id != id { recs := recs + [records[i]]; }
      }
      assert records[..|records|] == records;
      records := recs;
    }

    /** CancelMessagesWithPredicate with the duplicate-reaction predicate, which also notes whether
        the record itself is still in the outbox. */
    method CancelDuplicates(r: Record) returns (numCanceled: nat, inOutbox: bool)
      requires r.kind.Reaction?
      modifies this
      ensures records == R.CancelDuplicates(old(records), r)
      ensures numCanceled == |old(records)| - |records|
      ensures inOutbox == exists i :: 0 <= i < |old(records)| && old(records)[i].id == r.id
                                      && old(records)[i].conv == r.conv && old(records)[i].kind.Reaction?
    {
      var recs := [];
      numCanceled, inOutbox := 0, false;
      for i := 0 to |records|
        invariant records == old(records) && recs == R.CancelDuplicates(records[..i], r)
        invariant numCanceled == i - |recs|
        invariant inOutbox == exists k :: 0 <= k < i && records[k].id == r.id && records[k].conv == r.conv && records[k].kind.Reaction?
      {
        assert records[..i + 1][..i] == records[..i];
        var o := records[i];
        if o.conv == r.conv && o.kind.Reaction? {
          inOutbox := inOutbox || o.id == r.id;
        }
        if o.conv == r.conv && o.kind.Reaction? && o.kind == r.kind && o.id != r.id {
          numCanceled := numCanceled + 1;
        } else {
          recs := recs + [o];
        }
      }
      assert records[..|records|] == records;
      records := recs;
    }

    method RecordFailedAttempt(r: Record)
      modifies this
      ensures records == R.RecordFailedAttempt(old(records), r)
    {
      var recs, added := [], false;
      for i := 0 to |records|
        invariant records == old(records) && |recs| == i
        invariant added == exists k :: 0 <= k < i && records[k].id == r.id
        invariant forall k :: 0 <= k < i ==> recs[k] == if records[k].id == r.id then Bump(records[k]) else records[k]
      {
        var o := records[i];
        if o.id == r.id {
          if o.state.Sending? { o := o.(state := Sending(o.state.attempts + 1)); }
          added := true;
        }
        recs := recs + [o];
      }
      if !added {
        assert recs == records;
        recs := SortByCtime(recs + [Bump(r)]);
      }
      records := recs;
    }

    method MarkAsError(r: Record, typ: ErrorType)
      modifies this
      ensures records == R.MarkAsError(old(records), r, typ)
    {
      var recs, added := [], false;
      for i := 0 to |records|
        invariant records == old(records) && |recs| == i
        invariant added == exists k :: 0 <= k < i && records[k].id == r.id
        invariant forall k :: 0 <= k < i ==> recs[k] == if records[k].id == r.id then records[k].(state := Error(typ)) else records[k]
      {
        var o := records[i];
        if o.id == r.id {
          o := o.(state := Error(typ));
          added := true;
        }
        recs := recs + [o];
      }
      if !added {
        assert recs == records;
        recs := SortByCtime(recs + [r.(state := Error(typ))]);
      }
      records := recs;
    }

    method MarkConvAsError(conv: ConvID, typ: ErrorType)
      modifies this
      ensures records == R.MarkConvAsError(old(records), conv, typ)
    {
      var recs := [];
      for i := 0 to |records|
        invariant records == old(records) && |recs| == i
        invariant forall k :: 0 <= k < i ==>
          recs[k] == if records[k].conv == conv && records[k].state.Sending? then records[k].(state := Error(typ)) else records[k]
      {
        var o := records[i];
        if o.conv == conv && o.state.Sending? { o := o.(state := Error(typ)); }
        recs := recs + [o];
      }
      records := recs;
    }
  }
}
