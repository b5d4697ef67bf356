/**
 One delivery pass over a conversation's pending records (go/chat/deliverer.go:709-789), and what
 cancelling duplicate reactions does to the state the server ends up in.
 */
module Deliverer {
  import opened OutboxRecords

  const MaxAttempts := 180
  const HourMillis := 3600000

  /** The error classes that doNotRetryFailure tells apart. */
  datatype SendError =
    | Unboxing(permanent: bool)
    | Info(immediate: bool, typ: ErrorType)
    | Net(temporary: bool)
    | ServerTimeout
    | DuplicateConnection
    | OtherError

  datatype TaskStatus = TaskDone | TaskInProgress | TaskFailed(err: SendError)

  datatype SendResult = Sent | Failed(err: SendError)

  /** What the world answers while one record is processed. */
  datatype Env = Env(connected: bool, now: Time, stillConnected: bool, offlineTooLong: bool,
                     task: TaskStatus, send: SendResult)

  datatype Verdict = GiveUp(typ: ErrorType) | Retry

  function DoNotRetryFailure(r: Record, e: Env, err: SendError): Verdict {
    if r.state.Sending? && r.state.attempts >= MaxAttempts then GiveUp(TOOMANYATTEMPTS)
    else if !e.stillConnected && e.offlineTooLong then GiveUp(OFFLINE)
    else match err
      case Unboxing(permanent) => if permanent then GiveUp(MISC) else Retry
      case Info(immediate, typ) => if immediate then GiveUp(typ) else Retry
      case Net(temporary) => if temporary then Retry else GiveUp(OFFLINE)
      case ServerTimeout | DuplicateConnection => Retry
      case OtherError => GiveUp(MISC)
  }

  function FailMessage(rs: seq<Record>, r: Record, typ: ErrorType): seq<Record> {
    match typ
    case TOOMANYATTEMPTS => MarkConvAsError(rs, r.conv, typ)
    case DUPLICATE | ALREADY_DELETED => RemoveMessage(rs, r.id)
    case _ => MarkAsError(rs, r, typ)
  }

  /** The error branch at the end of the loop body. */
  function HandleFailure(rs: seq<Record>, r: Record, e: Env, err: SendError): seq<Record> {
    match DoNotRetryFailure(r, e, err)
    case GiveUp(typ) => FailMessage(rs, r, typ)
    case Retry => if err.DuplicateConnection? then rs else RecordFailedAttempt(rs, r)
  }

  /** The record at i fails with this error type. */
  predicate FailsAt(rs: seq<Record>, i: nat, typ: ErrorType, rs': seq<Record>) {
    i < |rs| && rs' == rs[i := rs[i].(state := Error(typ))]
  }

  /** Every pending record of the conversation fails. */
  predicate FailsAll(rs: seq<Record>, conv: ConvID, typ: ErrorType, rs': seq<Record>) {
    |rs'| == |rs| && forall j :: 0 <= j < |rs| ==>
      rs'[j] == if rs[j].conv == conv && rs[j].state.Sending? then rs[j].(state := Error(typ)) else rs[j]
  }

  /** What a failure leaves of a pending record, error by error: at the last attempt the whole conversation fails; off
      line for too long the record fails; then passing errors count an attempt, a duplicate connection changes nothing,
      duplicates and already deleted messages go, and everything else fails with its type. */
  lemma FailureLeavesPending(rs: seq<Record>, r: Record, e: Env, err: SendError, i: nat)
    requires DistinctIDs(rs) && i < |rs| && rs[i].id == r.id && rs[i].state.Sending? && r.state.Sending?
    ensures var rs' := HandleFailure(rs, r, e, err);
      if r.state.attempts >= 180 then FailsAll(rs, r.conv, TOOMANYATTEMPTS, rs')
      else if !e.stillConnected && e.offlineTooLong then FailsAt(rs, i, OFFLINE, rs')
      else match err
        case Unboxing(false) | Info(false, _) | Net(true) | ServerTimeout => rs' == rs[i := rs[i].(state := Sending(rs[i].state.attempts + 1))]
        case DuplicateConnection => rs' == rs
        case Unboxing(true) | OtherError => FailsAt(rs, i, MISC, rs')
        case Net(false) => FailsAt(rs, i, OFFLINE, rs')
        case Info(true, TOOMANYATTEMPTS) => FailsAll(rs, r.conv, TOOMANYATTEMPTS, rs')
        case Info(true, DUPLICATE) | Info(true, ALREADY_DELETED) => rs' == rs[..i] + rs[i + 1..]
        case Info(true, typ) => FailsAt(rs, i, typ, rs')
  {
    OthersKeep(rs, i);
    hide Keep, SortByCtime;
    assert forall j :: 0 <= j < |rs| && j != i ==> rs[j].id != r.id;
  }

  lemma {:induction false} KeepAll(rs: seq<Record>, id: OutboxID)
    requires forall x :: x in rs ==> x.id != id
    ensures RemoveMessage(rs, id) == rs
  {
    if rs != [] {
      KeepAll(rs[..|rs| - 1], id);
      assert rs == rs[..|rs| - 1] + [rs[|rs| - 1]];
    }
  }

  lemma {:induction false} OthersKeep(rs: seq<Record>, i: nat)
    requires DistinctIDs(rs) && i < |rs|
    ensures RemoveMessage(rs, rs[i].id) == rs[..i] + rs[i + 1..]
  {
    var n := |rs| - 1;
    if i == n {
      KeepAll(rs[..n], rs[i].id);
      assert rs[..n] + [] == rs[..n];
    } else {
      OthersKeep(rs[..n], i);
      assert rs[..i] + rs[i + 1..] == rs[..n][..i] + rs[..n][i + 1..] + [rs[n]];
    }
  }

  /** `given` says the sender was called, `delivered` that it succeeded, `stop` that the loop breaks. */
  datatype Turn = Turn(outbox: seq<Record>, given: bool, delivered: bool, stop: bool)

  function Fail(rs: seq<Record>, r: Record, e: Env, err: SendError, given: bool): Turn {
    Turn(HandleFailure(rs, r, e, err), given, false, !r.kind.Unfurl?)
  }

  function Send(rs: seq<Record>, r: Record, e: Env): Turn {
    match e.send
    case Sent => Turn(RemoveMessage(rs, r.id), true, true, false)
    case Failed(err) => Fail(rs, r, e, err, true)
  }

  predicate HasReaction(rs: seq<Record>, r: Record) {
    exists i :: 0 <= i < |rs| && rs[i].id == r.id && rs[i].conv == r.conv && rs[i].kind.Reaction?
  }

  predicate OddDuplicates(rs: seq<Record>, r: Record) {
    (|rs| - |CancelDuplicates(rs, r)|) % 2 == 1
  }

  /** The reaction itself goes too when it has an odd number of duplicates. */
  function AfterCancel(rs: seq<Record>, r: Record): seq<Record> {
    var rs' := CancelDuplicates(rs, r);
    if HasReaction(rs, r) && OddDuplicates(rs, r) then RemoveMessage(rs', r.id) else rs'
  }

  predicate AbortsSend(rs: seq<Record>, r: Record) {
    !HasReaction(rs, r) || OddDuplicates(rs, r)
  }

  /** Cancel the pending duplicates of a reaction; send it only if it is pending and their number is even. */
  function SendReaction(rs: seq<Record>, r: Record, e: Env): Turn {
    var rs' := AfterCancel(rs, r);
    if AbortsSend(rs, r) then Turn(rs', false, false, false) else Send(rs', r, e)
  }

  predicate NeedsTask(r: Record) {
    r.kind.Attachment? || r.kind.Unfurl? || r.kind.Flip?
  }

  /** The record fails before the duplicate check: offline, or pending for more than an hour. */
  predicate FailsEarly(r: Record, e: Env) {
    !e.connected || e.now - r.ctime > HourMillis
  }

  function EarlyError(e: Env): SendError {
    if !e.connected then Info(false, MISC) else Info(true, EXPIRED)
  }

  function Process(rs: seq<Record>, r: Record, e: Env): Turn {
    if FailsEarly(r, e) then Fail(rs, r, e, EarlyError(e), false)
    else if NeedsTask(r) && e.task.TaskFailed? then Fail(rs, r, e, e.task.err, false)
    else if NeedsTask(r) && e.task.TaskInProgress? then Turn(rs, false, false, false)
    else if r.kind.Reaction? then SendReaction(rs, r, e)
    else Send(rs, r, e)
  }

  /******* A turn in two halves, between which the world goes on *******/

  /** What comes after a half: the pass ends, the next record, or the send whose answer the second half gets. */
  datatype After = Stops | GoesOn | Sends

  datatype Half = Half(outbox: seq<Record>, delivered: bool, after: After)

  function HalfFail(rs: seq<Record>, r: Record, e: Env, err: SendError): Half {
    Half(HandleFailure(rs, r, e, err), false, if r.kind.Unfurl? then GoesOn else Stops)
  }

  /** Up to the send: the early checks, the background task and the cancelling of duplicate reactions. */
  function Begin(rs: seq<Record>, r: Record, e: Env): Half {
    if FailsEarly(r, e) then HalfFail(rs, r, e, EarlyError(e))
    else if NeedsTask(r) && e.task.TaskFailed? then HalfFail(rs, r, e, e.task.err)
    else if NeedsTask(r) && e.task.TaskInProgress? then Half(rs, false, GoesOn)
    else if r.kind.Reaction? then Half(AfterCancel(rs, r), false, if AbortsSend(rs, r) then GoesOn else Sends)
    else Half(rs, false, Sends)
  }

  /** From the answer of the send on. */
  function Complete(rs: seq<Record>, r: Record, e: Env): Half {
    match e.send
    case Sent => Half(RemoveMessage(rs, r.id), true, GoesOn)
    case Failed(err) => HalfFail(rs, r, e, err)
  }

  function HalfTurn(rs: seq<Record>, r: Record, e: Env, sending: bool): Half {
    if sending then Complete(rs, r, e) else Begin(rs, r, e)
  }

  /** With nothing in between, the two halves are the loop body. */
  lemma TurnIsTwoHalves(rs: seq<Record>, r: Record, e: Env)
    ensures var b, t := Begin(rs, r, e), Process(rs, r, e);
      var h := if b.after.Sends? then Complete(b.outbox, r, e) else b;
      && t.outbox == h.outbox && t.delivered == h.delivered && t.given == b.after.Sends? && t.stop == h.after.Stops?
  {
    hide HandleFailure, AfterCancel, AbortsSend, RemoveMessage;
  }

  /******* A pass *******/

  datatype PassResult = PassResult(outbox: seq<Record>, delivered: seq<Record>)

  /** deliverForConv from index i of the snapshot on. */
  function Pass(rs: seq<Record>, snap: seq<Record>, envs: seq<Env>, i: nat): PassResult
    requires i <= |snap| == |envs|
    decreases |snap| - i
  {
    if i == |snap| then PassResult(rs, [])
    else
      var t := Process(rs, snap[i], envs[i]);
      var sent := if t.delivered then [snap[i]] else [];
      if t.stop then PassResult(t.outbox, sent)
      else
        var p := Pass(t.outbox, snap, envs, i + 1);
        p.(delivered := sent + p.delivered)
  }

  /** The result of a pass that had delivered these records before. */
  function Following(delivered: seq<Record>, p: PassResult): PassResult {
    p.(delivered := delivered + p.delivered)
  }

  lemma PassNext(rs: seq<Record>, snap: seq<Record>, envs: seq<Env>, i: nat, before: seq<Record>)
    requires i < |snap| == |envs|
    ensures var t := Process(rs, snap[i], envs[i]);
      var now := if t.delivered then before + [snap[i]] else before;
      Following(before, Pass(rs, snap, envs, i)) == if t.stop then PassResult(t.outbox, now) else Following(now, Pass(t.outbox, snap, envs, i + 1))
  {
    hide Process;
    var t := Process(rs, snap[i], envs[i]);
    if !t.stop {
      var rest := Pass(t.outbox, snap, envs, i + 1).delivered;
      assert before + ([snap[i]] + rest) == before + [snap[i]] + rest && [] + rest == rest;
    } else {
      assert before + [] == before;
    }
  }

  lemma PassDone(rs: seq<Record>, snap: seq<Record>, envs: seq<Env>)
    requires |snap| == |envs|
    ensures Pass(rs, snap, envs, |snap|) == PassResult(rs, [])
    ensures Following([], Pass(rs, snap, envs, 0)) == Pass(rs, snap, envs, 0)
  {
    hide Process;
    assert [] + Pass(rs, snap, envs, 0).delivered == Pass(rs, snap, envs, 0).delivered;
  }
}

/** deliverForConv on the outbox object. */
module DelivererLoop {
  import opened OutboxRecords
  import opened OutboxStorage
  import D = Deliverer

  class ConvDeliverer {
    var outbox: OutboxStore

    constructor (o: OutboxStore)
      ensures outbox == o
    {
      outbox := o;
    }

    method HandleFailure(r: Record, e: D.Env, err: D.SendError)
      modifies outbox
      ensures outbox.records == D.HandleFailure(old(outbox.records), r, e, err)
    {
      match D.DoNotRetryFailure(r, e, err)
      case GiveUp(typ) =>
        match typ {
          case TOOMANYATTEMPTS => outbox.MarkConvAsError(r.conv, typ);
          case DUPLICATE => outbox.RemoveMessage(r.id);
          case ALREADY_DELETED => outbox.RemoveMessage(r.id);
          case _ => outbox.MarkAsError(r, typ);
        }
      case Retry =>
        if !err.DuplicateConnection? { outbox.RecordFailedAttempt(r); }
    }

    method CancelPendingDuplicateReactions(r: Record) returns (canceled: bool)
      modifies outbox
      ensures r.kind.Reaction? ==>
                canceled == D.AbortsSend(old(outbox.records), r) && outbox.records == D.AfterCancel(old(outbox.records), r)
      ensures !r.kind.Reaction? ==> !canceled && outbox.records == old(outbox.records)
    {
      if !r.kind.Reaction? { return false; }
      var numCanceled, inOutbox := outbox.CancelDuplicates(r);
      if !inOutbox { return true; }
      if numCanceled % 2 == 1 {
        outbox.RemoveMessage(r.id);
        return true;
      }
      return false;
    }

    /** The body of the delivery loop; `stop` is its break. */
    method DeliverOne(obr: Record, e: D.Env) returns (delivered: bool, stop: bool)
      modifies outbox
      ensures var t := D.Process(old(outbox.records), obr, e);
        outbox.records == t.outbox && delivered == t.delivered && stop == t.stop
    {
      hide D.HandleFailure, D.AfterCancel, D.AbortsSend, D.HasReaction;
      delivered, stop := false, false;
      var err: Outcome := NoError;
      if !e.connected {
        err := SomeError(D.Info(false, MISC));
      } else if e.now - obr.ctime > D.HourMillis {
        err := SomeError(D.Info(true, EXPIRED));
      } else if D.NeedsTask(obr) && e.task.TaskFailed? {
        err := SomeError(e.task.err);
      } else if D.NeedsTask(obr) && e.task.TaskInProgress? {
        return;
      } else {
        var canceled := CancelPendingDuplicateReactions(obr);
        if canceled { return; }
        err := match e.send case Sent => NoError case Failed(x) => SomeError(x);
      }
      if err.SomeError? {
        HandleFailure(obr, e, err.err);
        stop := !obr.kind.Unfurl?;
      } else {
        outbox.RemoveMessage(obr.id);
        delivered := true;
      }
    }

    method DeliverForConv(obrs: seq<Record>, envs: seq<D.Env>) returns (delivered: seq<Record>)
      requires |obrs| == |envs|
      modifies outbox
      ensures var p := D.Pass(old(outbox.records), obrs, envs, 0);
        outbox.records == p.outbox && delivered == p.delivered
    {
      hide D.Process, D.Pass;
      delivered := [];
      D.PassDone(outbox.records, obrs, envs);
      for i := 0 to |obrs|
        invariant D.Pass(old(outbox.records), obrs, envs, 0) == D.Following(delivered, D.Pass(outbox.records, obrs, envs, i))
      {
        D.PassNext(outbox.records, obrs, envs, i, delivered);
        var sent, stop := DeliverOne(obrs[i], envs[i]);
        if sent { delivered := delivered + [obrs[i]]; }
        if stop { return; }
      }
      D.PassDone(outbox.records, obrs, envs);
      assert delivered + [] == delivered;
    }
  }

  datatype Outcome = NoError | SomeError(err: D.SendError)
}
