/** The manager's methods on the marks in place (go/chat/flipmanager.go:1102-1183, 1245-1250). */
module FlipManagerObject {
  import opened Wrappers
  import F = FlipInjection

  datatype Error = NoError | InvalidMessage | NotFlip | FromThePast | PullFailed

  function InjectError(msg: F.Msg): Error {
    if !msg.valid then InvalidMessage else if !msg.sent && !msg.flip then NotFlip else NoError
  }

  /** What the caller is told: the past and a failed pull are errors, everything else is up to the arrival. */
  function UpdateError(s: F.State, g: F.Game, next: F.Msg, pulled: Option<seq<F.Msg>>): Error {
    if F.PlanFor(s, g, next).Ignore? then FromThePast
    else if F.PlanFor(s, g, next).Refilled? && pulled.None? then PullFailed
    else InjectError(next)
  }

  /** The error of an arrival, case by case. */
  lemma ErrorIs(s: F.State, g: F.Game, next: F.Msg, pulled: Option<seq<F.Msg>>)
    ensures var err := UpdateError(s, g, next, pulled);
      if g in s.marks && next.id <= s.marks[g] then err == FromThePast
      else if pulled.None? && (if g in s.marks then next.id != s.marks[g] + 1 else next.id != 3) then err == PullFailed
      else if !next.valid then err == InvalidMessage
      else if next.sent || next.flip then err == NoError
      else err == NotFlip
  {
  }

  /** An arrival without error is dealt, unless this device sent it; one with an error is not. */
  lemma NoErrorIsDealt(s: F.State, g: F.Game, next: F.Msg, pulled: Option<seq<F.Msg>>)
    ensures UpdateError(s, g, next, pulled).NoError? && !next.sent ==>
      var r := F.Update(s, g, next, pulled); r.dealt != [] && r.dealt[|r.dealt| - 1] == F.Injection(g, next.id)
    ensures UpdateError(s, g, next, pulled).FromThePast? || UpdateError(s, g, next, pulled).PullFailed? ==> F.Update(s, g, next, pulled) == s
  {
    hide F.Scan, F.InjectAll;
  }

  class FlipManager {
    var gameMsgIDs: map<F.Game, nat>
    var dealt: seq<F.Injection>

    function Abs(): F.State
      reads this
    {
      F.State(gameMsgIDs, dealt)
    }

    constructor ()
      ensures Abs() == F.Run([])
    {
      gameMsgIDs, dealt := map[], [];
    }

    method InjectIncomingChat(g: F.Game, msg: F.Msg) returns (err: Error)
      modifies this
      ensures Abs() == F.Inject(old(Abs()), g, msg)
      ensures err == InjectError(msg)
    {
      if !msg.valid { return InvalidMessage; }
      if msg.sent { return NoError; }
      if !msg.flip { return NotFlip; }
      gameMsgIDs := gameMsgIDs[g := msg.id];
      dealt := dealt + [F.Injection(g, msg.id)];
      err := NoError;
    }

    method UpdateActiveGame(g: F.Game, next: F.Msg, pulled: Option<seq<F.Msg>>) returns (err: Error)
      modifies this
      ensures Abs() == F.Update(old(Abs()), g, next, pulled)
      ensures err == UpdateError(old(Abs()), g, next, pulled)
    {
      var start := 0;
      if g in gameMsgIDs {
        var stored := gameMsgIDs[g];
        if next.id == stored + 1 {
          err := InjectIncomingChat(g, next);
          return;
        } else if next.id <= stored {
          return FromThePast;
        }
        start := stored;
      } else if next.id == F.StartMsgID {
        err := InjectIncomingChat(g, next);
        return;
      }
      if pulled.None? { return PullFailed; }
      InjectGap(g, pulled.value, start, next.id);
      err := InjectIncomingChat(g, next);
    }

    method InjectGap(g: F.Game, thread: seq<F.Msg>, start: nat, next: nat)
      modifies this
      ensures Abs() == F.InjectAll(old(Abs()), g, F.Scan(thread, F.Played(thread), start, next))
    {
      var i := |thread| - 3;
      ghost var done := [];
      while i >= 0
        invariant -3 <= i < |thread|
        invariant i < -1 ==> |thread| < 2
        invariant Abs() == F.InjectAll(old(Abs()), g, done)
        invariant F.Scan(thread, F.Played(thread), start, next) == done + F.Scan(thread, if i < 0 then 0 else i + 1, start, next)
      {
        var msg := thread[i];
        i := i - 1;
        if msg.id <= start { continue; }
        if msg.id >= next { break; }
        var _ := InjectIncomingChat(g, msg);
        assert (done + [msg])[..|done|] == done;
        done := done + [msg];
      }
      assert done + [] == done;
    }

    /** A message of this device only moves the mark: what the game got up to it now counts as the past, the one
        after it goes straight to the dealer, and later ones refill from it. */
    method OwnMessage(g: F.Game, id: nat)
      modifies this
      ensures Abs() == F.Step(old(Abs()), F.Own(g, id)) && dealt == old(dealt)
      ensures forall next: F.Msg :: F.PlanFor(Abs(), g, next) == (if next.id <= id then F.Ignore else if next.id == id + 1 then F.Direct else F.Refilled(id))
      ensures forall h: F.Game, next: F.Msg :: h != g ==> F.PlanFor(Abs(), h, next) == F.PlanFor(old(Abs()), h, next)
    {
      gameMsgIDs := gameMsgIDs[g := id];
    }
  }
}
