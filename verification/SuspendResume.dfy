/**
 The loader's counted suspend and resume over channels (go/chat/convloader.go:202-240, 287-320,
 348-419), together with the loops that wait on those channels.
 */
module SuspendResume {

  type Chan = nat

  const SuspendBuffer := 10

  /** `buffer` is suspendCh; `held` the resume channels that loops are blocked on; `made` counts the
      resume channels created so far, and `closed` holds those that were closed. */
  datatype Loader = Loader(started: bool, suspendCount: nat, resumeCh: ChanRef, buffer: seq<Chan>,
                           held: multiset<Chan>, made: nat, closed: set<Chan>)

  datatype ChanRef = Nil | Ch(ch: Chan)

  datatype Step =
    | Start
    | Stop
    | Suspend
    | Resume
    | LoopReceives
    | LoopResumes(ch: Chan)
    | LoopStops(ch: Chan)

  predicate Enabled(l: Loader, s: Step) {
    match s
    case LoopReceives => l.buffer != []
    case LoopResumes(ch) => ch in l.held && ch in l.closed
    case LoopStops(ch) => ch in l.held
    case _ => true
  }

  /** Suspend is ignored while stopped; a full buffer drops the channel but still counts. */
  function DoSuspend(l: Loader): Loader {
    if !l.started then l
    else if l.suspendCount > 0 then l.(suspendCount := l.suspendCount + 1)
    else
      l.(suspendCount := 1, resumeCh := Ch(l.made), made := l.made + 1,
         buffer := if |l.buffer| < SuspendBuffer then l.buffer + [l.made] else l.buffer)
  }

  /** The last Resume closes the current resume channel. */
  predicate Closes(l: Loader) {
    l.suspendCount == 1 && l.resumeCh.Ch?
  }

  function DoResume(l: Loader): Loader {
    if l.suspendCount == 0 then l
    else
      l.(suspendCount := l.suspendCount - 1,
         closed := if Closes(l) then l.closed + {l.resumeCh.ch} else l.closed)
  }

  function Next(l: Loader, s: Step): Loader
    requires Enabled(l, s)
  {
    match s
    case Start => l.(started := true)
    case Stop => l.(started := false)
    case Suspend => DoSuspend(l)
    case Resume => DoResume(l)
    case LoopReceives => l.(buffer := l.buffer[1..], held := l.held + multiset{l.buffer[0]})
    case LoopResumes(ch) => l.(held := l.held - multiset{ch})
    case LoopStops(ch) => l.(held := l.held - multiset{ch})
  }

  /** A resume channel that was made and is not closed yet. */
  predicate IsOpen(l: Loader, c: Chan) {
    c < l.made && c !in l.closed
  }

  /** A loop is blocked on this channel now, or will be once it reads the buffer. */
  predicate Awaited(l: Loader, c: Chan) {
    c in l.held || c in l.buffer
  }

  /** The one open channel exists exactly while suspended and is the current one; loops only ever see
      channels that exist. */
  ghost predicate Inv(l: Loader) {
    && (l.suspendCount > 0 ==> l.resumeCh.Ch?)
    && (forall c: Chan :: IsOpen(l, c) <==> l.suspendCount > 0 && l.resumeCh == Ch(c))
    && (forall c: Chan :: Awaited(l, c) ==> c < l.made)
    && (forall c :: c in l.closed ==> c < l.made)
    && |l.buffer| <= SuspendBuffer
  }

  /** No step closes a channel twice, and every step keeps the invariant. */
  lemma StepKeepsInv(l: Loader, s: Step)
    requires Inv(l) && Enabled(l, s)
    ensures Inv(Next(l, s))
    ensures s.Resume? && Closes(l) ==> l.resumeCh.ch !in l.closed
  {
    var l' := Next(l, s);
    if s.Resume? && Closes(l) { assert IsOpen(l, l.resumeCh.ch); }
    forall c: Chan ensures IsOpen(l', c) <==> l'.suspendCount > 0 && l'.resumeCh == Ch(c) {
      assert IsOpen(l, c) <==> l.suspendCount > 0 && l.resumeCh == Ch(c);
    }
    if s.LoopReceives? { assert l.buffer == [l.buffer[0]] + l'.buffer; }
    forall c: Chan | Awaited(l', c) ensures c < l'.made {
      assert Awaited(l, c) || c == l.made;
    }
  }

  ghost predicate IsRun(l: Loader, steps: seq<Step>)
    decreases |steps|
  {
    steps == [] || (Enabled(l, steps[0]) && IsRun(Next(l, steps[0]), steps[1..]))
  }

  function Final(l: Loader, steps: seq<Step>): Loader
    requires IsRun(l, steps)
    decreases |steps|
  {
    if steps == [] then l else Final(Next(l, steps[0]), steps[1..])
  }

  const Fresh := Loader(false, 0, Nil, [], multiset{}, 0, {})

  lemma {:induction false} RunKeepsInv(l: Loader, steps: seq<Step>)
    requires Inv(l) && IsRun(l, steps)
    ensures Inv(Final(l, steps))
    decreases |steps|
  {
    if steps != [] {
      StepKeepsInv(l, steps[0]);
      RunKeepsInv(Next(l, steps[0]), steps[1..]);
    }
  }

  /** After any run: at most one resume channel is open, it is the current one, and it is open exactly
      while the loader is suspended. So a loop can be blocked only while the loader is suspended. */
  lemma BlockedOnlyWhileSuspended(steps: seq<Step>, c: Chan)
    requires IsRun(Fresh, steps)
    ensures var l := Final(Fresh, steps);
      && (IsOpen(l, c) <==> l.suspendCount > 0 && l.resumeCh == Ch(c))
      && (Awaited(l, c) && c !in l.closed ==> l.suspendCount > 0)
  {
    RunKeepsInv(Fresh, steps);
    var l := Final(Fresh, steps);
    assert Awaited(l, c) && c !in l.closed ==> IsOpen(l, c);
  }

  /** The loader is started exactly when the last of its starts and stops was a start. */
  function LastIsStart(steps: seq<Step>, before: bool): bool
    decreases |steps|
  {
    if steps == [] then before
    else LastIsStart(steps[1..], if steps[0].Start? then true else if steps[0].Stop? then false else before)
  }

  lemma {:induction false} StartedIs(l: Loader, steps: seq<Step>)
    requires IsRun(l, steps)
    ensures Final(l, steps).started == LastIsStart(steps, l.started)
    decreases |steps|
  {
    if steps != [] { StartedIs(Next(l, steps[0]), steps[1..]); }
  }

  /** A loop that goes on after a suspension has seen it end: its channel exists and is not the open one. */
  lemma LoopGoesOnAfterResume(steps: seq<Step>, ch: Chan)
    requires IsRun(Fresh, steps) && Enabled(Final(Fresh, steps), LoopResumes(ch))
    ensures var l := Final(Fresh, steps); ch < l.made && !IsOpen(l, ch) && (l.suspendCount > 0 ==> l.resumeCh != Ch(ch))
    ensures var l := Final(Fresh, steps); ch in l.held && Next(l, LoopResumes(ch)).held[ch] == l.held[ch] - 1
  {
    RunKeepsInv(Fresh, steps);
    var l := Final(Fresh, steps);
    assert Awaited(l, ch);
    hide IsRun, Final;
  }

  /** Suspending a started loader that is not suspended opens a new channel, which the loops get unless the buffer is
      full; suspending it again only counts. */
  lemma SuspendBlocks(l: Loader)
    requires Inv(l)
    ensures var l' := Next(l, Suspend);
      && (!l.started ==> l' == l)
      && (l.started ==> l'.suspendCount == l.suspendCount + 1 && l'.held == l.held && l'.closed == l.closed)
      && (l.started && l.suspendCount == 0 ==> IsOpen(l', l.made) && l'.resumeCh == Ch(l.made) && !Awaited(l, l.made))
      && (l.started && l.suspendCount == 0 && |l.buffer| < 10 ==> l'.buffer == l.buffer + [l.made])
      && (l.started && (l.suspendCount > 0 || |l.buffer| >= 10) ==> l'.buffer == l.buffer)
      && (l.started && l.suspendCount > 0 ==> l'.resumeCh == l.resumeCh && l'.made == l.made)
  {
  }

  /** The last resume closes the open channel, so no loop is blocked any more; an earlier one only counts. */
  lemma ResumeReleases(l: Loader, c: Chan)
    requires Inv(l)
    ensures var l' := Next(l, Resume);
      && l'.suspendCount == (if l.suspendCount == 0 then 0 else l.suspendCount - 1)
      && (l.suspendCount != 1 ==> l'.closed == l.closed)
      && (l.suspendCount == 1 ==> !IsOpen(l', c) && (Awaited(l, c) ==> c in l'.closed))
      && l' == l.(suspendCount := l'.suspendCount, closed := l'.closed)
  {
    StepKeepsInv(l, Resume);
    var l' := Next(l, Resume);
    assert Awaited(l, c) ==> c < l.made;
    assert IsOpen(l', c) <==> l'.suspendCount > 0 && l'.resumeCh == Ch(c);
  }

  /******* Whose suspension is it? *******/

  /** Suspends minus resumes, as the callers count them. */
  function Outstanding(steps: seq<Step>): int {
    if steps == [] then 0
    else (match steps[0] case Suspend => 1 case Resume => -1 case _ => 0) + Outstanding(steps[1..])
  }

  /** Suspends while stopped, which change nothing. */
  function IgnoredSuspends(l: Loader, steps: seq<Step>): nat
    requires IsRun(l, steps)
    decreases |steps|
  {
    if steps == [] then 0
    else (if steps[0].Suspend? && !l.started then 1 else 0) + IgnoredSuspends(Next(l, steps[0]), steps[1..])
  }

  /** Resumes while not suspended, which change nothing either. */
  function IgnoredResumes(l: Loader, steps: seq<Step>): nat
    requires IsRun(l, steps)
    decreases |steps|
  {
    if steps == [] then 0
    else (if steps[0].Resume? && l.suspendCount == 0 then 1 else 0) + IgnoredResumes(Next(l, steps[0]), steps[1..])
  }

  lemma {:induction false} CountIs(l: Loader, steps: seq<Step>)
    requires IsRun(l, steps)
    ensures Final(l, steps).suspendCount == l.suspendCount + Outstanding(steps) - IgnoredSuspends(l, steps) + IgnoredResumes(l, steps)
    decreases |steps|
  {
    if steps != [] { CountIs(Next(l, steps[0]), steps[1..]); }
  }

  /** After every run the loader counts what its callers count, if and only if as many suspends came while it
      was stopped as resumes came while it was not suspended. */
  lemma CountIsOutstandingIff(steps: seq<Step>)
    requires IsRun(Fresh, steps)
    ensures Final(Fresh, steps).suspendCount == Outstanding(steps) <==> IgnoredSuspends(Fresh, steps) == IgnoredResumes(Fresh, steps)
  {
    CountIs(Fresh, steps);
  }

  /** A suspend that is ignored while stopped lets its resume end somebody else's suspension. */
  lemma IgnoredSuspendEndsAnother()
    ensures var steps := [Start, Suspend, Stop, Suspend, Resume];
      IsRun(Fresh, steps) && Outstanding(steps) == 1 && Final(Fresh, steps).suspendCount == 0
  {
    var steps := [Start, Suspend, Stop, Suspend, Resume];
    var l1 := Next(Fresh, Start);
    var l2 := Next(l1, Suspend);
    var l3 := Next(l2, Stop);
    var l4 := Next(l3, Suspend);
    var s1, s2, s3, s4 := [Suspend, Stop, Suspend, Resume], [Stop, Suspend, Resume], [Suspend, Resume], [Resume];
    assert steps[1..] == s1 && s1[1..] == s2 && s2[1..] == s3 && s3[1..] == s4 && s4[1..] == [];
    assert IsRun(l4, s4) && Final(l4, s4).suspendCount == 0 && Outstanding(s4) == -1;
    hide Next;
    assert IsRun(l3, s3) && Final(l3, s3).suspendCount == 0 && Outstanding(s3) == 0;
    assert IsRun(l2, s2) && Final(l2, s2).suspendCount == 0 && Outstanding(s2) == 0;
    assert IsRun(l1, s1) && Final(l1, s1).suspendCount == 0 && Outstanding(s1) == 1;
  }

  /******* The loader object *******/

  class ConvLoader {
    var started: bool
    var suspendCount: nat
    var resumeCh: ChanRef
    var suspendCh: seq<Chan>
    var made: nat
    var closed: set<Chan>

    function Abs(held: multiset<Chan>): Loader
      reads this
    {
      Loader(started, suspendCount, resumeCh, suspendCh, held, made, closed)
    }

    constructor ()
      ensures Abs(multiset{}) == Fresh
    {
      started, suspendCount, resumeCh, suspendCh, made, closed := false, 0, Nil, [], 0, {};
    }

    /** Closing a closed channel would panic. */
    method Close(ch: Chan)
      requires ch !in closed
      modifies this`closed
      ensures closed == old(closed) + {ch}
    {
      closed := closed + {ch};
    }

    method DoSuspendLocked(ghost held: multiset<Chan>)
      requires Inv(Abs(held))
      modifies this
      ensures Abs(held) == DoSuspend(old(Abs(held)))
    {
      if !started { return; }
      if suspendCount == 0 {
        resumeCh := Ch(made);
        made := made + 1;
        if |suspendCh| < SuspendBuffer { suspendCh := suspendCh + [resumeCh.ch]; }
      }
      suspendCount := suspendCount + 1;
    }

    method DoResumeLocked(ghost held: multiset<Chan>) returns (resumed: bool)
      requires Inv(Abs(held))
      modifies this
      ensures Abs(held) == DoResume(old(Abs(held)))
      ensures resumed == old(Closes(Abs(held)))
    {
      if suspendCount > 0 {
        StepKeepsInv(Abs(held), Resume);
        suspendCount := suspendCount - 1;
        if suspendCount == 0 && resumeCh.Ch? {
          Close(resumeCh.ch);
          return true;
        }
      }
      return false;
    }
  }
}
