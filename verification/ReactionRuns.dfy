/** The parity of a reaction over whole runs of the deliverer, step by step (go/chat/deliverer.go:584-789). */
module ReactionRuns {
  import opened OutboxRecords
  import opened Deliverer
  import opened ReactionParity
  import opened DeliveryMachine

  /** Whether the user took back a pending toggle of k by removing its record. */
  predicate TakesBack(w: Delivery, ev: Event, k: Toggle) {
    ev.RemoveByUser? && ev.id in IDs(w.outbox, k)
  }

  /** Whether the step is half a turn that flips the parity of k. */
  predicate FlipsAt(w: Delivery, ev: Event, k: Toggle) {
    ev.TakeTurn? && ev.conv in w.passes && w.passes[ev.conv].at < |w.passes[ev.conv].snap| &&
    HalfFlips(w.outbox, Current(w, ev.conv), ev.env, w.passes[ev.conv].sending, k)
  }

  ghost function TakenBack(w: Delivery, evs: seq<Event>, k: Toggle): nat
    requires IsRun(w, evs)
    decreases |evs|
  {
    if evs == [] then 0 else (if TakesBack(w, evs[0], k) then 1 else 0) + TakenBack(Next(w, evs[0]), evs[1..], k)
  }

  ghost function FlipCount(w: Delivery, evs: seq<Event>, k: Toggle): nat
    requires IsRun(w, evs)
    decreases |evs|
  {
    if evs == [] then 0 else (if FlipsAt(w, evs[0], k) then 1 else 0) + FlipCount(Next(w, evs[0]), evs[1..], k)
  }

  /** Toggles pushed, received and still in the outbox. */
  ghost function Toggles(w: Delivery, k: Toggle): nat {
    Delivered(w.pushed, k) + Delivered(w.received, k) + |IDs(w.outbox, k)|
  }

  lemma DeliveredNext(rs: seq<Record>, r: Record, k: Toggle)
    ensures Delivered(rs + [r], k) == Delivered(rs, k) + if Is(r, k) then 1 else 0
  {
    assert (rs + [r])[..|rs|] == rs;
  }

  lemma QueueCounts(w: Delivery, conv: ConvID, kind: Kind, now: Time, k: Toggle)
    requires Inv(w)
    ensures Toggles(Next(w, Queue(conv, kind, now)), k) % 2 == Toggles(w, k) % 2
  {
    hide IDs, Delivered;
    var r := Record(|w.pushed|, conv, kind, now, Sending(0));
    assert forall x :: x in w.outbox ==> Known(w, x);
    DeliveredNext(w.pushed, r, k);
    IDsSnoc(w.outbox, r, k);
  }

  lemma SameKeysSameToggles(rs: seq<Record>, rs': seq<Record>, k: Toggle)
    requires Keys(rs) == Keys(rs')
    ensures IDs(rs, k) == IDs(rs', k)
  {
    SameKeysSameIDs(rs, rs', k);
    SameKeysSameIDs(rs', rs, k);
  }

  lemma TurnCounts(w: Delivery, ev: Event, k: Toggle)
    requires Inv(w) && Enabled(w, ev) && ev.TakeTurn?
    ensures Toggles(Next(w, ev), k) % 2 == (Toggles(w, k) + if FlipsAt(w, ev, k) then 1 else 0) % 2
  {
    hide HalfTurn, IDs, Inv, Delivered, Keys, HalfFlips, AgreesOn, Reinserts, OutboxAfter;
    var r := Current(w, ev.conv);
    CurrentAgrees(w, ev.conv);
    InvDistinct(w);
    HalfParity(w.outbox, r, ev.env, w.passes[ev.conv].sending, k);
    TurnKeys(w, ev.conv, ev.env, ev.sorted);
    SameKeysSameToggles(OutboxAfter(w, ev.conv, ev.env, ev.sorted), Result(w, ev.conv, ev.env).outbox, k);
    DeliveredNext(w.received, r, k);
  }

  lemma RemoveCounts(w: Delivery, id: OutboxID, k: Toggle)
    requires Inv(w)
    ensures Toggles(Next(w, RemoveByUser(id)), k) % 2 == (Toggles(w, k) + if TakesBack(w, RemoveByUser(id), k) then 1 else 0) % 2
  {
    hide IDs, Delivered, OutboxRecords.RemoveMessage, Inv;
    InvDistinct(w);
    RemoveEffect(w.outbox, id, k);
    if id in IDs(w.outbox, k) {
      assert IDs(w.outbox, k) == (IDs(w.outbox, k) - {id}) + {id};
    } else {
      assert IDs(w.outbox, k) - {id} == IDs(w.outbox, k);
    }
  }

  lemma StepCounts(w: Delivery, ev: Event, k: Toggle)
    requires Inv(w) && Enabled(w, ev)
    ensures Toggles(Next(w, ev), k) % 2 ==
      (Toggles(w, k) + (if TakesBack(w, ev, k) then 1 else 0) + (if FlipsAt(w, ev, k) then 1 else 0)) % 2
  {
    hide IDs, Inv, Pending, Delivered, Keys, HalfFlips, DistinctIDs;
    match ev
    case Queue(conv, kind, now) => QueueCounts(w, conv, kind, now, k);
    case Pull =>
    case TakeTurn(_, _, _) => TurnCounts(w, ev, k);
    case RetryMessage(id, now) =>
      InvDistinct(w);
      ResetKeeps(w.outbox, id, now);
      SameKeysSameToggles(w.outbox, Reset(w.outbox, id, now), k);
    case RemoveByUser(id) => RemoveCounts(w, id, k);
  }

  /** Over every run, however pushes and the passes of all conversations interleave: the toggles pushed,
      received and pending are even in number, but for those the user took back and the steps that flip. */
  lemma {:induction false} RunCounts(w: Delivery, evs: seq<Event>, k: Toggle)
    requires Inv(w) && IsRun(w, evs)
    ensures Toggles(Final(w, evs), k) % 2 == (Toggles(w, k) + TakenBack(w, evs, k) + FlipCount(w, evs, k)) % 2
    decreases |evs|
  {
    hide Inv, Next, Enabled, Toggles, FlipsAt, TakesBack;
    if evs != [] {
      StepCounts(w, evs[0], k);
      StepKeepsInv(w, evs[0]);
      RunCounts(Next(w, evs[0]), evs[1..], k);
    }
  }

  lemma NoToggles(k: Toggle)
    ensures Toggles(Empty, k) == 0
  {
  }

  /** Once none of its toggles is pending, the server has the reaction where the user left it, if and only if
      an even number of steps flipped it. */
  lemma ServerEndsWhereUserLeftIt(evs: seq<Event>, k: Toggle)
    requires IsRun(Empty, evs) && IDs(Final(Empty, evs).outbox, k) == {}
    ensures var w := Final(Empty, evs);
      Delivered(w.received, k) % 2 == (Delivered(w.pushed, k) + TakenBack(Empty, evs, k)) % 2 <==> FlipCount(Empty, evs, k) % 2 == 0
  {
    hide IsRun, Final, TakenBack, FlipCount;
    RunCounts(Empty, evs, k);
    hide IDs, Delivered;
    assert Toggles(Empty, k) == 0 by { NoToggles(k); }
  }
}
