/** Who can take a ticket or a place in the queue away: only its owner, and only once. */
module GateTickets {
  import opened GateModel
  import opened GateRuns
  import opened GateSteps
  import opened GateTheorems

  /** `step` gives ticket `id` back. */
  predicate GivesBack(w: World, step: Step, id: nat) {
    && (step.Release? || step.ReleaseAndBlock?)
    && Holds(w.gate, step.ticket)
    && step.ticket.value.id == id
  }

  /** How many steps of the run really gave ticket `id` back. */
  ghost function Releases(w: World, run: seq<TimedStep>, id: nat): nat
    requires Inv(w) && Legal(w, run)
    decreases |run|
  {
    if run == [] then 0
    else (if GivesBack(w, run[0].step, id) then 1 else 0) + Releases(Then(w, run[0]), run[1..], id)
  }

  /** Whether ticket `id` is out, or has yet to be issued. */
  predicate Outstanding(w: World, id: nat) {
    id in w.gate.active || id > |w.history|
  }

  /** Nobody's step but a give-back touches the standing of ticket `id`. */
  ghost predicate SameStanding(w: World, v: World, id: nat) {
    && Outstanding(v, id) == Outstanding(w, id)
    && (id in w.gate.active ==> id in v.gate.active && v.gate.active[id] == w.gate.active[id])
  }

  /** The record of a ticket that is no longer out is final. */
  ghost predicate SameRecord(w: World, v: World, id: nat) {
    0 < id <= |w.recorded| && id !in w.gate.active ==>
      |w.recorded| <= |v.recorded| && v.recorded[id - 1] == w.recorded[id - 1]
  }

  lemma PassTicket(w: World, waiter: Waiter, now: real, id: nat)
    requires w.gate.Ledger() && waiter in w.gate.waiters && w.gate.nextId == |w.history| == |w.recorded|
    requires id in w.gate.active ==> id <= |w.history|
    ensures SameStanding(w, Noted(w, waiter, Pass(w.gate, waiter, now), now), id)
    ensures SameRecord(w, Noted(w, waiter, Pass(w.gate, waiter, now), now), id)
  {
    hide Pass, Noted, Purged, Allowed, Without;
    if Pass(w.gate, waiter, now).outcome.Admitted? {
      AdmittedShape(w, waiter, now);
    } else {
      IdleShape(w, waiter, now);
    }
  }

  lemma JoinedSpares(w: World, r: Request, id: nat)
    requires Inv(w)
    ensures var u := Joined(w, r);
            && u.gate.Ledger() && u.gate.nextId == |u.history| == |u.recorded|
            && (id in u.gate.active ==> id <= |u.history|)
            && u == w.(gate := w.gate.(waiters := u.gate.waiters), arrivals := u.arrivals)
  {
    NextIdCounts(w);
  }

  lemma ArrivalStep(w: World, r: Request, now: real, id: nat)
    requires Inv(w) && w.clock <= now
    ensures SameStanding(w, Next(w, TimedStep(Arrive(r), now)), id)
    ensures SameRecord(w, Next(w, TimedStep(Arrive(r), now)), id)
  {
    hide Inv, Pass, Noted, Joined;
    InvShape(w);
    JoinedSpares(w, r, id);
    if !OverQuota(r) {
      PassTicket(Joined(w, r), Waiter(w.arrivals, r), now, id);
    }
  }

  lemma WakeStep(w: World, waiter: Waiter, now: real, id: nat)
    requires Inv(w) && w.clock <= now && waiter in w.gate.waiters
    ensures SameStanding(w, Next(w, TimedStep(Wake(waiter), now)), id)
    ensures SameRecord(w, Next(w, TimedStep(Wake(waiter), now)), id)
  {
    hide Pass, Noted;
    PassTicket(w, waiter, now, id);
  }

  lemma ReleaseStep(w: World, t: TimedStep, id: nat)
    requires Inv(w) && Enabled(w, t) && id > 0
    requires !t.step.Arrive? && !t.step.Wake?
    ensures GivesBack(w, t.step, id) ==> id in w.gate.active && !Outstanding(Next(w, t), id)
    ensures !GivesBack(w, t.step, id) ==> SameStanding(w, Next(w, t), id)
    ensures SameRecord(w, Next(w, t), id)
  {
    hide Inv, Pass, Noted, Without, Joined, OverQuota;
    InvShape(w);
    NextIdCounts(w);
    ActiveIsIssued(w, id);
  }

  lemma ActiveIsIssued(w: World, id: nat)
    requires Inv(w)
    ensures id in w.gate.active ==> 0 < id <= |w.history|
  {
  }

  lemma StepTicket(w: World, t: TimedStep, id: nat)
    requires Inv(w) && Enabled(w, t) && id > 0
    ensures GivesBack(w, t.step, id) ==> id in w.gate.active && !Outstanding(Then(w, t), id)
    ensures !GivesBack(w, t.step, id) ==> SameStanding(w, Then(w, t), id)
    ensures SameRecord(w, Then(w, t), id)
  {
    hide Inv, Next, SameStanding, SameRecord, Outstanding;
    InvShape(w);
    match t.step
    case Arrive(r) => ArrivalStep(w, r, t.at, id);
    case Wake(waiter) => WakeStep(w, waiter, t.at, id);
    case _ => ReleaseStep(w, t, id);
  }

  /**
   Every ticket issued during a run is given back exactly once, or is still out:
   a second release of the same ticket never counts.
   */
  lemma {:induction false} EachTicketIsGivenBackOnce(w: World, run: seq<TimedStep>, id: nat)
    requires Inv(w) && Legal(w, run) && id > 0
    ensures Releases(w, run, id) + (if Outstanding(After(w, run), id) then 1 else 0)
         == (if Outstanding(w, id) then 1 else 0)
    decreases |run|
  {
    hide Inv, Enabled, Then, GivesBack, Outstanding;
    if run != [] {
      StepTicketCount(w, run[0], id);
      EachTicketIsGivenBackOnce(Then(w, run[0]), run[1..], id);
    }
  }

  lemma StepTicketCount(w: World, t: TimedStep, id: nat)
    requires Inv(w) && Enabled(w, t) && id > 0
    ensures (if GivesBack(w, t.step, id) then 1 else 0) + (if Outstanding(Then(w, t), id) then 1 else 0)
         == (if Outstanding(w, id) then 1 else 0)
  {
    hide Inv, Enabled, Then;
    StepTicket(w, t, id);
  }

  lemma {:induction false} WithoutSparesOthers(ws: seq<Waiter>, gone: Waiter, waiter: Waiter)
    requires waiter in ws && waiter != gone
    ensures waiter in Without(ws, gone)
  {
    if ws[0] != gone && ws[0] != waiter {
      WithoutSparesOthers(ws[1..], gone, waiter);
    }
  }

  lemma PassSparesWaiter(w: World, mover: Waiter, now: real, waiter: Waiter)
    requires w.gate.Ledger() && mover in w.gate.waiters
    requires waiter in w.gate.waiters && mover != waiter
    ensures waiter in Noted(w, mover, Pass(w.gate, mover, now), now).gate.waiters
  {
    hide Pass, Noted, Purged, Allowed;
    WithoutSparesOthers(w.gate.waiters, mover, waiter);
    if Pass(w.gate, mover, now).outcome.Admitted? {
      AdmittedShape(w, mover, now);
    } else {
      IdleShape(w, mover, now);
    }
  }

  /** A place in the queue is lost only by that waiter's own pass or interruption. */
  lemma StepSparesWaiter(w: World, t: TimedStep, waiter: Waiter)
    requires Inv(w) && Enabled(w, t) && waiter in w.gate.waiters && waiter.id < w.arrivals
    requires t.step != Wake(waiter) && t.step != Interrupt(waiter)
    ensures waiter in Then(w, t).gate.waiters
  {
    hide Inv, Pass, Noted, NotedRelease, OverQuota;
    InvShape(w);
    match t.step
    case Arrive(r) =>
      if !OverQuota(r) {
        PassSparesWaiter(Joined(w, r), Waiter(w.arrivals, r), t.at, waiter);
      }
    case Wake(mover) => PassSparesWaiter(w, mover, t.at, waiter);
    case Interrupt(mover) => WithoutSparesOthers(w.gate.waiters, mover, waiter);
    case _ =>
  }
}
