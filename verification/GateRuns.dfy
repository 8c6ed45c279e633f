/**
 Whole runs of the gate: any number of callers, any interleaving of their locked
 sections, under a clock that never goes back.

 A `World` keeps, beside the gate, what an outside observer would write down: who
 arrived, who gave up, every admission with its time, and the token count last
 recorded for it.  Of `events` the observer asks only whether a released ticket still has
 its event, since a usage reported later than that is dropped; never what it holds.
 */
module GateRuns {
  import opened Basics
  import opened GateModel

  datatype Admission = Admission(waiter: Waiter, at: real)

  datatype World = World(
    gate: GateState,
    clock: real,
    arrivals: nat,
    gaveUp: set<nat>,
    history: seq<Admission>,
    recorded: seq<int>)

  datatype Step =
    | Arrive(request: Request)
    | Wake(waiter: Waiter)
    | Interrupt(waiter: Waiter)
    | Release(ticket: Option<Ticket>, usage: Option<int>)
    | BlockFor(delay: real)
    | ReleaseAndBlock(ticket: Option<Ticket>, delay: real, usage: Option<int>)

  datatype TimedStep = TimedStep(step: Step, at: real)

  predicate Enabled(w: World, t: TimedStep) {
    && w.clock <= t.at
    && (t.step.Wake? ==> t.step.waiter in w.gate.waiters)
    && (t.step.Interrupt? ==> t.step.waiter in w.gate.waiters)
  }

  /** The observer's notes after `waiter` made a pass at `now`. */
  function Noted(w: World, waiter: Waiter, result: PassResult, now: real): World {
    var v := w.(gate := result.gate, clock := now);
    match result.outcome
    case Admitted(_) =>
      v.(history := w.history + [Admission(waiter, now)],
         recorded := w.recorded + [waiter.request.estimate])
    case TimedOut => v.(gaveUp := w.gaveUp + {waiter.id})
    case Sleep(_) => v
  }

  function NotedRelease(w: World, ticket: Option<Ticket>, usage: Option<int>): seq<int> {
    if Holds(w.gate, ticket) && Reported(usage) && ticket.value.id in w.gate.events
       && 0 < ticket.value.id <= |w.recorded|
    then w.recorded[ticket.value.id - 1 := usage.value]
    else w.recorded
  }

  /** A newcomer goes to the back of the queue. */
  function Joined(w: World, r: Request): (v: World)
    ensures Waiter(w.arrivals, r) in v.gate.waiters
  {
    var waiter := Waiter(w.arrivals, r);
    assert (w.gate.waiters + [waiter])[|w.gate.waiters|] == waiter;
    w.(gate := w.gate.(waiters := w.gate.waiters + [waiter]), arrivals := w.arrivals + 1)
  }

  function Next(w: World, t: TimedStep): World
    requires w.gate.Ledger()
    requires Enabled(w, t)
  {
    match t.step
    case Arrive(r) =>
      if OverQuota(r) then w.(clock := t.at)
      else
        var v, waiter := Joined(w, r), Waiter(w.arrivals, r);
        Noted(v, waiter, Pass(v.gate, waiter, t.at), t.at)
    case Wake(waiter) =>
      Noted(w, waiter, Pass(w.gate, waiter, t.at), t.at)
    case Interrupt(waiter) =>
      w.(gate := w.gate.(waiters := Without(w.gate.waiters, waiter)),
         clock := t.at,
         gaveUp := w.gaveUp + {waiter.id})
    case Release(ticket, usage) =>
      w.(gate := Released(w.gate, ticket, usage),
         clock := t.at,
         recorded := NotedRelease(w, ticket, usage))
    case BlockFor(delay) =>
      w.(gate := Blocked(w.gate, delay, t.at), clock := t.at)
    case ReleaseAndBlock(ticket, delay, usage) =>
      if !Holds(w.gate, ticket) then w.(clock := t.at)
      else
        w.(gate := Blocked(Released(w.gate, ticket, usage), delay, t.at),
           clock := t.at,
           recorded := NotedRelease(w, ticket, usage))
  }

  // ---- What every step keeps ----

  function Waiters(h: seq<Admission>): seq<Waiter> {
    seq(|h|, i requires 0 <= i < |h| => h[i].waiter)
  }

  ghost predicate Increasing(line: seq<Waiter>) {
    forall i, j :: 0 <= i < j < |line| ==> line[i].id < line[j].id
  }

  ghost function Ids(line: seq<Waiter>): set<nat> {
    set waiter | waiter in line :: waiter.id
  }

  /**
   Put the admitted in front of the queued, and the line is in arrival order and holds
   everybody who ever arrived, once, except those who gave up.
   */
  ghost predicate QueueOk(q: seq<Waiter>, h: seq<Admission>, arrivals: nat, gaveUp: set<nat>) {
    var line := Waiters(h) + q;
    && Increasing(line)
    && Ids(line) !! gaveUp
    && (forall id: nat :: id < arrivals <==> id in Ids(line) || id in gaveUp)
    && (forall i :: 0 <= i < |q| ==> !OverQuota(q[i].request))
  }

  /** The ledger is exactly the last `|order|` entries of the history. */
  ghost predicate LedgerIsTail(
    nextId: nat, order: seq<nat>, events: map<nat, Event>, h: seq<Admission>, recorded: seq<int>) {
    && nextId == |h| == |recorded|
    && |order| <= |h|
    && (forall k :: 0 <= k < |order| ==> order[k] == |h| - |order| + k + 1)
    && (forall id :: id in events <==> |h| - |order| < id <= |h|)
    && (forall id :: id in events ==> events[id] == Event(h[id - 1].at, recorded[id - 1]))
  }

  ghost predicate Sorted(h: seq<Admission>) {
    forall i, j :: 0 <= i <= j < |h| ==> h[i].at <= h[j].at
  }

  /** Nothing happens after the clock, and the first `left` admissions are a window old. */
  ghost predicate TimesOk(h: seq<Admission>, left: int, clock: real) {
    && Sorted(h)
    && (forall i :: 0 <= i < |h| ==> h[i].at <= clock)
    && (forall i :: 0 <= i < |h| && i < left ==> clock - h[i].at >= WINDOW)
  }

  /** Never more tickets out than slots; an unreleased ticket is recorded at its estimate. */
  ghost predicate SlotsOk(
    active: map<nat, Ticket>, limit: int, h: seq<Admission>, recorded: seq<int>) {
    && |active| <= MaxInt(0, limit)
    && |recorded| == |h|
    && (forall i :: 0 <= i < |h| ==>
          recorded[i] == h[i].waiter.request.estimate || 0 <= recorded[i] <= MAX_USAGE)
    && (forall id :: id in active ==>
          && 0 < id <= |h|
          && active[id] == Ticket(id, h[id - 1].waiter.request.estimate, h[id - 1].at)
          && recorded[id - 1] == h[id - 1].waiter.request.estimate)
  }

  /** The cooldown end is at most a minute away. */
  ghost predicate CooldownOk(blockedUntil: real, clock: real) {
    0.0 <= blockedUntil <= MaxReal(0.0, clock + MAX_COOLDOWN)
  }

  ghost predicate DeadlinesOk(h: seq<Admission>) {
    forall i :: 0 <= i < |h| ==> h[i].at < h[i].waiter.request.deadline
  }

  /** Admissions younger than one window at `now`. */
  function CountYoung(h: seq<Admission>, now: real): nat {
    if h == [] then 0
    else CountYoung(h[..|h| - 1], now) + (if now - h[|h| - 1].at < WINDOW then 1 else 0)
  }

  /** The tokens of the admissions younger than one window at `now`. */
  function SumYoung(h: seq<Admission>, tokens: seq<int>, now: real): int
    requires |h| == |tokens|
  {
    if h == [] then 0
    else
      var n := |h| - 1;
      SumYoung(h[..n], tokens[..n], now) + (if now - h[n].at < WINDOW then tokens[n] else 0)
  }

  /** What an admission is charged: its record, but never more than it asked for. */
  function Charged(h: seq<Admission>, recorded: seq<int>): (c: seq<int>)
    requires |h| == |recorded|
    ensures |c| == |h|
  {
    seq(|h|, i requires 0 <= i < |h| => MinInt(recorded[i], h[i].waiter.request.estimate))
  }

  /** When admission `j` was made, the last window up to and including it was in quota. */
  ghost predicate AdmissionInQuota(h: seq<Admission>, recorded: seq<int>, j: nat)
    requires j < |h| == |recorded|
  {
    var r := h[j].waiter.request;
    && (r.rpm != 0 ==> CountYoung(h[..j + 1], h[j].at) <= r.rpm)
    && (r.tpm != 0 ==> SumYoung(h[..j], Charged(h, recorded)[..j], h[j].at) + r.estimate <= r.tpm)
  }

  ghost predicate QuotasOk(h: seq<Admission>, recorded: seq<int>) {
    && |recorded| == |h|
    && forall j: nat :: j < |h| ==> AdmissionInQuota(h, recorded, j)
  }

  ghost predicate Inv(w: World) {
    var g := w.gate;
    && LedgerOk(g.order, g.events)
    && QueueOk(g.waiters, w.history, w.arrivals, w.gaveUp)
    && LedgerIsTail(g.nextId, g.order, g.events, w.history, w.recorded)
    && TimesOk(w.history, |w.history| - |g.order|, w.clock)
    && SlotsOk(g.active, g.limit, w.history, w.recorded)
    && CooldownOk(g.blockedUntil, w.clock)
    && DeadlinesOk(w.history)
    && QuotasOk(w.history, w.recorded)
  }

  function Start(limit: int, clock: real): (w: World)
    ensures Inv(w)
  {
    hide AdmissionInQuota, OverQuota;
    World(NewGate(limit), clock, 0, {}, [], [])
  }
}
