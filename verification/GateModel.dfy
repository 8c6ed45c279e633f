/**
 The admission gate's state as a value, and each pass through its lock as a function.

 Times are exact seconds.  A `Waiter` is the fresh object a caller queues, together
 with the arguments that caller keeps on its stack while it sleeps.
 */
module GateModel {
  import opened Basics

  const WINDOW := 60.0
  const MAX_COOLDOWN := 60.0
  const MAX_USAGE := 10_000_000

  datatype Ticket = Ticket(id: nat, estimatedTokens: int, admittedAt: real)

  datatype Request = Request(deadline: real, rpm: int, tpm: int, estimate: int)

  datatype Waiter = Waiter(id: nat, request: Request)

  datatype Event = Event(at: real, tokens: int)

  datatype GateState = GateState(
    limit: int,
    waiters: seq<Waiter>,
    active: map<nat, Ticket>,
    events: map<nat, Event>,
    order: seq<nat>,
    nextId: nat,
    blockedUntil: real)
  {
    ghost predicate Ledger() {
      LedgerOk(order, events)
    }
  }

  /** `order` is strictly increasing, and each of its ids can be looked up. */
  ghost predicate LedgerOk(order: seq<nat>, events: map<nat, Event>) {
    && (forall i, j :: 0 <= i < j < |order| ==> order[i] < order[j])
    && (forall i :: 0 <= i < |order| ==> order[i] in events)
  }

  function NewGate(limit: int): GateState {
    GateState(limit, [], map[], map[], [], 0, 0.0)
  }

  // ---- The locked section of acquire ----

  function Purged(s: GateState, now: real): (p: GateState)
    requires s.Ledger()
    ensures p.Ledger()
    ensures p == s.(order := p.order, events := p.events)
    decreases |s.order|
  {
    if |s.order| > 0 && now - s.events[s.order[0]].at >= WINDOW then
      Purged(s.(order := s.order[1..], events := s.events - {s.order[0]}), now)
    else
      s
  }

  function Used(events: map<nat, Event>, order: seq<nat>): int
    requires forall i :: 0 <= i < |order| ==> order[i] in events
  {
    if order == [] then 0
    else Used(events, order[..|order| - 1]) + events[order[|order| - 1]].tokens
  }

  /** The condition under which one pass hands out a ticket; `p` is already purged. */
  predicate Allowed(p: GateState, w: Waiter, now: real)
    requires p.Ledger()
    requires w in p.waiters
  {
    var r := w.request;
    && p.waiters[0] == w
    && now >= p.blockedUntil
    && |p.active| < p.limit
    && (r.rpm == 0 || |p.events| < r.rpm)
    && (r.tpm == 0 || Used(p.events, p.order) + r.estimate <= r.tpm)
  }

  datatype Outcome = Admitted(ticket: Ticket) | TimedOut | Sleep(seconds: real)

  datatype PassResult = PassResult(gate: GateState, outcome: Outcome)

  function Issue(p: GateState, estimate: int, now: real): PassResult
    requires |p.waiters| > 0
  {
    var ticket := Ticket(p.nextId + 1, estimate, now);
    PassResult(
      p.(waiters := p.waiters[1..],
         nextId := ticket.id,
         active := p.active[ticket.id := ticket],
         events := p.events[ticket.id := Event(now, estimate)],
         order := p.order + [ticket.id]),
      Admitted(ticket))
  }

  function Without(ws: seq<Waiter>, w: Waiter): seq<Waiter> {
    if ws == [] then []
    else if ws[0] == w then ws[1..]
    else [ws[0]] + Without(ws[1..], w)
  }

  function SleepSeconds(p: GateState, deadline: real, now: real): real
    requires p.Ledger()
  {
    var capped := MinReal(deadline - now, 0.25);
    var cooled := if p.blockedUntil > now then MinReal(capped, p.blockedUntil - now) else capped;
    var shortest :=
      if |p.order| > 0 then MinReal(cooled, WINDOW - (now - p.events[p.order[0]].at)) else cooled;
    MaxReal(0.001, shortest)
  }

  /** One pass of the waiting loop, from taking the lock to giving it up. */
  function Pass(s: GateState, w: Waiter, now: real): PassResult
    requires s.Ledger()
    requires w in s.waiters
  {
    var p := Purged(s, now);
    if p.waiters[0] == w && w.request.deadline - now <= 0.0 then
      PassResult(p.(waiters := p.waiters[1..]), TimedOut)
    else if Allowed(p, w, now) then
      Issue(p, w.request.estimate, now)
    else if w.request.deadline - now <= 0.0 then
      PassResult(p.(waiters := Without(p.waiters, w)), TimedOut)
    else
      PassResult(p, Sleep(SleepSeconds(p, w.request.deadline, now)))
  }

  /** The request is refused before the lock is taken. */
  predicate OverQuota(r: Request) {
    r.tpm != 0 && r.estimate > r.tpm
  }

  // ---- Giving a ticket back ----

  predicate Holds(s: GateState, ticket: Option<Ticket>) {
    ticket.Some? && ticket.value.id in s.active && s.active[ticket.value.id] == ticket.value
  }

  predicate Reported(usage: Option<int>) {
    usage.Some? && 0 <= usage.value <= MAX_USAGE
  }

  function Released(s: GateState, ticket: Option<Ticket>, usage: Option<int>): GateState {
    if !Holds(s, ticket) then s
    else
      var id := ticket.value.id;
      var t := s.(active := s.active - {id});
      if Reported(usage) && id in s.events then
        t.(events := s.events[id := Event(s.events[id].at, usage.value)])
      else t
  }

  function Blocked(s: GateState, delay: real, now: real): GateState {
    s.(blockedUntil := MaxReal(s.blockedUntil, now + MinReal(MaxReal(0.0, delay), MAX_COOLDOWN)))
  }
}
