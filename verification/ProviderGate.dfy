/**
 The gate as the object the callers share.  Each method is one locked section (or, for
 `Acquire`, the loop of locked sections between naps); each is proved to be a step, or a
 run, of the transition system in GateRuns.
 */
module ProviderGates {
  import opened Basics
  import opened GateModel
  import opened GateRuns
  import opened GateSteps
  import opened GateTheorems
  import opened GateTickets
  import opened GateAccounts

  /** What one caller is doing while the others run. */
  datatype Me = Idle | Queued(waiter: Waiter) | Holding(ticket: Ticket)

  datatype Acquired = Ticketed(ticket: Ticket) | OverTokenQuota | DeadlinePassed | Interrupted

  /** `me` still has what it had: its place in the queue, or its ticket. */
  ghost predicate Keeps(w: World, me: Me) {
    match me
    case Idle => true
    case Queued(waiter) => waiter in w.gate.waiters && waiter.id < w.arrivals
    case Holding(ticket) => Holds(w.gate, Some(ticket)) && 0 < ticket.id <= |w.history|
  }

  /** The others neither wake nor interrupt my waiter, nor give my ticket back. */
  predicate Foreign(step: Step, me: Me) {
    match me
    case Idle => true
    case Queued(waiter) => step != Wake(waiter) && step != Interrupt(waiter)
    case Holding(ticket) =>
      !((step.Release? || step.ReleaseAndBlock?) && step.ticket == Some(ticket))
  }

  lemma ForeignStepsKeep(w: World, t: TimedStep, me: Me)
    requires Inv(w) && Enabled(w, t) && Keeps(w, me) && Foreign(t.step, me)
    ensures Keeps(Then(w, t), me)
  {
    hide Inv, Enabled, Then;
    match me
    case Idle =>
    case Queued(waiter) => StepSparesWaiter(w, t, waiter);
    case Holding(ticket) => StepTicket(w, t, ticket.id);
  }

  lemma ThenIsNext(w: World, t: TimedStep)
    requires Inv(w) && Enabled(w, t)
    ensures w.gate.Ledger() && Then(w, t) == Next(w, t)
  {
    hide Inv, Next;
    InvShape(w);
  }

  lemma JoinedIs(w: World, r: Request)
    ensures Joined(w, r) ==
      w.(gate := w.gate.(waiters := w.gate.waiters + [Waiter(w.arrivals, r)]), arrivals := w.arrivals + 1)
  {
  }

  lemma NotedGate(w: World, waiter: Waiter, result: PassResult, now: real)
    ensures Noted(w, waiter, result, now).gate == result.gate
    ensures Noted(w, waiter, result, now).arrivals == w.arrivals
  {
  }

  /** What a turn means for the caller that took it. */
  lemma TurnTaken(w: World, t: TimedStep, waiter: Waiter, result: PassResult)
    requires Inv(w) && Enabled(w, t)
    requires
      || (t.step == Wake(waiter) && result == Pass(w.gate, waiter, t.at))
      || (t.step.Arrive? && !OverQuota(t.step.request) && waiter == Waiter(w.arrivals, t.step.request)
          && result == Pass(Joined(w, t.step.request).gate, waiter, t.at))
    requires t.step.Wake? ==> waiter.id < w.arrivals
    ensures var v := Then(w, t);
            match result.outcome
            case Admitted(ticket) =>
              && Keeps(v, Holding(ticket)) && ticket.id == |v.history| == |w.history| + 1
              && ticket.estimatedTokens == waiter.request.estimate && ticket.admittedAt == t.at
              && v.history == w.history + [Admission(waiter, ticket.admittedAt)]
            case TimedOut => waiter.id in v.gaveUp && v.history == w.history
            case Sleep(_) => Keeps(v, Queued(waiter)) && v.history == w.history
    ensures result.outcome.TimedOut? <==> t.at >= waiter.request.deadline
  {
    hide Inv, Then, Pass, Noted, Purged, Allowed, Without;
    InvShape(w);
    ThenIsNext(w, t);
    var u := if t.step.Arrive? then Joined(w, t.step.request) else w;
    NextIdCounts(w);
    TimesOutExactlyAtTheDeadline(u.gate, waiter, t.at);
    if result.outcome.Admitted? {
      AdmittedShape(u, waiter, t.at);
      IssuedTicket(u, waiter, t.at);
    } else {
      IdleShape(u, waiter, t.at);
    }
  }

  lemma IssuedTicket(w: World, waiter: Waiter, now: real)
    requires w.gate.Ledger() && waiter in w.gate.waiters && Pass(w.gate, waiter, now).outcome.Admitted?
    ensures Pass(w.gate, waiter, now).outcome.ticket == Ticket(w.gate.nextId + 1, waiter.request.estimate, now)
  {
  }

  lemma InterruptedIsGone(w: World, t: TimedStep)
    requires Inv(w) && Enabled(w, t) && t.step.Interrupt?
    ensures t.step.waiter.id in Then(w, t).gaveUp && Then(w, t).history == w.history
  {
    hide Inv, Pass, Noted, Without;
  }

  lemma QueuedIsWaiting(w: World, waiter: Waiter)
    requires Keeps(w, Queued(waiter))
    ensures waiter in w.gate.waiters && waiter.id < w.arrivals
  {
  }

  lemma RefusalChangesNothing(w: World, t: TimedStep)
    requires Inv(w) && Enabled(w, t) && t.step.Arrive? && OverQuota(t.step.request)
    ensures Then(w, t) == w.(clock := t.at)
  {
    hide Inv, Pass, Noted;
  }

  class ProviderGate {
    const limit: int
    var waiters: seq<Waiter>
    var active: map<nat, Ticket>
    var events: map<nat, Event>
    var order: seq<nat>
    var nextId: nat
    var blockedUntil: real
    /** How many waiter objects callers have created so far. */
    var arrivals: nat
    ghost var world: World

    function State(): GateState
      reads this
    {
      GateState(limit, waiters, active, events, order, nextId, blockedUntil)
    }

    ghost predicate Valid()
      reads this
    {
      world.gate == State() && world.arrivals == arrivals && Inv(world)
    }

    constructor (limit: int, ghost clock: real)
      ensures Valid() && world == Start(limit, clock)
    {
      this.limit := limit;
      waiters, active, events, order, nextId, blockedUntil := [], map[], map[], [], 0, 0.0;
      arrivals := 0;
      world := Start(limit, clock);
    }

    method Purge(now: real)
      requires State().Ledger()
      modifies this`order, this`events
      ensures State() == Purged(old(State()), now)
    {
      while |order| > 0 && now - events[order[0]].at >= WINDOW
        invariant State().Ledger()
        invariant Purged(State(), now) == Purged(old(State()), now)
        decreases |order|
      {
        events, order := events - {order[0]}, order[1..];
      }
    }

    /** One turn of the waiting loop, under the lock. */
    method TakeTurn(waiter: Waiter, now: real) returns (outcome: Outcome)
      requires State().Ledger() && waiter in waiters
      modifies this`waiters, this`active, this`events, this`order, this`nextId
      ensures PassResult(State(), outcome) == Pass(old(State()), waiter, now)
    {
      Purge(now);
      var r := waiter.request;
      if waiters[0] == waiter && r.deadline - now <= 0.0 {
        waiters := waiters[1..];
        return TimedOut;
      }
      var used := Used(events, order);
      var allowed :=
        && waiters[0] == waiter
        && now >= blockedUntil
        && |active| < limit
        && (r.rpm == 0 || |events| < r.rpm)
        && (r.tpm == 0 || used + r.estimate <= r.tpm);
      if allowed {
        waiters := waiters[1..];
        nextId := nextId + 1;
        var ticket := Ticket(nextId, r.estimate, now);
        active := active[ticket.id := ticket];
        events := events[ticket.id := Event(now, r.estimate)];
        order := order + [ticket.id];
        return Admitted(ticket);
      }
      var remaining := r.deadline - now;
      if remaining <= 0.0 {
        waiters := Without(waiters, waiter);
        return TimedOut;
      }
      var shortest := MinReal(remaining, 0.25);
      if blockedUntil > now {
        shortest := MinReal(shortest, blockedUntil - now);
      }
      if |order| > 0 {
        shortest := MinReal(shortest, WINDOW - (now - events[order[0]].at));
      }
      return Sleep(MaxReal(0.001, shortest));
    }

    /** The first locked section of `acquire`; `None` when the quota refuses it outright. */
    method Join(request: Request, now: real) returns (outcome: Option<Outcome>)
      requires Valid() && world.clock <= now
      modifies this
      ensures Valid() && world == Then(old(world), TimedStep(Arrive(request), now))
      ensures outcome.None? <==> OverQuota(request)
      ensures outcome.Some? ==>
        outcome.value == Pass(Joined(old(world), request).gate, Waiter(old(arrivals), request), now).outcome
    {
      hide Inv, Then, Pass, Noted, Purged, Joined, Without;
      ghost var before := world;
      ghost var t := TimedStep(Arrive(request), now);
      InvShape(world);
      if OverQuota(request) {
        outcome := None;
      } else {
        var waiter := Waiter(arrivals, request);
        arrivals := arrivals + 1;
        waiters := waiters + [waiter];
        assert waiters[|waiters| - 1] == waiter;
        JoinedIs(before, request);
        assert State() == Joined(before, request).gate;
        var turn := TakeTurn(waiter, now);
        outcome := Some(turn);
        NotedGate(Joined(before, request), waiter, Pass(Joined(before, request).gate, waiter, now), now);
      }
      world := Then(before, t);
      ThenIsNext(before, t);
    }

    /** A waiter wakes, for whatever reason, and takes its turn. */
    method Poll(waiter: Waiter, now: real) returns (outcome: Outcome)
      requires Valid() && world.clock <= now && waiter in waiters
      modifies this
      ensures Valid() && world == Then(old(world), TimedStep(Wake(waiter), now))
      ensures outcome == Pass(old(State()), waiter, now).outcome
      ensures outcome.TimedOut? <==> now >= waiter.request.deadline
    {
      hide Inv, Then, Pass, Noted, Purged, Joined, Without;
      ghost var before := world;
      InvShape(world);
      TimesOutExactlyAtTheDeadline(before.gate, waiter, now);
      outcome := TakeTurn(waiter, now);
      NotedGate(before, waiter, Pass(before.gate, waiter, now), now);
      world := Then(before, TimedStep(Wake(waiter), now));
      ThenIsNext(before, TimedStep(Wake(waiter), now));
    }

    /** An exception reaches a sleeping waiter. */
    method Interruption(waiter: Waiter, now: real)
      requires Valid() && world.clock <= now && waiter in waiters
      modifies this
      ensures Valid() && world == Then(old(world), TimedStep(Interrupt(waiter), now))
    {
      hide Inv, Then, Pass, Noted, Purged, Joined, Without;
      ghost var before := world;
      InvShape(world);
      if waiter in waiters {
        waiters := Without(waiters, waiter);
      }
      world := Then(before, TimedStep(Interrupt(waiter), now));
      ThenIsNext(before, TimedStep(Interrupt(waiter), now));
    }

    method Release(ticket: Option<Ticket>, usage: Option<int>, now: real)
      requires Valid() && world.clock <= now
      modifies this
      ensures Valid() && world == Then(old(world), TimedStep(Step.Release(ticket, usage), now))
    {
      hide Inv, Then, Pass, Noted, Purged, Joined, Without;
      ghost var before := world;
      InvShape(world);
      if ticket.Some? && ticket.value.id in active && active[ticket.value.id] == ticket.value {
        var id := ticket.value.id;
        active := active - {id};
        if usage.Some? && 0 <= usage.value <= MAX_USAGE && id in events {
          events := events[id := Event(events[id].at, usage.value)];
        }
      }
      world := Then(before, TimedStep(Step.Release(ticket, usage), now));
      ThenIsNext(before, TimedStep(Step.Release(ticket, usage), now));
    }

    method BlockFor(delay: real, now: real)
      requires Valid() && world.clock <= now
      modifies this
      ensures Valid() && world == Then(old(world), TimedStep(Step.BlockFor(delay), now))
    {
      hide Inv, Then, Pass, Noted, Purged, Joined, Without;
      ghost var before := world;
      InvShape(world);
      blockedUntil := MaxReal(blockedUntil, now + MinReal(MaxReal(0.0, delay), MAX_COOLDOWN));
      world := Then(before, TimedStep(Step.BlockFor(delay), now));
      ThenIsNext(before, TimedStep(Step.BlockFor(delay), now));
    }

    method ReleaseAndBlock(ticket: Option<Ticket>, delay: real, usage: Option<int>, now: real)
      requires Valid() && world.clock <= now
      modifies this
      ensures Valid() && world == Then(old(world), TimedStep(Step.ReleaseAndBlock(ticket, delay, usage), now))
    {
      hide Inv, Then, Pass, Noted, Purged, Joined, Without;
      ghost var before := world;
      InvShape(world);
      if ticket.Some? && ticket.value.id in active && active[ticket.value.id] == ticket.value {
        var id := ticket.value.id;
        active := active - {id};
        if usage.Some? && 0 <= usage.value <= MAX_USAGE && id in events {
          events := events[id := Event(events[id].at, usage.value)];
        }
        blockedUntil := MaxReal(blockedUntil, now + MinReal(MaxReal(0.0, delay), MAX_COOLDOWN));
      }
      world := Then(before, TimedStep(Step.ReleaseAndBlock(ticket, delay, usage), now));
      ThenIsNext(before, TimedStep(Step.ReleaseAndBlock(ticket, delay, usage), now));
    }

    // ---- Many callers ----

    method Perform(step: Step, now: real)
      requires Valid() && Enabled(world, TimedStep(step, now))
      modifies this
      ensures Valid() && world == Then(old(world), TimedStep(step, now))
    {
      match step
      case Arrive(request) => var _ := Join(request, now);
      case Wake(waiter) => var _ := Poll(waiter, now);
      case Interrupt(waiter) => Interruption(waiter, now);
      case Release(ticket, usage) => Release(ticket, usage, now);
      case BlockFor(delay) => BlockFor(delay, now);
      case ReleaseAndBlock(ticket, delay, usage) => ReleaseAndBlock(ticket, delay, usage, now);
    }

    /** Other callers do what they are down for, except impersonate `me`. */
    method LetOthersRun(others: seq<Doing>, me: Me, now: real) returns (later: real, ghost moves: seq<Move>)
      requires Valid() && world.clock <= now && Keeps(world, me)
      modifies this
      ensures Valid() && world.clock <= later && later == now + Elapsed(others) && Keeps(world, me)
      ensures Accounts(old(world), world, moves, [], [], StepsOf(others))
    {
      hide Inv, Then, Legal, After, Foreign, Keeps, Accounts;
      ghost var start := world;
      later, moves := now, [];
      NothingToAccount(start, StepsOf(others));
      for i := 0 to |others|
        invariant Valid() && world.clock <= later && later == now + Elapsed(others[..i]) && Keeps(world, me)
        invariant Accounts(start, world, moves, [], [], StepsOf(others))
      {
        var step := others[i].step;
        assert others[..i + 1][..i] == others[..i];
        later := later + others[i].after;
        if Foreign(step, me)
           && (step.Wake? ==> step.waiter in waiters) && (step.Interrupt? ==> step.waiter in waiters) {
          ghost var t := TimedStep(step, later);
          assert others[i] in others;
          OthersMoveAccounted(start, world, moves, [], [], StepsOf(others), t);
          ForeignStepsKeep(world, t, me);
          moves := moves + [Move(t, false)];
          Perform(step, later);
        }
      }
      assert others[..|others|] == others;
    }

    /**
     The whole of `acquire`: join, then take a turn after every nap, until a turn ends
     it.  When the naps run out, an exception reaches the sleeping caller.
     */
    method Acquire(request: Request, now: real, naps: seq<Nap>)
      returns (result: Acquired, later: real, ghost moves: seq<Move>)
      requires Valid() && world.clock <= now
      modifies this
      ensures Valid() && world.clock <= later && now <= later
      ensures Accounts(old(world), world, moves, OneArrival(old(world), request, now), [], StepsDuring(naps))
      ensures result.OverTokenQuota? <==> OverQuota(request)
      ensures result.Ticketed? ==>
        && Keeps(world, Holding(result.ticket))
        && result.ticket.estimatedTokens == request.estimate
        && result.ticket.admittedAt == later
        && |old(world).history| < result.ticket.id == |world.history|
        && world.history[result.ticket.id - 1] == Admission(Waiter(old(world).arrivals, request), later)
      ensures result.DeadlinePassed? || result.Interrupted? ==> old(world).arrivals in world.gaveUp
      ensures result.DeadlinePassed? ==> later >= request.deadline
      ensures result.Ticketed? ==> later < request.deadline
      ensures result.Interrupted? ==> later == now + Slept(naps)
      ensures result.OverTokenQuota? ==> world.history == old(world).history
    {
      hide Inv, Then, Legal, After, Keeps, Joined, Pass, Accounts, StepsOf, StepsDuring, Slept, Elapsed;
      AllNaps(naps);
      ghost var start := world;
      ghost var prompts := StepsDuring(naps);
      ghost var arrive := TimedStep(Arrive(request), now);
      ghost var queued := OneArrival(world, request, now);
      var waiter := Waiter(arrivals, request);
      ArrivalAccounted(start, arrive, prompts);
      moves := [Move(arrive, true)];
      later := now;
      var joined := Join(request, now);
      if joined.None? {
        RefusalChangesNothing(start, arrive);
        return OverTokenQuota, later, moves;
      }
      assert queued[0].waiter == waiter;
      var outcome := joined.value;
      InvShape(start);
      JoinedIs(start, request);
      TurnTaken(start, arrive, waiter, Pass(Joined(start, request).gate, waiter, now));
      var i := 0;
      while outcome.Sleep?
        invariant 0 <= i <= |naps|
        invariant Valid() && world.clock <= later && now <= later
        invariant Accounts(start, world, moves, queued, [], prompts)
        invariant |start.history| <= |world.history|
        invariant outcome.Sleep? ==> Keeps(world, Queued(waiter))
        invariant outcome.TimedOut? ==> waiter.id in world.gaveUp
        invariant outcome.TimedOut? <==> later >= request.deadline
        invariant later == now + Slept(naps[..i])
        invariant outcome.Admitted? ==>
          && Keeps(world, Holding(outcome.ticket))
          && outcome.ticket.estimatedTokens == request.estimate
          && outcome.ticket.admittedAt == later
          && |start.history| < outcome.ticket.id == |world.history|
          && world.history[outcome.ticket.id - 1] == Admission(waiter, later)
        decreases |naps| - i, if outcome.Sleep? then 1 else 0
      {
        QueuedIsWaiting(world, waiter);
        if i == |naps| {
          ghost var t := TimedStep(Interrupt(waiter), later);
          OwnTurnAccounted(start, world, moves, queued, [], prompts, t);
          InterruptedIsGone(world, t);
          moves := moves + [Move(t, true)];
          Interruption(waiter, later);
          return Interrupted, later, moves;
        }
        ghost var more, asleep := [], world;
        NapIsPrompted(naps, i);
        OneMoreNap(naps, i);
        later, more := LetOthersRun(naps[i].others, Queued(waiter), later);
        OthersAccounted(start, asleep, moves, queued, [], prompts, world, more, StepsOf(naps[i].others));
        moves := moves + more;
        later := later + naps[i].rest;
        QueuedIsWaiting(world, waiter);
        ghost var before, t := world, TimedStep(Wake(waiter), later);
        OwnTurnAccounted(start, before, moves, queued, [], prompts, t);
        moves := moves + [Move(t, true)];
        InvShape(before);
        outcome := Poll(waiter, later);
        TurnTaken(before, t, waiter, Pass(before.gate, waiter, later));
        i := i + 1;
      }
      match outcome
      case Admitted(ticket) => result := Ticketed(ticket);
      case TimedOut => result := DeadlinePassed;
    }
  }
}
