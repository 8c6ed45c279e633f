/**
 One completion call: at most `maxAttempts` exchanges with the server, each holding one
 ticket of the shared gate, with other callers running at every point in between.
 */
module RetryLoop {
  import opened Basics
  import opened GateModel
  import opened GateRuns
  import opened GateTheorems
  import opened GateTickets
  import opened GateAccounts
  import opened ProviderGates
  import opened RetryPolicy
  import opened RetryTickets

  lemma ValidGate(gate: ProviderGate)
    requires gate.Valid()
    ensures Inv(gate.world)
  {
  }

  class LocalLLMClient {
    const client: Client

    constructor (client: Client)
      ensures this.client == client
    {
      this.client := client;
    }

    /** `gate.release(ticket, usage)`, and others running before the next statement. */
    method GiveBack(
      gate: ProviderGate, ticket: Ticket, usage: Option<int>, at: real, others: seq<Doing>,
      ghost start: World, ghost before: seq<Move>, ghost returned: seq<TimedStep>, ghost prompts: set<Step>)
      returns (now: real, ghost moves: seq<Move>)
      requires gate.Valid() && gate.world.clock <= at
      requires Accounts(start, gate.world, before, [], returned, prompts) && StepsOf(others) <= prompts
      requires Keeps(gate.world, Holding(ticket)) || GivenBack(gate.world, ticket.id)
      modifies gate
      ensures gate.Valid() && gate.world.clock <= now && now == at + Elapsed(others)
      ensures Accounts(start, gate.world, moves, [],
                returned + [TimedStep(Step.Release(Some(ticket), usage), at)], prompts)
      ensures GivenBack(gate.world, ticket.id)
    {
      hide Inv, Then, Keeps, Enabled, Accounts, GivenBack, Elapsed, StepsOf;
      ghost var t := TimedStep(Step.Release(Some(ticket), usage), at);
      EnabledRelease(gate.world, t);
      OwnReturnAccounted(start, gate.world, before, [], returned, prompts, t);
      GivenBackAfter(gate.world, t, ticket);
      gate.Release(Some(ticket), usage, at);
      now, moves := MeanwhileOthers(
        gate, ticket, at, others, start, before + [Move(t, true)], returned + [t], prompts);
    }

    method GiveBackAndBlock(
      gate: ProviderGate, ticket: Ticket, delay: real, at: real, others: seq<Doing>,
      ghost start: World, ghost before: seq<Move>, ghost returned: seq<TimedStep>, ghost prompts: set<Step>)
      returns (now: real, ghost moves: seq<Move>)
      requires gate.Valid() && gate.world.clock <= at
      requires Accounts(start, gate.world, before, [], returned, prompts) && StepsOf(others) <= prompts
      requires Keeps(gate.world, Holding(ticket))
      modifies gate
      ensures gate.Valid() && gate.world.clock <= now && now == at + Elapsed(others)
      ensures Accounts(start, gate.world, moves, [],
                returned + [TimedStep(Step.ReleaseAndBlock(Some(ticket), delay, None), at)], prompts)
      ensures GivenBack(gate.world, ticket.id)
      ensures gate.world.gate.blockedUntil >= at + MinReal(MaxReal(0.0, delay), MAX_COOLDOWN)
    {
      hide Inv, Then, Enabled, Accounts, GivenBack, Elapsed, StepsOf;
      ghost var t := TimedStep(Step.ReleaseAndBlock(Some(ticket), delay, None), at);
      EnabledRelease(gate.world, t);
      OwnReturnAccounted(start, gate.world, before, [], returned, prompts, t);
      GivenBackAfter(gate.world, t, ticket);
      ReleaseAndBlockTakesEffect(gate.world, t);
      gate.ReleaseAndBlock(Some(ticket), delay, None, at);
      now, moves := MeanwhileOthers(
        gate, ticket, at, others, start, before + [Move(t, true)], returned + [t], prompts);
    }

    method MeanwhileOthers(
      gate: ProviderGate, ghost ticket: Ticket, at: real, others: seq<Doing>,
      ghost start: World, ghost before: seq<Move>, ghost returned: seq<TimedStep>, ghost prompts: set<Step>)
      returns (now: real, ghost moves: seq<Move>)
      requires gate.Valid() && gate.world.clock <= at
      requires Accounts(start, gate.world, before, [], returned, prompts) && StepsOf(others) <= prompts
      requires GivenBack(gate.world, ticket.id)
      modifies gate
      ensures gate.Valid() && gate.world.clock <= now && now == at + Elapsed(others)
      ensures Accounts(start, gate.world, moves, [], returned, prompts)
      ensures GivenBack(gate.world, ticket.id)
      ensures gate.world.gate.blockedUntil >= old(gate.world).gate.blockedUntil
    {
      ghost var more, w := [], gate.world;
      IdleKeepsNothing(w);
      hide Inv, Keeps, Outstanding, Accounts, Elapsed, StepsOf;
      now, more := gate.LetOthersRun(others, Idle, at);
      AccountedRun(w, gate.world, more, [], [], StepsOf(others));
      RunsSpareReturned(w, Steps(more), ticket.id);
      AccountsGrow(w, gate.world, more, [], [], StepsOf(others));
      OthersAccounted(start, w, before, [], returned, prompts, gate.world, more, StepsOf(others));
      moves := before + more;
    }

    /** The handler of HTTP errors; a 429 gives the ticket back and blocks in one step. */
    method OnHttpError(
      gate: ProviderGate, ticket: Ticket, ghost end: real, schemaMode: bool, attempt: nat, exchange: Exchange,
      at: real, ghost start: World, ghost before: seq<Move>, ghost prompts: set<Step>)
      returns (exit: Exit, now: real, downgraded: bool, released: bool, ghost moves: seq<Move>)
      requires gate.Valid() && gate.world.clock <= at
      requires exchange.reply.Http? && 1 <= attempt <= client.maxAttempts
      requires Accounts(start, gate.world, before, [], [], prompts) && StepsOf(exchange.before) <= prompts
      requires Keeps(gate.world, Holding(ticket))
      modifies gate
      ensures gate.Valid() && gate.world.clock <= now
      ensures downgraded <==> SchemaFallback(exchange.reply, schemaMode)
      ensures released <==> RateLimited(exchange.reply)
      ensures var terms := Terms(client, end, schemaMode);
        && exit == (if Retryable(exchange.reply, schemaMode) && attempt != client.maxAttempts then
                      Again(PolicyDelay(terms, exchange.reply, attempt), FailureOf(exchange.reply))
                    else Break(FailureOf(exchange.reply)))
        && if released then
             var delay := CooldownOf(PolicyDelay(terms, exchange.reply, attempt));
             && now == at + Elapsed(exchange.before) && GivenBack(gate.world, ticket.id)
             && Accounts(start, gate.world, moves, [],
                  [TimedStep(Step.ReleaseAndBlock(Some(ticket), delay, None), at)], prompts)
             && gate.world.gate.blockedUntil >= at + MinReal(MaxReal(0.0, delay), MAX_COOLDOWN)
           else
             now == at && moves == before && gate.world == old(gate.world)
    {
      hide Inv, Keeps, GivenBack, Accounts, Elapsed, StepsOf, MinReal, MaxReal, ParseRetryAfter, ComputeBackoff;
      var code, retryAfter := exchange.reply.code, exchange.reply.retryAfter;
      downgraded, released, now, moves := false, false, at, before;
      var retryDelay := NoDelay;
      var isSchemaFallback := code == 400 && schemaMode;
      if isSchemaFallback {
        downgraded := true;
        if attempt < client.maxAttempts {
          retryDelay := Seconds(0.0);
        }
      } else if code == 429 {
        retryDelay := ParseRetryAfter(retryAfter);
        ParsedUnlessAbsent(retryAfter);
        if retryDelay.NoDelay? {
          retryDelay := ComputeBackoff(attempt, client);
        }
        ghost var t := TimedStep(Step.ReleaseAndBlock(Some(ticket), CooldownOf(retryDelay), None), at);
        assert [] + [t] == [t];
        now, moves := GiveBackAndBlock(
          gate, ticket, CooldownOf(retryDelay), at, exchange.before, start, before, [], prompts);
        released := true;
      }
      if (code !in RETRYABLE && !isSchemaFallback) || attempt == client.maxAttempts {
        exit := Break(HttpFailure(code));
      } else {
        if !isSchemaFallback && code != 429 {
          retryDelay := ComputeBackoff(attempt, client);
        }
        exit := Again(retryDelay, HttpFailure(code));
      }
    }

    /**
     The `try` statement of attempt number `attempt`, with its handlers and its
     `finally`.  Whichever way it is left, the ticket is no longer out, the call has
     released and blocked just as the reply asks for, and a 429 holds everybody off.
     */
    method Try(
      gate: ProviderGate, ticket: Ticket, end: real, schemaMode: bool, attempt: nat,
      exchange: Exchange, started: real)
      returns (exit: Exit, now: real, downgraded: bool, ghost moves: seq<Move>)
      requires gate.Valid() && gate.world.clock <= started == ticket.admittedAt
      requires 1 <= attempt <= client.maxAttempts
      requires Keeps(gate.world, Holding(ticket))
      modifies gate
      ensures gate.Valid() && gate.world.clock <= now
      ensures var terms := Terms(client, end, schemaMode);
        && now == LeftAt(terms, exchange, started)
        && Accounts(old(gate.world), gate.world, moves, [],
             Returned(terms, exchange, attempt, ticket), Prompts(exchange))
        && exit == ExitOf(terms, exchange, attempt, started)
        && (!Late(terms, exchange, started) && RateLimited(exchange.reply) ==>
              gate.world.gate.blockedUntil >= HeldOffUntil(terms, exchange, attempt, started))
        && (downgraded <==> !Late(terms, exchange, started) && SchemaFallback(exchange.reply, schemaMode))
      ensures GivenBack(gate.world, ticket.id)
    {
      hide Inv, Keeps, Outstanding, GivenBack, Accounts, Elapsed, StepsOf, StepsDuring, Prompts,
           MinReal, MaxReal, PolicyDelay, CooldownOf, ComputeBackoff, ProviderGate.Valid;
      ValidGate(gate);
      ghost var start, prompts := gate.world, Prompts(exchange);
      PromptsOfExchange(exchange);
      downgraded := false;
      var released := false;
      var held := Some(ticket);
      now := started + exchange.sending;
      NothingToAccount(start, prompts);
      moves := [];
      ghost var returned: seq<TimedStep> := [];
      var remaining := end - now;
      if remaining <= 0.0 {
        exit := Return(DeadlineError);
      } else {
        now, moves := gate.LetOthersRun(exchange.during, Holding(ticket), now);
        MorePrompts(start, gate.world, moves, [], [], StepsOf(exchange.during), prompts);
        now := now + exchange.receiving;
        match exchange.reply {
          case Completion(usage) =>
            returned := [TimedStep(Step.Release(Some(ticket), usage), now)];
            assert [] + returned == returned;
            now, moves := GiveBack(gate, ticket, usage, now, exchange.before, start, moves, [], prompts);
            exit := Return(Completed(attempt, downgraded));
          case CompletionThenMalformed(usage) =>
            returned := [TimedStep(Step.Release(Some(ticket), usage), now)];
            assert [] + returned == returned;
            now, moves := GiveBack(gate, ticket, usage, now, exchange.before, start, moves, [], prompts);
            exit := Break(MalformedResponse);
          case CompletionThenOther(usage) =>
            returned := [TimedStep(Step.Release(Some(ticket), usage), now)];
            assert [] + returned == returned;
            now, moves := GiveBack(gate, ticket, usage, now, exchange.before, start, moves, [], prompts);
            exit := Return(OtherError);
          case Http(code, retryAfter) =>
            exit, now, downgraded, released, moves := OnHttpError(
              gate, ticket, end, schemaMode, attempt, exchange, now, start, moves, prompts);
            if released {
              held := None;
            }
          case Unreachable =>
            if attempt == client.maxAttempts {
              exit := Break(EndpointUnreachable);
            } else {
              OrdinaryDelay(Terms(client, end, schemaMode), exchange.reply, attempt);
              exit := Again(ComputeBackoff(attempt, client), EndpointUnreachable);
            }
          case Malformed =>
            exit := Break(MalformedResponse);
          case Other =>
            exit := Return(OtherError);
        }
      }
      // finally
      if held.Some? && !released {
        NoneElapsed(prompts);
        ghost var last := TimedStep(Step.Release(held, None), now);
        assert returned + [last] == Returned(Terms(client, end, schemaMode), exchange, attempt, ticket);
        now, moves := GiveBack(gate, ticket, None, now, [], start, moves, returned, prompts);
      }
    }

    /**
     Every path out of a call, whatever the environment does.  The call queues one waiter
     an attempt and no other; each is served or gives up; every ticket is given back, as
     its reply asks for, exactly once; only retryable replies are retried, after exactly
     the policy's delay, and none that would reach the deadline; and a 429 holds off the
     call's own next attempt like everybody else's.
     */
    method GenerateResult(
      gate: ProviderGate, request: Request, schemaMode: bool, script: nat -> Exchange, started: real)
      returns (result: CallResult, now: real, ghost log: CallLog)
      requires gate.Valid() && gate.world.clock <= started
      modifies gate
      ensures gate.Valid() && gate.world.clock <= now
      ensures var terms := Terms(client, request.deadline, schemaMode);
        && CallKept(terms, script, request, started, old(gate.world), gate.world, log,
             Prompted(script, MaxInt(0, client.maxAttempts)))
        && Ends(terms, script, request, gate.world, log.arrivals, log.tickets, result, now)
      ensures |log.tickets| <= |log.arrivals| <= MaxInt(0, client.maxAttempts)
    {
      hide Inv, Then, Legal, After, Keeps, Outstanding, Enabled, GivenBack, Accounts, Elapsed, StepsOf, StepsDuring,
           Prompts, Prompted, Returned, CallGoing, CallSettled, CallKept, RetriedAt, Downgraded, SchemaFallback,
           Retryable, OverQuota, Late, RateLimited, HeldOffUntil, CooldownCounted, ExitOf, Ending, LeftAt,
           PolicyDelay, ProviderGate.Valid, Slept;
      ValidGate(gate);
      ghost var start, terms := gate.world, Terms(client, request.deadline, schemaMode);
      ghost var all := Prompted(script, MaxInt(0, client.maxAttempts));
      ghost var more: seq<Move>;
      log := CallLog([], [], []);
      CallStarts(terms, script, request, started, start, all);
      NoFallbackYet(script, schemaMode);
      var failure, downgraded, attempt := MalformedResponse, false, 0;
      now := started;
      while attempt < client.maxAttempts
        invariant 0 <= attempt <= MaxInt(0, client.maxAttempts)
        invariant gate.Valid() && gate.world.clock <= now
        invariant |log.tickets| == |log.arrivals| == attempt
        invariant CallGoing(terms, script, request, started, start, gate.world, log, all)
        invariant attempt == 0 ==> now == started && failure.MalformedResponse?
        invariant attempt > 0 ==>
          !OverQuota(request) && RetriedAt(terms, script, attempt, log.tickets[attempt - 1].admittedAt, now)
        invariant downgraded == Downgraded(script, attempt, schemaMode)
        decreases client.maxAttempts - attempt
      {
        var exchange := script(attempt);
        attempt := attempt + 1;
        PromptsOfAttempt(script, attempt);
        PromptedGrows(script, attempt, client.maxAttempts);
        var acquired;
        ghost var idle, before, asked, prompts := gate.world, log, now, StepsDuring(exchange.naps);
        acquired, now, more := gate.Acquire(request, now, exchange.naps);
        if acquired.OverTokenQuota? {
          OneArrivalIs(idle, request, asked);
          CallGoesOn(terms, script, request, started, start, idle, log, all, gate.world, more, prompts);
          log := log.(moves := log.moves + more);
          CallEndsServed(terms, script, request, started, start, gate.world, log, all);
          return OverQuotaError, now, log;
        }
        CallQueues(terms, script, request, started, start, idle, log, all, gate.world, more, prompts, asked);
        log := CallLog(log.moves + more, log.arrivals + [Arrival(Waiter(idle.arrivals, request), asked)], log.tickets);
        if !acquired.Ticketed? {
          CallEnds(terms, script, request, started, start, gate.world, log, all);
          result := if acquired.DeadlinePassed? then DeadlineError else InterruptedError;
          return;
        }
        var ticket := acquired.ticket;
        ghost var held := gate.world;
        ServedAfterCooldowns(terms, script, request, started, start, idle, before, all, held, more, prompts, asked, ticket);
        var exit, fellBack;
        exit, now, fellBack, more := Try(gate, ticket, request.deadline, schemaMode, attempt, exchange, now);
        CallReturnsTicket(terms, script, request, started, start, held, log, all, gate.world, more, Prompts(exchange), ticket);
        log := log.(moves := log.moves + more, tickets := log.tickets + [ticket]);
        EndingOfExit(terms, script, attempt, ticket.admittedAt);
        OneMoreAttempt(script, attempt - 1, schemaMode);
        NeverFallsBackToCompletion(exchange.reply, schemaMode);
        downgraded := downgraded || fellBack;
        match exit {
          case Return(r) =>
            result := if r.Completed? then r.(downgraded := downgraded) else r;
            CallEndsServed(terms, script, request, started, start, gate.world, log, all);
            return;
          case Break(why) =>
            failure := why;
            break;
          case Again(delay, why) =>
            failure := why;
            var remaining := request.deadline - now;
            if delay.Seconds? && remaining <= delay.s {
              break;
            }
            if delay.NaN? || delay.s < 0.0 {
              // time.sleep refuses the value
              CallEndsServed(terms, script, request, started, start, gate.world, log, all);
              return SleepError, now, log;
            }
            ghost var asleep := gate.world;
            var wakeAt := now + delay.s;
            IdleKeepsNothing(asleep);
            now, more := gate.LetOthersRun(exchange.asleep, Idle, now);
            now := MaxReal(now, wakeAt);
            CallGoesOn(terms, script, request, started, start, asleep, log, all, gate.world, more, StepsOf(exchange.asleep));
            log := log.(moves := log.moves + more);
            RetriedIs(terms, script, attempt, ticket.admittedAt, now);
        }
      }
      if attempt > 0 {
        RetriedIsNotLast(terms, script, attempt, log.tickets[attempt - 1].admittedAt, now);
      }
      CallEndsServed(terms, script, request, started, start, gate.world, log, all);
      result := Failed(failure, attempt);
    }
  }
}
