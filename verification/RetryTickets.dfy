/** What becomes of a call's waiters and tickets while it and the others go on. */
module RetryTickets {
  import opened Basics
  import opened GateModel
  import opened GateRuns
  import opened GateTheorems
  import opened GateTickets
  import opened GateAccounts
  import opened ProviderGates
  import opened RetryPolicy

  /** The tickets of this call: distinct, issued to it after `start`, none still out. */
  ghost predicate AllGivenBack(start: World, w: World, tickets: seq<Ticket>) {
    && (forall i :: 0 <= i < |tickets| ==>
          && |start.history| < tickets[i].id
          && GivenBack(w, tickets[i].id))
    && (forall i, j :: 0 <= i < j < |tickets| ==> tickets[i].id < tickets[j].id)
  }

  // ---- What runs do to a ticket that is no longer out ----

  lemma {:induction false} RunsSpareReturned(w: World, run: seq<TimedStep>, id: nat)
    requires Inv(w) && Legal(w, run) && 0 < id <= |w.history| && !Outstanding(w, id)
    ensures !Outstanding(After(w, run), id) && SameRecord(w, After(w, run), id)
    decreases |run|
  {
    hide Inv, Enabled, Then;
    if run != [] {
      InvShape(w);
      InvShape(Then(w, run[0]));
      StepTicket(w, run[0], id);
      NotOutMeansNotGivenBack(w, run[0], id);
      RunsSpareReturned(Then(w, run[0]), run[1..], id);
    }
  }

  lemma NotOutMeansNotGivenBack(w: World, t: TimedStep, id: nat)
    requires !Outstanding(w, id)
    ensures !GivesBack(w, t.step, id)
  {
  }

  lemma RunsSpareReturnedTickets(start: World, w: World, run: seq<TimedStep>, tickets: seq<Ticket>)
    requires Inv(w) && Legal(w, run) && AllGivenBack(start, w, tickets)
    ensures AllGivenBack(start, After(w, run), tickets)
  {
    hide Inv, Legal, After, Outstanding;
    forall i | 0 <= i < |tickets| ensures GivenBack(After(w, run), tickets[i].id) {
      RunsSpareReturned(w, run, tickets[i].id);
    }
  }

  /** A second release of the same ticket, as the `finally` clause makes, does nothing. */
  lemma SecondReleaseDoesNothing(w: World, t: TimedStep, id: nat)
    requires Inv(w) && Enabled(w, t) && !Outstanding(w, id)
    requires t.step.Release? && t.step.ticket.Some? && t.step.ticket.value.id == id
    ensures Then(w, t) == w.(clock := t.at)
  {
    hide Inv, Pass, Noted, Without;
  }

  /**
   The usage a completion reports is what stays on record for its ticket, however the
   run goes on, unless the ticket's event had already left the window.
   */
  lemma ReportedUsageStays(w: World, ticket: Ticket, usage: int, at: real, rest: seq<TimedStep>)
    requires Inv(w) && Keeps(w, Holding(ticket)) && w.clock <= at && 0 <= usage <= MAX_USAGE
    requires Legal(w, [TimedStep(Step.Release(Some(ticket), Some(usage)), at)] + rest)
    ensures var run := [TimedStep(Step.Release(Some(ticket), Some(usage)), at)] + rest;
            var v := After(w, run);
            && ticket.id <= |v.recorded|
            && v.recorded[ticket.id - 1] ==
                 (if ticket.id in w.gate.events then usage else ticket.estimatedTokens)
  {
    hide Inv, Then, Legal, After, Enabled;
    var t := TimedStep(Step.Release(Some(ticket), Some(usage)), at);
    var run := [t] + rest;
    assert run[0] == t && run[1..] == rest;
    HeadOfRun(w, run);
    RecordOfRelease(w, ticket, usage, at);
    GivenBackAfter(w, t, ticket);
    RunsSpareReturned(Then(w, t), rest, ticket.id);
  }

  lemma HeadOfRun(w: World, run: seq<TimedStep>)
    requires Inv(w) && |run| > 0 && Legal(w, run)
    ensures Enabled(w, run[0]) && Legal(Then(w, run[0]), run[1..])
    ensures After(w, run) == After(Then(w, run[0]), run[1..])
  {
    hide Inv, Then, Enabled;
  }

  lemma RecordOfRelease(w: World, ticket: Ticket, usage: int, at: real)
    requires Inv(w) && Keeps(w, Holding(ticket)) && w.clock <= at && 0 <= usage <= MAX_USAGE
    ensures var v := Then(w, TimedStep(Step.Release(Some(ticket), Some(usage)), at));
            && 0 < ticket.id <= |v.recorded|
            && v.recorded[ticket.id - 1] ==
                 (if ticket.id in w.gate.events then usage else ticket.estimatedTokens)
  {
    hide Inv, Then, Pass, Noted, Without;
    ThenIsNext(w, TimedStep(Step.Release(Some(ticket), Some(usage)), at));
    RecordOfHeld(w, ticket);
  }

  lemma RecordOfHeld(w: World, ticket: Ticket)
    requires Inv(w) && Keeps(w, Holding(ticket))
    ensures 0 < ticket.id <= |w.recorded| && w.recorded[ticket.id - 1] == ticket.estimatedTokens
  {
  }

  lemma NoTicketsYet(start: World)
    ensures AllGivenBack(start, start, [])
  {
  }

  lemma OneMoreGivenBack(start: World, w: World, tickets: seq<Ticket>, ticket: Ticket)
    requires AllGivenBack(start, w, tickets)
    requires |start.history| < ticket.id && GivenBack(w, ticket.id)
    requires forall i :: 0 <= i < |tickets| ==> tickets[i].id < ticket.id
    ensures AllGivenBack(start, w, tickets + [ticket])
  {
    hide Outstanding;
  }

  lemma EarlierTickets(start: World, w: World, tickets: seq<Ticket>)
    requires AllGivenBack(start, w, tickets)
    ensures forall i :: 0 <= i < |tickets| ==> tickets[i].id <= |w.history|
  {
  }

  /** Tickets that were issued during the run and are back have been given back once each. */
  lemma GivenBackOnceEach(start: World, run: seq<TimedStep>, tickets: seq<Ticket>)
    requires Inv(start) && Legal(start, run) && AllGivenBack(start, After(start, run), tickets)
    ensures forall i :: 0 <= i < |tickets| ==> Releases(start, run, tickets[i].id) == 1
  {
    hide Inv, Legal, After, Releases;
    forall i | 0 <= i < |tickets| ensures Releases(start, run, tickets[i].id) == 1 {
      EachTicketIsGivenBackOnce(start, run, tickets[i].id);
    }
  }

  /** `moves` lead from `start` to `w`, by these deeds of the call, and its tickets are back. */
  ghost predicate Settled(
    start: World, w: World, moves: seq<Move>, arrivals: seq<Arrival>, returned: seq<TimedStep>,
    prompts: set<Step>, tickets: seq<Ticket>) {
    Accounts(start, w, moves, arrivals, returned, prompts) && AllGivenBack(start, w, tickets)
  }

  lemma SettledStart(start: World, prompts: set<Step>)
    requires Inv(start)
    ensures Settled(start, start, [], [], [], prompts, [])
  {
    NothingToAccount(start, prompts);
    NoTicketsYet(start);
  }

  /** A further account, of the call's own deeds or of the others', loses no ticket. */
  lemma SettledAfterMore(
    start: World, w: World, moves: seq<Move>, arrivals: seq<Arrival>, returned: seq<TimedStep>,
    prompts: set<Step>, tickets: seq<Ticket>, v: World, more: seq<Move>, newArrivals: seq<Arrival>,
    newReturned: seq<TimedStep>, newPrompts: set<Step>, all: set<Step>)
    requires Settled(start, w, moves, arrivals, returned, prompts, tickets)
    requires Accounts(w, v, more, newArrivals, newReturned, newPrompts)
    requires prompts <= all && newPrompts <= all
    ensures Settled(start, v, moves + more, arrivals + newArrivals, returned + newReturned, all, tickets)
    ensures |start.history| <= |w.history| && w.history <= v.history
    ensures w.gate.blockedUntil <= v.gate.blockedUntil
    ensures forall i :: 0 <= i < |tickets| ==> tickets[i].id <= |w.history|
  {
    hide Accounts, AllGivenBack;
    AccountsGrow(start, w, moves, arrivals, returned, prompts);
    AccountsGrow(w, v, more, newArrivals, newReturned, newPrompts);
    AccountedRun(w, v, more, newArrivals, newReturned, newPrompts);
    RunsSpareReturnedTickets(start, w, Steps(more), tickets);
    EarlierTickets(start, w, tickets);
    AccountsCompose(start, w, moves, arrivals, returned, prompts, v, more, newArrivals, newReturned, newPrompts);
    MorePrompts(start, v, moves + more, arrivals + newArrivals, returned + newReturned, prompts + newPrompts, all);
  }

  lemma AccountedRun(
    start: World, w: World, moves: seq<Move>, arrivals: seq<Arrival>, returned: seq<TimedStep>, prompts: set<Step>)
    requires Accounts(start, w, moves, arrivals, returned, prompts)
    ensures Inv(start) && Inv(w) && Legal(start, Steps(moves)) && w == After(start, Steps(moves))
  {
    hide Inv, Legal, OwnArrivals, OwnReturns, Accounted, Steps;
  }

  lemma SettledWithTicket(
    start: World, w: World, moves: seq<Move>, arrivals: seq<Arrival>, returned: seq<TimedStep>,
    prompts: set<Step>, tickets: seq<Ticket>, ticket: Ticket)
    requires Settled(start, w, moves, arrivals, returned, prompts, tickets)
    requires |start.history| < ticket.id && GivenBack(w, ticket.id)
    requires forall i :: 0 <= i < |tickets| ==> tickets[i].id < ticket.id
    ensures Settled(start, w, moves, arrivals, returned, prompts, tickets + [ticket])
  {
    hide Accounts, AllGivenBack;
    OneMoreGivenBack(start, w, tickets, ticket);
  }

  // ---- The call as a whole ----

  /**
   What a call has done when it is over.  It queued `log.arrivals` and no other waiter,
   and released and blocked as the replies ask for and not otherwise; each of its waiters
   was served or gave up, and left one admission or none; every ticket was given back,
   once; retries kept the policy's pace; every 429 counted.
   */
  ghost predicate CallKept(
    terms: Terms, script: nat -> Exchange, request: Request, started: real, start: World, w: World,
    log: CallLog, prompts: set<Step>) {
    && Accounts(start, w, log.moves, log.arrivals, AllReturned(terms, script, log.tickets), prompts)
    && AllServed(w, request, log.arrivals, log.tickets)
    && (forall k :: |log.tickets| <= k < |log.arrivals| ==> log.arrivals[k].waiter.id in w.gaveUp)
    && OneEventEach(w, log.arrivals, log.tickets)
    && AllGivenBack(start, w, log.tickets)
    && (forall i :: 0 <= i < |log.tickets| ==> Releases(start, Steps(log.moves), log.tickets[i].id) == 1)
    && Paced(terms, script, started, log.arrivals, log.tickets)
    && CooldownsCount(terms, script, log.tickets, w.gate.blockedUntil)
  }

  /** The same between attempts, when every waiter so far was served. */
  ghost predicate CallGoing(
    terms: Terms, script: nat -> Exchange, request: Request, started: real, start: World, w: World,
    log: CallLog, prompts: set<Step>) {
    && |log.tickets| == |log.arrivals|
    && CallSettled(terms, script, request, started, start, w, log, prompts)
  }

  ghost predicate CallSettled(
    terms: Terms, script: nat -> Exchange, request: Request, started: real, start: World, w: World,
    log: CallLog, prompts: set<Step>) {
    && Settled(start, w, log.moves, log.arrivals, AllReturned(terms, script, log.tickets), prompts, log.tickets)
    && AllServed(w, request, log.arrivals, log.tickets)
    && Paced(terms, script, started, log.arrivals, log.tickets)
    && CooldownsCount(terms, script, log.tickets, w.gate.blockedUntil)
  }

  lemma CallStarts(
    terms: Terms, script: nat -> Exchange, request: Request, started: real, start: World, prompts: set<Step>)
    requires Inv(start)
    ensures CallGoing(terms, script, request, started, start, start, CallLog([], [], []), prompts)
  {
    hide Inv, Settled, CooldownsCount;
    SettledStart(start, prompts);
    NoCooldownYet(terms, script, start.gate.blockedUntil);
  }

  lemma CallEnds(
    terms: Terms, script: nat -> Exchange, request: Request, started: real, start: World, w: World,
    log: CallLog, prompts: set<Step>)
    requires CallSettled(terms, script, request, started, start, w, log, prompts)
    requires forall k :: |log.tickets| <= k < |log.arrivals| ==> log.arrivals[k].waiter.id in w.gaveUp
    ensures CallKept(terms, script, request, started, start, w, log, prompts)
  {
    hide Accounts, AllGivenBack, AllServed, OneEventEach, Inv, Legal, After, Releases, Paced, CooldownsCount,
         AllReturned, Steps;
    var returned := AllReturned(terms, script, log.tickets);
    AccountedRun(start, w, log.moves, log.arrivals, returned, prompts);
    GivenBackOnceEach(start, Steps(log.moves), log.tickets);
    OneEventPerAttempt(w, request, log.arrivals, log.tickets);
  }

  lemma CallEndsServed(
    terms: Terms, script: nat -> Exchange, request: Request, started: real, start: World, w: World,
    log: CallLog, prompts: set<Step>)
    requires CallGoing(terms, script, request, started, start, w, log, prompts)
    ensures CallKept(terms, script, request, started, start, w, log, prompts)
  {
    hide CallSettled, CallKept;
    CallEnds(terms, script, request, started, start, w, log, prompts);
  }

  /** Others move, or the call does something that leaves no trace in its deeds. */
  lemma CallGoesOn(
    terms: Terms, script: nat -> Exchange, request: Request, started: real, start: World, w: World,
    log: CallLog, prompts: set<Step>, v: World, more: seq<Move>, theirs: set<Step>)
    requires CallGoing(terms, script, request, started, start, w, log, prompts)
    requires Accounts(w, v, more, [], [], theirs) && theirs <= prompts
    ensures CallGoing(terms, script, request, started, start, v, log.(moves := log.moves + more), prompts)
  {
    hide Settled, AllServed, Paced, CooldownsCount, Accounts, AllReturned;
    var returned := AllReturned(terms, script, log.tickets);
    SettledAfterMore(start, w, log.moves, log.arrivals, returned, prompts, log.tickets,
                     v, more, [], [], theirs, prompts);
    assert log.arrivals + [] == log.arrivals && returned + [] == returned;
    ServedStays(w, v, request, log.arrivals, log.tickets);
    CooldownsGoOn(terms, script, log.tickets, w.gate.blockedUntil, v.gate.blockedUntil);
  }

  /** The call queues its next waiter, which gives up or is served, at the right moment. */
  lemma CallQueues(
    terms: Terms, script: nat -> Exchange, request: Request, started: real, start: World, w: World,
    log: CallLog, prompts: set<Step>, v: World, more: seq<Move>, theirs: set<Step>, at: real)
    requires CallGoing(terms, script, request, started, start, w, log, prompts)
    requires !OverQuota(request)
    requires Accounts(w, v, more, OneArrival(w, request, at), [], theirs) && theirs <= prompts
    requires if log.tickets == [] then at == started
             else RetriedAt(terms, script, |log.tickets|, log.tickets[|log.tickets| - 1].admittedAt, at)
    ensures CallSettled(terms, script, request, started, start, v,
              CallLog(log.moves + more, log.arrivals + [Arrival(Waiter(w.arrivals, request), at)], log.tickets),
              prompts)
    ensures |start.history| <= |w.history|
    ensures forall i :: 0 <= i < |log.tickets| ==> log.tickets[i].id <= |w.history|
  {
    hide Settled, AllServed, Paced, CooldownsCount, Accounts, AllReturned, RetriedAt, OverQuota;
    var returned, arrival := AllReturned(terms, script, log.tickets), Arrival(Waiter(w.arrivals, request), at);
    OneArrivalIs(w, request, at);
    SettledAfterMore(start, w, log.moves, log.arrivals, returned, prompts, log.tickets,
                     v, more, [arrival], [], theirs, prompts);
    assert returned + [] == returned;
    ServedStays(w, v, request, log.arrivals, log.tickets);
    OneMoreWaiting(v, request, log.arrivals, log.tickets, arrival);
    PacedStep(terms, script, started, log.arrivals, log.tickets, arrival);
    CooldownsGoOn(terms, script, log.tickets, w.gate.blockedUntil, v.gate.blockedUntil);
  }

  /** Whoever was served was admitted after every cooldown the call had already met. */
  lemma ServedAfterCooldowns(
    terms: Terms, script: nat -> Exchange, request: Request, started: real, start: World, w: World,
    log: CallLog, prompts: set<Step>, v: World, more: seq<Move>, theirs: set<Step>, at: real, ticket: Ticket)
    requires CallGoing(terms, script, request, started, start, w, log, prompts)
    requires Accounts(w, v, more, OneArrival(w, request, at), [], theirs)
    requires |w.history| < ticket.id <= |v.history| && v.history[ticket.id - 1].at == ticket.admittedAt
    ensures forall i :: 0 <= i < |log.tickets| ==>
      CooldownCounted(terms, script, log.tickets + [ticket], v.gate.blockedUntil, i)
  {
    hide Settled, AllServed, Paced, CooldownsCount, CooldownCounted, Accounts, OneArrival;
    AccountsGrow(w, v, more, OneArrival(w, request, at), [], theirs);
    AdmittedAfterCooldown(w, v, more, OneArrival(w, request, at), [], theirs, ticket.id);
    AdmittedTicketRespects(terms, script, log.tickets, w.gate.blockedUntil, ticket, v.gate.blockedUntil);
  }

  /** The waiter was served, and the attempt is over. */
  lemma CallReturnsTicket(
    terms: Terms, script: nat -> Exchange, request: Request, started: real, start: World, w: World,
    log: CallLog, prompts: set<Step>, v: World, more: seq<Move>, theirs: set<Step>, ticket: Ticket)
    requires CallSettled(terms, script, request, started, start, w, log, prompts)
    requires |log.arrivals| == |log.tickets| + 1
    requires ServedAs(w, log.arrivals[|log.tickets|], ticket)
    requires |start.history| < ticket.id && forall i :: 0 <= i < |log.tickets| ==> log.tickets[i].id < ticket.id
    requires forall i :: 0 <= i < |log.tickets| ==>
      CooldownCounted(terms, script, log.tickets + [ticket], w.gate.blockedUntil, i)
    requires var n := |log.tickets|;
             && Accounts(w, v, more, [], Returned(terms, script(n), n + 1, ticket), theirs) && theirs <= prompts
             && (!Late(terms, script(n), ticket.admittedAt) && RateLimited(script(n).reply) ==>
                   v.gate.blockedUntil >= HeldOffUntil(terms, script(n), n + 1, ticket.admittedAt))
    requires GivenBack(v, ticket.id)
    ensures CallGoing(terms, script, request, started, start, v,
              CallLog(log.moves + more, log.arrivals, log.tickets + [ticket]), prompts)
  {
    hide Settled, AllServed, ServedAs, Paced, CooldownsCount, CooldownCounted, Accounts, AllReturned, Returned,
         GivenBack, Late, RateLimited, HeldOffUntil;
    var n, returned := |log.tickets|, AllReturned(terms, script, log.tickets);
    SettledAfterMore(start, w, log.moves, log.arrivals, returned, prompts, log.tickets,
                     v, more, [], Returned(terms, script(n), n + 1, ticket), theirs, prompts);
    assert log.arrivals + [] == log.arrivals;
    OneMoreReturned(terms, script, log.tickets, ticket);
    SettledWithTicket(start, v, log.moves + more, log.arrivals,
                      AllReturned(terms, script, log.tickets + [ticket]), prompts, log.tickets, ticket);
    OneMoreServed(w, request, log.arrivals, log.tickets, ticket);
    ServedStays(w, v, request, log.arrivals, log.tickets + [ticket]);
    PacedTicket(terms, script, started, log.arrivals, log.tickets, ticket);
    OneMoreCooldown(terms, script, log.tickets, w.gate.blockedUntil, ticket, v.gate.blockedUntil);
  }

  lemma OneArrivalIs(w: World, request: Request, at: real)
    ensures OneArrival(w, request, at) ==
      if OverQuota(request) then [] else [Arrival(Waiter(w.arrivals, request), at)]
  {
  }

  /** No admission of a run comes before the cooldown in force at its start. */
  lemma AdmittedAfterCooldown(
    w: World, v: World, moves: seq<Move>, arrivals: seq<Arrival>, returned: seq<TimedStep>, prompts: set<Step>, id: nat)
    requires Accounts(w, v, moves, arrivals, returned, prompts)
    requires |w.history| < id <= |v.history|
    ensures v.history[id - 1].at >= w.gate.blockedUntil
  {
    hide Inv, Legal, After, OwnArrivals, OwnReturns, Accounted, Steps;
    NoAdmissionDuringCooldown(w, Steps(moves), id - 1);
  }

  ghost predicate GivenBack(w: World, id: nat) {
    0 < id <= |w.history| && !Outstanding(w, id)
  }

  lemma EnabledRelease(w: World, t: TimedStep)
    requires w.clock <= t.at && (t.step.Release? || t.step.ReleaseAndBlock?)
    ensures Enabled(w, t)
  {
  }

  lemma IdleKeepsNothing(w: World)
    ensures Keeps(w, Idle)
  {
  }

  lemma GivenBackAfter(w: World, t: TimedStep, ticket: Ticket)
    requires Inv(w) && Enabled(w, t)
    requires t.step.Release? || t.step.ReleaseAndBlock?
    requires t.step.ticket == Some(ticket)
    requires Keeps(w, Holding(ticket)) || GivenBack(w, ticket.id)
    ensures GivenBack(Then(w, t), ticket.id)
  {
    hide Inv, Then, Enabled;
    StepTicket(w, t, ticket.id);
  }
}
