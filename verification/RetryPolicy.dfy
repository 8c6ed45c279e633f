/**
 What one completion call owes its callers and the gate, said without the loop: when an
 attempt ends, what it gives back, whether it is retried, after how long, and how the
 call ends.
 */
module RetryPolicy {
  import opened Basics
  import opened GateModel
  import opened GateRuns
  import opened GateAccounts

  const RETRYABLE: set<int> := {408, 429, 500, 502, 503, 504}

  datatype Client = Client(maxAttempts: int, initialBackoff: real, maxBackoff: real)

  /** The value of a Retry-After header: absent or unreadable, "nan", or a number. */
  datatype RetryAfter = NoHeader | NotANumber | Value(seconds: real)

  datatype Delay = NoDelay | Seconds(s: real) | NaN

  /** How an exchange ended.  The `Then` forms fail after the usage was already reported. */
  datatype Reply =
    | Completion(usage: Option<int>)
    | CompletionThenMalformed(usage: Option<int>)
    | CompletionThenOther(usage: Option<int>)
    | Http(code: int, retryAfter: RetryAfter)
    | Unreachable
    | Malformed
    | Other

  /** One attempt as the environment shapes it. */
  datatype Exchange = Exchange(
    naps: seq<Nap>,
    sending: Duration,
    during: seq<Doing>,
    reply: Reply,
    receiving: Duration,
    before: seq<Doing>,
    asleep: seq<Doing>)

  datatype Failure = HttpFailure(code: int) | EndpointUnreachable | MalformedResponse

  datatype CallResult =
    | Completed(attempts: nat, downgraded: bool)
    | Failed(failure: Failure, attempts: nat)
    | OverQuotaError
    | DeadlineError
    | InterruptedError
    | OtherError
    | SleepError

  /** What stays fixed during one call. */
  datatype Terms = Terms(client: Client, deadline: real, schemaMode: bool)

  /**
   What happened, for the specification: every step of everybody, the waiters the call
   queued, and the tickets it was issued.
   */
  datatype CallLog = CallLog(moves: seq<Move>, arrivals: seq<Arrival>, tickets: seq<Ticket>)

  function ParseRetryAfter(h: RetryAfter): Delay {
    match h
    case NoHeader => NoDelay
    case NotANumber => NaN
    case Value(r) => Seconds(MinReal(MaxReal(r, 0.0), MAX_COOLDOWN))
  }

  function ComputeBackoff(attempt: nat, c: Client): Delay
    requires attempt >= 1
  {
    Seconds(MinReal(c.initialBackoff * Pow2(attempt - 1) as real, c.maxBackoff))
  }

  /** `min(max(0.0, delay), 60)` compares a NaN away. */
  function CooldownOf(d: Delay): real {
    if d.Seconds? then d.s else 0.0
  }

  // ---- The retry policy, for the specification ----

  predicate SchemaFallback(reply: Reply, schemaMode: bool) {
    reply.Http? && reply.code == 400 && schemaMode
  }

  predicate Retryable(reply: Reply, schemaMode: bool) {
    || reply.Unreachable?
    || SchemaFallback(reply, schemaMode)
    || (reply.Http? && reply.code in RETRYABLE)
  }

  predicate Downgraded(script: nat -> Exchange, attempts: nat, schemaMode: bool) {
    exists i | 0 <= i < attempts :: SchemaFallback(script(i).reply, schemaMode)
  }

  predicate RateLimited(reply: Reply) {
    reply.Http? && reply.code == 429
  }

  /** The error a call ends with when `reply` was its last. */
  function FailureOf(reply: Reply): Failure {
    match reply
    case Http(code, _) => HttpFailure(code)
    case Unreachable => EndpointUnreachable
    case _ => MalformedResponse
  }

  /** What the policy waits after attempt number `attempt` ended with a retryable reply. */
  function PolicyDelay(terms: Terms, reply: Reply, attempt: nat): Delay
    requires attempt >= 1
  {
    if SchemaFallback(reply, terms.schemaMode) then Seconds(0.0)
    else if RateLimited(reply) && !reply.retryAfter.NoHeader? then ParseRetryAfter(reply.retryAfter)
    else ComputeBackoff(attempt, terms.client)
  }

  function SentAt(x: Exchange, admitted: real): real {
    admitted + x.sending
  }

  /** The deadline is over before the request is sent. */
  predicate Late(terms: Terms, x: Exchange, admitted: real) {
    SentAt(x, admitted) >= terms.deadline
  }

  function AnsweredAt(x: Exchange, admitted: real): real {
    SentAt(x, admitted) + Elapsed(x.during) + x.receiving
  }

  /** The body of the `try` statement, or a handler, gives the ticket back before `finally`. */
  predicate GivesBackEarly(reply: Reply) {
    reply.Completion? || reply.CompletionThenMalformed? || reply.CompletionThenOther? || RateLimited(reply)
  }

  /** When the attempt is over. */
  function LeftAt(terms: Terms, x: Exchange, admitted: real): real {
    if Late(terms, x, admitted) then SentAt(x, admitted)
    else if GivesBackEarly(x.reply) then AnsweredAt(x, admitted) + Elapsed(x.before)
    else AnsweredAt(x, admitted)
  }

  /** Every release and cooldown of one attempt. */
  function Returned(terms: Terms, x: Exchange, attempt: nat, ticket: Ticket): seq<TimedStep>
    requires attempt >= 1
  {
    var t, at := Some(ticket), AnsweredAt(x, ticket.admittedAt);
    var finally := TimedStep(Step.Release(t, None), LeftAt(terms, x, ticket.admittedAt));
    if Late(terms, x, ticket.admittedAt) then [finally]
    else if RateLimited(x.reply) then
      [TimedStep(Step.ReleaseAndBlock(t, CooldownOf(PolicyDelay(terms, x.reply, attempt)), None), at)]
    else if GivesBackEarly(x.reply) then
      [TimedStep(Step.Release(t, x.reply.usage), at), finally]
    else [finally]
  }

  /** The releases and cooldowns of a whole call whose attempts were issued `tickets`. */
  function AllReturned(terms: Terms, script: nat -> Exchange, tickets: seq<Ticket>): seq<TimedStep> {
    if tickets == [] then []
    else
      var n := |tickets| - 1;
      AllReturned(terms, script, tickets[..n]) + Returned(terms, script(n), n + 1, tickets[n])
  }

  /** How the call ends with this attempt; `None` when it sleeps and tries again. */
  function Ending(terms: Terms, script: nat -> Exchange, attempt: nat, admitted: real): Option<CallResult>
    requires attempt >= 1
  {
    var x := script(attempt - 1);
    if Late(terms, x, admitted) then Some(DeadlineError)
    else if x.reply.Completion? then Some(Completed(attempt, Downgraded(script, attempt, terms.schemaMode)))
    else if x.reply.CompletionThenOther? || x.reply.Other? then Some(OtherError)
    else if !Retryable(x.reply, terms.schemaMode) || attempt == terms.client.maxAttempts then
      Some(Failed(FailureOf(x.reply), attempt))
    else
      var delay := PolicyDelay(terms, x.reply, attempt);
      if delay.Seconds? && terms.deadline - LeftAt(terms, x, admitted) <= delay.s then
        Some(Failed(FailureOf(x.reply), attempt))
      else if delay.NaN? || delay.s < 0.0 then Some(SleepError)
      else None
  }

  /** Attempt `attempt` ended in a retry, and the next one began at `at`. */
  ghost predicate RetriedAt(terms: Terms, script: nat -> Exchange, attempt: nat, admitted: real, at: real)
    requires attempt >= 1
  {
    var x := script(attempt - 1);
    && Ending(terms, script, attempt, admitted).None?
    && at == LeftAt(terms, x, admitted) + MaxReal(Elapsed(x.asleep), PolicyDelay(terms, x.reply, attempt).s)
  }

  /** The first attempt begins at once, every other one after the retry before it. */
  ghost predicate Paced(
    terms: Terms, script: nat -> Exchange, started: real, arrivals: seq<Arrival>, tickets: seq<Ticket>) {
    && |tickets| <= |arrivals| <= |tickets| + 1
    && (arrivals != [] ==> arrivals[0].at == started)
    && (forall i :: 0 < i < |arrivals| ==>
          RetriedAt(terms, script, i, tickets[i - 1].admittedAt, arrivals[i].at))
  }

  /** Every waiter but the last was served, in order, with a ticket on the call's estimate. */
  ghost predicate AllServed(w: World, request: Request, arrivals: seq<Arrival>, tickets: seq<Ticket>) {
    && |tickets| <= |arrivals|
    && (forall i :: 0 <= i < |arrivals| ==> arrivals[i].waiter.request == request)
    && (forall i :: 0 <= i < |tickets| ==> ServedAs(w, arrivals[i], tickets[i]))
  }

  ghost predicate ServedAs(w: World, arrival: Arrival, ticket: Ticket) {
    && 0 < ticket.id <= |w.history|
    && w.history[ticket.id - 1] == Admission(arrival.waiter, ticket.admittedAt)
    && ticket.estimatedTokens == arrival.waiter.request.estimate
    && arrival.at <= ticket.admittedAt
  }

  /** Until when the 429 that ended attempt `attempt` holds everybody off. */
  function HeldOffUntil(terms: Terms, x: Exchange, attempt: nat, admitted: real): real
    requires attempt >= 1
  {
    AnsweredAt(x, admitted)
      + MinReal(MaxReal(0.0, CooldownOf(PolicyDelay(terms, x.reply, attempt))), MAX_COOLDOWN)
  }

  /** `blockedUntil` and `tickets` respect the 429 that ended attempt `i + 1`, if it was one. */
  ghost predicate CooldownCounted(
    terms: Terms, script: nat -> Exchange, tickets: seq<Ticket>, blockedUntil: real, i: nat)
    requires i < |tickets|
  {
    var x, admitted := script(i), tickets[i].admittedAt;
    !Late(terms, x, admitted) && RateLimited(x.reply) ==>
      var until := HeldOffUntil(terms, x, i + 1, admitted);
      && blockedUntil >= until
      && forall j :: i < j < |tickets| ==> tickets[j].admittedAt >= until
  }

  ghost predicate CooldownsCount(
    terms: Terms, script: nat -> Exchange, tickets: seq<Ticket>, blockedUntil: real) {
    forall i: nat :: i < |tickets| ==> CooldownCounted(terms, script, tickets, blockedUntil, i)
  }

  /** What the environment may do in the first `n` attempts of the script. */
  ghost function Prompted(script: nat -> Exchange, n: nat): set<Step> {
    if n == 0 then {} else Prompted(script, n - 1) + Prompts(script(n - 1))
  }

  ghost function Prompts(x: Exchange): set<Step> {
    StepsDuring(x.naps) + StepsOf(x.during) + StepsOf(x.before) + StepsOf(x.asleep)
  }

  /** How a call that queued `arrivals` and was issued `tickets` ends, at `ended`. */
  ghost predicate Ends(
    terms: Terms, script: nat -> Exchange, request: Request, w: World, arrivals: seq<Arrival>,
    tickets: seq<Ticket>, result: CallResult, ended: real) {
    if terms.client.maxAttempts <= 0 then result == Failed(MalformedResponse, 0) && arrivals == []
    else if OverQuota(request) then result == OverQuotaError && arrivals == []
    else
      && arrivals != []
      && if |tickets| < |arrivals| then
           var last := arrivals[|arrivals| - 1];
           && last.waiter.id in w.gaveUp
           && (|| (result.DeadlineError? && ended >= request.deadline)
               || (result.InterruptedError? && ended == last.at + Slept(script(|tickets|).naps)))
         else
           |tickets| > 0
           && Ending(terms, script, |tickets|, tickets[|tickets| - 1].admittedAt) == Some(result)
  }

  // ---- What that comes to ----

  /**
   A retry follows only a retryable reply; its sleep is the policy's, ends before the
   deadline, and is over before the next attempt is even queued.
   */
  lemma RetriesMeetTheDeadline(
    terms: Terms, script: nat -> Exchange, started: real, arrivals: seq<Arrival>, tickets: seq<Ticket>, i: nat)
    requires Paced(terms, script, started, arrivals, tickets) && 0 < i < |arrivals|
    ensures var x, admitted := script(i - 1), tickets[i - 1].admittedAt;
            var delay := PolicyDelay(terms, x.reply, i);
            && Retryable(x.reply, terms.schemaMode) && i != terms.client.maxAttempts
            && delay.Seconds? && delay.s >= 0.0
            && admitted + x.sending < terms.deadline
            && LeftAt(terms, x, admitted) + delay.s < terms.deadline
            && LeftAt(terms, x, admitted) + delay.s <= arrivals[i].at
  {
    assert RetriedAt(terms, script, i, tickets[i - 1].admittedAt, arrivals[i].at);
    ComputedDelay(terms, script(i - 1).reply, i);
  }

  lemma ComputedDelay(terms: Terms, reply: Reply, attempt: nat)
    requires attempt >= 1
    ensures !PolicyDelay(terms, reply, attempt).NoDelay?
  {
  }

  /**
   The first retry waits the initial backoff and every later one twice the wait before,
   up to the maximum.
   */
  lemma BackoffDoubles(attempt: nat, c: Client)
    requires attempt >= 1
    ensures ComputeBackoff(1, c) == Seconds(if c.initialBackoff <= c.maxBackoff then c.initialBackoff else c.maxBackoff)
    ensures ComputeBackoff(attempt, c).Seconds?
    ensures c.maxBackoff >= 0.0 ==>
      var twice := 2.0 * ComputeBackoff(attempt, c).s;
      ComputeBackoff(attempt + 1, c) == Seconds(if twice <= c.maxBackoff then twice else c.maxBackoff)
    ensures c.maxBackoff < 0.0 <= c.initialBackoff ==> ComputeBackoff(attempt, c) == Seconds(c.maxBackoff)
  {
    assert Pow2(attempt) == 2 * Pow2(attempt - 1) && Pow2(0) == 1;
    var before, x := Pow2(attempt - 1) as real, c.initialBackoff;
    assert Pow2(attempt) as real == 2.0 * before;
    assert x * (2.0 * before) == 2.0 * (x * before);
    if x >= 0.0 {
      assert x * before >= 0.0;
    }
  }

  /** `d` is the number from 0 to a minute that lies nearest to what the server asked for. */
  ghost predicate NearestAllowed(d: real, asked: real) {
    && 0.0 <= d <= 60.0
    && forall x: real :: 0.0 <= x <= 60.0 ==> Distance(d, asked) <= Distance(x, asked)
  }

  ghost function Distance(a: real, b: real): real {
    if a <= b then b - a else a - b
  }

  /**
   The three waits: none before the schema is dropped, what a 429 asks for as far as it is
   allowed, and otherwise the backoff.
   */
  lemma WaitsAsAsked(terms: Terms, reply: Reply, attempt: nat)
    requires attempt >= 1
    ensures reply.Http? && reply.code == 400 && terms.schemaMode ==> PolicyDelay(terms, reply, attempt) == Seconds(0.0)
    ensures reply.Http? && reply.code == 429 && reply.retryAfter.Value? ==>
      && PolicyDelay(terms, reply, attempt).Seconds?
      && NearestAllowed(PolicyDelay(terms, reply, attempt).s, reply.retryAfter.seconds)
    ensures reply.Http? && reply.code == 429 && reply.retryAfter.NotANumber? ==> PolicyDelay(terms, reply, attempt).NaN?
    ensures !reply.Http? || (reply.code == 429 && reply.retryAfter.NoHeader?)
              || (reply.code != 429 && (reply.code != 400 || !terms.schemaMode)) ==>
      PolicyDelay(terms, reply, attempt) == ComputeBackoff(attempt, terms.client)
  {
  }

  /** A 429 holds everybody off from the answer on, for as long as its caller is told to wait. */
  lemma RateLimitHoldsOffAsAsked(terms: Terms, x: Exchange, attempt: nat, admitted: real)
    requires attempt >= 1 && x.reply.Http? && x.reply.code == 429
    ensures var held := HeldOffUntil(terms, x, attempt, admitted) - AnsweredAt(x, admitted);
            match x.reply.retryAfter
            case Value(asked) => NearestAllowed(held, asked)
            case NotANumber => held == 0.0
            case NoHeader => NearestAllowed(held, ComputeBackoff(attempt, terms.client).s)
  {
  }

  /** A usage report is in hand: the answer was read, whatever was wrong with it afterwards. */
  predicate Reported(reply: Reply) {
    match reply
    case Completion(_) | CompletionThenMalformed(_) | CompletionThenOther(_) => true
    case _ => false
  }

  /** How long the attempt holds its caller up after the admission. */
  function Spent(terms: Terms, x: Exchange, admitted: real): real {
    var sending := x.sending;
    if admitted + sending >= terms.deadline then sending
    else if Reported(x.reply) || (x.reply.Http? && x.reply.code == 429) then
      sending + Elapsed(x.during) + x.receiving + Elapsed(x.before)
    else sending + Elapsed(x.during) + x.receiving
  }

  /** The one step that counts: the ticket back at the answer, with its usage if there is one. */
  ghost predicate GaveBack(x: Exchange, ticket: Ticket, t: TimedStep, answered: real) {
    && t.at == answered
    && if x.reply.Http? && x.reply.code == 429 then
         && t.step.ReleaseAndBlock? && t.step.ticket == Some(ticket) && t.step.usage == None
         && match x.reply.retryAfter
            case Value(asked) => NearestAllowed(t.step.delay, asked)
            case NotANumber => t.step.delay == 0.0
            case NoHeader => true
       else
         t.step == Step.Release(Some(ticket), if Reported(x.reply) then x.reply.usage else None)
  }

  /**
   What one attempt does to the gate.  Late, it gives the ticket back unused.  Otherwise it
   gives it back when the answer is there, and only a 429 blocks; the release in `finally`
   follows only where a usage was reported before.
   */
  lemma AttemptGivesBackOnce(terms: Terms, x: Exchange, attempt: nat, ticket: Ticket)
    requires attempt >= 1
    ensures var admitted, r := ticket.admittedAt, Returned(terms, x, attempt, ticket);
            var sent := admitted + x.sending;
            var answered := sent + Elapsed(x.during) + x.receiving;
            && LeftAt(terms, x, admitted) == admitted + Spent(terms, x, admitted)
            && if sent >= terms.deadline then r == [TimedStep(Step.Release(Some(ticket), None), sent)]
               else
                 && r != [] && GaveBack(x, ticket, r[0], answered)
                 && r[1..] == if Reported(x.reply) then [TimedStep(Step.Release(Some(ticket), None), answered + Elapsed(x.before))]
                              else []
  {
  }

  /** Whatever a call does to the gate belongs to one of its attempts. */
  lemma {:induction false} ReturnsAreOfAttempts(terms: Terms, script: nat -> Exchange, tickets: seq<Ticket>, t: TimedStep)
    requires t in AllReturned(terms, script, tickets)
    ensures exists i: nat :: i < |tickets| && t in Returned(terms, script(i), i + 1, tickets[i])
  {
    hide Returned;
    var n := |tickets| - 1;
    if t in AllReturned(terms, script, tickets[..n]) {
      ReturnsAreOfAttempts(terms, script, tickets[..n], t);
      var i: nat :| i < n && t in Returned(terms, script(i), i + 1, tickets[..n][i]);
      assert tickets[..n][i] == tickets[i];
    } else {
      assert t in Returned(terms, script(n), n + 1, tickets[n]);
    }
  }

  /** A call none of whose attempts met a 429 blocks nobody. */
  lemma OnlyRateLimitsBlock(terms: Terms, script: nat -> Exchange, tickets: seq<Ticket>, t: TimedStep)
    requires t in AllReturned(terms, script, tickets) && !t.step.Release?
    ensures exists i: nat :: i < |tickets| && script(i).reply.Http? && script(i).reply.code == 429
                             && t.step.ReleaseAndBlock? && t.step.ticket == Some(tickets[i])
  {
    ReturnsAreOfAttempts(terms, script, tickets, t);
    var i: nat :| i < |tickets| && t in Returned(terms, script(i), i + 1, tickets[i]);
    hide AllReturned;
    AttemptGivesBackOnce(terms, script(i), i + 1, tickets[i]);
  }

  /** A timeout, a rate limit, a server error, no server at all, or a schema it does not know. */
  predicate WorthRetrying(reply: Reply, schemaMode: bool) {
    match reply
    case Unreachable => true
    case Http(code, _) => code == 408 || code == 429 || code == 500 || 502 <= code <= 504 || (code == 400 && schemaMode)
    case _ => false
  }

  /** Some exchange among the first `n` made the call go on without the schema. */
  ghost predicate SchemaRefused(script: nat -> Exchange, n: nat, schemaMode: bool) {
    schemaMode && exists i: nat :: i < n && script(i).reply.Http? && script(i).reply.code == 400
  }

  /**
   How a call ends whose last waiter was served: late, with the answer, with the error of
   the last reply, and with an HTTP, endpoint or sleep error only when that reply is not
   worth a retry, no attempt is left, or the wait would not end before the deadline.
   */
  lemma CallEndsExactly(
    terms: Terms, script: nat -> Exchange, request: Request, w: World, arrivals: seq<Arrival>,
    tickets: seq<Ticket>, result: CallResult, ended: real)
    requires Ends(terms, script, request, w, arrivals, tickets, result, ended)
    requires terms.client.maxAttempts > 0 && !OverQuota(request) && |tickets| == |arrivals|
    ensures var n := |tickets|;
      && n > 0
      && var x, sent := script(n - 1), tickets[n - 1].admittedAt + script(n - 1).sending;
         && (result.DeadlineError? <==> sent >= terms.deadline)
         && (result.Completed? <==> sent < terms.deadline && x.reply.Completion?)
         && (result.Completed? ==>
               result.attempts == n && (result.downgraded <==> SchemaRefused(script, n, terms.schemaMode)))
         && (result.OtherError? <==> sent < terms.deadline && (x.reply.Other? || x.reply.CompletionThenOther?))
         && (result.Failed? ==> FailedFor(terms, x, n, tickets[n - 1].admittedAt, result))
         && (result.SleepError? ==> Unwaitable(terms, x, n))
         && !result.OverQuotaError? && !result.InterruptedError?
  {
    var n := |tickets|;
    assert Downgraded(script, n, terms.schemaMode) <==> SchemaRefused(script, n, terms.schemaMode) by {
      if Downgraded(script, n, terms.schemaMode) {
        var i :| 0 <= i < n && SchemaFallback(script(i).reply, terms.schemaMode);
        assert script(i).reply.Http? && script(i).reply.code == 400;
      }
      if SchemaRefused(script, n, terms.schemaMode) {
        var i: nat :| i < n && script(i).reply.Http? && script(i).reply.code == 400;
        assert SchemaFallback(script(i).reply, terms.schemaMode);
      }
    }
    ComputedDelay(terms, script(n - 1).reply, n);
  }

  /** A retry is due, but its delay is not a number or is negative. */
  predicate Unwaitable(terms: Terms, x: Exchange, attempt: nat)
    requires attempt >= 1
  {
    var delay := PolicyDelay(terms, x.reply, attempt);
    attempt != terms.client.maxAttempts && WorthRetrying(x.reply, terms.schemaMode) && (delay.NaN? || (delay.Seconds? && delay.s < 0.0))
  }

  /** The failure names the last reply, which was the last chance or the last in time. */
  predicate FailedFor(terms: Terms, x: Exchange, attempt: nat, admitted: real, result: CallResult)
    requires attempt >= 1 && result.Failed?
  {
    && result.attempts == attempt
    && result.failure == (if x.reply.Http? then HttpFailure(x.reply.code)
                          else if x.reply.Unreachable? then EndpointUnreachable else MalformedResponse)
    && (|| attempt == terms.client.maxAttempts
        || !WorthRetrying(x.reply, terms.schemaMode)
        || var delay := PolicyDelay(terms, x.reply, attempt);
           delay.Seconds? && LeftAt(terms, x, admitted) + delay.s >= terms.deadline)
  }

  /**
   When the waiters a call queued were served or gave up, the history holds exactly one
   admission for each that was served, that of its ticket, and none of them still waits.
   */
  lemma OneEventPerAttempt(w: World, request: Request, arrivals: seq<Arrival>, tickets: seq<Ticket>)
    requires Inv(w) && AllServed(w, request, arrivals, tickets)
    requires forall k :: |tickets| <= k < |arrivals| ==> arrivals[k].waiter.id in w.gaveUp
    ensures OneEventEach(w, arrivals, tickets)
  {
    hide LedgerIsTail, LedgerOk, TimesOk, SlotsOk, QuotasOk, DeadlinesOk, CooldownOk;
    var line := Waiters(w.history) + w.gate.waiters;
    forall k, i | 0 <= k < |arrivals| && 0 <= i < |line| && line[i].id == arrivals[k].waiter.id
      ensures k < |tickets| && i == tickets[k].id - 1
    {
      assert line[i] in line;
      if k < |tickets| {
        assert ServedAs(w, arrivals[k], tickets[k]);
        assert line[tickets[k].id - 1] == arrivals[k].waiter;
      }
    }
    forall i | 0 <= i < |w.history| ensures line[i] == w.history[i].waiter {}
    forall q | 0 <= q < |w.gate.waiters| ensures line[|w.history| + q] == w.gate.waiters[q] {}
  }

  ghost predicate OneEventEach(w: World, arrivals: seq<Arrival>, tickets: seq<Ticket>) {
    && |tickets| <= |arrivals|
    && (forall k, i :: 0 <= k < |arrivals| && 0 <= i < |w.history| ==>
          (w.history[i].waiter.id == arrivals[k].waiter.id <==> k < |tickets| && i == tickets[k].id - 1))
    && (forall k, q :: 0 <= k < |arrivals| && 0 <= q < |w.gate.waiters| ==>
          w.gate.waiters[q].id != arrivals[k].waiter.id)
  }

  /** How one exchange leaves the loop. */
  datatype Exit =
    | Return(result: CallResult)
    | Break(failure: Failure)
    | Again(delay: Delay, failure: Failure)

  /** How the `try` statement of attempt number `attempt` is left. */
  function ExitOf(terms: Terms, x: Exchange, attempt: nat, admitted: real): Exit
    requires attempt >= 1
  {
    if Late(terms, x, admitted) then Return(DeadlineError)
    else if x.reply.Completion? then Return(Completed(attempt, false))
    else if x.reply.CompletionThenOther? || x.reply.Other? then Return(OtherError)
    else if Retryable(x.reply, terms.schemaMode) && attempt != terms.client.maxAttempts then
      Again(PolicyDelay(terms, x.reply, attempt), FailureOf(x.reply))
    else Break(FailureOf(x.reply))
  }

  // ---- Steps of the proof ----

  lemma OneMoreAttempt(script: nat -> Exchange, attempts: nat, schemaMode: bool)
    ensures Downgraded(script, attempts + 1, schemaMode)
        <==> Downgraded(script, attempts, schemaMode) || SchemaFallback(script(attempts).reply, schemaMode)
  {
    hide SchemaFallback;
  }

  lemma NoFallbackYet(script: nat -> Exchange, schemaMode: bool)
    ensures !Downgraded(script, 0, schemaMode)
  {
  }

  lemma OneMoreReturned(terms: Terms, script: nat -> Exchange, tickets: seq<Ticket>, ticket: Ticket)
    ensures AllReturned(terms, script, tickets + [ticket])
         == AllReturned(terms, script, tickets) + Returned(terms, script(|tickets|), |tickets| + 1, ticket)
  {
    hide Returned;
    assert (tickets + [ticket])[..|tickets|] == tickets;
  }

  lemma {:induction false} PromptedGrows(script: nat -> Exchange, n: nat, m: nat)
    requires n <= m
    ensures Prompted(script, n) <= Prompted(script, m)
    decreases m
  {
    hide Prompts;
    if n < m {
      PromptedGrows(script, n, m - 1);
    }
  }

  lemma PromptsOfAttempt(script: nat -> Exchange, attempt: nat)
    requires attempt >= 1
    ensures Prompts(script(attempt - 1)) <= Prompted(script, attempt)
    ensures Prompted(script, attempt - 1) <= Prompted(script, attempt)
    ensures StepsDuring(script(attempt - 1).naps) <= Prompted(script, attempt)
    ensures StepsOf(script(attempt - 1).asleep) <= Prompted(script, attempt)
  {
  }

  lemma PromptsOfExchange(x: Exchange)
    ensures StepsDuring(x.naps) <= Prompts(x) && StepsOf(x.during) <= Prompts(x)
    ensures StepsOf(x.before) <= Prompts(x) && StepsOf(x.asleep) <= Prompts(x)
  {
  }

  lemma NoneElapsed(prompts: set<Step>)
    ensures Elapsed([]) == 0.0 && StepsOf([]) <= prompts
  {
  }

  lemma ParsedUnlessAbsent(h: RetryAfter)
    ensures ParseRetryAfter(h).NoDelay? <==> h.NoHeader?
  {
  }

  /** How the loop goes on from the way the `try` statement was left. */
  lemma EndingOfExit(terms: Terms, script: nat -> Exchange, attempt: nat, admitted: real)
    requires attempt >= 1
    ensures var x := script(attempt - 1);
            var ending := Ending(terms, script, attempt, admitted);
            match ExitOf(terms, x, attempt, admitted)
            case Return(r) =>
              && (r.Completed? ==> x.reply.Completion?)
              && ending == Some(if r.Completed? then r.(downgraded := Downgraded(script, attempt, terms.schemaMode)) else r)
            case Break(why) => ending == Some(Failed(why, attempt))
            case Again(delay, why) =>
              && !delay.NoDelay? && delay == PolicyDelay(terms, x.reply, attempt)
              && !Late(terms, x, admitted) && attempt != terms.client.maxAttempts
              && ending ==
                   if delay.Seconds? && terms.deadline - LeftAt(terms, x, admitted) <= delay.s then
                     Some(Failed(why, attempt))
                   else if delay.NaN? || delay.s < 0.0 then Some(SleepError)
                   else None
  {
    hide Late, LeftAt, Downgraded, ComputeBackoff, ParseRetryAfter, Retryable;
    ComputedDelay(terms, script(attempt - 1).reply, attempt);
  }

  lemma OrdinaryDelay(terms: Terms, reply: Reply, attempt: nat)
    requires attempt >= 1 && !SchemaFallback(reply, terms.schemaMode) && !RateLimited(reply)
    ensures PolicyDelay(terms, reply, attempt) == ComputeBackoff(attempt, terms.client)
  {
  }

  lemma NeverFallsBackToCompletion(reply: Reply, schemaMode: bool)
    ensures reply.Completion? ==> !SchemaFallback(reply, schemaMode)
  {
  }

  lemma RetriedIs(terms: Terms, script: nat -> Exchange, attempt: nat, admitted: real, at: real)
    requires attempt >= 1 && Ending(terms, script, attempt, admitted).None?
    requires var x := script(attempt - 1);
             var left, delay := LeftAt(terms, x, admitted), PolicyDelay(terms, x.reply, attempt);
             delay.Seconds? && at == MaxReal(left + Elapsed(x.asleep), left + delay.s)
    ensures RetriedAt(terms, script, attempt, admitted, at)
  {
    hide LeftAt, PolicyDelay, Ending, Elapsed;
  }

  lemma RetriedIsNotLast(terms: Terms, script: nat -> Exchange, attempt: nat, admitted: real, at: real)
    requires attempt >= 1
    ensures RetriedAt(terms, script, attempt, admitted, at) ==> attempt != terms.client.maxAttempts
  {
    hide Late, LeftAt, Downgraded, PolicyDelay, Retryable;
  }

  /** The waiters so far stay served while the world moves on. */
  lemma ServedStays(w: World, v: World, request: Request, arrivals: seq<Arrival>, tickets: seq<Ticket>)
    requires AllServed(w, request, arrivals, tickets) && w.history <= v.history
    ensures AllServed(v, request, arrivals, tickets)
  {
    forall i | 0 <= i < |tickets| ensures ServedAs(v, arrivals[i], tickets[i]) {
      assert ServedAs(w, arrivals[i], tickets[i]);
    }
  }

  lemma OneMoreServed(w: World, request: Request, arrivals: seq<Arrival>, tickets: seq<Ticket>, ticket: Ticket)
    requires AllServed(w, request, arrivals, tickets) && |arrivals| == |tickets| + 1
    requires ServedAs(w, arrivals[|tickets|], ticket)
    ensures AllServed(w, request, arrivals, tickets + [ticket])
  {
    hide ServedAs;
  }

  lemma OneMoreWaiting(w: World, request: Request, arrivals: seq<Arrival>, tickets: seq<Ticket>, arrival: Arrival)
    requires AllServed(w, request, arrivals, tickets) && arrival.waiter.request == request
    ensures AllServed(w, request, arrivals + [arrival], tickets)
  {
    hide ServedAs;
  }

  lemma PacedStep(
    terms: Terms, script: nat -> Exchange, started: real, arrivals: seq<Arrival>, tickets: seq<Ticket>,
    arrival: Arrival)
    requires Paced(terms, script, started, arrivals, tickets) && |arrivals| == |tickets|
    requires if tickets == [] then arrival.at == started
             else RetriedAt(terms, script, |tickets|, tickets[|tickets| - 1].admittedAt, arrival.at)
    ensures Paced(terms, script, started, arrivals + [arrival], tickets)
  {
    hide RetriedAt;
  }

  lemma PacedTicket(
    terms: Terms, script: nat -> Exchange, started: real, arrivals: seq<Arrival>, tickets: seq<Ticket>,
    ticket: Ticket)
    requires Paced(terms, script, started, arrivals, tickets) && |arrivals| == |tickets| + 1
    ensures Paced(terms, script, started, arrivals, tickets + [ticket])
  {
    hide RetriedAt;
  }

  lemma NoCooldownYet(terms: Terms, script: nat -> Exchange, blockedUntil: real)
    ensures CooldownsCount(terms, script, [], blockedUntil)
  {
  }

  lemma CooldownsGoOn(
    terms: Terms, script: nat -> Exchange, tickets: seq<Ticket>, blockedUntil: real, later: real)
    requires CooldownsCount(terms, script, tickets, blockedUntil) && blockedUntil <= later
    ensures CooldownsCount(terms, script, tickets, later)
  {
    hide Late, RateLimited, HeldOffUntil;
    forall i: nat | i < |tickets| ensures CooldownCounted(terms, script, tickets, later, i) {
      assert CooldownCounted(terms, script, tickets, blockedUntil, i);
    }
  }

  /** A further ticket, admitted after the cooldowns so far, whose own 429 counts at once. */
  lemma OneMoreCooldown(
    terms: Terms, script: nat -> Exchange, tickets: seq<Ticket>, before: real, ticket: Ticket, later: real)
    requires before <= later
    requires forall i :: 0 <= i < |tickets| ==> CooldownCounted(terms, script, tickets + [ticket], before, i)
    requires var x := script(|tickets|);
             !Late(terms, x, ticket.admittedAt) && RateLimited(x.reply) ==>
               later >= HeldOffUntil(terms, x, |tickets| + 1, ticket.admittedAt)
    ensures CooldownsCount(terms, script, tickets + [ticket], later)
  {
    hide Late, RateLimited, HeldOffUntil;
    var all := tickets + [ticket];
    forall i: nat | i < |all| ensures CooldownCounted(terms, script, all, later, i) {
      if i < |tickets| {
        assert CooldownCounted(terms, script, all, before, i);
      }
    }
  }

  /** A ticket admitted no earlier than the cooldown in force respects the cooldowns so far. */
  lemma AdmittedTicketRespects(
    terms: Terms, script: nat -> Exchange, tickets: seq<Ticket>, before: real, ticket: Ticket, later: real)
    requires CooldownsCount(terms, script, tickets, before) && before <= ticket.admittedAt && before <= later
    ensures forall i :: 0 <= i < |tickets| ==> CooldownCounted(terms, script, tickets + [ticket], later, i)
  {
    hide Late, RateLimited, HeldOffUntil;
    forall i | 0 <= i < |tickets| ensures CooldownCounted(terms, script, tickets + [ticket], later, i) {
      assert CooldownCounted(terms, script, tickets, before, i);
    }
  }
}
