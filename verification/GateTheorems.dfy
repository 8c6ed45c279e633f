/** What holds of the gate over every run. */
module GateTheorems {
  import opened Basics
  import opened GateModel
  import opened GateRuns
  import opened GateSteps

  // ---- Runs ----

  lemma InvShape(w: World)
    requires Inv(w)
    ensures w.gate.Ledger() && |w.recorded| == |w.history|
  {
  }

  /** Notes are only ever added; the cooldown end only ever moves forward. */
  lemma StepIsMonotone(w: World, t: TimedStep)
    requires w.gate.Ledger() && Enabled(w, t)
    ensures var v := Next(w, t);
            && w.history <= v.history && w.gaveUp <= v.gaveUp && w.arrivals <= v.arrivals
            && w.clock <= v.clock == t.at && w.gate.blockedUntil <= v.gate.blockedUntil
            && v.gate.limit == w.gate.limit
  {
  }

  /** One step of a run that has kept the invariant so far. */
  ghost function Then(w: World, t: TimedStep): (v: World)
    requires Inv(w) && Enabled(w, t)
    ensures Inv(v)
    ensures w.history <= v.history && w.gaveUp <= v.gaveUp && w.arrivals <= v.arrivals
    ensures w.clock <= v.clock == t.at && w.gate.blockedUntil <= v.gate.blockedUntil
    ensures v.gate.limit == w.gate.limit
  {
    hide Inv, Next;
    InvShape(w);
    StepKeepsInv(w, t);
    StepIsMonotone(w, t);
    Next(w, t)
  }

  /** Each step is one the callers can take at that moment, and the clock never goes back. */
  ghost predicate Legal(w: World, run: seq<TimedStep>)
    requires Inv(w)
    decreases |run|
  {
    run == [] || (Enabled(w, run[0]) && Legal(Then(w, run[0]), run[1..]))
  }

  /** The world after a run.  Its precondition never asks for the invariant again. */
  ghost function After(w: World, run: seq<TimedStep>): (v: World)
    requires Inv(w) && Legal(w, run)
    ensures Inv(v)
    ensures w.history <= v.history && w.gaveUp <= v.gaveUp && w.arrivals <= v.arrivals
    ensures w.clock <= v.clock && w.gate.blockedUntil <= v.gate.blockedUntil
    ensures v.gate.limit == w.gate.limit
    decreases |run|
  {
    hide Inv, Enabled, Then;
    if run == [] then w else After(Then(w, run[0]), run[1..])
  }

  lemma {:induction false} RunsCompose(w: World, first: seq<TimedStep>, rest: seq<TimedStep>)
    requires Inv(w) && Legal(w, first) && Legal(After(w, first), rest)
    ensures Legal(w, first + rest) && After(w, first + rest) == After(After(w, first), rest)
    decreases |first|
  {
    hide Inv, Enabled, Then;
    if first == [] {
      assert first + rest == rest;
    } else {
      RunsCompose(Then(w, first[0]), first[1..], rest);
      assert (first + rest)[1..] == first[1..] + rest;
    }
  }

  // ---- Request quota ----

  /** Admissions in the half-open interval [t, t + 60). */
  function CountBetween(h: seq<Admission>, t: real): nat {
    if h == [] then 0
    else CountBetween(h[..|h| - 1], t) + (if t <= h[|h| - 1].at < t + WINDOW then 1 else 0)
  }

  lemma {:induction false} BetweenIsYoung(h: seq<Admission>, t: real, now: real)
    requires forall i :: 0 <= i < |h| && t <= h[i].at < t + WINDOW ==> now - h[i].at < WINDOW
    ensures CountBetween(h, t) <= CountYoung(h, now)
  {
    if h != [] {
      BetweenIsYoung(h[..|h| - 1], t, now);
    }
  }

  /** Counting an interval reduces to the window of the last admission inside it. */
  lemma {:induction false} QuotaOfLastAdmission(w: World, h: seq<Admission>, t: real, rpm: int)
    requires Inv(w) && h <= w.history && rpm > 0
    requires forall i :: 0 <= i < |h| ==> h[i].waiter.request.rpm == rpm
    ensures CountBetween(h, t) <= rpm
    decreases |h|
  {
    if h != [] {
      var j := |h| - 1;
      if t <= h[j].at < t + WINDOW {
        assert AdmissionInQuota(w.history, w.recorded, j);
        assert w.history[..j + 1] == h;
        BetweenIsYoung(h, t, h[j].at);
      } else {
        QuotaOfLastAdmission(w, h[..j], t, rpm);
      }
    }
  }

  /** In every run, no interval of 60 seconds holds more than `rpm` admissions. */
  lemma RequestQuotaOverEveryRun(limit: int, clock: real, run: seq<TimedStep>, rpm: int, t: real)
    requires Legal(Start(limit, clock), run)
    requires rpm > 0
    requires forall a :: a in After(Start(limit, clock), run).history ==> a.waiter.request.rpm == rpm
    ensures CountBetween(After(Start(limit, clock), run).history, t) <= rpm
  {
    var v := After(Start(limit, clock), run);
    QuotaOfLastAdmission(v, v.history, t, rpm);
  }

  // ---- Token quota ----

  /** The tokens of the admissions in [t, t + 60). */
  function SumBetween(h: seq<Admission>, tokens: seq<int>, t: real): int
    requires |h| == |tokens|
  {
    if h == [] then 0
    else
      var n := |h| - 1;
      SumBetween(h[..n], tokens[..n], t) + (if t <= h[n].at < t + WINDOW then tokens[n] else 0)
  }

  lemma {:induction false} SumBetweenIsYoung(h: seq<Admission>, tokens: seq<int>, t: real, now: real)
    requires |h| == |tokens|
    requires forall i :: 0 <= i < |h| ==> tokens[i] >= 0
    requires forall i :: 0 <= i < |h| && t <= h[i].at < t + WINDOW ==> now - h[i].at < WINDOW
    ensures 0 <= SumBetween(h, tokens, t) <= SumYoung(h, tokens, now)
  {
    if h != [] {
      var n := |h| - 1;
      SumBetweenIsYoung(h[..n], tokens[..n], t, now);
    }
  }

  lemma ChargesOfAdmission(w: World, j: nat, t: real)
    requires Inv(w) && j < |w.history| && t <= w.history[j].at < t + WINDOW
    requires forall i :: 0 <= i < |w.history| ==> w.history[i].waiter.request.estimate >= 0
    requires w.history[j].waiter.request.tpm > 0
    ensures var charged := Charged(w.history, w.recorded);
            SumBetween(w.history[..j], charged[..j], t) + charged[j] <= w.history[j].waiter.request.tpm
  {
    var h, charged := w.history, Charged(w.history, w.recorded);
    assert AdmissionInQuota(h, w.recorded, j);
    assert forall i :: 0 <= i < j ==> charged[i] >= 0;
    assert forall i :: 0 <= i < j ==> h[i].at <= h[j].at;
    hide Inv, AdmissionInQuota;
    SumBetweenIsYoung(h[..j], charged[..j], t, h[j].at);
  }

  lemma {:induction false} ChargesOfLastAdmission(w: World, n: nat, t: real, tpm: int)
    requires Inv(w) && n <= |w.history| && tpm > 0
    requires forall i :: 0 <= i < |w.history| ==>
      w.history[i].waiter.request.tpm == tpm && w.history[i].waiter.request.estimate >= 0
    ensures SumBetween(w.history[..n], Charged(w.history, w.recorded)[..n], t) <= tpm
    decreases n
  {
    InvShape(w);
    hide Inv;
    if n > 0 {
      var j := n - 1;
      var h, charged := w.history, Charged(w.history, w.recorded);
      assert h[..n][..j] == h[..j] && charged[..n][..j] == charged[..j];
      if t <= h[j].at < t + WINDOW {
        ChargesOfAdmission(w, j, t);
      } else {
        ChargesOfLastAdmission(w, j, t, tpm);
      }
    }
  }

  /** By how much each record went over what its caller had asked for. */
  function Overshoot(h: seq<Admission>, recorded: seq<int>): (o: seq<int>)
    requires |h| == |recorded|
    ensures |o| == |h|
  {
    seq(|h|, i requires 0 <= i < |h| => MaxInt(0, recorded[i] - h[i].waiter.request.estimate))
  }

  lemma ChargePlusOvershoot(h: seq<Admission>, recorded: seq<int>)
    requires |h| == |recorded|
    ensures forall i :: 0 <= i < |h| ==> recorded[i] == Charged(h, recorded)[i] + Overshoot(h, recorded)[i]
  {
  }

  lemma {:induction false} SumsAdd(h: seq<Admission>, a: seq<int>, b: seq<int>, c: seq<int>, t: real)
    requires |h| == |a| == |b| == |c|
    requires forall i :: 0 <= i < |h| ==> c[i] == a[i] + b[i]
    ensures SumBetween(h, c, t) == SumBetween(h, a, t) + SumBetween(h, b, t)
  {
    if h != [] {
      var n := |h| - 1;
      SumsAdd(h[..n], a[..n], b[..n], c[..n], t);
    }
  }

  /**
   In every run, the tokens recorded in any 60 seconds exceed `tpm` by no more than
   what the callers admitted in those 60 seconds used beyond their own estimates.
   */
  lemma TokenQuotaOverEveryRun(limit: int, clock: real, run: seq<TimedStep>, tpm: int, t: real)
    requires Legal(Start(limit, clock), run)
    requires tpm > 0
    requires forall a :: a in After(Start(limit, clock), run).history ==>
               a.waiter.request.tpm == tpm && a.waiter.request.estimate >= 0
    ensures var v := After(Start(limit, clock), run);
            SumBetween(v.history, v.recorded, t)
              <= tpm + SumBetween(v.history, Overshoot(v.history, v.recorded), t)
  {
    hide *;
    var v := After(Start(limit, clock), run);
    InvShape(v);
    var charged := Charged(v.history, v.recorded);
    ChargesOfLastAdmission(v, |v.history|, t, tpm);
    assert v.history[..|v.history|] == v.history && charged[..|v.history|] == charged;
    ChargePlusOvershoot(v.history, v.recorded);
    SumsAdd(v.history, charged, Overshoot(v.history, v.recorded), v.recorded, t);
  }

  /** The estimate and the usage of a report that a release would record. */
  function ReportOf(step: Step): Option<(int, int)> {
    match step
    case Release(Some(ticket), Some(usage)) =>
      if Reported(Some(usage)) then Some((ticket.estimatedTokens, usage)) else None
    case ReleaseAndBlock(Some(ticket), _, Some(usage)) =>
      if Reported(Some(usage)) then Some((ticket.estimatedTokens, usage)) else None
    case _ => None
  }

  /** Reports on a ticket that a quota of `tpm` could have admitted stay within its estimate. */
  ghost predicate HonestStep(step: Step, tpm: int) {
    var report := ReportOf(step);
    report.Some? && 0 <= report.value.0 <= tpm ==> report.value.1 <= report.value.0
  }

  ghost predicate HonestReports(run: seq<TimedStep>, tpm: int) {
    forall i :: 0 <= i < |run| ==> HonestStep(run[i].step, tpm)
  }

  ghost predicate WithinEstimates(w: World) {
    && |w.recorded| == |w.history|
    && forall i :: 0 <= i < |w.history| ==> w.recorded[i] <= w.history[i].waiter.request.estimate
  }

  /** Every caller admitted so far asked under the quota `tpm`. */
  ghost predicate AllUnder(w: World, tpm: int) {
    forall i :: 0 <= i < |w.history| ==>
      w.history[i].waiter.request.tpm == tpm && w.history[i].waiter.request.estimate >= 0
  }

  lemma AdmittedWithinQuota(w: World, j: nat, tpm: int)
    requires Inv(w) && AllUnder(w, tpm) && tpm > 0 && j < |w.history|
    ensures 0 <= w.history[j].waiter.request.estimate <= tpm
  {
    var h, charged, t := w.history, Charged(w.history, w.recorded), w.history[j].at;
    assert AdmissionInQuota(h, w.recorded, j);
    assert forall i :: 0 <= i < j ==> charged[i] >= 0;
    assert forall i :: 0 <= i < j ==> h[i].at <= t;
    hide Inv, AdmissionInQuota;
    SumBetweenIsYoung(h[..j], charged[..j], t, t);
  }

  lemma ActiveTicketsCarryTheirEstimate(w: World, id: nat)
    requires Inv(w) && id in w.gate.active
    ensures 0 < id <= |w.history| == |w.recorded|
    ensures w.gate.active[id].estimatedTokens == w.history[id - 1].waiter.request.estimate
  {
  }

  lemma HonestStepStaysWithinEstimates(w: World, t: TimedStep, tpm: int)
    requires Inv(w) && Enabled(w, t) && HonestStep(t.step, tpm) && WithinEstimates(w)
    requires AllUnder(w, tpm) && tpm > 0
    ensures WithinEstimates(Then(w, t))
  {
    hide Inv, Pass, Without, Start, Blocked, AllUnder;
    InvShape(w);
    if t.step.Release? || t.step.ReleaseAndBlock? {
      if Holds(w.gate, t.step.ticket) {
        var id := t.step.ticket.value.id;
        ActiveTicketsCarryTheirEstimate(w, id);
        AdmittedWithinQuota(w, id - 1, tpm);
      }
    }
  }

  lemma UnderBefore(w: World, v: World, tpm: int)
    requires w.history <= v.history && AllUnder(v, tpm)
    ensures AllUnder(w, tpm)
  {
    forall i | 0 <= i < |w.history| ensures w.history[i] == v.history[i] {}
  }

  lemma {:induction false} HonestRunsStayWithinEstimates(w: World, run: seq<TimedStep>, tpm: int)
    requires Inv(w) && Legal(w, run) && HonestReports(run, tpm) && WithinEstimates(w)
    requires AllUnder(After(w, run), tpm) && tpm > 0
    ensures WithinEstimates(After(w, run))
    decreases |run|
  {
    hide Inv, Enabled, Then, WithinEstimates, HonestStep, AllUnder;
    if run != [] {
      UnderBefore(w, After(w, run), tpm);
      HonestStepStaysWithinEstimates(w, run[0], tpm);
      HonestRunsStayWithinEstimates(Then(w, run[0]), run[1..], tpm);
    }
  }

  lemma {:induction false} SumOfZeros(h: seq<Admission>, tokens: seq<int>, t: real)
    requires |h| == |tokens|
    requires forall i :: 0 <= i < |h| ==> tokens[i] == 0
    ensures SumBetween(h, tokens, t) == 0
  {
    if h != [] {
      var n := |h| - 1;
      SumOfZeros(h[..n], tokens[..n], t);
    }
  }

  /** With honest reports the token quota holds in every 60 seconds of every run. */
  lemma HonestTokenQuota(limit: int, clock: real, run: seq<TimedStep>, tpm: int, t: real)
    requires Legal(Start(limit, clock), run)
    requires tpm > 0 && HonestReports(run, tpm) && AllUnder(After(Start(limit, clock), run), tpm)
    ensures var v := After(Start(limit, clock), run);
            SumBetween(v.history, v.recorded, t) <= tpm
  {
    hide Legal, After, Start, Inv, HonestReports, SumBetween, AllUnder;
    var v := After(Start(limit, clock), run);
    EveryoneUnder(v, tpm);
    TokenQuotaOverEveryRun(limit, clock, run, tpm, t);
    StartIsWithinEstimates(limit, clock);
    HonestRunsStayWithinEstimates(Start(limit, clock), run, tpm);
    SumOfZeros(v.history, Overshoot(v.history, v.recorded), t);
  }

  lemma EveryoneUnder(v: World, tpm: int)
    requires AllUnder(v, tpm)
    ensures forall a :: a in v.history ==> a.waiter.request.tpm == tpm && a.waiter.request.estimate >= 0
  {
  }

  lemma StartIsWithinEstimates(limit: int, clock: real)
    ensures WithinEstimates(Start(limit, clock))
  {
  }

  // A run that one understated estimate takes over the quota: a first caller fills all
  // of it but `e`, a second is admitted at `e` and reports `u`.

  function Served(r: Request, at: real, recorded: int): World {
    World(GateState(1, [], map[1 := Ticket(1, r.estimate, at)], map[1 := Event(at, recorded)], [1], 1, 0.0),
          at, 1, {}, [Admission(Waiter(0, r), at)], [recorded])
  }

  lemma FirstCallerIsServed(r: Request, at: real)
    requires 0.0 <= at < r.deadline && r.rpm == 0 && 0 <= r.estimate <= r.tpm
    ensures Next(Start(1, 0.0), TimedStep(Arrive(r), at)) == Served(r, at, r.estimate)
  {
    hide Inv;
    var w := Start(1, 0.0);
    var waiter := Waiter(0, r);
    var g := w.gate.(waiters := [waiter]);
    assert Purged(g, at) == g;
    assert Pass(g, waiter, at) == Issue(g, r.estimate, at);
    assert g.waiters[1..] == [];
  }

  lemma {:induction false} TwoSteps(w: World, a: TimedStep, b: TimedStep)
    requires Inv(w) && Enabled(w, a) && Enabled(Then(w, a), b)
    ensures Legal(w, [a, b]) && After(w, [a, b]) == Then(Then(w, a), b)
  {
    hide Inv, Enabled, Then;
    assert [a, b][1..] == [b] && [b][1..] == [];
    var u := Then(w, a);
    assert Legal(Then(u, b), []) && Legal(u, [b]);
    assert After(Then(u, b), []) == Then(u, b);
    assert After(u, [b]) == Then(u, b);
  }

  /** The first caller has left without a report, and perhaps a second has been served. */
  function ServedAndLeft(r: Request, at: real): World {
    Served(r, at, r.estimate).(gate := Served(r, at, r.estimate).gate.(active := map[]))
  }

  function ServedTwo(r: Request, q: Request, at: real, active: map<nat, Ticket>, recorded: int): World {
    World(GateState(1, [], active, map[1 := Event(at, r.estimate), 2 := Event(at, recorded)], [1, 2], 2, 0.0),
          at, 2, {}, [Admission(Waiter(0, r), at), Admission(Waiter(1, q), at)], [r.estimate, recorded])
  }

  lemma FirstCallerLeaves(r: Request, at: real)
    ensures var t := TimedStep(Release(Some(Ticket(1, r.estimate, at)), None), at);
            && Enabled(Served(r, at, r.estimate), t)
            && (Served(r, at, r.estimate).gate.Ledger() ==>
                  Next(Served(r, at, r.estimate), t) == ServedAndLeft(r, at))
  {
    assert map[1 := Ticket(1, r.estimate, at)] - {1} == map[];
  }

  lemma SecondCallerIsServed(r: Request, q: Request, at: real)
    requires 0.0 <= at < q.deadline && q.rpm == 0
    requires 0 <= r.estimate && 0 <= q.estimate && r.estimate + q.estimate <= q.tpm
    requires ServedAndLeft(r, at).gate.Ledger()
    ensures Next(ServedAndLeft(r, at), TimedStep(Arrive(q), at))
         == ServedTwo(r, q, at, map[2 := Ticket(2, q.estimate, at)], q.estimate)
  {
    var w := ServedAndLeft(r, at);
    var waiter := Waiter(1, q);
    var g := w.gate.(waiters := [waiter]);
    assert Purged(g, at) == g;
    assert g.order[..0] == [];
    assert Used(g.events, g.order) == r.estimate;
    assert Pass(g, waiter, at) == Issue(g, q.estimate, at);
    assert g.waiters[1..] == [] && g.order + [2] == [1, 2];
    assert g.events[2 := Event(at, q.estimate)] == map[1 := Event(at, r.estimate), 2 := Event(at, q.estimate)];
    assert g.active[2 := Ticket(2, q.estimate, at)] == map[2 := Ticket(2, q.estimate, at)];
    assert w.history + [Admission(waiter, at)] == [Admission(Waiter(0, r), at), Admission(waiter, at)];
    assert w.recorded + [q.estimate] == [r.estimate, q.estimate];
  }

  lemma SecondCallerReports(r: Request, q: Request, at: real, usage: int)
    requires 0 <= usage <= MAX_USAGE
    ensures var w := ServedTwo(r, q, at, map[2 := Ticket(2, q.estimate, at)], q.estimate);
            var t := TimedStep(Release(Some(Ticket(2, q.estimate, at)), Some(usage)), at);
            && Enabled(w, t)
            && (w.gate.Ledger() ==> Next(w, t) == ServedTwo(r, q, at, map[], usage))
  {
    assert map[2 := Ticket(2, q.estimate, at)] - {2} == map[];
    assert [r.estimate, q.estimate][1 := usage] == [r.estimate, usage];
  }

  /**
   Whatever the quota, one report above an estimate that the quota admits takes a legal
   run over it, however honest every other step is.
   */
  lemma UnderestimateBreaksTheTokenQuota(tpm: int, e: int, u: int) returns (run: seq<TimedStep>)
    requires tpm > 0 && 0 <= e <= tpm && e < u <= MAX_USAGE
    ensures Legal(Start(1, 0.0), run) && AllUnder(After(Start(1, 0.0), run), tpm)
    ensures forall i :: 0 <= i < |run| - 1 ==> ReportOf(run[i].step).None?
    ensures |run| > 0 && ReportOf(run[|run| - 1].step) == Some((e, u))
    ensures var v := After(Start(1, 0.0), run);
            SumBetween(v.history, v.recorded, 0.0) == tpm - e + u
  {
    hide Inv, Legal, After, Start, SumBetween;
    var at, r, q := 1.0, Request(30.0, 0, tpm, tpm - e), Request(30.0, 0, tpm, e);
    run := [TimedStep(Arrive(r), at), TimedStep(Release(Some(Ticket(1, tpm - e, at)), None), at)]
         + [TimedStep(Arrive(q), at), TimedStep(Release(Some(Ticket(2, e, at)), Some(u)), at)];
    UnderestimatedRun(tpm, e, u);
    SumOfTwo([Admission(Waiter(0, r), at), Admission(Waiter(1, q), at)], [tpm - e, u]);
  }

  lemma SumOfTwo(h: seq<Admission>, tokens: seq<int>)
    requires |h| == |tokens| == 2 && h[0].at == h[1].at == 1.0
    ensures SumBetween(h, tokens, 0.0) == tokens[0] + tokens[1]
  {
    assert h[..1][..0] == [] && tokens[..1][..0] == [];
    assert h[..1][0] == h[0] && SumBetween(h[..1], tokens[..1], 0.0) == tokens[0];
  }

  lemma UnderestimatedRun(tpm: int, e: int, u: int)
    requires tpm > 0 && 0 <= e <= tpm && e < u <= MAX_USAGE
    ensures var r, q := Request(30.0, 0, tpm, tpm - e), Request(30.0, 0, tpm, e);
            var run := [TimedStep(Arrive(r), 1.0), TimedStep(Release(Some(Ticket(1, tpm - e, 1.0)), None), 1.0)]
                     + [TimedStep(Arrive(q), 1.0), TimedStep(Release(Some(Ticket(2, e, 1.0)), Some(u)), 1.0)];
            Legal(Start(1, 0.0), run) && After(Start(1, 0.0), run) == ServedTwo(r, q, 1.0, map[], u)
  {
    hide Inv, Next, Legal, After;
    var w, at := Start(1, 0.0), 1.0;
    var r, q := Request(30.0, 0, tpm, tpm - e), Request(30.0, 0, tpm, e);
    var a, b := TimedStep(Arrive(r), at), TimedStep(Release(Some(Ticket(1, tpm - e, at)), None), at);
    var c, d := TimedStep(Arrive(q), at), TimedStep(Release(Some(Ticket(2, e, at)), Some(u)), at);
    FirstCallerIsServed(r, at);
    FirstCallerLeaves(r, at);
    InvShape(Then(w, a));
    TwoSteps(w, a, b);
    var v := ServedAndLeft(r, at);
    assert After(w, [a, b]) == v;
    InvShape(v);
    SecondCallerIsServed(r, q, at);
    SecondCallerReports(r, q, at, u);
    InvShape(Then(v, c));
    TwoSteps(v, c, d);
    RunsCompose(w, [a, b], [c, d]);
  }

  // ---- The token quota, exactly ----

  /** The reports in the run are all among `pairs` of an estimate and a usage. */
  ghost predicate ReportsAmong(run: seq<TimedStep>, pairs: iset<(int, int)>) {
    forall i :: 0 <= i < |run| && ReportOf(run[i].step).Some? ==> ReportOf(run[i].step).value in pairs
  }

  ghost predicate QuotaKept(limit: int, clock: real, run: seq<TimedStep>, tpm: int, t: real) {
    Legal(Start(limit, clock), run) && AllUnder(After(Start(limit, clock), run), tpm) ==>
      var v := After(Start(limit, clock), run);
      |v.history| == |v.recorded| && SumBetween(v.history, v.recorded, t) <= tpm
  }

  /**
   Callers that report usages as in `pairs` keep the token quota in every 60 seconds of
   every run if and only if no pair reports more than an estimate the quota can admit.
   */
  lemma TokenQuotaExactlyWhenHonest(tpm: int, pairs: iset<(int, int)>)
    requires tpm > 0
    ensures (forall limit: int, clock: real, run: seq<TimedStep>, t: real ::
               ReportsAmong(run, pairs) ==> QuotaKept(limit, clock, run, tpm, t))
       <==> (forall pair :: pair in pairs && 0 <= pair.0 <= tpm && 0 <= pair.1 <= MAX_USAGE ==> pair.1 <= pair.0)
  {
    hide Legal, After, Start, SumBetween, AllUnder, Inv;
    if forall pair :: pair in pairs && 0 <= pair.0 <= tpm && 0 <= pair.1 <= MAX_USAGE ==> pair.1 <= pair.0 {
      forall limit: int, clock: real, run: seq<TimedStep>, t: real | ReportsAmong(run, pairs)
        ensures QuotaKept(limit, clock, run, tpm, t)
      {
        if Legal(Start(limit, clock), run) && AllUnder(After(Start(limit, clock), run), tpm) {
          InvShape(After(Start(limit, clock), run));
          HonestTokenQuota(limit, clock, run, tpm, t);
        }
      }
    } else {
      var pair :| pair in pairs && 0 <= pair.0 <= tpm && 0 <= pair.1 <= MAX_USAGE && pair.1 > pair.0;
      var run := UnderestimateBreaksTheTokenQuota(tpm, pair.0, pair.1);
      assert ReportsAmong(run, pairs) && !QuotaKept(1, 0.0, run, tpm, 0.0);
    }
  }

  // ---- Admission, exactly ----

  /** A pass admits exactly when the observer's own notes say the quotas have room. */
  lemma AdmittedExactlyWhenThereIsRoom(w: World, waiter: Waiter, now: real)
    requires Inv(w) && w.clock <= now && waiter in w.gate.waiters
    ensures Pass(w.gate, waiter, now).outcome.Admitted? <==>
              var r := waiter.request;
              && w.gate.waiters[0] == waiter
              && now < r.deadline
              && now >= w.gate.blockedUntil
              && |w.gate.active| < w.gate.limit
              && (r.rpm == 0 || CountYoung(w.history, now) < r.rpm)
              && (r.tpm == 0 || SumYoung(w.history, w.recorded, now) + r.estimate <= r.tpm)
  {
    PurgedGateCountsTheWindow(w, now);
  }

  // ---- Order and deadlines ----

  lemma IdOf(line: seq<Waiter>, i: int)
    requires 0 <= i < |line|
    ensures line[i].id in Ids(line)
  {
    assert line[i] in line;
  }

  lemma IndexOf(line: seq<Waiter>, id: nat) returns (i: int)
    requires id in Ids(line)
    ensures 0 <= i < |line| && line[i].id == id
  {
    var waiter :| waiter in line && waiter.id == id;
    i :| 0 <= i < |line| && line[i] == waiter;
  }

  /** In a line in arrival order, whoever is in its front part has everybody earlier before them. */
  lemma EarlierInFront(h: seq<Waiter>, q: seq<Waiter>, early: nat, late: nat)
    requires Increasing(h + q) && early < late && late in Ids(h) && early in Ids(h + q)
    ensures early in Ids(h)
  {
    hide Ids;
    var line := h + q;
    var i := IndexOf(line, early);
    var j := IndexOf(h, late);
    assert line[j] == h[j];
    assert i < j;
    assert line[i] == h[i];
    IdOf(h, i);
  }

  lemma PartsOfLine(h: seq<Waiter>, q: seq<Waiter>)
    ensures Increasing(h + q) ==> Increasing(h)
    ensures forall id :: id in Ids(h) || id in Ids(q) ==> id in Ids(h + q)
  {
    assert forall i :: 0 <= i < |h| ==> (h + q)[i] == h[i];
    forall id | id in Ids(h) || id in Ids(q) ensures id in Ids(h + q) {
      var waiter :| (waiter in h || waiter in q) && waiter.id == id;
      assert waiter in h + q;
    }
  }

  lemma NobodyOvertakes(v: World, late: nat, early: nat)
    requires Inv(v)
    ensures Increasing(Waiters(v.history))
    ensures early < late && late in Ids(Waiters(v.history)) ==>
      early in Ids(Waiters(v.history)) || early in v.gaveUp
    ensures early in v.gaveUp ==> early !in Ids(Waiters(v.history)) && early !in Ids(v.gate.waiters)
  {
    hide LedgerIsTail, LedgerOk, TimesOk, SlotsOk, QuotasOk, DeadlinesOk, Increasing, Ids, Waiters, CooldownOk;
    var h, q := Waiters(v.history), v.gate.waiters;
    PartsOfLine(h, q);
    if early < late && late in Ids(h) && early !in v.gaveUp {
      assert late in Ids(h + q) && late < v.arrivals;
      EarlierInFront(h, q, early, late);
    }
  }

  /** Tickets go out in arrival order, to nobody past a deadline; whoever gave up is gone. */
  lemma FirstComeFirstServed(limit: int, clock: real, run: seq<TimedStep>, late: nat, early: nat)
    requires Legal(Start(limit, clock), run)
    ensures var v := After(Start(limit, clock), run);
            var admitted := Ids(Waiters(v.history));
            && Increasing(Waiters(v.history))
            && (early < late && late in admitted ==> early in admitted || early in v.gaveUp)
            && (early in v.gaveUp ==> early !in admitted && early !in Ids(v.gate.waiters))
            && (forall i :: 0 <= i < |v.history| ==> v.history[i].at < v.history[i].waiter.request.deadline)
            && |v.gate.active| <= MaxInt(0, limit)
  {
    hide Legal, After, QueueOk, LedgerIsTail, LedgerOk, TimesOk, QuotasOk;
    NobodyOvertakes(After(Start(limit, clock), run), late, early);
  }

  /** A caller that raised, by deadline or interruption, is noted and has left the queue. */
  lemma WhoRaisesHasLeft(w: World, t: TimedStep, waiter: Waiter)
    requires Inv(w) && Enabled(w, t)
    requires t.step == Interrupt(waiter)
      || (t.step == Wake(waiter) && Pass(w.gate, waiter, t.at).outcome.TimedOut?)
    ensures waiter.id in Next(w, t).gaveUp && waiter !in Next(w, t).gate.waiters
  {
    StepKeepsInv(w, t);
    hide Inv;
    var v := Next(w, t);
    var queued := v.gate.waiters;
    NobodyOvertakes(v, 0, waiter.id);
    assert waiter in queued ==> waiter.id in Ids(queued);
  }

  // ---- Who gives up ----

  /** A pass times out exactly at or after the waiter's own deadline, wherever it stands in the queue. */
  lemma TimesOutExactlyAtTheDeadline(s: GateState, waiter: Waiter, now: real)
    requires s.Ledger() && waiter in s.waiters
    ensures Pass(s, waiter, now).outcome.TimedOut? <==> now >= waiter.request.deadline
  {
  }

  /** The step is an exception in `id`'s call, or a turn it takes at or after its deadline. */
  predicate GivesUp(w: World, t: TimedStep, id: nat) {
    match t.step
    case Arrive(r) => !OverQuota(r) && id == w.arrivals && t.at >= r.deadline
    case Wake(waiter) => id == waiter.id && t.at >= waiter.request.deadline
    case Interrupt(waiter) => id == waiter.id
    case _ => false
  }

  lemma StepGivesUpExactly(w: World, t: TimedStep, id: nat)
    requires Inv(w) && Enabled(w, t)
    ensures id in Then(w, t).gaveUp <==> id in w.gaveUp || GivesUp(w, t, id)
  {
    hide Inv, Pass, Without, NotedRelease;
    InvShape(w);
    match t.step
    case Arrive(r) =>
      if !OverQuota(r) {
        TimesOutExactlyAtTheDeadline(Joined(w, r).gate, Waiter(w.arrivals, r), t.at);
      }
    case Wake(waiter) => TimesOutExactlyAtTheDeadline(w.gate, waiter, t.at);
    case _ =>
  }

  ghost predicate SomeStepGivesUp(w: World, run: seq<TimedStep>, id: nat)
    requires Inv(w) && Legal(w, run)
    decreases |run|
  {
    run != [] && (GivesUp(w, run[0], id) || SomeStepGivesUp(Then(w, run[0]), run[1..], id))
  }

  /** In every run, whoever has given up was interrupted or took a turn too late; nobody else has. */
  lemma {:induction false} GaveUpExactly(w: World, run: seq<TimedStep>, id: nat)
    requires Inv(w) && Legal(w, run)
    ensures id in After(w, run).gaveUp <==> id in w.gaveUp || SomeStepGivesUp(w, run, id)
    decreases |run|
  {
    hide Inv, Enabled, Then, GivesUp;
    if run != [] {
      StepGivesUpExactly(w, run[0], id);
      GaveUpExactly(Then(w, run[0]), run[1..], id);
    }
  }

  // ---- Cooldown ----

  lemma StepAdmitsAfterCooldown(w: World, t: TimedStep, i: nat)
    requires Inv(w) && Enabled(w, t)
    requires |w.history| <= i < |Then(w, t).history|
    ensures Then(w, t).history[i].at >= w.gate.blockedUntil
  {
    hide Inv;
  }

  /** Whatever the cooldown end is now, no later admission in any run comes before it. */
  lemma {:induction false} NoAdmissionDuringCooldown(w: World, run: seq<TimedStep>, i: nat)
    requires Inv(w) && Legal(w, run)
    requires |w.history| <= i < |After(w, run).history|
    ensures After(w, run).history[i].at >= w.gate.blockedUntil
    decreases |run|
  {
    hide Inv, Enabled, Then;
    if run != [] {
      var v := Then(w, run[0]);
      if i < |v.history| {
        StepAdmitsAfterCooldown(w, run[0], i);
      } else {
        NoAdmissionDuringCooldown(v, run[1..], i);
      }
    }
  }

  lemma ReleaseAndBlockTakesEffect(w: World, t: TimedStep)
    requires Inv(w) && Enabled(w, t) && t.step.ReleaseAndBlock? && Holds(w.gate, t.step.ticket)
    ensures var v := Then(w, t);
            && v.history == w.history
            && t.step.ticket.value.id !in v.gate.active
            && v.gate.blockedUntil >= t.at + MinReal(MaxReal(0.0, t.step.delay), MAX_COOLDOWN)
  {
    hide Inv, Pass, Without, Start, Noted;
    InvShape(w);
    assert Then(w, t) == Next(w, t);
  }

  /**
   A 429 gives the ticket back and holds everybody off in one step: there is no
   moment at which a peer could use the freed slot before the cooldown counts.
   */
  lemma RateLimitedReleaseHoldsPeersOff(
    w: World, ticket: Option<Ticket>, delay: real, usage: Option<int>, at: real, rest: seq<TimedStep>)
    requires Inv(w) && Holds(w.gate, ticket)
    requires Legal(w, [TimedStep(ReleaseAndBlock(ticket, delay, usage), at)] + rest)
    ensures var run := [TimedStep(ReleaseAndBlock(ticket, delay, usage), at)] + rest;
            forall i :: |w.history| <= i < |After(w, run).history| ==>
              After(w, run).history[i].at >= at + MinReal(MaxReal(0.0, delay), MAX_COOLDOWN)
  {
    hide Inv, Enabled, Then;
    var t := TimedStep(ReleaseAndBlock(ticket, delay, usage), at);
    var run := [t] + rest;
    assert run[0] == t && run[1..] == rest;
    var v := Then(w, t);
    ReleaseAndBlockTakesEffect(w, t);
    forall i | |w.history| <= i < |After(w, run).history|
      ensures After(w, run).history[i].at >= at + MinReal(MaxReal(0.0, delay), MAX_COOLDOWN)
    {
      NoAdmissionDuringCooldown(v, rest, i);
    }
  }

  function Bounded(delay: real): real {
    MinReal(MaxReal(0.0, delay), MAX_COOLDOWN)
  }

  /** Whether the step imposes its delay: `block_for` always, the combined release if its ticket is out. */
  predicate Imposes(w: World, step: Step, delay: real) {
    || step == BlockFor(delay)
    || (step.ReleaseAndBlock? && Holds(w.gate, step.ticket) && step.delay == delay)
  }

  /**
   A step that imposes a delay moves the cooldown end to the delay's end, clamped to a
   minute, unless it is later already; no other step moves it.
   */
  lemma CooldownEndsWithTheDelay(w: World, t: TimedStep)
    requires Inv(w) && Enabled(w, t)
    ensures forall delay :: Imposes(w, t.step, delay) ==>
      var end, was, now := t.at + Bounded(delay), w.gate.blockedUntil, Then(w, t).gate.blockedUntil;
      now >= end && now >= was && (now == end || now == was) && 0.0 <= Bounded(delay) <= 60.0
      && (0.0 <= delay <= 60.0 ==> Bounded(delay) == delay)
    ensures (forall delay :: !Imposes(w, t.step, delay)) ==>
      Then(w, t).gate.blockedUntil == w.gate.blockedUntil
  {
    hide Inv, Pass, Without, NotedRelease, Noted;
    InvShape(w);
    match t.step
    case Arrive(r) =>
      if !OverQuota(r) {
        PassKeepsCooldown(Joined(w, r), Waiter(w.arrivals, r), t.at);
      }
    case Wake(waiter) => PassKeepsCooldown(w, waiter, t.at);
    case BlockFor(delay) => assert Imposes(w, t.step, delay);
    case ReleaseAndBlock(ticket, delay, _) => assert Holds(w.gate, ticket) ==> Imposes(w, t.step, delay);
    case _ =>
  }

  lemma PassKeepsCooldown(w: World, waiter: Waiter, now: real)
    requires w.gate.Ledger() && waiter in w.gate.waiters
    ensures Noted(w, waiter, Pass(w.gate, waiter, now), now).gate.blockedUntil == w.gate.blockedUntil
  {
    hide Used, Without, SleepSeconds;
  }

  /** `block_for`, like the 429, holds everybody off for the bounded delay in every continuation. */
  lemma BlockHoldsEverybodyOff(w: World, delay: real, at: real, rest: seq<TimedStep>)
    requires Inv(w) && w.clock <= at && Legal(w, [TimedStep(BlockFor(delay), at)] + rest)
    ensures var run := [TimedStep(BlockFor(delay), at)] + rest;
            forall i :: |w.history| <= i < |After(w, run).history| ==>
              After(w, run).history[i].at >= at + Bounded(delay)
  {
    var t := TimedStep(BlockFor(delay), at);
    var run := [t] + rest;
    assert run[0] == t && run[1..] == rest;
    CooldownEndsWithTheDelay(w, t);
    assert Imposes(w, t.step, delay);
    BlockAdmitsNobody(w, t);
    hide Inv, Enabled, Then;
    var v := Then(w, t);
    forall i | |w.history| <= i < |After(w, run).history| ensures After(w, run).history[i].at >= at + Bounded(delay) {
      NoAdmissionDuringCooldown(v, rest, i);
    }
  }

  lemma BlockAdmitsNobody(w: World, t: TimedStep)
    requires Inv(w) && Enabled(w, t) && t.step.BlockFor?
    ensures Then(w, t).history == w.history
  {
    hide Inv, Pass;
  }

  /** The cooldown is never longer than a minute, at any point of any run. */
  lemma CooldownIsBounded(limit: int, clock: real, run: seq<TimedStep>)
    requires Legal(Start(limit, clock), run)
    ensures var v := After(Start(limit, clock), run);
            0.0 <= v.gate.blockedUntil <= MaxReal(0.0, v.clock + MAX_COOLDOWN)
  {
  }

  // ---- Progress ----

  ghost predicate ImposesNoCooldown(run: seq<TimedStep>) {
    forall i :: 0 <= i < |run| ==> !run[i].step.BlockFor? && !run[i].step.ReleaseAndBlock?
  }

  lemma ThenKeepsCooldown(w: World, t: TimedStep)
    requires Inv(w) && Enabled(w, t) && !t.step.BlockFor? && !t.step.ReleaseAndBlock?
    ensures Then(w, t).gate.blockedUntil == w.gate.blockedUntil
  {
    hide Inv;
  }

  lemma {:induction false} CooldownUntouched(w: World, run: seq<TimedStep>)
    requires Inv(w) && Legal(w, run) && ImposesNoCooldown(run)
    ensures After(w, run).gate.blockedUntil == w.gate.blockedUntil
    decreases |run|
  {
    hide Inv, Enabled, Then;
    if run != [] {
      ThenKeepsCooldown(w, run[0]);
      assert !run[0].step.BlockFor? && !run[0].step.ReleaseAndBlock?;
      CooldownUntouched(Then(w, run[0]), run[1..]);
    }
  }

  lemma {:induction false} SumYoungOfOld(h: seq<Admission>, tokens: seq<int>, now: real)
    requires |h| == |tokens|
    requires forall i :: 0 <= i < |h| ==> now - h[i].at >= WINDOW
    ensures SumYoung(h, tokens, now) == 0
  {
    if h != [] {
      var n := |h| - 1;
      SumYoungOfOld(h[..n], tokens[..n], now);
    }
  }

  /** A minute after `w`, with nobody admitted since, the window and the cooldown are over. */
  lemma MinuteOldWorld(w: World, v: World, now: real)
    requires Inv(w) && Inv(v) && v.history == w.history && v.gate.blockedUntil == w.gate.blockedUntil
    requires w.clock + WINDOW <= now && 0.0 <= now
    ensures v.gate.blockedUntil <= now
    ensures |v.recorded| == |v.history|
    ensures CountYoung(v.history, now) == 0 && SumYoung(v.history, v.recorded, now) == 0
    ensures forall i :: 0 <= i < |v.gate.waiters| ==> !OverQuota(v.gate.waiters[i].request)
  {
    CountYoungIs(v.history, now, |v.history|);
    SumYoungOfOld(v.history, v.recorded, now);
  }

  /** While the waiter at the front stays in the queue, it stays at the front and nobody is admitted. */
  lemma FrontHoldsTheOthersBack(w: World, v: World, waiter: Waiter)
    requires Inv(w) && Inv(v) && w.history <= v.history && w.gaveUp <= v.gaveUp
    requires |w.gate.waiters| > 0 && w.gate.waiters[0] == waiter && waiter in v.gate.waiters
    ensures v.history == w.history && v.gate.waiters[0] == waiter
  {
    QueueLines(w);
    QueueLines(v);
    hide Inv, Ids, Waiters;
    var before, after := Waiters(w.history) + w.gate.waiters, Waiters(v.history) + v.gate.waiters;
    var front := |w.history|;
    assert before[front] == waiter;
    var q :| 0 <= q < |v.gate.waiters| && v.gate.waiters[q] == waiter;
    assert after[|v.history| + q] == waiter;
    if front < |v.history| + q {
      var x := after[front].id;
      assert x < waiter.id;
      IdOf(before, front);
      IdOf(after, front);
      assert x in Ids(before);
      var j := IndexOf(before, x);
      assert j < front;
      SamePrefix(w, v, j);
    }
  }

  lemma QueueLines(w: World)
    requires Inv(w)
    ensures var line := Waiters(w.history) + w.gate.waiters;
            && |Waiters(w.history)| == |w.history|
            && Increasing(line) && Ids(line) !! w.gaveUp
            && (forall id: nat :: id < w.arrivals <==> id in Ids(line) || id in w.gaveUp)
  {
  }

  lemma SamePrefix(w: World, v: World, j: nat)
    requires w.history <= v.history && j < |w.history|
    ensures (Waiters(w.history) + w.gate.waiters)[j] == (Waiters(v.history) + v.gate.waiters)[j]
  {
    assert w.history[j] == v.history[j];
  }

  /**
   Whoever is at the front and stays in the queue gets its ticket at its first pass with
   a free slot after a minute without a new cooldown, unless its deadline came first.
   */
  lemma FrontIsServedWithinAMinute(w: World, run: seq<TimedStep>, waiter: Waiter, now: real)
    requires Inv(w) && Legal(w, run) && ImposesNoCooldown(run)
    requires After(w, run).clock <= now && w.clock + WINDOW <= now && 0.0 <= now
    requires |w.gate.waiters| > 0 && w.gate.waiters[0] == waiter
    requires var v := After(w, run);
             waiter in v.gate.waiters && |v.gate.active| < v.gate.limit
    requires waiter.request.rpm >= 0
    ensures var v := After(w, run);
            Pass(v.gate, waiter, now).outcome.Admitted? <==> now < waiter.request.deadline
    ensures var v := After(w, run);
            Pass(v.gate, waiter, now).outcome.TimedOut? <==> now >= waiter.request.deadline
  {
    hide Inv, Legal, After, Pass, Start, Noted, Next;
    var v := After(w, run);
    InvShape(v);
    FrontHoldsTheOthersBack(w, v, waiter);
    CooldownUntouched(w, run);
    MinuteOldWorld(w, v, now);
    AdmittedExactlyWhenThereIsRoom(v, waiter, now);
    TimesOutExactlyAtTheDeadline(v.gate, waiter, now);
  }

  /** Within a millisecond the deadline or the cooldown's end comes, or an event expires. */
  ghost predicate DueSoon(w: World, waiter: Waiter, now: real) {
    || waiter.request.deadline <= now + 0.001
    || now < w.gate.blockedUntil <= now + 0.001
    || exists i :: 0 <= i < |w.history| && now - w.history[i].at < WINDOW && w.history[i].at + WINDOW <= now + 0.001
  }

  /**
   A sleeping pass never sleeps past its deadline, the cooldown or the oldest event's expiry,
   and wakes early for nothing else.
   */
  lemma SleepIsShort(w: World, waiter: Waiter, now: real)
    requires Inv(w) && w.clock <= now && waiter in w.gate.waiters
    requires Pass(w.gate, waiter, now).outcome.Sleep?
    ensures var seconds := Pass(w.gate, waiter, now).outcome.seconds;
            && 0.0 < seconds <= 0.25
            && (now + 0.001 <= waiter.request.deadline ==> now + seconds <= waiter.request.deadline)
            && (now + 0.001 <= w.gate.blockedUntil ==> now + seconds <= w.gate.blockedUntil)
            && (forall i :: 0 <= i < |w.history| && now - w.history[i].at < WINDOW
                  && now + 0.001 <= w.history[i].at + WINDOW
                  && (forall k :: 0 <= k < i ==> now - w.history[k].at >= WINDOW)
                  ==> now + seconds <= w.history[i].at + WINDOW)
    ensures var seconds := Pass(w.gate, waiter, now).outcome.seconds;
            || (seconds == 0.001 && DueSoon(w, waiter, now)) || seconds == 0.25
            || now + seconds == waiter.request.deadline || now + seconds == w.gate.blockedUntil
            || exists i :: 0 <= i < |w.history| && now - w.history[i].at < WINDOW
                 && now + seconds == w.history[i].at + WINDOW
  {
    hide QueueOk, SlotsOk, QuotasOk, DeadlinesOk, CooldownOk, Purged, Sorted;
    PurgedGateCountsTheWindow(w, now);
    var p := Purged(w.gate, now);
    forall i | 0 <= i < |w.history| && now - w.history[i].at < WINDOW
      && (forall k :: 0 <= k < i ==> now - w.history[k].at >= WINDOW)
      ensures |p.order| > 0 && p.events[p.order[0]].at == w.history[i].at
    {
      var first := |w.history| - |p.order|;
      assert first <= i;
      assert !(first < i);
      assert p.order[0] == first + 1;
    }
  }
}
