/**
 What becomes of every measurement of a planned run, told of the stored data alone: which
 are raised and to what, and why each of the others is not.
 */
module HouseDecisions {
  import opened Basics
  import opened Texts
  import opened HouseRules
  import opened HouseRuns

  // ---- What is measured ----

  /** A generation the exporter would use. */
  predicate Exported(g: Generation) {
    && g.agent == "sme" && g.envelope == "ok"
    && g.contract == "criterion_measurements.v1" && g.contractVersion == 1
  }

  predicate Names(m: Measurement, code: string) {
    m.criterion == Some(code) && code != ""
  }

  function NamedIn(ms: seq<Measurement>): nat {
    if ms == [] then 0
    else NamedIn(ms[..|ms| - 1]) + if ms[|ms| - 1].criterion.GetOr("") != "" then 1 else 0
  }

  /** How many measurements with a code the exported generations hold. */
  function NamedInAll(gs: seq<Generation>): nat {
    if gs == [] then 0
    else NamedInAll(gs[..|gs| - 1]) + if Exported(gs[|gs| - 1]) then NamedIn(gs[|gs| - 1].measurements) else 0
  }

  function TimesIn(ms: seq<Measurement>, code: string): nat {
    if ms == [] then 0
    else TimesIn(ms[..|ms| - 1], code) + if Names(ms[|ms| - 1], code) then 1 else 0
  }

  /** How often the exported generations measure `code`. */
  function TimesMeasured(gs: seq<Generation>, code: string): nat {
    if gs == [] then 0
    else TimesMeasured(gs[..|gs| - 1], code) + if Exported(gs[|gs| - 1]) then TimesIn(gs[|gs| - 1].measurements, code) else 0
  }

  /** The place of a measurement among all those with a code. */
  function PlaceOf(gs: seq<Generation>, g: int, m: int): nat
    requires 0 <= g < |gs| && 0 <= m < |gs[g].measurements|
  {
    NamedInAll(gs[..g]) + NamedIn(gs[g].measurements[..m])
  }

  predicate HasLog(logs: seq<Log>, id: int, code: string) {
    exists i :: 0 <= i < |logs| && logs[i].evaluation == id && logs[i].criterion == Some(code)
      && logs[i].agent.Some? && Lower(logs[i].agent.value) == "sme"
  }

  predicate IsScore(v: Option<Value>, s: int) {
    1 <= s <= 4 && (v == Some(Int(s)) || v == Some(Float(s as real)))
  }

  // ---- What is decided ----

  /** The measurement of an edited criterion that the rule may raise. */
  predicate Open(e: Evaluation, logs: seq<Log>, id: int, edits: set<string>, code: string, m: Measurement) {
    && code in edits
    && e.strategies.Some? && code in e.strategies.value && e.strategies.value[code] == Guidance
    && m.score.Some? && !m.hasInstances && !m.hasTotalUnits
    && TimesMeasured(e.generations, code) == 1 && !HasLog(logs, id, code)
  }

  /** Why an edited criterion is left as it is. */
  ghost predicate Because(
    reason: Skip, e: Evaluation, logs: seq<Log>, id: int, code: string, m: Measurement)
    requires e.strategies.Some?
  {
    var guided := code in e.strategies.value && e.strategies.value[code] == Guidance;
    var shaped := m.score.Some? && !m.hasInstances && !m.hasTotalUnits;
    var once := TimesMeasured(e.generations, code) == 1;
    match reason
    case NotInSnapshot => code !in e.strategies.value
    case NotGuidance => code in e.strategies.value && e.strategies.value[code] == OtherStrategy
    case NotScoreShaped => guided && !shaped
    case InMultiple => guided && shaped && !once
    case ExistingLog => guided && shaped && once && HasLog(logs, id, code)
    case AlreadyMax => guided && shaped && once && !HasLog(logs, id, code) && IsScore(m.score, 4)
    case InvalidScore => guided && shaped && once && !HasLog(logs, id, code) && forall s :: !IsScore(m.score, s)
  }

  /** The plan of one measurement: raised by one exactly if it may be, with the reason if not. */
  ghost predicate Decided(
    e: Evaluation, logs: seq<Log>, id: int, edits: set<string>, g: Generation, m: Measurement, w: CriterionPlan)
    requires e.strategies.Some? && m.criterion.Some?
  {
    var code := m.criterion.value;
    && w.evaluation == id && w.generation == g.id && w.code == code && (w.edited <==> code in edits)
    && (forall s :: w.base == Some(s) <==> IsScore(m.score, s))
    && (forall s :: w.raised == Some(s + 1) <==> Open(e, logs, id, edits, code, m) && s <= 3 && IsScore(m.score, s))
    && (forall reason :: w.skip == Some(reason) <==> code in edits && Because(reason, e, logs, id, code, m))
  }

  // ---- Laying the measurements out ----

  lemma {:induction false} CodedOfIs(g: int, ms: seq<Measurement>, code: string)
    ensures |CodedOf(g, ms)| == NamedIn(ms)
    ensures code != "" ==> multiset(CodesOf(CodedOf(g, ms)))[code] == TimesIn(ms, code)
  {
    if ms != [] {
      var n := |ms| - 1;
      CodedOfIs(g, ms[..n], code);
      var front := CodedOf(g, ms[..n]);
      if Coded(ms[n]) {
        assert CodesOf(front + [(g, ms[n])]) == CodesOf(front) + [ms[n].criterion.value];
      }
    }
  }

  lemma CodesOfSum(a: seq<(int, Measurement)>, b: seq<(int, Measurement)>)
    requires forall i :: 0 <= i < |a| ==> Coded(a[i].1)
    requires forall i :: 0 <= i < |b| ==> Coded(b[i].1)
    ensures CodesOf(a + b) == CodesOf(a) + CodesOf(b)
  {
  }

  lemma {:induction false} MeasuredIs(gs: seq<Generation>, code: string)
    ensures |Measured(UsableOf(gs))| == NamedInAll(gs)
    ensures code != "" ==> multiset(CodesOf(Measured(UsableOf(gs))))[code] == TimesMeasured(gs, code)
  {
    if gs != [] {
      var n := |gs| - 1;
      var front, g := UsableOf(gs[..n]), gs[n];
      MeasuredIs(gs[..n], code);
      if Usable(g) {
        assert (front + [g])[..|front|] == front;
        CodedOfIs(g.id, g.measurements, code);
        CodesOfSum(Measured(front), CodedOf(g.id, g.measurements));
      }
    }
  }

  lemma {:induction false} CodedAt(g: int, ms: seq<Measurement>, m: int)
    requires 0 <= m < |ms| && Coded(ms[m])
    ensures NamedIn(ms[..m]) < |CodedOf(g, ms)| && CodedOf(g, ms)[NamedIn(ms[..m])] == (g, ms[m])
  {
    var n := |ms| - 1;
    if m == n {
      CodedOfIs(g, ms[..n], "");
    } else {
      CodedAt(g, ms[..n], m);
      assert ms[..n][..m] == ms[..m];
    }
  }

  lemma {:induction false} MeasuredAt(gs: seq<Generation>, g: int, m: int)
    requires 0 <= g < |gs| && Exported(gs[g]) && 0 <= m < |gs[g].measurements| && Coded(gs[g].measurements[m])
    ensures
      var ms, k := Measured(UsableOf(gs)), PlaceOf(gs, g, m);
      k < |ms| && ms[k] == (gs[g].id, gs[g].measurements[m])
  {
    var n := |gs| - 1;
    var front := UsableOf(gs[..n]);
    assert Usable(gs[n]) ==> (front + [gs[n]])[..|front|] == front;
    if g == n {
      MeasuredIs(gs[..n], "");
      CodedAt(gs[n].id, gs[n].measurements, m);
    } else {
      MeasuredAt(gs[..n], g, m);
      assert gs[..n][..g] == gs[..g];
    }
  }

  // ---- Deciding ----

  lemma ExistingIsLogged(logs: seq<Log>, id: int, code: string)
    ensures code in ExistingCodes(logs, id) <==> HasLog(logs, id, code)
  {
    if HasLog(logs, id, code) {
      var i :| 0 <= i < |logs| && logs[i].evaluation == id && logs[i].criterion == Some(code)
        && logs[i].agent.Some? && Lower(logs[i].agent.value) == "sme";
      assert ForAgent(logs[i]) && logs[i].criterion.value == code;
    }
  }

  lemma ScoreIs(v: Option<Value>)
    ensures forall s :: AsScore(v.GetOr(Other)) == Some(s) <==> IsScore(v, s)
  {
  }

  lemma PlanDecides(e: Evaluation, logs: seq<Log>, id: int, edits: set<string>, g: Generation, m: Measurement)
    requires e.strategies.Some? && Coded(m) && TimesMeasured(e.generations, m.criterion.value) > 0
    ensures Decided(e, logs, id, edits, g, m, PlanOf(ContextOf(e, logs, id, edits), g.id, m))
  {
    var code := m.criterion.value;
    MeasuredIs(e.generations, code);
    ExistingIsLogged(logs, id, code);
    ScoreIs(m.score);
    hide TimesMeasured, ExistingCodes, HasLog, Measured, UsableOf, AsScore, CodesOf;
  }

  lemma {:induction false} MeasuredOnceAtLeast(ms: seq<Measurement>, m: int, code: string)
    requires 0 <= m < |ms| && Names(ms[m], code)
    ensures TimesIn(ms, code) > 0
  {
    if m < |ms| - 1 {
      MeasuredOnceAtLeast(ms[..|ms| - 1], m, code);
    }
  }

  lemma {:induction false} SeenOnceAtLeast(gs: seq<Generation>, g: int, m: int, code: string)
    requires 0 <= g < |gs| && Exported(gs[g]) && 0 <= m < |gs[g].measurements| && Names(gs[g].measurements[m], code)
    ensures TimesMeasured(gs, code) > 0
  {
    if g < |gs| - 1 {
      SeenOnceAtLeast(gs[..|gs| - 1], g, m, code);
    } else {
      MeasuredOnceAtLeast(gs[g].measurements, m, code);
    }
  }

  /**
   In a planned run every measurement with a code, of every exported generation of every
   listed evaluation, is decided, in order and once; and it is written exactly if it is
   raised in a train evaluation.
   */
  lemma EveryMeasurementIsDecided(
    evals: Evaluations, logs: seq<Log>, train: seq<int>, reference: seq<int>, raw: seq<string>, i: int, g: int, m: int)
    requires PlanRun(evals, logs, train, reference, raw).Ok?
    requires 0 <= i < |train + reference| && (train + reference)[i] in evals
    requires var e := evals[(train + reference)[i]];
             && 0 <= g < |e.generations| && Exported(e.generations[g])
             && 0 <= m < |e.generations[g].measurements|
             && e.generations[g].measurements[m].criterion.GetOr("") != ""
    ensures
      var id := (train + reference)[i];
      var e, plan := evals[id], PlanRun(evals, logs, train, reference, raw).value;
      var k := PlaceOf(e.generations, g, m);
      && |plan.plans| == |train + reference| && |plan.plans[i].criteria| == NamedInAll(e.generations)
      && k < |plan.plans[i].criteria| && e.strategies.Some?
      && var w := plan.plans[i].criteria[k];
      && Decided(e, logs, id, Set(Normalized(raw)), e.generations[g], e.generations[g].measurements[m], w)
      && (i < |train| && w.raised.Some? ==> w in Writes(plan.plans))
  {
    hide PlanRun, PlanAll, Normalized, Writes, HouseRuns.Distinct, PlaceOf, NamedInAll, Decided, Measured, UsableOf, PlanOf, ExistingCodes,
         TimesMeasured, Exported, Refusal;
    RunPlanIs(evals, logs, train, reference, raw);
    var ids, edits := Listed(train, reference), Set(Normalized(raw));
    var plans := PlanRun(evals, logs, train, reference, raw).value.plans;
    var id := (train + reference)[i];
    assert ids[i].0 == id && (ids[i].1 <==> i < |train|);
    var e := evals[id];
    var measurement := e.generations[g].measurements[m];
    RefusedOrNot(e);
    MeasuredIs(e.generations, "");
    MeasuredAt(e.generations, g, m);
    SeenOnceAtLeast(e.generations, g, m, measurement.criterion.value);
    PlanDecides(e, logs, id, edits, e.generations[g], measurement);
    var w := plans[i].criteria[PlaceOf(e.generations, g, m)];
    WritesAre(plans);
    assert ids[i].1 && w.raised.Some? ==> w in PlanWrites(plans[i]);
  }

  lemma RefusedOrNot(e: Evaluation)
    ensures Refusal(e).None? <==> Eligible(e)
  {
    NoneUsable(e.generations);
  }

  // ---- When a run can be planned ----

  /** A completed evaluation of the base model, with an exported generation and a verified form. */
  predicate Eligible(e: Evaluation) {
    && e.status == "COMPLETED" && e.adapter.GetOr("") == "" && e.loraScale.GetOr(0.0) <= 0.0
    && e.strategies.Some? && exists g :: 0 <= g < |e.generations| && Exported(e.generations[g])
  }

  lemma {:induction false} NoneUsable(gs: seq<Generation>)
    ensures UsableOf(gs) == [] <==> forall g :: 0 <= g < |gs| ==> !Exported(gs[g])
  {
    if gs != [] {
      NoneUsable(gs[..|gs| - 1]);
      assert forall g :: 0 <= g < |gs| - 1 ==> gs[..|gs| - 1][g] == gs[g];
    }
  }

  predicate NoneTwice(ids: seq<int>) {
    forall i, j :: 0 <= i < j < |ids| ==> ids[i] != ids[j]
  }

  predicate AllEligible(evals: Evaluations, ids: seq<int>) {
    forall i :: 0 <= i < |ids| ==> ids[i] in evals && Eligible(evals[ids[i]])
  }

  /** No document is both trained on and held out. */
  predicate HeldOut(evals: Evaluations, train: seq<int>, reference: seq<int>)
    requires AllEligible(evals, train) && AllEligible(evals, reference)
  {
    forall i, j :: 0 <= i < |train| && 0 <= j < |reference| ==>
      evals[train[i]].document != evals[reference[j]].document
  }

  /** Some listed evaluation measures the code. */
  predicate SeenSomewhere(evals: Evaluations, ids: seq<int>, code: string)
    requires AllEligible(evals, ids)
  {
    exists i :: 0 <= i < |ids| && TimesMeasured(evals[ids[i]].generations, code) > 0
  }

  lemma BothEligible(evals: Evaluations, train: seq<int>, reference: seq<int>)
    ensures AllEligible(evals, train + reference) <==> AllEligible(evals, train) && AllEligible(evals, reference)
  {
    hide Eligible;
    var all := train + reference;
    assert forall i :: 0 <= i < |train| ==> all[i] == train[i];
    assert forall j :: 0 <= j < |reference| ==> all[|train| + j] == reference[j];
  }

  lemma {:induction false} AllPlannable(evals: Evaluations, logs: seq<Log>, ids: seq<(int, bool)>, edits: set<string>)
    ensures PlanAll(evals, logs, ids, edits).Ok?
       <==> forall i :: 0 <= i < |ids| ==> ids[i].0 in evals && Eligible(evals[ids[i].0])
  {
    hide Eligible, Refusal;
    if ids != [] {
      var n := |ids| - 1;
      AllPlannable(evals, logs, ids[..n], edits);
      assert forall i :: 0 <= i < n ==> ids[..n][i] == ids[i];
      if ids[n].0 in evals {
        RefusedOrNot(evals[ids[n].0]);
      }
    }
  }

  /** What a plan says of its evaluation, as far as whole runs are concerned. */
  ghost predicate Reports(p: EvaluationPlan, e: Evaluation, train: bool) {
    && p.document == e.document && p.train == train
    && forall code :: code != "" ==> (PlanSees(p, code) <==> TimesMeasured(e.generations, code) > 0)
  }

  predicate PlanSees(p: EvaluationPlan, code: string) {
    exists k :: 0 <= k < |p.criteria| && p.criteria[k].code == code
  }

  lemma PlanReports(evals: Evaluations, logs: seq<Log>, id: int, train: bool, edits: set<string>, p: EvaluationPlan)
    requires PlanEvaluation(evals, logs, id, train, edits) == Ok(p)
    ensures id in evals && Reports(p, evals[id], train)
  {
    hide Refusal, Measured, UsableOf, TimesMeasured, ExistingCodes, Decide;
    var codes := CodesOf(Measured(UsableOf(evals[id].generations)));
    assert |codes| == |p.criteria| && forall k :: 0 <= k < |p.criteria| ==> p.criteria[k].code == codes[k];
    forall code | code != "" ensures PlanSees(p, code) <==> TimesMeasured(evals[id].generations, code) > 0 {
      MeasuredIs(evals[id].generations, code);
      assert code in codes <==> code in multiset(codes);
    }
  }

  /** The plans report on the listed evaluations, train ones first. */
  ghost predicate AllReport(plans: seq<EvaluationPlan>, evals: Evaluations, train: seq<int>, reference: seq<int>)
    requires AllEligible(evals, train) && AllEligible(evals, reference)
  {
    && |plans| == |train| + |reference|
    && (forall i :: 0 <= i < |train| ==> Reports(plans[i], evals[train[i]], true))
    && (forall j :: 0 <= j < |reference| ==> Reports(plans[|train| + j], evals[reference[j]], false))
  }

  lemma PlansReport(evals: Evaluations, logs: seq<Log>, train: seq<int>, reference: seq<int>, edits: set<string>)
    requires AllEligible(evals, train) && AllEligible(evals, reference)
    requires PlanAll(evals, logs, Listed(train, reference), edits).Ok?
    ensures AllReport(PlanAll(evals, logs, Listed(train, reference), edits).value, evals, train, reference)
  {
    hide PlanEvaluation, PlanAll, Reports;
    var ids := Listed(train, reference);
    PlansAre(evals, logs, ids, edits);
    var plans := PlanAll(evals, logs, ids, edits).value;
    forall i | 0 <= i < |ids| ensures ids[i].0 in evals && Reports(plans[i], evals[ids[i].0], ids[i].1) {
      PlanReports(evals, logs, ids[i].0, ids[i].1, edits, plans[i]);
    }
    assert forall i :: 0 <= i < |train| ==> ids[i] == (train[i], true);
    assert forall j :: 0 <= j < |reference| ==> ids[|train| + j] == (reference[j], false);
  }

  lemma SharedExactly(evals: Evaluations, train: seq<int>, reference: seq<int>, plans: seq<EvaluationPlan>)
    requires AllEligible(evals, train) && AllEligible(evals, reference) && AllReport(plans, evals, train, reference)
    ensures SharesDocument(plans) <==> !HeldOut(evals, train, reference)
  {
    hide PlanSees, TimesMeasured, Eligible;
    var t := |train|;
    if SharesDocument(plans) {
      var i, j :| 0 <= i < |plans| && 0 <= j < |plans| && plans[i].train && !plans[j].train && plans[i].document == plans[j].document;
      assert i >= t ==> Reports(plans[t + (i - t)], evals[reference[i - t]], false);
      assert plans[t + (j - t)].document == evals[reference[j - t]].document;
    }
    if !HeldOut(evals, train, reference) {
      var i, j :| 0 <= i < t && 0 <= j < |reference| && evals[train[i]].document == evals[reference[j]].document;
      assert plans[i].train && !plans[t + j].train && plans[i].document == plans[t + j].document;
    }
  }

  lemma SeesExactly(evals: Evaluations, train: seq<int>, reference: seq<int>, plans: seq<EvaluationPlan>, code: string)
    requires AllEligible(evals, train) && AllEligible(evals, reference) && AllReport(plans, evals, train, reference)
    requires AllEligible(evals, train + reference) && code != ""
    ensures Sees(plans, code) <==> SeenSomewhere(evals, train + reference, code)
  {
    hide TimesMeasured, Eligible;
    var t, all := |train|, train + reference;
    assert forall i :: 0 <= i < |plans| ==> Reports(plans[i], evals[all[i]], i < t) by {
      forall i | 0 <= i < |plans| ensures Reports(plans[i], evals[all[i]], i < t) {
        if i >= t {
          assert Reports(plans[t + (i - t)], evals[reference[i - t]], false);
        }
      }
    }
    if Sees(plans, code) {
      var i, k :| 0 <= i < |plans| && 0 <= k < |plans[i].criteria| && plans[i].criteria[k].code == code;
      assert PlanSees(plans[i], code);
    }
    if SeenSomewhere(evals, all, code) {
      var i :| 0 <= i < |all| && TimesMeasured(evals[all[i]].generations, code) > 0;
      assert PlanSees(plans[i], code);
    }
  }

  /** Every code of the list is measured in some listed evaluation. */
  predicate AllSeen(evals: Evaluations, ids: seq<int>, raw: seq<string>)
    requires AllEligible(evals, ids)
  {
    forall i :: 0 <= i < |raw| && CodeOf(raw[i]) != "" ==> SeenSomewhere(evals, ids, CodeOf(raw[i]))
  }

  lemma AllSeenExactly(evals: Evaluations, train: seq<int>, reference: seq<int>, plans: seq<EvaluationPlan>, raw: seq<string>)
    requires AllEligible(evals, train) && AllEligible(evals, reference) && AllReport(plans, evals, train, reference)
    requires AllEligible(evals, train + reference)
    ensures (exists c :: c in Normalized(raw) && !Sees(plans, c)) <==> !AllSeen(evals, train + reference, raw)
  {
    hide Sees, SeenSomewhere, CodeOf, AllReport, AllEligible;
    var codes := Normalized(raw);
    forall c | c in codes ensures Sees(plans, c) <==> SeenSomewhere(evals, train + reference, c) {
      SeesExactly(evals, train, reference, plans, c);
    }
    forall i | 0 <= i < |raw| && CodeOf(raw[i]) != "" ensures CodeOf(raw[i]) in codes {
    }
    if c :| c in codes && !Sees(plans, c) {
      var i :| 0 <= i < |raw| && CodeOf(raw[i]) == c;
    }
  }

  /** Something is asked for, of evaluations that can all be planned, each listed once. */
  predicate WellAsked(evals: Evaluations, train: seq<int>, reference: seq<int>, raw: seq<string>) {
    && (exists i :: 0 <= i < |raw| && CodeOf(raw[i]) != "")
    && train + reference != [] && NoneTwice(train + reference) && AllEligible(evals, train + reference)
  }

  lemma SomeCode(raw: seq<string>)
    ensures Normalized(raw) == [] <==> !exists i :: 0 <= i < |raw| && CodeOf(raw[i]) != ""
  {
    hide CodeOf;
    var codes := Normalized(raw);
    if i :| 0 <= i < |raw| && CodeOf(raw[i]) != "" {
      assert CodeOf(raw[i]) in codes;
    }
    if codes != [] {
      assert codes[0] in codes;
    }
  }

  /**
   A run is planned if and only if it names a code and an evaluation, names none twice, all
   are eligible, nothing is trained on and held out, and every code is measured somewhere.
   */
  lemma PlannedExactlyWhen(evals: Evaluations, logs: seq<Log>, train: seq<int>, reference: seq<int>, raw: seq<string>)
    ensures AllEligible(evals, train + reference) <==> AllEligible(evals, train) && AllEligible(evals, reference)
    ensures PlanRun(evals, logs, train, reference, raw).Ok? <==>
      && WellAsked(evals, train, reference, raw)
      && HeldOut(evals, train, reference) && AllSeen(evals, train + reference, raw)
  {
    hide PlanEvaluation, PlanAll, Eligible, CodeOf, HeldOut, AllSeen, SharesDocument, Sees, AllReport;
    var ids, codes, all := Listed(train, reference), Normalized(raw), train + reference;
    BothEligible(evals, train, reference);
    assert |ids| == |all| && forall i :: 0 <= i < |ids| ==> ids[i].0 == all[i];
    SomeCode(raw);
    AllPlannable(evals, logs, ids, Set(codes));
    assert HouseRuns.Distinct(ids) <==> NoneTwice(all);
    if AllEligible(evals, all) {
      PlansReport(evals, logs, train, reference, Set(codes));
      var plans := PlanAll(evals, logs, ids, Set(codes)).value;
      SharedExactly(evals, train, reference, plans);
      AllSeenExactly(evals, train, reference, plans, raw);
    }
  }
}
