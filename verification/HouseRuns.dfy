/** Planning a whole run, writing its corrections, and taking them back. */
module HouseRuns {
  import opened Basics
  import opened Texts
  import opened HouseRules

  // ---- Edit codes ----

  function CodeOf(raw: string): string {
    Upper(Strip(raw))
  }

  /** Upper-cased, without blanks or repetitions, in order of first appearance. */
  function Normalized(raw: seq<string>): (r: seq<string>)
    ensures forall i, j :: 0 <= i < j < |r| ==> r[i] != r[j]
    ensures forall c :: c in r <==> c != "" && exists i :: 0 <= i < |raw| && CodeOf(raw[i]) == c
  {
    if raw == [] then []
    else
      var front, code := Normalized(raw[..|raw| - 1]), CodeOf(raw[|raw| - 1]);
      assert forall i :: 0 <= i < |raw| - 1 ==> raw[..|raw| - 1][i] == raw[i];
      if code == "" || code in front then front else front + [code]
  }

  method NormalizeCodes(raw: seq<string>) returns (codes: seq<string>)
    ensures codes == Normalized(raw)
  {
    codes := [];
    for i := 0 to |raw|
      invariant codes == Normalized(raw[..i])
    {
      assert raw[..i + 1][..i] == raw[..i];
      var code := CodeOf(raw[i]);
      if code != "" && code !in codes {
        codes := codes + [code];
      }
    }
    assert raw[..|raw|] == raw;
  }

  lemma CodeTwice(raw: string)
    ensures CodeOf(CodeOf(raw)) == CodeOf(raw)
  {
    var t := Strip(raw);
    StripEnds(raw);
    UpperTwice(t);
    assert forall i :: 0 <= i < |t| ==> IsSpace(Upper(t)[i]) == IsSpace(t[i]);
    assert Strip(Upper(t)) == Upper(t);
  }

  lemma {:induction false} AlreadyNormal(codes: seq<string>)
    requires forall i :: 0 <= i < |codes| ==> codes[i] != "" && CodeOf(codes[i]) == codes[i]
    requires forall i, j :: 0 <= i < j < |codes| ==> codes[i] != codes[j]
    ensures Normalized(codes) == codes
  {
    hide CodeOf;
    if codes != [] {
      var n := |codes| - 1;
      var front := codes[..n];
      assert forall i :: 0 <= i < n ==> front[i] == codes[i];
      AlreadyNormal(front);
      assert codes[n] !in front;
      assert Normalized(codes) == front + [codes[n]];
    }
  }

  lemma NormalizedTwice(raw: seq<string>)
    ensures Normalized(Normalized(raw)) == Normalized(raw)
  {
    var codes := Normalized(raw);
    forall i | 0 <= i < |codes| ensures codes[i] != "" && CodeOf(codes[i]) == codes[i] {
      assert codes[i] in codes;
      var j :| 0 <= j < |raw| && CodeOf(raw[j]) == codes[i];
      CodeTwice(raw[j]);
    }
    AlreadyNormal(codes);
  }

  // ---- The plan of a run ----

  datatype RunPlan = RunPlan(plans: seq<EvaluationPlan>, codes: seq<string>)

  function Listed(train: seq<int>, reference: seq<int>): seq<(int, bool)> {
    seq(|train| + |reference|, i requires 0 <= i < |train| + |reference| =>
      if i < |train| then (train[i], true) else (reference[i - |train|], false))
  }

  predicate Distinct(ids: seq<(int, bool)>) {
    forall i, j :: 0 <= i < j < |ids| ==> ids[i].0 != ids[j].0
  }

  function Set(codes: seq<string>): set<string> {
    set c | c in codes
  }

  function PlanAll(evals: Evaluations, logs: seq<Log>, ids: seq<(int, bool)>, edits: set<string>)
    : Result<seq<EvaluationPlan>, Error>
  {
    if ids == [] then Ok([])
    else
      match PlanAll(evals, logs, ids[..|ids| - 1], edits)
      case Err(e) => Err(e)
      case Ok(front) =>
        match PlanEvaluation(evals, logs, ids[|ids| - 1].0, ids[|ids| - 1].1, edits)
        case Err(e) => Err(e)
        case Ok(p) => Ok(front + [p])
  }

  predicate SharesDocument(plans: seq<EvaluationPlan>) {
    exists i, j :: 0 <= i < |plans| && 0 <= j < |plans| && plans[i].train && !plans[j].train && plans[i].document == plans[j].document
  }

  predicate Sees(plans: seq<EvaluationPlan>, code: string) {
    exists i, k :: 0 <= i < |plans| && 0 <= k < |plans[i].criteria| && plans[i].criteria[k].code == code
  }

  function PlanRun(evals: Evaluations, logs: seq<Log>, train: seq<int>, reference: seq<int>, raw: seq<string>)
    : Result<RunPlan, Error>
  {
    var codes := Normalized(raw);
    if codes == [] then Err(NoEditCriteria)
    else if train + reference == [] then Err(NothingListed)
    else if !Distinct(Listed(train, reference)) then Err(ListedTwice)
    else
      match PlanAll(evals, logs, Listed(train, reference), Set(codes))
      case Err(e) => Err(e)
      case Ok(plans) =>
        if SharesDocument(plans) then Err(SharedDocument)
        else if exists c :: c in codes && !Sees(plans, c) then Err(NeverSeen)
        else Ok(RunPlan(plans, codes))
  }

  /** Corrections to write: never of a reference evaluation. */
  function Planned(criteria: seq<CriterionPlan>): (r: seq<CriterionPlan>)
    ensures forall w :: w in r <==> w in criteria && w.raised.Some?
  {
    if criteria == [] then []
    else
      var front, last := Planned(criteria[..|criteria| - 1]), criteria[|criteria| - 1];
      if last.raised.Some? then front + [last] else front
  }

  function PlanWrites(p: EvaluationPlan): seq<CriterionPlan> {
    if p.train then Planned(p.criteria) else []
  }

  function Writes(plans: seq<EvaluationPlan>): seq<CriterionPlan> {
    if plans == [] then [] else Writes(plans[..|plans| - 1]) + PlanWrites(plans[|plans| - 1])
  }

  // ---- Where plans come from ----

  lemma {:induction false} PlansAre(evals: Evaluations, logs: seq<Log>, ids: seq<(int, bool)>, edits: set<string>)
    requires PlanAll(evals, logs, ids, edits).Ok?
    ensures
      var plans := PlanAll(evals, logs, ids, edits).value;
      && |plans| == |ids|
      && forall i :: 0 <= i < |ids| ==> PlanEvaluation(evals, logs, ids[i].0, ids[i].1, edits) == Ok(plans[i])
  {
    hide PlanEvaluation;
    if ids != [] {
      PlansAre(evals, logs, ids[..|ids| - 1], edits);
    }
  }

  lemma {:induction false} WritesAre(plans: seq<EvaluationPlan>)
    ensures forall w :: w in Writes(plans) ==> exists i :: 0 <= i < |plans| && w in PlanWrites(plans[i])
    ensures forall i :: 0 <= i < |plans| ==> forall w :: w in PlanWrites(plans[i]) ==> w in Writes(plans)
  {
    hide PlanWrites;
    if plans != [] {
      var n := |plans| - 1;
      WritesAre(plans[..n]);
      forall w | w in Writes(plans) ensures exists i :: 0 <= i < |plans| && w in PlanWrites(plans[i]) {
        if w in Writes(plans[..n]) {
          var i :| 0 <= i < n && w in PlanWrites(plans[..n][i]);
          assert w in PlanWrites(plans[i]);
        }
      }
      forall i, w | 0 <= i < |plans| && w in PlanWrites(plans[i]) ensures w in Writes(plans) {
        if i < n {
          assert plans[..n][i] == plans[i];
        }
      }
    }
  }

  // ---- Every write is a proper one ----

  /** What a correction must be, told of the database alone. */
  predicate Proper(evals: Evaluations, logs: seq<Log>, id: int, edits: set<string>, w: CriterionPlan) {
    && w.evaluation == id && id in evals && w.edited && w.code in edits
    && w.base.Some? && 1 <= w.base.value <= 3 && w.raised == Some(w.base.value + 1) && w.skip.None?
    && w.code !in ExistingCodes(logs, id)
    && evals[id].status == "COMPLETED"
    && evals[id].strategies.Some? && w.code in evals[id].strategies.value && evals[id].strategies.value[w.code] == Guidance
  }

  lemma RunPlanIs(evals: Evaluations, logs: seq<Log>, train: seq<int>, reference: seq<int>, raw: seq<string>)
    requires PlanRun(evals, logs, train, reference, raw).Ok?
    ensures
      var ids, edits := Listed(train, reference), Set(Normalized(raw));
      var plan := PlanRun(evals, logs, train, reference, raw).value;
      && Distinct(ids) && PlanAll(evals, logs, ids, edits) == Ok(plan.plans) && |plan.plans| == |ids|
      && forall i :: 0 <= i < |ids| ==> PlanEvaluation(evals, logs, ids[i].0, ids[i].1, edits) == Ok(plan.plans[i])
  {
    hide Normalized, PlanEvaluation, SharesDocument, Sees, Distinct, Listed, PlanAll;
    PlansAre(evals, logs, Listed(train, reference), Set(Normalized(raw)));
  }

  lemma EveryWriteIsProper(
    evals: Evaluations, logs: seq<Log>, train: seq<int>, reference: seq<int>, raw: seq<string>, w: CriterionPlan)
    requires PlanRun(evals, logs, train, reference, raw).Ok?
    requires w in Writes(PlanRun(evals, logs, train, reference, raw).value.plans)
    ensures w.evaluation in train && Proper(evals, logs, w.evaluation, Set(Normalized(raw)), w)
  {
    hide PlanRun, PlanAll, Normalized, ExistingCodes, Writes, Distinct, PlanEvaluation, Proper, Planned;
    RunPlanIs(evals, logs, train, reference, raw);
    var ids, edits := Listed(train, reference), Set(Normalized(raw));
    var plans := PlanRun(evals, logs, train, reference, raw).value.plans;
    WritesAre(plans);
    var i :| 0 <= i < |plans| && w in PlanWrites(plans[i]);
    PlanIsItsOwn(evals, logs, ids[i].0, ids[i].1, edits, plans[i]);
    assert ids[i].1;
    WriteIsProper(evals, logs, ids[i].0, edits, plans[i], w);
  }

  lemma WriteIsProper(evals: Evaluations, logs: seq<Log>, id: int, edits: set<string>, p: EvaluationPlan, w: CriterionPlan)
    requires PlanEvaluation(evals, logs, id, true, edits) == Ok(p) && w in PlanWrites(p)
    ensures Proper(evals, logs, id, edits, w)
  {
    hide Measured, UsableOf, ExistingCodes, CodesOf, AsScore, Decide;
    var e := evals[id];
    var ms := Measured(UsableOf(e.generations));
    var k := PlannedFrom(p.criteria, w);
    var c := ContextOf(e, logs, id, edits);
    DecidedProperly(c, ms[k].0, ms[k].1);
  }

  lemma DecidedProperly(c: Context, g: int, m: Measurement)
    requires Coded(m) && PlanOf(c, g, m).raised.Some?
    ensures
      var w := PlanOf(c, g, m);
      && w.evaluation == c.evaluation && w.edited && w.code in c.edits && w.code !in c.existing
      && w.base.Some? && 1 <= w.base.value <= 3 && w.raised == Some(w.base.value + 1) && w.skip.None?
      && w.code in c.strategies && c.strategies[w.code] == Guidance
  {
    hide AsScore;
  }

  // ---- At most one write each ----

  lemma CountTwo(codes: seq<string>, i: int, j: int)
    requires 0 <= i < j < |codes| && codes[i] == codes[j]
    ensures multiset(codes)[codes[i]] > 1
  {
    var a, b := codes[..j], codes[j..];
    assert codes == a + b;
    assert a[i] in a && b[0] in b;
    assert a[i] in multiset(a) && b[0] in multiset(b);
    assert multiset(codes) == multiset(a) + multiset(b);
  }

  /** The measured code of a planned criterion occurs nowhere else in its evaluation. */
  lemma PlannedCodeIsAlone(evals: Evaluations, logs: seq<Log>, id: int, train: bool, edits: set<string>, p: EvaluationPlan, i: int, j: int)
    requires PlanEvaluation(evals, logs, id, train, edits) == Ok(p)
    requires 0 <= i < |p.criteria| && 0 <= j < |p.criteria| && p.criteria[i].raised.Some? && p.criteria[i].code == p.criteria[j].code
    ensures i == j
  {
    hide Measured, UsableOf, ExistingCodes, ApplyRule;
    var ms := Measured(UsableOf(evals[id].generations));
    var c := ContextOf(evals[id], logs, id, edits);
    var codes := CodesOf(ms);
    assert p.criteria[i] == PlanOf(c, ms[i].0, ms[i].1) && p.criteria[j] == PlanOf(c, ms[j].0, ms[j].1);
    assert codes[i] == codes[j];
    assert multiset(codes)[codes[i]] <= 1;
    if i != j {
      CountTwo(codes, MinInt(i, j), MaxInt(i, j));
    }
  }

  predicate DistinctTargets(ws: seq<CriterionPlan>) {
    forall a, b :: 0 <= a < b < |ws| ==> (ws[a].evaluation, ws[a].code) != (ws[b].evaluation, ws[b].code)
  }

  lemma {:induction false} PlannedIsDistinct(criteria: seq<CriterionPlan>)
    requires forall i, j :: 0 <= i < j < |criteria| && criteria[i].raised.Some? ==> criteria[i].code != criteria[j].code
    ensures DistinctTargets(Planned(criteria))
  {
    if criteria != [] {
      var n := |criteria| - 1;
      assert forall i :: 0 <= i < n ==> criteria[..n][i] == criteria[i];
      PlannedIsDistinct(criteria[..n]);
      var front := Planned(criteria[..n]);
      assert Planned(criteria) == if criteria[n].raised.Some? then front + [criteria[n]] else front;
      forall a | 0 <= a < |front| ensures front[a].code != criteria[n].code {
        var i := PlannedFrom(criteria[..n], front[a]);
        assert criteria[i] == front[a];
      }
    }
  }

  lemma PlannedFrom(criteria: seq<CriterionPlan>, w: CriterionPlan) returns (i: int)
    requires w in Planned(criteria)
    ensures 0 <= i < |criteria| && criteria[i] == w && w.raised.Some?
  {
    i :| 0 <= i < |criteria| && criteria[i] == w;
  }

  lemma {:induction false} WritesAreDistinct(plans: seq<EvaluationPlan>)
    requires forall i :: 0 <= i < |plans| ==> DistinctTargets(PlanWrites(plans[i]))
    requires forall i :: 0 <= i < |plans| ==> forall w :: w in PlanWrites(plans[i]) ==> w.evaluation == plans[i].evaluation
    requires forall i, j :: 0 <= i < j < |plans| ==> plans[i].evaluation != plans[j].evaluation
    ensures DistinctTargets(Writes(plans))
  {
    hide PlanWrites;
    if plans != [] {
      var n := |plans| - 1;
      WritesAreDistinct(plans[..n]);
      var front, last := Writes(plans[..n]), PlanWrites(plans[n]);
      WritesAre(plans[..n]);
      forall a, b | 0 <= a < |front| && 0 <= b < |last| ensures front[a].evaluation != last[b].evaluation {
        assert front[a] in front && last[b] in last;
        var i :| 0 <= i < n && front[a] in PlanWrites(plans[..n][i]);
        assert plans[..n][i] == plans[i];
      }
    }
  }

  lemma PlanIsItsOwn(evals: Evaluations, logs: seq<Log>, id: int, train: bool, edits: set<string>, p: EvaluationPlan)
    requires PlanEvaluation(evals, logs, id, train, edits) == Ok(p)
    ensures p.evaluation == id && p.train == train && forall w :: w in PlanWrites(p) ==> w.evaluation == id
    ensures DistinctTargets(PlanWrites(p))
  {
    hide Measured, UsableOf, ExistingCodes, Decide, AsScore;
    forall i, j | 0 <= i < j < |p.criteria| && p.criteria[i].raised.Some? ensures p.criteria[i].code != p.criteria[j].code {
      if p.criteria[i].code == p.criteria[j].code {
        PlannedCodeIsAlone(evals, logs, id, train, edits, p, i, j);
      }
    }
    PlannedIsDistinct(p.criteria);
  }

  /** No criterion of an evaluation is corrected twice in one run. */
  lemma AtMostOneWriteEach(evals: Evaluations, logs: seq<Log>, train: seq<int>, reference: seq<int>, raw: seq<string>)
    requires PlanRun(evals, logs, train, reference, raw).Ok?
    ensures DistinctTargets(Writes(PlanRun(evals, logs, train, reference, raw).value.plans))
  {
    hide Normalized, PlanEvaluation, Writes, PlanWrites, DistinctTargets, PlanRun, PlanAll;
    RunPlanIs(evals, logs, train, reference, raw);
    var ids, edits := Listed(train, reference), Set(Normalized(raw));
    var plans := PlanRun(evals, logs, train, reference, raw).value.plans;
    forall i | 0 <= i < |plans| ensures
      && plans[i].evaluation == ids[i].0 && DistinctTargets(PlanWrites(plans[i]))
      && forall w :: w in PlanWrites(plans[i]) ==> w.evaluation == plans[i].evaluation
    {
      PlanIsItsOwn(evals, logs, ids[i].0, ids[i].1, edits, plans[i]);
    }
    WritesAreDistinct(plans);
  }
}
