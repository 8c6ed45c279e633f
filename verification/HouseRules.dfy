/** Planning house-rule corrections: which stored scores would be raised, and why others not. */
module HouseRules {
  import opened Basics
  import opened Texts

  const AGENT := "sme"
  const CONTRACT := "criterion_measurements.v1"

  datatype Error =
    | NoEditCriteria | NothingListed | ListedTwice | SharedDocument | NeverSeen
    | Missing | NotCompleted | AdapterApplied | LoraScaled | NoUsableGeneration | NoSnapshot

  // ---- Scores ----

  /** A value of the stored JSON, as far as a score can be one. */
  datatype Value = Int(i: int) | Float(r: real) | Bool(b: bool) | Other

  datatype Skip =
    | InvalidScore | AlreadyMax | NotInSnapshot | NotGuidance | NotScoreShaped | InMultiple | ExistingLog

  function AsScore(v: Value): (r: Option<int>)
    ensures r.Some? ==> 1 <= r.value <= 4 && (v == Int(r.value) || v == Float(r.value as real))
    ensures r.Some? <==> (v.Int? && 1 <= v.i <= 4) || (v.Float? && v.r in {1.0, 2.0, 3.0, 4.0})
  {
    match v
    case Int(i) => if 1 <= i <= 4 then Some(i) else None
    case Float(x) => if x.Floor as real == x && 1 <= x.Floor <= 4 then Some(x.Floor) else None
    case _ => None
  }

  /** The house rule: raise by one, capped at four. */
  function ApplyRule(v: Value): (r: (Option<int>, Option<Skip>))
    ensures r.0.Some? <==> r.1.None?
    ensures r.0.Some? ==> AsScore(v).Some? && r.0.value == AsScore(v).value + 1 && 2 <= r.0.value <= 4
    ensures r.1 == Some(AlreadyMax) <==> AsScore(v) == Some(4)
    ensures r.1 == Some(InvalidScore) <==> AsScore(v).None?
  {
    match AsScore(v)
    case None => (None, Some(InvalidScore))
    case Some(s) => if s >= 4 then (None, Some(AlreadyMax)) else (Some(s + 1), None)
  }

  function Sum(scores: seq<int>): int {
    if scores == [] then 0 else Sum(scores[..|scores| - 1]) + scores[|scores| - 1]
  }

  /** Truncation toward zero. */
  function Truncated(x: real): int {
    if x >= 0.0 then x.Floor else -((-x).Floor)
  }

  function BaseReference(scores: seq<int>): int
    requires scores != []
  {
    Truncated(Sum(scores) as real / |scores| as real + 0.5)
  }

  function ExpectedScore(edited: bool, reference: int): int {
    if edited then MinInt(4, reference + 1) else reference
  }

  lemma OneMore(n: int, x: int)
    ensures x * (n + 1) == x * n + x
  {
  }

  lemma {:induction false} SumInRange(scores: seq<int>, lo: int, hi: int)
    requires forall i :: 0 <= i < |scores| ==> lo <= scores[i] <= hi
    ensures lo * |scores| <= Sum(scores) <= hi * |scores|
  {
    if scores != [] {
      var n := |scores| - 1;
      SumInRange(scores[..n], lo, hi);
      OneMore(n, lo);
      OneMore(n, hi);
    }
  }

  /** The reference of valid scores is a valid score nearest their mean; halves go up. */
  lemma ReferenceIsNearestTheMean(scores: seq<int>)
    requires scores != [] && forall s :: s in scores ==> 1 <= s <= 4
    ensures 1 <= BaseReference(scores) <= 4
    ensures -|scores| <= 2 * (Sum(scores) - BaseReference(scores) * |scores|) < |scores|
  {
    hide Sum;
    var n, t := |scores|, Sum(scores);
    assert forall i :: 0 <= i < n ==> scores[i] in scores;
    SumInRange(scores, 1, 4);
    NearestTo(t, n);
  }

  lemma MeanTimes(t: int, n: int)
    requires n > 0
    ensures (t as real / n as real) * n as real == t as real
  {
  }

  lemma NearestTo(t: int, n: int)
    requires n > 0 && n <= t <= 4 * n
    ensures
      var r := Truncated(t as real / n as real + 0.5);
      1 <= r <= 4 && -n <= 2 * (t - r * n) < n
  {
    var mean := t as real / n as real;
    MeanTimes(t, n);
    Between(n, t, mean);
    Scaled(n, t, mean, (mean + 0.5).Floor);
  }

  lemma Positive(x: real, y: real)
    requires x > 0.0 && y > 0.0
    ensures x * y > 0.0
  {
  }

  lemma Distribute(x: real, y: real, m: real)
    ensures (x - y) * m == x * m - y * m
  {
  }

  lemma Scales(x: real, y: real, m: real)
    requires m > 0.0
    ensures x < y <==> x * m < y * m
  {
    Distribute(y, x, m);
    if x < y {
      Positive(y - x, m);
    } else if y < x {
      Distribute(x, y, m);
      Positive(x - y, m);
    }
  }

  lemma Between(n: int, t: int, mean: real)
    requires n > 0 && mean * n as real == t as real && n <= t <= 4 * n
    ensures 1.0 <= mean <= 4.0
  {
    Scales(mean, 1.0, n as real);
    Scales(4.0, mean, n as real);
  }

  lemma Above(mean: real, m: real, t: real, r: real)
    requires m > 0.0 && mean * m == t && mean + 0.5 < r + 1.0
    ensures t < r * m + 0.5 * m
  {
    Positive(r + 0.5 - mean, m);
    Distribute(r + 0.5, mean, m);
    assert (r + 0.5) * m == r * m + 0.5 * m;
  }

  lemma Below(mean: real, m: real, t: real, r: real)
    requires m > 0.0 && mean * m == t && r <= mean + 0.5
    ensures r * m <= t + 0.5 * m
  {
    if r < mean + 0.5 {
      Positive(mean + 0.5 - r, m);
    }
    Distribute(mean + 0.5, r, m);
    assert (mean + 0.5) * m == mean * m + 0.5 * m;
  }

  lemma Scaled(n: int, t: int, mean: real, r: int)
    requires n > 0 && mean * n as real == t as real && r as real <= mean + 0.5 < r as real + 1.0
    ensures -n <= 2 * (t - r * n) < n
  {
    var q := r * n;
    Above(mean, n as real, t as real, r as real);
    Below(mean, n as real, t as real, r as real);
    assert r as real * n as real == q as real;
    Doubled(n, t, q);
  }

  lemma Doubled(n: int, t: int, q: int)
    requires t as real < q as real + 0.5 * n as real && q as real <= t as real + 0.5 * n as real
    ensures -n <= 2 * (t - q) < n
  {
  }

  /** An adapter that learned the rule is expected to do what the rule does to the base score. */
  lemma ExpectationIsTheRule(reference: int)
    requires 1 <= reference <= 4
    ensures ExpectedScore(true, reference) == ApplyRule(Int(reference)).0.GetOr(4)
    ensures ExpectedScore(false, reference) == reference
    ensures 1 <= ExpectedScore(true, reference) <= 4
  {
  }

  // ---- Prompt limits ----

  /** Python's floor division by a positive number. */
  function FloorDiv(a: int, b: int): int
    requires b > 0
  {
    a / b
  }

  const RESPONSE_TOKEN_ALLOWANCE := 1536

  /** The least multiple of 256 that leaves fifteen per cent of room, and room for the answer. */
  function SuggestLimits(maxPromptTokens: int): (r: (int, int))
    ensures r.0 % 256 == 0 && 100 * r.0 >= 115 * maxPromptTokens > 100 * (r.0 - 256)
    ensures r.1 - r.0 == RESPONSE_TOKEN_ALLOWANCE
  {
    var blocks := -FloorDiv(-maxPromptTokens * 115, 100 * 256);
    var limit := blocks * 256;
    (limit, limit + RESPONSE_TOKEN_ALLOWANCE)
  }

  // ---- What is stored ----

  datatype Measurement = Measurement(
    criterion: Option<string>, score: Option<Value>, hasInstances: bool, hasTotalUnits: bool)

  datatype Generation = Generation(
    id: int, agent: string, envelope: string, contract: string, contractVersion: int, measurements: seq<Measurement>)

  datatype Strategy = Guidance | OtherStrategy

  /** `strategies`: the verified form snapshot's strategy by criterion code, if it verifies. */
  datatype Evaluation = Evaluation(
    status: string, document: int, adapter: Option<string>, loraScale: Option<real>,
    generations: seq<Generation>, strategies: Option<map<string, Strategy>>)

  datatype Log = Log(
    evaluation: int, generation: Option<int>, user: int, agent: Option<string>, criterion: Option<string>,
    action: string, edited: Option<int>, notes: Option<string>)

  predicate ForAgent(l: Log) {
    l.agent.Some? && Lower(l.agent.value) == AGENT
  }

  /** Criteria of an evaluation that already have any log for the agent. */
  function ExistingCodes(logs: seq<Log>, evaluation: int): set<string> {
    set i | 0 <= i < |logs| && logs[i].evaluation == evaluation && ForAgent(logs[i]) && logs[i].criterion.Some?
      :: logs[i].criterion.value
  }

  // ---- One evaluation ----

  datatype CriterionPlan = CriterionPlan(
    evaluation: int, generation: int, code: string, edited: bool, base: Option<int>, raised: Option<int>, skip: Option<Skip>)

  datatype EvaluationPlan = EvaluationPlan(
    evaluation: int, document: int, train: bool, criteria: seq<CriterionPlan>)

  predicate Usable(g: Generation) {
    g.agent == AGENT && g.envelope == "ok" && g.contract == CONTRACT && g.contractVersion == 1
  }

  function UsableOf(gs: seq<Generation>): seq<Generation> {
    if gs == [] then []
    else
      var front := UsableOf(gs[..|gs| - 1]);
      if Usable(gs[|gs| - 1]) then front + [gs[|gs| - 1]] else front
  }

  predicate Coded(m: Measurement) {
    m.criterion.Some? && m.criterion.value != ""
  }

  /** Every coded measurement with the generation it is in, in order. */
  function Measured(gs: seq<Generation>): (r: seq<(int, Measurement)>)
    ensures forall i :: 0 <= i < |r| ==> Coded(r[i].1)
  {
    if gs == [] then []
    else
      var g := gs[|gs| - 1];
      Measured(gs[..|gs| - 1]) + CodedOf(g.id, g.measurements)
  }

  function CodedOf(g: int, ms: seq<Measurement>): (r: seq<(int, Measurement)>)
    ensures forall i :: 0 <= i < |r| ==> Coded(r[i].1)
  {
    if ms == [] then []
    else
      var front := CodedOf(g, ms[..|ms| - 1]);
      if Coded(ms[|ms| - 1]) then front + [(g, ms[|ms| - 1])] else front
  }

  function CodesOf(ms: seq<(int, Measurement)>): seq<string>
    requires forall i :: 0 <= i < |ms| ==> Coded(ms[i].1)
  {
    seq(|ms|, i requires 0 <= i < |ms| && Coded(ms[i].1) => ms[i].1.criterion.value)
  }

  predicate ScoreShaped(m: Measurement) {
    m.score.Some? && !m.hasInstances && !m.hasTotalUnits
  }

  function Decide(
    edited: bool, code: string, m: Measurement, strategy: Option<Strategy>, existing: set<string>, duplicated: bool)
    : (Option<int>, Option<Skip>)
  {
    if !edited then (None, None)
    else if strategy.None? then (None, Some(NotInSnapshot))
    else if strategy.value != Guidance then (None, Some(NotGuidance))
    else if !ScoreShaped(m) then (None, Some(NotScoreShaped))
    else if duplicated then (None, Some(InMultiple))
    else if code in existing then (None, Some(ExistingLog))
    else ApplyRule(m.score.value)
  }

  datatype Context = Context(
    evaluation: int, edits: set<string>, strategies: map<string, Strategy>, existing: set<string>, codes: seq<string>)

  function PlanOf(c: Context, g: int, m: Measurement): CriterionPlan
    requires Coded(m)
  {
    var code := m.criterion.value;
    var strategy := if code in c.strategies then Some(c.strategies[code]) else None;
    var d := Decide(code in c.edits, code, m, strategy, c.existing, multiset(c.codes)[code] > 1);
    CriterionPlan(c.evaluation, g, code, code in c.edits, AsScore(m.score.GetOr(Other)), d.0, d.1)
  }

  function CriteriaOf(c: Context, ms: seq<(int, Measurement)>): seq<CriterionPlan>
    requires forall i :: 0 <= i < |ms| ==> Coded(ms[i].1)
  {
    seq(|ms|, i requires 0 <= i < |ms| && Coded(ms[i].1) => PlanOf(c, ms[i].0, ms[i].1))
  }

  /** The guards of planning one evaluation, in order. */
  function Refusal(e: Evaluation): Option<Error> {
    if e.status != "COMPLETED" then Some(NotCompleted)
    else if e.adapter.Some? && e.adapter.value != "" then Some(AdapterApplied)
    else if e.loraScale.Some? && e.loraScale.value > 0.0 then Some(LoraScaled)
    else if UsableOf(e.generations) == [] then Some(NoUsableGeneration)
    else if e.strategies.None? then Some(NoSnapshot)
    else None
  }

  type Evaluations = map<int, Evaluation>

  function ContextOf(e: Evaluation, logs: seq<Log>, id: int, edits: set<string>): Context
    requires e.strategies.Some?
  {
    Context(id, edits, e.strategies.value, ExistingCodes(logs, id), CodesOf(Measured(UsableOf(e.generations))))
  }

  function PlanEvaluation(evals: Evaluations, logs: seq<Log>, id: int, train: bool, edits: set<string>)
    : Result<EvaluationPlan, Error>
  {
    if id !in evals then Err(Missing)
    else
      var e := evals[id];
      match Refusal(e)
      case Some(error) => Err(error)
      case None =>
        var ms := Measured(UsableOf(e.generations));
        Ok(EvaluationPlan(id, e.document, train, CriteriaOf(ContextOf(e, logs, id, edits), ms)))
  }

  /** The plan, built in the loops the script has. */
  method BuildEvaluationPlan(evals: Evaluations, logs: seq<Log>, id: int, train: bool, edits: set<string>)
    returns (r: Result<EvaluationPlan, Error>)
    ensures r == PlanEvaluation(evals, logs, id, train, edits)
  {
    if id !in evals {
      return Err(Missing);
    }
    var e := evals[id];
    var refusal := Refusal(e);
    if refusal.Some? {
      return Err(refusal.value);
    }
    var usable := UsableOf(e.generations);
    var context := ContextOf(e, logs, id, edits);
    var criteria: seq<CriterionPlan> := [];
    for i := 0 to |usable|
      invariant criteria == CriteriaOf(context, Measured(usable[..i]))
    {
      assert usable[..i + 1][..i] == usable[..i];
      var g := usable[i];
      ghost var before := Measured(usable[..i]);
      for j := 0 to |g.measurements|
        invariant criteria == CriteriaOf(context, before + CodedOf(g.id, g.measurements[..j]))
      {
        assert g.measurements[..j + 1][..j] == g.measurements[..j];
        var m := g.measurements[j];
        if Coded(m) {
          ghost var so := before + CodedOf(g.id, g.measurements[..j]);
          assert before + CodedOf(g.id, g.measurements[..j + 1]) == so + [(g.id, m)];
          criteria := criteria + [PlanOf(context, g.id, m)];
        }
      }
      assert g.measurements[..|g.measurements|] == g.measurements;
    }
    assert usable[..|usable|] == usable;
    r := Ok(EvaluationPlan(id, e.document, train, criteria));
  }
}
