/** Which measurement shape a criterion is answered in, and why validated forms always have one. */
module FormShapes {
  import opened Basics
  import opened FormValidation
  import opened FormSpec

  // ---- Looking a shape up ----

  predicate Pairs(cap: Capability, strategy: string, mode: Option<string>) {
    cap.strategy == strategy && cap.mode == mode
  }

  function FirstShape(caps: seq<Capability>, strategy: string, mode: Option<string>): (r: Option<string>)
    ensures r.Some? <==> exists i :: 0 <= i < |caps| && Pairs(caps[i], strategy, mode)
    ensures r.Some? ==> exists i :: 0 <= i < |caps| && Pairs(caps[i], strategy, mode) && caps[i].shape == r.value
  {
    if caps == [] then None
    else if Pairs(caps[0], strategy, mode) then Some(caps[0].shape)
    else
      assert forall i :: 1 <= i < |caps| ==> caps[i] == caps[1..][i - 1];
      FirstShape(caps[1..], strategy, mode)
  }

  method ResolveMeasurementShape(m: Manifest, strategy: string, mode: Option<string>) returns (r: Option<string>)
    ensures r == FirstShape(m.capabilities, strategy, mode)
  {
    for i := 0 to |m.capabilities|
      invariant FirstShape(m.capabilities, strategy, mode) == FirstShape(m.capabilities[i..], strategy, mode)
    {
      var cap := m.capabilities[i];
      if cap.strategy == strategy && cap.mode == mode {
        return Some(cap.shape);
      }
      assert m.capabilities[i..][1..] == m.capabilities[i + 1..];
    }
    r := None;
  }

  function ModeOf(c: Config): Option<string> {
    match c
    case CountBand(mode, _) => Some(mode)
    case RatioBand(mode, _) => Some(mode)
    case Plain(_, _) => None
  }

  function ShapeOf(m: Manifest, k: Criterion): Option<string> {
    FirstShape(m.capabilities, StrategyOf(k.config), ModeOf(k.config))
  }

  // ---- What a manifest guarantees ----

  predicate HasPair(m: Manifest, strategy: string, mode: Option<string>) {
    exists i :: 0 <= i < |m.capabilities| && Pairs(m.capabilities[i], strategy, mode)
  }

  predicate CapabilityOk(m: Manifest, cap: Capability) {
    && cap.strategy in m.strategies && cap.shape in m.shapes
    && (cap.strategy == "count_band" && cap.mode.Some? ==> cap.mode.value in m.countModes)
    && (cap.strategy == "ratio_band" && cap.mode.Some? ==> cap.mode.value in m.ratioModes)
  }

  /** Every supported strategy, in each of its modes, has a capability. */
  predicate Covered(m: Manifest, strategy: string) {
    if strategy == "count_band" then forall mode :: mode in m.countModes ==> HasPair(m, strategy, Some(mode))
    else if strategy == "ratio_band" then forall mode :: mode in m.ratioModes ==> HasPair(m, strategy, Some(mode))
    else HasPair(m, strategy, None)
  }

  /** The invariants a manifest is checked for when it is built, as far as shapes depend on them. */
  predicate ManifestOk(m: Manifest) {
    && (forall i, j :: 0 <= i < j < |m.capabilities| ==>
          (m.capabilities[i].strategy, m.capabilities[i].mode) != (m.capabilities[j].strategy, m.capabilities[j].mode))
    && (forall i :: 0 <= i < |m.capabilities| ==> CapabilityOk(m, m.capabilities[i]))
    && (forall s :: s in m.strategies ==> Covered(m, s))
  }

  /** The names of the banded strategies belong to the banded configurations. */
  predicate WellTyped(k: Criterion) {
    k.config.Plain? ==> k.config.name != "count_band" && k.config.name != "ratio_band"
  }

  /** Supported, as the validator judges it. */
  predicate Supported(m: Manifest, k: Criterion) {
    && StrategyOf(k.config) in m.strategies
    && (k.config.CountBand? ==> k.config.mode in m.countModes)
    && (k.config.RatioBand? ==> k.config.mode in m.ratioModes)
  }

  /** The resolver finds a shape exactly for the criteria the validator calls supported. */
  lemma ResolvesExactlyWhenSupported(m: Manifest, k: Criterion)
    requires ManifestOk(m) && WellTyped(k)
    ensures ShapeOf(m, k).Some? <==> Supported(m, k)
    ensures ShapeOf(m, k).Some? ==> ShapeOf(m, k).value in m.shapes
  {
    var strategy, mode := StrategyOf(k.config), ModeOf(k.config);
    if ShapeOf(m, k).Some? {
      var i :| 0 <= i < |m.capabilities| && Pairs(m.capabilities[i], strategy, mode) && m.capabilities[i].shape == ShapeOf(m, k).value;
      assert CapabilityOk(m, m.capabilities[i]);
    }
    if Supported(m, k) {
      assert Covered(m, strategy);
      assert HasPair(m, strategy, mode);
    }
  }

  /** No other capability could have answered: the shape does not depend on the search order. */
  lemma ShapeIsUnique(m: Manifest, k: Criterion, i: int)
    requires ManifestOk(m) && 0 <= i < |m.capabilities| && Pairs(m.capabilities[i], StrategyOf(k.config), ModeOf(k.config))
    ensures ShapeOf(m, k) == Some(m.capabilities[i].shape)
  {
    var j :| 0 <= j < |m.capabilities| && Pairs(m.capabilities[j], StrategyOf(k.config), ModeOf(k.config))
      && m.capabilities[j].shape == ShapeOf(m, k).value;
  }

  /** Every criterion of a form the validator accepts resolves to one of the manifest's shapes. */
  lemma ValidFormsResolve(form: Form, m: Manifest, fold: Fold, bytes: int, budget: int, d: int, c: int)
    requires ManifestOk(m) && forall x :: !Justified(form, m, fold, bytes, budget, x)
    requires 0 <= d < |form.domains| && 0 <= c < |form.domains[d].criteria| && WellTyped(form.domains[d].criteria[c])
    ensures ShapeOf(m, form.domains[d].criteria[c]).Some? && ShapeOf(m, form.domains[d].criteria[c]).value in m.shapes
  {
    hide Justified, ManifestOk, AllCriteria, PromptChars, ShapeOf;
    NoIssueMeansOk(form, m, fold, bytes, budget);
    assert StrategyOk(m, form.domains[d].criteria[c]);
    ResolvesExactlyWhenSupported(m, form.domains[d].criteria[c]);
  }

  // ---- The prompt estimate ----

  /** Every text of the form that goes into the prompt, one after the other. */
  function PromptText(domains: seq<Domain>): string {
    if domains == [] then ""
    else PromptText(domains[..|domains| - 1]) + DomainText(domains[|domains| - 1])
  }

  function DomainText(d: Domain): string {
    d.code + d.title + CriteriaText(d.criteria)
  }

  function CriteriaText(cs: seq<Criterion>): string {
    if cs == [] then "" else CriteriaText(cs[..|cs| - 1]) + CriterionText(cs[|cs| - 1])
  }

  function CriterionText(k: Criterion): string {
    var rule := if k.scoringRule.Some? then k.scoringRule.value else "";
    k.code + k.title + k.description + rule + k.config.json
  }

  lemma {:induction false} CriteriaAreCounted(cs: seq<Criterion>)
    ensures CriteriaChars(cs) == |CriteriaText(cs)|
  {
    if cs != [] {
      CriteriaAreCounted(cs[..|cs| - 1]);
    }
  }

  /** The estimate is the length of all those texts together. */
  lemma {:induction false} EstimateIsTheTextLength(domains: seq<Domain>)
    ensures PromptChars(domains) == |PromptText(domains)|
  {
    if domains != [] {
      EstimateIsTheTextLength(domains[..|domains| - 1]);
      CriteriaAreCounted(domains[|domains| - 1].criteria);
    }
  }

  lemma {:induction false} PromptCharsOfSum(a: seq<Domain>, b: seq<Domain>)
    ensures PromptChars(a + b) == PromptChars(a) + PromptChars(b)
  {
    if b == [] {
      assert a + b == a;
    } else {
      assert (a + b)[..|a + b| - 1] == a + b[..|b| - 1];
      PromptCharsOfSum(a, b[..|b| - 1]);
    }
  }

  /** The estimate does not depend on the order of two neighbouring domains, nor can a domain lower it. */
  lemma EstimateIgnoresOrder(before: seq<Domain>, x: Domain, y: Domain, after: seq<Domain>)
    ensures PromptChars(before + [x] + [y] + after) == PromptChars(before + [y] + [x] + after)
    ensures PromptChars(before + [x] + after) >= PromptChars(before + after)
  {
    PromptCharsOfSum(before + [x] + [y], after);
    PromptCharsOfSum(before + [y] + [x], after);
    PromptCharsOfSum(before + [x], [y]);
    PromptCharsOfSum(before + [y], [x]);
    PromptCharsOfSum(before, [x]);
    PromptCharsOfSum(before, [y]);
    PromptCharsOfSum(before + [x], after);
    PromptCharsOfSum(before, after);
  }
}
