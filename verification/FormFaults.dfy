/** Each issue of the report read off the form itself, place by place. */
module FormFaults {
  import opened Basics
  import opened FormValidation
  import opened FormChecks
  import opened FormShapes

  predicate IsPlace(form: Form, d: int, c: int) {
    0 <= d < |form.domains| && 0 <= c < |form.domains[d].criteria|
  }

  /** Earlier in the form: in an earlier domain, or earlier in the same one. */
  predicate Earlier(form: Form, d1: int, c1: int, d: int, c: int) {
    IsPlace(form, d1, c1) && (d1 < d || (d1 == d && c1 < c))
  }

  ghost predicate IdBefore(form: Form, d: int, c: int, id: int) {
    exists d1, c1 :: Earlier(form, d1, c1, d, c) && form.domains[d1].criteria[c1].id == id
  }

  ghost predicate CodeBefore(form: Form, d: int, c: int, code: string) {
    exists d1, c1 :: Earlier(form, d1, c1, d, c) && form.domains[d1].criteria[c1].code == code
  }

  ghost predicate FoldedBefore(form: Form, fold: Fold, d: int, c: int, f: string) {
    exists d1, c1 :: Earlier(form, d1, c1, d, c) && fold(form.domains[d1].criteria[c1].code) == f
  }

  /** The first criterion of the form whose code folds to `f`. */
  ghost predicate FirstAt(form: Form, fold: Fold, f: string, d1: int, c1: int) {
    IsPlace(form, d1, c1) && fold(form.domains[d1].criteria[c1].code) == f && !FoldedBefore(form, fold, d1, c1, f)
  }

  ghost predicate FirstBefore(form: Form, fold: Fold, d: int, c: int, f: string, code: string) {
    exists d1, c1 :: Earlier(form, d1, c1, d, c) && FirstAt(form, fold, f, d1, c1) && form.domains[d1].criteria[c1].code == code
  }

  // ---- What is wrong with a place ----

  ghost predicate DomainFault(form: Form, d: int, field: Field, code: IssueCode)
    requires 0 <= d < |form.domains|
  {
    match field
    case Id => code == DuplicateDomainId && exists i :: 0 <= i < d && form.domains[i].id == form.domains[d].id
    case Code => code == DuplicateDomainCode && exists i :: 0 <= i < d && form.domains[i].code == form.domains[d].code
    case Order => code == DuplicateDomainOrder && exists i :: 0 <= i < d && form.domains[i].order == form.domains[d].order
    case _ => false
  }

  /** A repeated code names the first code it repeats in other letters, and none if it is repeated as it is. */
  ghost predicate CodeFault(form: Form, m: Manifest, fold: Fold, d: int, c: int, code: IssueCode, previous: Option<string>)
    requires IsPlace(form, d, c)
  {
    var here := form.domains[d].criteria[c].code;
    || (code == DuplicateCriterionCode && previous.None? && CodeBefore(form, d, c, here))
    || (&& code == DuplicateCriterionCode && previous.Some? && !CodeBefore(form, d, c, here)
        && FirstBefore(form, fold, d, c, fold(here), previous.value))
    || (code == UnsupportedCriterionCode && previous.None? && m.allowedCodes.Some? && here !in m.allowedCodes.value)
  }

  ghost predicate StrategyFault(m: Manifest, k: Criterion, code: IssueCode) {
    var strategy := if k.config.CountBand? then "count_band" else if k.config.RatioBand? then "ratio_band" else k.config.name;
    || (code == UnsupportedStrategy && strategy !in m.strategies)
    || (code == InvalidObjectiveGauging && strategy == "objective_gauging" && k.code != "A-05")
    || (code == RequiredStrategyMismatch && k.code in m.required && strategy != m.required[k.code])
  }

  ghost predicate ModeFault(m: Manifest, k: Criterion, code: IssueCode) {
    match k.config
    case CountBand(mode, _) => code == UnsupportedCountMode && mode !in m.countModes
    case RatioBand(mode, _) => code == UnsupportedRatioMode && mode !in m.ratioModes
    case Plain(_, _) => false
  }

  ghost predicate CriterionFault(
    form: Form, m: Manifest, fold: Fold, d: int, c: int, field: Field, code: IssueCode, previous: Option<string>)
    requires IsPlace(form, d, c)
  {
    var k := form.domains[d].criteria[c];
    match field
    case Id => code == DuplicateCriterionId && previous.None? && IdBefore(form, d, c, k.id)
    case Code => CodeFault(form, m, fold, d, c, code, previous)
    case Order =>
      code == DuplicateCriterionOrder && previous.None? && exists i :: 0 <= i < c && form.domains[d].criteria[i].order == k.order
    case Strategy => previous.None? && StrategyFault(m, k, code)
    case Mode => previous.None? && ModeFault(m, k, code)
  }

  ghost function CountOf(ds: seq<Domain>): int {
    if ds == [] then 0 else |ds[0].criteria| + CountOf(ds[1..])
  }

  ghost predicate Fault(form: Form, m: Manifest, fold: Fold, bytes: int, budget: int, x: Issue) {
    match x.path
    case OfDomain(d, field) => x.previous.None? && 0 <= d < |form.domains| && DomainFault(form, d, field, x.code)
    case OfCriterion(d, c, field) => IsPlace(form, d, c) && CriterionFault(form, m, fold, d, c, field, x.code, x.previous)
    case AgentId => x.previous.None? && x.code == AgentMismatch && form.agent != m.agent
    case AdapterKey => x.previous.None? && x.code == AdapterKeyMismatch && form.adapterKey != m.adapterKey
    case AdapterVersion => x.previous.None? && x.code == AdapterVersionMismatch && form.adapterVersion != m.adapterVersion
    case Criteria =>
      && x.previous.None? && x.code == CountOutOfBounds
      && (CountOf(form.domains) < m.minCriteria || CountOf(form.domains) > m.maxCriteria)
    case WholeForm => x.previous.None? && x.code == FormSizeExceeded && bytes > 262144
    case PromptBudget => x.previous.None? && x.code == PromptBudgetExceeded && |PromptText(form.domains)| > budget
  }

  // ---- Places and the lists of earlier criteria ----

  lemma EarlierInOne(form: Form, d: int, c: int)
    requires IsPlace(form, d, c)
    ensures forall d1, c1 :: Earlier(form, d1, c1, d, c + 1) <==> Earlier(form, d1, c1, d, c) || (d1 == d && c1 == c)
  {
  }

  lemma EarlierInNext(form: Form, d: int)
    requires 0 < d < |form.domains|
    ensures forall d1, c1 ::
      Earlier(form, d1, c1, d, 0) <==> Earlier(form, d1, c1, d - 1, |form.domains[d - 1].criteria|)
  {
  }

  ghost predicate PriorIsEarlier(form: Form, fold: Fold, d: int, c: int)
    requires 0 <= d < |form.domains| && 0 <= c <= |form.domains[d].criteria|
  {
    && (forall id :: HasCriterionId(Prior(form, d, c), id) <==> IdBefore(form, d, c, id))
    && (forall code :: HasCode(Prior(form, d, c), code) <==> CodeBefore(form, d, c, code))
    && (forall f :: HasFolded(Prior(form, d, c), fold, f) <==> FoldedBefore(form, fold, d, c, f))
    && (forall f, code :: FirstFolded(Prior(form, d, c), fold, f) == Some(code) <==> FirstBefore(form, fold, d, c, f, code))
  }

  /** One criterion more is earlier. */
  lemma BeforeGrows(form: Form, fold: Fold, d: int, c: int)
    requires IsPlace(form, d, c)
    ensures var k := form.domains[d].criteria[c];
      && (forall id :: IdBefore(form, d, c + 1, id) <==> IdBefore(form, d, c, id) || k.id == id)
      && (forall code :: CodeBefore(form, d, c + 1, code) <==> CodeBefore(form, d, c, code) || k.code == code)
      && (forall f :: FoldedBefore(form, fold, d, c + 1, f) <==> FoldedBefore(form, fold, d, c, f) || fold(k.code) == f)
  {
    EarlierInOne(form, d, c);
    assert Earlier(form, d, c, d, c + 1);
    hide Earlier;
  }

  lemma FirstGrows(form: Form, fold: Fold, d: int, c: int, f: string, code: string)
    requires IsPlace(form, d, c)
    ensures var k := form.domains[d].criteria[c];
      FirstBefore(form, fold, d, c + 1, f, code)
      <==> FirstBefore(form, fold, d, c, f, code) || (!FoldedBefore(form, fold, d, c, f) && fold(k.code) == f && k.code == code)
  {
    EarlierInOne(form, d, c);
    assert Earlier(form, d, c, d, c + 1);
    hide Earlier, FoldedBefore;
  }

  lemma FirstIsFolded(form: Form, fold: Fold, d: int, c: int, f: string, code: string)
    requires FirstBefore(form, fold, d, c, f, code)
    ensures FoldedBefore(form, fold, d, c, f)
  {
    hide Earlier;
  }

  lemma OneMoreEarlier(form: Form, fold: Fold, d: int, c: int)
    requires IsPlace(form, d, c) && PriorIsEarlier(form, fold, d, c)
    ensures PriorIsEarlier(form, fold, d, c + 1)
  {
    hide Prior, HasCriterionId, HasCode, HasFolded, FirstFolded, IdBefore, CodeBefore, FoldedBefore, FirstBefore;
    var prior, k := Prior(form, d, c), form.domains[d].criteria[c];
    PriorGrows(form, d, c);
    IdsGrow(prior, k);
    CodesGrow(prior, k);
    FoldedGrow(prior, k, fold);
    BeforeGrows(form, fold, d, c);
    var n := c + 1;
    forall f: string, code: string
      ensures FirstFolded(Prior(form, d, n), fold, f) == Some(code) <==> FirstBefore(form, fold, d, n, f, code)
    {
      FirstOneMore(form, fold, d, c, f, code);
    }
    assert forall id :: HasCriterionId(Prior(form, d, n), id) <==> IdBefore(form, d, n, id);
    assert forall code :: HasCode(Prior(form, d, n), code) <==> CodeBefore(form, d, n, code);
    assert forall f :: HasFolded(Prior(form, d, n), fold, f) <==> FoldedBefore(form, fold, d, n, f);
  }

  lemma FirstOneMore(form: Form, fold: Fold, d: int, c: int, f: string, code: string)
    requires IsPlace(form, d, c) && PriorIsEarlier(form, fold, d, c)
    ensures FirstFolded(Prior(form, d, c + 1), fold, f) == Some(code) <==> FirstBefore(form, fold, d, c + 1, f, code)
  {
    hide Prior, HasCriterionId, HasCode, HasFolded, FirstFolded, IdBefore, CodeBefore, FoldedBefore, FirstBefore;
    var prior, k := Prior(form, d, c), form.domains[d].criteria[c];
    PriorGrows(form, d, c);
    FoldedGrow(prior, k, fold);
    FirstGrows(form, fold, d, c, f, code);
    assert HasFolded(prior, fold, f) <==> FoldedBefore(form, fold, d, c, f);
    assert FirstFolded(prior, fold, f) == Some(code) <==> FirstBefore(form, fold, d, c, f, code);
    if FirstBefore(form, fold, d, c, f, code) {
      FirstIsFolded(form, fold, d, c, f, code);
    }
  }

  lemma NothingEarlier(form: Form, fold: Fold)
    requires 0 < |form.domains|
    ensures PriorIsEarlier(form, fold, 0, 0)
  {
    assert Prior(form, 0, 0) == [];
  }

  lemma NextDomain(form: Form, fold: Fold, d: int)
    requires 0 < d < |form.domains| && PriorIsEarlier(form, fold, d - 1, |form.domains[d - 1].criteria|)
    ensures PriorIsEarlier(form, fold, d, 0)
  {
    hide Earlier, Prior, HasCriterionId, HasCode, HasFolded, FirstFolded, FirstAt;
    EarlierInNext(form, d);
    PriorOfDomain(form, d);
    PriorOfDomain(form, d - 1);
  }

  lemma {:induction false} EarlierIsPrior(form: Form, fold: Fold, d: int, c: int)
    requires 0 <= d < |form.domains| && 0 <= c <= |form.domains[d].criteria|
    ensures PriorIsEarlier(form, fold, d, c)
    decreases d, c
  {
    hide PriorIsEarlier;
    if c > 0 {
      EarlierIsPrior(form, fold, d, c - 1);
      OneMoreEarlier(form, fold, d, c - 1);
    } else if d > 0 {
      EarlierIsPrior(form, fold, d - 1, |form.domains[d - 1].criteria|);
      NextDomain(form, fold, d);
    } else {
      NothingEarlier(form, fold);
    }
  }

  // ---- The report ----

  lemma CriterionFaultIsIssue(form: Form, m: Manifest, fold: Fold, d: int, c: int, x: Issue)
    requires IsPlace(form, d, c) && x.path.OfCriterion? && x.path.d == d && x.path.c == c
    ensures CriterionIssue(form, m, fold, d, c, x) <==> CriterionFault(form, m, fold, d, c, x.path.field, x.code, x.previous)
  {
    hide Prior, HasCriterionId, HasCode, HasFolded, FirstFolded, IdBefore, CodeBefore, FoldedBefore, FirstBefore;
    EarlierIsPrior(form, fold, d, c);
    OrderBefore(form.domains[d].criteria, c);
  }

  lemma OrderBefore(cs: seq<Criterion>, c: int)
    requires 0 <= c < |cs|
    ensures HasOrder(cs[..c], cs[c].order) <==> exists i :: 0 <= i < c && cs[i].order == cs[c].order
  {
    if i :| 0 <= i < c && cs[i].order == cs[c].order {
      assert cs[..c][i].order == cs[c].order;
    }
  }

  lemma {:induction false} CountIsLength(ds: seq<Domain>)
    ensures CountOf(ds) == |AllCriteria(ds)|
  {
    if ds != [] {
      CountIsLength(ds[1..]);
      FrontOfAll(ds);
    }
  }

  lemma {:induction false} FrontOfAll(ds: seq<Domain>)
    requires ds != []
    ensures AllCriteria(ds) == ds[0].criteria + AllCriteria(ds[1..])
  {
    if |ds| > 1 {
      FrontOfAll(ds[..|ds| - 1]);
      assert ds[..|ds| - 1][1..] == ds[1..][..|ds| - 2];
    } else {
      assert ds[..0] == [] && ds[1..] == [];
    }
  }

  /** The report holds precisely the faults of the form, each under its own name and in its place. */
  lemma EveryIssueNamesItsFault(form: Form, m: Manifest, fold: Fold, bytes: int, budget: int, x: Issue)
    ensures Justified(form, m, fold, bytes, budget, x) <==> Fault(form, m, fold, bytes, budget, x)
  {
    hide CriterionIssue, CriterionFault, AllCriteria, PromptChars, PromptText, CountOf;
    EstimateIsTheTextLength(form.domains);
    CountIsLength(form.domains);
    if x.path.OfCriterion? && IsPlace(form, x.path.d, x.path.c) {
      CriterionFaultIsIssue(form, m, fold, x.path.d, x.path.c, x);
    }
  }
}
