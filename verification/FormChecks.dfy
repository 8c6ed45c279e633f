/** The validation pass, and what a valid report guarantees. */
module FormChecks {
  import opened Basics
  import opened FormValidation

  // ---- Growing lists of earlier criteria ----

  lemma PriorGrows(form: Form, d: int, c: int)
    requires 0 <= d < |form.domains| && 0 <= c < |form.domains[d].criteria|
    ensures Prior(form, d, c + 1) == Prior(form, d, c) + [form.domains[d].criteria[c]]
  {
    var cs := form.domains[d].criteria;
    assert cs[..c + 1] == cs[..c] + [cs[c]];
  }

  lemma PriorOfDomain(form: Form, d: int)
    requires 0 <= d < |form.domains|
    ensures Prior(form, d, 0) == AllCriteria(form.domains[..d])
    ensures Prior(form, d, |form.domains[d].criteria|) == AllCriteria(form.domains[..d + 1])
  {
    var cs := form.domains[d].criteria;
    assert cs[..0] == [] && cs[..|cs|] == cs;
    assert form.domains[..d + 1][..d] == form.domains[..d];
  }

  /** The seen-sets describe exactly the criteria already checked. */
  ghost predicate SeenAre(prior: seq<Criterion>, fold: Fold, ids: set<int>, codes: set<string>, folded: map<string, string>) {
    && (forall id :: id in ids <==> HasCriterionId(prior, id))
    && (forall code :: code in codes <==> HasCode(prior, code))
    && (forall f :: f in folded <==> HasFolded(prior, fold, f))
    && (forall f :: f in folded ==> FirstFolded(prior, fold, f) == Some(folded[f]))
  }

  lemma IdsGrow(prior: seq<Criterion>, k: Criterion)
    ensures forall id :: HasCriterionId(prior + [k], id) <==> HasCriterionId(prior, id) || k.id == id
  {
    var all := prior + [k];
    assert all[|prior|].id == k.id;
    assert forall i :: 0 <= i < |prior| ==> all[i] == prior[i];
  }

  lemma CodesGrow(prior: seq<Criterion>, k: Criterion)
    ensures forall code :: HasCode(prior + [k], code) <==> HasCode(prior, code) || k.code == code
  {
    var all := prior + [k];
    assert all[|prior|].code == k.code;
    assert forall i :: 0 <= i < |prior| ==> all[i] == prior[i];
  }

  lemma FoldedGrow(prior: seq<Criterion>, k: Criterion, fold: Fold)
    ensures forall f :: HasFolded(prior + [k], fold, f) <==> HasFolded(prior, fold, f) || fold(k.code) == f
    ensures forall f ::
      FirstFolded(prior + [k], fold, f)
      == if HasFolded(prior, fold, f) then FirstFolded(prior, fold, f) else if fold(k.code) == f then Some(k.code) else None
  {
    var all := prior + [k];
    assert all[|prior|].code == k.code && all[..|prior|] == prior;
    assert forall i :: 0 <= i < |prior| ==> all[i] == prior[i];
  }

  lemma SeenGrow(
    prior: seq<Criterion>, k: Criterion, fold: Fold, ids: set<int>, codes: set<string>, folded: map<string, string>)
    requires SeenAre(prior, fold, ids, codes, folded)
    ensures SeenAre(prior + [k], fold, ids + {k.id}, codes + {k.code},
              if fold(k.code) in folded then folded else folded[fold(k.code) := k.code])
  {
    hide HasCriterionId, HasCode, HasFolded, FirstFolded;
    IdsGrow(prior, k);
    CodesGrow(prior, k);
    FoldedGrow(prior, k, fold);
  }

  lemma OrdersGrow(cs: seq<Criterion>, c: int, orders: set<int>)
    requires 0 <= c < |cs| && forall o :: o in orders <==> HasOrder(cs[..c], o)
    ensures forall o :: o in orders + {cs[c].order} <==> HasOrder(cs[..c + 1], o)
  {
    assert cs[..c + 1] == cs[..c] + [cs[c]];
    forall o ensures HasOrder(cs[..c + 1], o) <==> HasOrder(cs[..c], o) || cs[c].order == o {
      assert cs[..c + 1][c].order == cs[c].order;
      if HasOrder(cs[..c], o) {
        var i :| 0 <= i < c && cs[..c][i].order == o;
        assert cs[..c + 1][i].order == o;
      }
    }
  }

  // ---- One criterion ----

  function Single(b: bool, x: Issue): seq<Issue> {
    if b then [x] else []
  }

  method CheckSupport(m: Manifest, k: Criterion, d: int, c: int) returns (issues: seq<Issue>)
    ensures forall x :: x in issues <==>
      x.path.OfCriterion? && x.path.d == d && x.path.c == c && x.previous.None? && SupportIssue(m, k, x.code, x.path.field)
  {
    var strategy := StrategyOf(k.config);
    issues := Single(strategy !in m.strategies, Issue(OfCriterion(d, c, Strategy), UnsupportedStrategy, None));
    issues := issues + Single(strategy == "objective_gauging" && k.code != "A-05",
      Issue(OfCriterion(d, c, Strategy), InvalidObjectiveGauging, None));
    if k.config.CountBand? {
      issues := issues + Single(k.config.mode !in m.countModes, Issue(OfCriterion(d, c, Mode), UnsupportedCountMode, None));
    }
  }

  method CheckRules(m: Manifest, k: Criterion, d: int, c: int) returns (issues: seq<Issue>)
    ensures forall x :: x in issues <==>
      x.path.OfCriterion? && x.path.d == d && x.path.c == c && x.previous.None? && RuleIssue(m, k, x.code, x.path.field)
  {
    issues := [];
    if k.config.RatioBand? {
      issues := Single(k.config.mode !in m.ratioModes, Issue(OfCriterion(d, c, Mode), UnsupportedRatioMode, None));
    }
    if m.allowedCodes.Some? {
      issues := issues + Single(k.code !in m.allowedCodes.value, Issue(OfCriterion(d, c, Code), UnsupportedCriterionCode, None));
    }
    if k.code in m.required {
      issues := issues + Single(m.required[k.code] != StrategyOf(k.config),
        Issue(OfCriterion(d, c, Strategy), RequiredStrategyMismatch, None));
    }
  }

  method CheckCriterion(
    form: Form, m: Manifest, fold: Fold, d: int, c: int,
    ids: set<int>, codes: set<string>, folded: map<string, string>, orders: set<int>)
    returns (issues: seq<Issue>)
    requires 0 <= d < |form.domains| && 0 <= c < |form.domains[d].criteria|
    requires SeenAre(Prior(form, d, c), fold, ids, codes, folded)
    requires forall o :: o in orders <==> HasOrder(form.domains[d].criteria[..c], o)
    ensures forall x :: x in issues <==> CriterionIssue(form, m, fold, d, c, x)
  {
    hide HasCriterionId, HasCode, HasFolded, HasOrder, FirstFolded, Prior, SupportIssue, RuleIssue;
    var k := form.domains[d].criteria[c];
    issues := Single(k.id in ids, Issue(OfCriterion(d, c, Id), DuplicateCriterionId, None));
    if k.code in codes {
      issues := issues + [Issue(OfCriterion(d, c, Code), DuplicateCriterionCode, None)];
    } else if fold(k.code) in folded {
      issues := issues + [Issue(OfCriterion(d, c, Code), DuplicateCriterionCode, Some(folded[fold(k.code)]))];
    }
    issues := issues + Single(k.order in orders, Issue(OfCriterion(d, c, Order), DuplicateCriterionOrder, None));
    var support := CheckSupport(m, k, d, c);
    var rules := CheckRules(m, k, d, c);
    issues := issues + support + rules;
    NotStrategyIssues(m, k);
  }

  lemma NotStrategyIssues(m: Manifest, k: Criterion)
    ensures forall code, field :: code in {DuplicateCriterionId, DuplicateCriterionCode, DuplicateCriterionOrder} ==>
      !SupportIssue(m, k, code, field) && !RuleIssue(m, k, code, field)
  {
  }

  // ---- One domain ----

  predicate HasDomainId(ds: seq<Domain>, id: int) {
    exists i :: 0 <= i < |ds| && ds[i].id == id
  }

  predicate HasDomainCode(ds: seq<Domain>, code: string) {
    exists i :: 0 <= i < |ds| && ds[i].code == code
  }

  predicate HasDomainOrder(ds: seq<Domain>, order: int) {
    exists i :: 0 <= i < |ds| && ds[i].order == order
  }

  ghost predicate DomainsSeen(ds: seq<Domain>, ids: set<int>, codes: set<string>, orders: set<int>) {
    && (forall id :: id in ids <==> HasDomainId(ds, id))
    && (forall code :: code in codes <==> HasDomainCode(ds, code))
    && (forall o :: o in orders <==> HasDomainOrder(ds, o))
  }

  lemma DomainsGrow(ds: seq<Domain>, d: int, ids: set<int>, codes: set<string>, orders: set<int>)
    requires 0 <= d < |ds| && DomainsSeen(ds[..d], ids, codes, orders)
    ensures DomainsSeen(ds[..d + 1], ids + {ds[d].id}, codes + {ds[d].code}, orders + {ds[d].order})
  {
    var before, after := ds[..d], ds[..d + 1];
    assert after[d] == ds[d] && forall i :: 0 <= i < d ==> after[i] == before[i];
    assert after[d].id == ds[d].id && after[d].code == ds[d].code && after[d].order == ds[d].order;
  }

  method CheckDomain(form: Form, d: int, ids: set<int>, codes: set<string>, orders: set<int>) returns (issues: seq<Issue>)
    requires 0 <= d < |form.domains| && DomainsSeen(form.domains[..d], ids, codes, orders)
    ensures forall x :: x in issues <==> DomainIssue(form, d, x)
  {
    var here := form.domains[d];
    var before := form.domains[..d];
    assert forall i :: 0 <= i < d ==> before[i] == form.domains[i];
    assert HasDomainId(before, here.id) <==> exists i :: 0 <= i < d && form.domains[i].id == here.id;
    assert HasDomainCode(before, here.code) <==> exists i :: 0 <= i < d && form.domains[i].code == here.code;
    assert HasDomainOrder(before, here.order) <==> exists i :: 0 <= i < d && form.domains[i].order == here.order;
    issues := Single(here.id in ids, Issue(OfDomain(d, Id), DuplicateDomainId, None));
    issues := issues + Single(here.code in codes, Issue(OfDomain(d, Code), DuplicateDomainCode, None));
    issues := issues + Single(here.order in orders, Issue(OfDomain(d, Order), DuplicateDomainOrder, None));
  }

  /** Issues of the criteria before `c` in domain `d`. */
  predicate FromCriteria(form: Form, m: Manifest, fold: Fold, d: int, c: int, x: Issue)
    requires 0 <= d < |form.domains| && 0 <= c <= |form.domains[d].criteria|
  {
    x.path.OfCriterion? && x.path.d == d && 0 <= x.path.c < c && CriterionIssue(form, m, fold, d, x.path.c, x)
  }

  method CheckCriteria(
    form: Form, m: Manifest, fold: Fold, d: int, ids0: set<int>, codes0: set<string>, folded0: map<string, string>)
    returns (issues: seq<Issue>, ids: set<int>, codes: set<string>, folded: map<string, string>)
    requires 0 <= d < |form.domains| && SeenAre(AllCriteria(form.domains[..d]), fold, ids0, codes0, folded0)
    ensures SeenAre(AllCriteria(form.domains[..d + 1]), fold, ids, codes, folded)
    ensures forall x :: x in issues <==> FromCriteria(form, m, fold, d, |form.domains[d].criteria|, x)
  {
    hide SeenAre, CriterionIssue, HasOrder, Prior;
    PriorOfDomain(form, d);
    issues, ids, codes, folded := [], ids0, codes0, folded0;
    var orders: set<int> := {};
    var criteria := form.domains[d].criteria;
    NoOrders(criteria);
    for c := 0 to |criteria|
      invariant SeenAre(Prior(form, d, c), fold, ids, codes, folded)
      invariant forall o :: o in orders <==> HasOrder(criteria[..c], o)
      invariant forall x :: x in issues <==> FromCriteria(form, m, fold, d, c, x)
    {
      var k := criteria[c];
      var found := CheckCriterion(form, m, fold, d, c, ids, codes, folded, orders);
      FoundThere(form, m, fold, d, c);
      issues := issues + found;
      PriorGrows(form, d, c);
      SeenGrow(Prior(form, d, c), k, fold, ids, codes, folded);
      OrdersGrow(criteria, c, orders);
      ids, codes, orders := ids + {k.id}, codes + {k.code}, orders + {k.order};
      folded := if fold(k.code) in folded then folded else folded[fold(k.code) := k.code];
    }
  }

  lemma NoOrders(cs: seq<Criterion>)
    ensures forall o :: !HasOrder(cs[..0], o)
  {
  }

  lemma FoundThere(form: Form, m: Manifest, fold: Fold, d: int, c: int)
    requires 0 <= d < |form.domains| && 0 <= c < |form.domains[d].criteria|
    ensures forall x :: CriterionIssue(form, m, fold, d, c, x) ==> x.path.OfCriterion? && x.path.d == d && x.path.c == c
  {
  }

  // ---- The form ----

  /** Issues of the first `n` domains. */
  predicate FromDomains(form: Form, m: Manifest, fold: Fold, n: int, x: Issue)
    requires 0 <= n <= |form.domains|
  {
    match x.path
    case OfDomain(d, _) => 0 <= d < n && DomainIssue(form, d, x)
    case OfCriterion(d, c, _) => 0 <= d < n && 0 <= c < |form.domains[d].criteria| && CriterionIssue(form, m, fold, d, c, x)
    case _ => false
  }

  lemma FromOneMore(form: Form, m: Manifest, fold: Fold, d: int)
    requires 0 <= d < |form.domains|
    ensures forall x :: FromDomains(form, m, fold, d + 1, x) <==>
      FromDomains(form, m, fold, d, x) || DomainIssue(form, d, x) || FromCriteria(form, m, fold, d, |form.domains[d].criteria|, x)
  {
    hide CriterionIssue;
  }

  method CheckHeader(form: Form, m: Manifest) returns (issues: seq<Issue>)
    ensures forall x :: x in issues <==> HeaderIssue(form, m, x)
  {
    issues := Single(form.agent != m.agent, Issue(AgentId, AgentMismatch, None));
    issues := issues + Single(form.adapterKey != m.adapterKey, Issue(AdapterKey, AdapterKeyMismatch, None));
    issues := issues + Single(form.adapterVersion != m.adapterVersion, Issue(AdapterVersion, AdapterVersionMismatch, None));
  }

  method CheckDomains(form: Form, m: Manifest, fold: Fold) returns (issues: seq<Issue>, total: int)
    ensures total == |AllCriteria(form.domains)|
    ensures forall x :: x in issues <==> FromDomains(form, m, fold, |form.domains|, x)
  {
    hide DomainIssue, CriterionIssue, SeenAre, DomainsSeen, FromDomains, FromCriteria;
    var domains := form.domains;
    issues, total := [], 0;
    var dIds: set<int>, dCodes: set<string>, dOrders: set<int> := {}, {}, {};
    var ids: set<int>, codes: set<string>, folded: map<string, string> := {}, {}, map[];
    NothingSeen(form, m, fold);
    for d := 0 to |domains|
      invariant total == |AllCriteria(domains[..d])|
      invariant DomainsSeen(domains[..d], dIds, dCodes, dOrders)
      invariant SeenAre(AllCriteria(domains[..d]), fold, ids, codes, folded)
      invariant forall x :: x in issues <==> FromDomains(form, m, fold, d, x)
    {
      assert domains[..d + 1][..d] == domains[..d];
      var found := CheckDomain(form, d, dIds, dCodes, dOrders);
      DomainsGrow(domains, d, dIds, dCodes, dOrders);
      dIds, dCodes, dOrders := dIds + {domains[d].id}, dCodes + {domains[d].code}, dOrders + {domains[d].order};
      var more;
      more, ids, codes, folded := CheckCriteria(form, m, fold, d, ids, codes, folded);
      FromOneMore(form, m, fold, d);
      issues := issues + found + more;
      total := total + |domains[d].criteria|;
    }
    assert domains[..|domains|] == domains;
  }

  lemma NothingSeen(form: Form, m: Manifest, fold: Fold)
    ensures DomainsSeen(form.domains[..0], {}, {}, {}) && SeenAre(AllCriteria(form.domains[..0]), fold, {}, {}, map[])
    ensures forall x :: !FromDomains(form, m, fold, 0, x)
  {
    hide CriterionIssue, DomainIssue;
    assert AllCriteria(form.domains[..0]) == [];
  }

  method EstimatePrompt(form: Form) returns (chars: nat)
    ensures chars == PromptChars(form.domains)
  {
    chars := 0;
    for d := 0 to |form.domains|
      invariant chars == PromptChars(form.domains[..d])
    {
      assert form.domains[..d + 1][..d] == form.domains[..d];
      var domain := form.domains[d];
      chars := chars + |domain.code| + |domain.title|;
      ghost var before := chars;
      for c := 0 to |domain.criteria|
        invariant chars == before + CriteriaChars(domain.criteria[..c])
      {
        assert domain.criteria[..c + 1][..c] == domain.criteria[..c];
        var k := domain.criteria[c];
        chars := chars + |k.code| + |k.title| + |k.description|;
        if k.scoringRule.Some? && k.scoringRule.value != "" {
          chars := chars + |k.scoringRule.value|;
        }
        chars := chars + |k.config.json|;
      }
      assert domain.criteria[..|domain.criteria|] == domain.criteria;
    }
    assert form.domains[..|form.domains|] == form.domains;
  }

  /** The report holds exactly the justified issues, and the form is valid when there are none. */
  method ValidateForm(form: Form, m: Manifest, fold: Fold, bytes: int, promptBudget: Option<int>) returns (r: Report)
    ensures forall x :: x in r.issues <==> Justified(form, m, fold, bytes, promptBudget.GetOr(m.budget), x)
    ensures r.isValid <==> forall x :: !Justified(form, m, fold, bytes, promptBudget.GetOr(m.budget), x)
    ensures r.promptChars == PromptChars(form.domains) && r.criteriaCount == |AllCriteria(form.domains)|
  {
    hide HeaderIssue, FromDomains, TotalIssue, Justified;
    var issues := CheckHeader(form, m);
    var ofDomains, total := CheckDomains(form, m, fold);
    var budget := promptBudget.GetOr(m.budget);
    var totals, chars := CheckTotals(form, m, bytes, budget, total);
    issues := issues + ofDomains + totals;
    JustifiedSomewhere(form, m, fold, bytes, budget);
    FirstIsIn(issues);
    r := Report(issues == [], issues, chars, total);
  }

  method CheckTotals(form: Form, m: Manifest, bytes: int, budget: int, total: int) returns (issues: seq<Issue>, chars: nat)
    requires total == |AllCriteria(form.domains)|
    ensures forall x :: x in issues <==> TotalIssue(form, m, bytes, budget, x)
    ensures chars == PromptChars(form.domains)
  {
    issues := Single(total < m.minCriteria || total > m.maxCriteria, Issue(Criteria, CountOutOfBounds, None));
    issues := issues + Single(bytes > MAX_FORM_JSON_BYTES, Issue(WholeForm, FormSizeExceeded, None));
    chars := EstimatePrompt(form);
    issues := issues + Single(chars > budget, Issue(PromptBudget, PromptBudgetExceeded, None));
  }

  lemma JustifiedSomewhere(form: Form, m: Manifest, fold: Fold, bytes: int, budget: int)
    ensures forall x :: Justified(form, m, fold, bytes, budget, x) <==>
      HeaderIssue(form, m, x) || FromDomains(form, m, fold, |form.domains|, x) || TotalIssue(form, m, bytes, budget, x)
  {
    hide DomainIssue, CriterionIssue;
  }

  lemma FirstIsIn(issues: seq<Issue>)
    ensures issues == [] <==> forall x :: x !in issues
  {
    assert issues != [] ==> issues[0] in issues;
  }
}
