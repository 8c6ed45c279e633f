/** What a valid form is, and what validity buys the steps after it. */
module FormSpec {
  import opened Basics
  import opened FormValidation
  import opened FormChecks

  // ---- The plain specification ----

  predicate DistinctDomains(ds: seq<Domain>) {
    forall i, j :: 0 <= i < j < |ds| ==> ds[i].id != ds[j].id && ds[i].code != ds[j].code && ds[i].order != ds[j].order
  }

  predicate DistinctCriterionIds(cs: seq<Criterion>) {
    forall i, j :: 0 <= i < j < |cs| ==> cs[i].id != cs[j].id
  }

  predicate DistinctUpToCase(cs: seq<Criterion>, fold: Fold) {
    forall i, j :: 0 <= i < j < |cs| ==> fold(cs[i].code) != fold(cs[j].code)
  }

  predicate DistinctOrders(cs: seq<Criterion>) {
    forall i, j :: 0 <= i < j < |cs| ==> cs[i].order != cs[j].order
  }

  /** The strategy is supported in its mode, allowed for the code, and the required one. */
  predicate StrategyOk(m: Manifest, k: Criterion) {
    && StrategyOf(k.config) in m.strategies
    && (StrategyOf(k.config) == "objective_gauging" ==> k.code == "A-05")
    && (k.config.CountBand? ==> k.config.mode in m.countModes)
    && (k.config.RatioBand? ==> k.config.mode in m.ratioModes)
    && (m.allowedCodes.Some? ==> k.code in m.allowedCodes.value)
    && (k.code in m.required ==> m.required[k.code] == StrategyOf(k.config))
  }

  predicate DomainsOk(m: Manifest, ds: seq<Domain>) {
    forall d :: 0 <= d < |ds| ==>
      DistinctOrders(ds[d].criteria) && forall c :: 0 <= c < |ds[d].criteria| ==> StrategyOk(m, ds[d].criteria[c])
  }

  predicate FormOk(form: Form, m: Manifest, fold: Fold, bytes: int, budget: int) {
    && form.agent == m.agent && form.adapterKey == m.adapterKey && form.adapterVersion == m.adapterVersion
    && DistinctDomains(form.domains)
    && DistinctCriterionIds(AllCriteria(form.domains))
    && DistinctUpToCase(AllCriteria(form.domains), fold)
    && DomainsOk(m, form.domains)
    && m.minCriteria <= |AllCriteria(form.domains)| <= m.maxCriteria
    && bytes <= MAX_FORM_JSON_BYTES && PromptChars(form.domains) <= budget
  }

  // ---- The pass decides it ----

  /** No criterion so far repeats an earlier one. */
  predicate FreshAt(form: Form, fold: Fold, d: int, c: int)
    requires 0 <= d < |form.domains| && 0 <= c < |form.domains[d].criteria|
  {
    var k, prior := form.domains[d].criteria[c], Prior(form, d, c);
    !HasCriterionId(prior, k.id) && !HasFolded(prior, fold, fold(k.code))
  }

  predicate FreshIn(form: Form, fold: Fold, d: int)
    requires 0 <= d < |form.domains|
  {
    forall c :: 0 <= c < |form.domains[d].criteria| ==> FreshAt(form, fold, d, c)
  }

  lemma AppendDistinct(cs: seq<Criterion>, k: Criterion, fold: Fold)
    ensures DistinctCriterionIds(cs + [k]) <==> DistinctCriterionIds(cs) && !HasCriterionId(cs, k.id)
    ensures DistinctUpToCase(cs + [k], fold) <==> DistinctUpToCase(cs, fold) && !HasFolded(cs, fold, fold(k.code))
  {
    var all := cs + [k];
    assert all[|cs|] == k;
    assert forall i :: 0 <= i < |cs| ==> all[i] == cs[i];
    if DistinctUpToCase(all, fold) {
      forall i, j | 0 <= i < j < |cs| ensures fold(cs[i].code) != fold(cs[j].code) {
        assert fold(all[i].code) != fold(all[j].code);
      }
      forall i | 0 <= i < |cs| ensures fold(cs[i].code) != fold(k.code) {
        assert fold(all[i].code) != fold(all[|cs|].code);
      }
    }
    if DistinctCriterionIds(all) {
      forall i | 0 <= i < |cs| ensures cs[i].id != k.id {
        assert all[i].id != all[|cs|].id;
      }
    }
  }

  lemma {:induction false} FreshPrefix(form: Form, fold: Fold, d: int, c: int)
    requires 0 <= d < |form.domains| && 0 <= c <= |form.domains[d].criteria|
    ensures DistinctCriterionIds(Prior(form, d, c)) && DistinctUpToCase(Prior(form, d, c), fold) <==>
      && DistinctCriterionIds(AllCriteria(form.domains[..d])) && DistinctUpToCase(AllCriteria(form.domains[..d]), fold)
      && forall i :: 0 <= i < c ==> FreshAt(form, fold, d, i)
  {
    hide DistinctCriterionIds, DistinctUpToCase, HasCriterionId, HasFolded, Prior;
    PriorOfDomain(form, d);
    if c > 0 {
      FreshPrefix(form, fold, d, c - 1);
      PriorGrows(form, d, c - 1);
      AppendDistinct(Prior(form, d, c - 1), form.domains[d].criteria[c - 1], fold);
      assert (forall i :: 0 <= i < c ==> FreshAt(form, fold, d, i)) <==>
        (forall i :: 0 <= i < c - 1 ==> FreshAt(form, fold, d, i)) && FreshAt(form, fold, d, c - 1);
    }
  }

  lemma {:induction false} FreshDomains(form: Form, fold: Fold, n: int)
    requires 0 <= n <= |form.domains|
    ensures DistinctCriterionIds(AllCriteria(form.domains[..n])) && DistinctUpToCase(AllCriteria(form.domains[..n]), fold) <==>
      forall d :: 0 <= d < n ==> FreshIn(form, fold, d)
  {
    hide FreshAt, AllCriteria;
    if n == 0 {
      NoCriteria(form.domains, fold);
    } else {
      FreshDomains(form, fold, n - 1);
      PriorOfDomain(form, n - 1);
      FreshPrefix(form, fold, n - 1, |form.domains[n - 1].criteria|);
      assert (forall d :: 0 <= d < n ==> FreshIn(form, fold, d)) <==>
        (forall d :: 0 <= d < n - 1 ==> FreshIn(form, fold, d)) && FreshIn(form, fold, n - 1);
    }
  }

  lemma NoCriteria(ds: seq<Domain>, fold: Fold)
    ensures DistinctCriterionIds(AllCriteria(ds[..0])) && DistinctUpToCase(AllCriteria(ds[..0]), fold)
  {
  }

  /**
   The exact test and the case-folded one, tried in turn, find precisely the codes that an
   earlier code equals up to case.
   */
  lemma TwoStepIsFolded(prior: seq<Criterion>, fold: Fold, code: string)
    ensures (exists previous :: DuplicateCode(prior, fold, code, previous)) <==> HasFolded(prior, fold, fold(code))
  {
    if HasCode(prior, code) {
      var i :| 0 <= i < |prior| && prior[i].code == code;
      assert fold(prior[i].code) == fold(code);
      assert DuplicateCode(prior, fold, code, None);
    } else if HasFolded(prior, fold, fold(code)) {
      assert DuplicateCode(prior, fold, code, FirstFolded(prior, fold, fold(code)));
    }
  }

  /** A criterion draws no issue exactly when it is fresh, its order new, and its strategy proper. */
  lemma CriterionClean(form: Form, m: Manifest, fold: Fold, d: int, c: int)
    requires 0 <= d < |form.domains| && 0 <= c < |form.domains[d].criteria|
    ensures (forall x :: !CriterionIssue(form, m, fold, d, c, x)) <==>
      && FreshAt(form, fold, d, c) && StrategyOk(m, form.domains[d].criteria[c])
      && !HasOrder(form.domains[d].criteria[..c], form.domains[d].criteria[c].order)
  {
    hide HasCriterionId, HasFolded, HasOrder, Prior, SupportIssue, RuleIssue, StrategyOk, DuplicateCode;
    var k, prior := form.domains[d].criteria[c], Prior(form, d, c);
    TwoStepIsFolded(prior, fold, k.code);
    StrategyClean(m, k);
    NotStrategyIssues(m, k);
    if forall x :: !CriterionIssue(form, m, fold, d, c, x) {
      assert !CriterionIssue(form, m, fold, d, c, Issue(OfCriterion(d, c, Id), DuplicateCriterionId, None));
      assert !CriterionIssue(form, m, fold, d, c, Issue(OfCriterion(d, c, Order), DuplicateCriterionOrder, None));
      forall previous ensures !DuplicateCode(prior, fold, k.code, previous) {
        assert !CriterionIssue(form, m, fold, d, c, Issue(OfCriterion(d, c, Code), DuplicateCriterionCode, previous));
      }
      forall code, field ensures !SupportIssue(m, k, code, field) && !RuleIssue(m, k, code, field) {
        assert !CriterionIssue(form, m, fold, d, c, Issue(OfCriterion(d, c, field), code, None));
      }
    }
  }

  lemma StrategyClean(m: Manifest, k: Criterion)
    ensures (forall code, field :: !SupportIssue(m, k, code, field) && !RuleIssue(m, k, code, field)) <==> StrategyOk(m, k)
  {
    if forall code, field :: !SupportIssue(m, k, code, field) && !RuleIssue(m, k, code, field) {
      assert !SupportIssue(m, k, UnsupportedStrategy, Strategy) && !SupportIssue(m, k, InvalidObjectiveGauging, Strategy);
      assert !SupportIssue(m, k, UnsupportedCountMode, Mode) && !RuleIssue(m, k, UnsupportedRatioMode, Mode);
      assert !RuleIssue(m, k, UnsupportedCriterionCode, Code) && !RuleIssue(m, k, RequiredStrategyMismatch, Strategy);
    }
  }

  lemma DomainClean(form: Form, d: int)
    requires 0 <= d < |form.domains|
    ensures (forall x :: !DomainIssue(form, d, x)) <==>
      forall i :: 0 <= i < d ==>
        && form.domains[i].id != form.domains[d].id && form.domains[i].code != form.domains[d].code
        && form.domains[i].order != form.domains[d].order
  {
    if forall x :: !DomainIssue(form, d, x) {
      assert !DomainIssue(form, d, Issue(OfDomain(d, Id), DuplicateDomainId, None));
      assert !DomainIssue(form, d, Issue(OfDomain(d, Code), DuplicateDomainCode, None));
      assert !DomainIssue(form, d, Issue(OfDomain(d, Order), DuplicateDomainOrder, None));
    }
  }

  lemma OrdersFresh(cs: seq<Criterion>)
    ensures DistinctOrders(cs) <==> forall c :: 0 <= c < |cs| ==> !HasOrder(cs[..c], cs[c].order)
  {
    if forall c :: 0 <= c < |cs| ==> !HasOrder(cs[..c], cs[c].order) {
      forall i, j | 0 <= i < j < |cs| ensures cs[i].order != cs[j].order {
        assert cs[..j][i].order == cs[i].order;
      }
    }
  }

  lemma EdgesClean(form: Form, m: Manifest, bytes: int, budget: int)
    ensures (forall x :: !HeaderIssue(form, m, x) && !TotalIssue(form, m, bytes, budget, x)) <==>
      && form.agent == m.agent && form.adapterKey == m.adapterKey && form.adapterVersion == m.adapterVersion
      && m.minCriteria <= |AllCriteria(form.domains)| <= m.maxCriteria
      && bytes <= MAX_FORM_JSON_BYTES && PromptChars(form.domains) <= budget
  {
    hide AllCriteria, PromptChars;
    if forall x :: !HeaderIssue(form, m, x) && !TotalIssue(form, m, bytes, budget, x) {
      assert !HeaderIssue(form, m, Issue(AgentId, AgentMismatch, None));
      assert !HeaderIssue(form, m, Issue(AdapterKey, AdapterKeyMismatch, None));
      assert !HeaderIssue(form, m, Issue(AdapterVersion, AdapterVersionMismatch, None));
      assert !TotalIssue(form, m, bytes, budget, Issue(Criteria, CountOutOfBounds, None));
      assert !TotalIssue(form, m, bytes, budget, Issue(WholeForm, FormSizeExceeded, None));
      assert !TotalIssue(form, m, bytes, budget, Issue(PromptBudget, PromptBudgetExceeded, None));
    }
  }

  predicate CriteriaClean(form: Form, m: Manifest, fold: Fold, d: int)
    requires 0 <= d < |form.domains|
  {
    forall c :: 0 <= c < |form.domains[d].criteria| ==>
      && FreshAt(form, fold, d, c) && StrategyOk(m, form.domains[d].criteria[c])
      && !HasOrder(form.domains[d].criteria[..c], form.domains[d].criteria[c].order)
  }

  ghost predicate DomainQuiet(form: Form, d: int)
    requires 0 <= d < |form.domains|
  {
    forall x :: !DomainIssue(form, d, x)
  }

  ghost predicate CriterionQuiet(form: Form, m: Manifest, fold: Fold, d: int, c: int)
    requires 0 <= d < |form.domains| && 0 <= c < |form.domains[d].criteria|
  {
    forall x :: !CriterionIssue(form, m, fold, d, c, x)
  }

  lemma DomainsDistinct(form: Form)
    ensures (forall d :: 0 <= d < |form.domains| ==> DomainQuiet(form, d)) <==> DistinctDomains(form.domains)
  {
    hide DomainIssue;
    var ds := form.domains;
    forall d | 0 <= d < |ds| ensures DomainQuiet(form, d) <==>
      forall i :: 0 <= i < d ==> ds[i].id != ds[d].id && ds[i].code != ds[d].code && ds[i].order != ds[d].order
    {
      DomainClean(form, d);
    }
    if forall d :: 0 <= d < |ds| ==> DomainQuiet(form, d) {
      forall i, j | 0 <= i < j < |ds| ensures ds[i].id != ds[j].id && ds[i].code != ds[j].code && ds[i].order != ds[j].order {
        assert DomainQuiet(form, j);
      }
    }
  }

  lemma DomainsClean(form: Form, m: Manifest, fold: Fold)
    ensures (forall x :: !FromDomains(form, m, fold, |form.domains|, x)) <==>
      && DistinctDomains(form.domains)
      && forall d :: 0 <= d < |form.domains| ==> CriteriaClean(form, m, fold, d)
  {
    hide DomainQuiet, CriterionQuiet, FreshAt, StrategyOk, HasOrder, DistinctDomains;
    DomainsDistinct(form);
    forall d | 0 <= d < |form.domains|
      ensures CriteriaClean(form, m, fold, d) <==>
        forall c :: 0 <= c < |form.domains[d].criteria| ==> CriterionQuiet(form, m, fold, d, c)
    {
      CriteriaQuiet(form, m, fold, d);
    }
    IssuesPlaced(form, m, fold);
  }

  lemma CriteriaQuiet(form: Form, m: Manifest, fold: Fold, d: int)
    requires 0 <= d < |form.domains|
    ensures CriteriaClean(form, m, fold, d) <==>
      forall c :: 0 <= c < |form.domains[d].criteria| ==> CriterionQuiet(form, m, fold, d, c)
  {
    hide CriterionIssue, FreshAt, StrategyOk, HasOrder;
    var cs := form.domains[d].criteria;
    forall c | 0 <= c < |cs| ensures CriterionQuiet(form, m, fold, d, c) <==>
      FreshAt(form, fold, d, c) && StrategyOk(m, cs[c]) && !HasOrder(cs[..c], cs[c].order)
    {
      CriterionClean(form, m, fold, d, c);
    }
    if forall c :: 0 <= c < |cs| ==> CriterionQuiet(form, m, fold, d, c) {
      forall c | 0 <= c < |cs| ensures FreshAt(form, fold, d, c) && StrategyOk(m, cs[c]) && !HasOrder(cs[..c], cs[c].order) {
        assert CriterionQuiet(form, m, fold, d, c);
      }
    }
  }

  lemma IssuesPlaced(form: Form, m: Manifest, fold: Fold)
    ensures (forall x :: !FromDomains(form, m, fold, |form.domains|, x)) <==>
      && (forall d :: 0 <= d < |form.domains| ==> DomainQuiet(form, d))
      && (forall d, c :: 0 <= d < |form.domains| && 0 <= c < |form.domains[d].criteria| ==> CriterionQuiet(form, m, fold, d, c))
  {
    if forall x :: !FromDomains(form, m, fold, |form.domains|, x) {
      forall d, x | 0 <= d < |form.domains| ensures !DomainIssue(form, d, x) {
        assert !FromDomains(form, m, fold, |form.domains|, x);
      }
      forall d, c, x | 0 <= d < |form.domains| && 0 <= c < |form.domains[d].criteria| ensures !CriterionIssue(form, m, fold, d, c, x) {
        assert !FromDomains(form, m, fold, |form.domains|, x);
      }
    }
    if && (forall d :: 0 <= d < |form.domains| ==> DomainQuiet(form, d))
       && (forall d, c :: 0 <= d < |form.domains| && 0 <= c < |form.domains[d].criteria| ==> CriterionQuiet(form, m, fold, d, c))
    {
      forall x ensures !FromDomains(form, m, fold, |form.domains|, x) {
        match x.path
        case OfDomain(d, _) =>
          assert 0 <= d < |form.domains| ==> DomainQuiet(form, d);
        case OfCriterion(d, c, _) =>
          assert 0 <= d < |form.domains| && 0 <= c < |form.domains[d].criteria| ==> CriterionQuiet(form, m, fold, d, c);
        case _ =>
      }
    }
  }

  /** Criteria taken domain by domain: fresh codes and ids throughout, new orders, proper strategies. */
  lemma CriteriaTogether(form: Form, m: Manifest, fold: Fold)
    ensures (forall d :: 0 <= d < |form.domains| ==> CriteriaClean(form, m, fold, d)) <==>
      && DistinctCriterionIds(AllCriteria(form.domains)) && DistinctUpToCase(AllCriteria(form.domains), fold)
      && DomainsOk(m, form.domains)
  {
    hide FreshAt, StrategyOk, HasOrder, AllCriteria, DistinctCriterionIds, DistinctUpToCase, DistinctOrders;
    FreshDomains(form, fold, |form.domains|);
    assert form.domains[..|form.domains|] == form.domains;
    forall d | 0 <= d < |form.domains| ensures CriteriaClean(form, m, fold, d) <==>
      FreshIn(form, fold, d) && DistinctOrders(form.domains[d].criteria)
      && forall c :: 0 <= c < |form.domains[d].criteria| ==> StrategyOk(m, form.domains[d].criteria[c])
    {
      OrdersFresh(form.domains[d].criteria);
    }
  }

  /** The one pass reports nothing exactly for the forms the plain specification admits. */
  lemma NoIssueMeansOk(form: Form, m: Manifest, fold: Fold, bytes: int, budget: int)
    ensures (forall x :: !Justified(form, m, fold, bytes, budget, x)) <==> FormOk(form, m, fold, bytes, budget)
  {
    hide HeaderIssue, TotalIssue, FromDomains, Justified, CriteriaClean, AllCriteria, PromptChars, DomainsOk,
         DistinctCriterionIds, DistinctUpToCase, DistinctDomains;
    JustifiedSomewhere(form, m, fold, bytes, budget);
    EdgesClean(form, m, bytes, budget);
    DomainsClean(form, m, fold);
    CriteriaTogether(form, m, fold);
    AllQuiet(form, m, fold, bytes, budget);
  }

  lemma AllQuiet(form: Form, m: Manifest, fold: Fold, bytes: int, budget: int)
    ensures (forall x :: !Justified(form, m, fold, bytes, budget, x)) <==>
      && (forall x :: !HeaderIssue(form, m, x) && !TotalIssue(form, m, bytes, budget, x))
      && (forall x :: !FromDomains(form, m, fold, |form.domains|, x))
  {
    hide HeaderIssue, TotalIssue, FromDomains, Justified;
    JustifiedSomewhere(form, m, fold, bytes, budget);
  }
}
