/**
 Validating an evaluation form against an agent's manifest: one pass with seen-sets, proved
 against what each issue means.
 */
module FormValidation {
  import opened Basics

  const MAX_FORM_JSON_BYTES := 256 * 1024

  /** A strategy's configuration; `json` is its serialised form. */
  datatype Config = CountBand(mode: string, json: string) | RatioBand(mode: string, json: string) | Plain(name: string, json: string)

  function StrategyOf(c: Config): string {
    match c
    case CountBand(_, _) => "count_band"
    case RatioBand(_, _) => "ratio_band"
    case Plain(name, _) => name
  }

  datatype Criterion = Criterion(
    id: int, code: string, title: string, description: string, scoringRule: Option<string>, order: int, config: Config)

  datatype Domain = Domain(id: int, code: string, title: string, order: int, criteria: seq<Criterion>)

  datatype Form = Form(agent: string, adapterKey: string, adapterVersion: int, domains: seq<Domain>)

  datatype Capability = Capability(strategy: string, mode: Option<string>, shape: string)

  datatype Manifest = Manifest(
    agent: string, adapterKey: string, adapterVersion: int,
    strategies: seq<string>, countModes: seq<string>, ratioModes: seq<string>, capabilities: seq<Capability>,
    shapes: seq<string>, minCriteria: int, maxCriteria: int, budget: int,
    allowedCodes: Option<seq<string>>, required: map<string, string>)

  datatype Field = Id | Code | Order | Strategy | Mode

  datatype Path = AgentId | AdapterKey | AdapterVersion | OfDomain(d: int, field: Field) | OfCriterion(d: int, c: int, field: Field)
    | Criteria | WholeForm | PromptBudget

  datatype IssueCode =
    | AgentMismatch | AdapterKeyMismatch | AdapterVersionMismatch
    | DuplicateDomainId | DuplicateDomainCode | DuplicateDomainOrder
    | DuplicateCriterionId | DuplicateCriterionCode | DuplicateCriterionOrder
    | UnsupportedStrategy | InvalidObjectiveGauging | UnsupportedCountMode | UnsupportedRatioMode
    | UnsupportedCriterionCode | RequiredStrategyMismatch
    | CountOutOfBounds | FormSizeExceeded | PromptBudgetExceeded

  /** `previous`: the earlier code that differs only in case. */
  datatype Issue = Issue(path: Path, code: IssueCode, previous: Option<string>)

  datatype Report = Report(isValid: bool, issues: seq<Issue>, promptChars: int, criteriaCount: int)

  type Fold = string -> string

  // ---- What comes before a criterion ----

  function AllCriteria(domains: seq<Domain>): seq<Criterion> {
    if domains == [] then [] else AllCriteria(domains[..|domains| - 1]) + domains[|domains| - 1].criteria
  }

  /** The criteria checked before criterion `c` of domain `d`. */
  function Prior(form: Form, d: int, c: int): seq<Criterion>
    requires 0 <= d < |form.domains| && 0 <= c <= |form.domains[d].criteria|
  {
    AllCriteria(form.domains[..d]) + form.domains[d].criteria[..c]
  }

  predicate HasCriterionId(cs: seq<Criterion>, id: int) {
    exists i :: 0 <= i < |cs| && cs[i].id == id
  }

  predicate HasCode(cs: seq<Criterion>, code: string) {
    exists i :: 0 <= i < |cs| && cs[i].code == code
  }

  predicate HasFolded(cs: seq<Criterion>, fold: Fold, f: string) {
    exists i :: 0 <= i < |cs| && fold(cs[i].code) == f
  }

  predicate HasOrder(cs: seq<Criterion>, order: int) {
    exists i :: 0 <= i < |cs| && cs[i].order == order
  }

  function FirstFolded(cs: seq<Criterion>, fold: Fold, f: string): (r: Option<string>)
    ensures r.Some? <==> HasFolded(cs, fold, f)
    ensures r.Some? ==> fold(r.value) == f && HasCode(cs, r.value)
  {
    if cs == [] then None
    else
      var n := |cs| - 1;
      assert forall i :: 0 <= i < n ==> cs[..n][i] == cs[i];
      match FirstFolded(cs[..n], fold, f)
      case Some(code) => Some(code)
      case None => if fold(cs[n].code) == f then Some(cs[n].code) else None
  }

  // ---- What each issue means ----

  predicate HeaderIssue(form: Form, m: Manifest, x: Issue) {
    x.previous.None? && match x.code
    case AgentMismatch => x.path == AgentId && form.agent != m.agent
    case AdapterKeyMismatch => x.path == AdapterKey && form.adapterKey != m.adapterKey
    case AdapterVersionMismatch => x.path == AdapterVersion && form.adapterVersion != m.adapterVersion
    case _ => false
  }

  predicate DomainIssue(form: Form, d: int, x: Issue)
    requires 0 <= d < |form.domains|
  {
    var here := form.domains[d];
    x.previous.None? && match x.code
    case DuplicateDomainId => x.path == OfDomain(d, Id) && exists i :: 0 <= i < d && form.domains[i].id == here.id
    case DuplicateDomainCode => x.path == OfDomain(d, Code) && exists i :: 0 <= i < d && form.domains[i].code == here.code
    case DuplicateDomainOrder => x.path == OfDomain(d, Order) && exists i :: 0 <= i < d && form.domains[i].order == here.order
    case _ => false
  }

  predicate DuplicateCode(prior: seq<Criterion>, fold: Fold, code: string, previous: Option<string>) {
    if HasCode(prior, code) then previous.None?
    else HasFolded(prior, fold, fold(code)) && previous == FirstFolded(prior, fold, fold(code))
  }

  predicate SupportIssue(m: Manifest, k: Criterion, code: IssueCode, field: Field) {
    match code
    case UnsupportedStrategy => field == Strategy && StrategyOf(k.config) !in m.strategies
    case InvalidObjectiveGauging => field == Strategy && StrategyOf(k.config) == "objective_gauging" && k.code != "A-05"
    case UnsupportedCountMode => field == Mode && k.config.CountBand? && k.config.mode !in m.countModes
    case _ => false
  }

  predicate RuleIssue(m: Manifest, k: Criterion, code: IssueCode, field: Field) {
    match code
    case UnsupportedRatioMode => field == Mode && k.config.RatioBand? && k.config.mode !in m.ratioModes
    case UnsupportedCriterionCode => field == Code && m.allowedCodes.Some? && k.code !in m.allowedCodes.value
    case RequiredStrategyMismatch => field == Strategy && k.code in m.required && m.required[k.code] != StrategyOf(k.config)
    case _ => false
  }

  predicate CriterionIssue(form: Form, m: Manifest, fold: Fold, d: int, c: int, x: Issue)
    requires 0 <= d < |form.domains| && 0 <= c < |form.domains[d].criteria|
  {
    var k, prior := form.domains[d].criteria[c], Prior(form, d, c);
    && x.path.OfCriterion? && x.path.d == d && x.path.c == c
    && match x.code
       case DuplicateCriterionId => x.path.field == Id && x.previous.None? && HasCriterionId(prior, k.id)
       case DuplicateCriterionCode => x.path.field == Code && DuplicateCode(prior, fold, k.code, x.previous)
       case DuplicateCriterionOrder =>
         x.path.field == Order && x.previous.None? && HasOrder(form.domains[d].criteria[..c], k.order)
       case _ => x.previous.None? && (SupportIssue(m, k, x.code, x.path.field) || RuleIssue(m, k, x.code, x.path.field))
  }

  predicate TotalIssue(form: Form, m: Manifest, bytes: int, budget: int, x: Issue) {
    x.previous.None? && match x.code
    case CountOutOfBounds => x.path == Criteria && !(m.minCriteria <= |AllCriteria(form.domains)| <= m.maxCriteria)
    case FormSizeExceeded => x.path == WholeForm && bytes > MAX_FORM_JSON_BYTES
    case PromptBudgetExceeded => x.path == PromptBudget && PromptChars(form.domains) > budget
    case _ => false
  }

  /** The issue belongs in the report. */
  predicate Justified(form: Form, m: Manifest, fold: Fold, bytes: int, budget: int, x: Issue) {
    match x.path
    case OfDomain(d, _) => 0 <= d < |form.domains| && DomainIssue(form, d, x)
    case OfCriterion(d, c, _) =>
      0 <= d < |form.domains| && 0 <= c < |form.domains[d].criteria| && CriterionIssue(form, m, fold, d, c, x)
    case _ => HeaderIssue(form, m, x) || TotalIssue(form, m, bytes, budget, x)
  }

  // ---- Prompt estimate ----

  function CriterionChars(k: Criterion): nat {
    |k.code| + |k.title| + |k.description| + |k.scoringRule.GetOr("")| + |k.config.json|
  }

  function CriteriaChars(cs: seq<Criterion>): nat {
    if cs == [] then 0 else CriteriaChars(cs[..|cs| - 1]) + CriterionChars(cs[|cs| - 1])
  }

  function PromptChars(domains: seq<Domain>): nat {
    if domains == [] then 0
    else
      var last := domains[|domains| - 1];
      PromptChars(domains[..|domains| - 1]) + |last.code| + |last.title| + CriteriaChars(last.criteria)
  }
}
