// Authorization rules, their normal form, and what a workflow rule allows.
module AuthzRules {
  import opened Options
  import opened Fnmatch
  import opened StringOrder

  // A workflow (GitHub Actions) rule.
  datatype Workflow = Workflow(repository: string, repositoryId: string, ownerId: string,
                               workflowRefs: seq<string>, jobWorkflowRefs: seq<string>, eventNames: seq<string>,
                               refs: seq<string>, environments: seq<string>, products: seq<string>,
                               contexts: seq<string>, instances: seq<string>, actions: seq<string>)

  // Rules of the other collections keep their selector fields by name.
  datatype Body = Actions(workflow: Workflow)
                | Principal(selectors: map<string, seq<string>>, fixed: string)
                | OrdinaryAgent(payload: string)

  datatype Rule = Rule(setId: Option<string>, ruleId: Option<string>, body: Body)

  // A selector field of a rule; an absent one is empty.
  function Field(rule: Rule, name: string): seq<string> {
    if rule.body.Principal? && name in rule.body.selectors then rule.body.selectors[name] else []
  }

  // The six collections in the order the program walks them.
  type Collection = c: nat | c < 6
  const WORKFLOWS: Collection := 0

  datatype Policy = Policy(schema: nat, quorum: Option<nat>, groups: seq<seq<Rule>>)

  // ----- normal form -----

  predicate IsSpace(c: char) { c == ' ' || '\t' <= c <= '\r' || '\U{001C}' <= c <= '\U{001F}' }

  function StripLeft(s: string): string {
    if s != "" && IsSpace(s[0]) then StripLeft(s[1..]) else s
  }

  function StripRight(s: string): string {
    if s != "" && IsSpace(s[|s| - 1]) then StripRight(s[..|s| - 1]) else s
  }

  function Strip(s: string): string { StripRight(StripLeft(s)) }

  function Stripped(values: seq<string>): (stripped: seq<string>)
    ensures forall x :: x in stripped <==> x != "" && exists v :: v in values && Strip(v) == x
  {
    if values == [] then []
    else
      var rest := Stripped(values[1..]);
      if Strip(values[0]) == "" then rest else [Strip(values[0])] + rest
  }

  function NormalValues(values: seq<string>): seq<string> { SortedSet(Stripped(values)) }

  function NormalWorkflow(w: Workflow): Workflow {
    Workflow(w.repository, w.repositoryId, w.ownerId, NormalValues(w.workflowRefs), NormalValues(w.jobWorkflowRefs),
             NormalValues(w.eventNames), NormalValues(w.refs), NormalValues(w.environments), NormalValues(w.products),
             NormalValues(w.contexts), NormalValues(w.instances), NormalValues(w.actions))
  }

  // `_normalize_authz_rule`, on the rule without its managed identity.
  function NormalBody(body: Body): Body {
    match body
    case Actions(w) => Actions(NormalWorkflow(w))
    case Principal(selectors, fixed) => Principal(map key | key in selectors :: NormalValues(selectors[key]), fixed)
    case OrdinaryAgent(_) => body
  }

  // ----- matching an unmanaged rule to a desired one -----

  predicate IdentityNarrows(current: Workflow, desired: Workflow) {
    current.repositoryId in {"", desired.repositoryId} && current.ownerId in {"", desired.ownerId}
  }

  function WithoutIdentity(w: Workflow): Workflow { NormalWorkflow(w).(repositoryId := "", ownerId := "") }

  // `_github_rule_transition_base_matches`
  predicate TransitionBase(current: Rule, desired: Rule) {
    && current.body.Actions? && desired.body.Actions?
    && current.setId in {None, desired.setId}
    && (current.setId == desired.setId ==> current.ruleId == desired.ruleId)
    && WithoutIdentity(current.body.workflow).(jobWorkflowRefs := []) == WithoutIdentity(desired.body.workflow).(jobWorkflowRefs := [])
    && IdentityNarrows(current.body.workflow, desired.body.workflow)
  }

  predicate Subset(a: seq<string>, b: seq<string>) { forall x :: x in a ==> x in b }

  // `_managed_rule_adoption_matches`
  predicate Adoptable(current: Rule, desired: Rule) {
    && current.setId.None? && !current.body.OrdinaryAgent? && !desired.body.OrdinaryAgent?
    && (NormalBody(current.body) == NormalBody(desired.body)
        || (current.body.Actions? && desired.body.Actions?
            && ((WithoutIdentity(current.body.workflow) == WithoutIdentity(desired.body.workflow)
                 && IdentityNarrows(current.body.workflow, desired.body.workflow))
                || (TransitionBase(current, desired)
                    && Subset(current.body.workflow.jobWorkflowRefs, desired.body.workflow.jobWorkflowRefs)))))
  }

  // An unmanaged rule that the desired one would narrow without an overlap.
  predicate BlocksNarrowing(current: Rule, desired: Rule) {
    && current.setId.None? && TransitionBase(current, desired)
    && !Subset(current.body.workflow.jobWorkflowRefs, desired.body.workflow.jobWorkflowRefs)
  }

  // `_glob_selectors_cover`
  predicate GlobCover(compatibility: seq<string>, managed: seq<string>) {
    compatibility == [] || "*" in compatibility ||
    (managed != [] && forall m :: m in managed ==>
       if HasGlob(m) then m in compatibility else exists c :: c in compatibility && Matches(c, m))
  }

  // `_exact_selectors_cover`
  predicate ExactCover(compatibility: seq<string>, managed: seq<string>) {
    compatibility == [] || (managed != [] && Subset(managed, compatibility))
  }

  // `_instance_selectors_cover`
  predicate InstanceCover(compatibility: seq<string>, managed: seq<string>) {
    if compatibility == [] || managed == [] then compatibility == managed
    else compatibility == ["*"] || (managed != ["*"] && Subset(managed, compatibility))
  }

  predicate Covers(current: Workflow, desired: Workflow) {
    && current.repository == desired.repository
    && current.actions != [] && current.actions == desired.actions
    && GlobCover(current.workflowRefs, desired.workflowRefs)
    && GlobCover(current.jobWorkflowRefs, desired.jobWorkflowRefs)
    && ExactCover(current.eventNames, desired.eventNames)
    && ExactCover(current.refs, desired.refs)
    && ExactCover(current.environments, desired.environments)
    && GlobCover(current.products, desired.products)
    && GlobCover(current.contexts, desired.contexts)
    && InstanceCover(current.instances, desired.instances)
  }

  // `_managed_github_compatibility_retirement_matches`
  predicate Retirable(current: Rule, desired: Rule) {
    && current.body.Actions? && desired.body.Actions?
    && current.setId.None? && current.ruleId.None?
    && current.body.workflow.repositoryId == "" && current.body.workflow.ownerId == ""
    && Covers(NormalWorkflow(current.body.workflow), NormalWorkflow(desired.body.workflow))
  }

  // ----- what a workflow rule allows -----

  datatype Identity = Identity(repository: string, repositoryId: string, ownerId: string, workflowRef: string,
                               jobWorkflowRef: string, eventName: string, ref: string, environment: string)

  // `instances` is empty unless the target has instance scope.
  datatype Request = Request(action: string, product: string, context: string, instanceScope: bool, instances: seq<string>)

  // Which actions may only name instances, and which need an exact instance.
  datatype Tables = Tables(exclusive: set<string>, exact: set<string>)

  datatype Category = RepositoryId | OwnerId | WorkflowRef | JobWorkflowRef | EventName | Ref | Environment
                    | Product | Context | Target | Action | PolicySchema

  predicate AnyMatches(value: string, patterns: seq<string>) { exists p :: p in patterns && Matches(p, Strip(value)) }

  // `_target_allowed`
  predicate TargetAllowed(tables: Tables, schema: nat, rule: Workflow, request: Request) {
    if schema in {2, 3} && request.action in tables.exclusive && !request.instanceScope then false
    else if !request.instanceScope then rule.instances == []
    else if rule.instances == [] then schema == 1
    else if rule.instances == ["*"] then true
    else Subset(request.instances, rule.instances)
  }

  // Whether one check of `_evaluate_rule` fails.
  predicate Fails(tables: Tables, schema: nat, rule: Workflow, id: Identity, request: Request, category: Category) {
    match category
    case RepositoryId => rule.repositoryId != "" && rule.repositoryId != id.repositoryId
    case OwnerId => rule.ownerId != "" && rule.ownerId != id.ownerId
    case WorkflowRef => rule.workflowRefs != [] && !AnyMatches(id.workflowRef, rule.workflowRefs)
    case JobWorkflowRef => rule.jobWorkflowRefs != [] && !AnyMatches(id.jobWorkflowRef, rule.jobWorkflowRefs)
    case EventName => rule.eventNames != [] && id.eventName !in rule.eventNames
    case Ref => rule.refs != [] && id.ref !in rule.refs
    case Environment => rule.environments != [] && id.environment !in rule.environments
    case Product => rule.products != [] && !AnyMatches(request.product, rule.products)
    case Context => rule.contexts != [] && !AnyMatches(request.context, rule.contexts)
    case Target => !TargetAllowed(tables, schema, rule, request)
    case Action => rule.actions != [] && request.action !in rule.actions
    case PolicySchema => schema !in {2, 3} && request.action in tables.exact
  }

  // A rule is consulted only for its own repository.
  ghost predicate Allows(tables: Tables, schema: nat, rule: Workflow, id: Identity, request: Request) {
    rule.repository == id.repository && forall category :: !Fails(tables, schema, rule, id, request, category)
  }

  // The checks in the order `_evaluate_rule` makes them.
  const CATEGORIES := [RepositoryId, OwnerId, WorkflowRef, JobWorkflowRef, EventName, Ref, Environment,
                       Product, Context, Target, Action, PolicySchema]

  function FailuresAmong(tables: Tables, schema: nat, rule: Workflow, id: Identity, request: Request, checks: seq<Category>)
    : (failures: seq<Category>)
    ensures forall c :: c in failures <==> c in checks && Fails(tables, schema, rule, id, request, c)
  {
    if checks == [] then []
    else
      var rest := FailuresAmong(tables, schema, rule, id, request, checks[1..]);
      if Fails(tables, schema, rule, id, request, checks[0]) then [checks[0]] + rest else rest
  }

  // `_evaluate_rule`: the rule allows exactly when no category is reported.
  lemma DecisionIsAllows(tables: Tables, schema: nat, rule: Workflow, id: Identity, request: Request)
    requires rule.repository == id.repository
    ensures FailuresAmong(tables, schema, rule, id, request, CATEGORIES) == [] <==> Allows(tables, schema, rule, id, request)
  {
    hide Fails;
    var failures := FailuresAmong(tables, schema, rule, id, request, CATEGORIES);
    if failures != [] {
      assert failures[0] in failures;
    }
    forall category
      ensures category in CATEGORIES
    {
      EveryCategory(category);
    }
  }

  lemma EveryCategory(category: Category)
    ensures category in CATEGORIES
  {
    assert CATEGORIES[0] == RepositoryId && CATEGORIES[1] == OwnerId && CATEGORIES[2] == WorkflowRef
           && CATEGORIES[3] == JobWorkflowRef && CATEGORIES[4] == EventName && CATEGORIES[5] == Ref
           && CATEGORIES[6] == Environment && CATEGORIES[7] == Product && CATEGORIES[8] == Context
           && CATEGORIES[9] == Target && CATEGORIES[10] == Action && CATEGORIES[11] == PolicySchema;
  }
}
