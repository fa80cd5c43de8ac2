// Adopting an unmanaged rule into a managed set: what the adopted rule and the
// desired one have to do with each other.
module AuthzAdoption {
  import opened Options
  import opened StringOrder
  import opened Fnmatch
  import opened AuthzRules
  import opened AuthzNarrowing

  // ----- two workflow rules that differ in their identities and job workflows -----

  // The identities the rule asks for.
  predicate IdsMatch(w: Workflow, id: Identity) {
    w.repositoryId in {"", id.repositoryId} && w.ownerId in {"", id.ownerId}
  }

  // The job workflows the rule lets in.
  predicate AdmitsJob(w: Workflow, id: Identity) { w.jobWorkflowRefs == [] || AnyMatches(id.jobWorkflowRef, w.jobWorkflowRefs) }

  // The same values, as far as clean lists say.
  lemma SameClean(a: seq<string>, b: seq<string>)
    ensures Clean(a) && Clean(b) && NormalValues(a) == NormalValues(b) ==> (a == [] <==> b == []) && forall v :: v in a <==> v in b
  {
    if Clean(a) && Clean(b) && NormalValues(a) == NormalValues(b) {
      SameValues(a);
      SameValues(b);
      assert forall v :: v in a <==> v in NormalValues(a);
      assert forall v :: v in b <==> v in NormalValues(b);
    }
  }

  predicate SameElsewhere(a: Workflow, b: Workflow) {
    WithoutIdentity(a).(jobWorkflowRefs := []) == WithoutIdentity(b).(jobWorkflowRefs := [])
  }

  // The checks of glob patterns, of the target and of the action agree.
  lemma ScopeChecksAgree(tables: Tables, schema: nat, a: Workflow, b: Workflow, id: Identity, request: Request, category: Category)
    requires CleanScope(a) && CleanScope(b) && SameElsewhere(a, b)
    requires category !in {RepositoryId, OwnerId, JobWorkflowRef, EventName, Ref, Environment}
    ensures Fails(tables, schema, a, id, request, category) <==> Fails(tables, schema, b, id, request, category)
  {
    hide NormalValues, Clean, Matches;
    match category
    case WorkflowRef => SameClean(a.workflowRefs, b.workflowRefs);
    case Product => SameClean(a.products, b.products);
    case Context => SameClean(a.contexts, b.contexts);
    case Target =>
      SameClean(a.instances, b.instances);
      WildcardNormal(a.instances);
      WildcardNormal(b.instances);
    case Action => SameClean(a.actions, b.actions);
    case _ =>
  }

  // Every check but the three agrees.
  lemma OtherChecksAgree(tables: Tables, schema: nat, a: Workflow, b: Workflow, id: Identity, request: Request, category: Category)
    requires CleanWorkflow(a) && CleanWorkflow(b) && SameElsewhere(a, b) && category !in {RepositoryId, OwnerId, JobWorkflowRef}
    ensures Fails(tables, schema, a, id, request, category) <==> Fails(tables, schema, b, id, request, category)
  {
    hide NormalValues, Clean, Matches, TargetAllowed;
    match category
    case EventName => SameClean(a.eventNames, b.eventNames);
    case Ref => SameClean(a.refs, b.refs);
    case Environment => SameClean(a.environments, b.environments);
    case _ => ScopeChecksAgree(tables, schema, a, b, id, request, category);
  }

  lemma SameCovers(a: seq<string>, b: seq<string>)
    ensures NormalValues(a) == NormalValues(b) ==> ExactCover(NormalValues(a), NormalValues(b))
  {}

  // What passes the checks of the desired rule passes those of a rule with
  // faithful exact selectors.
  lemma OtherChecksPass(tables: Tables, schema: nat, c: Workflow, d: Workflow, id: Identity, request: Request, category: Category)
    requires CleanScope(c) && FaithfulWorkflow(c) && CleanWorkflow(d) && SameElsewhere(c, d)
    requires category !in {RepositoryId, OwnerId, JobWorkflowRef} && !Fails(tables, schema, d, id, request, category)
    ensures !Fails(tables, schema, c, id, request, category)
  {
    hide NormalValues, Clean, Faithful, Matches, TargetAllowed, ExactCover;
    match category
    case EventName =>
      SameCovers(c.eventNames, d.eventNames);
      ExactFieldNarrows(c.eventNames, d.eventNames, id.eventName);
    case Ref =>
      SameCovers(c.refs, d.refs);
      ExactFieldNarrows(c.refs, d.refs, id.ref);
    case Environment =>
      SameCovers(c.environments, d.environments);
      ExactFieldNarrows(c.environments, d.environments, id.environment);
    case _ => ScopeChecksAgree(tables, schema, c, d, id, request, category);
  }

  lemma AllowsEarlier(tables: Tables, schema: nat, c: Workflow, d: Workflow, id: Identity, request: Request)
    requires CleanScope(c) && FaithfulWorkflow(c) && CleanWorkflow(d) && SameElsewhere(c, d) && IdentityNarrows(c, d)
    requires Allows(tables, schema, d, id, request) && AdmitsJob(c, id)
    ensures Allows(tables, schema, c, id, request)
  {
    hide Matches, TargetAllowed, CleanWorkflow, CleanScope, FaithfulWorkflow, NormalValues;
    AllowedIdsMatch(tables, schema, d, id, request);
    forall category: Category
      ensures !Fails(tables, schema, c, id, request, category)
    {
      assert !Fails(tables, schema, d, id, request, category);
      if category !in {RepositoryId, OwnerId, JobWorkflowRef} {
        OtherChecksPass(tables, schema, c, d, id, request, category);
      }
    }
  }

  lemma AllowsApart(tables: Tables, schema: nat, a: Workflow, b: Workflow, id: Identity, request: Request)
    requires CleanWorkflow(a) && CleanWorkflow(b) && SameElsewhere(a, b)
    requires Allows(tables, schema, a, id, request)
    ensures Allows(tables, schema, b, id, request) <==> IdsMatch(b, id) && AdmitsJob(b, id)
  {
    hide Matches, TargetAllowed, CleanWorkflow, NormalValues;
    forall category: Category | category !in {RepositoryId, OwnerId, JobWorkflowRef}
      ensures !Fails(tables, schema, b, id, request, category)
    {
      OtherChecksAgree(tables, schema, a, b, id, request, category);
      assert !Fails(tables, schema, a, id, request, category);
    }
    assert Fails(tables, schema, b, id, request, RepositoryId) || Fails(tables, schema, b, id, request, OwnerId) <==> !IdsMatch(b, id);
    assert Fails(tables, schema, b, id, request, JobWorkflowRef) <==> !AdmitsJob(b, id);
  }

  // ----- what adopting means -----

  lemma AdoptableParts(current: Rule, desired: Rule)
    requires Adoptable(current, desired) && current.body.Actions?
    requires CleanScope(current.body.workflow) && CleanScope(desired.body.workflow)
    ensures SameElsewhere(current.body.workflow, desired.body.workflow) && SameElsewhere(desired.body.workflow, current.body.workflow)
    ensures IdentityNarrows(current.body.workflow, desired.body.workflow)
    ensures Subset(current.body.workflow.jobWorkflowRefs, desired.body.workflow.jobWorkflowRefs)
  {
    hide NormalValues, Clean;
    var c, d := current.body.workflow, desired.body.workflow;
    SameClean(c.jobWorkflowRefs, d.jobWorkflowRefs);
  }

  ghost predicate SameMembers(a: seq<string>, b: seq<string>) { forall v :: v in a <==> v in b }

  // The same repository and the same selectors, but for the job workflows.
  ghost predicate SelectsAlike(c: Workflow, d: Workflow) {
    && c.repository == d.repository
    && SameMembers(c.workflowRefs, d.workflowRefs) && SameMembers(c.eventNames, d.eventNames) && SameMembers(c.refs, d.refs)
    && SameMembers(c.environments, d.environments) && SameMembers(c.products, d.products) && SameMembers(c.contexts, d.contexts)
    && SameMembers(c.instances, d.instances) && SameMembers(c.actions, d.actions)
  }

  // Clean lists are read as the sets of their members.
  lemma ReadAsMembers(a: seq<string>, b: seq<string>)
    ensures Clean(a) && Clean(b) ==> (NormalValues(a) == NormalValues(b) <==> SameMembers(a, b))
  {
    if Clean(a) && Clean(b) {
      SameValues(a);
      SameValues(b);
      SortedSetIsSorted(Stripped(a));
      SortedSetIsSorted(Stripped(b));
      if SameMembers(a, b) {
        SortedIsUnique(NormalValues(a), NormalValues(b));
      } else if NormalValues(a) == NormalValues(b) {
        SameClean(a, b);
      }
    }
  }

  // Rules that select alike differ at most in identities and job workflows.
  lemma AlikeIsElsewhere(c: Workflow, d: Workflow)
    ensures CleanWorkflow(c) && CleanWorkflow(d) && SelectsAlike(c, d) ==> SameElsewhere(c, d)
  {
    hide NormalValues, Clean, SameMembers;
    ReadAsMembers(c.workflowRefs, d.workflowRefs);
    ReadAsMembers(c.eventNames, d.eventNames);
    ReadAsMembers(c.refs, d.refs);
    ReadAsMembers(c.environments, d.environments);
    ReadAsMembers(c.products, d.products);
    ReadAsMembers(c.contexts, d.contexts);
    ReadAsMembers(c.instances, d.instances);
    ReadAsMembers(c.actions, d.actions);
  }

  // Which clean workflow rules a managed one may adopt, in terms of what they
  // say: those that are unmanaged, select alike, ask for no other repository
  // or owner identity, and name no other job workflow.
  lemma AdoptableExactly(current: Rule, desired: Rule)
    requires current.body.Actions? && desired.body.Actions? && desired.setId.Some?
    requires CleanWorkflow(current.body.workflow) && CleanWorkflow(desired.body.workflow)
    ensures var c, d := current.body.workflow, desired.body.workflow;
            Adoptable(current, desired) <==>
            && current.setId.None? && SelectsAlike(c, d)
            && c.repositoryId in {"", d.repositoryId} && c.ownerId in {"", d.ownerId}
            && forall v :: v in c.jobWorkflowRefs ==> v in d.jobWorkflowRefs
  {
    hide NormalValues, Clean, SameMembers;
    var c, d := current.body.workflow, desired.body.workflow;
    ReadAsMembers(c.workflowRefs, d.workflowRefs);
    ReadAsMembers(c.eventNames, d.eventNames);
    ReadAsMembers(c.refs, d.refs);
    ReadAsMembers(c.environments, d.environments);
    ReadAsMembers(c.products, d.products);
    ReadAsMembers(c.contexts, d.contexts);
    ReadAsMembers(c.instances, d.instances);
    ReadAsMembers(c.actions, d.actions);
    SameClean(c.jobWorkflowRefs, d.jobWorkflowRefs);
  }

  // Whatever the desired rule allows to a job workflow that the adopted rule
  // lets in, the adopted rule allowed.
  ghost predicate WasAllowed(c: Workflow, d: Workflow) {
    forall tables, schema, id, request ::
      Allows(tables, schema, d, id, request) && AdmitsJob(c, id) ==> Allows(tables, schema, c, id, request)
  }

  // Of what the adopted rule allowed, the desired rule loses exactly what its
  // identities and its job workflows shut out.
  ghost predicate LosesNoMore(c: Workflow, d: Workflow) {
    forall tables, schema, id, request ::
      Allows(tables, schema, c, id, request) ==> (Allows(tables, schema, d, id, request) <==> IdsMatch(d, id) && AdmitsJob(d, id))
  }

  // Nothing is lost but to the identities of the desired rule.
  ghost predicate LosesOnlyIds(c: Workflow, d: Workflow) {
    forall tables, schema, id, request :: Allows(tables, schema, c, id, request) && IdsMatch(d, id) ==> Allows(tables, schema, d, id, request)
  }

  // The first needs the exact selectors of the adopted rule to be faithful, the
  // second needs them to be clean.
  lemma AdoptionNarrows(current: Rule, desired: Rule)
    requires Adoptable(current, desired) && current.body.Actions?
    requires CleanScope(current.body.workflow) && CleanWorkflow(desired.body.workflow)
    ensures FaithfulWorkflow(current.body.workflow) ==> WasAllowed(current.body.workflow, desired.body.workflow)
    ensures CleanWorkflow(current.body.workflow) ==> LosesNoMore(current.body.workflow, desired.body.workflow)
  {
    hide Allows, CleanScope, FaithfulWorkflow, SameElsewhere, IdentityNarrows;
    var c, d := current.body.workflow, desired.body.workflow;
    AdoptableParts(current, desired);
    hide Adoptable, CleanWorkflow;
    forall tables, schema, id, request
      ensures FaithfulWorkflow(c) && Allows(tables, schema, d, id, request) && AdmitsJob(c, id) ==> Allows(tables, schema, c, id, request)
      ensures CleanWorkflow(c) && Allows(tables, schema, c, id, request) ==>
                (Allows(tables, schema, d, id, request) <==> IdsMatch(d, id) && AdmitsJob(d, id))
    {
      if CleanWorkflow(c) && Allows(tables, schema, c, id, request) {
        AllowsApart(tables, schema, c, d, id, request);
      }
      if FaithfulWorkflow(c) && Allows(tables, schema, d, id, request) && AdmitsJob(c, id) {
        AllowsEarlier(tables, schema, c, d, id, request);
      }
    }
  }

  lemma AllowedIdsMatch(tables: Tables, schema: nat, w: Workflow, id: Identity, request: Request)
    ensures Allows(tables, schema, w, id, request) ==> IdsMatch(w, id) && AdmitsJob(w, id)
  {
    if Allows(tables, schema, w, id, request) {
      assert !Fails(tables, schema, w, id, request, RepositoryId) && !Fails(tables, schema, w, id, request, OwnerId)
             && !Fails(tables, schema, w, id, request, JobWorkflowRef);
    }
  }

  // ----- exactly when adopting allows nothing new -----

  lemma NormalTwice(values: seq<string>)
    ensures NormalValues(NormalValues(values)) == NormalValues(values)
  {
    NormalIsClean(values);
    SameValues(NormalValues(values));
    SortedSetIsSorted(Stripped(values));
    SortedSetIsSorted(Stripped(NormalValues(values)));
    SortedIsUnique(NormalValues(NormalValues(values)), NormalValues(values));
  }

  // The reading of a rule is adopted by whatever adopts the rule, and may adopt
  // the rule itself once it is managed.
  lemma ReadingAdopts(current: Rule)
    requires current.setId.None? && current.body.Actions?
    ensures var w := current.body.workflow;
            && NormalWorkflow(Reading(w)) == NormalWorkflow(w)
            && Adoptable(current, Rule(Some("set"), Some("rule"), Actions(Reading(w))))
            && forall desired :: Adoptable(current, desired) ==> Adoptable(Rule(None, current.ruleId, Actions(Reading(w))), desired)
  {
    hide NormalValues;
    var w := current.body.workflow;
    NormalTwice(w.eventNames);
    NormalTwice(w.refs);
    NormalTwice(w.environments);
    assert NormalWorkflow(Reading(w)) == NormalWorkflow(w);
    hide Reading, NormalWorkflow, Subset;
    var reading := Rule(None, current.ruleId, Actions(Reading(w)));
    forall desired | Adoptable(current, desired)
      ensures Adoptable(reading, desired)
    {
      SameReading(w);
    }
  }

  lemma SameReading(w: Workflow)
    ensures Reading(w).repositoryId == w.repositoryId && Reading(w).ownerId == w.ownerId && Reading(w).jobWorkflowRefs == w.jobWorkflowRefs
  {}

  lemma ReadingIsClean(w: Workflow)
    ensures CleanScope(w) ==> CleanWorkflow(Reading(w))
  {
    hide Clean, NormalValues;
    NormalIsClean(w.eventNames);
    NormalIsClean(w.refs);
    NormalIsClean(w.environments);
  }

  // No clean rule that may adopt this one allows anything new to the job
  // workflows that this one lets in.
  ghost predicate AdoptsNothingNew(tables: Tables, schema: nat, current: Rule) {
    forall desired: Rule, id, request ::
      IsAdopter(current, desired) && AdmitsJob(current.body.workflow, id) && Allows(tables, schema, desired.body.workflow, id, request) ==>
        Allows(tables, schema, current.body.workflow, id, request)
  }

  predicate IsAdopter(current: Rule, desired: Rule) {
    current.body.Actions? && desired.body.Actions? && Adoptable(current, desired) && CleanWorkflow(desired.body.workflow)
  }

  // Adopting a workflow rule allows nothing new exactly when its exact
  // selectors are faithful, or nothing at all passes the rule as it is read.
  lemma AdoptionNarrowsExactly(tables: Tables, schema: nat, current: Rule)
    requires current.setId.None? && current.body.Actions? && CleanScope(current.body.workflow)
    ensures AdoptsNothingNew(tables, schema, current) <==>
            FaithfulWorkflow(current.body.workflow) || AllowsNothing(tables, schema, Reading(current.body.workflow))
  {
    hide Allows, FaithfulWorkflow, CleanScope, CleanWorkflow, Adoptable, AnyMatches;
    var w := current.body.workflow;
    var reading := Rule(None, current.ruleId, Actions(Reading(w)));
    ReadingAdopts(current);
    ReadingIsClean(w);
    CleanReading(w);
    forall desired: Rule, id, request | IsAdopter(current, desired) && AdmitsJob(w, id) && Allows(tables, schema, desired.body.workflow, id, request)
      ensures Allows(tables, schema, Reading(w), id, request)
      ensures FaithfulWorkflow(w) ==> Allows(tables, schema, w, id, request)
    {
      AdoptionNarrows(current, desired);
      AdoptionNarrows(reading, desired);
      SameReading(w);
    }
    if !FaithfulWorkflow(w) && !AllowsNothing(tables, schema, Reading(w)) {
      var id, request :| Allows(tables, schema, Reading(w), id, request);
      var other := Widens(tables, schema, w, id, request);
      AllowedIdsMatch(tables, schema, Reading(w), other, request);
      SameReading(w);
      var managed := Rule(Some("set"), Some("rule"), Actions(Reading(w)));
      assert IsAdopter(current, managed) && Allows(tables, schema, managed.body.workflow, other, request) && AdmitsJob(w, other);
    }
  }

  lemma CleanReading(w: Workflow)
    ensures CleanScope(w) ==> CleanScope(Reading(w)) && FaithfulWorkflow(Reading(w))
  {
    hide Clean, Faithful, NormalValues;
    NormalIsClean(w.eventNames);
    NormalIsClean(w.refs);
    NormalIsClean(w.environments);
    CleanIsFaithful(NormalValues(w.eventNames));
    CleanIsFaithful(NormalValues(w.refs));
    CleanIsFaithful(NormalValues(w.environments));
  }

  // Every job workflow is let in.
  ghost predicate AdmitsEveryJob(w: Workflow) { forall id :: AdmitsJob(w, id) }

  ghost predicate AllowsNone(c: Workflow, d: Workflow) {
    forall tables, schema, id, request :: Allows(tables, schema, c, id, request) ==> !IdsMatch(d, id)
  }

  // Adopting loses nothing but to identities exactly when the adopted rule
  // names its job workflows, or the desired rule lets in every one, or the
  // adopted rule allowed nothing to the desired identities at all.
  lemma AdoptionLosesOnlyIds(current: Rule, desired: Rule)
    requires Adoptable(current, desired) && current.body.Actions?
    requires CleanWorkflow(current.body.workflow) && CleanWorkflow(desired.body.workflow)
    ensures LosesOnlyIds(current.body.workflow, desired.body.workflow) <==>
            current.body.workflow.jobWorkflowRefs != [] || AdmitsEveryJob(desired.body.workflow)
            || AllowsNone(current.body.workflow, desired.body.workflow)
  {
    hide Allows, Clean, SameElsewhere, AnyMatches;
    var c, d := current.body.workflow, desired.body.workflow;
    assert CleanScope(c);
    AdoptionNarrows(current, desired);
    AdoptableParts(current, desired);
    hide Adoptable;
    if c.jobWorkflowRefs != [] {
      forall tables, schema, id, request | Allows(tables, schema, c, id, request) && IdsMatch(d, id)
        ensures Allows(tables, schema, d, id, request)
      {
        AllowedIdsMatch(tables, schema, c, id, request);
        MoreJobs(c, d, id);
      }
    } else if !AdmitsEveryJob(d) && !AllowsNone(c, d) {
      var other :| !AdmitsJob(d, other);
      var tables, schema, id, request :| Allows(tables, schema, c, id, request) && IdsMatch(d, id);
      var lost := id.(jobWorkflowRef := other.jobWorkflowRef);
      AnyJob(tables, schema, c, id, request, other.jobWorkflowRef);
      assert Allows(tables, schema, c, lost, request) && IdsMatch(d, lost) && !AdmitsJob(d, lost);
    }
  }

  lemma MoreJobs(c: Workflow, d: Workflow, id: Identity)
    ensures Subset(c.jobWorkflowRefs, d.jobWorkflowRefs) && c.jobWorkflowRefs != [] && AdmitsJob(c, id) ==> AdmitsJob(d, id)
  {}

  // A rule that names no job workflow does not look at it.
  lemma AnyJob(tables: Tables, schema: nat, w: Workflow, id: Identity, request: Request, job: string)
    ensures w.jobWorkflowRefs == [] && Allows(tables, schema, w, id, request) ==>
              Allows(tables, schema, w, id.(jobWorkflowRef := job), request)
  {
    hide AnyMatches, TargetAllowed;
    if w.jobWorkflowRefs == [] && Allows(tables, schema, w, id, request) {
      forall category: Category
        ensures !Fails(tables, schema, w, id.(jobWorkflowRef := job), request, category)
      {
        assert !Fails(tables, schema, w, id, request, category);
      }
    }
  }

  // An input that fails: a rule for every job workflow is adopted by a rule
  // for one, and other job workflows lose what it allowed.
  const ONE_JOB := ON_PUSH.(jobWorkflowRefs := ["x"])

  lemma AdoptionMayDropJobs()
    ensures Adoptable(Rule(None, None, Actions(ON_PUSH)), Rule(Some("set"), Some("rule"), Actions(ONE_JOB)))
    ensures CleanWorkflow(ON_PUSH) && CleanWorkflow(ONE_JOB)
    ensures Allows(NO_TABLES, 2, ON_PUSH, PUSHER, DEPLOY) && IdsMatch(ONE_JOB, PUSHER) && !Allows(NO_TABLES, 2, ONE_JOB, PUSHER, DEPLOY)
  {
    hide NormalValues;
    UncleanRetirementWidens();
    assert Strip("x") == "x" && Strip("") == "";
    assert Fails(NO_TABLES, 2, ONE_JOB, PUSHER, DEPLOY, JobWorkflowRef) by {
      assert !Matches("x", "");
    }
  }
}
