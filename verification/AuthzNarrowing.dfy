// Retiring an unmanaged workflow rule in favour of a managed one only narrows,
// as far as the retired rule's selectors mean what the test reads in them.
module AuthzNarrowing {
  import opened Options
  import opened Fnmatch
  import opened AuthzRules

  // Selectors as a desired set has them: stripped and not blank.
  predicate Clean(values: seq<string>) { forall v :: v in values ==> v != "" && Strip(v) == v }

  // Validation of a stored rule cleans its instances only, and leaves a
  // wildcard instance alone.
  predicate CleanScope(w: Workflow) {
    && Clean(w.workflowRefs) && Clean(w.jobWorkflowRefs)
    && Clean(w.products) && Clean(w.contexts) && Clean(w.instances) && Clean(w.actions)
    && ("*" in w.instances ==> w.instances == ["*"])
  }

  predicate CleanWorkflow(w: Workflow) { CleanScope(w) && Clean(w.eventNames) && Clean(w.refs) && Clean(w.environments) }

  // The exact selectors a rule stores include those the test reads in them.
  predicate Faithful(values: seq<string>) {
    && (values != [] ==> NormalValues(values) != [])
    && (forall v :: v in values && Strip(v) != "" ==> Strip(v) in values)
  }

  predicate FaithfulWorkflow(w: Workflow) { Faithful(w.eventNames) && Faithful(w.refs) && Faithful(w.environments) }

  lemma SameValues(values: seq<string>)
    requires Clean(values)
    ensures forall v :: v in NormalValues(values) <==> v in values
    ensures NormalValues(values) == [] <==> values == []
  {
    if values != [] {
      assert values[0] in values;
      assert values[0] in NormalValues(values);
    }
    if NormalValues(values) != [] {
      assert NormalValues(values)[0] in NormalValues(values);
    }
  }

  lemma GlobNarrows(compatibility: seq<string>, managed: seq<string>)
    requires GlobCover(compatibility, managed)
    ensures forall value :: compatibility != [] && (managed != [] ==> AnyMatches(value, managed)) ==> AnyMatches(value, compatibility)
  {
    forall value | compatibility != [] && (managed != [] ==> AnyMatches(value, managed))
      ensures AnyMatches(value, compatibility)
    {
      if "*" in compatibility {
        StarMatches(Strip(value));
      } else {
        var m :| m in managed && Matches(m, Strip(value));
        if !HasGlob(m) {
          LiteralMatches(m, Strip(value));
        }
      }
    }
  }

  lemma GlobFieldNarrows(current: seq<string>, desired: seq<string>)
    requires Clean(current) && Clean(desired) && GlobCover(NormalValues(current), NormalValues(desired))
    ensures forall value :: current != [] && (desired != [] ==> AnyMatches(value, desired)) ==> AnyMatches(value, current)
  {
    hide AnyMatches, GlobCover;
    SameValues(current);
    SameValues(desired);
    GlobNarrows(NormalValues(current), NormalValues(desired));
    forall value | current != [] && (desired != [] ==> AnyMatches(value, desired))
      ensures AnyMatches(value, current)
    {
      SameMatches(current, value);
      SameMatches(desired, value);
    }
  }

  lemma SameMatches(values: seq<string>, value: string)
    ensures Clean(values) ==> (AnyMatches(value, NormalValues(values)) <==> AnyMatches(value, values))
  {
    if Clean(values) {
      SameValues(values);
    }
  }

  lemma ExactFieldNarrows(current: seq<string>, desired: seq<string>, value: string)
    requires Faithful(current) && Clean(desired) && ExactCover(NormalValues(current), NormalValues(desired))
    requires desired != [] ==> value in desired
    ensures current != [] ==> value in current
  {
    SameValues(desired);
  }

  lemma WildcardNormal(values: seq<string>)
    requires Clean(values) && ("*" in values ==> values == ["*"])
    ensures NormalValues(values) == ["*"] <==> values == ["*"]
  {
    SameValues(values);
    if NormalValues(values) == ["*"] {
      assert "*" in NormalValues(values);
    }
    if values == ["*"] {
      assert Stripped(["*"]) == ["*"];
    }
  }

  lemma TargetNarrows(tables: Tables, schema: nat, current: Workflow, desired: Workflow)
    requires CleanScope(current) && CleanScope(desired)
    requires InstanceCover(NormalValues(current.instances), NormalValues(desired.instances))
    ensures forall request :: TargetAllowed(tables, schema, desired, request) ==> TargetAllowed(tables, schema, current, request)
  {
    SameValues(current.instances);
    SameValues(desired.instances);
    WildcardNormal(current.instances);
    WildcardNormal(desired.instances);
  }

  // Everything the retained managed rule allows, the retired rule allowed,
  // if the retired rule's exact selectors are faithful.
  lemma RetirementNarrows(tables: Tables, schema: nat, current: Rule, desired: Rule, id: Identity, request: Request)
    requires Retirable(current, desired)
    requires CleanScope(current.body.workflow) && FaithfulWorkflow(current.body.workflow) && CleanWorkflow(desired.body.workflow)
    requires Allows(tables, schema, desired.body.workflow, id, request)
    ensures Allows(tables, schema, current.body.workflow, id, request)
  {
    hide AnyMatches, TargetAllowed, GlobCover, ExactCover, InstanceCover, NormalValues, Clean, Faithful;
    var c, d := current.body.workflow, desired.body.workflow;
    forall category: Category
      ensures !Fails(tables, schema, c, id, request, category)
    {
      assert !Fails(tables, schema, d, id, request, category);
      match category
      case WorkflowRef => GlobFieldNarrows(c.workflowRefs, d.workflowRefs);
      case JobWorkflowRef => GlobFieldNarrows(c.jobWorkflowRefs, d.jobWorkflowRefs);
      case EventName => ExactFieldNarrows(c.eventNames, d.eventNames, id.eventName);
      case Ref => ExactFieldNarrows(c.refs, d.refs, id.ref);
      case Environment => ExactFieldNarrows(c.environments, d.environments, id.environment);
      case Product => GlobFieldNarrows(c.products, d.products);
      case Context => GlobFieldNarrows(c.contexts, d.contexts);
      case Target => TargetNarrows(tables, schema, c, d);
      case Action =>
        SameValues(c.actions);
        SameValues(d.actions);
      case _ =>
    }
  }

  // ----- exactly when retiring narrows -----

  lemma {:induction false} LeftStripped(s: string)
    ensures StripLeft(s) == "" || !IsSpace(StripLeft(s)[0])
  {
    if s != "" && IsSpace(s[0]) {
      LeftStripped(s[1..]);
    }
  }

  lemma {:induction false} RightStripped(s: string)
    ensures StripRight(s) <= s && (StripRight(s) == "" || !IsSpace(StripRight(s)[|StripRight(s)| - 1]))
  {
    if s != "" && IsSpace(s[|s| - 1]) {
      RightStripped(s[..|s| - 1]);
    }
  }

  lemma StripTwice(s: string)
    ensures Strip(Strip(s)) == Strip(s)
  {
    LeftStripped(s);
    RightStripped(StripLeft(s));
  }

  lemma NormalIsClean(values: seq<string>)
    ensures Clean(NormalValues(values))
  {
    forall x | x in NormalValues(values)
      ensures x != "" && Strip(x) == x
    {
      var v :| v in values && Strip(v) == x;
      StripTwice(v);
    }
  }

  // A value that unfaithful selectors do not have and that is read in them.
  lemma Misread(values: seq<string>) returns (value: string)
    requires !Faithful(values)
    ensures values != [] && value !in values && (NormalValues(values) == [] || value in NormalValues(values))
  {
    if NormalValues(values) == [] {
      value := "x";
      assert Strip("x") == "x" && NormalValues(values) == [];
      assert value in values ==> value in NormalValues(values);
    } else {
      var v :| v in values && Strip(v) != "" && Strip(v) !in values;
      value := Strip(v);
    }
  }

  // The rule as the retirement test reads it.
  function Reading(w: Workflow): Workflow {
    w.(eventNames := NormalValues(w.eventNames), refs := NormalValues(w.refs), environments := NormalValues(w.environments))
  }

  // What the retirement test asks of the retired rule itself.
  predicate IsCompatibility(rule: Rule) {
    && rule.setId.None? && rule.ruleId.None? && rule.body.Actions?
    && rule.body.workflow.repositoryId == "" && rule.body.workflow.ownerId == "" && rule.body.workflow.actions != []
  }

  lemma SelfCover(values: seq<string>)
    ensures GlobCover(values, values) && InstanceCover(values, values)
  {
    forall m | m in values && !HasGlob(m)
      ensures exists c :: c in values && Matches(c, m)
    {
      LiteralMatches(m, m);
    }
  }

  lemma ReadCover(values: seq<string>)
    ensures ExactCover(NormalValues(values), NormalValues(NormalValues(values)))
    ensures forall desired :: ExactCover(NormalValues(values), desired) ==> ExactCover(NormalValues(NormalValues(values)), desired)
  {
    NormalIsClean(values);
    SameValues(NormalValues(values));
  }

  // The reading itself, under management, may retire the rule it was read from.
  lemma ReadingRetires(current: Rule)
    requires IsCompatibility(current) && CleanScope(current.body.workflow)
    ensures exists managed: Rule :: && managed.body == Actions(Reading(current.body.workflow))
                                    && CleanWorkflow(managed.body.workflow) && Retirable(current, managed)
  {
    hide GlobCover, ExactCover, InstanceCover, NormalValues, Clean;
    var w := current.body.workflow;
    NormalIsClean(w.eventNames);
    NormalIsClean(w.refs);
    NormalIsClean(w.environments);
    ReadCover(w.eventNames);
    ReadCover(w.refs);
    ReadCover(w.environments);
    SelfCover(NormalValues(w.workflowRefs));
    SelfCover(NormalValues(w.jobWorkflowRefs));
    SelfCover(NormalValues(w.products));
    SelfCover(NormalValues(w.contexts));
    SelfCover(NormalValues(w.instances));
    SameValues(w.actions);
    assert Retirable(current, Rule(Some("set"), Some("rule"), Actions(Reading(w))));
  }

  // Whatever may retire a rule narrows its reading.
  lemma ReadingIsNarrowed(tables: Tables, schema: nat, current: Rule, desired: Rule, id: Identity, request: Request)
    requires Retirable(current, desired)
    requires CleanScope(current.body.workflow) && CleanWorkflow(desired.body.workflow)
    requires Allows(tables, schema, desired.body.workflow, id, request)
    ensures Allows(tables, schema, Reading(current.body.workflow), id, request)
  {
    hide GlobCover, ExactCover, InstanceCover, NormalValues, Allows;
    var w := current.body.workflow;
    NormalIsClean(w.eventNames);
    NormalIsClean(w.refs);
    NormalIsClean(w.environments);
    CleanIsFaithful(NormalValues(w.eventNames));
    CleanIsFaithful(NormalValues(w.refs));
    CleanIsFaithful(NormalValues(w.environments));
    ReadCover(w.eventNames);
    ReadCover(w.refs);
    ReadCover(w.environments);
    RetirementNarrows(tables, schema, Rule(None, None, Actions(Reading(w))), desired, id, request);
  }

  lemma CleanIsFaithful(values: seq<string>)
    ensures Clean(values) ==> Faithful(values)
  {
    if Clean(values) {
      SameValues(values);
    }
  }

  ghost predicate AllowsNothing(tables: Tables, schema: nat, w: Workflow) {
    forall id, request :: !Allows(tables, schema, w, id, request)
  }

  // No request is allowed by a managed rule that may retire this one unless
  // this one allowed it.
  ghost predicate OnlyNarrows(tables: Tables, schema: nat, current: Rule) {
    forall desired, id, request ::
      Retirable(current, desired) && CleanWorkflow(desired.body.workflow) && Allows(tables, schema, desired.body.workflow, id, request) ==>
        Allows(tables, schema, current.body.workflow, id, request)
  }

  // A request that the reading allows, with a misread value in place, is
  // allowed by the reading and not by the rule.
  lemma Widens(tables: Tables, schema: nat, w: Workflow, id: Identity, request: Request) returns (other: Identity)
    requires !FaithfulWorkflow(w) && Allows(tables, schema, Reading(w), id, request)
    ensures Allows(tables, schema, Reading(w), other, request) && !Allows(tables, schema, w, other, request)
  {
    hide NormalValues, Faithful, TargetAllowed, AnyMatches;
    var read := Reading(w);
    var field := if !Faithful(w.eventNames) then EventName else if !Faithful(w.refs) then Ref else Environment;
    if field == EventName {
      var value := Misread(w.eventNames);
      other := id.(eventName := value);
    } else if field == Ref {
      var value := Misread(w.refs);
      other := id.(ref := value);
    } else {
      var value := Misread(w.environments);
      other := id.(environment := value);
    }
    assert Fails(tables, schema, w, other, request, field);
    forall category: Category
      ensures !Fails(tables, schema, read, other, request, category)
    {
      assert !Fails(tables, schema, read, id, request, category);
    }
  }

  // Retiring a compatibility rule only narrows exactly when its exact selectors
  // are faithful, or nothing at all passes the rule as the test reads it.
  lemma RetirementNarrowsExactly(tables: Tables, schema: nat, current: Rule)
    requires IsCompatibility(current) && CleanScope(current.body.workflow)
    ensures OnlyNarrows(tables, schema, current) <==>
            FaithfulWorkflow(current.body.workflow) || AllowsNothing(tables, schema, Reading(current.body.workflow))
  {
    hide Allows, Covers, FaithfulWorkflow, CleanScope, CleanWorkflow, Reading;
    var w := current.body.workflow;
    forall desired, id, request | Retirable(current, desired) && CleanWorkflow(desired.body.workflow)
                                  && Allows(tables, schema, desired.body.workflow, id, request)
      ensures Allows(tables, schema, Reading(w), id, request)
      ensures FaithfulWorkflow(w) ==> Allows(tables, schema, w, id, request)
    {
      ReadingIsNarrowed(tables, schema, current, desired, id, request);
      if FaithfulWorkflow(w) {
        RetirementNarrows(tables, schema, current, desired, id, request);
      }
    }
    if !FaithfulWorkflow(w) && !AllowsNothing(tables, schema, Reading(w)) {
      var id, request :| Allows(tables, schema, Reading(w), id, request);
      var other := Widens(tables, schema, w, id, request);
      ReadingRetires(current);
      var managed: Rule :| managed.body == Actions(Reading(w)) && CleanWorkflow(managed.body.workflow) && Retirable(current, managed);
      assert Allows(tables, schema, managed.body.workflow, other, request);
    }
  }

  // An input that fails: the test compares stripped selectors, the evaluator
  // the stored ones.
  const ON_PUSH := Workflow("o/r", "", "", [], [], ["push"], [], [], [], [], [], ["deploy"])
  const ON_BLANK_PUSH := ON_PUSH.(eventNames := [" push"])
  const PUSHER := Identity("o/r", "", "", "", "", "push", "", "")
  const DEPLOY := Request("deploy", "", "", false, [])
  const NO_TABLES := Tables({}, {})

  lemma UncleanRetirementWidens()
    ensures Retirable(Rule(None, None, Actions(ON_BLANK_PUSH)), Rule(Some("set"), Some("rule"), Actions(ON_PUSH)))
    ensures CleanWorkflow(ON_PUSH)
    ensures Allows(NO_TABLES, 2, ON_PUSH, PUSHER, DEPLOY)
    ensures !Allows(NO_TABLES, 2, ON_BLANK_PUSH, PUSHER, DEPLOY)
  {
    assert StripLeft(" push") == StripLeft("push") == "push" by {
      assert " push"[1..] == "push";
    }
    assert StripRight("push") == "push";
    assert Strip(" push") == "push" && Strip("push") == "push";
    assert [" push"][1..] == [] && ["push"][1..] == [];
    assert Stripped([" push"]) == ["push"] == Stripped(["push"]);
    assert Strip("deploy") == "deploy";
    assert Fails(NO_TABLES, 2, ON_BLANK_PUSH, PUSHER, DEPLOY, EventName);
  }
}
