// Compiling the agent product setup candidate, merging it, and compiling it
// again: the second compilation has nothing left to do.
module AgentSetupClosure {
  import opened Options
  import opened StringOrder
  import opened AuthzRules
  import opened AuthzReconcile
  import opened AuthzConvergence
  import opened AuthzUniqueness
  import opened AgentProductSetup

  const LOCAL_OPERATORS: Collection := 3

  function OperatorOf(rule: Rule): Operator {
    Operator(rule.setId, rule.ruleId, Field(rule, "subjects"), Field(rule, "token_labels"), Field(rule, "products"),
             Field(rule, "contexts"), Field(rule, "instances"), Field(rule, "actions"))
  }

  function RuleOf(op: Operator): Rule {
    Rule(op.setId, op.ruleId, Principal(map["subjects" := op.subjects, "token_labels" := op.labels, "products" := op.products,
                                            "contexts" := op.contexts, "instances" := op.instances, "actions" := op.actions], ""))
  }

  function Operators(entries: seq<Entry>): seq<Operator> { seq(|entries|, i requires 0 <= i < |entries| => OperatorOf(entries[i].rule)) }

  function RulesOf(ops: seq<Operator>): seq<Rule> { seq(|ops|, i requires 0 <= i < |ops| => RuleOf(ops[i])) }

  // ----- the state of the set, and the compiler -----

  datatype SetupState = Absent | Present(grants: seq<Grant>) | Conflicting

  function SetupStateOf(policy: Policy): SetupState {
    var owned := Owned(policy.groups, SETUP_SET, |policy.groups|);
    if owned == [] then Absent
    else if policy.schema !in {2, 3} || (exists i :: 0 <= i < |owned| && owned[i].collection != LOCAL_OPERATORS) then Conflicting
    else
      var grants := Grants(Operators(owned));
      if grants.None? then Conflicting else Present(grants.value)
  }

  datatype Compiled = Unavailable | AlreadySatisfied | Planned(desired: Policy)

  // The selected products, each with its own lane context, in sorted order.
  predicate IsSelection(selected: seq<(string, string)>) {
    && selected != [] && (forall i :: 0 <= i < |selected| ==> IsExact(selected[i].0) && IsExact(selected[i].1))
    && (forall i, j :: 0 <= i < j < |selected| ==> Before(selected[i].0, selected[j].0))
  }

  function GrantsOf(selected: seq<(string, string)>, subject: string, tokenLabel: string): seq<Grant> {
    seq(|selected|, i requires 0 <= i < |selected| => Grant(selected[i].0, selected[i].1, subject, tokenLabel))
  }

  function SetupPolicy(schema: nat, grants: seq<Grant>): Policy {
    Policy(schema, None, seq(6, c => if c == LOCAL_OPERATORS then RulesOf(AllRules(grants)) else []))
  }

  function CompileRemove(policy: Policy): Compiled {
    var state := SetupStateOf(policy);
    if state.Conflicting? || policy.schema !in {2, 3} then Unavailable
    else if state.Absent? then AlreadySatisfied
    else Planned(SetupPolicy(policy.schema, []))
  }

  function CompileAdd(policy: Policy, selected: seq<(string, string)>, subject: string, tokenLabel: string): Compiled {
    var state := SetupStateOf(policy);
    if state.Conflicting? || policy.schema !in {2, 3} || !IsExact(subject) || !IsExact(tokenLabel) then Unavailable
    else
      var grants := GrantsOf(selected, subject, tokenLabel);
      if state.Present? && state.grants != [] && (state.grants[0].subject != subject || state.grants[0].tokenLabel != tokenLabel) then Unavailable
      else if state.Present? && state.grants == grants then AlreadySatisfied
      else Planned(SetupPolicy(policy.schema, grants))
  }

  // ----- the planned rules -----

  lemma SelectionGrants(selected: seq<(string, string)>, subject: string, tokenLabel: string)
    requires IsSelection(selected) && IsExact(subject) && IsExact(tokenLabel)
    ensures var grants := GrantsOf(selected, subject, tokenLabel);
            && grants != [] && OneIdentity(grants) && (forall i :: 0 <= i < |grants| ==> IsGrant(grants[i]))
            && (forall i, j :: 0 <= i < j < |grants| ==> Before(grants[i].product, grants[j].product))
  {
    hide IsExact;
  }

  lemma RoundTrips(op: Operator)
    ensures OperatorOf(RuleOf(op)) == op
  {}

  // The rules of distinct products have distinct identities.
  lemma AllRulesDistinct(grants: seq<Grant>)
    requires forall i, j :: 0 <= i < j < |grants| ==> Before(grants[i].product, grants[j].product)
    ensures Distinct(AllRules(grants))
  {
    hide ProductOf, RuleProduct, ById, Distinct, SetupRules, Group, AllRules;
    ProductsAreDistinct(grants);
    var rules := AllRules(grants);
    forall i | 0 <= i < |rules|
      ensures RuleProduct(rules[i]).Some?
    {
      AllRulesHaveProducts(grants, i);
    }
    forall p
      ensures Distinct(Group(rules, p))
    {
      if i :| 0 <= i < |grants| && grants[i].product == p {
        GroupOfAll(grants, i);
        SetupIsDistinct(grants[i]);
      } else {
        NoGroupOfAll(grants, p);
        NoneDistinct();
      }
    }
    GroupsDistinct(rules);
  }

  lemma {:induction false} AllRulesManaged(grants: seq<Grant>)
    ensures forall rule :: rule in AllRules(grants) ==> rule.setId == Some(SETUP_SET) && rule.ruleId.Some?
  {
    if grants != [] {
      AllRulesManaged(grants[..|grants| - 1]);
    }
  }

  lemma SetupIsDesired(schema: nat, grants: seq<Grant>)
    ensures IsDesired(SetupPolicy(schema, grants), SETUP_SET)
  {
    var rules := AllRules(grants);
    forall i | 0 <= i < |rules|
      ensures IsManaged(RuleOf(rules[i]), SETUP_SET)
    {
      AllRulesManaged(grants);
    }
    hide AllRules;
  }

  // The entries of a planned policy are its rules, each under its identity.
  lemma SetupEntries(schema: nat, grants: seq<Grant>, e: Entry)
    requires Distinct(AllRules(grants))
    ensures var entries := Entries(SetupPolicy(schema, grants), SETUP_SET);
            e.rule.ruleId.Some? && e.rule.ruleId.value in entries && entries[e.rule.ruleId.value] == e <==>
            e.collection == LOCAL_OPERATORS && exists i :: 0 <= i < |AllRules(grants)| && e.rule == RuleOf(AllRules(grants)[i])
  {
    var desired, rules := SetupPolicy(schema, grants), AllRules(grants);
    var entries := Entries(desired, SETUP_SET);
    hide AllRules;
    if e.rule.ruleId.Some? {
      var id := e.rule.ruleId.value;
      EntryIsRule(desired.groups, SETUP_SET, 6, id);
      if i :| 0 <= i < |rules| && e.rule == RuleOf(rules[i]) {
        AllRulesManaged(grants);
        assert desired.groups[LOCAL_OPERATORS][i] == e.rule && IsManaged(desired.groups[LOCAL_OPERATORS][i], SETUP_SET);
        assert id in entries;
        var found := entries[id];
        EntryComesFrom(schema, grants, id, found);
        var k :| 0 <= k < |rules| && found.rule == RuleOf(rules[k]);
        assert rules[k].ruleId == rules[i].ruleId;
        assert k == i;
      }
      if id in entries {
        EntryComesFrom(schema, grants, id, entries[id]);
      }
    }
    forall i | 0 <= i < |rules|
      ensures rules[i].ruleId.Some?
    {
      AllRulesManaged(grants);
    }
  }

  lemma EntryComesFrom(schema: nat, grants: seq<Grant>, id: string, e: Entry)
    requires var entries := Entries(SetupPolicy(schema, grants), SETUP_SET); id in entries && entries[id] == e
    ensures exists i :: 0 <= i < |AllRules(grants)| && e == Entry(LOCAL_OPERATORS, RuleOf(AllRules(grants)[i])) && AllRules(grants)[i].ruleId == Some(id)
  {
    var desired := SetupPolicy(schema, grants);
    hide AllRules;
    EntryIsRule(desired.groups, SETUP_SET, 6, id);
    var i :| 0 <= i < |desired.groups[e.collection]| && desired.groups[e.collection][i] == e.rule;
    assert e == Entry(LOCAL_OPERATORS, RuleOf(AllRules(grants)[i]));
  }

  // ----- after the merge -----

  // The owned rules, as operators, are indexed by what they are.
  lemma OwnedIndex(owned: seq<Entry>, grants: seq<Grant>)
    requires Distinct(AllRules(grants)) && (forall id :: Times(owned, id) <= 1)
    requires OwnsRules(owned, grants)
    ensures Distinct(Operators(owned)) && ById(Operators(owned)) == ById(AllRules(grants))
    ensures forall i :: 0 <= i < |owned| ==> owned[i].collection == LOCAL_OPERATORS
  {
    hide AllRules, ById, Times, Operators, Distinct;
    forall i | 0 <= i < |owned|
      ensures owned[i].collection == LOCAL_OPERATORS && owned[i].rule.ruleId.Some?
    {
      var k := OwnedIsRule(owned, grants, i);
    }
    OwnedDistinct(owned);
    var ops, rules := Operators(owned), AllRules(grants);
    OwnedKeys(owned, grants);
  }

  ghost predicate OwnsRules(owned: seq<Entry>, grants: seq<Grant>) {
    forall e :: e in owned <==>
                  e.collection == LOCAL_OPERATORS && exists i :: 0 <= i < |AllRules(grants)| && e.rule == RuleOf(AllRules(grants)[i])
  }

  lemma OwnedIsRule(owned: seq<Entry>, grants: seq<Grant>, i: nat) returns (k: nat)
    requires OwnsRules(owned, grants) && i < |owned|
    ensures owned[i].collection == LOCAL_OPERATORS && owned[i].rule.ruleId.Some?
    ensures k < |AllRules(grants)| && OperatorOf(owned[i].rule) == AllRules(grants)[k]
  {
    hide AllRules;
    assert owned[i] in owned;
    k :| k < |AllRules(grants)| && owned[i].rule == RuleOf(AllRules(grants)[k]);
    RoundTrips(AllRules(grants)[k]);
    AllRulesManaged(grants);
  }

  lemma OwnedDistinct(owned: seq<Entry>)
    requires (forall id :: Times(owned, id) <= 1) && forall i :: 0 <= i < |owned| ==> owned[i].rule.ruleId.Some?
    ensures Distinct(Operators(owned))
  {
    hide Times;
    var ops := Operators(owned);
    forall i, j | 0 <= i < j < |ops|
      ensures ops[i].ruleId != ops[j].ruleId
    {
      assert ops[i].ruleId == owned[i].rule.ruleId && ops[j].ruleId == owned[j].rule.ruleId;
      if ops[i].ruleId == ops[j].ruleId {
        TwiceCounts(owned, ops[i].ruleId.value, i, j);
      }
    }
  }

  lemma OwnedKeys(owned: seq<Entry>, grants: seq<Grant>)
    requires OwnsRules(owned, grants) && Distinct(AllRules(grants)) && Distinct(Operators(owned))
    ensures ById(Operators(owned)) == ById(AllRules(grants))
  {
    var ops, rules := Operators(owned), AllRules(grants);
    hide AllRules, ById, Distinct;
    forall key
      ensures key in ById(ops) <==> key in ById(rules)
      ensures key in ById(ops) && key in ById(rules) ==> ById(ops)[key] == ById(rules)[key]
    {
      IndexHolds(ops, key);
      IndexHolds(rules, key);
      if i :| 0 <= i < |ops| && ops[i].ruleId == key {
        var k := OwnedIsRule(owned, grants, i);
        assert rules[k].ruleId == key;
      }
      if k :| 0 <= k < |rules| && rules[k].ruleId == key {
        assert Entry(LOCAL_OPERATORS, RuleOf(rules[k])) in owned;
        var i :| 0 <= i < |owned| && owned[i] == Entry(LOCAL_OPERATORS, RuleOf(rules[k]));
        RoundTrips(rules[k]);
        assert ops[i] == rules[k];
        IndexedAt(ops, i);
        IndexedAt(rules, k);
      }
    }
  }

  lemma {:induction false} TwiceCounts(entries: seq<Entry>, id: string, i: nat, j: nat)
    requires i < j < |entries| && entries[i].rule.ruleId == Some(id) && entries[j].rule.ruleId == Some(id)
    ensures Times(entries, id) >= 2
  {
    var n := |entries| - 1;
    if j < n {
      TwiceCounts(entries[..n], id, i, j);
    } else {
      OnceCounts(entries[..n], id, i);
    }
  }

  lemma {:induction false} OnceCounts(entries: seq<Entry>, id: string, i: nat)
    requires i < |entries| && entries[i].rule.ruleId == Some(id)
    ensures Times(entries, id) >= 1
  {
    if i < |entries| - 1 {
      OnceCounts(entries[..|entries| - 1], id, i);
    }
  }

  // Merging a planned policy leaves the set in the state it describes.
  lemma MergedSetup(policy: Policy, grants: seq<Grant>, mode: Mode)
    requires |policy.groups| == 6 && Unique(policy.groups) && Distinct(AllRules(grants))
    requires Reconcile(policy, SetupPolicy(policy.schema, grants), SETUP_SET, mode).Done?
    ensures var after := Reconcile(policy, SetupPolicy(policy.schema, grants), SETUP_SET, mode).result.policy;
            && |after.groups| == 6 && after.schema == policy.schema
            && Distinct(Operators(Owned(after.groups, SETUP_SET, 6)))
            && ById(Operators(Owned(after.groups, SETUP_SET, 6))) == ById(AllRules(grants))
            && forall i :: 0 <= i < |Owned(after.groups, SETUP_SET, 6)| ==> Owned(after.groups, SETUP_SET, 6)[i].collection == LOCAL_OPERATORS
  {
    hide Reconcile, Unique, IsDesired, Owned, Entries, SetupPolicy, AllRules, Distinct, Operators, Times, Settled;
    var desired := SetupPolicy(policy.schema, grants);
    SetupIsDesired(policy.schema, grants);
    OwnedAfterMerge(policy, desired, SETUP_SET, mode);
    ReconcileSettles(policy, desired, SETUP_SET, mode);
    var owned := Owned(Reconcile(policy, desired, SETUP_SET, mode).result.policy.groups, SETUP_SET, 6);
    forall e
      ensures e in owned <==> e.collection == LOCAL_OPERATORS && exists i :: 0 <= i < |AllRules(grants)| && e.rule == RuleOf(AllRules(grants)[i])
    {
      SetupEntries(policy.schema, grants, e);
    }
    OwnedIndex(owned, grants);
  }

  // ----- compiling again -----

  // Exactly the selected products, each with its context, for this identity.
  predicate IsGranted(state: SetupState, selected: seq<(string, string)>, subject: string, tokenLabel: string) {
    && state.Present? && |state.grants| == |selected|
    && forall i :: 0 <= i < |selected| ==>
         && state.grants[i].product == selected[i].0 && state.grants[i].context == selected[i].1
         && state.grants[i].subject == subject && state.grants[i].tokenLabel == tokenLabel
  }

  // After an added candidate is merged the set grants exactly the selection,
  // and compiling it again has nothing left to do.
  lemma AddCloses(policy: Policy, selected: seq<(string, string)>, subject: string, tokenLabel: string, mode: Mode)
    requires |policy.groups| == 6 && Unique(policy.groups) && IsSelection(selected)
    requires CompileAdd(policy, selected, subject, tokenLabel).Planned?
    requires Reconcile(policy, CompileAdd(policy, selected, subject, tokenLabel).desired, SETUP_SET, mode).Done?
    ensures var after := Reconcile(policy, CompileAdd(policy, selected, subject, tokenLabel).desired, SETUP_SET, mode).result.policy;
            CompileAdd(after, selected, subject, tokenLabel) == AlreadySatisfied && IsGranted(SetupStateOf(after), selected, subject, tokenLabel)
  {
    hide Reconcile, Unique, IsSelection, Owned, SetupPolicy, AllRules, Distinct, Operators, Grants, IsExact, OneIdentity, IsGrant, ById;
    var grants := GrantsOf(selected, subject, tokenLabel);
    SelectionGrants(selected, subject, tokenLabel);
    AllRulesDistinct(grants);
    MergedSetup(policy, grants, mode);
    var after := Reconcile(policy, SetupPolicy(policy.schema, grants), SETUP_SET, mode).result.policy;
    var owned := Owned(after.groups, SETUP_SET, 6);
    assert IsSetup(Operators(owned), grants);
    GrantsInvertSetup(Operators(owned), grants);
    hide IsSetup;
    SetupIsSomething(grants, Operators(owned));
    OperatorsCount(owned);
  }

  lemma SetupIsSomething(grants: seq<Grant>, ops: seq<Operator>)
    ensures Grants(ops) == Some(grants) ==> ops != []
  {
    if Grants(ops) == Some(grants) {
      if |ops| == 0 {
        assert ProductsOf(ops) == [];
      }
    }
  }

  lemma OperatorsCount(owned: seq<Entry>)
    ensures |Operators(owned)| == |owned|
  {}

  lemma RemoveCloses(policy: Policy, mode: Mode)
    requires |policy.groups| == 6 && Unique(policy.groups) && CompileRemove(policy).Planned?
    requires Reconcile(policy, CompileRemove(policy).desired, SETUP_SET, mode).Done?
    ensures var after := Reconcile(policy, CompileRemove(policy).desired, SETUP_SET, mode).result.policy;
            CompileRemove(after) == AlreadySatisfied && SetupStateOf(after) == Absent
  {
    hide Reconcile, Unique, Owned, SetupPolicy, Operators, Grants;
    assert AllRules([]) == [];
    MergedSetup(policy, [], mode);
    var after := Reconcile(policy, SetupPolicy(policy.schema, []), SETUP_SET, mode).result.policy;
    var owned := Owned(after.groups, SETUP_SET, 6);
    OperatorsCount(owned);
    IndexedFirst(Operators(owned));
  }

  lemma IndexedFirst(ops: seq<Operator>)
    ensures ops != [] ==> ById(ops) != map[]
  {
    if ops != [] {
      IndexHolds(ops, ops[0].ruleId);
    }
  }
}
