// The activation state and the closed recovery candidates, against the merge
// they are applied with.
module AuthzRecovery {
  import opened Options
  import opened AuthzRules
  import opened AuthzReconcile
  import opened AuthzConvergence
  import opened AuthzUniqueness

  const ACTIVATION_SET: string := "operator.privileged-policy-operation"
  const ACTIVATION_RULE: string := "github-human-policy-operator"
  const ACTIVATION_ACTIONS: seq<string> := [
    "authz_policy_operation.approve", "authz_policy_operation.cancel", "authz_policy_operation.propose",
    "authz_policy_operation.read", "authz_policy_operation.revoke"
  ]
  const PROPOSE: string := "authz_policy_operation.propose"
  const BOOTSTRAP_SET: string := "operator.privileged-operation-bootstrap"
  const HUMAN_RULE: string := "github-owner-policy-operation-review"
  const TERMINAL_RULE: string := "terminal-agent-policy-operation-propose"

  const HUMANS: Collection := 1
  const TERMINALS: Collection := 2

  // ----- activation -----

  datatype ActivationState = Available | Active | Conflict

  function ActivationRule(githubId: string): Rule {
    Rule(Some(ACTIVATION_SET), Some(ACTIVATION_RULE),
         Principal(map["github_ids" := [githubId], "roles" := ["admin"], "products" := ["launchplane"], "contexts" := ["launchplane"],
                       "actions" := ACTIVATION_ACTIONS], ""))
  }

  predicate IsActivation(e: Entry) {
    && e.collection == HUMANS && e.rule.ruleId == Some(ACTIVATION_RULE) && |Field(e.rule, "github_ids")| == 1
    && Field(e.rule, "roles") == ["admin"] && Field(e.rule, "products") == ["launchplane"]
    && Field(e.rule, "contexts") == ["launchplane"] && Field(e.rule, "actions") == ACTIVATION_ACTIONS
    && Field(e.rule, "logins") == [] && Field(e.rule, "organizations") == [] && Field(e.rule, "teams") == []
    && Field(e.rule, "instances") == []
  }

  function StateOf(owned: seq<Entry>): ActivationState {
    if owned == [] then Available else if |owned| == 1 && IsActivation(owned[0]) then Active else Conflict
  }

  function ActivationStateOf(policy: Policy): ActivationState { StateOf(Owned(policy.groups, ACTIVATION_SET, |policy.groups|)) }

  function ActivationIdOf(policy: Policy): Option<string> {
    var owned := Owned(policy.groups, ACTIVATION_SET, |policy.groups|);
    if StateOf(owned).Active? then Some(Field(owned[0].rule, "github_ids")[0]) else None
  }

  function WithGroup(schema: nat, collection: nat, rules: seq<Rule>): Policy
    requires collection < 6
  {
    Policy(if schema == 3 then 3 else 2, None, seq(6, c => if c == collection then rules else []))
  }

  // ----- the bootstrap set -----

  // The human bridge rule: every recovery action but the proposal.
  predicate IsBootstrapHuman(e: Entry, githubId: string) {
    && e.collection == HUMANS && e.rule.ruleId == Some(HUMAN_RULE) && Field(e.rule, "github_ids") == [githubId]
    && Field(e.rule, "roles") == ["admin"] && Field(e.rule, "products") == ["launchplane"] && Field(e.rule, "contexts") == ["launchplane"]
    && Field(e.rule, "logins") == [] && Field(e.rule, "organizations") == [] && Field(e.rule, "teams") == []
    && Field(e.rule, "instances") == [] && e.rule.body.Principal?
    && (forall a :: a in ACTIVATION_ACTIONS ==> (a in Field(e.rule, "actions") <==> a != PROPOSE))
  }

  predicate IsBootstrapTerminal(e: Entry) {
    && e.collection == TERMINALS && e.rule.ruleId == Some(TERMINAL_RULE)
    && |Field(e.rule, "subjects")| == 1 && |Field(e.rule, "token_labels")| == 1
    && Field(e.rule, "products") == ["launchplane"] && Field(e.rule, "contexts") == ["launchplane"]
    && Field(e.rule, "instances") == [] && Field(e.rule, "actions") == [PROPOSE]
  }

  function Residual(actions: seq<string>): (rest: seq<string>)
    ensures forall a :: a in rest <==> a in actions && a !in ACTIVATION_ACTIONS
  {
    if actions == [] then []
    else Residual(actions[..|actions| - 1]) + (if actions[|actions| - 1] in ACTIVATION_ACTIONS then [] else [actions[|actions| - 1]])
  }

  function Retained(rule: Rule): seq<Rule>
    requires rule.body.Principal?
  {
    var rest := Residual(Field(rule, "actions"));
    if rest == [] then [] else [rule.(body := Principal(rule.body.selectors["actions" := rest], rule.body.fixed))]
  }

  // The human rule without its recovery actions; nothing, if the set is not
  // exactly the two bridge rules.
  function RetirementDesired(policy: Policy, githubId: string): Option<Policy> {
    var owned := Owned(policy.groups, BOOTSTRAP_SET, |policy.groups|);
    if |owned| != 2 then None
    else if IsBootstrapHuman(owned[0], githubId) && IsBootstrapTerminal(owned[1])
    then Some(WithGroup(policy.schema, HUMANS, Retained(owned[0].rule)))
    else None
  }

  // ----- the candidates -----

  datatype Candidate = Activate | Reset | RetireBootstrap

  datatype Proposal = Proposal(set_: string, desired: Policy)

  function BuildCandidate(policy: Policy, githubId: string, candidate: Candidate): Option<Proposal> {
    var state := ActivationStateOf(policy);
    match candidate
    case Activate =>
      if state != Available then None else Some(Proposal(ACTIVATION_SET, WithGroup(policy.schema, HUMANS, [ActivationRule(githubId)])))
    case Reset => if state != Active then None else Some(Proposal(ACTIVATION_SET, WithGroup(policy.schema, HUMANS, [])))
    case RetireBootstrap =>
      if ActivationIdOf(policy) != Some(githubId) || RetirementDesired(policy, githubId).None? then None
      else Some(Proposal(BOOTSTRAP_SET, RetirementDesired(policy, githubId).value))
  }

  // ----- what makes the result safe -----

  function HumanCount(rules: seq<Rule>, githubId: string, set_: string, action: string): nat {
    if rules == [] then 0
    else
      var last := rules[|rules| - 1];
      HumanCount(rules[..|rules| - 1], githubId, set_, action)
      + (if Field(last, "github_ids") == [githubId] && last.setId == Some(set_) && action in Field(last, "actions") then 1 else 0)
  }

  function TerminalCount(rules: seq<Rule>, set_: string, action: string): nat {
    if rules == [] then 0
    else
      var last := rules[|rules| - 1];
      TerminalCount(rules[..|rules| - 1], set_, action) + (if last.setId == Some(set_) && action in Field(last, "actions") then 1 else 0)
  }

  // One pass over the human rules and one over the terminal rules.
  method ActionCardinality(policy: Policy, githubId: string, action: string) returns (activation: nat, bootstrap: nat)
    requires |policy.groups| == 6
    ensures activation == HumanCount(policy.groups[HUMANS], githubId, ACTIVATION_SET, action)
    ensures bootstrap == HumanCount(policy.groups[HUMANS], githubId, BOOTSTRAP_SET, action)
                         + TerminalCount(policy.groups[TERMINALS], BOOTSTRAP_SET, action)
  {
    var humans, terminals := policy.groups[HUMANS], policy.groups[TERMINALS];
    activation, bootstrap := 0, 0;
    for i := 0 to |humans|
      invariant activation == HumanCount(humans[..i], githubId, ACTIVATION_SET, action)
      invariant bootstrap == HumanCount(humans[..i], githubId, BOOTSTRAP_SET, action)
    {
      var rule := humans[i];
      assert humans[..i + 1][..i] == humans[..i];
      if Field(rule, "github_ids") == [githubId] && action in Field(rule, "actions") {
        if rule.setId == Some(ACTIVATION_SET) {
          activation := activation + 1;
        }
        if rule.setId == Some(BOOTSTRAP_SET) {
          bootstrap := bootstrap + 1;
        }
      }
    }
    assert humans[..|humans|] == humans;
    ghost var ofHumans := bootstrap;
    for i := 0 to |terminals|
      invariant bootstrap == ofHumans + TerminalCount(terminals[..i], BOOTSTRAP_SET, action)
    {
      assert terminals[..i + 1][..i] == terminals[..i];
      if terminals[i].setId == Some(BOOTSTRAP_SET) && action in Field(terminals[i], "actions") {
        bootstrap := bootstrap + 1;
      }
    }
    assert terminals[..|terminals|] == terminals;
  }

  // What a candidate must leave behind, besides a working administration.
  ghost predicate Reaches(candidate: Candidate, policy: Policy, githubId: string)
    requires |policy.groups| == 6
  {
    match candidate
    case Activate => ActivationStateOf(policy) == Active && ActivationIdOf(policy) == Some(githubId)
    case Reset => ActivationStateOf(policy) == Available
    case RetireBootstrap =>
      ActivationStateOf(policy) == Active
      && forall action :: action in ACTIVATION_ACTIONS ==>
                            && HumanCount(policy.groups[HUMANS], githubId, ACTIVATION_SET, action) == 1
                            && HumanCount(policy.groups[HUMANS], githubId, BOOTSTRAP_SET, action) == 0
                            && TerminalCount(policy.groups[TERMINALS], BOOTSTRAP_SET, action) == 0
  }

  // ----- the desired policies -----

  lemma OneRuleEntries(schema: nat, collection: nat, rules: seq<Rule>, set_: string)
    requires collection < 6 && |rules| <= 1 && forall r :: r in rules ==> IsManaged(r, set_)
    ensures IsDesired(WithGroup(schema, collection, rules), set_)
    ensures Entries(WithGroup(schema, collection, rules), set_) ==
            if rules == [] || !IsManaged(rules[0], set_) then map[] else map[rules[0].ruleId.value := Entry(collection, rules[0])]
  {
    var desired := WithGroup(schema, collection, rules);
    var entries := Entries(desired, set_);
    forall id
      ensures id in entries ==> rules != [] && entries[id] == Entry(collection, rules[0]) && rules[0].ruleId == Some(id)
      ensures rules != [] && rules[0].ruleId == Some(id) ==> id in entries
    {
      EntryIsRule(desired.groups, set_, 6, id);
      if rules != [] && rules[0].ruleId == Some(id) {
        assert IsManaged(desired.groups[collection][0], set_) && desired.groups[collection][0].ruleId == Some(id);
      }
    }
  }

  // The merged set owns just this one rule.
  lemma OwnsOne(policy: Policy, rule: Rule, set_: string, mode: Mode)
    requires |policy.groups| == 6 && Unique(policy.groups) && IsManaged(rule, set_)
    requires Reconcile(policy, WithGroup(policy.schema, HUMANS, [rule]), set_, mode).Done?
    ensures Owned(Reconcile(policy, WithGroup(policy.schema, HUMANS, [rule]), set_, mode).result.policy.groups, set_, 6) == [Entry(HUMANS, rule)]
  {
    hide Reconcile, Unique, Owned, IsDesired, Entries, WithGroup;
    var desired := WithGroup(policy.schema, HUMANS, [rule]);
    OneRuleEntries(policy.schema, HUMANS, [rule], set_);
    OwnedAfterMerge(policy, desired, set_, mode);
    var owned := Owned(Reconcile(policy, desired, set_, mode).result.policy.groups, set_, 6);
    assert Entry(HUMANS, rule) in owned;
    forall e | e in owned
      ensures e == Entry(HUMANS, rule)
    {}
    TimesOfAll(owned, rule.ruleId.value);
    assert owned[0] in owned;
  }

  lemma FirstIsMember(entries: seq<Entry>)
    ensures entries == [] || entries[0] in entries
  {}

  lemma OwnsNone(policy: Policy, set_: string, mode: Mode)
    requires |policy.groups| == 6 && Unique(policy.groups)
    requires Reconcile(policy, WithGroup(policy.schema, HUMANS, []), set_, mode).Done?
    ensures Owned(Reconcile(policy, WithGroup(policy.schema, HUMANS, []), set_, mode).result.policy.groups, set_, 6) == []
  {
    hide Reconcile, Unique, Owned, IsDesired, Entries, WithGroup;
    var desired := WithGroup(policy.schema, HUMANS, []);
    OneRuleEntries(policy.schema, HUMANS, [], set_);
    OwnedAfterMerge(policy, desired, set_, mode);
    var owned := Owned(Reconcile(policy, desired, set_, mode).result.policy.groups, set_, 6);
    FirstIsMember(owned);
  }

  // ----- counting through the owned rules -----

  // How many owned rules of a collection satisfy what a count looks for.
  function HumanAmong(owned: seq<Entry>, githubId: string, action: string): nat {
    if owned == [] then 0
    else
      var last := owned[|owned| - 1];
      HumanAmong(owned[..|owned| - 1], githubId, action)
      + (if last.collection == HUMANS && Field(last.rule, "github_ids") == [githubId] && action in Field(last.rule, "actions") then 1 else 0)
  }

  lemma {:induction false} HumanCountIsAmong(rules: seq<Rule>, githubId: string, set_: string, action: string)
    ensures HumanCount(rules, githubId, set_, action) == HumanAmong(OwnedIn(HUMANS, rules, set_), githubId, action)
  {
    hide Field;
    if rules != [] {
      var front, last := rules[..|rules| - 1], rules[|rules| - 1];
      HumanCountIsAmong(front, githubId, set_, action);
      var own := OwnedIn(HUMANS, front, set_);
      assert (own + [Entry(HUMANS, last)])[..|own|] == own && own + [] == own;
    }
  }

  lemma {:induction false} NoTerminals(rules: seq<Rule>, set_: string, action: string)
    requires OwnedIn(TERMINALS, rules, set_) == []
    ensures TerminalCount(rules, set_, action) == 0
  {
    if rules != [] {
      NoTerminals(rules[..|rules| - 1], set_, action);
    }
  }

  // A set owning at most one rule, a human one, owns it in that collection.
  lemma OwnedByHumans(groups: seq<seq<Rule>>, set_: string)
    requires |groups| == 6 && |Owned(groups, set_, 6)| <= 1 && forall e :: e in Owned(groups, set_, 6) ==> e.collection == HUMANS
    ensures OwnedIn(HUMANS, groups[HUMANS], set_) == Owned(groups, set_, 6) && OwnedIn(TERMINALS, groups[TERMINALS], set_) == []
  {
    forall c: nat | c < 6 && c != HUMANS
      ensures OwnedIn(c, groups[c], set_) == []
    {
      NoneIn(groups, set_, c);
    }
    hide OwnedIn;
    assert Owned(groups, set_, 6) == OwnedIn(0, groups[0], set_) + OwnedIn(1, groups[1], set_) + OwnedIn(2, groups[2], set_)
                                     + OwnedIn(3, groups[3], set_) + OwnedIn(4, groups[4], set_) + OwnedIn(5, groups[5], set_) by {
      assert Owned(groups, set_, 0) == [];
      assert Owned(groups, set_, 2) == OwnedIn(0, groups[0], set_) + OwnedIn(1, groups[1], set_);
      assert Owned(groups, set_, 4) == Owned(groups, set_, 2) + OwnedIn(2, groups[2], set_) + OwnedIn(3, groups[3], set_);
    }
  }

  lemma NoneIn(groups: seq<seq<Rule>>, set_: string, c: nat)
    requires |groups| == 6 && c < 6 && c != HUMANS && forall e :: e in Owned(groups, set_, 6) ==> e.collection == HUMANS
    ensures OwnedIn(c, groups[c], set_) == []
  {
    var own := OwnedIn(c, groups[c], set_);
    forall e
      ensures e in own ==> e.collection == c && e in Owned(groups, set_, 6)
    {
      OwnedInAre(c, groups[c], set_, e);
      OwnedAre(groups, set_, 6, e);
    }
    hide OwnedIn, Owned;
    FirstIsMember(own);
  }

  // ----- each candidate reaches its state -----

  lemma MergedHasSix(policy: Policy, desired: Policy, set_: string, mode: Mode)
    ensures |policy.groups| == 6 && Reconcile(policy, desired, set_, mode).Done? ==>
              |Reconcile(policy, desired, set_, mode).result.policy.groups| == 6
  {}

  // The rest of the bootstrap human rule carries no recovery action.
  lemma RetainedIsHarmless(rule: Rule, githubId: string, action: string)
    requires rule.body.Principal? && IsManaged(rule, BOOTSTRAP_SET) && action in ACTIVATION_ACTIONS
    ensures forall r :: r in Retained(rule) ==> IsManaged(r, BOOTSTRAP_SET) && action !in Field(r, "actions")
    ensures |Retained(rule)| <= 1
  {}

  ghost predicate IsHarmless(rule: Rule) { forall action :: action in ACTIVATION_ACTIONS ==> action !in Field(rule, "actions") }

  // A retirement wants at most one rule, and that one without recovery actions.
  lemma RetirementShape(policy: Policy, githubId: string) returns (kept: seq<Rule>)
    requires |policy.groups| == 6 && BuildCandidate(policy, githubId, RetireBootstrap).Some?
    ensures BuildCandidate(policy, githubId, RetireBootstrap).value == Proposal(BOOTSTRAP_SET, WithGroup(policy.schema, HUMANS, kept))
    ensures |kept| <= 1 && forall r :: r in kept ==> IsManaged(r, BOOTSTRAP_SET) && IsHarmless(r)
    ensures ActivationIdOf(policy) == Some(githubId)
  {
    hide WithGroup, ActivationIdOf;
    var owned := Owned(policy.groups, BOOTSTRAP_SET, 6);
    assert owned[0] in owned;
    OwnedAre(policy.groups, BOOTSTRAP_SET, 6, owned[0]);
    hide Owned;
    kept := Retained(owned[0].rule);
    forall action | action in ACTIVATION_ACTIONS
      ensures forall r :: r in kept ==> action !in Field(r, "actions")
    {
      RetainedIsHarmless(owned[0].rule, githubId, action);
    }
    RetainedIsHarmless(owned[0].rule, githubId, PROPOSE);
  }

  // What such a merge leaves of the two sets.
  lemma AfterRetirement(policy: Policy, kept: seq<Rule>, mode: Mode)
    requires |policy.groups| == 6 && Unique(policy.groups) && |kept| <= 1
    requires forall r :: r in kept ==> IsManaged(r, BOOTSTRAP_SET) && IsHarmless(r)
    requires Reconcile(policy, WithGroup(policy.schema, HUMANS, kept), BOOTSTRAP_SET, mode).Done?
    ensures var after := Reconcile(policy, WithGroup(policy.schema, HUMANS, kept), BOOTSTRAP_SET, mode).result.policy;
            && |after.groups| == 6
            && Owned(after.groups, ACTIVATION_SET, 6) == Owned(policy.groups, ACTIVATION_SET, 6)
            && |Owned(after.groups, BOOTSTRAP_SET, 6)| <= 1
            && (forall e :: e in Owned(after.groups, BOOTSTRAP_SET, 6) ==> e.collection == HUMANS && IsHarmless(e.rule))
  {
    hide Reconcile, Unique, IsDesired, WithGroup, Owned, IsHarmless, Of, Entries;
    var desired := WithGroup(policy.schema, HUMANS, kept);
    OneRuleEntries(policy.schema, HUMANS, kept, BOOTSTRAP_SET);
    if kept == [] {
      OwnsNone(policy, BOOTSTRAP_SET, mode);
    } else {
      assert kept == [kept[0]];
      OwnsOne(policy, kept[0], BOOTSTRAP_SET, mode);
    }
    MergedHasSix(policy, desired, BOOTSTRAP_SET, mode);
    var after := Reconcile(policy, desired, BOOTSTRAP_SET, mode).result.policy;
    forall c: nat | c < 6
      ensures Of(after.groups[c], Some(ACTIVATION_SET)) == Of(policy.groups[c], Some(ACTIVATION_SET))
    {
      OtherSetsUntouched(policy, desired, BOOTSTRAP_SET, mode, ACTIVATION_SET, c);
    }
    SameOwnSameOwned(after.groups, policy.groups, ACTIVATION_SET, 6);
  }

  // The rule less its recovery actions, and otherwise the same.
  ghost predicate IsTheRest(human: Rule, rest: Rule) {
    && rest.setId == human.setId && rest.ruleId == human.ruleId
    && (forall name :: name != "actions" ==> Field(rest, name) == Field(human, name))
    && (forall a :: a in Field(rest, "actions") <==> a in Field(human, "actions") && a !in ACTIVATION_ACTIONS)
  }

  lemma RetainedIsTheRest(rule: Rule)
    requires rule.body.Principal?
    ensures forall r :: r in Retained(rule) ==> IsTheRest(rule, r)
    ensures Retained(rule) == [] <==> forall a :: a in Field(rule, "actions") ==> a in ACTIVATION_ACTIONS
    ensures |Retained(rule)| <= 1
  {
    var rest := Residual(Field(rule, "actions"));
    if rest != [] {
      assert rest[0] in rest;
    }
  }

  // Merging a bootstrap retirement leaves of that set the human bridge rule less
  // its recovery actions, or nothing if it had no others.
  lemma RetirementKeepsTheRest(policy: Policy, githubId: string, mode: Mode) returns (human: Rule)
    requires |policy.groups| == 6 && Unique(policy.groups) && BuildCandidate(policy, githubId, RetireBootstrap).Some?
    requires Reconcile(policy, BuildCandidate(policy, githubId, RetireBootstrap).value.desired, BOOTSTRAP_SET, mode).Done?
    ensures Entry(HUMANS, human) in Owned(policy.groups, BOOTSTRAP_SET, 6)
    ensures var after := Reconcile(policy, BuildCandidate(policy, githubId, RetireBootstrap).value.desired, BOOTSTRAP_SET, mode).result.policy;
            && |after.groups| == 6
            && (forall e :: e in Owned(after.groups, BOOTSTRAP_SET, 6) ==> e.collection == HUMANS && IsTheRest(human, e.rule))
            && (Owned(after.groups, BOOTSTRAP_SET, 6) == [] <==> forall a :: a in Field(human, "actions") ==> a in ACTIVATION_ACTIONS)
  {
    hide Reconcile, Unique, WithGroup, Residual, Field, ActivationIdOf, IsTheRest, IsHarmless;
    var owned := Owned(policy.groups, BOOTSTRAP_SET, 6);
    human := owned[0].rule;
    assert owned[0] == Entry(HUMANS, human) && owned[0] in owned;
    OwnedAre(policy.groups, BOOTSTRAP_SET, 6, owned[0]);
    hide Owned;
    var kept := Retained(human);
    RetainedIsTheRest(human);
    assert forall r :: r in kept ==> IsManaged(r, BOOTSTRAP_SET) by {
      RetainedIsHarmless(human, githubId, PROPOSE);
    }
    MergedHasSix(policy, WithGroup(policy.schema, HUMANS, kept), BOOTSTRAP_SET, mode);
    if kept == [] {
      OwnsNone(policy, BOOTSTRAP_SET, mode);
    } else {
      assert kept == [kept[0]];
      OwnsOne(policy, kept[0], BOOTSTRAP_SET, mode);
    }
  }

  // An active activation set beside a harmless bootstrap set is what a
  // retirement must reach.
  lemma HarmlessReaches(after: Policy, githubId: string)
    requires |after.groups| == 6 && ActivationIdOf(after) == Some(githubId) && |Owned(after.groups, BOOTSTRAP_SET, 6)| <= 1
    requires forall e :: e in Owned(after.groups, BOOTSTRAP_SET, 6) ==> e.collection == HUMANS && IsHarmless(e.rule)
    ensures Reaches(RetireBootstrap, after, githubId)
  {
    hide Owned, HumanCount, TerminalCount, OwnedIn, IsHarmless;
    var activation, bootstrap := Owned(after.groups, ACTIVATION_SET, 6), Owned(after.groups, BOOTSTRAP_SET, 6);
    OwnedByHumans(after.groups, ACTIVATION_SET);
    OwnedByHumans(after.groups, BOOTSTRAP_SET);
    forall action | action in ACTIVATION_ACTIONS
      ensures HumanCount(after.groups[HUMANS], githubId, ACTIVATION_SET, action) == 1
      ensures HumanCount(after.groups[HUMANS], githubId, BOOTSTRAP_SET, action) == 0
      ensures TerminalCount(after.groups[TERMINALS], BOOTSTRAP_SET, action) == 0
    {
      HumanCountIsAmong(after.groups[HUMANS], githubId, ACTIVATION_SET, action);
      HumanCountIsAmong(after.groups[HUMANS], githubId, BOOTSTRAP_SET, action);
      NoTerminals(after.groups[TERMINALS], BOOTSTRAP_SET, action);
      AmongOne(activation, githubId, action);
      AmongHarmless(bootstrap, githubId, action);
    }
  }

  lemma AmongOne(owned: seq<Entry>, githubId: string, action: string)
    ensures |owned| == 1 && IsActivation(owned[0]) && Field(owned[0].rule, "github_ids")[0] == githubId && action in ACTIVATION_ACTIONS ==>
              HumanAmong(owned, githubId, action) == 1
  {
    hide Field;
    if |owned| == 1 && IsActivation(owned[0]) && Field(owned[0].rule, "github_ids")[0] == githubId && action in ACTIVATION_ACTIONS {
      assert owned[..0] == [];
      assert Field(owned[0].rule, "github_ids") == [githubId];
    }
  }

  lemma {:induction false} AmongHarmless(owned: seq<Entry>, githubId: string, action: string)
    requires action in ACTIVATION_ACTIONS && forall e :: e in owned ==> IsHarmless(e.rule)
    ensures HumanAmong(owned, githubId, action) == 0
  {
    hide Field;
    if owned != [] {
      AmongHarmless(owned[..|owned| - 1], githubId, action);
    }
  }

  // Every recovery candidate that is built and merged reaches the state its
  // safety check demands.
  lemma CandidatesReachTheirState(policy: Policy, githubId: string, candidate: Candidate, mode: Mode)
    requires |policy.groups| == 6 && Unique(policy.groups) && BuildCandidate(policy, githubId, candidate).Some?
    requires var built := BuildCandidate(policy, githubId, candidate).value; Reconcile(policy, built.desired, built.set_, mode).Done?
    ensures var built := BuildCandidate(policy, githubId, candidate).value;
            var after := Reconcile(policy, built.desired, built.set_, mode).result.policy;
            |after.groups| == 6 && Reaches(candidate, after, githubId)
  {
    hide Reconcile, Unique, WithGroup, RetirementDesired, Owned, HumanCount, TerminalCount, IsHarmless;
    var built := BuildCandidate(policy, githubId, candidate).value;
    MergedHasSix(policy, built.desired, built.set_, mode);
    if candidate.Activate? {
      OwnsOne(policy, ActivationRule(githubId), ACTIVATION_SET, mode);
    } else if candidate.Reset? {
      OwnsNone(policy, ACTIVATION_SET, mode);
    } else {
      var kept := RetirementShape(policy, githubId);
      AfterRetirement(policy, kept, mode);
      HarmlessReaches(Reconcile(policy, built.desired, BOOTSTRAP_SET, mode).result.policy, githubId);
    }
  }
}
