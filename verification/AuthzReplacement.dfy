// Which unmanaged rules an adopting merge takes away: one for each rule it
// reports as adopted, one for each it reports as retired, and no other.
module AuthzReplacement {
  import opened Options
  import opened StringOrder
  import opened AuthzRules
  import opened AuthzNarrowing
  import opened AuthzReconcile
  import opened AuthzConvergence
  import U = AuthzUniqueness
  import opened AuthzAdoption

  // The unmanaged rules of a collection that are not at a taken place, in order.
  function Left(rules: seq<Rule>, collection: nat, taken: set<Location>): seq<Rule> {
    if rules == [] then []
    else
      var n := |rules| - 1;
      Left(rules[..n], collection, taken) + (if rules[n].setId.None? && Location(collection, n) !in taken then [rules[n]] else [])
  }

  predicate IsUnmanaged(policy: Policy, l: Location) {
    l.collection < |policy.groups| && l.index < |policy.groups[l.collection]| && policy.groups[l.collection][l.index].setId.None?
  }

  // The adopted rule `r` and the desired rule `d` that takes its place.
  ghost predicate IsAdoption(r: Rule, d: Rule) {
    && r.body.Actions? == d.body.Actions?
    && (!r.body.Actions? ==> r.body.Principal? && NormalBody(r.body) == NormalBody(d.body))
    && (r.body.Actions? && CleanScope(r.body.workflow) && CleanWorkflow(d.body.workflow) ==>
          && (FaithfulWorkflow(r.body.workflow) ==> WasAllowed(r.body.workflow, d.body.workflow))
          && (CleanWorkflow(r.body.workflow) ==> LosesNoMore(r.body.workflow, d.body.workflow)))
  }

  // `from` gives each adopted change its own place in the policy, of the
  // collection of the desired rule.
  ghost predicate AdoptsFrom(policy: Policy, changes: seq<Change>, from: map<nat, Location>) {
    && (forall k: nat :: k in from <==> k < |changes| && changes[k].kind.Adopted?)
    && (forall k, m :: k in from && m in from && from[k] == from[m] ==> k == m)
    && (forall k :: k in from ==>
          && IsUnmanaged(policy, from[k]) && changes[k].desired.Some? && changes[k].desired.value.collection == from[k].collection
          && IsAdoption(policy.groups[from[k].collection][from[k].index], changes[k].desired.value.rule))
  }

  // The retired rule `r` and the managed rule `d` that is retained.
  ghost predicate IsRetirement(r: Rule, d: Rule) {
    && r.ruleId.None? && r.body.Actions? && d.body.Actions?
    && (CleanScope(r.body.workflow) && FaithfulWorkflow(r.body.workflow) && CleanWorkflow(d.body.workflow) ==>
          forall tables, schema, id, request :: Allows(tables, schema, d.body.workflow, id, request) ==> Allows(tables, schema, r.body.workflow, id, request))
  }

  // The desired workflow rule of this identity is in the policy already.
  predicate IsInPlace(before: map<string, Entry>, after: map<string, Entry>, id: string) {
    id in before && id in after && before[id] == after[id] && after[id].collection == WORKFLOWS
  }

  // `gone` gives each retirement its own place among the workflow rules; what
  // it retains was in place before.
  ghost predicate RetiresFrom(policy: Policy, before: map<string, Entry>, after: map<string, Entry>, retirements: seq<Retirement>,
                              gone: seq<nat>) {
    && |gone| == |retirements|
    && (forall k, m :: 0 <= k < m < |gone| ==> gone[k] < gone[m])
    && (forall k :: 0 <= k < |gone| ==>
          && IsUnmanaged(policy, Location(WORKFLOWS, gone[k])) && retirements[k].retired == policy.groups[WORKFLOWS][gone[k]]
          && IsInPlace(before, after, retirements[k].ruleId) && retirements[k].retained == after[retirements[k].ruleId].rule
          && IsRetirement(retirements[k].retired, retirements[k].retained))
  }

  function PlacesOf(gone: seq<nat>): set<Location> { set k | 0 <= k < |gone| :: Location(WORKFLOWS, gone[k]) }

  // ----- retirements -----

  // The places among the first `n` workflow rules that are retired.
  function Gone(p: Plan, at: map<Location, string>, rules: seq<Rule>, n: nat): (gone: seq<nat>)
    requires n <= |rules|
  {
    if n == 0 then []
    else Gone(p, at, rules, n - 1) + (if FateOf(p, at, WORKFLOWS, n - 1, rules[n - 1]).Retire? then [n - 1] else [])
  }

  // What a plan retires is covered by the rule in place that it retains.
  lemma RetiredIsCovered(p: Plan, rule: Rule)
    requires RetirementOf(p, rule).Some?
    ensures var id := RetirementOf(p, rule).value;
            IsInPlace(p.current, p.desired, id) && rule.setId.None? && IsRetirement(rule, p.desired[id].rule)
  {
    MatchesRetire(p, rule, |p.ids|);
    var id := RetirementOf(p, rule).value;
    assert id in RetiredBy(p, rule);
    var d := p.desired[id].rule;
    hide Allows, Retirable, CleanScope, FaithfulWorkflow, CleanWorkflow;
    assert Retirable(rule, d);
    CoveredWorkflows(rule, d);
    if CleanScope(rule.body.workflow) && FaithfulWorkflow(rule.body.workflow) && CleanWorkflow(d.body.workflow) {
      forall tables, schema, id, request | Allows(tables, schema, d.body.workflow, id, request)
        ensures Allows(tables, schema, rule.body.workflow, id, request)
      {
        RetirementNarrows(tables, schema, rule, d, id, request);
      }
    }
  }

  lemma CoveredWorkflows(current: Rule, desired: Rule)
    ensures Retirable(current, desired) ==> current.body.Actions? && desired.body.Actions? && current.ruleId.None?
  {}

  lemma {:induction false} GoneAre(p: Plan, at: map<Location, string>, rules: seq<Rule>, n: nat)
    requires n <= |rules|
    ensures var gone := Gone(p, at, rules, n);
            && |gone| == |RetirementsIn(p, at, WORKFLOWS, rules, n)|
            && (forall k :: 0 <= k < |gone| ==>
                  && gone[k] < n && FateOf(p, at, WORKFLOWS, gone[k], rules[gone[k]]).Retire?
                  && RetirementsIn(p, at, WORKFLOWS, rules, n)[k] == RetirementAt(p, at, gone[k], rules[gone[k]]))
            && (forall k, m :: 0 <= k < m < |gone| ==> gone[k] < gone[m])
    ensures forall i :: 0 <= i < n && FateOf(p, at, WORKFLOWS, i, rules[i]).Retire? ==> i in Gone(p, at, rules, n)
  {
    hide RetirementOf;
    if n > 0 {
      GoneAre(p, at, rules, n - 1);
      if FateOf(p, at, WORKFLOWS, n - 1, rules[n - 1]).Retire? {
        RetiredIsCovered(p, rules[n - 1]);
      }
    }
  }

  function RetirementAt(p: Plan, at: map<Location, string>, i: nat, rule: Rule): Retirement {
    var fate := FateOf(p, at, WORKFLOWS, i, rule);
    if fate.Retire? && fate.id in p.desired then Retirement(fate.id, rule, p.desired[fate.id].rule) else Retirement("", rule, rule)
  }

  lemma {:induction false} OnlyWorkflowsRetire(p: Plan, at: map<Location, string>, c: nat, rules: seq<Rule>, n: nat)
    requires n <= |rules| && c != WORKFLOWS
    ensures RetirementsIn(p, at, c, rules, n) == []
  {
    if n > 0 {
      OnlyWorkflowsRetire(p, at, c, rules, n - 1);
    }
  }

  lemma {:induction false} RetirementsAreWorkflows(p: Plan, at: map<Location, string>, n: nat)
    requires 0 < n <= |p.groups|
    ensures Retirements(p, at, n) == RetirementsIn(p, at, WORKFLOWS, p.groups[WORKFLOWS], |p.groups[WORKFLOWS]|)
  {
    hide RetirementsIn;
    if n > 1 {
      RetirementsAreWorkflows(p, at, n - 1);
      OnlyWorkflowsRetire(p, at, n - 1, p.groups[n - 1], |p.groups[n - 1]|);
    } else {
      assert Retirements(p, at, 0) == [];
    }
  }

  // ----- what is left -----

  // The places a merge takes unmanaged rules from.
  ghost predicate IsTaken(p: Plan, at: map<Location, string>, taken: set<Location>) {
    forall l :: l in taken <==> l in at || (l.collection == WORKFLOWS && |p.groups| > 0 && l.index < |p.groups[WORKFLOWS]|
                                            && FateOf(p, at, WORKFLOWS, l.index, p.groups[WORKFLOWS][l.index]).Retire?)
  }

  // An unmanaged rule keeps its place unless it is taken; what replaces a rule
  // is a desired one.
  lemma FateLeft(p: Plan, at: map<Location, string>, taken: set<Location>, c: nat, i: nat)
    requires WellFormed(p) && Named(p.set_, p.desired) && AdoptionOk(p, at) && IsTaken(p, at, taken) && c < 6 && i < |p.groups[c]|
    ensures var fate := FateOf(p, at, c, i, p.groups[c][i]);
            && (p.groups[c][i].setId.None? ==> (fate.Keep? <==> Location(c, i) !in taken))
            && (fate.Replace? ==> fate.id in p.desired && p.desired[fate.id].rule.setId == Some(p.set_))
  {
    hide RetirementOf;
    var l := Location(c, i);
    assert l in taken <==> l in at || (c == WORKFLOWS && FateOf(p, at, WORKFLOWS, i, p.groups[c][i]).Retire?);
    hide IsTaken;
  }

  lemma NoneOf()
    ensures Of([], None) == []
  {}

  lemma OfOne(rule: Rule)
    ensures Of([rule], None) == if rule.setId.None? then [rule] else []
  {
    OfSnoc([], rule, None);
    assert [] + [rule] == [rule];
  }

  lemma BecomesLeft(p: Plan, at: map<Location, string>, taken: set<Location>, c: nat, i: nat)
    requires WellFormed(p) && Named(p.set_, p.desired) && AdoptionOk(p, at) && IsTaken(p, at, taken) && c < 6 && i < |p.groups[c]|
    ensures var rule := p.groups[c][i];
            Of(Becomes(p, at, c, i, rule), None) == if rule.setId.None? && Location(c, i) !in taken then [rule] else []
  {
    FateLeft(p, at, taken, c, i);
    NoneOf();
    hide FateOf, IsTaken, AdoptionOk, Named, Of, WellFormed;
    var rule := p.groups[c][i];
    var fate := FateOf(p, at, c, i, rule);
    if fate.Keep? {
      OfOne(rule);
    } else if fate.Replace? {
      OfOne(p.desired[fate.id].rule);
    }
  }

  lemma {:induction false} BuiltLeft(p: Plan, at: map<Location, string>, taken: set<Location>, c: nat, n: nat)
    requires WellFormed(p) && Named(p.set_, p.desired) && AdoptionOk(p, at) && IsTaken(p, at, taken) && c < 6 && n <= |p.groups[c]|
    ensures Of(Built(p, at, c, p.groups[c], n), None) == Left(p.groups[c][..n], c, taken)
  {
    hide Becomes, AdoptionOk, Named, Of, IsTaken;
    var rules := p.groups[c];
    if n > 0 {
      BuiltLeft(p, at, taken, c, n - 1);
      BuiltSnoc(p, at, c, rules, n);
      hide Built;
      assert rules[..n][..n - 1] == rules[..n - 1];
      OfConcat(Built(p, at, c, rules, n - 1), Becomes(p, at, c, n - 1, rules[n - 1]), None);
      BecomesLeft(p, at, taken, c, n - 1);
    } else {
      NoneOf();
    }
  }

  lemma GroupLeft(p: Plan, at: map<Location, string>, taken: set<Location>, c: nat)
    requires WellFormed(p) && Named(p.set_, p.desired) && AdoptionOk(p, at) && IsTaken(p, at, taken) && c < 6
    ensures Of(NewGroups(p, at)[c], None) == Left(p.groups[c], c, taken)
  {
    hide AdoptionOk, Named, Built, Appended, Placed, Of, IsTaken;
    BuiltLeft(p, at, taken, c, |p.groups[c]|);
    AppendedOf(p, Placed(p, at, 6), c, |p.ids|, None);
    assert p.groups[c][..|p.groups[c]|] == p.groups[c];
    OfConcat(Built(p, at, c, p.groups[c], |p.groups[c]|), Appended(p, Placed(p, at, 6), c, |p.ids|), None);
  }

  // ----- adopted changes -----

  // Each listed change is that of its own identity, and no two share one.
  ghost predicate Listed(p: Plan, adopted: set<string>, all: seq<string>, n: nat, changes: seq<Change>) {
    && n <= |all|
    && (forall k :: 0 <= k < |changes| ==> changes[k].id in all[..n] && ChangeOf(p, adopted, changes[k].id) == Some(changes[k]))
    && (forall k, m :: 0 <= k < m < |changes| ==> changes[k].id != changes[m].id)
    && (forall id :: id in all[..n] && ChangeOf(p, adopted, id).Some? ==> ChangeOf(p, adopted, id).value in changes)
  }

  lemma {:induction false} ChangesAreListed(p: Plan, adopted: set<string>, all: seq<string>, n: nat)
    requires n <= |all| && IsSorted(all)
    ensures Listed(p, adopted, all, n, ChangesUpTo(p, adopted, all, n))
  {
    hide IsSorted;
    if n > 0 {
      ChangesAreListed(p, adopted, all, n - 1);
      U.SortedDistinct(all, n - 1);
      assert all[..n] == all[..n - 1] + [all[n - 1]];
    }
  }

  // Where the rule adopted under an identity stands.
  ghost function Where(at: map<Location, string>, id: string): (l: Location)
    requires id in at.Values
    ensures l in at && at[l] == id
  {
    var l :| l in at && at[l] == id;
    l
  }

  // An identity is reported as adopted exactly when a place was found for it.
  lemma AdoptedIsPlaced(p: Plan, at: map<Location, string>, change: Change)
    requires AdoptionOk(p, at) && ChangeOf(p, at.Values, change.id) == Some(change)
    ensures change.kind.Adopted? ==> change.id in at.Values && change.id in p.desired && change.desired == Some(p.desired[change.id])
  {}

  lemma PlacedIsAdopted(p: Plan, at: map<Location, string>, l: Location)
    ensures AdoptionOk(p, at) && l in at ==>
              ChangeOf(p, at.Values, at[l]).Some? && ChangeOf(p, at.Values, at[l]).value.kind.Adopted? && ChangeOf(p, at.Values, at[l]).value.id == at[l]
  {
    if l in at {
      assert at[l] in at.Values;
    }
  }

  // Every rule adopted was adoptable for the desired rule that took its place.
  lemma {:induction false} AdoptedIsAdoptable(p: Plan, n: nat)
    requires WellFormed(p) && n <= |p.ids| && AdoptUpTo(p, n).Adopting?
    ensures var at := AdoptUpTo(p, n).at;
            forall l :: l in at ==>
              && at[l] in p.desired && l.collection < |p.groups| && l.index < |p.groups[l.collection]|
              && Adoptable(p.groups[l.collection][l.index], p.desired[at[l]].rule)
  {
    hide Adoptable, BlocksNarrowing;
    if n > 0 {
      AdoptedIsAdoptable(p, n - 1);
      var id := p.ids[n - 1];
      var found := Candidates(p.groups, |p.groups|, p.desired[id].rule);
      if id !in p.current && found != [] {
        CandidatesAreAdoptable(p.groups, |p.groups|, p.desired[id].rule);
        assert found[0] in found;
      }
    }
  }

  lemma {:induction false} CandidatesInAreAdoptable(collection: nat, rules: seq<Rule>, n: nat, desired: Rule)
    requires n <= |rules|
    ensures forall l :: l in CandidatesIn(collection, rules, n, desired) ==>
                          l.collection == collection && l.index < n && Adoptable(rules[l.index], desired)
  {
    hide Adoptable;
    if n > 0 {
      CandidatesInAreAdoptable(collection, rules, n - 1, desired);
    }
  }

  lemma {:induction false} CandidatesAreAdoptable(groups: seq<seq<Rule>>, n: nat, desired: Rule)
    requires n <= |groups|
    ensures forall l :: l in Candidates(groups, n, desired) ==>
                          l.collection < n && l.index < |groups[l.collection]| && Adoptable(groups[l.collection][l.index], desired)
  {
    hide Adoptable, CandidatesIn;
    if n > 0 {
      CandidatesAreAdoptable(groups, n - 1, desired);
      CandidatesInAreAdoptable(n - 1, groups[n - 1], |groups[n - 1]|, desired);
    }
  }

  lemma AdoptableIsAdoption(r: Rule, d: Rule)
    ensures Adoptable(r, d) ==> IsAdoption(r, d)
  {
    hide NormalWorkflow, NormalValues, TransitionBase, WithoutIdentity;
    if Adoptable(r, d) && r.body.Actions? && CleanScope(r.body.workflow) && CleanWorkflow(d.body.workflow) {
      AdoptionNarrows(r, d);
    }
  }

  ghost function PlacesOfAdopted(at: map<Location, string>, changes: seq<Change>): map<nat, Location> {
    map k: nat | k < |changes| && changes[k].kind.Adopted? && changes[k].id in at.Values :: Where(at, changes[k].id)
  }

  // One change that is reported as adopted, and the place of its rule.
  lemma ChangeAdoptsFrom(p: Plan, at: map<Location, string>, policy: Policy, change: Change)
    requires WellFormed(p) && p.groups == policy.groups && AdoptionOk(p, at) && AdoptUpTo(p, |p.ids|) == Adopting(at)
    requires change.kind.Adopted? && ChangeOf(p, at.Values, change.id) == Some(change)
    ensures && change.id in at.Values && change.desired.Some?
            && var l := Where(at, change.id);
               && IsUnmanaged(policy, l) && change.desired.value.collection == l.collection
               && IsAdoption(policy.groups[l.collection][l.index], change.desired.value.rule)
  {
    hide IsAdoption, AdoptUpTo, ChangeOf, Adoptable;
    AdoptedIsPlaced(p, at, change);
    AdoptedIsAdoptable(p, |p.ids|);
    var l := Where(at, change.id);
    AdoptableIsAdoption(p.groups[l.collection][l.index], p.desired[at[l]].rule);
  }

  // The places found for adopted changes are all those that were adopted.
  lemma PlacesAreAll(p: Plan, at: map<Location, string>, changes: seq<Change>)
    requires AdoptionOk(p, at) && U.Injective(at)
    requires forall l :: l in at && ChangeOf(p, at.Values, at[l]).Some? ==> ChangeOf(p, at.Values, at[l]).value in changes
    ensures PlacesOfAdopted(at, changes).Values == at.Keys
  {
    hide AdoptionOk, ChangeOf;
    var from := PlacesOfAdopted(at, changes);
    forall l | l in at
      ensures l in from.Values
    {
      PlacedIsAdopted(p, at, l);
      var change := ChangeOf(p, at.Values, at[l]).value;
      var k: nat :| k < |changes| && changes[k] == change;
      assert at[l] in at.Values;
      assert k in from && from[k] == Where(at, at[l]) == l;
    }
    forall l | l in from.Values
      ensures l in at
    {
      var k :| k in from && from[k] == l;
    }
  }

  lemma DistinctPlaces(at: map<Location, string>, changes: seq<Change>)
    requires forall k, m :: 0 <= k < m < |changes| ==> changes[k].id != changes[m].id
    ensures var from := PlacesOfAdopted(at, changes); forall k, m :: k in from && m in from && from[k] == from[m] ==> k == m
  {
    var from := PlacesOfAdopted(at, changes);
    forall k, m | k in from && m in from && from[k] == from[m]
      ensures k == m
    {
      assert at[from[k]] == changes[k].id && at[from[m]] == changes[m].id;
    }
  }

  lemma PlaceOfAdopted(at: map<Location, string>, changes: seq<Change>, k: nat)
    ensures k in PlacesOfAdopted(at, changes) <==> k < |changes| && changes[k].kind.Adopted? && changes[k].id in at.Values
    ensures k in PlacesOfAdopted(at, changes) ==> PlacesOfAdopted(at, changes)[k] == Where(at, changes[k].id)
  {}

  lemma ChangesAdoptFrom(p: Plan, at: map<Location, string>, changes: seq<Change>, all: seq<string>, policy: Policy)
    requires WellFormed(p) && p.groups == policy.groups && AdoptionOk(p, at) && U.Injective(at)
    requires AdoptUpTo(p, |p.ids|) == Adopting(at) && forall id :: id in p.desired ==> id in all
    requires Listed(p, at.Values, all, |all|, changes)
    ensures AdoptsFrom(policy, changes, PlacesOfAdopted(at, changes)) && PlacesOfAdopted(at, changes).Values == at.Keys
  {
    assert all[..|all|] == all;
    PlacesAreAll(p, at, changes);
    hide IsAdoption, AdoptUpTo, ChangeOf, WellFormed, AdoptionOk, U.Injective, PlacesOfAdopted;
    DistinctPlaces(at, changes);
    var from := PlacesOfAdopted(at, changes);
    forall k: nat
      ensures k in from <==> k < |changes| && changes[k].kind.Adopted?
      ensures k in from ==>
                && IsUnmanaged(policy, from[k]) && changes[k].desired.Some? && changes[k].desired.value.collection == from[k].collection
                && IsAdoption(policy.groups[from[k].collection][from[k].index], changes[k].desired.value.rule)
    {
      PlaceOfAdopted(at, changes, k);
      if k < |changes| && changes[k].kind.Adopted? {
        ChangeAdoptsFrom(p, at, policy, changes[k]);
      }
    }
  }

  lemma DesiredIsListed(current: Policy, desired: Policy, set_: string)
    ensures |desired.groups| == 6 ==> forall id :: id in Entries(desired, set_) ==> id in BothIds(current, desired, set_)
    ensures IsSorted(BothIds(current, desired, set_))
  {
    hide AllIds, IsSorted;
    SortedSetIsSorted(AllIds(current.groups, set_) + AllIds(desired.groups, set_));
    IdsAreKeys(desired.groups, set_);
  }

  lemma MergedIs(current: Policy, desired: Policy, set_: string, mode: Mode, at: map<Location, string>)
    requires |current.groups| == 6 && IsDesired(desired, set_) && Reconcile(current, desired, set_, mode).Done?
    requires var p := PlanOf(current, desired, set_, mode); WellFormed(p) && AdoptUpTo(p, |p.ids|) == Adopting(at)
    ensures var p, r := PlanOf(current, desired, set_, mode), Reconcile(current, desired, set_, mode).result;
            && (mode == AdoptMatching ==> !RetirementAmbiguous(p) && !RetirementConflicts(p, at))
            && r.policy.groups == NewGroups(p, at) && r.retirements == Retirements(p, at, 6)
            && r.changes == ChangesUpTo(p, at.Values, BothIds(current, desired, set_), |BothIds(current, desired, set_)|)
  {
    hide HasNamelessRule, RetirementAmbiguous, RetirementConflicts, NewGroups, Entries, SortedIds, BothIds, Retirements;
  }

  lemma RetiredIsGone(p: Plan, at: map<Location, string>, policy: Policy)
    requires |p.groups| == 6 && p.groups == policy.groups
    ensures var gone := Gone(p, at, p.groups[WORKFLOWS], |p.groups[WORKFLOWS]|);
            && RetiresFrom(policy, p.current, p.desired, Retirements(p, at, 6), gone)
            && IsTaken(p, at, at.Keys + PlacesOf(gone)) && at.Keys !! PlacesOf(gone)
  {
    hide RetirementOf, RetirementsIn, IsRetirement, IsInPlace;
    var rules := p.groups[WORKFLOWS];
    var gone := Gone(p, at, rules, |rules|);
    GoneAre(p, at, rules, |rules|);
    RetirementsAreWorkflows(p, at, 6);
    hide Gone, Retirements;
    forall k: nat | k < |gone|
      ensures RetirementAt(p, at, gone[k], rules[gone[k]]).retired == rules[gone[k]]
      ensures RetirementAt(p, at, gone[k], rules[gone[k]]).ruleId in p.desired
      ensures IsInPlace(p.current, p.desired, RetirementAt(p, at, gone[k], rules[gone[k]]).ruleId)
      ensures RetirementAt(p, at, gone[k], rules[gone[k]]).retained == p.desired[RetirementAt(p, at, gone[k], rules[gone[k]]).ruleId].rule
      ensures IsRetirement(rules[gone[k]], RetirementAt(p, at, gone[k], rules[gone[k]]).retained)
      ensures rules[gone[k]].setId.None? && Location(WORKFLOWS, gone[k]) !in at
    {
      RetiredIsCovered(p, rules[gone[k]]);
      InPlaceIsDesired(p.current, p.desired, RetirementOf(p, rules[gone[k]]).value);
    }
    forall l: Location
      ensures l in PlacesOf(gone) <==> l.collection == WORKFLOWS && l.index < |rules| && FateOf(p, at, WORKFLOWS, l.index, rules[l.index]).Retire?
    {
      if l.collection == WORKFLOWS && l.index < |rules| && FateOf(p, at, WORKFLOWS, l.index, rules[l.index]).Retire? {
        assert l.index in gone;
        var k :| 0 <= k < |gone| && gone[k] == l.index;
        assert Location(WORKFLOWS, gone[k]) == l;
      }
    }
  }

  lemma InPlaceIsDesired(before: map<string, Entry>, after: map<string, Entry>, id: string)
    ensures IsInPlace(before, after, id) ==> id in before && id in after
  {}

  // ----- nothing that could be adopted or retired is passed over -----

  lemma {:induction false} CandidateIsFoundIn(collection: nat, rules: seq<Rule>, n: nat, desired: Rule, i: nat)
    requires i < n <= |rules| && Adoptable(rules[i], desired)
    ensures Location(collection, i) in CandidatesIn(collection, rules, n, desired)
  {
    hide Adoptable;
    if i < n - 1 {
      CandidateIsFoundIn(collection, rules, n - 1, desired, i);
    }
  }

  lemma {:induction false} CandidateIsFound(groups: seq<seq<Rule>>, n: nat, desired: Rule, l: Location)
    requires l.collection < n <= |groups| && l.index < |groups[l.collection]| && Adoptable(groups[l.collection][l.index], desired)
    ensures l in Candidates(groups, n, desired)
  {
    hide Adoptable, CandidatesIn;
    if l.collection < n - 1 {
      CandidateIsFound(groups, n - 1, desired, l);
    } else {
      CandidateIsFoundIn(n - 1, groups[n - 1], |groups[n - 1]|, desired, l.index);
    }
  }

  // Whatever may be adopted under a new identity is, and it is the only rule
  // that may; without the mode for it, there is none.
  ghost predicate AdoptsAll(p: Plan, at: map<Location, string>, id: string) {
    id in p.desired && id !in p.current ==>
      var found := Candidates(p.groups, |p.groups|, p.desired[id].rule);
      (found == [] && id !in at.Values) || (p.mode == AdoptMatching && |found| == 1 && found[0] in at && at[found[0]] == id)
  }

  lemma {:induction false} AdoptionIsComplete(p: Plan, n: nat)
    requires WellFormed(p) && n <= |p.ids| && IsSorted(p.ids) && AdoptUpTo(p, n).Adopting?
    ensures forall k :: 0 <= k < n ==> AdoptsAll(p, AdoptUpTo(p, n).at, p.ids[k])
  {
    hide Candidates, NarrowingBlocked, IsSorted;
    if n > 0 {
      AdoptionIsComplete(p, n - 1);
      U.AdoptedAreEarlier(p, n - 1);
      U.SortedDistinct(p.ids, n - 1);
      forall k | 0 <= k < n - 1
        ensures p.ids[k] != p.ids[n - 1]
      {
        assert p.ids[k] == p.ids[..n - 1][k];
      }
      forall k | 0 <= k < n
        ensures AdoptsAll(p, AdoptUpTo(p, n).at, p.ids[k])
      {
        if k < n - 1 {
          assert AdoptsAll(p, AdoptUpTo(p, n - 1).at, p.ids[k]);
        }
      }
    }
  }

  lemma {:induction false} MatchIsFound(p: Plan, rule: Rule, n: nat, k: nat)
    requires k < n <= |p.ids| && Retires(p, p.ids[k], rule)
    ensures p.ids[k] in MatchesUpTo(p, rule, n)
  {
    hide Retires;
    if k < n - 1 {
      MatchIsFound(p, rule, n - 1, k);
    }
  }

  // A rule that some desired rule in place covers is retired, unless it is
  // ambiguous which by which.
  lemma CoveredIsRetired(p: Plan, i: nat, id: string)
    requires WellFormed(p) && !RetirementAmbiguous(p) && i < |Workflows(p)|
    requires IsInPlace(p.current, p.desired, id) && Workflows(p)[i].setId.None? && Retirable(Workflows(p)[i], p.desired[id].rule)
    ensures RetirementOf(p, Workflows(p)[i]).Some?
  {
    hide Retirable;
    var rule := Workflows(p)[i];
    var k: nat :| k < |p.ids| && p.ids[k] == id;
    MatchIsFound(p, rule, |p.ids|, k);
    LocationCounts(p, Workflows(p), id, |Workflows(p)|, i);
    assert |RetiredBy(p, rule)| == 1 && RetiredBy(p, rule)[0] == id;
    assert |RetiredLocations(p, id)| == 1;
  }

  // The desired rule of a new identity may adopt the unmanaged rule there.
  predicate MayAdopt(policy: Policy, changes: seq<Change>, k: nat, l: Location) {
    && k < |changes| && changes[k].previous.None? && changes[k].desired.Some? && IsUnmanaged(policy, l)
    && Adoptable(policy.groups[l.collection][l.index], changes[k].desired.value.rule)
  }

  // The desired rule of this identity is in place and covers the unmanaged rule there.
  predicate MayRetire(policy: Policy, before: map<string, Entry>, after: map<string, Entry>, i: nat, id: string) {
    IsUnmanaged(policy, Location(WORKFLOWS, i)) && IsInPlace(before, after, id) && Retirable(policy.groups[WORKFLOWS][i], after[id].rule)
  }

  // Each unmanaged rule that a new desired rule may adopt is adopted by it, and
  // is the only one; each that a desired rule in place covers is retired.
  ghost predicate TakesAll(policy: Policy, before: map<string, Entry>, after: map<string, Entry>, changes: seq<Change>,
                           from: map<nat, Location>, gone: seq<nat>) {
    && (forall k, l :: MayAdopt(policy, changes, k, l) ==> k in from && from[k] == l)
    && (forall i, id :: MayRetire(policy, before, after, i, id) ==> i in gone)
  }

  lemma ChangeIsAdopted(p: Plan, at: map<Location, string>, changes: seq<Change>, k: nat, l: Location)
    requires WellFormed(p) && AdoptUpTo(p, |p.ids|) == Adopting(at) && IsSorted(p.ids) && AdoptionOk(p, at) && U.Injective(at)
    requires k < |changes| && changes[k].previous.None? && changes[k].desired.Some?
    requires ChangeOf(p, at.Values, changes[k].id) == Some(changes[k])
    requires l.collection < |p.groups| && l.index < |p.groups[l.collection]|
    requires Adoptable(p.groups[l.collection][l.index], changes[k].desired.value.rule)
    ensures p.mode == AdoptMatching && k in PlacesOfAdopted(at, changes) && PlacesOfAdopted(at, changes)[k] == l
  {
    hide Adoptable, AdoptUpTo, IsSorted, Candidates;
    AdoptionIsComplete(p, |p.ids|);
    var id := changes[k].id;
    var j: nat :| j < |p.ids| && p.ids[j] == id;
    assert AdoptsAll(p, at, p.ids[j]);
    CandidateIsFound(p.groups, |p.groups|, p.desired[id].rule, l);
    assert at[l] in at.Values;
  }

  lemma MergeTakesAll(p: Plan, at: map<Location, string>, changes: seq<Change>, all: seq<string>, policy: Policy)
    requires WellFormed(p) && AdoptUpTo(p, |p.ids|) == Adopting(at) && IsSorted(p.ids) && AdoptionOk(p, at) && U.Injective(at)
    requires Listed(p, at.Values, all, |all|, changes) && p.groups == policy.groups && p.mode == AdoptMatching
    requires !RetirementAmbiguous(p) && !RetirementConflicts(p, at)
    ensures TakesAll(policy, p.current, p.desired, changes, PlacesOfAdopted(at, changes), Gone(p, at, p.groups[WORKFLOWS], |p.groups[WORKFLOWS]|))
  {
    hide Adoptable, AdoptUpTo, IsSorted, Retirable, ChangeOf, AdoptionOk, U.Injective, PlacesOfAdopted;
    forall k, l | MayAdopt(policy, changes, k, l)
      ensures k in PlacesOfAdopted(at, changes) && PlacesOfAdopted(at, changes)[k] == l
    {
      ChangeIsAdopted(p, at, changes, k, l);
    }
    var rules := p.groups[WORKFLOWS];
    GoneAre(p, at, rules, |rules|);
    forall i, id | MayRetire(policy, p.current, p.desired, i, id)
      ensures i in Gone(p, at, rules, |rules|)
    {
      CoveredIsRetired(p, i, id);
      hide RetirementOf;
      assert Location(WORKFLOWS, i) !in at;
    }
  }

  // Without the mode for it, no merge succeeds that could adopt a rule.
  lemma RejectAdoptsNone(current: Policy, desired: Policy, set_: string, k: nat, l: Location)
    requires |current.groups| == 6 && IsDesired(desired, set_) && Reconcile(current, desired, set_, Reject).Done?
    ensures !MayAdopt(current, Reconcile(current, desired, set_, Reject).result.changes, k, l)
  {
    hide Reconcile, Named, Entries, SortedIds, NewGroups, AdoptUpTo, BothIds, PlacesOfAdopted, IsSorted, ChangesUpTo, Adoptable, ChangeOf;
    var p := PlanOf(current, desired, set_, Reject);
    var at := MergedBy(current, desired, set_, Reject);
    MergedIs(current, desired, set_, Reject, at);
    DesiredIsListed(current, desired, set_);
    U.IdsAreSorted(desired, set_);
    U.AdoptedAreEarlier(p, |p.ids|);
    var all := BothIds(current, desired, set_);
    ChangesAreListed(p, at.Values, all, |all|);
    var changes := ChangesUpTo(p, at.Values, all, |all|);
    if MayAdopt(current, changes, k, l) {
      ChangeIsAdopted(p, at, changes, k, l);
      assert false;
    }
  }

  // A merge that adopts keeps the unmanaged rules of every collection, in
  // order, less one for each change it reports as adopted and one for each
  // retirement.  Each adopted rule and the desired rule that replaces it allow
  // the same but for what the identities and the job workflows of the desired
  // rule shut out; each retired rule allowed whatever the managed rule allows
  // that was in place and stays.  No rule that could be adopted or retired is
  // passed over.
  lemma AdoptKeepsOthers(current: Policy, desired: Policy, set_: string) returns (from: map<nat, Location>, gone: seq<nat>)
    requires |current.groups| == 6 && IsDesired(desired, set_) && Reconcile(current, desired, set_, AdoptMatching).Done?
    ensures var r := Reconcile(current, desired, set_, AdoptMatching).result;
            && AdoptsFrom(current, r.changes, from)
            && RetiresFrom(current, Entries(current, set_), Entries(desired, set_), r.retirements, gone)
            && TakesAll(current, Entries(current, set_), Entries(desired, set_), r.changes, from, gone)
            && from.Values !! PlacesOf(gone) && |r.policy.groups| == 6
            && forall c :: 0 <= c < 6 ==> Of(r.policy.groups[c], None) == Left(current.groups[c], c, from.Values + PlacesOf(gone))
  {
    hide Reconcile, Named, AdoptionOk, Entries, SortedIds, NewGroups, AdoptsFrom, RetiresFrom, IsTaken, AdoptUpTo, BothIds, PlacesOfAdopted,
         IsSorted, Of, Left, Listed, ChangesUpTo, TakesAll, RetirementAmbiguous, RetirementConflicts;
    var p := PlanOf(current, desired, set_, AdoptMatching);
    var at := MergedBy(current, desired, set_, AdoptMatching);
    MergedIs(current, desired, set_, AdoptMatching, at);
    DesiredIsListed(current, desired, set_);
    U.IdsAreSorted(desired, set_);
    U.AdoptedAreEarlier(p, |p.ids|);
    var all := BothIds(current, desired, set_);
    ChangesAreListed(p, at.Values, all, |all|);
    ChangesAdoptFrom(p, at, ChangesUpTo(p, at.Values, all, |all|), all, current);
    RetiredIsGone(p, at, current);
    MergeTakesAll(p, at, ChangesUpTo(p, at.Values, all, |all|), all, current);
    var r := Reconcile(current, desired, set_, AdoptMatching).result;
    from := PlacesOfAdopted(at, r.changes);
    gone := Gone(p, at, p.groups[WORKFLOWS], |p.groups[WORKFLOWS]|);
    forall c: nat | c < 6
      ensures Of(r.policy.groups[c], None) == Left(current.groups[c], c, from.Values + PlacesOf(gone))
    {
      GroupLeft(p, at, at.Keys + PlacesOf(gone), c);
    }
  }

  // ----- the change list -----

  function Lookup(entries: map<string, Entry>, id: string): Option<Entry> { if id in entries then Some(entries[id]) else None }

  // One reported change: what the set had under the identity before and has
  // after the merge.
  predicate IsChange(before: map<string, Entry>, after: map<string, Entry>, change: Change) {
    && change.previous == Lookup(before, change.id) && change.desired == Lookup(after, change.id) && change.previous != change.desired
    && (change.kind.Removed? <==> change.desired.None?)
    && (change.kind.Updated? <==> change.previous.Some? && change.desired.Some?)
  }

  // The reported changes are, once each, all the identities whose rule is not
  // the same before and after the merge.
  ghost predicate ReportsAll(before: map<string, Entry>, after: map<string, Entry>, changes: seq<Change>) {
    && (forall k :: 0 <= k < |changes| ==> IsChange(before, after, changes[k]))
    && (forall k, m :: 0 <= k < m < |changes| ==> changes[k].id != changes[m].id)
    && (forall id :: Lookup(before, id) != Lookup(after, id) ==> exists k :: 0 <= k < |changes| && changes[k].id == id)
  }

  lemma ListedReportsAll(p: Plan, adopted: set<string>, all: seq<string>, changes: seq<Change>)
    requires Listed(p, adopted, all, |all|, changes)
    requires forall id :: id in p.current || id in p.desired ==> id in all
    ensures ReportsAll(p.current, p.desired, changes)
  {
    assert all[..|all|] == all;
    forall id | Lookup(p.current, id) != Lookup(p.desired, id)
      ensures exists k :: 0 <= k < |changes| && changes[k].id == id
    {
      var change := ChangeOf(p, adopted, id).value;
      assert change in changes && change.id == id;
      var k :| 0 <= k < |changes| && changes[k] == change;
    }
  }

  // Over every merge, the change list is the difference that the merge made.
  lemma ChangesAreExact(current: Policy, desired: Policy, set_: string, mode: Mode)
    requires |current.groups| == 6 && IsDesired(desired, set_) && Reconcile(current, desired, set_, mode).Done?
    ensures var r := Reconcile(current, desired, set_, mode).result;
            ReportsAll(Entries(current, set_), Entries(r.policy, set_), r.changes)
  {
    hide Reconcile, Named, AdoptionOk, Entries, SortedIds, NewGroups, AdoptUpTo, BothIds, IsSorted, Listed, ChangesUpTo, ReportsAll, Settled,
         RetirementAmbiguous, RetirementConflicts;
    var p := PlanOf(current, desired, set_, mode);
    var at := MergedBy(current, desired, set_, mode);
    MergedIs(current, desired, set_, mode, at);
    ReconcileSettles(current, desired, set_, mode);
    DesiredIsListed(current, desired, set_);
    CurrentIsListed(current, desired, set_);
    var all := BothIds(current, desired, set_);
    ChangesAreListed(p, at.Values, all, |all|);
    ListedReportsAll(p, at.Values, all, ChangesUpTo(p, at.Values, all, |all|));
    SettledIsCurrent(Reconcile(current, desired, set_, mode).result.policy, desired, set_, mode);
  }

  lemma SettledIsCurrent(after: Policy, desired: Policy, set_: string, mode: Mode)
    ensures SettledPlan(PlanOf(after, desired, set_, mode)) ==> Entries(after, set_) == Entries(desired, set_)
  {}

  lemma CurrentIsListed(current: Policy, desired: Policy, set_: string)
    ensures |current.groups| == 6 ==> forall id :: id in Entries(current, set_) ==> id in BothIds(current, desired, set_)
  {
    hide AllIds;
    IdsAreKeys(current.groups, set_);
  }

  // ----- what no merge lets pass -----

  // A new workflow rule finds none that it would narrow unseen.
  lemma {:induction false} NothingIsNarrowed(p: Plan, n: nat)
    requires WellFormed(p) && n <= |p.ids| && AdoptUpTo(p, n).Adopting?
    ensures forall k :: 0 <= k < n && p.ids[k] !in p.current && Candidates(p.groups, |p.groups|, p.desired[p.ids[k]].rule) == [] ==>
              !NarrowingBlocked(p.groups, p.desired[p.ids[k]].rule)
  {
    hide Candidates, NarrowingBlocked;
    if n > 0 {
      NothingIsNarrowed(p, n - 1);
    }
  }

  // The unmanaged workflow rule there selects alike, asks for no other
  // repository or owner identity, and is clean, as is the desired one.
  ghost predicate IsOverlap(policy: Policy, l: Location, d: Rule) {
    && IsUnmanaged(policy, l) && policy.groups[l.collection][l.index].body.Actions? && d.body.Actions?
    && var c := policy.groups[l.collection][l.index].body.workflow;
       && CleanWorkflow(c) && CleanWorkflow(d.body.workflow) && SelectsAlike(c, d.body.workflow) && IdentityNarrows(c, d.body.workflow)
  }

  // Over every merge: a rule is reported as added only if no unmanaged rule
  // overlaps it: it would have been adopted, or the merge refused because its
  // job workflows are not all among the desired ones.
  lemma AddedMeetsNoOverlap(current: Policy, desired: Policy, set_: string, mode: Mode, k: nat, l: Location)
    requires |current.groups| == 6 && IsDesired(desired, set_) && Reconcile(current, desired, set_, mode).Done?
    ensures var changes := Reconcile(current, desired, set_, mode).result.changes;
            k < |changes| && changes[k].kind.Added? && changes[k].desired.Some? ==> !IsOverlap(current, l, changes[k].desired.value.rule)
  {
    hide Reconcile, Named, Entries, SortedIds, NewGroups, AdoptUpTo, BothIds, IsSorted, ChangesUpTo, Adoptable, ChangeOf, AdoptionOk,
         RetirementAmbiguous, RetirementConflicts, IsOverlap, U.Injective;
    var p := PlanOf(current, desired, set_, mode);
    var at := MergedBy(current, desired, set_, mode);
    MergedIs(current, desired, set_, mode, at);
    DesiredIsListed(current, desired, set_);
    U.IdsAreSorted(desired, set_);
    var all := BothIds(current, desired, set_);
    ChangesAreListed(p, at.Values, all, |all|);
    var changes := ChangesUpTo(p, at.Values, all, |all|);
    if k < |changes| && changes[k].kind.Added? {
      AddedIsApart(p, at, current, changes[k], l);
    }
  }

  lemma AddedIsApart(p: Plan, at: map<Location, string>, policy: Policy, change: Change, l: Location)
    requires WellFormed(p) && AdoptUpTo(p, |p.ids|) == Adopting(at) && IsSorted(p.ids) && Named(p.set_, p.desired)
    requires ChangeOf(p, at.Values, change.id) == Some(change) && change.kind.Added? && policy.groups == p.groups
    ensures change.desired.Some? && !IsOverlap(policy, l, change.desired.value.rule)
  {
    hide AdoptUpTo, IsSorted, Candidates, Adoptable;
    AdoptionIsComplete(p, |p.ids|);
    NothingIsNarrowed(p, |p.ids|);
    var id := change.id;
    var j: nat :| j < |p.ids| && p.ids[j] == id;
    var d := p.desired[id].rule;
    assert AdoptsAll(p, at, p.ids[j]);
    assert Candidates(p.groups, |p.groups|, d) == [] by {
      assert forall m :: m in at ==> at[m] in at.Values;
    }
    if IsOverlap(policy, l, d) {
      OverlapIsSeen(p.groups[l.collection][l.index], d);
      if Adoptable(p.groups[l.collection][l.index], d) {
        CandidateIsFound(p.groups, |p.groups|, d, l);
      }
      assert false;
    }
  }

  lemma OverlapIsSeen(current: Rule, desired: Rule)
    requires current.setId.None? && desired.setId.Some? && current.body.Actions? && desired.body.Actions?
    requires var c, d := current.body.workflow, desired.body.workflow;
             CleanWorkflow(c) && CleanWorkflow(d) && SelectsAlike(c, d) && IdentityNarrows(c, d)
    ensures Adoptable(current, desired) || BlocksNarrowing(current, desired)
  {
    AdoptableExactly(current, desired);
    AlikeIsElsewhere(current.body.workflow, desired.body.workflow);
    hide Adoptable, Clean, SelectsAlike, WithoutIdentity;
  }

  // No merge passes over a rule of its set that has no identity.
  lemma NamelessIsRefused(current: Policy, desired: Policy, set_: string, mode: Mode, c: nat, i: nat)
    requires |current.groups| == 6 && IsDesired(desired, set_) && c < 6 && i < |current.groups[c]|
    requires current.groups[c][i].setId == Some(set_) && current.groups[c][i].ruleId.None?
    ensures Reconcile(current, desired, set_, mode).Refused?
  {
    hide RetirementAmbiguous, RetirementConflicts, NewGroups, Entries, SortedIds, BothIds, AdoptUpTo, Merged;
  }

  lemma {:induction false} CandidatesRetire(p: Plan, at: map<Location, string>, n: nat)
    requires |p.groups| == 6 && n <= |p.groups[WORKFLOWS]| && p.mode == AdoptMatching && !RetirementConflicts(p, at)
    ensures CandidateCount(p, p.groups[WORKFLOWS][..n]) == |RetirementsIn(p, at, WORKFLOWS, p.groups[WORKFLOWS], n)|
  {
    hide RetirementOf;
    if n > 0 {
      var rules := p.groups[WORKFLOWS];
      CandidatesRetire(p, at, n - 1);
      assert rules[..n][..n - 1] == rules[..n - 1];
      if RetirementOf(p, rules[n - 1]).Some? {
        assert Location(WORKFLOWS, n - 1) !in at;
        RetiredIsCovered(p, rules[n - 1]);
      }
    }
  }

  // In an adopting merge every retirement candidate it counts is retired.
  lemma CandidatesAreRetired(current: Policy, desired: Policy, set_: string)
    requires |current.groups| == 6 && IsDesired(desired, set_) && Reconcile(current, desired, set_, AdoptMatching).Done?
    ensures var r := Reconcile(current, desired, set_, AdoptMatching).result; r.candidates == |r.retirements|
  {
    hide Named, Entries, SortedIds, NewGroups, AdoptUpTo, BothIds, ChangesUpTo, RetirementAmbiguous, RetirementConflicts, CandidateCount,
         HasNamelessRule, AdoptionOk;
    var p := PlanOf(current, desired, set_, AdoptMatching);
    var at := MergedBy(current, desired, set_, AdoptMatching);
    MergedIs(current, desired, set_, AdoptMatching, at);
    var rules := p.groups[WORKFLOWS];
    CandidatesRetire(p, at, |rules|);
    RetirementsAreWorkflows(p, at, 6);
    assert rules[..|rules|] == rules;
  }
}
