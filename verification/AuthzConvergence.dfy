// What repeated merges of one desired set do, and what they leave alone.
module AuthzConvergence {
  import opened Options
  import opened AuthzRules
  import opened AuthzReconcile

  // A desired policy holds rules of the requested set only, each with its identity.
  predicate IsDesired(desired: Policy, set_: string) {
    && |desired.groups| == 6
    && (forall c, i :: 0 <= c < 6 && 0 <= i < |desired.groups[c]| ==> IsManaged(desired.groups[c][i], set_))
  }

  // ----- entries are rules of the policy -----

  lemma {:induction false} GroupEntryIsRule(collection: nat, rules: seq<Rule>, set_: string, id: string)
    ensures id in GroupEntries(collection, rules, set_) ==>
              exists i :: 0 <= i < |rules| && IsManaged(rules[i], set_) && rules[i].ruleId == Some(id)
                          && GroupEntries(collection, rules, set_)[id] == Entry(collection, rules[i])
    ensures (exists i :: 0 <= i < |rules| && IsManaged(rules[i], set_) && rules[i].ruleId == Some(id)) ==>
              id in GroupEntries(collection, rules, set_)
  {
    if rules != [] {
      var front := rules[..|rules| - 1];
      GroupEntryIsRule(collection, front, set_, id);
      assert forall i :: 0 <= i < |front| ==> front[i] == rules[i];
      forall i | 0 <= i < |rules| && IsManaged(rules[i], set_) && rules[i].ruleId == Some(id)
        ensures id in GroupEntries(collection, rules, set_)
      {
        if i < |front| {
          assert front[i] == rules[i];
        }
      }
    }
  }

  lemma {:induction false} EntryIsRule(groups: seq<seq<Rule>>, set_: string, n: nat, id: string)
    requires n <= |groups|
    ensures id in EntriesUpTo(groups, set_, n) ==>
              exists c, i :: 0 <= c < n && 0 <= i < |groups[c]| && IsManaged(groups[c][i], set_) && groups[c][i].ruleId == Some(id)
                             && EntriesUpTo(groups, set_, n)[id] == Entry(c, groups[c][i])
    ensures (exists c, i :: 0 <= c < n && 0 <= i < |groups[c]| && IsManaged(groups[c][i], set_) && groups[c][i].ruleId == Some(id)) ==>
              id in EntriesUpTo(groups, set_, n)
  {
    if n > 0 {
      EntryIsRule(groups, set_, n - 1, id);
      GroupEntryIsRule(n - 1, groups[n - 1], set_, id);
    }
  }

  // ----- settled policies -----

  // The set's rules in `groups` are exactly the desired ones, in their collections.
  ghost predicate Settled(groups: seq<seq<Rule>>, set_: string, desired: map<string, Entry>) {
    && |groups| == 6
    && (forall c, i :: 0 <= c < 6 && 0 <= i < |groups[c]| && groups[c][i].setId == Some(set_) ==> IsDesiredRule(groups[c][i], c, desired))
    && (forall id :: id in desired ==> desired[id].collection < 6 && desired[id].rule in groups[desired[id].collection])
  }

  predicate IsDesiredRule(rule: Rule, collection: nat, desired: map<string, Entry>) {
    rule.ruleId.Some? && rule.ruleId.value in desired && desired[rule.ruleId.value] == Entry(collection, rule)
  }

  ghost predicate Named(set_: string, desired: map<string, Entry>) {
    forall id :: id in desired ==> desired[id].collection < 6 && desired[id].rule.setId == Some(set_) && desired[id].rule.ruleId == Some(id)
  }

  lemma DesiredIsNamed(desired: Policy, set_: string)
    ensures |desired.groups| == 6 ==> Named(set_, Entries(desired, set_))
  {
    if |desired.groups| == 6 {
      forall id | id in Entries(desired, set_)
        ensures Entries(desired, set_)[id].collection < 6 && Entries(desired, set_)[id].rule.setId == Some(set_)
                && Entries(desired, set_)[id].rule.ruleId == Some(id)
      {
        EntryIsRule(desired.groups, set_, 6, id);
      }
    }
  }

  lemma SettledEntries(groups: seq<seq<Rule>>, set_: string, desired: map<string, Entry>)
    requires Settled(groups, set_, desired) && Named(set_, desired)
    ensures EntriesUpTo(groups, set_, 6) == desired
  {
    var entries := EntriesUpTo(groups, set_, 6);
    forall id
      ensures id in entries <==> id in desired
      ensures id in desired ==> entries[id] == desired[id]
    {
      EntryIsRule(groups, set_, 6, id);
      if id in desired {
        var c := desired[id].collection;
        var i :| 0 <= i < |groups[c]| && groups[c][i] == desired[id].rule;
        assert IsManaged(groups[c][i], set_) && groups[c][i].ruleId == Some(id);
      }
      if id in entries {
        var e := entries[id];
        var i :| 0 <= i < |groups[e.collection]| && groups[e.collection][i] == e.rule;
        assert IsDesiredRule(groups[e.collection][i], e.collection, desired);
      }
    }
  }

  // ----- adoption picks unmanaged rules of the right collection -----

  ghost predicate AdoptionOk(p: Plan, at: map<Location, string>) {
    forall l :: l in at ==>
      && l.collection < |p.groups| && l.index < |p.groups[l.collection]| && p.groups[l.collection][l.index].setId.None?
      && at[l] in p.desired && p.desired[at[l]].collection == l.collection && at[l] !in p.current
  }

  lemma {:induction false} CandidatesInAreUnmanaged(collection: nat, rules: seq<Rule>, n: nat, desired: Rule)
    requires n <= |rules|
    ensures forall l :: l in CandidatesIn(collection, rules, n, desired) ==>
                          l.collection == collection && l.index < n && rules[l.index].setId.None?
  {
    if n > 0 {
      CandidatesInAreUnmanaged(collection, rules, n - 1, desired);
    }
  }

  lemma {:induction false} CandidatesAreUnmanaged(groups: seq<seq<Rule>>, n: nat, desired: Rule)
    requires n <= |groups|
    ensures forall l :: l in Candidates(groups, n, desired) ==>
                          l.collection < n && l.index < |groups[l.collection]| && groups[l.collection][l.index].setId.None?
  {
    if n > 0 {
      CandidatesAreUnmanaged(groups, n - 1, desired);
      CandidatesInAreUnmanaged(n - 1, groups[n - 1], |groups[n - 1]|, desired);
    }
  }

  lemma {:induction false} AdoptionIsOk(p: Plan, n: nat)
    requires WellFormed(p) && n <= |p.ids| && AdoptUpTo(p, n).Adopting?
    ensures AdoptionOk(p, AdoptUpTo(p, n).at)
  {
    hide Adoptable, BlocksNarrowing;
    if n > 0 {
      AdoptionIsOk(p, n - 1);
      var id := p.ids[n - 1];
      var found := Candidates(p.groups, |p.groups|, p.desired[id].rule);
      if id !in p.current && found != [] {
        assert found[0] in found;
        CandidatesAreUnmanaged(p.groups, |p.groups|, p.desired[id].rule);
        assert found[0] in found;
      }
    }
  }

  // ----- one merge settles the set -----

  lemma {:induction false} BuiltIsDesired(p: Plan, at: map<Location, string>, collection: nat, rules: seq<Rule>, n: nat)
    requires WellFormed(p) && AdoptionOk(p, at) && Named(p.set_, p.desired) && n <= |rules|
    ensures forall rule :: rule in Built(p, at, collection, rules, n) && rule.setId == Some(p.set_) ==> IsDesiredRule(rule, collection, p.desired)
  {
    if n > 0 {
      BuiltIsDesired(p, at, collection, rules, n - 1);
    }
  }

  lemma {:induction false} AppendedIsDesired(p: Plan, placed: set<string>, collection: nat, n: nat)
    requires WellFormed(p) && Named(p.set_, p.desired) && n <= |p.ids|
    ensures forall rule :: rule in Appended(p, placed, collection, n) ==> rule.setId == Some(p.set_) && IsDesiredRule(rule, collection, p.desired)
  {
    if n > 0 {
      AppendedIsDesired(p, placed, collection, n - 1);
    }
  }

  lemma {:induction false} AppendedHas(p: Plan, placed: set<string>, collection: nat, n: nat, k: nat)
    requires WellFormed(p) && k < n <= |p.ids| && p.ids[k] !in placed && p.desired[p.ids[k]].collection == collection
    ensures p.desired[p.ids[k]].rule in Appended(p, placed, collection, n)
  {
    if k < n - 1 {
      AppendedHas(p, placed, collection, n - 1, k);
    }
  }

  lemma {:induction false} PlacedInIsBuilt(p: Plan, at: map<Location, string>, collection: nat, rules: seq<Rule>, n: nat)
    requires WellFormed(p) && AdoptionOk(p, at) && n <= |rules|
    ensures forall id :: id in PlacedIn(p, at, collection, rules, n) ==>
                           id in p.desired && p.desired[id].collection == collection && p.desired[id].rule in Built(p, at, collection, rules, n)
  {
    if n > 0 {
      PlacedInIsBuilt(p, at, collection, rules, n - 1);
    }
  }

  lemma {:induction false} PlacedIsBuilt(p: Plan, at: map<Location, string>, n: nat)
    requires WellFormed(p) && AdoptionOk(p, at) && n <= 6
    ensures forall id :: id in Placed(p, at, n) ==>
                           && id in p.desired && p.desired[id].collection < n
                           && var c := p.desired[id].collection; p.desired[id].rule in Built(p, at, c, p.groups[c], |p.groups[c]|)
  {
    hide Built, PlacedIn;
    if n > 0 {
      PlacedIsBuilt(p, at, n - 1);
      PlacedInIsBuilt(p, at, n - 1, p.groups[n - 1], |p.groups[n - 1]|);
    }
  }

  lemma MergeSettles(p: Plan, at: map<Location, string>)
    requires WellFormed(p) && AdoptionOk(p, at) && Named(p.set_, p.desired)
    ensures Settled(NewGroups(p, at), p.set_, p.desired)
  {
    var groups: seq<seq<Rule>> := NewGroups(p, at);
    var placed := Placed(p, at, 6);
    forall c: nat, i: nat | c < 6 && i < |groups[c]| && groups[c][i].setId == Some(p.set_)
      ensures IsDesiredRule(groups[c][i], c, p.desired)
    {
      var built := Built(p, at, c, p.groups[c], |p.groups[c]|);
      if i < |built| {
        BuiltIsDesired(p, at, c, p.groups[c], |p.groups[c]|);
        assert groups[c][i] in built;
      } else {
        AppendedIsDesired(p, placed, c, |p.ids|);
        assert groups[c][i] in Appended(p, placed, c, |p.ids|);
      }
    }
    forall id | id in p.desired
      ensures p.desired[id].rule in groups[p.desired[id].collection]
    {
      if id in placed {
        PlacedIsBuilt(p, at, 6);
      } else {
        var k :| 0 <= k < |p.ids| && p.ids[k] == id;
        AppendedHas(p, placed, p.desired[id].collection, |p.ids|, k);
      }
    }
  }

  // ----- a settled policy is merged again -----

  ghost predicate SettledPlan(p: Plan) {
    WellFormed(p) && Named(p.set_, p.desired) && Settled(p.groups, p.set_, p.desired) && p.current == p.desired
  }

  lemma {:induction false} AdoptsNothing(p: Plan, n: nat)
    requires WellFormed(p) && p.current == p.desired && n <= |p.ids|
    ensures AdoptUpTo(p, n) == Adopting(map[])
  {
    if n > 0 {
      AdoptsNothing(p, n - 1);
    }
  }

  predicate RetiresNone(p: Plan, rules: seq<Rule>) { forall i :: 0 <= i < |rules| ==> RetirementOf(p, rules[i]).None? }

  lemma {:induction false} BuiltSame(p: Plan, collection: nat, n: nat)
    requires SettledPlan(p) && collection < 6 && n <= |p.groups[collection]|
    requires p.mode == Reject || collection != WORKFLOWS || RetiresNone(p, p.groups[collection])
    ensures Built(p, map[], collection, p.groups[collection], n) == p.groups[collection][..n]
    ensures RetirementsIn(p, map[], collection, p.groups[collection], n) == []
  {
    if n > 0 {
      BuiltSame(p, collection, n - 1);
      var rule := p.groups[collection][n - 1];
      assert rule.setId == Some(p.set_) ==> IsDesiredRule(rule, collection, p.desired);
      assert p.groups[collection][..n] == p.groups[collection][..n - 1] + [rule];
    }
  }

  lemma {:induction false} PlacedInAt(p: Plan, collection: nat, n: nat, i: nat)
    requires SettledPlan(p) && collection < 6 && i < n <= |p.groups[collection]|
    requires p.groups[collection][i].setId == Some(p.set_)
    ensures p.groups[collection][i].ruleId.Some? && p.groups[collection][i].ruleId.value in PlacedIn(p, map[], collection, p.groups[collection], n)
  {
    if i < n - 1 {
      PlacedInAt(p, collection, n - 1, i);
    } else {
      assert IsDesiredRule(p.groups[collection][i], collection, p.desired);
    }
  }

  lemma {:induction false} PlacedGrows(p: Plan, at: map<Location, string>, c: nat, n: nat)
    requires c < n <= |p.groups|
    ensures PlacedIn(p, at, c, p.groups[c], |p.groups[c]|) <= Placed(p, at, n)
  {
    if c < n - 1 {
      PlacedGrows(p, at, c, n - 1);
    }
  }

  lemma AllPlaced(p: Plan, id: string)
    ensures SettledPlan(p) && id in p.desired ==> id in Placed(p, map[], 6)
  {
    if SettledPlan(p) && id in p.desired {
      var c := p.desired[id].collection;
      var i :| 0 <= i < |p.groups[c]| && p.groups[c][i] == p.desired[id].rule;
      PlacedInAt(p, c, |p.groups[c]|, i);
      PlacedGrows(p, map[], c, 6);
    }
  }

  lemma {:induction false} NothingAppended(p: Plan, collection: nat, n: nat)
    requires SettledPlan(p) && n <= |p.ids|
    ensures Appended(p, Placed(p, map[], 6), collection, n) == []
  {
    if n > 0 {
      NothingAppended(p, collection, n - 1);
      AllPlaced(p, p.ids[n - 1]);
    }
  }

  lemma {:induction false} NothingChanged(p: Plan, adopted: set<string>, all: seq<string>, n: nat)
    requires p.current == p.desired && n <= |all|
    ensures ChangesUpTo(p, adopted, all, n) == []
  {
    if n > 0 {
      NothingChanged(p, adopted, all, n - 1);
    }
  }

  lemma NoNameless(p: Plan)
    ensures SettledPlan(p) ==> !HasNamelessRule(p)
  {
    if SettledPlan(p) {
      forall c: nat, i: nat | c < |p.groups| && i < |p.groups[c]| && p.groups[c][i].setId == Some(p.set_)
        ensures p.groups[c][i].ruleId.Some?
      {
        assert IsDesiredRule(p.groups[c][i], c, p.desired);
      }
    }
  }

  lemma StableGroups(p: Plan)
    requires SettledPlan(p) && (p.mode == Reject || RetiresNone(p, p.groups[WORKFLOWS]))
    ensures NewGroups(p, map[]) == p.groups && Retirements(p, map[], 6) == []
  {
    forall c: nat | c < 6
      ensures NewGroup(p, map[], c) == p.groups[c] && RetirementsIn(p, map[], c, p.groups[c], |p.groups[c]|) == []
    {
      BuiltSame(p, c, |p.groups[c]|);
      NothingAppended(p, c, |p.ids|);
      assert p.groups[c][..|p.groups[c]|] == p.groups[c];
    }
    NoRetirements(p, 6);
  }

  // With nothing to retire, merging again returns its input.
  lemma StableMerge(p: Plan, schema: nat, all: seq<string>)
    requires SettledPlan(p) && (p.mode == Reject || (RetiresNone(p, p.groups[WORKFLOWS]) && !RetirementAmbiguous(p)))
    ensures exists r :: && MergePlan(p, schema, all) == Done(r)
                        && r.policy == Policy(schema, None, p.groups) && r.changes == [] && r.retirements == []
  {
    hide Settled, Named, RetirementOf, RetirementAmbiguous, HasNamelessRule, NewGroups, Retirements;
    AdoptsNothing(p, |p.ids|);
    NoNameless(p);
    StableGroups(p);
    var none: map<Location, string> := map[];
    NothingChanged(p, none.Values, all, |all|);
    assert MergePlan(p, schema, all) == Done(MergePlan(p, schema, all).result);
  }

  lemma {:induction false} NoRetirements(p: Plan, n: nat)
    requires n <= |p.groups| && forall c: nat :: c < |p.groups| ==> RetirementsIn(p, map[], c, p.groups[c], |p.groups[c]|) == []
    ensures Retirements(p, map[], n) == []
  {
    if n > 0 {
      NoRetirements(p, n - 1);
    }
  }

  // A successful merge is the rebuild of the plan with the adoptions found.
  lemma MergedBy(current: Policy, desired: Policy, set_: string, mode: Mode) returns (at: map<Location, string>)
    requires |current.groups| == 6 && IsDesired(desired, set_) && Reconcile(current, desired, set_, mode).Done?
    ensures var p := PlanOf(current, desired, set_, mode);
            && WellFormed(p) && Named(set_, Entries(desired, set_)) && AdoptionOk(p, at)
            && Reconcile(current, desired, set_, mode).result.policy == Policy(current.schema, None, NewGroups(p, at))
            && (mode == Reject ==> at == map[]) && AdoptUpTo(p, |p.ids|) == Adopting(at)
  {
    hide Named, AdoptionOk, HasNamelessRule, RetirementAmbiguous, RetirementConflicts, NewGroups, Entries, SortedIds;
    var p := PlanOf(current, desired, set_, mode);
    PlanIsWellFormed(current, desired, set_);
    DesiredIsNamed(desired, set_);
    AdoptionIsOk(p, |p.ids|);
    at := AdoptUpTo(p, |p.ids|).at;
    if mode == Reject {
      RejectAdoptsNothing(p, |p.ids|);
    }
  }

  // Every successful merge settles its set.
  lemma ReconcileSettles(current: Policy, desired: Policy, set_: string, mode: Mode)
    requires |current.groups| == 6 && IsDesired(desired, set_) && Reconcile(current, desired, set_, mode).Done?
    ensures var after := Reconcile(current, desired, set_, mode).result.policy;
            && |after.groups| == 6 && after.quorum == None && after.schema == current.schema
            && Settled(after.groups, set_, Entries(desired, set_))
            && SettledPlan(PlanOf(after, desired, set_, mode))
  {
    hide Reconcile, Named, AdoptionOk, Settled, Entries, SortedIds, NewGroups;
    var p := PlanOf(current, desired, set_, mode);
    var at := MergedBy(current, desired, set_, mode);
    MergeSettles(p, at);
    var after := Reconcile(current, desired, set_, mode).result.policy;
    SettledEntries(after.groups, set_, Entries(desired, set_));
    SameEntries(after, set_);
    PlanIsWellFormed(after, desired, set_);
  }

  lemma SameEntries(policy: Policy, set_: string)
    ensures Entries(policy, set_) == EntriesUpTo(policy.groups, set_, |policy.groups|)
  {}

  // Rejecting adoption: the second merge returns the first one's policy.
  lemma RejectConverges(current: Policy, desired: Policy, set_: string)
    requires |current.groups| == 6 && IsDesired(desired, set_) && Reconcile(current, desired, set_, Reject).Done?
    ensures var first := Reconcile(current, desired, set_, Reject).result.policy;
            && |first.groups| == 6
            && Reconcile(first, desired, set_, Reject).Done?
            && Reconcile(first, desired, set_, Reject).result.policy == first
            && Reconcile(first, desired, set_, Reject).result.changes == []
            && Reconcile(first, desired, set_, Reject).result.retirements == []
  {
    ReconcileSettles(current, desired, set_, Reject);
    var first := Reconcile(current, desired, set_, Reject).result.policy;
    StableMerge(PlanOf(first, desired, set_, Reject), first.schema, BothIds(first, desired, set_));
  }

  // ----- adopting: one more merge retires what is covered -----

  // Which rules a plan would retire depends on its desired set alone.
  lemma {:induction false} SameMatches(p: Plan, q: Plan, rule: Rule, n: nat)
    requires p.desired == q.desired && p.ids == q.ids && n <= |p.ids|
    ensures MatchesUpTo(p, rule, n) == MatchesUpTo(q, rule, n)
  {
    if n > 0 {
      SameMatches(p, q, rule, n - 1);
    }
  }

  function CountRetired(p: Plan, rules: seq<Rule>, id: string): nat {
    if rules == [] then 0 else CountRetired(p, rules[..|rules| - 1], id) + (if Retires(p, id, rules[|rules| - 1]) then 1 else 0)
  }

  lemma {:induction false} LocationsCounted(p: Plan, rules: seq<Rule>, id: string, n: nat)
    requires n <= |rules|
    ensures |LocationsUpTo(p, rules, id, n)| == CountRetired(p, rules[..n], id)
  {
    if n > 0 {
      LocationsCounted(p, rules, id, n - 1);
      assert rules[..n][..n - 1] == rules[..n - 1];
    }
  }

  lemma {:induction false} CountConcat(p: Plan, a: seq<Rule>, b: seq<Rule>, id: string)
    ensures CountRetired(p, a + b, id) == CountRetired(p, a, id) + CountRetired(p, b, id)
  {
    hide Retires;
    if b == [] {
      assert a + b == a;
    } else {
      CountConcat(p, a, b[..|b| - 1], id);
      assert (a + b)[..|a + b| - 1] == a + b[..|b| - 1];
    }
  }

  lemma {:induction false} AppendedUncounted(p: Plan, placed: set<string>, collection: nat, n: nat, id: string)
    requires WellFormed(p) && Named(p.set_, p.desired) && n <= |p.ids|
    ensures CountRetired(p, Appended(p, placed, collection, n), id) == 0
  {
    if n > 0 {
      AppendedUncounted(p, placed, collection, n - 1, id);
      var last := p.ids[n - 1];
      if last !in placed && p.desired[last].collection == collection {
        CountConcat(p, Appended(p, placed, collection, n - 1), [p.desired[last].rule], id);
        assert CountRetired(p, [p.desired[last].rule], id) == 0;
      } else {
        assert Appended(p, placed, collection, n) == Appended(p, placed, collection, n - 1);
      }
    }
  }

  lemma {:induction false} BuiltCounts(p: Plan, at: map<Location, string>, collection: nat, rules: seq<Rule>, n: nat, id: string)
    requires WellFormed(p) && Named(p.set_, p.desired) && n <= |rules|
    ensures CountRetired(p, Built(p, at, collection, rules, n), id) <= CountRetired(p, rules[..n], id)
  {
    if n > 0 {
      BuiltCounts(p, at, collection, rules, n - 1, id);
      assert rules[..n][..n - 1] == rules[..n - 1];
      var fate := FateOf(p, at, collection, n - 1, rules[n - 1]);
      var front := Built(p, at, collection, rules, n - 1);
      if fate.Keep? {
        CountConcat(p, front, [rules[n - 1]], id);
        assert CountRetired(p, [rules[n - 1]], id) == if Retires(p, id, rules[n - 1]) then 1 else 0;
      } else if fate.Replace? && fate.id in p.desired {
        CountConcat(p, front, [p.desired[fate.id].rule], id);
        assert CountRetired(p, [p.desired[fate.id].rule], id) == 0;
      } else {
        assert Built(p, at, collection, rules, n) == front;
      }
    }
  }

  // A merge never makes more rules retirable.
  lemma LocationsShrink(p: Plan, at: map<Location, string>, q: Plan, id: string)
    requires WellFormed(p) && Named(p.set_, p.desired) && q.desired == p.desired && q.groups == NewGroups(p, at)
    ensures |RetiredLocations(q, id)| <= |RetiredLocations(p, id)|
  {
    var rules := p.groups[WORKFLOWS];
    LocationsCounted(p, rules, id, |rules|);
    LocationsCounted(q, q.groups[WORKFLOWS], id, |q.groups[WORKFLOWS]|);
    assert rules[..|rules|] == rules && q.groups[WORKFLOWS][..|q.groups[WORKFLOWS]|] == q.groups[WORKFLOWS];
    BuiltCounts(p, at, WORKFLOWS, rules, |rules|, id);
    AppendedUncounted(p, Placed(p, at, 6), WORKFLOWS, |p.ids|, id);
    CountConcat(p, Built(p, at, WORKFLOWS, rules, |rules|), Appended(p, Placed(p, at, 6), WORKFLOWS, |p.ids|), id);
    SameCount(p, q, q.groups[WORKFLOWS], id);
  }

  lemma {:induction false} SameCount(p: Plan, q: Plan, rules: seq<Rule>, id: string)
    requires p.desired == q.desired
    ensures CountRetired(p, rules, id) == CountRetired(q, rules, id)
  {
    if rules != [] {
      SameCount(p, q, rules[..|rules| - 1], id);
    }
  }

  lemma {:induction false} BuiltKept(p: Plan, at: map<Location, string>, collection: nat, rules: seq<Rule>, n: nat, i: nat) returns (j: nat)
    requires Named(p.set_, p.desired) && n <= |rules| && i < |Built(p, at, collection, rules, n)|
    requires Built(p, at, collection, rules, n)[i].setId.None?
    ensures j < n && rules[j] == Built(p, at, collection, rules, n)[i] && FateOf(p, at, collection, j, rules[j]).Keep?
  {
    if i < |Built(p, at, collection, rules, n - 1)| {
      j := BuiltKept(p, at, collection, rules, n - 1, i);
    } else {
      j := n - 1;
    }
  }

  // An unmanaged rule of the result was kept from the input.
  lemma NewGroupKept(p: Plan, at: map<Location, string>, collection: nat, i: nat) returns (j: nat)
    requires WellFormed(p) && Named(p.set_, p.desired) && collection < 6 && i < |NewGroup(p, at, collection)|
    requires NewGroup(p, at, collection)[i].setId.None?
    ensures j < |p.groups[collection]| && p.groups[collection][j] == NewGroup(p, at, collection)[i]
    ensures FateOf(p, at, collection, j, p.groups[collection][j]).Keep?
  {
    var built := Built(p, at, collection, p.groups[collection], |p.groups[collection]|);
    var appended := Appended(p, Placed(p, at, 6), collection, |p.ids|);
    AppendedIsDesired(p, Placed(p, at, 6), collection, |p.ids|);
    assert forall k :: 0 <= k < |appended| ==> appended[k] in appended;
    assert forall k :: |built| <= k < |built| + |appended| ==> NewGroup(p, at, collection)[k] == appended[k - |built|];
    j := BuiltKept(p, at, collection, p.groups[collection], |p.groups[collection]|, i);
  }

  lemma {:induction false} ManagedNeverRetired(p: Plan, rule: Rule, n: nat)
    requires n <= |p.ids| && rule.setId.Some?
    ensures MatchesUpTo(p, rule, n) == []
  {
    if n > 0 {
      ManagedNeverRetired(p, rule, n - 1);
    }
  }

  lemma {:induction false} MatchesRetire(p: Plan, rule: Rule, n: nat)
    requires n <= |p.ids|
    ensures forall id :: id in MatchesUpTo(p, rule, n) ==> id in p.ids && Retires(p, id, rule)
  {
    hide Retires;
    if n > 0 {
      MatchesRetire(p, rule, n - 1);
    }
  }

  lemma {:induction false} LocationCounts(p: Plan, rules: seq<Rule>, id: string, n: nat, i: nat)
    requires i < n <= |rules| && Retires(p, id, rules[i])
    ensures |LocationsUpTo(p, rules, id, n)| >= 1
  {
    hide Retires;
    if i < n - 1 {
      LocationCounts(p, rules, id, n - 1, i);
    }
  }

  // A rule kept by an unambiguous merge of a settled set matches nothing.
  lemma KeptMatchesNothing(q: Plan, at: map<Location, string>, j: nat)
    requires SettledPlan(q) && q.mode == AdoptMatching && !RetirementAmbiguous(q)
    requires j < |q.groups[WORKFLOWS]| && FateOf(q, at, WORKFLOWS, j, q.groups[WORKFLOWS][j]).Keep?
    ensures RetiredBy(q, q.groups[WORKFLOWS][j]) == []
  {
    var rule := q.groups[WORKFLOWS][j];
    var found := RetiredBy(q, rule);
    if found != [] {
      MatchesRetire(q, rule, |q.ids|);
      LocationCounts(q, q.groups[WORKFLOWS], found[0], |q.groups[WORKFLOWS]|, j);
    }
  }

  // A merge that kept to one match each leaves the next merge unambiguous.
  lemma StaysUnambiguous(p: Plan, at: map<Location, string>, q: Plan)
    requires WellFormed(p) && Named(p.set_, p.desired) && !RetirementAmbiguous(p)
    requires q.desired == p.desired && q.ids == p.ids && q.groups == NewGroups(p, at)
    ensures !RetirementAmbiguous(q)
  {
    forall i: nat | i < |Workflows(q)|
      ensures |RetiredBy(q, Workflows(q)[i])| <= 1
    {
      var rule := Workflows(q)[i];
      if rule.setId.Some? {
        ManagedNeverRetired(q, rule, |q.ids|);
      } else {
        var j := NewGroupKept(p, at, WORKFLOWS, i);
        assert Workflows(p)[j] == rule;
        SameMatches(p, q, rule, |p.ids|);
      }
    }
    forall id | id in q.ids
      ensures |RetiredLocations(q, id)| <= 1
    {
      LocationsShrink(p, at, q, id);
    }
  }

  lemma NothingLeftToRetire(q: Plan, t: Plan)
    requires SettledPlan(q) && q.mode == AdoptMatching && !RetirementAmbiguous(q)
    requires t.desired == q.desired && t.ids == q.ids && t.groups == NewGroups(q, map[])
    ensures RetiresNone(t, Workflows(t))
  {
    forall i: nat | i < |Workflows(t)|
      ensures RetirementOf(t, Workflows(t)[i]).None?
    {
      var rule := Workflows(t)[i];
      if rule.setId.Some? {
        ManagedNeverRetired(t, rule, |t.ids|);
      } else {
        var j := NewGroupKept(q, map[], WORKFLOWS, i);
        KeptMatchesNothing(q, map[], j);
        SameMatches(q, t, rule, |q.ids|);
      }
    }
  }

  // A second adopting merge of a settled, unambiguous policy succeeds.
  lemma SecondMergeSucceeds(q: Plan, schema: nat, all: seq<string>)
    requires SettledPlan(q) && q.mode == AdoptMatching && !RetirementAmbiguous(q)
    ensures exists r :: MergePlan(q, schema, all) == Done(r) && r.policy == Policy(schema, None, NewGroups(q, map[])) && r.changes == []
  {
    AdoptsNothing(q, |q.ids|);
    NoNameless(q);
    var none: map<Location, string> := map[];
    NothingChanged(q, none.Values, all, |all|);
    assert MergePlan(q, schema, all) == Done(MergePlan(q, schema, all).result);
  }

  // The policy after a merge that succeeds, and the old one otherwise.
  function After(current: Policy, desired: Policy, set_: string, mode: Mode): Policy
    requires |current.groups| == 6
  {
    var merge := Reconcile(current, desired, set_, mode);
    if merge.Done? then merge.result.policy else current
  }

  // Adopting: the second merge never fails, and the third returns its policy.
  lemma AdoptConverges(current: Policy, desired: Policy, set_: string)
    requires |current.groups| == 6 && IsDesired(desired, set_) && Reconcile(current, desired, set_, AdoptMatching).Done?
    ensures var first := After(current, desired, set_, AdoptMatching);
            && |first.groups| == 6
            && Reconcile(first, desired, set_, AdoptMatching).Done?
            && Reconcile(first, desired, set_, AdoptMatching).result.changes == []
            && |After(first, desired, set_, AdoptMatching).groups| == 6
    ensures var second := After(After(current, desired, set_, AdoptMatching), desired, set_, AdoptMatching);
            && Reconcile(second, desired, set_, AdoptMatching).Done?
            && After(second, desired, set_, AdoptMatching) == second
            && Reconcile(second, desired, set_, AdoptMatching).result.changes == []
            && Reconcile(second, desired, set_, AdoptMatching).result.retirements == []
  {
    var p := PlanOf(current, desired, set_, AdoptMatching);
    PlanIsWellFormed(current, desired, set_);
    DesiredIsNamed(desired, set_);
    ReconcileSettles(current, desired, set_, AdoptMatching);
    var first := Reconcile(current, desired, set_, AdoptMatching).result.policy;
    var q := PlanOf(first, desired, set_, AdoptMatching);
    StaysUnambiguous(p, AdoptUpTo(p, |p.ids|).at, q);
    SecondMergeSucceeds(q, first.schema, BothIds(first, desired, set_));
    ReconcileSettles(first, desired, set_, AdoptMatching);
    var second := Reconcile(first, desired, set_, AdoptMatching).result.policy;
    var t := PlanOf(second, desired, set_, AdoptMatching);
    StaysUnambiguous(q, map[], t);
    NothingLeftToRetire(q, t);
    StableMerge(t, second.schema, BothIds(second, desired, set_));
  }

  // ----- what a merge leaves alone -----

  // The rules of one managed set, or the unmanaged ones, in order.
  function Of(rules: seq<Rule>, owner: Option<string>): seq<Rule> {
    if rules == [] then []
    else Of(rules[..|rules| - 1], owner) + (if rules[|rules| - 1].setId == owner then [rules[|rules| - 1]] else [])
  }

  lemma {:induction false} OfConcat(a: seq<Rule>, b: seq<Rule>, owner: Option<string>)
    ensures Of(a + b, owner) == Of(a, owner) + Of(b, owner)
  {
    if b == [] {
      assert a + b == a;
    } else {
      OfConcat(a, b[..|b| - 1], owner);
      assert (a + b)[..|a + b| - 1] == a + b[..|b| - 1];
    }
  }

  lemma OfSnoc(rules: seq<Rule>, last: Rule, owner: Option<string>)
    ensures Of(rules + [last], owner) == Of(rules, owner) + (if last.setId == owner then [last] else [])
  {
    assert (rules + [last])[..|rules|] == rules;
  }

  lemma {:induction false} AppendedOf(p: Plan, placed: set<string>, collection: nat, n: nat, owner: Option<string>)
    requires WellFormed(p) && Named(p.set_, p.desired) && n <= |p.ids| && owner != Some(p.set_)
    ensures Of(Appended(p, placed, collection, n), owner) == []
  {
    if n > 0 {
      AppendedOf(p, placed, collection, n - 1, owner);
      var id := p.ids[n - 1];
      var front := Appended(p, placed, collection, n - 1);
      OfSnoc(front, p.desired[id].rule, owner);
      assert front + [] == front;
    }
  }

  // What one current rule becomes.
  function Becomes(p: Plan, at: map<Location, string>, collection: nat, index: nat, rule: Rule): seq<Rule> {
    var fate := FateOf(p, at, collection, index, rule);
    if fate.Keep? then [rule] else if fate.Replace? && fate.id in p.desired then [p.desired[fate.id].rule] else []
  }

  lemma BuiltSnoc(p: Plan, at: map<Location, string>, collection: nat, rules: seq<Rule>, n: nat)
    ensures 0 < n <= |rules| ==>
              Built(p, at, collection, rules, n) == Built(p, at, collection, rules, n - 1) + Becomes(p, at, collection, n - 1, rules[n - 1])
  {
    hide FateOf;
  }

  lemma {:induction false} BuiltOf(p: Plan, at: map<Location, string>, collection: nat, n: nat, owner: Option<string>)
    requires WellFormed(p) && Named(p.set_, p.desired) && AdoptionOk(p, at) && collection < 6 && n <= |p.groups[collection]|
    requires owner != Some(p.set_) && (owner.Some? || (at == map[] && p.mode == Reject))
    ensures Of(Built(p, at, collection, p.groups[collection], n), owner) == Of(p.groups[collection][..n], owner)
  {
    hide Becomes, AdoptionOk, Named, Of;
    if n > 0 {
      var rules := p.groups[collection];
      BuiltOf(p, at, collection, n - 1, owner);
      BuiltSnoc(p, at, collection, rules, n);
      hide Built;
      assert rules[..n] == rules[..n - 1] + [rules[n - 1]];
      OfConcat(rules[..n - 1], [rules[n - 1]], owner);
      OfConcat(Built(p, at, collection, rules, n - 1), Becomes(p, at, collection, n - 1, rules[n - 1]), owner);
      BecomesOf(p, at, collection, n - 1, owner);
    } else {
      assert p.groups[collection][..0] == [];
    }
  }

  // What a rule becomes belongs to another owner exactly as the rule did.
  lemma BecomesOf(p: Plan, at: map<Location, string>, collection: nat, i: nat, owner: Option<string>)
    requires WellFormed(p) && Named(p.set_, p.desired) && AdoptionOk(p, at) && collection < 6 && i < |p.groups[collection]|
    requires owner != Some(p.set_) && (owner.Some? || (at == map[] && p.mode == Reject))
    ensures Of(Becomes(p, at, collection, i, p.groups[collection][i]), owner) == Of([p.groups[collection][i]], owner)
  {
    hide RetirementOf;
    var rule := p.groups[collection][i];
    RetiredIsUnmanaged(p, rule);
    OfSnoc([], rule, owner);
    assert [] + [rule] == [rule];
    var became := Becomes(p, at, collection, i, rule);
    if became != [] {
      OfSnoc([], became[0], owner);
      assert became == [] + [became[0]];
    }
  }

  lemma RetiredIsUnmanaged(p: Plan, rule: Rule)
    ensures RetirementOf(p, rule).Some? ==> rule.setId.None?
  {
    if RetirementOf(p, rule).Some? {
      MatchesRetire(p, rule, |p.ids|);
      assert RetiredBy(p, rule)[0] in RetiredBy(p, rule);
    }
  }

  // A merge keeps every rule of every other set, in place and in order.
  lemma OtherSetsUntouched(current: Policy, desired: Policy, set_: string, mode: Mode, other: string, c: nat)
    requires |current.groups| == 6 && IsDesired(desired, set_) && Reconcile(current, desired, set_, mode).Done?
    requires other != set_ && c < 6
    ensures Of(Reconcile(current, desired, set_, mode).result.policy.groups[c], Some(other)) == Of(current.groups[c], Some(other))
  {
    hide Reconcile, Named, AdoptionOk, Entries, SortedIds, NewGroups;
    var at := MergedBy(current, desired, set_, mode);
    var p := PlanOf(current, desired, set_, mode);
    NewGroupOf(p, at, c, Some(other));
  }

  lemma NewGroupOf(p: Plan, at: map<Location, string>, c: nat, owner: Option<string>)
    requires WellFormed(p) && Named(p.set_, p.desired) && AdoptionOk(p, at) && c < 6
    requires owner != Some(p.set_) && (owner.Some? || (at == map[] && p.mode == Reject))
    ensures Of(NewGroups(p, at)[c], owner) == Of(p.groups[c], owner)
  {
    hide AdoptionOk, Named, Built, Appended, Placed, Of;
    BuiltOf(p, at, c, |p.groups[c]|, owner);
    AppendedOf(p, Placed(p, at, 6), c, |p.ids|, owner);
    assert p.groups[c][..|p.groups[c]|] == p.groups[c];
    OfConcat(Built(p, at, c, p.groups[c], |p.groups[c]|), Appended(p, Placed(p, at, 6), c, |p.ids|), owner);
  }

  lemma {:induction false} RejectAdoptsNothing(p: Plan, n: nat)
    requires WellFormed(p) && p.mode == Reject && n <= |p.ids| && AdoptUpTo(p, n).Adopting?
    ensures AdoptUpTo(p, n).at == map[]
  {
    if n > 0 {
      RejectAdoptsNothing(p, n - 1);
    }
  }

  // Rejecting adoption keeps every unmanaged rule as well.
  lemma RejectKeepsUnmanaged(current: Policy, desired: Policy, set_: string, c: nat)
    requires |current.groups| == 6 && IsDesired(desired, set_) && Reconcile(current, desired, set_, Reject).Done? && c < 6
    ensures Of(Reconcile(current, desired, set_, Reject).result.policy.groups[c], None) == Of(current.groups[c], None)
  {
    hide Reconcile, Named, AdoptionOk, Entries, SortedIds, NewGroups;
    var at := MergedBy(current, desired, set_, Reject);
    NewGroupOf(PlanOf(current, desired, set_, Reject), at, c, None);
  }
}
