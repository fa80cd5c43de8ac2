// `_reconcile_managed_policy` as the program runs it: loops that fill maps and
// lists.  Its result is the merge of `AuthzReconcile`.
module AuthzMerge {
  import opened Options
  import opened AuthzRules
  import opened StringOrder
  import opened AuthzReconcile

  // ----- sorted identities do not repeat -----

  predicate NoRepeat(s: seq<string>) { forall i, j :: 0 <= i < j < |s| ==> s[i] != s[j] }

  lemma SortedSetNoRepeat(values: seq<string>)
    ensures NoRepeat(SortedSet(values))
  {
    var s := SortedSet(values);
    SortedSetIsSorted(values);
    forall i, j | 0 <= i < j < |s|
      ensures s[i] != s[j]
    {
      NotBoth(s[i], s[j]);
    }
  }

  lemma {:induction false} MatchesNoRepeat(p: Plan, rule: Rule, n: nat)
    requires NoRepeat(p.ids) && n <= |p.ids|
    ensures NoRepeat(MatchesUpTo(p, rule, n))
    ensures forall id :: id in MatchesUpTo(p, rule, n) <==> id in p.ids[..n] && Retires(p, id, rule)
  {
    hide Retires;
    if n > 0 {
      MatchesNoRepeat(p, rule, n - 1);
      assert p.ids[..n] == p.ids[..n - 1] + [p.ids[n - 1]];
    }
  }

  // ----- the stages -----

  // `_managed_rules_by_id`
  method ManagedRulesById(policy: Policy, set_: string) returns (managed: map<string, Entry>)
    ensures managed == Entries(policy, set_)
  {
    managed := map[];
    for c := 0 to |policy.groups|
      invariant managed == EntriesUpTo(policy.groups, set_, c)
    {
      var rules := policy.groups[c];
      ghost var earlier := managed;
      assert rules[..0] == [];
      for i := 0 to |rules|
        invariant managed == earlier + GroupEntries(c, rules[..i], set_)
      {
        assert rules[..i + 1][..i] == rules[..i];
        if IsManaged(rules[i], set_) {
          managed := managed[rules[i].ruleId.value := Entry(c, rules[i])];
        }
      }
      assert rules[..|rules|] == rules;
    }
  }

  method Adopt(p: Plan) returns (adoption: Adoption)
    requires WellFormed(p)
    ensures adoption == AdoptUpTo(p, |p.ids|)
  {
    hide Adoptable, BlocksNarrowing, NarrowingBlocked;
    var at: map<Location, string> := map[];
    for n := 0 to |p.ids|
      invariant AdoptUpTo(p, n) == Adopting(at)
    {
      var id := p.ids[n];
      var desired := p.desired[id];
      if id in p.current {
        continue;
      }
      var found := Candidates(p.groups, |p.groups|, desired.rule);
      if |found| > 1 {
        AdoptionStops(p, n + 1);
        return Conflicted(AmbiguousAdoption);
      }
      if found == [] {
        if NarrowingBlocked(p.groups, desired.rule) {
          AdoptionStops(p, n + 1);
          return Conflicted(NarrowingNeedsOverlap);
        }
        continue;
      }
      if p.mode != AdoptMatching {
        AdoptionStops(p, n + 1);
        return Conflicted(AdoptionNotReviewed);
      }
      if found[0].collection != desired.collection || found[0] in at {
        AdoptionStops(p, n + 1);
        return Conflicted(AmbiguousIdentities);
      }
      at := at[found[0] := id];
    }
    return Adopting(at);
  }

  lemma {:induction false} AdoptionStops(p: Plan, n: nat)
    requires WellFormed(p) && n <= |p.ids| && AdoptUpTo(p, n).Conflicted?
    ensures AdoptUpTo(p, |p.ids|) == AdoptUpTo(p, n)
    decreases |p.ids| - n
  {
    if n < |p.ids| {
      AdoptionStops(p, n + 1);
    }
  }

  function Located(locationsOf: map<string, seq<nat>>, id: string): seq<nat> {
    if id in locationsOf then locationsOf[id] else []
  }

  method NoteLocation(before: map<string, seq<nat>>, matching: seq<string>, i: nat) returns (locationsOf: map<string, seq<nat>>)
    requires NoRepeat(matching)
    ensures forall id :: id in locationsOf <==> id in before || id in matching
    ensures forall id :: Located(locationsOf, id) == Located(before, id) + (if id in matching then [i] else [])
  {
    locationsOf := before;
    for k := 0 to |matching|
      invariant forall id :: id in locationsOf <==> id in before || id in matching[..k]
      invariant forall id :: Located(locationsOf, id) == Located(before, id) + (if id in matching[..k] then [i] else [])
    {
      var id := matching[k];
      assert id !in matching[..k];
      assert matching[..k + 1] == matching[..k] + [id];
      locationsOf := locationsOf[id := Located(locationsOf, id) + [i]];
    }
    assert matching[..|matching|] == matching;
  }

  // The desired rules each workflow rule could be retired by (none, usually),
  // and the places of each desired rule's matches.
  method FindRetirements(p: Plan) returns (matchesAt: seq<seq<string>>, locationsOf: map<string, seq<nat>>)
    requires WellFormed(p) && NoRepeat(p.ids)
    ensures |matchesAt| == |Workflows(p)| && forall i :: 0 <= i < |matchesAt| ==> matchesAt[i] == RetiredBy(p, Workflows(p)[i])
    ensures forall id :: id in p.ids ==> Located(locationsOf, id) == RetiredLocations(p, id)
    ensures forall id :: id in locationsOf ==> id in p.ids
  {
    hide Retires, RetiredBy, WellFormed, NoRepeat, Workflows;
    matchesAt, locationsOf := [], map[];
    var rules := Workflows(p);
    for i := 0 to |rules|
      invariant |matchesAt| == i && forall j :: 0 <= j < i ==> matchesAt[j] == RetiredBy(p, rules[j])
      invariant forall id :: id in p.ids ==> Located(locationsOf, id) == LocationsUpTo(p, rules, id, i)
      invariant forall id :: id in locationsOf ==> id in p.ids
    {
      var matching := RetiredBy(p, rules[i]);
      RetiredByIds(p, rules[i]);
      matchesAt := matchesAt + [matching];
      locationsOf := NoteLocation(locationsOf, matching, i);
    }
  }

  lemma RetiredByIds(p: Plan, rule: Rule)
    requires NoRepeat(p.ids)
    ensures NoRepeat(RetiredBy(p, rule))
    ensures forall id :: id in RetiredBy(p, rule) <==> id in p.ids && Retires(p, id, rule)
  {
    MatchesNoRepeat(p, rule, |p.ids|);
    assert p.ids[..|p.ids|] == p.ids;
  }

  // The rules that exactly one desired rule, already in place, retires.
  method FindCandidates(p: Plan, matchesAt: seq<seq<string>>, locationsOf: map<string, seq<nat>>)
    returns (retire: seq<Option<string>>, candidates: nat)
    requires WellFormed(p) && NoRepeat(p.ids)
    requires |matchesAt| == |Workflows(p)| && forall i :: 0 <= i < |matchesAt| ==> matchesAt[i] == RetiredBy(p, Workflows(p)[i])
    requires forall id :: id in p.ids ==> Located(locationsOf, id) == RetiredLocations(p, id)
    ensures |retire| == |Workflows(p)| && forall i :: 0 <= i < |retire| ==> retire[i] == RetirementOf(p, Workflows(p)[i])
    ensures candidates == CandidateCount(p, Workflows(p))
  {
    hide RetiredBy, RetiredLocations, RetirementOf, Retires, Located, CandidateCount, WellFormed, NoRepeat, Workflows;
    retire, candidates := [], 0;
    var rules := Workflows(p);
    NoCandidates(p, rules);
    for i := 0 to |rules|
      invariant |retire| == i && forall j :: 0 <= j < i ==> retire[j] == RetirementOf(p, rules[j])
      invariant candidates == CandidateCount(p, rules[..i])
    {
      MoreCandidates(p, rules, i);
      OneCandidate(p, rules[i], locationsOf);
      var one: Option<string> := None;
      if |matchesAt[i]| == 1 {
        var id := matchesAt[i][0];
        if |Located(locationsOf, id)| == 1 && id in p.current && p.current[id] == p.desired[id] {
          one := Some(id);
          candidates := candidates + 1;
        }
      }
      retire := retire + [one];
    }
    assert rules[..|rules|] == rules;
  }

  lemma NoCandidates(p: Plan, rules: seq<Rule>)
    ensures CandidateCount(p, rules[..0]) == 0
  {}

  lemma MoreCandidates(p: Plan, rules: seq<Rule>, i: nat)
    ensures i < |rules| ==>
              CandidateCount(p, rules[..i + 1]) == CandidateCount(p, rules[..i]) + (if RetirementOf(p, rules[i]).Some? then 1 else 0)
  {
    hide RetirementOf;
    if i < |rules| {
      assert rules[..i + 1][..i] == rules[..i];
    }
  }

  lemma OneCandidate(p: Plan, rule: Rule, locationsOf: map<string, seq<nat>>)
    requires WellFormed(p) && NoRepeat(p.ids)
    requires forall id :: id in p.ids ==> Located(locationsOf, id) == RetiredLocations(p, id)
    ensures var found := RetiredBy(p, rule);
            && (found != [] ==> found[0] in p.desired)
            && RetirementOf(p, rule) ==
               if |found| == 1 && |Located(locationsOf, found[0])| == 1 && found[0] in p.current && p.current[found[0]] == p.desired[found[0]]
               then Some(found[0]) else None
  {
    hide RetiredBy, RetiredLocations, Retires;
    RetiredByIds(p, rule);
    var found := RetiredBy(p, rule);
    if found != [] {
      assert found[0] in found;
    }
  }

  // One collection, rule by rule.
  method RebuildGroup(p: Plan, at: map<Location, string>, retire: seq<Option<string>>, c: nat)
    returns (built: seq<Rule>, placed: set<string>, retirements: seq<Retirement>)
    requires WellFormed(p) && c < 6
    requires forall l :: l in at ==> at[l] in p.desired
    requires |retire| == |Workflows(p)| && forall i :: 0 <= i < |retire| ==> retire[i] == RetirementOf(p, Workflows(p)[i])
    ensures built == Built(p, at, c, p.groups[c], |p.groups[c]|)
    ensures placed == PlacedIn(p, at, c, p.groups[c], |p.groups[c]|)
    ensures retirements == RetirementsIn(p, at, c, p.groups[c], |p.groups[c]|)
  {
    hide RetirementOf;
    built, placed, retirements := [], {}, [];
    var rules := p.groups[c];
    for i := 0 to |rules|
      invariant built == Built(p, at, c, rules, i)
      invariant placed == PlacedIn(p, at, c, rules, i)
      invariant retirements == RetirementsIn(p, at, c, rules, i)
    {
      var rule := rules[i];
      if rule.setId == Some(p.set_) {
        if rule.ruleId.Some? && rule.ruleId.value in p.desired && p.desired[rule.ruleId.value].collection == c {
          built := built + [p.desired[rule.ruleId.value].rule];
          placed := placed + {rule.ruleId.value};
        }
        continue;
      }
      if Location(c, i) in at {
        built := built + [p.desired[at[Location(c, i)]].rule];
        placed := placed + {at[Location(c, i)]};
        continue;
      }
      if p.mode == AdoptMatching && c == WORKFLOWS && retire[i].Some? {
        RetirementIsDesired(p, rule);
        retirements := retirements + [Retirement(retire[i].value, rule, p.desired[retire[i].value].rule)];
        continue;
      }
      built := built + [rule];
    }
  }

  lemma RetirementIsDesired(p: Plan, rule: Rule)
    ensures RetirementOf(p, rule).Some? ==> RetirementOf(p, rule).value in p.desired
  {}

  method ListChanges(p: Plan, adopted: set<string>, all: seq<string>) returns (changes: seq<Change>, untouched: nat)
    requires forall id :: id in all ==> id in p.current || id in p.desired
    ensures changes == ChangesUpTo(p, adopted, all, |all|)
    ensures untouched + |changes| == |all|
  {
    changes, untouched := [], 0;
    for n := 0 to |all|
      invariant changes == ChangesUpTo(p, adopted, all, n)
      invariant untouched + |changes| == n
    {
      var id := all[n];
      assert id in all;
      if id !in p.current {
        changes := changes + [Change(id, if id in adopted then Adopted else Added, None, Some(p.desired[id]))];
        continue;
      }
      if id !in p.desired {
        changes := changes + [Change(id, Removed, Some(p.current[id]), None)];
        continue;
      }
      if p.current[id] == p.desired[id] {
        untouched := untouched + 1;
        continue;
      }
      changes := changes + [Change(id, Updated, Some(p.current[id]), Some(p.desired[id]))];
    }
  }

  method RebuildAll(p: Plan, at: map<Location, string>, retire: seq<Option<string>>)
    returns (groups: seq<seq<Rule>>, retirements: seq<Retirement>)
    requires WellFormed(p)
    requires forall l :: l in at ==> at[l] in p.desired
    requires |retire| == |Workflows(p)| && forall i :: 0 <= i < |retire| ==> retire[i] == RetirementOf(p, Workflows(p)[i])
    ensures groups == NewGroups(p, at)
    ensures retirements == Retirements(p, at, 6)
  {
    hide Built, PlacedIn, RetirementsIn, RetirementOf;
    groups, retirements := [], [];
    var placed: set<string> := {};
    for c := 0 to 6
      invariant |groups| == c && forall k: nat :: k < c ==> groups[k] == Built(p, at, k, p.groups[k], |p.groups[k]|)
      invariant placed == Placed(p, at, c)
      invariant retirements == Retirements(p, at, c)
    {
      var built, here, gone := RebuildGroup(p, at, retire, c);
      groups := groups + [built];
      placed := placed + here;
      retirements := retirements + gone;
    }
    for n := 0 to |p.ids|
      invariant |groups| == 6
      invariant forall k: nat :: k < 6 ==> groups[k] == Built(p, at, k, p.groups[k], |p.groups[k]|) + Appended(p, placed, k, n)
    {
      var id := p.ids[n];
      if id in placed {
        continue;
      }
      var c := p.desired[id].collection;
      if c < 6 {
        groups := groups[c := groups[c] + [p.desired[id].rule]];
      }
    }
  }

  // Which workflow rules the merge retires, or why it may not retire any.
  method DecideRetirements(p: Plan, at: map<Location, string>)
    returns (why: Option<Conflict>, retire: seq<Option<string>>, candidates: nat)
    requires WellFormed(p) && NoRepeat(p.ids)
    ensures candidates == CandidateCount(p, Workflows(p))
    ensures why == if p.mode == AdoptMatching && RetirementAmbiguous(p) then Some(AmbiguousRetirement)
                   else if p.mode == AdoptMatching && RetirementConflicts(p, at) then Some(RetirementMeetsAdoption)
                   else None
    ensures |retire| == |Workflows(p)| && forall i :: 0 <= i < |retire| ==> retire[i] == RetirementOf(p, Workflows(p)[i])
  {
    hide RetirementOf, CandidateCount, RetirementAmbiguous, RetiredBy, RetiredLocations;
    var matchesAt, locationsOf := FindRetirements(p);
    retire, candidates := FindCandidates(p, matchesAt, locationsOf);
    why := None;
    if p.mode == AdoptMatching {
      AmbiguityFound(p, matchesAt, locationsOf);
      if (exists i :: 0 <= i < |matchesAt| && |matchesAt[i]| > 1) || (exists id :: id in locationsOf && |locationsOf[id]| > 1) {
        why := Some(AmbiguousRetirement);
      } else if exists i :: 0 <= i < |retire| && retire[i].Some? && Location(WORKFLOWS, i) in at {
        why := Some(RetirementMeetsAdoption);
      }
    }
  }

  method ReconcileManagedPolicy(current: Policy, desired: Policy, set_: string, mode: Mode) returns (outcome: Outcome)
    requires |current.groups| == 6
    ensures outcome == Reconcile(current, desired, set_, mode)
  {
    hide RetirementOf, NewGroups, ChangesUpTo, Retirements, Entries, CandidateCount, AdoptUpTo, SortedIds, BothIds,
         RetirementAmbiguous, RetirementConflicts, HasNamelessRule, NoRepeat, Workflows;
    var currentRules := ManagedRulesById(current, set_);
    var desiredRules := ManagedRulesById(desired, set_);
    var p := Plan(current.groups, set_, currentRules, desiredRules, SortedIds(desired, set_), mode);
    PlanIsWellFormed(current, desired, set_);
    assert p == PlanOf(current, desired, set_, mode);
    IdsNoRepeat(desired, set_);
    var adoption := Adopt(p);
    if adoption.Conflicted? {
      return Refused(adoption.why);
    }
    AdoptedAreDesired(p, |p.ids|);
    var why, retire, candidates := DecideRetirements(p, adoption.at);
    if why.Some? {
      return Refused(why.value);
    }
    if HasNamelessRule(p) {
      return Refused(MissingRuleId);
    }
    var groups, retirements := RebuildAll(p, adoption.at, retire);
    var all := BothIds(current, desired, set_);
    BothIdsKnown(current, desired, set_);
    var changes, untouched := ListChanges(p, adoption.at.Values, all);
    return Done(Reconciled(Policy(current.schema, None, groups), changes, untouched, candidates, retirements));
  }

  lemma IdsNoRepeat(desired: Policy, set_: string)
    ensures NoRepeat(SortedIds(desired, set_))
  {
    SortedSetNoRepeat(AllIds(desired.groups, set_));
  }

  lemma {:induction false} AdoptedAreDesired(p: Plan, n: nat)
    requires WellFormed(p) && n <= |p.ids| && AdoptUpTo(p, n).Adopting?
    ensures forall l :: l in AdoptUpTo(p, n).at ==> AdoptUpTo(p, n).at[l] in p.desired
  {
    if n > 0 {
      AdoptedAreDesired(p, n - 1);
    }
  }

  lemma AmbiguityFound(p: Plan, matchesAt: seq<seq<string>>, locationsOf: map<string, seq<nat>>)
    requires |matchesAt| == |Workflows(p)| && forall i :: 0 <= i < |matchesAt| ==> matchesAt[i] == RetiredBy(p, Workflows(p)[i])
    requires forall id :: id in p.ids ==> Located(locationsOf, id) == RetiredLocations(p, id)
    requires forall id :: id in locationsOf ==> id in p.ids
    ensures RetirementAmbiguous(p) <==>
            (exists i :: 0 <= i < |matchesAt| && |matchesAt[i]| > 1) || (exists id :: id in locationsOf && |locationsOf[id]| > 1)
  {
    hide RetiredBy, RetiredLocations;
    if RetirementAmbiguous(p) {
      if i :| 0 <= i < |Workflows(p)| && |RetiredBy(p, Workflows(p)[i])| > 1 {
        assert |matchesAt[i]| > 1;
      } else {
        var id :| id in p.ids && |RetiredLocations(p, id)| > 1;
        assert Located(locationsOf, id) == RetiredLocations(p, id);
      }
    }
    if id :| id in locationsOf && |locationsOf[id]| > 1 {
      assert Located(locationsOf, id) == RetiredLocations(p, id);
    }
  }

  lemma BothIdsKnown(current: Policy, desired: Policy, set_: string)
    ensures forall id :: id in BothIds(current, desired, set_) ==> id in Entries(current, set_) || id in Entries(desired, set_)
  {
    IdsAreKeys(current.groups, set_);
    IdsAreKeys(desired.groups, set_);
  }
}
