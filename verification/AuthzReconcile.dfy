// Merging a desired managed rule set into a policy (`_reconcile_managed_policy`).
module AuthzReconcile {
  import opened Options
  import opened AuthzRules
  import opened StringOrder

  datatype Entry = Entry(collection: nat, rule: Rule)
  datatype Location = Location(collection: nat, index: nat)
  datatype Mode = Reject | AdoptMatching

  datatype Conflict = AmbiguousAdoption | NarrowingNeedsOverlap | AdoptionNotReviewed | AmbiguousIdentities
                    | AmbiguousRetirement | RetirementMeetsAdoption | MissingRuleId

  datatype ChangeKind = Added | Adopted | Removed | Updated
  datatype Change = Change(id: string, kind: ChangeKind, previous: Option<Entry>, desired: Option<Entry>)
  datatype Retirement = Retirement(ruleId: string, retired: Rule, retained: Rule)
  datatype Reconciled = Reconciled(policy: Policy, changes: seq<Change>, untouched: nat, candidates: nat,
                                   retirements: seq<Retirement>)
  datatype Outcome = Refused(why: Conflict) | Done(result: Reconciled)

  // ----- the managed rules of one set -----

  predicate IsManaged(rule: Rule, set_: string) { rule.setId == Some(set_) && rule.ruleId.Some? }

  function GroupEntries(collection: nat, rules: seq<Rule>, set_: string): map<string, Entry> {
    if rules == [] then map[]
    else
      var earlier := GroupEntries(collection, rules[..|rules| - 1], set_);
      var last := rules[|rules| - 1];
      if IsManaged(last, set_) then earlier[last.ruleId.value := Entry(collection, last)] else earlier
  }

  // `_managed_rules_by_id`, over the first `n` collections.
  function EntriesUpTo(groups: seq<seq<Rule>>, set_: string, n: nat): map<string, Entry>
    requires n <= |groups|
  {
    if n == 0 then map[] else EntriesUpTo(groups, set_, n - 1) + GroupEntries(n - 1, groups[n - 1], set_)
  }

  function Entries(policy: Policy, set_: string): map<string, Entry> {
    EntriesUpTo(policy.groups, set_, |policy.groups|)
  }

  function RuleIds(rules: seq<Rule>, set_: string): seq<string> {
    if rules == [] then []
    else (if IsManaged(rules[0], set_) then [rules[0].ruleId.value] else []) + RuleIds(rules[1..], set_)
  }

  function AllIds(groups: seq<seq<Rule>>, set_: string): seq<string> {
    if groups == [] then [] else RuleIds(groups[0], set_) + AllIds(groups[1..], set_)
  }

  // `sorted(managed_rules)`
  function SortedIds(policy: Policy, set_: string): seq<string> { SortedSet(AllIds(policy.groups, set_)) }

  // Everything the merge looks at.  `ids` are the sorted desired identities.
  datatype Plan = Plan(groups: seq<seq<Rule>>, set_: string, current: map<string, Entry>,
                       desired: map<string, Entry>, ids: seq<string>, mode: Mode)

  predicate WellFormed(p: Plan) { |p.groups| == 6 && (forall id :: id in p.ids ==> id in p.desired) && (forall id :: id in p.desired ==> id in p.ids) }

  // ----- adoption -----

  function CandidatesIn(collection: nat, rules: seq<Rule>, n: nat, desired: Rule): (found: seq<Location>)
    requires n <= |rules|
  {
    if n == 0 then []
    else CandidatesIn(collection, rules, n - 1, desired)
         + (if Adoptable(rules[n - 1], desired) then [Location(collection, n - 1)] else [])
  }

  function Candidates(groups: seq<seq<Rule>>, n: nat, desired: Rule): seq<Location>
    requires n <= |groups|
  {
    if n == 0 then [] else Candidates(groups, n - 1, desired) + CandidatesIn(n - 1, groups[n - 1], |groups[n - 1]|, desired)
  }

  predicate NarrowingBlocked(groups: seq<seq<Rule>>, desired: Rule) {
    exists c, i :: 0 <= c < |groups| && 0 <= i < |groups[c]| && BlocksNarrowing(groups[c][i], desired)
  }

  datatype Adoption = Adopting(at: map<Location, string>) | Conflicted(why: Conflict)

  function AdoptOne(p: Plan, at: map<Location, string>, id: string): Adoption
    requires id in p.desired
  {
    var desired := p.desired[id];
    if id in p.current then Adopting(at)
    else
      var found := Candidates(p.groups, |p.groups|, desired.rule);
      if |found| > 1 then Conflicted(AmbiguousAdoption)
      else if found == [] then
        if NarrowingBlocked(p.groups, desired.rule) then Conflicted(NarrowingNeedsOverlap) else Adopting(at)
      else if p.mode != AdoptMatching then Conflicted(AdoptionNotReviewed)
      else if found[0].collection != desired.collection || found[0] in at then Conflicted(AmbiguousIdentities)
      else Adopting(at[found[0] := id])
  }

  function AdoptUpTo(p: Plan, n: nat): Adoption
    requires WellFormed(p) && n <= |p.ids|
  {
    if n == 0 then Adopting(map[])
    else
      var earlier := AdoptUpTo(p, n - 1);
      if earlier.Conflicted? then earlier else AdoptOne(p, earlier.at, p.ids[n - 1])
  }

  // ----- retirement of covered unmanaged workflow rules -----

  predicate Retires(p: Plan, id: string, rule: Rule) {
    id in p.desired && p.desired[id].collection == WORKFLOWS && rule.setId.None? && Retirable(rule, p.desired[id].rule)
  }

  function MatchesUpTo(p: Plan, rule: Rule, n: nat): seq<string>
    requires n <= |p.ids|
  {
    if n == 0 then []
    else MatchesUpTo(p, rule, n - 1) + (if Retires(p, p.ids[n - 1], rule) then [p.ids[n - 1]] else [])
  }

  function RetiredBy(p: Plan, rule: Rule): seq<string> { MatchesUpTo(p, rule, |p.ids|) }

  function LocationsUpTo(p: Plan, rules: seq<Rule>, id: string, n: nat): seq<nat>
    requires n <= |rules|
  {
    if n == 0 then [] else LocationsUpTo(p, rules, id, n - 1) + (if Retires(p, id, rules[n - 1]) then [n - 1] else [])
  }

  function Workflows(p: Plan): seq<Rule> { if p.groups == [] then [] else p.groups[WORKFLOWS] }

  function RetiredLocations(p: Plan, id: string): seq<nat> { LocationsUpTo(p, Workflows(p), id, |Workflows(p)|) }

  predicate RetirementAmbiguous(p: Plan) {
    || (exists i :: 0 <= i < |Workflows(p)| && |RetiredBy(p, Workflows(p)[i])| > 1)
    || (exists id :: id in p.ids && |RetiredLocations(p, id)| > 1)
  }

  // The one desired rule that may retire this one, if it is already in place.
  function RetirementOf(p: Plan, rule: Rule): Option<string> {
    var found := RetiredBy(p, rule);
    if |found| == 1 && |RetiredLocations(p, found[0])| == 1 && found[0] in p.current && found[0] in p.desired
       && p.current[found[0]] == p.desired[found[0]]
    then Some(found[0]) else None
  }

  function CandidateCount(p: Plan, rules: seq<Rule>): nat {
    if rules == [] then 0 else CandidateCount(p, rules[..|rules| - 1]) + (if RetirementOf(p, rules[|rules| - 1]).Some? then 1 else 0)
  }

  predicate RetirementConflicts(p: Plan, at: map<Location, string>) {
    exists i :: 0 <= i < |Workflows(p)| && RetirementOf(p, Workflows(p)[i]).Some? && Location(WORKFLOWS, i) in at
  }

  // ----- rebuilding the collections -----

  // What becomes of one current rule: itself, a desired rule, or nothing.
  datatype Fate = Keep | Replace(id: string) | Retire(id: string) | Drop

  function FateOf(p: Plan, at: map<Location, string>, collection: nat, index: nat, rule: Rule): Fate {
    if rule.setId == Some(p.set_) then
      if rule.ruleId.Some? && rule.ruleId.value in p.desired && p.desired[rule.ruleId.value].collection == collection
      then Replace(rule.ruleId.value) else Drop
    else if Location(collection, index) in at then Replace(at[Location(collection, index)])
    else if p.mode == AdoptMatching && collection == WORKFLOWS && RetirementOf(p, rule).Some? then Retire(RetirementOf(p, rule).value)
    else Keep
  }

  function Built(p: Plan, at: map<Location, string>, collection: nat, rules: seq<Rule>, n: nat): seq<Rule>
    requires n <= |rules|
  {
    if n == 0 then []
    else
      var fate := FateOf(p, at, collection, n - 1, rules[n - 1]);
      Built(p, at, collection, rules, n - 1)
      + (if fate.Keep? then [rules[n - 1]] else if fate.Replace? && fate.id in p.desired then [p.desired[fate.id].rule] else [])
  }

  function PlacedIn(p: Plan, at: map<Location, string>, collection: nat, rules: seq<Rule>, n: nat): set<string>
    requires n <= |rules|
  {
    if n == 0 then {}
    else
      var fate := FateOf(p, at, collection, n - 1, rules[n - 1]);
      PlacedIn(p, at, collection, rules, n - 1) + (if fate.Replace? then {fate.id} else {})
  }

  function Placed(p: Plan, at: map<Location, string>, n: nat): set<string>
    requires n <= |p.groups|
  {
    if n == 0 then {} else Placed(p, at, n - 1) + PlacedIn(p, at, n - 1, p.groups[n - 1], |p.groups[n - 1]|)
  }

  function RetirementsIn(p: Plan, at: map<Location, string>, collection: nat, rules: seq<Rule>, n: nat): seq<Retirement>
    requires n <= |rules|
  {
    if n == 0 then []
    else
      var fate := FateOf(p, at, collection, n - 1, rules[n - 1]);
      RetirementsIn(p, at, collection, rules, n - 1)
      + (if fate.Retire? && fate.id in p.desired then [Retirement(fate.id, rules[n - 1], p.desired[fate.id].rule)] else [])
  }

  function Retirements(p: Plan, at: map<Location, string>, n: nat): seq<Retirement>
    requires n <= |p.groups|
  {
    if n == 0 then [] else Retirements(p, at, n - 1) + RetirementsIn(p, at, n - 1, p.groups[n - 1], |p.groups[n - 1]|)
  }

  // Desired rules that found no place are appended in identity order.
  function Appended(p: Plan, placed: set<string>, collection: nat, n: nat): seq<Rule>
    requires WellFormed(p) && n <= |p.ids|
  {
    if n == 0 then []
    else
      var id := p.ids[n - 1];
      Appended(p, placed, collection, n - 1)
      + (if id !in placed && p.desired[id].collection == collection then [p.desired[id].rule] else [])
  }

  function NewGroup(p: Plan, at: map<Location, string>, collection: nat): seq<Rule>
    requires WellFormed(p) && collection < 6
  {
    Built(p, at, collection, p.groups[collection], |p.groups[collection]|)
    + Appended(p, Placed(p, at, 6), collection, |p.ids|)
  }

  function NewGroups(p: Plan, at: map<Location, string>): (groups: seq<seq<Rule>>)
    requires WellFormed(p)
    ensures |groups| == 6 && forall c :: 0 <= c < 6 ==> groups[c] == NewGroup(p, at, c)
  {
    [NewGroup(p, at, 0), NewGroup(p, at, 1), NewGroup(p, at, 2), NewGroup(p, at, 3), NewGroup(p, at, 4), NewGroup(p, at, 5)]
  }

  predicate HasNamelessRule(p: Plan) {
    exists c, i :: 0 <= c < |p.groups| && 0 <= i < |p.groups[c]| && p.groups[c][i].setId == Some(p.set_) && p.groups[c][i].ruleId.None?
  }

  // ----- the change list -----

  function ChangeOf(p: Plan, adopted: set<string>, id: string): Option<Change> {
    var before := if id in p.current then Some(p.current[id]) else None;
    var after := if id in p.desired then Some(p.desired[id]) else None;
    if before == after then None
    else Some(Change(id, if before.None? then (if id in adopted then Adopted else Added)
                         else if after.None? then Removed else Updated, before, after))
  }

  function ChangesUpTo(p: Plan, adopted: set<string>, all: seq<string>, n: nat): seq<Change>
    requires n <= |all|
  {
    if n == 0 then []
    else
      var change := ChangeOf(p, adopted, all[n - 1]);
      ChangesUpTo(p, adopted, all, n - 1) + (if change.Some? then [change.value] else [])
  }

  // ----- the whole merge -----

  function PlanOf(current: Policy, desired: Policy, set_: string, mode: Mode): Plan {
    Plan(current.groups, set_, Entries(current, set_), Entries(desired, set_), SortedIds(desired, set_), mode)
  }

  function Merged(p: Plan, at: map<Location, string>, schema: nat, all: seq<string>): Reconciled
    requires WellFormed(p)
  {
    var changes := ChangesUpTo(p, at.Values, all, |all|);
    // Every other identity is unchanged; the quorum is set by the caller.
    Reconciled(Policy(schema, None, NewGroups(p, at)), changes, if |all| >= |changes| then |all| - |changes| else 0,
               CandidateCount(p, Workflows(p)), Retirements(p, at, 6))
  }

  function MergePlan(p: Plan, schema: nat, all: seq<string>): Outcome
    requires WellFormed(p)
  {
    var adoption := AdoptUpTo(p, |p.ids|);
    if adoption.Conflicted? then Refused(adoption.why)
    else if p.mode == AdoptMatching && RetirementAmbiguous(p) then Refused(AmbiguousRetirement)
    else if p.mode == AdoptMatching && RetirementConflicts(p, adoption.at) then Refused(RetirementMeetsAdoption)
    else if HasNamelessRule(p) then Refused(MissingRuleId)
    else Done(Merged(p, adoption.at, schema, all))
  }

  lemma {:induction false} IdsOfGroup(collection: nat, rules: seq<Rule>, set_: string)
    ensures forall id :: id in RuleIds(rules, set_) <==> id in GroupEntries(collection, rules, set_)
  {
    if rules != [] {
      var last := rules[|rules| - 1];
      IdsOfGroup(collection, rules[..|rules| - 1], set_);
      RuleIdsSnoc(rules[..|rules| - 1], last, set_);
      assert rules == rules[..|rules| - 1] + [last];
    }
  }

  lemma {:induction false} RuleIdsSnoc(rules: seq<Rule>, last: Rule, set_: string)
    ensures RuleIds(rules + [last], set_) == RuleIds(rules, set_) + RuleIds([last], set_)
  {
    if rules != [] {
      assert (rules + [last])[1..] == rules[1..] + [last];
      RuleIdsSnoc(rules[1..], last, set_);
    } else {
      assert rules + [last] == [last];
    }
  }

  lemma {:induction false} IdsAreKeys(groups: seq<seq<Rule>>, set_: string)
    ensures forall id :: id in AllIds(groups, set_) <==> id in EntriesUpTo(groups, set_, |groups|)
  {
    forall id
      ensures id in AllIds(groups, set_) <==> id in EntriesUpTo(groups, set_, |groups|)
    {
      IdsMeet(groups, set_, |groups|, id);
      assert groups[..|groups|] == groups;
    }
  }

  lemma {:induction false} IdsMeet(groups: seq<seq<Rule>>, set_: string, n: nat, id: string)
    requires n <= |groups|
    ensures id in AllIds(groups[..n], set_) <==> id in EntriesUpTo(groups, set_, n)
  {
    if n > 0 {
      IdsMeet(groups, set_, n - 1, id);
      IdsOfGroup(n - 1, groups[n - 1], set_);
      assert groups[..n] == groups[..n - 1] + [groups[n - 1]];
      AllIdsSnoc(groups[..n - 1], groups[n - 1], set_);
    }
  }

  lemma {:induction false} AllIdsSnoc(groups: seq<seq<Rule>>, last: seq<Rule>, set_: string)
    ensures AllIds(groups + [last], set_) == AllIds(groups, set_) + RuleIds(last, set_)
  {
    if groups != [] {
      assert (groups + [last])[1..] == groups[1..] + [last];
      AllIdsSnoc(groups[1..], last, set_);
    } else {
      assert groups + [last] == [last];
    }
  }

  lemma PlanIsWellFormed(current: Policy, desired: Policy, set_: string)
    ensures |current.groups| == 6 ==> forall mode :: WellFormed(PlanOf(current, desired, set_, mode))
  {
    if |current.groups| == 6 {
      IdsAreKeys(desired.groups, set_);
    }
  }

  // All identities of either side, sorted.
  function BothIds(current: Policy, desired: Policy, set_: string): seq<string> {
    SortedSet(AllIds(current.groups, set_) + AllIds(desired.groups, set_))
  }

  function Reconcile(current: Policy, desired: Policy, set_: string, mode: Mode): Outcome
    requires |current.groups| == 6
  {
    PlanIsWellFormed(current, desired, set_);
    MergePlan(PlanOf(current, desired, set_, mode), current.schema, BothIds(current, desired, set_))
  }
}
