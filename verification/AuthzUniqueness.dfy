// A merge leaves every managed identity of the policy in at most one place,
// and every desired one in exactly one.
module AuthzUniqueness {
  import opened Options
  import opened AuthzRules
  import opened AuthzReconcile
  import opened AuthzConvergence
  import opened StringOrder

  predicate HasIdentity(rule: Rule, set_: string, id: string) { rule.setId == Some(set_) && rule.ruleId == Some(id) }

  function CountIn(rules: seq<Rule>, set_: string, id: string): nat {
    if rules == [] then 0
    else CountIn(rules[..|rules| - 1], set_, id) + (if HasIdentity(rules[|rules| - 1], set_, id) then 1 else 0)
  }

  function Count(groups: seq<seq<Rule>>, set_: string, id: string, n: nat): nat
    requires n <= |groups|
  {
    if n == 0 then 0 else Count(groups, set_, id, n - 1) + CountIn(groups[n - 1], set_, id)
  }

  ghost predicate Unique(groups: seq<seq<Rule>>) { forall set_, id :: Count(groups, set_, id, |groups|) <= 1 }

  lemma CountSnoc(rules: seq<Rule>, last: Rule, set_: string, id: string)
    ensures CountIn(rules + [last], set_, id) == CountIn(rules, set_, id) + (if HasIdentity(last, set_, id) then 1 else 0)
  {
    assert (rules + [last])[..|rules|] == rules;
  }

  lemma {:induction false} CountJoin(a: seq<Rule>, b: seq<Rule>, set_: string, id: string)
    ensures CountIn(a + b, set_, id) == CountIn(a, set_, id) + CountIn(b, set_, id)
  {
    if b == [] {
      assert a + b == a;
    } else {
      CountJoin(a, b[..|b| - 1], set_, id);
      CountSnoc(a + b[..|b| - 1], b[|b| - 1], set_, id);
      assert a + b == a + b[..|b| - 1] + [b[|b| - 1]];
    }
  }

  // ----- every desired identity is adopted at most once -----

  ghost predicate Injective(at: map<Location, string>) { forall k, l :: k in at && l in at && at[k] == at[l] ==> k == l }

  lemma {:induction false} AdoptedAreEarlier(p: Plan, n: nat)
    requires WellFormed(p) && n <= |p.ids| && IsSorted(p.ids) && AdoptUpTo(p, n).Adopting?
    ensures forall l :: l in AdoptUpTo(p, n).at ==> exists k :: 0 <= k < n && p.ids[k] == AdoptUpTo(p, n).at[l]
    ensures Injective(AdoptUpTo(p, n).at)
  {
    hide Candidates, NarrowingBlocked, IsSorted;
    if n > 0 {
      AdoptedAreEarlier(p, n - 1);
      SortedDistinct(p.ids, n - 1);
      forall k | 0 <= k < n - 1
        ensures p.ids[k] != p.ids[n - 1]
      {
        assert p.ids[k] == p.ids[..n - 1][k];
      }
    }
  }

  // ----- one collection -----

  // Locations among the first n of a collection that were adopted as id.
  function AdoptedIn(at: map<Location, string>, collection: nat, n: nat, id: string): nat {
    if n == 0 then 0
    else AdoptedIn(at, collection, n - 1, id)
         + (if Location(collection, n - 1) in at && at[Location(collection, n - 1)] == id then 1 else 0)
  }

  function Adopted(p: Plan, at: map<Location, string>, id: string, n: nat): nat
    requires n <= |p.groups|
  {
    if n == 0 then 0 else Adopted(p, at, id, n - 1) + AdoptedIn(at, n - 1, |p.groups[n - 1]|, id)
  }

  lemma BecomesCount(p: Plan, at: map<Location, string>, c: nat, i: nat, rule: Rule, id: string)
    requires Named(p.set_, p.desired) && AdoptionOk(p, at) && c < |p.groups| && i < |p.groups[c]| && p.groups[c][i] == rule
    ensures CountIn(Becomes(p, at, c, i, rule), p.set_, id) <=
            (if HasIdentity(rule, p.set_, id) then 1 else 0) + (if Location(c, i) in at && at[Location(c, i)] == id then 1 else 0)
    ensures FateOf(p, at, c, i, rule) != Replace(id) ==> CountIn(Becomes(p, at, c, i, rule), p.set_, id) == 0
  {
    hide RetirementOf;
    var became := Becomes(p, at, c, i, rule);
    if became != [] {
      CountSnoc([], became[0], p.set_, id);
      assert became == [] + [became[0]];
    }
  }

  lemma {:induction false} BuiltCount(p: Plan, at: map<Location, string>, c: nat, n: nat, id: string)
    requires WellFormed(p) && Named(p.set_, p.desired) && AdoptionOk(p, at) && c < 6 && n <= |p.groups[c]|
    ensures CountIn(Built(p, at, c, p.groups[c], n), p.set_, id) <=
            if id in PlacedIn(p, at, c, p.groups[c], n) then CountIn(p.groups[c][..n], p.set_, id) + AdoptedIn(at, c, n, id) else 0
  {
    hide FateOf, Named, AdoptionOk, HasIdentity, CountIn;
    if n == 0 {
      NoRules(p.set_, id);
    } else {
      BuiltCount(p, at, c, n - 1, id);
      BuiltSnoc(p, at, c, p.groups[c], n);
      var rule := p.groups[c][n - 1];
      assert p.groups[c][..n] == p.groups[c][..n - 1] + [rule];
      CountSnoc(p.groups[c][..n - 1], rule, p.set_, id);
      CountJoin(Built(p, at, c, p.groups[c], n - 1), Becomes(p, at, c, n - 1, rule), p.set_, id);
      BecomesCount(p, at, c, n - 1, rule, id);
    }
  }

  lemma NoRules(set_: string, id: string)
    ensures CountIn([], set_, id) == 0
  {}

  lemma SortedDistinct(ids: seq<string>, n: nat)
    ensures IsSorted(ids) && n < |ids| ==> ids[n] !in ids[..n] && ids[..n + 1] == ids[..n] + [ids[n]]
  {
    if IsSorted(ids) && n < |ids| {
      forall k | 0 <= k < n
        ensures ids[k] != ids[n]
      {
        NotBoth(ids[k], ids[n]);
      }
    }
  }

  lemma {:induction false} AppendedCount(p: Plan, placed: set<string>, c: nat, n: nat, id: string)
    requires WellFormed(p) && Named(p.set_, p.desired) && IsSorted(p.ids) && n <= |p.ids|
    ensures CountIn(Appended(p, placed, c, n), p.set_, id) ==
            if id !in placed && id in p.ids[..n] && p.desired[id].collection == c then 1 else 0
  {
    hide IsSorted, CountIn;
    if n == 0 {
      NoRules(p.set_, id);
    } else {
      AppendedCount(p, placed, c, n - 1, id);
      var last := p.ids[n - 1];
      SortedDistinct(p.ids, n - 1);
      var front := Appended(p, placed, c, n - 1);
      CountSnoc(front, p.desired[last].rule, p.set_, id);
      assert front + [] == front;
    }
  }

  // ----- the whole policy -----

  lemma {:induction false} NewCount(p: Plan, at: map<Location, string>, id: string, n: nat)
    requires WellFormed(p) && Named(p.set_, p.desired) && AdoptionOk(p, at) && IsSorted(p.ids) && n <= 6
    ensures id in Placed(p, at, 6) ==>
              Count(NewGroups(p, at), p.set_, id, n) <= Count(p.groups, p.set_, id, n) + Adopted(p, at, id, n)
    ensures id !in Placed(p, at, 6) ==>
              Count(NewGroups(p, at), p.set_, id, n) == if id in p.desired && p.desired[id].collection < n then 1 else 0
  {
    hide Built, Appended, PlacedIn, CountIn, AdoptedIn, AdoptionOk, IsSorted;
    if n > 0 {
      NewCount(p, at, id, n - 1);
      var c := n - 1;
      var built, appended := Built(p, at, c, p.groups[c], |p.groups[c]|), Appended(p, Placed(p, at, 6), c, |p.ids|);
      BuiltCount(p, at, c, |p.groups[c]|, id);
      AppendedCount(p, Placed(p, at, 6), c, |p.ids|, id);
      CountJoin(built, appended, p.set_, id);
      assert p.groups[c][..|p.groups[c]|] == p.groups[c] && p.ids[..|p.ids|] == p.ids;
      PlacedGrows(p, at, c, 6);
      assert NewGroups(p, at)[c] == built + appended;
    }
  }

  // An identity adopted somewhere is adopted in one place.
  lemma {:induction false} AdoptedAtMostOnce(p: Plan, at: map<Location, string>, id: string, n: nat, l: Location)
    requires n <= |p.groups| && Injective(at) && (l in at ==> at[l] == id)
    requires forall k :: k in at && at[k] == id ==> k == l
    ensures Adopted(p, at, id, n) <= if l in at && l.collection < n then 1 else 0
  {
    if n > 0 {
      AdoptedAtMostOnce(p, at, id, n - 1, l);
      AdoptedInOnce(at, n - 1, |p.groups[n - 1]|, id, l);
    }
  }

  lemma {:induction false} AdoptedInOnce(at: map<Location, string>, c: nat, n: nat, id: string, l: Location)
    requires forall k :: k in at && at[k] == id ==> k == l
    ensures AdoptedIn(at, c, n, id) <= if l in at && l.collection == c && l.index < n then 1 else 0
  {
    if n > 0 {
      AdoptedInOnce(at, c, n - 1, id, l);
    }
  }

  lemma AdoptedBound(p: Plan, at: map<Location, string>, id: string)
    ensures WellFormed(p) && AdoptionOk(p, at) && Injective(at) ==>
              Adopted(p, at, id, 6) <= if id in p.current then 0 else 1
  {
    if WellFormed(p) && AdoptionOk(p, at) && Injective(at) {
      if exists l :: l in at && at[l] == id {
        var l :| l in at && at[l] == id;
        AdoptedAtMostOnce(p, at, id, 6, l);
      } else {
        NotAdopted(p, at, id, 6);
      }
    }
  }

  lemma {:induction false} NotAdopted(p: Plan, at: map<Location, string>, id: string, n: nat)
    requires n <= |p.groups| && forall l :: l in at ==> at[l] != id
    ensures Adopted(p, at, id, n) == 0
  {
    if n > 0 {
      NotAdopted(p, at, id, n - 1);
      NotAdoptedIn(at, n - 1, |p.groups[n - 1]|, id);
    }
  }

  lemma {:induction false} NotAdoptedIn(at: map<Location, string>, c: nat, n: nat, id: string)
    requires forall l :: l in at ==> at[l] != id
    ensures AdoptedIn(at, c, n, id) == 0
  {
    if n > 0 {
      NotAdoptedIn(at, c, n - 1, id);
    }
  }

  lemma {:induction false} CountInMeansPresent(rules: seq<Rule>, set_: string, id: string)
    ensures CountIn(rules, set_, id) > 0 <==> exists i :: 0 <= i < |rules| && HasIdentity(rules[i], set_, id)
  {
    if rules != [] {
      var n := |rules| - 1;
      CountInMeansPresent(rules[..n], set_, id);
      if i :| 0 <= i < |rules| && HasIdentity(rules[i], set_, id) {
        assert i < n ==> rules[..n][i] == rules[i];
      }
    }
  }

  lemma {:induction false} CountMeansPresent(groups: seq<seq<Rule>>, set_: string, id: string, n: nat)
    requires n <= |groups|
    ensures Count(groups, set_, id, n) > 0 ==> id in EntriesUpTo(groups, set_, n)
  {
    if n > 0 && Count(groups, set_, id, n) > 0 {
      EntryIsRule(groups, set_, n, id);
      CountInMeansPresent(groups[n - 1], set_, id);
      if CountIn(groups[n - 1], set_, id) > 0 {
        var i :| 0 <= i < |groups[n - 1]| && HasIdentity(groups[n - 1][i], set_, id);
        assert IsManaged(groups[n - 1][i], set_) && groups[n - 1][i].ruleId == Some(id);
      } else {
        CountMeansPresent(groups, set_, id, n - 1);
        hide EntriesUpTo;
        EntriesGrow(groups, set_, n, id);
      }
    }
  }

  lemma EntriesGrow(groups: seq<seq<Rule>>, set_: string, n: nat, id: string)
    ensures 0 < n <= |groups| && id in EntriesUpTo(groups, set_, n - 1) ==> id in EntriesUpTo(groups, set_, n)
  {}

  // The rules of the merged set stay unique.
  lemma OwnSetIsUnique(current: Policy, desired: Policy, set_: string, mode: Mode, id: string)
    requires |current.groups| == 6 && IsDesired(desired, set_) && Reconcile(current, desired, set_, mode).Done?
    requires Count(current.groups, set_, id, 6) <= 1
    ensures Count(Reconcile(current, desired, set_, mode).result.policy.groups, set_, id, 6) <= 1
  {
    hide Reconcile, Named, AdoptionOk, Entries, SortedIds, NewGroups, Count, Placed, Adopted, Injective, IsSorted;
    var p := PlanOf(current, desired, set_, mode);
    var at := MergedBy(current, desired, set_, mode);
    IdsAreSorted(desired, set_);
    AdoptedAreEarlier(p, |p.ids|);
    NewCount(p, at, id, 6);
    AdoptedBound(p, at, id);
    CountMeansPresent(current.groups, set_, id, 6);
    SameEntries(current, set_);
  }

  lemma IdsAreSorted(policy: Policy, set_: string)
    ensures IsSorted(SortedIds(policy, set_))
  {
    SortedSetIsSorted(AllIds(policy.groups, set_));
  }

  // ----- the other sets -----

  lemma {:induction false} CountOfOwn(rules: seq<Rule>, set_: string, id: string)
    ensures CountIn(rules, set_, id) == CountIn(Of(rules, Some(set_)), set_, id)
  {
    if rules != [] {
      var front, last := rules[..|rules| - 1], rules[|rules| - 1];
      CountOfOwn(front, set_, id);
      CountSnoc(Of(front, Some(set_)), last, set_, id);
      assert Of(front, Some(set_)) + [] == Of(front, Some(set_));
    }
  }

  lemma {:induction false} SameOwnSameCount(groups: seq<seq<Rule>>, others: seq<seq<Rule>>, set_: string, id: string, n: nat)
    requires n <= |groups| && n <= |others| && forall c :: 0 <= c < n ==> Of(groups[c], Some(set_)) == Of(others[c], Some(set_))
    ensures Count(groups, set_, id, n) == Count(others, set_, id, n)
  {
    if n > 0 {
      SameOwnSameCount(groups, others, set_, id, n - 1);
      CountOfOwn(groups[n - 1], set_, id);
      CountOfOwn(others[n - 1], set_, id);
    }
  }

  // A merge keeps every managed identity unique.
  lemma ReconcileKeepsUnique(current: Policy, desired: Policy, set_: string, mode: Mode)
    requires |current.groups| == 6 && IsDesired(desired, set_) && Reconcile(current, desired, set_, mode).Done?
    requires Unique(current.groups)
    ensures Unique(Reconcile(current, desired, set_, mode).result.policy.groups)
  {
    hide Reconcile, Count, Of, IsDesired;
    ReconcileSettles(current, desired, set_, mode);
    var after := Reconcile(current, desired, set_, mode).result.policy;
    forall other, id
      ensures Count(after.groups, other, id, 6) <= 1
    {
      if other == set_ {
        OwnSetIsUnique(current, desired, set_, mode, id);
      } else {
        forall c: nat | c < 6
          ensures Of(after.groups[c], Some(other)) == Of(current.groups[c], Some(other))
        {
          OtherSetsUntouched(current, desired, set_, mode, other, c);
        }
        SameOwnSameCount(after.groups, current.groups, other, id, 6);
      }
    }
  }

  // ----- all rules of one set, by collection and position -----

  function OwnedIn(collection: nat, rules: seq<Rule>, set_: string): seq<Entry> {
    if rules == [] then []
    else OwnedIn(collection, rules[..|rules| - 1], set_)
         + (if rules[|rules| - 1].setId == Some(set_) then [Entry(collection, rules[|rules| - 1])] else [])
  }

  function Owned(groups: seq<seq<Rule>>, set_: string, n: nat): seq<Entry>
    requires n <= |groups|
  {
    if n == 0 then [] else Owned(groups, set_, n - 1) + OwnedIn(n - 1, groups[n - 1], set_)
  }

  lemma {:induction false} OwnedInAre(collection: nat, rules: seq<Rule>, set_: string, e: Entry)
    ensures e in OwnedIn(collection, rules, set_) <==>
            e.collection == collection && exists i :: 0 <= i < |rules| && rules[i] == e.rule && e.rule.setId == Some(set_)
  {
    if rules != [] {
      var n := |rules| - 1;
      OwnedInAre(collection, rules[..n], set_, e);
      if i :| 0 <= i < |rules| && rules[i] == e.rule && e.rule.setId == Some(set_) {
        assert i < n ==> rules[..n][i] == rules[i];
      }
      if i :| 0 <= i < |rules[..n]| && rules[..n][i] == e.rule && e.rule.setId == Some(set_) {
        assert rules[i] == e.rule;
      }
    }
  }

  lemma {:induction false} OwnedAre(groups: seq<seq<Rule>>, set_: string, n: nat, e: Entry)
    requires n <= |groups|
    ensures e in Owned(groups, set_, n) <==>
            e.collection < n && exists i :: 0 <= i < |groups[e.collection]| && groups[e.collection][i] == e.rule && e.rule.setId == Some(set_)
  {
    if n > 0 {
      OwnedAre(groups, set_, n - 1, e);
      OwnedInAre(n - 1, groups[n - 1], set_, e);
    }
  }

  lemma {:induction false} OwnedInOwn(collection: nat, rules: seq<Rule>, set_: string)
    ensures OwnedIn(collection, rules, set_) == OwnedIn(collection, Of(rules, Some(set_)), set_)
  {
    if rules != [] {
      var front, last := rules[..|rules| - 1], rules[|rules| - 1];
      OwnedInOwn(collection, front, set_);
      var own := Of(front, Some(set_));
      if last.setId == Some(set_) {
        assert (own + [last])[..|own|] == own;
      } else {
        assert own + [] == own;
      }
    }
  }

  lemma {:induction false} SameOwnSameOwned(groups: seq<seq<Rule>>, others: seq<seq<Rule>>, set_: string, n: nat)
    requires n <= |groups| && n <= |others| && forall c :: 0 <= c < n ==> Of(groups[c], Some(set_)) == Of(others[c], Some(set_))
    ensures Owned(groups, set_, n) == Owned(others, set_, n)
  {
    hide OwnedIn, Of;
    if n > 0 {
      SameOwnSameOwned(groups, others, set_, n - 1);
      OwnedInOwn(n - 1, groups[n - 1], set_);
      OwnedInOwn(n - 1, others[n - 1], set_);
    }
  }

  // How often an identity is owned.
  function Times(entries: seq<Entry>, id: string): nat {
    if entries == [] then 0 else Times(entries[..|entries| - 1], id) + (if entries[|entries| - 1].rule.ruleId == Some(id) then 1 else 0)
  }

  lemma {:induction false} TimesJoin(a: seq<Entry>, b: seq<Entry>, id: string)
    ensures Times(a + b, id) == Times(a, id) + Times(b, id)
  {
    if b == [] {
      assert a + b == a;
    } else {
      TimesJoin(a, b[..|b| - 1], id);
      assert (a + b)[..|a + b| - 1] == a + b[..|b| - 1];
    }
  }

  lemma TimesSnoc(entries: seq<Entry>, last: Entry, id: string)
    ensures Times(entries + [last], id) == Times(entries, id) + (if last.rule.ruleId == Some(id) then 1 else 0)
  {
    assert (entries + [last])[..|entries|] == entries;
  }

  lemma OwnedInSnoc(collection: nat, front: seq<Rule>, last: Rule, set_: string)
    ensures OwnedIn(collection, front + [last], set_) ==
            if last.setId == Some(set_) then OwnedIn(collection, front, set_) + [Entry(collection, last)] else OwnedIn(collection, front, set_)
  {
    assert (front + [last])[..|front|] == front && OwnedIn(collection, front, set_) + [] == OwnedIn(collection, front, set_);
  }

  lemma {:induction false} OwnedInTimes(collection: nat, rules: seq<Rule>, set_: string, id: string)
    ensures Times(OwnedIn(collection, rules, set_), id) == CountIn(rules, set_, id)
  {
    if rules != [] {
      var front, last := rules[..|rules| - 1], rules[|rules| - 1];
      OwnedInTimes(collection, front, set_, id);
      assert rules == front + [last];
      hide OwnedIn, Times, CountIn;
      OwnedInSnoc(collection, front, last, set_);
      CountSnoc(front, last, set_, id);
      TimesSnoc(OwnedIn(collection, front, set_), Entry(collection, last), id);
    }
  }

  lemma {:induction false} OwnedTimes(groups: seq<seq<Rule>>, set_: string, id: string, n: nat)
    requires n <= |groups|
    ensures Times(Owned(groups, set_, n), id) == Count(groups, set_, id, n)
  {
    if n > 0 {
      OwnedTimes(groups, set_, id, n - 1);
      OwnedInTimes(n - 1, groups[n - 1], set_, id);
      TimesJoin(Owned(groups, set_, n - 1), OwnedIn(n - 1, groups[n - 1], set_), id);
    }
  }

  // ----- a merged set, listed -----

  // After a merge the set owns exactly the desired rules, in their
  // collections, each of them once.
  lemma OwnedAfterMerge(current: Policy, desired: Policy, set_: string, mode: Mode)
    requires |current.groups| == 6 && IsDesired(desired, set_) && Reconcile(current, desired, set_, mode).Done?
    requires Unique(current.groups)
    ensures var groups, entries := Reconcile(current, desired, set_, mode).result.policy.groups, Entries(desired, set_);
            && |groups| == 6
            && (forall e :: e in Owned(groups, set_, 6) <==>
                              e.rule.ruleId.Some? && e.rule.ruleId.value in entries && entries[e.rule.ruleId.value] == e)
            && (forall id :: Times(Owned(groups, set_, 6), id) <= 1)
  {
    hide Reconcile, Count, Entries, IsDesired, Unique, Owned, Times, Settled, Named;
    ReconcileSettles(current, desired, set_, mode);
    var groups, entries := Reconcile(current, desired, set_, mode).result.policy.groups, Entries(desired, set_);
    ReconcileKeepsUnique(current, desired, set_, mode);
    DesiredHasSix(desired, set_);
    DesiredIsNamed(desired, set_);
    forall e
      ensures e in Owned(groups, set_, 6) <==> e.rule.ruleId.Some? && e.rule.ruleId.value in entries && entries[e.rule.ruleId.value] == e
    {
      OwnedAre(groups, set_, 6, e);
      SettledRule(groups, set_, entries, e);
    }
    forall id
      ensures Times(Owned(groups, set_, 6), id) <= 1
    {
      OwnedTimes(groups, set_, id, 6);
      CountedOnce(groups, set_, id);
    }
  }

  lemma DesiredHasSix(desired: Policy, set_: string)
    ensures IsDesired(desired, set_) ==> |desired.groups| == 6
  {}

  lemma CountedOnce(groups: seq<seq<Rule>>, set_: string, id: string)
    ensures Unique(groups) ==> Count(groups, set_, id, |groups|) <= 1
  {}

  lemma SettledRule(groups: seq<seq<Rule>>, set_: string, desired: map<string, Entry>, e: Entry)
    requires Settled(groups, set_, desired) && Named(set_, desired)
    ensures e.rule.ruleId.Some? && e.rule.ruleId.value in desired && desired[e.rule.ruleId.value] == e <==>
            e.collection < 6 && exists i :: 0 <= i < |groups[e.collection]| && groups[e.collection][i] == e.rule && e.rule.setId == Some(set_)
  {
    if e.collection < 6 {
      if i :| 0 <= i < |groups[e.collection]| && groups[e.collection][i] == e.rule && e.rule.setId == Some(set_) {
        assert IsDesiredRule(groups[e.collection][i], e.collection, desired);
      }
    }
    if e.rule.ruleId.Some? && e.rule.ruleId.value in desired && desired[e.rule.ruleId.value] == e {
      var i :| 0 <= i < |groups[e.collection]| && groups[e.collection][i] == e.rule;
    }
  }

  lemma {:induction false} TimesOfAll(entries: seq<Entry>, id: string)
    requires forall e :: e in entries ==> e.rule.ruleId == Some(id)
    ensures Times(entries, id) == |entries|
  {
    if entries != [] {
      TimesOfAll(entries[..|entries| - 1], id);
    }
  }
}
