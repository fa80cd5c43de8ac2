// The structural diff of two policies (`build_authz_candidate_policy_structural_diff`).
module AuthzDiff {
  import opened Options
  import opened AuthzRules
  import opened AuthzReconcile

  type Key = (string, string)

  // Both policies as the diff sees them.
  datatype View = View(managed: map<Key, Entry>, unmanaged: seq<multiset<string>>)

  datatype Counts = Counts(added: nat, updated: nat, removed: nat, kept: nat)

  datatype Diff = Diff(changed: bool, schemaChanged: bool, counts: Counts, types: set<nat>)

  type Digest = Rule -> string

  predicate IsKeyed(rule: Rule) { rule.setId.Some? && rule.ruleId.Some? }

  function KeyOf(rule: Rule): Key
    requires IsKeyed(rule)
  {
    (rule.setId.value, rule.ruleId.value)
  }

  function ManagedIn(collection: nat, rules: seq<Rule>): map<Key, Entry> {
    if rules == [] then map[]
    else
      var last := rules[|rules| - 1];
      var earlier := ManagedIn(collection, rules[..|rules| - 1]);
      if IsKeyed(last) then earlier[KeyOf(last) := Entry(collection, last)] else earlier
  }

  function ManagedUpTo(groups: seq<seq<Rule>>, n: nat): map<Key, Entry>
    requires n <= |groups|
  {
    if n == 0 then map[] else ManagedUpTo(groups, n - 1) + ManagedIn(n - 1, groups[n - 1])
  }

  function UnmanagedIn(digest: Digest, rules: seq<Rule>): multiset<string> {
    if rules == [] then multiset{}
    else
      var last := rules[|rules| - 1];
      UnmanagedIn(digest, rules[..|rules| - 1]) + (if last.setId.None? then multiset{digest(last)} else multiset{})
  }

  function ViewOf(digest: Digest, policy: Policy): View {
    View(ManagedUpTo(policy.groups, |policy.groups|),
         seq(|policy.groups|, c requires 0 <= c < |policy.groups| => UnmanagedIn(digest, policy.groups[c])))
  }

  // ----- what the counts mean -----

  predicate SameEntry(digest: Digest, a: Entry, b: Entry) { a.collection == b.collection && digest(a.rule) == digest(b.rule) }

  function AddedKeys(a: View, b: View): set<Key> { b.managed.Keys - a.managed.Keys }

  function UpdatedKeys(digest: Digest, a: View, b: View): set<Key> {
    set k | k in a.managed && k in b.managed && !SameEntry(digest, a.managed[k], b.managed[k])
  }

  function KeptKeys(digest: Digest, a: View, b: View): set<Key> {
    set k | k in a.managed && k in b.managed && SameEntry(digest, a.managed[k], b.managed[k])
  }

  function AddedUnmanaged(a: View, b: View, n: nat): nat
    requires n <= |a.unmanaged| && n <= |b.unmanaged|
  {
    if n == 0 then 0 else AddedUnmanaged(a, b, n - 1) + |b.unmanaged[n - 1] - a.unmanaged[n - 1]|
  }

  function KeptUnmanaged(a: View, b: View, n: nat): nat
    requires n <= |a.unmanaged| && n <= |b.unmanaged|
  {
    if n == 0 then 0 else KeptUnmanaged(a, b, n - 1) + |a.unmanaged[n - 1] * b.unmanaged[n - 1]|
  }

  function CountsOf(digest: Digest, a: View, b: View): Counts
    requires |a.unmanaged| == |b.unmanaged|
  {
    var n := |a.unmanaged|;
    Counts(|AddedKeys(a, b)| + AddedUnmanaged(a, b, n), |UpdatedKeys(digest, a, b)|,
           |AddedKeys(b, a)| + AddedUnmanaged(b, a, n), |KeptKeys(digest, a, b)| + KeptUnmanaged(a, b, n))
  }

  // The collections a changed key belongs to, on either side.
  function Touched(digest: Digest, a: View, b: View, k: Key): set<nat> {
    if k in a.managed && k in b.managed && SameEntry(digest, a.managed[k], b.managed[k]) then {}
    else (if k in a.managed then {a.managed[k].collection} else {}) + (if k in b.managed then {b.managed[k].collection} else {})
  }

  ghost predicate IsChangedType(digest: Digest, a: View, b: View, c: nat)
    requires |a.unmanaged| == |b.unmanaged|
  {
    (exists k :: c in Touched(digest, a, b, k)) || (c < |a.unmanaged| && a.unmanaged[c] != b.unmanaged[c])
  }

  // ----- the diff -----

  // The collections touched by some of the keys.
  ghost function TouchedBy(digest: Digest, a: View, b: View, keys: set<Key>): set<nat> {
    set k, c | k in keys && c in Touched(digest, a, b, k) :: c
  }

  method DiffManaged(digest: Digest, a: View, b: View) returns (counts: Counts, types: set<nat>)
    ensures counts == Counts(|AddedKeys(a, b)|, |UpdatedKeys(digest, a, b)|, |AddedKeys(b, a)|, |KeptKeys(digest, a, b)|)
    ensures forall c :: c in types <==> exists k :: c in Touched(digest, a, b, k)
  {
    hide AddedKeys, UpdatedKeys, KeptKeys, SameEntry, Touched, TouchedBy;
    var keys := a.managed.Keys + b.managed.Keys;
    var added, removed, updated, kept := 0, 0, 0, 0;
    types := {};
    AllKeys(digest, a, b);
    NoneTouched(digest, a, b);
    ghost var done: set<Key> := {};
    while keys != {}
      invariant keys + done == a.managed.Keys + b.managed.Keys
      invariant added + |keys * AddedKeys(a, b)| == |AddedKeys(a, b)|
      invariant removed + |keys * AddedKeys(b, a)| == |AddedKeys(b, a)|
      invariant updated + |keys * UpdatedKeys(digest, a, b)| == |UpdatedKeys(digest, a, b)|
      invariant kept + |keys * KeptKeys(digest, a, b)| == |KeptKeys(digest, a, b)|
      invariant types == TouchedBy(digest, a, b, done)
      decreases keys
    {
      var k :| k in keys;
      Without(keys, AddedKeys(a, b), k);
      Without(keys, AddedKeys(b, a), k);
      Without(keys, UpdatedKeys(digest, a, b), k);
      Without(keys, KeptKeys(digest, a, b), k);
      Classified(digest, a, b, k);
      TouchedOneMore(digest, a, b, done, k);
      if k !in a.managed {
        added := added + 1;
        types := types + {b.managed[k].collection};
      } else if k !in b.managed {
        removed := removed + 1;
        types := types + {a.managed[k].collection};
      } else if SameEntry(digest, a.managed[k], b.managed[k]) {
        kept := kept + 1;
      } else {
        updated := updated + 1;
        types := types + {a.managed[k].collection, b.managed[k].collection};
      }
      keys := keys - {k};
      done := done + {k};
    }
    AllTouched(digest, a, b);
    return Counts(added, updated, removed, kept), types;
  }

  lemma AllKeys(digest: Digest, a: View, b: View)
    ensures var keys := a.managed.Keys + b.managed.Keys;
            && keys * AddedKeys(a, b) == AddedKeys(a, b) && keys * AddedKeys(b, a) == AddedKeys(b, a)
            && keys * UpdatedKeys(digest, a, b) == UpdatedKeys(digest, a, b)
            && keys * KeptKeys(digest, a, b) == KeptKeys(digest, a, b)
  {
    hide SameEntry;
  }

  // Which of the four counts a key belongs to, and what it touches.
  lemma Classified(digest: Digest, a: View, b: View, k: Key)
    requires k in a.managed || k in b.managed
    ensures k in AddedKeys(a, b) <==> k !in a.managed
    ensures k in AddedKeys(b, a) <==> k !in b.managed
    ensures k in KeptKeys(digest, a, b) <==> k in a.managed && k in b.managed && SameEntry(digest, a.managed[k], b.managed[k])
    ensures k in UpdatedKeys(digest, a, b) <==> k in a.managed && k in b.managed && !SameEntry(digest, a.managed[k], b.managed[k])
    ensures k !in a.managed ==> Touched(digest, a, b, k) == {b.managed[k].collection}
    ensures k !in b.managed ==> Touched(digest, a, b, k) == {a.managed[k].collection}
    ensures k in KeptKeys(digest, a, b) ==> Touched(digest, a, b, k) == {}
    ensures k in UpdatedKeys(digest, a, b) ==>
              Touched(digest, a, b, k) == {a.managed[k].collection, b.managed[k].collection}
  {
    hide SameEntry;
  }

  lemma NoneTouched(digest: Digest, a: View, b: View)
    ensures TouchedBy(digest, a, b, {}) == {}
  {}

  lemma TouchedOneMore(digest: Digest, a: View, b: View, done: set<Key>, k: Key)
    ensures TouchedBy(digest, a, b, done + {k}) == TouchedBy(digest, a, b, done) + Touched(digest, a, b, k)
  {
    hide Touched;
  }

  // Keys of neither side touch nothing.
  lemma AllTouched(digest: Digest, a: View, b: View)
    ensures forall c :: c in TouchedBy(digest, a, b, a.managed.Keys + b.managed.Keys) <==> exists k :: c in Touched(digest, a, b, k)
  {
    hide SameEntry;
    forall k | k !in a.managed.Keys + b.managed.Keys
      ensures Touched(digest, a, b, k) == {}
    {}
    hide Touched;
  }

  lemma Without(keys: set<Key>, some: set<Key>, k: Key)
    ensures k in keys ==> |(keys - {k}) * some| == |keys * some| - (if k in some then 1 else 0)
  {
    if k in keys {
      assert (keys - {k}) * some == keys * some - {k};
    }
  }

  method DiffCounters(a: multiset<string>, b: multiset<string>) returns (added: nat, removed: nat, kept: nat)
    ensures added == |b - a| && removed == |a - b| && kept == |a * b|
  {
    var hashes := (set h | h in a) + (set h | h in b);
    added, removed, kept := 0, 0, 0;
    ghost var left, right := a, b;
    while hashes != {}
      invariant forall h :: h in left || h in right ==> h in hashes
      invariant forall h :: h in hashes ==> left[h] == a[h] && right[h] == b[h]
      invariant added + |right - left| == |b - a|
      invariant removed + |left - right| == |a - b|
      invariant kept + |left * right| == |a * b|
      decreases hashes
    {
      var h :| h in hashes;
      kept := kept + (if a[h] < b[h] then a[h] else b[h]);
      if b[h] > a[h] {
        added := added + (b[h] - a[h]);
      } else if a[h] > b[h] {
        removed := removed + (a[h] - b[h]);
      }
      assert right[h := 0] - left[h := 0] == (right - left)[h := 0];
      assert left[h := 0] - right[h := 0] == (left - right)[h := 0];
      assert left[h := 0] * right[h := 0] == (left * right)[h := 0];
      left, right := left[h := 0], right[h := 0];
      hashes := hashes - {h};
    }
    assert left == multiset{} && right == multiset{};
  }

  method StructuralDiff(digest: Digest, active: Policy, candidate: Policy) returns (diff: Diff)
    requires |active.groups| == 6 && |candidate.groups| == 6
    ensures diff.counts == CountsOf(digest, ViewOf(digest, active), ViewOf(digest, candidate))
    ensures diff.schemaChanged == (active.schema != candidate.schema)
    ensures diff.changed <==> diff.schemaChanged || diff.counts.added + diff.counts.updated + diff.counts.removed > 0
    ensures forall c :: c in diff.types <==> IsChangedType(digest, ViewOf(digest, active), ViewOf(digest, candidate), c)
  {
    hide ManagedUpTo, UnmanagedIn, Touched;
    var a, b := ViewOf(digest, active), ViewOf(digest, candidate);
    var managed, types := DiffManaged(digest, a, b);
    var added, removed, kept := managed.added, managed.removed, managed.kept;
    ghost var managedTypes := types;
    for c := 0 to 6
      invariant added == managed.added + AddedUnmanaged(a, b, c)
      invariant removed == managed.removed + AddedUnmanaged(b, a, c)
      invariant kept == managed.kept + KeptUnmanaged(a, b, c)
      invariant forall t: nat :: t in types <==> t in managedTypes || (t < c && a.unmanaged[t] != b.unmanaged[t])
    {
      var more, fewer, same := DiffCounters(a.unmanaged[c], b.unmanaged[c]);
      Agreement(a.unmanaged[c], b.unmanaged[c]);
      added, removed, kept := added + more, removed + fewer, kept + same;
      if more > 0 || fewer > 0 {
        types := types + {c};
      }
    }
    var counts := Counts(added, managed.updated, removed, kept);
    var schemaChanged := active.schema != candidate.schema;
    return Diff(schemaChanged || added > 0 || managed.updated > 0 || removed > 0, schemaChanged, counts, types);
  }

  lemma Agreement(a: multiset<string>, b: multiset<string>)
    ensures a == b <==> |a - b| == 0 && |b - a| == 0
  {
    if |a - b| == 0 && |b - a| == 0 {
      assert a - b == multiset{} && b - a == multiset{};
      forall h
        ensures a[h] == b[h]
      {
        assert (a - b)[h] == 0 && (b - a)[h] == 0;
      }
    }
  }

  // ----- conservation -----

  function KeysIn(rules: seq<Rule>): seq<Key> {
    if rules == [] then []
    else KeysIn(rules[..|rules| - 1]) + (if IsKeyed(rules[|rules| - 1]) then [KeyOf(rules[|rules| - 1])] else [])
  }

  function KeysUpTo(groups: seq<seq<Rule>>, n: nat): seq<Key>
    requires n <= |groups|
  {
    if n == 0 then [] else KeysUpTo(groups, n - 1) + KeysIn(groups[n - 1])
  }

  // Managed identities are unique, and an identity has both parts.
  ghost predicate UniqueIdentities(policy: Policy) {
    && |policy.groups| == 6
    && (forall i, j :: 0 <= i < j < |KeysUpTo(policy.groups, 6)| ==> KeysUpTo(policy.groups, 6)[i] != KeysUpTo(policy.groups, 6)[j])
    && (forall c, i :: 0 <= c < 6 && 0 <= i < |policy.groups[c]| ==> (policy.groups[c][i].setId.Some? <==> policy.groups[c][i].ruleId.Some?))
  }

  function RuleCount(groups: seq<seq<Rule>>, n: nat): nat
    requires n <= |groups|
  {
    if n == 0 then 0 else RuleCount(groups, n - 1) + |groups[n - 1]|
  }

  function UnmanagedCount(v: View, n: nat): nat
    requires n <= |v.unmanaged|
  {
    if n == 0 then 0 else UnmanagedCount(v, n - 1) + |v.unmanaged[n - 1]|
  }

  lemma {:induction false} ManagedInKeys(collection: nat, rules: seq<Rule>)
    ensures forall k :: k in ManagedIn(collection, rules) <==> k in KeysIn(rules)
  {
    if rules != [] {
      ManagedInKeys(collection, rules[..|rules| - 1]);
    }
  }

  lemma {:induction false} ManagedKeys(groups: seq<seq<Rule>>, n: nat)
    requires n <= |groups|
    ensures forall k :: k in ManagedUpTo(groups, n) <==> k in KeysUpTo(groups, n)
  {
    hide ManagedIn, KeysIn;
    if n > 0 {
      ManagedKeys(groups, n - 1);
      ManagedInKeys(n - 1, groups[n - 1]);
      var before, here := ManagedUpTo(groups, n - 1), ManagedIn(n - 1, groups[n - 1]);
      assert ManagedUpTo(groups, n) == before + here;
      assert forall k :: k in before + here <==> k in before || k in here;
    }
  }

  lemma {:induction false} DistinctCount(keys: seq<Key>)
    requires forall i, j :: 0 <= i < j < |keys| ==> keys[i] != keys[j]
    ensures |set k | k in keys| == |keys|
  {
    if keys != [] {
      var front, last := keys[..|keys| - 1], keys[|keys| - 1];
      DistinctCount(front);
      assert keys == front + [last];
      assert (set k | k in keys) == (set k | k in front) + {last};
    }
  }

  lemma {:induction false} SplitRules(digest: Digest, rules: seq<Rule>)
    requires forall i :: 0 <= i < |rules| ==> (rules[i].setId.Some? <==> rules[i].ruleId.Some?)
    ensures |rules| == |KeysIn(rules)| + |UnmanagedIn(digest, rules)|
  {
    if rules != [] {
      SplitRules(digest, rules[..|rules| - 1]);
    }
  }

  lemma {:induction false} SplitGroups(digest: Digest, policy: Policy, n: nat)
    requires UniqueIdentities(policy) && n <= 6
    ensures RuleCount(policy.groups, n) == |KeysUpTo(policy.groups, n)| + UnmanagedCount(ViewOf(digest, policy), n)
  {
    if n > 0 {
      SplitGroups(digest, policy, n - 1);
      SplitRules(digest, policy.groups[n - 1]);
    }
  }

  // Every rule of a policy is one managed entry or one unmanaged occurrence.
  lemma RulesCounted(digest: Digest, policy: Policy)
    requires UniqueIdentities(policy)
    ensures var v := ViewOf(digest, policy); RuleCount(policy.groups, 6) == |v.managed| + UnmanagedCount(v, 6)
  {
    SplitGroups(digest, policy, 6);
    ManagedKeys(policy.groups, 6);
    DistinctCount(KeysUpTo(policy.groups, 6));
    var managed := ViewOf(digest, policy).managed;
    assert managed.Keys == set k | k in KeysUpTo(policy.groups, 6);
    assert |managed| == |managed.Keys|;
  }

  lemma {:induction false} UnmanagedSplit(a: View, b: View, n: nat)
    requires n <= |a.unmanaged| && |a.unmanaged| == |b.unmanaged|
    ensures UnmanagedCount(b, n) == KeptUnmanaged(a, b, n) + AddedUnmanaged(a, b, n)
    ensures UnmanagedCount(a, n) == KeptUnmanaged(a, b, n) + AddedUnmanaged(b, a, n)
  {
    if n > 0 {
      UnmanagedSplit(a, b, n - 1);
      var x, y := a.unmanaged[n - 1], b.unmanaged[n - 1];
      assert y == x * y + (y - x) && x == x * y + (x - y);
    }
  }

  lemma ManagedSplit(digest: Digest, a: View, b: View)
    ensures |a.managed| == |KeptKeys(digest, a, b)| + |UpdatedKeys(digest, a, b)| + |AddedKeys(b, a)|
    ensures |b.managed| == |KeptKeys(digest, a, b)| + |UpdatedKeys(digest, a, b)| + |AddedKeys(a, b)|
  {
    hide SameEntry, AddedKeys, UpdatedKeys, KeptKeys;
    ThreeParts(a.managed.Keys, KeptKeys(digest, a, b), UpdatedKeys(digest, a, b), AddedKeys(b, a)) by {
      forall k
        ensures k in a.managed <==> k in KeptKeys(digest, a, b) || k in UpdatedKeys(digest, a, b) || k in AddedKeys(b, a)
        ensures k in AddedKeys(b, a) ==> k !in KeptKeys(digest, a, b) && k !in UpdatedKeys(digest, a, b)
        ensures !(k in KeptKeys(digest, a, b) && k in UpdatedKeys(digest, a, b))
      {
        Sorted(digest, a, b, k);
      }
    }
    ThreeParts(b.managed.Keys, KeptKeys(digest, a, b), UpdatedKeys(digest, a, b), AddedKeys(a, b)) by {
      forall k
        ensures k in b.managed <==> k in KeptKeys(digest, a, b) || k in UpdatedKeys(digest, a, b) || k in AddedKeys(a, b)
        ensures k in AddedKeys(a, b) ==> k !in KeptKeys(digest, a, b) && k !in UpdatedKeys(digest, a, b)
        ensures !(k in KeptKeys(digest, a, b) && k in UpdatedKeys(digest, a, b))
      {
        Sorted(digest, a, b, k);
      }
    }
    assert |a.managed| == |a.managed.Keys| && |b.managed| == |b.managed.Keys|;
  }

  lemma Sorted(digest: Digest, a: View, b: View, k: Key)
    ensures k in a.managed <==> k in KeptKeys(digest, a, b) || k in UpdatedKeys(digest, a, b) || k in AddedKeys(b, a)
    ensures k in b.managed <==> k in KeptKeys(digest, a, b) || k in UpdatedKeys(digest, a, b) || k in AddedKeys(a, b)
    ensures k in AddedKeys(a, b) || k in AddedKeys(b, a) ==> k !in KeptKeys(digest, a, b) && k !in UpdatedKeys(digest, a, b)
    ensures !(k in KeptKeys(digest, a, b) && k in UpdatedKeys(digest, a, b))
  {
    hide SameEntry;
  }

  lemma ThreeParts(whole: set<Key>, x: set<Key>, y: set<Key>, z: set<Key>)
    requires forall k :: k in whole <==> k in x || k in y || k in z
    requires forall k :: k in z ==> k !in x && k !in y
    requires forall k :: !(k in x && k in y)
    ensures |whole| == |x| + |y| + |z|
  {
    assert whole == x + y + z && x !! y && (x + y) !! z;
  }

  // The diff neither loses nor invents a rule.
  lemma Conservation(digest: Digest, active: Policy, candidate: Policy)
    requires UniqueIdentities(active) && UniqueIdentities(candidate)
    ensures var counts := CountsOf(digest, ViewOf(digest, active), ViewOf(digest, candidate));
            && RuleCount(active.groups, 6) == counts.kept + counts.updated + counts.removed
            && RuleCount(candidate.groups, 6) == counts.kept + counts.updated + counts.added
  {
    hide ManagedUpTo, UnmanagedIn, UniqueIdentities, AddedKeys, UpdatedKeys, KeptKeys, KeptUnmanaged, AddedUnmanaged;
    var a, b := ViewOf(digest, active), ViewOf(digest, candidate);
    RulesCounted(digest, active);
    RulesCounted(digest, candidate);
    ManagedSplit(digest, a, b);
    GroupsViewed(digest, active);
    GroupsViewed(digest, candidate);
    UnmanagedSplit(a, b, 6);
  }

  lemma GroupsViewed(digest: Digest, policy: Policy)
    ensures UniqueIdentities(policy) ==> |ViewOf(digest, policy).unmanaged| == 6
  {}

  lemma {:induction false} KeptSwap(a: View, b: View, n: nat)
    requires n <= |a.unmanaged| && |a.unmanaged| == |b.unmanaged|
    ensures KeptUnmanaged(a, b, n) == KeptUnmanaged(b, a, n)
  {
    if n > 0 {
      KeptSwap(a, b, n - 1);
      assert a.unmanaged[n - 1] * b.unmanaged[n - 1] == b.unmanaged[n - 1] * a.unmanaged[n - 1];
    }
  }

  // Reading the diff backwards swaps what was added and what was removed.
  lemma Reversal(digest: Digest, a: View, b: View)
    requires |a.unmanaged| == |b.unmanaged|
    ensures var forward, backward := CountsOf(digest, a, b), CountsOf(digest, b, a);
            backward == Counts(forward.removed, forward.updated, forward.added, forward.kept)
  {
    KeptSwap(a, b, |a.unmanaged|);
    assert UpdatedKeys(digest, a, b) == UpdatedKeys(digest, b, a);
    assert KeptKeys(digest, a, b) == KeptKeys(digest, b, a);
  }

  // The managed rules agree, key by key, up to the rule fingerprint.
  ghost predicate SameManaged(digest: Digest, a: View, b: View) {
    a.managed.Keys == b.managed.Keys && forall k :: k in a.managed && k in b.managed ==> SameEntry(digest, a.managed[k], b.managed[k])
  }

  lemma {:induction false} NoneAdded(a: View, b: View, n: nat)
    requires n <= |a.unmanaged| && |a.unmanaged| == |b.unmanaged|
    ensures AddedUnmanaged(a, b, n) + AddedUnmanaged(b, a, n) == 0 <==> forall c :: 0 <= c < n ==> a.unmanaged[c] == b.unmanaged[c]
  {
    if n > 0 {
      NoneAdded(a, b, n - 1);
      Agreement(a.unmanaged[n - 1], b.unmanaged[n - 1]);
    }
  }

  // Nothing is counted as changed exactly when both sides agree.
  lemma UnchangedExactly(digest: Digest, a: View, b: View)
    requires |a.unmanaged| == |b.unmanaged|
    ensures var counts := CountsOf(digest, a, b);
            counts.added + counts.updated + counts.removed == 0 <==> SameManaged(digest, a, b) && a.unmanaged == b.unmanaged
  {
    NoneAdded(a, b, |a.unmanaged|);
    var counts := CountsOf(digest, a, b);
    if counts.added + counts.updated + counts.removed == 0 {
      assert AddedKeys(a, b) == {} && AddedKeys(b, a) == {} && UpdatedKeys(digest, a, b) == {};
      forall k | k in a.managed && k in b.managed
        ensures SameEntry(digest, a.managed[k], b.managed[k])
      {
        assert k !in UpdatedKeys(digest, a, b);
      }
      forall k
        ensures k in a.managed <==> k in b.managed
      {
        assert k !in AddedKeys(a, b) && k !in AddedKeys(b, a);
      }
    }
    if SameManaged(digest, a, b) && a.unmanaged == b.unmanaged {
      assert AddedKeys(a, b) == {} && AddedKeys(b, a) == {} && UpdatedKeys(digest, a, b) == {};
    }
  }
}
