// What the policy history and the active policy prove before rules are retired.
module AuthzEvidence {
  import opened Options
  import opened Fnmatch
  import opened AuthzRules
  import opened StringOrder
  import opened AuthzReconcile
  import opened AuthzConvergence

  // ----- the audited history -----

  datatype Audit = Audit(operation: string, mode: string, changed: bool, setId: string, source: string,
                         previousId: string, previousRevision: nat, previousSha: string,
                         newId: string, newRevision: nat, newSha: string, operator: string)

  datatype Record = Record(id: string, revision: nat, source: string, sha: string, policy: Policy, audit: Option<Audit>)

  // The fingerprints of rules and policies, and the identity of a new record.
  datatype Digests = Digests(rule: Rule -> string, policy: Policy -> string, recordId: (nat, string) -> string)

  // An applied request: a managed merge, or the removal of selected unmanaged
  // workflow rules.  `admitted` stands for the guards that can only refuse.
  datatype Write = Merge(desired: Policy, set_: string, mode: Mode, quorum: Option<nat>, operator: string, source: string, admitted: bool)
                 | RetireSelected(selection: seq<string>, operator: string, source: string, admitted: bool)

  // `administrator_quorum` survives a merge unless the request changes it.
  function Quorum(current: Policy, change: Option<nat>): Option<nat> { if change.Some? then change else current.quorum }

  function Survivors(digests: Digests, rules: seq<Rule>, selection: seq<string>): seq<Rule> {
    if rules == [] then []
    else Survivors(digests, rules[..|rules| - 1], selection)
         + (if digests.rule(rules[|rules| - 1]) in selection then [] else [rules[|rules| - 1]])
  }

  // Each selected fingerprint names exactly one rule, and it is unmanaged.
  ghost predicate Selectable(digests: Digests, rules: seq<Rule>, selection: seq<string>) {
    forall h :: h in selection ==>
      exists i :: 0 <= i < |rules| && digests.rule(rules[i]) == h && rules[i].setId.None?
               && (forall j :: 0 <= j < |rules| && digests.rule(rules[j]) == h ==> j == i)
  }

  ghost function Candidate(digests: Digests, current: Policy, write: Write): Option<Policy>
    requires |current.groups| == 6
  {
    if !write.admitted then None
    else if write.Merge? then
      var merge := Reconcile(current, write.desired, write.set_, write.mode);
      if merge.Done? then Some(merge.result.policy.(quorum := Quorum(current, write.quorum))) else None
    else if Selectable(digests, current.groups[WORKFLOWS], write.selection) then
      Some(current.(groups := current.groups[WORKFLOWS := Survivors(digests, current.groups[WORKFLOWS], write.selection)]))
    else None
  }

  function SetOf(write: Write): string { if write.Merge? then write.set_ else "" }

  // `execute_managed_authz_policy_reconcile`: a new record only if something changed.
  ghost function Applied(digests: Digests, current: Record, write: Write): Option<Record>
    requires |current.policy.groups| == 6
  {
    var candidate := Candidate(digests, current.policy, write);
    if candidate.None? || digests.policy(candidate.value) == current.sha then None
    else
      var sha := digests.policy(candidate.value);
      var id := digests.recordId(current.revision + 1, sha);
      Some(Record(id, current.revision + 1, write.source, sha, candidate.value,
                  Some(Audit("managed_rule_set_reconcile", "apply", true, SetOf(write), write.source,
                             current.id, current.revision, current.sha, id, current.revision + 1, sha, write.operator))))
  }

  // A merge request names a set and holds rules of that set only.
  ghost predicate ValidWrite(write: Write) {
    write.Merge? ==> write.set_ != "" && IsDesired(write.desired, write.set_)
  }

  // ----- `_set_rules` and `_maintenance` -----

  function InsertSorted(values: seq<string>, v: string): seq<string> {
    if values == [] || !Before(values[0], v) then [v] + values else [values[0]] + InsertSorted(values[1..], v)
  }

  function Sorted(values: seq<string>): seq<string> { if values == [] then [] else InsertSorted(Sorted(values[1..]), values[0]) }

  function Hashes(digests: Digests, rules: seq<Rule>): seq<string> {
    if rules == [] then [] else [digests.rule(rules[0])] + Hashes(digests, rules[1..])
  }

  // The rules of one set, collection after collection.
  function RulesOf(groups: seq<seq<Rule>>, set_: string): seq<Rule> {
    if groups == [] then [] else Of(groups[0], Some(set_)) + RulesOf(groups[1..], set_)
  }

  function SetRules(digests: Digests, record: Record, set_: string): seq<string> {
    Sorted(Hashes(digests, RulesOf(record.policy.groups, set_)))
  }

  datatype Observation = Observation(revision: nat, sha: string, caller: string, introduced: bool)

  const CALLERS := {"github_actions", "github_human", "terminal_agent", "local_operator", "local_admin"}

  predicate Bound(current: Record, previous: Record, set_: string) {
    && current.audit.Some?
    && var a := current.audit.value;
       && current.revision == previous.revision + 1
       && a.operation == "managed_rule_set_reconcile" && a.mode == "apply" && a.changed && a.setId == set_
       && a.source == current.source
       && a.previousId == previous.id && a.previousRevision == previous.revision && a.previousSha == previous.sha
       && a.newId == current.id && a.newRevision == current.revision && a.newSha == current.sha
  }

  function Maintenance(digests: Digests, current: Record, previous: Record, set_: string): Option<Observation> {
    var before, after := SetRules(digests, previous, set_), SetRules(digests, current, set_);
    if !Bound(current, previous, set_) || before == after then None
    else
      var caller := current.audit.value.operator;
      Some(Observation(current.revision, current.sha, if caller in CALLERS then caller else "unknown", before == [] && after != []))
  }

  lemma {:induction false} SameGroupsSameRules(a: seq<seq<Rule>>, b: seq<seq<Rule>>, set_: string)
    requires |a| == |b| && forall c: nat :: c < |a| ==> Of(a[c], Some(set_)) == Of(b[c], Some(set_))
    ensures RulesOf(a, set_) == RulesOf(b, set_)
  {
    if a != [] {
      forall c: nat | c < |a[1..]|
        ensures Of(a[1..][c], Some(set_)) == Of(b[1..][c], Some(set_))
      {
        assert a[1..][c] == a[c + 1] && b[1..][c] == b[c + 1];
      }
      SameGroupsSameRules(a[1..], b[1..], set_);
    }
  }

  lemma {:induction false} SurvivorsOf(digests: Digests, all: seq<Rule>, n: nat, selection: seq<string>, set_: string)
    requires n <= |all| && Selectable(digests, all, selection)
    ensures Of(Survivors(digests, all[..n], selection), Some(set_)) == Of(all[..n], Some(set_))
  {
    if n > 0 {
      SurvivorsOf(digests, all, n - 1, selection, set_);
      var last := all[n - 1];
      var front := Survivors(digests, all[..n - 1], selection);
      assert all[..n] == all[..n - 1] + [last] && all[..n][..n - 1] == all[..n - 1];
      OfSnoc(all[..n - 1], last, Some(set_));
      OfSnoc(front, last, Some(set_));
      assert front + [] == front;
    }
  }

  lemma RetiringKeepsSets(digests: Digests, current: Policy, write: Write, set_: string)
    requires |current.groups| == 6 && write.RetireSelected? && Candidate(digests, current, write).Some?
    ensures RulesOf(Candidate(digests, current, write).value.groups, set_) == RulesOf(current.groups, set_)
  {
    var rules := current.groups[WORKFLOWS];
    SurvivorsOf(digests, rules, |rules|, write.selection, set_);
    assert rules[..|rules|] == rules;
    SameGroupsSameRules(Candidate(digests, current, write).value.groups, current.groups, set_);
  }

  // The rules that do not stand at a place of `gone`, in order.
  function Others(rules: seq<Rule>, gone: set<nat>): seq<Rule> {
    if rules == [] then []
    else Others(rules[..|rules| - 1], gone) + (if |rules| - 1 in gone then [] else [rules[|rules| - 1]])
  }

  lemma {:induction false} SurvivorsAre(digests: Digests, rules: seq<Rule>, n: nat, selection: seq<string>, gone: set<nat>)
    requires n <= |rules| && forall i: nat :: i < |rules| ==> (i in gone <==> digests.rule(rules[i]) in selection)
    ensures Survivors(digests, rules[..n], selection) == Others(rules[..n], gone)
  {
    if n > 0 {
      assert rules[..n][..n - 1] == rules[..n - 1];
      SurvivorsAre(digests, rules, n - 1, selection, gone);
    }
  }

  // Retiring removes exactly one unmanaged workflow rule for each selected
  // fingerprint, and changes nothing else.
  lemma RetiringRemovesSelected(digests: Digests, current: Policy, write: Write) returns (gone: set<nat>)
    requires |current.groups| == 6 && write.RetireSelected? && Candidate(digests, current, write).Some?
    ensures var rules, after := current.groups[WORKFLOWS], Candidate(digests, current, write).value;
            && after == current.(groups := current.groups[WORKFLOWS := Others(rules, gone)])
            && (forall i :: i in gone ==> i < |rules| && rules[i].setId.None? && digests.rule(rules[i]) in write.selection)
            && (forall h :: h in write.selection ==> exists i :: i in gone && digests.rule(rules[i]) == h)
            && (forall i, j :: i in gone && j in gone && digests.rule(rules[i]) == digests.rule(rules[j]) ==> i == j)
  {
    var rules := current.groups[WORKFLOWS];
    gone := set i: nat | i < |rules| && digests.rule(rules[i]) in write.selection;
    SurvivorsAre(digests, rules, |rules|, write.selection, gone);
    assert rules[..|rules|] == rules;
    forall h | h in write.selection
      ensures exists i :: i in gone && digests.rule(rules[i]) == h
    {
      var i :| 0 <= i < |rules| && digests.rule(rules[i]) == h;
      assert i in gone;
    }
  }

  lemma MergingKeepsOtherSets(digests: Digests, current: Policy, write: Write, set_: string)
    requires |current.groups| == 6 && write.Merge? && ValidWrite(write) && Candidate(digests, current, write).Some? && set_ != write.set_
    ensures RulesOf(Candidate(digests, current, write).value.groups, set_) == RulesOf(current.groups, set_)
  {
    ReconcileSettles(current, write.desired, write.set_, write.mode);
    var after := Candidate(digests, current, write).value;
    forall c: nat | c < 6
      ensures Of(after.groups[c], Some(set_)) == Of(current.groups[c], Some(set_))
    {
      OtherSetsUntouched(current, write.desired, write.set_, write.mode, set_, c);
    }
    SameGroupsSameRules(after.groups, current.groups, set_);
  }

  // Between adjacent records, a set's rules differ exactly when the audit
  // yields an observation for that set: no change of any set goes unseen.
  lemma AuditIsComplete(digests: Digests, previous: Record, write: Write, set_: string)
    requires |previous.policy.groups| == 6 && ValidWrite(write) && Applied(digests, previous, write).Some? && set_ != ""
    ensures var current := Applied(digests, previous, write).value;
            SetRules(digests, previous, set_) != SetRules(digests, current, set_) <==> Maintenance(digests, current, previous, set_).Some?
  {
    if write.RetireSelected? {
      RetiringKeepsSets(digests, previous.policy, write, set_);
    } else if set_ != write.set_ {
      MergingKeepsOtherSets(digests, previous.policy, write, set_);
    }
  }

  // A history starting anywhere, newest record last.
  ghost predicate History(digests: Digests, records: seq<Record>, writes: seq<Write>) {
    && |records| == |writes| + 1
    && (forall i :: 0 <= i < |records| ==> |records[i].policy.groups| == 6)
    && (forall i :: 0 <= i < |writes| ==> ValidWrite(writes[i]) && Applied(digests, records[i], writes[i]) == Some(records[i + 1]))
  }

  // `build_retirement_evidence` never meets an unbound change in such a history.
  lemma NoUnboundChange(digests: Digests, records: seq<Record>, writes: seq<Write>, set_: string, i: nat)
    requires History(digests, records, writes) && i + 1 < |records| && set_ != ""
    ensures Maintenance(digests, records[i + 1], records[i], set_).Some? <==>
            SetRules(digests, records[i], set_) != SetRules(digests, records[i + 1], set_)
  {
    assert Applied(digests, records[i], writes[i]) == Some(records[i + 1]);
    AuditIsComplete(digests, records[i], writes[i], set_);
  }
}
