// Whether any unmanaged workflow rule could still depend on a workflow file
// (`_unmanaged_workflow`).
module AuthzDependency {
  import opened Options
  import opened Fnmatch
  import opened AuthzRules
  import opened StringOrder

  datatype Subject = Subject(repository: string, path: string, byWorkflowRef: bool)

  datatype Verdict = Unknown | PotentialDependency | NoMatchingRule

  // The verdict, the fingerprints of the matched rules, and the reason codes.
  datatype Evidence = Evidence(verdict: Verdict, fingerprints: seq<string>, unclassifiable: bool, ambiguous: bool)

  // How one selector relates to the path, before any `@` in the path is known.
  datatype Reading = Unreadable | PathMatch | CaseMatch | Swallowing | Apart

  // `str.partition("@")`
  function AtSign(s: string): (n: nat)
    ensures n <= |s|
    ensures n < |s| ==> s[n] == '@'
    ensures '@' !in s[..n]
  {
    if s == "" || s[0] == '@' then 0
    else
      var n := AtSign(s[1..]);
      assert s[..n + 1] == [s[0]] + s[1..][..n];
      n + 1
  }

  predicate HasBracket(s: string) { HasGlob(s) || ']' in s }

  function Read(fold: string -> string, path: string, selector: string): Reading {
    var n := AtSign(selector);
    var before := selector[..n];
    if n == |selector| || n + 1 == |selector| || '@' in selector[n + 1..] then Unreadable
    else if Matches(before, path) then PathMatch
    else if Matches(fold(before), fold(path)) then CaseMatch
    else if HasBracket(before) then Swallowing
    else Apart
  }

  // What scanning one rule's selectors in order finds; a path match ends it.
  datatype Scan = Scan(matched: bool, incomplete: bool, ambiguous: bool)

  function ScanUpTo(fold: string -> string, path: string, selectors: seq<string>, n: nat): Scan
    requires n <= |selectors|
  {
    if n == 0 then Scan(false, false, false)
    else
      var seen := ScanUpTo(fold, path, selectors, n - 1);
      if seen.matched then seen
      else
        match Read(fold, path, selectors[n - 1])
        case Unreadable => seen.(incomplete := true)
        case PathMatch => seen.(matched := true)
        case CaseMatch => seen.(ambiguous := true)
        case Swallowing => seen.(incomplete := true)
        case Apart => seen
  }

  function Selectors(subject: Subject, w: Workflow): seq<string> {
    if subject.byWorkflowRef then w.workflowRefs else w.jobWorkflowRefs
  }

  function ScanRule(fold: string -> string, subject: Subject, rule: Rule): Scan {
    if rule.setId.Some? || !rule.body.Actions? then Scan(false, false, false)
    else
      var w := rule.body.workflow;
      var selectors := Selectors(subject, w);
      if w.repository != subject.repository then Scan(false, false, fold(w.repository) == fold(subject.repository))
      else if selectors == [] then Scan(true, false, false)
      else ScanUpTo(fold, subject.path, selectors, |selectors|)
  }

  function ScanRules(fold: string -> string, subject: Subject, rules: seq<Rule>, n: nat): Scan
    requires n <= |rules|
  {
    if n == 0 then Scan(false, false, false)
    else
      var seen, here := ScanRules(fold, subject, rules, n - 1), ScanRule(fold, subject, rules[n - 1]);
      Scan(seen.matched || here.matched, seen.incomplete || here.incomplete, seen.ambiguous || here.ambiguous)
  }

  function VerdictOf(scan: Scan): Verdict {
    if scan.incomplete || scan.ambiguous then Unknown else if scan.matched then PotentialDependency else NoMatchingRule
  }

  // The rules matched among the first `n`.
  function MatchedUpTo(fold: string -> string, digest: Rule -> string, subject: Subject, rules: seq<Rule>, n: nat): (matched: seq<string>)
    requires n <= |rules|
    ensures matched != [] <==> ScanRules(fold, subject, rules, n).matched
    ensures forall s :: s in matched <==> exists i :: 0 <= i < n && ScanRule(fold, subject, rules[i]).matched && digest(rules[i]) == s
  {
    if n == 0 then []
    else
      var earlier := MatchedUpTo(fold, digest, subject, rules, n - 1);
      if ScanRule(fold, subject, rules[n - 1]).matched then earlier + [digest(rules[n - 1])] else earlier
  }

  method UnmanagedWorkflow(fold: string -> string, digest: Rule -> string, rules: seq<Rule>, subject: Subject) returns (evidence: Evidence)
    ensures evidence.verdict == VerdictOf(ScanRules(fold, subject, rules, |rules|))
    ensures evidence.fingerprints == SortedSet(MatchedUpTo(fold, digest, subject, rules, |rules|))
    ensures evidence.unclassifiable == ScanRules(fold, subject, rules, |rules|).incomplete
    ensures evidence.ambiguous == ScanRules(fold, subject, rules, |rules|).ambiguous
  {
    hide Read;
    var matched: seq<string>, incomplete, ambiguous := [], false, false;
    for i := 0 to |rules|
      invariant matched == MatchedUpTo(fold, digest, subject, rules, i)
      invariant ScanRules(fold, subject, rules, i) == Scan(matched != [], incomplete, ambiguous)
    {
      if rules[i].setId.Some? || !rules[i].body.Actions? {
        continue;
      }
      var w := rules[i].body.workflow;
      if w.repository != subject.repository {
        if fold(w.repository) == fold(subject.repository) {
          ambiguous := true;
        }
        continue;
      }
      var selectors := Selectors(subject, w);
      if selectors == [] {
        matched := matched + [digest(rules[i])];
        continue;
      }
      ghost var earlier, before := matched, Scan(matched != [], incomplete, ambiguous);
      var found, k := false, 0;
      while k < |selectors| && !found
        invariant 0 <= k <= |selectors|
        invariant var seen := ScanUpTo(fold, subject.path, selectors, k);
                  && found == seen.matched && matched == (if found then earlier + [digest(rules[i])] else earlier)
                  && incomplete == (before.incomplete || seen.incomplete) && ambiguous == (before.ambiguous || seen.ambiguous)
        decreases |selectors| - k
      {
        var reading := Read(fold, subject.path, selectors[k]);
        if reading.Unreadable? || reading.Swallowing? {
          incomplete := true;
        } else if reading.PathMatch? {
          matched := matched + [digest(rules[i])];
          found := true;
        } else if reading.CaseMatch? {
          ambiguous := true;
        }
        k := k + 1;
      }
      if found {
        ScanStops(fold, subject.path, selectors, k);
      }
    }
    var verdict := if incomplete || ambiguous then Unknown else if matched != [] then PotentialDependency else NoMatchingRule;
    return Evidence(verdict, SortedSet(matched), incomplete, ambiguous);
  }

  lemma {:induction false} ScanStops(fold: string -> string, path: string, selectors: seq<string>, k: nat)
    requires k <= |selectors| && ScanUpTo(fold, path, selectors, k).matched
    ensures ScanUpTo(fold, path, selectors, |selectors|) == ScanUpTo(fold, path, selectors, k)
    decreases |selectors| - k
  {
    if k < |selectors| {
      ScanStops(fold, path, selectors, k + 1);
    }
  }

  // ----- the verdict is sound -----

  // A plain path in front of `@` matches no other path's references, even
  // where the reference part holds a glob that could swallow the `@`.
  lemma ApartNeverMatches(fold: string -> string, path: string, selector: string, ref: string)
    ensures '@' !in path && Read(fold, path, selector).Apart? ==> !Matches(selector, path + "@" + ref)
  {
    if '@' !in path && Read(fold, path, selector).Apart? {
      var n := AtSign(selector);
      var before, text := selector[..n], path + "@" + ref;
      assert selector == (before + "@") + selector[n + 1..];
      assert !HasGlob(before + "@");
      LiteralPrefix(before + "@", selector[n + 1..], text);
      LiteralMatches(before, path);
      if before + "@" <= text {
        SamePath(before, path, ref);
      }
    }
  }

  lemma SamePath(before: string, path: string, ref: string)
    ensures '@' !in before && '@' !in path && before + "@" <= path + "@" + ref ==> before == path
  {
    if '@' !in before && '@' !in path && before + "@" <= path + "@" + ref {
      var text := path + "@" + ref;
      assert text[|before|] == (before + "@")[|before|] == '@';
      assert text[|path|] == '@';
      assert forall i :: 0 <= i < |before| ==> text[i] == before[i];
      assert forall i :: 0 <= i < |path| ==> text[i] == path[i];
    }
  }

  lemma {:induction false} CleanScan(fold: string -> string, path: string, selectors: seq<string>, n: nat, k: nat)
    requires k < n <= |selectors| && VerdictOf(ScanUpTo(fold, path, selectors, n)).NoMatchingRule?
    ensures Read(fold, path, selectors[k]).Apart?
  {
    if k < n - 1 {
      CleanScan(fold, path, selectors, n - 1, k);
    }
  }

  lemma {:induction false} CleanRules(fold: string -> string, subject: Subject, rules: seq<Rule>, n: nat, i: nat)
    requires i < n <= |rules| && VerdictOf(ScanRules(fold, subject, rules, n)).NoMatchingRule?
    ensures VerdictOf(ScanRule(fold, subject, rules[i])).NoMatchingRule?
  {
    if i < n - 1 {
      CleanRules(fold, subject, rules, n - 1, i);
    }
  }

  // `no_matching_rule`: every unmanaged rule of the repository names its
  // workflows, and none of its selectors matches this file at any reference.
  lemma NoMatchingRuleIsSound(fold: string -> string, subject: Subject, rules: seq<Rule>, i: nat, ref: string)
    requires VerdictOf(ScanRules(fold, subject, rules, |rules|)).NoMatchingRule? && '@' !in subject.path
    requires i < |rules| && rules[i].setId.None? && rules[i].body.Actions? && rules[i].body.workflow.repository == subject.repository
    ensures var selectors := Selectors(subject, rules[i].body.workflow);
            selectors != [] && forall s :: s in selectors ==> !Matches(s, subject.path + "@" + ref)
  {
    var selectors := Selectors(subject, rules[i].body.workflow);
    CleanRules(fold, subject, rules, |rules|, i);
    forall k | 0 <= k < |selectors|
      ensures !Matches(selectors[k], subject.path + "@" + ref)
    {
      CleanScan(fold, subject.path, selectors, |selectors|, k);
      ApartNeverMatches(fold, subject.path, selectors[k], ref);
    }
  }

  // So no unmanaged rule can allow a run of that workflow file, and evaluating
  // one of the repository reports a failure.
  lemma NoUnmanagedRuleAllows(fold: string -> string, subject: Subject, rules: seq<Rule>, i: nat, ref: string,
                              tables: Tables, schema: nat, id: Identity, request: Request)
    requires VerdictOf(ScanRules(fold, subject, rules, |rules|)).NoMatchingRule? && '@' !in subject.path
    requires i < |rules| && rules[i].setId.None? && rules[i].body.Actions?
    requires id.repository == subject.repository
    requires Strip(if subject.byWorkflowRef then id.workflowRef else id.jobWorkflowRef) == subject.path + "@" + ref
    ensures !Allows(tables, schema, rules[i].body.workflow, id, request)
    ensures rules[i].body.workflow.repository == id.repository ==>
              FailuresAmong(tables, schema, rules[i].body.workflow, id, request, CATEGORIES) != []
  {
    if rules[i].body.workflow.repository == subject.repository {
      DecisionIsAllows(tables, schema, rules[i].body.workflow, id, request);
      NoMatchingRuleIsSound(fold, subject, rules, i, ref);
      assert Fails(tables, schema, rules[i].body.workflow, id, request, if subject.byWorkflowRef then WorkflowRef else JobWorkflowRef);
    }
  }

  // ----- the verdict is exact -----

  // A selector of the form path@ref, with one `@` and a reference.
  predicate IsSelector(selector: string, before: string, ref: string) {
    selector == before + "@" + ref && '@' !in before && '@' !in ref && ref != ""
  }

  // The path part matches the file.
  ghost predicate NamesFile(path: string, selector: string) {
    exists before, ref :: IsSelector(selector, before, ref) && Matches(before, path)
  }

  // The path part has no glob and is another file's, whatever the case.
  ghost predicate NamesOther(fold: string -> string, path: string, selector: string) {
    exists before, ref :: IsSelector(selector, before, ref) && !HasGlob(before) && ']' !in before
                       && !Matches(before, path) && !Matches(fold(before), fold(path))
  }

  lemma {:induction false} AtSignIs(s: string, k: nat)
    requires k < |s| && s[k] == '@' && forall i :: 0 <= i < k ==> s[i] != '@'
    ensures AtSign(s) == k
  {
    if k > 0 {
      AtSignIs(s[1..], k - 1);
    }
  }

  lemma OneAtSign(selector: string, before: string, ref: string)
    ensures IsSelector(selector, before, ref) ==> AtSign(selector) == |before| && selector[..|before|] == before && selector[|before| + 1..] == ref
  {
    if IsSelector(selector, before, ref) {
      assert forall i :: 0 <= i < |before| ==> selector[i] == before[i];
      AtSignIs(selector, |before|);
    }
  }

  lemma ReadExactly(fold: string -> string, path: string, selector: string)
    ensures Read(fold, path, selector).PathMatch? <==> NamesFile(path, selector)
    ensures Read(fold, path, selector).Apart? <==> NamesOther(fold, path, selector)
  {
    var n := AtSign(selector);
    forall before, ref | IsSelector(selector, before, ref)
      ensures n == |before| && selector[..n] == before && selector[n + 1..] == ref
    {
      OneAtSign(selector, before, ref);
    }
    if n < |selector| && n + 1 != |selector| && '@' !in selector[n + 1..] {
      assert selector == selector[..n] + "@" + selector[n + 1..];
      assert IsSelector(selector, selector[..n], selector[n + 1..]);
    }
  }

  lemma {:induction false} ScanExactly(fold: string -> string, path: string, selectors: seq<string>, n: nat)
    requires n <= |selectors|
    ensures ScanUpTo(fold, path, selectors, n).matched <==> exists k :: 0 <= k < n && NamesFile(path, selectors[k])
    ensures ScanUpTo(fold, path, selectors, n) == Scan(false, false, false) <==> forall k :: 0 <= k < n ==> NamesOther(fold, path, selectors[k])
  {
    hide Read, NamesFile, NamesOther;
    if n > 0 {
      ScanExactly(fold, path, selectors, n - 1);
      ReadExactly(fold, path, selectors[n - 1]);
    }
  }

  // The unmanaged rule depends on the file: it is for the repository, and it
  // names no workflow at all or a path that matches.
  ghost predicate Depends(subject: Subject, rule: Rule) {
    && rule.setId.None? && rule.body.Actions? && rule.body.workflow.repository == subject.repository
    && var selectors := Selectors(subject, rule.body.workflow);
       selectors == [] || exists s :: s in selectors && NamesFile(subject.path, s)
  }

  // The rule is plainly apart from the file: managed, no workflow rule, for a
  // repository of another name, or naming only plain paths of other files.
  ghost predicate IsApart(fold: string -> string, subject: Subject, rule: Rule) {
    rule.setId.None? && rule.body.Actions? ==>
      if rule.body.workflow.repository != subject.repository then fold(rule.body.workflow.repository) != fold(subject.repository)
      else
        var selectors := Selectors(subject, rule.body.workflow);
        selectors != [] && forall s :: s in selectors ==> NamesOther(fold, subject.path, s)
  }

  lemma RuleExactly(fold: string -> string, subject: Subject, rule: Rule)
    ensures ScanRule(fold, subject, rule).matched <==> Depends(subject, rule)
    ensures ScanRule(fold, subject, rule) == Scan(false, false, false) <==> IsApart(fold, subject, rule)
  {
    hide NamesFile, NamesOther, Read;
    if rule.setId.None? && rule.body.Actions? {
      var selectors := Selectors(subject, rule.body.workflow);
      ScanExactly(fold, subject.path, selectors, |selectors|);
      assert forall k :: 0 <= k < |selectors| ==> selectors[k] in selectors;
    }
  }

  // The scan lists exactly the rules that depend on the file, and finds no
  // matching rule exactly when every rule is plainly apart from it.
  lemma {:induction false} VerdictIsExact(fold: string -> string, digest: Rule -> string, subject: Subject, rules: seq<Rule>, n: nat)
    requires n <= |rules|
    ensures forall s :: s in MatchedUpTo(fold, digest, subject, rules, n) <==>
                        exists i :: 0 <= i < n && Depends(subject, rules[i]) && digest(rules[i]) == s
    ensures VerdictOf(ScanRules(fold, subject, rules, n)).NoMatchingRule? <==> forall i :: 0 <= i < n ==> IsApart(fold, subject, rules[i])
  {
    hide ScanRule, Depends, IsApart;
    forall i | 0 <= i < n
      ensures ScanRule(fold, subject, rules[i]).matched <==> Depends(subject, rules[i])
    {
      RuleExactly(fold, subject, rules[i]);
    }
    if n > 0 {
      VerdictIsExact(fold, digest, subject, rules, n - 1);
      RuleExactly(fold, subject, rules[n - 1]);
    }
  }
}
