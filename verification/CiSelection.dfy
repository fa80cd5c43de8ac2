// The tests affected by a change (`select_modules`), given who imports whom.
module CiSelection {
  import opened Options
  import opened StringOrder

  type Consumers = map<string, set<string>>

  // Whether a component of a module name is a Python identifier.
  type Identifier = string -> bool

  // ----- names -----

  predicate EndsWith(s: string, suffix: string) { |suffix| <= |s| && s[|s| - |suffix|..] == suffix }

  function WithoutSuffix(s: string, suffix: string): string { if EndsWith(s, suffix) then s[..|s| - |suffix|] else s }

  function Dotted(s: string): string { seq(|s|, i requires 0 <= i < |s| => if s[i] == '/' then '.' else s[i]) }

  function ModuleName(path: string): string { Dotted(WithoutSuffix(WithoutSuffix(path, ".py"), "/__init__")) }

  function Components(name: string): seq<string> {
    if name == "" then [""]
    else
      var rest := Components(name[1..]);
      if name[0] == '.' then [""] + rest else if rest == [] then [[name[0]]] else [[name[0]] + rest[0]] + rest[1..]
  }

  predicate IsDocumentation(path: string) {
    ("docs/" <= path && EndsWith(path, ".md")) || path == "README.md" || path == "AGENTS.md"
  }

  predicate IsSelectable(sources: set<string>, identifier: Identifier, path: string) {
    && path in sources && EndsWith(path, ".py") && ("control_plane/" <= path || "tests/" <= path)
    && (forall c :: c in Components(ModuleName(path)) ==> identifier(c))
    && !EndsWith(path, "/__init__.py")
  }

  function ModulesOf(sources: set<string>): set<string> { set path | path in sources && EndsWith(path, ".py") :: ModuleName(path) }

  // ----- reachability -----

  function ConsumersOf(consumers: Consumers, module_: string): set<string> { if module_ in consumers then consumers[module_] else {} }

  // A chain of imports, each consuming the one before.
  ghost predicate IsChain(consumers: Consumers, chain: seq<string>) {
    chain != [] && forall i :: 0 <= i < |chain| - 1 ==> chain[i + 1] in ConsumersOf(consumers, chain[i])
  }

  ghost predicate Reaches(consumers: Consumers, a: string, b: string) {
    exists chain :: IsChain(consumers, chain) && chain[0] == a && chain[|chain| - 1] == b
  }

  lemma ReachesItself(consumers: Consumers, a: string)
    ensures Reaches(consumers, a, a)
  {
    assert IsChain(consumers, [a]);
  }

  lemma ReachesNext(consumers: Consumers, a: string, b: string, c: string)
    ensures Reaches(consumers, a, b) && c in ConsumersOf(consumers, b) ==> Reaches(consumers, a, c)
  {
    if Reaches(consumers, a, b) && c in ConsumersOf(consumers, b) {
      var chain :| IsChain(consumers, chain) && chain[0] == a && chain[|chain| - 1] == b;
      assert IsChain(consumers, chain + [c]);
    }
  }

  ghost predicate Closed(consumers: Consumers, some: set<string>) {
    forall m, n :: m in some && n in ConsumersOf(consumers, m) ==> n in some
  }

  lemma {:induction false} ClosedHoldsChains(consumers: Consumers, some: set<string>, chain: seq<string>, n: nat)
    requires Closed(consumers, some) && IsChain(consumers, chain) && chain[0] in some && n < |chain|
    ensures chain[n] in some
  {
    if n > 0 {
      ClosedHoldsChains(consumers, some, chain, n - 1);
    }
  }

  lemma ClosedHoldsReached(consumers: Consumers, some: set<string>, a: string)
    ensures Closed(consumers, some) && a in some ==> forall b :: Reaches(consumers, a, b) ==> b in some
  {
    if Closed(consumers, some) && a in some {
      forall b | Reaches(consumers, a, b)
        ensures b in some
      {
        var chain :| IsChain(consumers, chain) && chain[0] == a && chain[|chain| - 1] == b;
        ClosedHoldsChains(consumers, some, chain, |chain| - 1);
      }
    }
  }

  function Nodes(consumers: Consumers): set<string> { consumers.Keys + set m, n | m in consumers && n in consumers[m] :: n }

  // The worklist: everything that transitively consumes the start, on any
  // import graph, cyclic or not.
  method Closure(consumers: Consumers, start: string) returns (seen: set<string>)
    ensures forall m :: m in seen <==> Reaches(consumers, start, m)
  {
    hide Reaches, Nodes;
    ghost var universe := {start} + Nodes(consumers);
    var pending := [start];
    seen := {};
    ReachesItself(consumers, start);
    while pending != []
      invariant seen <= universe && (forall m :: m in pending ==> m in universe)
      invariant start in seen || start in pending
      invariant forall m :: m in seen || m in pending ==> Reaches(consumers, start, m)
      invariant forall m, n :: m in seen && n in ConsumersOf(consumers, m) ==> n in seen || n in pending
      decreases universe - seen, |pending|
    {
      var module_ := pending[|pending| - 1];
      var rest := pending[..|pending| - 1];
      assert forall m :: m in pending <==> m in rest || m == module_;
      if module_ in seen {
        pending := rest;
      } else {
        var next := ListOf(ConsumersOf(consumers, module_));
        forall n | n in next
          ensures Reaches(consumers, start, n) && n in universe
        {
          ReachesNext(consumers, start, module_, n);
          ConsumersAreNodes(consumers, module_, n);
        }
        seen := seen + {module_};
        pending := rest + next;
      }
    }
    ClosedHoldsReached(consumers, seen, start);
  }

  lemma ConsumersAreNodes(consumers: Consumers, m: string, n: string)
    ensures n in ConsumersOf(consumers, m) ==> n in Nodes(consumers)
  {}

  method ListOf(values: set<string>) returns (list: seq<string>)
    ensures forall v :: v in list <==> v in values
  {
    list := [];
    var left := values;
    while left != {}
      invariant left <= values && forall v :: v in list <==> v in values && v !in left
    {
      var v :| v in left;
      list := list + [v];
      left := left - {v};
    }
  }

  // ----- what the selection means -----

  predicate IsTest(sources: set<string>, module_: string) { "tests.test" <= module_ && module_ in ModulesOf(sources) }

  // The tests that a changed source reaches.
  ghost predicate Affects(sources: set<string>, consumers: Consumers, path: string, test: string) {
    IsTest(sources, test) && Reaches(consumers, ModuleName(path), test)
  }

  // A changed path can be narrowed to tests.
  ghost predicate Narrows(sources: set<string>, consumers: Consumers, native: set<string>, identifier: Identifier, path: string) {
    && IsSelectable(sources, identifier, path)
    && (forall m :: Reaches(consumers, ModuleName(path), m) ==> !("scripts." <= m))
    && (forall t :: Affects(sources, consumers, path, t) ==> t !in native)
    && (exists t :: Affects(sources, consumers, path, t))
  }

  // Exactly the tests affected by the changed paths that are not documentation.
  ghost predicate IsAffected(sources: set<string>, changed: set<string>, consumers: Consumers, test: string) {
    exists path :: path in changed && !IsDocumentation(path) && Affects(sources, consumers, path, test)
  }

  ghost predicate AllNarrow(sources: set<string>, changed: set<string>, consumers: Consumers, native: set<string>, identifier: Identifier) {
    forall path :: path in changed && !IsDocumentation(path) ==> Narrows(sources, consumers, native, identifier, path)
  }

  // ----- the selection -----

  // The tests of one path, unless it cannot be narrowed.
  method TestsOf(sources: set<string>, consumers: Consumers, native: set<string>, identifier: Identifier, path: string)
    returns (tests: Option<set<string>>)
    ensures tests.Some? <==> Narrows(sources, consumers, native, identifier, path)
    ensures tests.Some? ==> forall t :: t in tests.value <==> Affects(sources, consumers, path, t)
  {
    hide Reaches, ModulesOf, IsSelectable, ModuleName;
    if !IsSelectable(sources, identifier, path) {
      return None;
    }
    var seen := Closure(consumers, ModuleName(path));
    if exists m :: m in seen && "scripts." <= m {
      return None;
    }
    var found := set m | m in seen && IsTest(sources, m);
    assert forall t :: t in found <==> Affects(sources, consumers, path, t);
    if found * native != {} {
      ghost var t :| t in found * native;
      assert Affects(sources, consumers, path, t);
      return None;
    }
    assert forall t :: Affects(sources, consumers, path, t) ==> t !in native by {
      forall t | Affects(sources, consumers, path, t)
        ensures t !in native
      {
        assert t in found && t !in found * native;
      }
    }
    if found == {} {
      return None;
    }
    ghost var t :| t in found;
    return Some(found);
  }

  method SelectModules(sources: set<string>, changed: set<string>, consumers: Consumers, maxModules: nat, native: set<string>,
                       identifier: Identifier)
    returns (selected: Option<seq<string>>)
    ensures selected.Some? ==> AllNarrow(sources, changed, consumers, native, identifier)
    ensures selected.Some? ==> IsSorted(selected.value) && |selected.value| <= maxModules
    ensures selected.Some? ==> forall t :: t in selected.value <==> IsAffected(sources, changed, consumers, t)
    ensures selected.None? && AllNarrow(sources, changed, consumers, native, identifier) ==>
              exists affected: set<string> :: |affected| > maxModules && forall t :: t in affected ==> IsAffected(sources, changed, consumers, t)
  {
    hide Reaches, Affects, Narrows, IsDocumentation;
    var affected: set<string> := {};
    var left := changed;
    while left != {}
      invariant left <= changed && |affected| <= maxModules
      invariant forall path :: path in changed && path !in left && !IsDocumentation(path) ==> Narrows(sources, consumers, native, identifier, path)
      invariant forall t :: t in affected ==> IsAffected(sources, changed, consumers, t)
      invariant forall t, path :: path in changed && path !in left && !IsDocumentation(path) && Affects(sources, consumers, path, t) ==> t in affected
    {
      var path :| path in left;
      left := left - {path};
      if !IsDocumentation(path) {
        var tests := TestsOf(sources, consumers, native, identifier, path);
        if tests.None? {
          return None;
        }
        affected := affected + tests.value;
        if |affected| > maxModules {
          return None;
        }
      }
    }
    var list := SortSet(affected);
    SortedCount(list, affected);
    return Some(list);
  }

  lemma {:induction false} SortedCount(list: seq<string>, values: set<string>)
    requires IsSorted(list) && forall v :: v in list <==> v in values
    ensures |list| == |values|
    decreases |list|
  {
    if list == [] {
      assert values == {};
    } else {
      var front, last := list[..|list| - 1], list[|list| - 1];
      assert list == front + [last];
      forall v | v in front
        ensures v != last
      {
        NotBoth(v, last);
      }
      SortedCount(front, values - {last});
    }
  }
}
