// Normalisation does not see the order of unordered lists, nor keys that are
// not part of a schema.
module SchemaOrder {
  import opened Options
  import opened StringOrder
  import opened CanonicalJson
  import opened SchemaNormal

  // ----- sorting by canonical text -----

  predicate NotAfter(a: string, b: string) { !Before(b, a) }

  ghost predicate InOrder(items: seq<Json>) { forall i, j :: 0 <= i < j < |items| ==> NotAfter(Text(items[i]), Text(items[j])) }

  lemma NotAfterChains(a: string, b: string, c: string)
    ensures NotAfter(a, b) && NotAfter(b, c) ==> NotAfter(a, c)
  {
    if NotAfter(a, b) && NotAfter(b, c) {
      OneOrOther(a, b);
      OneOrOther(b, c);
      NotBoth(a, c);
      if Before(a, b) && Before(b, c) {
        Chained(a, b, c);
      }
    }
  }

  lemma {:induction false} PlacedInOrder(sorted: seq<Json>, x: Json)
    requires InOrder(sorted)
    ensures InOrder(Placed(sorted, x)) && multiset(Placed(sorted, x)) == multiset(sorted) + multiset{x}
  {
    hide Text;
    if sorted == [] {
    } else if !Before(Text(x), Text(sorted[|sorted| - 1])) {
      forall i | 0 <= i < |sorted|
        ensures NotAfter(Text(sorted[i]), Text(x))
      {
        if i < |sorted| - 1 {
          NotAfterChains(Text(sorted[i]), Text(sorted[|sorted| - 1]), Text(x));
        }
      }
    } else {
      var front, last := sorted[..|sorted| - 1], sorted[|sorted| - 1];
      PlacedInOrder(front, x);
      assert sorted == front + [last];
      NotBoth(Text(x), Text(last));
      var placed := Placed(front, x);
      forall i | 0 <= i < |placed|
        ensures NotAfter(Text(placed[i]), Text(last))
      {
        assert placed[i] in multiset(placed);
        assert placed[i] in multiset(front) || placed[i] == x;
      }
    }
  }

  lemma {:induction false} SortedInOrder(items: seq<Json>)
    ensures InOrder(SortedByText(items)) && multiset(SortedByText(items)) == multiset(items)
  {
    hide Text, Placed;
    if items != [] {
      var front, last := items[..|items| - 1], items[|items| - 1];
      SortedInOrder(front);
      PlacedInOrder(SortedByText(front), last);
      assert items == front + [last];
    }
  }

  // Values in order are determined by what they are.
  lemma {:induction false} OrderIsUnique(s: seq<Json>, t: seq<Json>)
    requires InOrder(s) && InOrder(t) && multiset(s) == multiset(t)
    ensures s == t
  {
    hide Text, InOrder;
    assert |s| == |multiset(s)| && |t| == |multiset(t)|;
    if s != [] {
      SameLast(s, t);
      SameFront(s, t);
      OrderIsUnique(s[..|s| - 1], t[..|t| - 1]);
      assert s == s[..|s| - 1] + [s[|s| - 1]] && t == t[..|t| - 1] + [t[|t| - 1]];
    }
  }

  lemma SameFront(s: seq<Json>, t: seq<Json>)
    requires InOrder(s) && InOrder(t) && multiset(s) == multiset(t) && s != [] && t != [] && s[|s| - 1] == t[|t| - 1]
    ensures multiset(s[..|s| - 1]) == multiset(t[..|t| - 1]) && InOrder(s[..|s| - 1]) && InOrder(t[..|t| - 1])
  {
    FrontInOrder(s);
    FrontInOrder(t);
    hide InOrder;
    FrontMultiset(s);
    FrontMultiset(t);
  }

  lemma FrontInOrder(s: seq<Json>)
    ensures InOrder(s) && s != [] ==> InOrder(s[..|s| - 1])
  {
    hide Text;
  }

  lemma FrontMultiset(s: seq<Json>)
    ensures s != [] ==> multiset(s[..|s| - 1]) == multiset(s) - multiset{s[|s| - 1]}
  {
    if s != [] {
      assert s == s[..|s| - 1] + [s[|s| - 1]];
    }
  }

  lemma SameLast(s: seq<Json>, t: seq<Json>)
    ensures InOrder(s) && InOrder(t) && multiset(s) == multiset(t) && s != [] && t != [] ==> s[|s| - 1] == t[|t| - 1]
  {
    hide Text, InOrder;
    if InOrder(s) && InOrder(t) && multiset(s) == multiset(t) && s != [] && t != [] {
      LastIsGreatest(s, t);
      LastIsGreatest(t, s);
      OneOrOther(Text(s[|s| - 1]), Text(t[|t| - 1]));
      TextIsInjective(s[|s| - 1], t[|t| - 1]);
    }
  }

  lemma LastIsGreatest(s: seq<Json>, t: seq<Json>)
    ensures InOrder(s) && s != [] && multiset(s) == multiset(t) && t != [] ==>
              NotAfter(Text(t[|t| - 1]), Text(s[|s| - 1]))
  {
    hide Text;
    if InOrder(s) && s != [] && multiset(s) == multiset(t) && t != [] {
      var last := t[|t| - 1];
      assert last in multiset(t) && last in multiset(s);
      var i :| 0 <= i < |s| && s[i] == last;
      NotBoth(Text(last), Text(last));
    }
  }

  lemma SortingForgetsOrder(s: seq<Json>, t: seq<Json>)
    requires multiset(s) == multiset(t)
    ensures SortedByText(s) == SortedByText(t)
  {
    SortedInOrder(s);
    SortedInOrder(t);
    OrderIsUnique(SortedByText(s), SortedByText(t));
  }

  // ----- schemas that differ in order and in other keys -----

  // No reference at any depth of the schema.
  predicate NoReferences(a: Json)
    decreases a, 1
  {
    a.Obj? ==> "$ref" !in a.fields && forall k :: k in a.fields && IsSchemaKey(k) ==> NoReferencesAt(k, a.fields[k])
  }

  predicate NoReferencesAt(key: string, v: Json)
    decreases v, 2
  {
    if key == "properties" && v.Obj? then forall name :: name in v.fields ==> NoReferences(v.fields[name])
    else if key in {"items", "additionalProperties"} then NoReferences(v)
    else if key in {"anyOf", "oneOf", "allOf"} && v.Arr? then forall i :: 0 <= i < |v.items| ==> NoReferences(v.items[i])
    else true
  }

  // The same reference and schema keys, each list that a schema takes as
  // unordered being in some order, at every depth; and the same definitions
  // wherever there is a reference to read them.
  ghost predicate Variant(a: Json, b: Json)
    decreases a, 1
  {
    if a.Obj? && b.Obj? then
      && ("$ref" in a.fields <==> "$ref" in b.fields) && ("$ref" in a.fields ==> a.fields["$ref"] == b.fields["$ref"])
      && (NoReferences(a) || (DefsOf(a).Keys == DefsOf(b).Keys && forall n :: n in DefsOf(a) ==> Variant(DefsOf(a)[n], DefsOf(b)[n])))
      && (forall k :: IsSchemaKey(k) ==> (k in a.fields <==> k in b.fields))
      && (forall k :: IsSchemaKey(k) && k in a.fields ==> VariantAt(k, a.fields[k], b.fields[k]))
    else a == b
  }

  ghost predicate VariantAt(key: string, v: Json, w: Json)
    decreases v, 2
  {
    if key == "properties" && v.Obj? && w.Obj? then
      v.fields.Keys == w.fields.Keys && forall name :: name in v.fields ==> Variant(v.fields[name], w.fields[name])
    else if key in {"items", "additionalProperties"} then Variant(v, w)
    else if key in {"anyOf", "oneOf", "allOf"} && v.Arr? && w.Arr? then Permuted(v, |v.items|, w.items)
    else if key in {"enum", "required"} && v.Arr? && w.Arr? then multiset(v.items) == multiset(w.items)
    else v == w
  }

  // The first n items are variants of these, in some order.
  ghost predicate Permuted(list: Json, n: nat, others: seq<Json>)
    requires list.Arr? && n <= |list.items|
    decreases list, 0, n
  {
    if n == 0 then others == []
    else exists j :: 0 <= j < |others| && Variant(list.items[n - 1], others[j]) && Permuted(list, n - 1, Without(others, j))
  }

  function Without(items: seq<Json>, j: nat): seq<Json>
    requires j < |items|
  {
    items[..j] + items[j + 1..]
  }

  ghost predicate TablesVary(s: Table, t: Table) { s.Keys == t.Keys && forall n :: n in s && n in t ==> Variant(s[n], t[n]) }

  // ----- normalisation agrees on variants -----

  // The names known on either side may differ: they only bound the recursion.
  // A schema without references may be read beside any tables.
  ghost predicate Tables(free: bool, u: set<RefKey>, v: set<RefKey>, components: Table, components': Table, definitions: Table,
                         definitions': Table, resolving: set<RefKey>, resolving': set<RefKey>) {
    && ComponentsKnown(u, components) && DefinitionsKnown(u, definitions)
    && ComponentsKnown(v, components') && DefinitionsKnown(v, definitions')
    && (free || (TablesVary(components, components') && TablesVary(definitions, definitions') && resolving == resolving'))
  }

  lemma LocalDefinitionsVary(u: set<RefKey>, v: set<RefKey>, a: Json, b: Json, components: Table, components': Table,
                             definitions: Table, definitions': Table, resolving: set<RefKey>, resolving': set<RefKey>)
    requires Known(u, a) && Known(v, b) && Variant(a, b)
    requires Tables(NoReferences(a), u, v, components, components', definitions, definitions', resolving, resolving')
    ensures Tables(NoReferences(a), u, v, components, components', definitions + DefsOf(a), definitions' + DefsOf(b), resolving, resolving')
  {
    hide Known, Variant, DefsOf, DefinitionsKnown, ComponentsKnown, TablesVary, NoReferences;
    KnownWithin(u, a);
    KnownWithin(v, b);
    VariantDefs(a, b);
    JoinedKnown(u, definitions, DefsOf(a));
    JoinedKnown(v, definitions', DefsOf(b));
    JoinedVary(definitions, DefsOf(a), definitions', DefsOf(b));
  }

  lemma JoinedKnown(universe: set<RefKey>, s: Table, t: Table)
    ensures DefinitionsKnown(universe, s) && DefinitionsKnown(universe, t) ==> DefinitionsKnown(universe, s + t)
  {
    hide Known;
  }

  lemma JoinedVary(s: Table, t: Table, s': Table, t': Table)
    ensures TablesVary(s, s') && TablesVary(t, t') ==> TablesVary(s + t, s' + t')
  {
    hide Variant;
    if TablesVary(s, s') && TablesVary(t, t') {
      assert (s + t).Keys == s.Keys + t.Keys && (s' + t').Keys == s'.Keys + t'.Keys;
    }
  }

  lemma VariantDefs(a: Json, b: Json)
    ensures Variant(a, b) && !NoReferences(a) ==> TablesVary(DefsOf(a), DefsOf(b))
  {}

  lemma {:induction false} Reflexive(a: Json)
    ensures Variant(a, a)
    decreases a, 1
  {
    if a.Obj? {
      forall n | n in DefsOf(a)
        ensures Variant(DefsOf(a)[n], DefsOf(a)[n])
      {
        Reflexive(DefsOf(a)[n]);
      }
      forall k | IsSchemaKey(k) && k in a.fields
        ensures VariantAt(k, a.fields[k], a.fields[k])
      {
        ReflexiveAt(a.fields[k]);
      }
    }
  }

  lemma {:induction false} ReflexiveAt(v: Json)
    ensures forall key :: VariantAt(key, v, v)
    decreases v, 2
  {
    Reflexive(v);
    if v.Obj? {
      forall name | name in v.fields
        ensures Variant(v.fields[name], v.fields[name])
      {
        Reflexive(v.fields[name]);
      }
    }
    if v.Arr? {
      ReflexiveItems(v, |v.items|);
      assert v.items[..|v.items|] == v.items;
    }
  }

  lemma {:induction false} ReflexiveItems(list: Json, n: nat)
    requires list.Arr? && n <= |list.items|
    ensures Permuted(list, n, list.items[..n])
    decreases list, 0, n
  {
    if n > 0 {
      Reflexive(list.items[n - 1]);
      ReflexiveItems(list, n - 1);
      assert Without(list.items[..n], n - 1) == list.items[..n - 1];
    }
  }

  // ----- the agreement, following the recursion -----

  lemma {:induction false} Agree(u: set<RefKey>, v: set<RefKey>, a: Json, b: Json, components: Table, components': Table,
                                 definitions: Table, definitions': Table, resolving: set<RefKey>, resolving': set<RefKey>)
    requires Known(u, a) && Known(v, b) && Variant(a, b)
    requires Tables(NoReferences(a), u, v, components, components', definitions, definitions', resolving, resolving')
    ensures Normalize(u, a, components, definitions, resolving) == Normalize(v, b, components', definitions', resolving')
    decreases u - resolving, a, 3
  {
    hide Known, TablesVary, DefinitionsKnown, ComponentsKnown, NormalizeKeys, Resolve, SortedByText, DefsOf, VariantAt, NoReferencesAt;
    KnownWithin(u, a);
    KnownWithin(v, b);
    var local, local' := definitions + DefsOf(a), definitions' + DefsOf(b);
    LocalDefinitionsVary(u, v, a, b, components, components', definitions, definitions', resolving, resolving');
    if IsReference(a) && IsReference(b) {
      AgreeResolve(u, v, a, b, components, components', local, local', resolving);
    }
    if a.Obj? && b.Obj? {
      AgreeKeys(u, v, a, b, components, components', local, local', resolving, resolving');
    }
  }

  lemma {:induction false} AgreeResolve(u: set<RefKey>, v: set<RefKey>, a: Json, b: Json, components: Table, components': Table,
                                        definitions: Table, definitions': Table, resolving: set<RefKey>)
    requires IsReference(a) && IsReference(b) && a.fields["$ref"] == b.fields["$ref"]
    requires Tables(false, u, v, components, components', definitions, definitions', resolving, resolving)
    ensures Resolve(u, a, components, definitions, resolving) == Resolve(v, b, components', definitions', resolving)
    decreases u - resolving, a, 2
  {
    hide Known, Variant, Normalize, LastSegment;
    var reference := a.fields["$ref"];
    if reference.Str? {
      var name := LastSegment(reference.text);
      if COMPONENTS <= reference.text {
        if Component(name) !in resolving && name in components {
          EmptyTables(u, v);
          Agree(u, v, components[name], components'[name], components, components', map[], map[], resolving + {Component(name)},
                resolving + {Component(name)});
        }
      } else if DEFINITIONS <= reference.text {
        if Definition(name) !in resolving && name in definitions {
          Agree(u, v, definitions[name], definitions'[name], components, components', definitions, definitions',
                resolving + {Definition(name)}, resolving + {Definition(name)});
        }
      }
    }
  }

  lemma EmptyTables(u: set<RefKey>, v: set<RefKey>)
    ensures DefinitionsKnown(u, map[]) && DefinitionsKnown(v, map[]) && TablesVary(map[], map[])
  {}

  lemma {:induction false} AgreeKeys(u: set<RefKey>, v: set<RefKey>, a: Json, b: Json, components: Table, components': Table,
                                     definitions: Table, definitions': Table, resolving: set<RefKey>, resolving': set<RefKey>)
    requires a.Obj? && b.Obj? && Known(u, a) && Known(v, b) && Variant(a, b)
    requires Tables(NoReferences(a), u, v, components, components', definitions, definitions', resolving, resolving')
    ensures NormalizeKeys(u, a, components, definitions, resolving) == NormalizeKeys(v, b, components', definitions', resolving')
    decreases u - resolving, a, 1
  {
    hide Known, TablesVary, DefinitionsKnown, ComponentsKnown, NormalizeKey, VariantAt, DefsOf, IsSchemaKey, NoReferences;
    forall k | k in a.fields && IsSchemaKey(k)
      ensures k in b.fields
      ensures NormalizeKey(u, a, k, components, definitions, resolving) == NormalizeKey(v, b, k, components', definitions', resolving')
    {
      AgreeKey(u, v, a, b, k, components, components', definitions, definitions', resolving, resolving');
    }
    assert forall k :: k in b.fields && IsSchemaKey(k) ==> k in a.fields;
    hide Variant;
    var s, t := NormalizeKeys(u, a, components, definitions, resolving), NormalizeKeys(v, b, components', definitions', resolving');
    assert s.Some? == t.Some?;
    if s.Some? && t.Some? {
      assert s.value.fields == t.value.fields;
    }
  }

  lemma {:induction false} AgreeKey(u: set<RefKey>, v: set<RefKey>, a: Json, b: Json, key: string, components: Table, components': Table,
                                    definitions: Table, definitions': Table, resolving: set<RefKey>, resolving': set<RefKey>)
    requires a.Obj? && b.Obj? && key in a.fields && key in b.fields && IsSchemaKey(key) && Known(u, a) && Known(v, b)
    requires VariantAt(key, a.fields[key], b.fields[key])
    requires Tables(NoReferences(a), u, v, components, components', definitions, definitions', resolving, resolving')
    ensures NormalizeKey(u, a, key, components, definitions, resolving) == NormalizeKey(v, b, key, components', definitions', resolving')
    decreases u - resolving, a, 0
  {
    hide Known, TablesVary, DefinitionsKnown, ComponentsKnown, Variant, Normalize, NormalizeItems, SortedByText, DefsOf, Permuted, NoReferences,
         IsSchemaKey;
    NoReferencesWithin(a, key);
    KnownWithin(u, a);
    KnownWithin(v, b);
    var x, y := a.fields[key], b.fields[key];
    KnownWithin(u, x);
    KnownWithin(v, y);
    if key == "properties" && x.Obj? && y.Obj? {
      AgreeProperties(u, v, a, b, components, components', definitions, definitions', resolving, resolving');
    } else if key in {"items", "additionalProperties"} {
      VariantKind(x, y);
      Agree(u, v, x, y, components, components', definitions, definitions', resolving, resolving');
    } else if key in {"anyOf", "oneOf", "allOf"} && x.Arr? && y.Arr? {
      AgreeItems(NoReferences(a), u, v, x, |x.items|, y, y.items, components, components', definitions, definitions', resolving, resolving');
      assert x.items[..|x.items|] == x.items;
    } else if key in {"enum", "required"} && x.Arr? && y.Arr? {
      SortingForgetsOrder(x.items, y.items);
    }
  }

  lemma {:induction false} AgreeProperties(u: set<RefKey>, v: set<RefKey>, a: Json, b: Json, components: Table, components': Table,
                                           definitions: Table, definitions': Table, resolving: set<RefKey>, resolving': set<RefKey>)
    requires a.Obj? && b.Obj? && "properties" in a.fields && "properties" in b.fields && Known(u, a) && Known(v, b)
    requires a.fields["properties"].Obj? && b.fields["properties"].Obj? && VariantAt("properties", a.fields["properties"], b.fields["properties"])
    requires Tables(NoReferences(a), u, v, components, components', definitions, definitions', resolving, resolving')
    ensures NormalizeKey(u, a, "properties", components, definitions, resolving) == NormalizeKey(v, b, "properties", components', definitions', resolving')
    decreases u - resolving, a.fields["properties"], 4
  {
    hide Known, TablesVary, DefinitionsKnown, ComponentsKnown, Variant, Normalize, DefsOf, Permuted, NoReferences;
    NoReferencesWithin(a, "properties");
    KnownWithin(u, a);
    KnownWithin(v, b);
    var x, y := a.fields["properties"], b.fields["properties"];
    KnownWithin(u, x);
    KnownWithin(v, y);
    forall name | name in x.fields
      ensures Normalize(u, x.fields[name], components, definitions, resolving) == Normalize(v, y.fields[name], components', definitions', resolving')
    {
      Agree(u, v, x.fields[name], y.fields[name], components, components', definitions, definitions', resolving, resolving');
    }
    var s, t := NormalizeKey(u, a, "properties", components, definitions, resolving), NormalizeKey(v, b, "properties", components', definitions', resolving');
    assert s.Some? == t.Some?;
    if s.Some? && t.Some? {
      assert s.value.fields == t.value.fields;
    }
  }

  lemma NoReferencesWithin(a: Json, key: string)
    ensures NoReferences(a) && a.Obj? && key in a.fields && IsSchemaKey(key) ==> NoReferencesAt(key, a.fields[key])
  {}

  lemma VariantKind(a: Json, b: Json)
    ensures Variant(a, b) ==> (a.Obj? && b.Obj?) || a == b
  {}

  // The same items normalised, in any order.
  ghost predicate SameItems(s: Option<seq<Json>>, t: Option<seq<Json>>) {
    s.Some? == t.Some? && (s.Some? && t.Some? ==> multiset(s.value) == multiset(t.value) && SortedByText(s.value) == SortedByText(t.value))
  }

  lemma {:induction false} AgreeItems(free: bool, u: set<RefKey>, v: set<RefKey>, x: Json, n: nat, y: Json, others: seq<Json>,
                                      components: Table, components': Table, definitions: Table, definitions': Table,
                                      resolving: set<RefKey>, resolving': set<RefKey>)
    requires x.Arr? && y.Arr? && n <= |x.items| && (forall o :: o in others ==> o in y.items) && Permuted(x, n, others)
    requires Known(u, x) && Known(v, y) && (free ==> forall i :: 0 <= i < |x.items| ==> NoReferences(x.items[i]))
    requires Tables(free, u, v, components, components', definitions, definitions', resolving, resolving')
    ensures SameItems(NormalizeItems(u, x, x.items[..n], components, definitions, resolving),
                      NormalizeItems(v, y, others, components', definitions', resolving'))
    decreases u - resolving, x, 0, n
  {
    hide Known, TablesVary, DefinitionsKnown, ComponentsKnown, Variant, Normalize, NormalizeItems, SortedByText, DefsOf, SameItems, Removes, Permuted,
         NoReferences;
    if n == 0 {
      PermutedNone(x, others);
      NoItems(u, x, components, definitions, resolving);
      NoItems(v, y, components', definitions', resolving');
    } else {
      var j := PermutedLast(x, n, others);
      var front, last := x.items[..n - 1], x.items[n - 1];
      AgreeItems(free, u, v, x, n - 1, y, Without(others, j), components, components', definitions, definitions', resolving, resolving');
      assert x.items[..n] == front + [last] && last in x.items;
      KnownMember(u, x, last);
      KnownMember(v, y, others[j]);
      Agree(u, v, last, others[j], components, components', definitions, definitions', resolving, resolving');
      ItemsLast(u, x, front, last, components, definitions, resolving);
      TakenOut(v, y, others, j, components', definitions', resolving');
      SameItemsGrow(NormalizeItems(u, x, front, components, definitions, resolving),
                    NormalizeItems(v, y, others, components', definitions', resolving'),
                    NormalizeItems(v, y, Without(others, j), components', definitions', resolving'),
                    Normalize(u, last, components, definitions, resolving));
    }
  }

  lemma PermutedNone(list: Json, others: seq<Json>)
    ensures list.Arr? && Permuted(list, 0, others) ==> others == []
  {}

  lemma PermutedLast(list: Json, n: nat, others: seq<Json>) returns (j: nat)
    requires list.Arr? && 0 < n <= |list.items| && Permuted(list, n, others)
    ensures j < |others| && Variant(list.items[n - 1], others[j]) && Permuted(list, n - 1, Without(others, j))
  {
    hide Variant;
    j :| j < |others| && Variant(list.items[n - 1], others[j]) && Permuted(list, n - 1, Without(others, j));
  }

  lemma NoItems(universe: set<RefKey>, list: Json, components: Table, definitions: Table, resolving: set<RefKey>)
    requires list.Arr? && Known(universe, list) && ComponentsKnown(universe, components) && DefinitionsKnown(universe, definitions)
    ensures NormalizeItems(universe, list, [], components, definitions, resolving) == Some([])
    ensures SameItems(Some([]), Some([]))
  {}

  lemma SameItemsGrow(s: Option<seq<Json>>, all: Option<seq<Json>>, rest: Option<seq<Json>>, one: Option<Json>)
    ensures SameItems(s, rest) && Removes(all, rest, one) ==>
              SameItems(if s.None? || one.None? then None else Some(s.value + [one.value]), all)
  {
    hide SortedByText;
    if SameItems(s, rest) && Removes(all, rest, one) {
      if s.Some? && one.Some? && all.Some? {
        SortingForgetsOrder(s.value + [one.value], all.value);
      }
    }
  }

  lemma ItemsLast(universe: set<RefKey>, list: Json, front: seq<Json>, last: Json, components: Table, definitions: Table,
                  resolving: set<RefKey>)
    requires list.Arr? && (forall x :: x in front + [last] ==> x in list.items)
    requires Known(universe, list) && ComponentsKnown(universe, components) && DefinitionsKnown(universe, definitions)
    requires Known(universe, last)
    ensures forall x :: x in front ==> x in front + [last]
    ensures var s, one := NormalizeItems(universe, list, front, components, definitions, resolving),
                Normalize(universe, last, components, definitions, resolving);
            NormalizeItems(universe, list, front + [last], components, definitions, resolving) ==
            if s.None? || one.None? then None else Some(s.value + [one.value])
  {
    hide Known, DefinitionsKnown, ComponentsKnown, Normalize;
    assert (front + [last])[..|front|] == front;
  }

  ghost predicate Removes(all: Option<seq<Json>>, rest: Option<seq<Json>>, one: Option<Json>) {
    && (all.Some? <==> rest.Some? && one.Some?)
    && (all.Some? ==> multiset(all.value) == multiset(rest.value) + multiset{one.value})
  }

  lemma RemovesGrows(all: Option<seq<Json>>, rest: Option<seq<Json>>, one: Option<Json>, last: Option<Json>)
    requires Removes(all, rest, one)
    ensures Removes(if all.None? || last.None? then None else Some(all.value + [last.value]),
                    if rest.None? || last.None? then None else Some(rest.value + [last.value]), one)
  {}

  // Taking one item out takes its normal form out.
  lemma {:induction false} TakenOut(universe: set<RefKey>, list: Json, items: seq<Json>, j: nat, components: Table, definitions: Table,
                                    resolving: set<RefKey>)
    requires list.Arr? && j < |items| && (forall x :: x in items ==> x in list.items)
    requires Known(universe, list) && ComponentsKnown(universe, components) && DefinitionsKnown(universe, definitions)
    requires Known(universe, items[j])
    ensures Removes(NormalizeItems(universe, list, items, components, definitions, resolving),
                    NormalizeItems(universe, list, Without(items, j), components, definitions, resolving),
                    Normalize(universe, items[j], components, definitions, resolving))
    decreases |items|
  {
    hide Known, DefinitionsKnown, ComponentsKnown, Normalize, NormalizeItems;
    var n := |items| - 1;
    var front, last := items[..n], items[n];
    assert items == front + [last];
    assert last in items;
    KnownMember(universe, list, last);
    ItemsLast(universe, list, front, last, components, definitions, resolving);
    if j == n {
      assert Without(items, j) == front;
    } else {
      TakenOut(universe, list, front, j, components, definitions, resolving);
      assert Without(items, j) == Without(front, j) + [last];
      ItemsLast(universe, list, Without(front, j), last, components, definitions, resolving);
      RemovesGrows(NormalizeItems(universe, list, front, components, definitions, resolving),
                   NormalizeItems(universe, list, Without(front, j), components, definitions, resolving),
                   Normalize(universe, items[j], components, definitions, resolving), Normalize(universe, last, components, definitions, resolving));
    }
  }

  lemma KnownMember(universe: set<RefKey>, list: Json, item: Json)
    ensures list.Arr? && item in list.items && Known(universe, list) ==> Known(universe, item)
  {
    if list.Arr? && item in list.items && Known(universe, list) {
      KnownWithin(universe, list);
    }
  }

  // ----- what the contract promises -----

  // Variants of a schema, its components and its definitions have the same
  // normal form, or none of them has one.
  lemma OrderIsForgotten(a: Json, b: Json, components: Table, components': Table, definitions: Table, definitions': Table)
    requires Variant(a, b) && TablesVary(components, components') && TablesVary(definitions, definitions')
    ensures NormalizeSchema(a, components, definitions) == NormalizeSchema(b, components', definitions')
  {
    hide Variant, Known, TablesVary, ComponentsKnown, DefinitionsKnown, Normalize, Universe, NoReferences;
    UniverseKnows(a, components, definitions);
    UniverseKnows(b, components', definitions');
    Agree(Universe(a, components, definitions), Universe(b, components', definitions'), a, b,
          components, components', definitions, definitions', {}, {});
  }

  lemma TableReflexive(t: Table)
    ensures TablesVary(t, t)
  {
    hide Variant;
    forall n | n in t
      ensures Variant(t[n], t[n])
    {
      Reflexive(t[n]);
    }
  }

  // A key that is not part of a schema changes nothing, beside a reference or
  // not; `$ref` and `$defs` are the two that do.
  lemma OtherKeysAreIgnored(schema: Json, key: string, value: Json, components: Table, definitions: Table)
    requires schema.Obj? && !IsSchemaKey(key) && key != "$ref" && key != "$defs"
    ensures NormalizeSchema(Obj(schema.fields[key := value]), components, definitions) == NormalizeSchema(schema, components, definitions)
  {
    var extended := Obj(schema.fields[key := value]);
    assert Variant(extended, schema) by {
      hide IsSchemaKey;
      Reflexive(schema);
    }
    TableReflexive(components);
    TableReflexive(definitions);
    OrderIsForgotten(extended, schema, components, components, definitions, definitions);
  }

  // Reordering one unordered list of a schema changes nothing.
  lemma ListOrderIsIgnored(schema: Json, key: string, s: seq<Json>, t: seq<Json>, components: Table, definitions: Table)
    requires schema.Obj? && key in {"anyOf", "oneOf", "allOf", "enum", "required"} && multiset(s) == multiset(t)
    ensures NormalizeSchema(Obj(schema.fields[key := Arr(s)]), components, definitions)
         == NormalizeSchema(Obj(schema.fields[key := Arr(t)]), components, definitions)
  {
    hide NoReferences;
    var a, b := Obj(schema.fields[key := Arr(s)]), Obj(schema.fields[key := Arr(t)]);
    assert Variant(a, b) by {
      hide IsSchemaKey;
      Reflexive(a);
      assert VariantAt(key, Arr(s), Arr(t)) by {
        assert s[..|s|] == s;
        MultisetPermuted(Arr(s), |s|, t);
      }
    }
    TableReflexive(components);
    TableReflexive(definitions);
    OrderIsForgotten(a, b, components, components, definitions, definitions);
  }

  lemma {:induction false} MultisetPermuted(list: Json, n: nat, others: seq<Json>)
    requires list.Arr? && n <= |list.items| && multiset(list.items[..n]) == multiset(others)
    ensures Permuted(list, n, others)
  {
    hide Variant;
    if n == 0 {
      assert |multiset(others)| == |others|;
    } else {
      var last := list.items[n - 1];
      assert list.items[..n] == list.items[..n - 1] + [last];
      assert last in multiset(others);
      var j :| 0 <= j < |others| && others[j] == last;
      assert others == others[..j] + [last] + others[j + 1..];
      assert multiset(others) == multiset(others[..j]) + multiset{last} + multiset(others[j + 1..]);
      assert multiset(Without(others, j)) == multiset(others) - multiset{last};
      assert multiset(list.items[..n - 1]) == multiset(list.items[..n]) - multiset{last};
      MultisetPermuted(list, n - 1, Without(others, j));
      Reflexive(last);
    }
  }

  // Normalising what stands beside a reference is normalising the schema keys
  // of the whole object: the reference itself is not one of them.
  lemma SiblingsAreTheKeys(universe: set<RefKey>, schema: Json, components: Table, definitions: Table, resolving: set<RefKey>)
    requires schema.Obj? && Known(universe, schema) && ComponentsKnown(universe, components) && DefinitionsKnown(universe, definitions)
    requires forall n :: n in DefsOf(schema) ==> n in definitions && definitions[n] == DefsOf(schema)[n]
    requires Known(universe, Obj(schema.fields - {"$ref"}))
    ensures Normalize(universe, Obj(schema.fields - {"$ref"}), components, definitions, resolving)
         == NormalizeKeys(universe, schema, components, definitions, resolving)
  {
    hide Known, ComponentsKnown, DefinitionsKnown, NormalizeKey;
    var siblings := Obj(schema.fields - {"$ref"});
    assert DefsOf(siblings) == DefsOf(schema);
    assert definitions + DefsOf(siblings) == definitions;
    forall k | k in siblings.fields && IsSchemaKey(k)
      ensures NormalizeKey(universe, siblings, k, components, definitions, resolving) == NormalizeKey(universe, schema, k, components, definitions, resolving)
    {
      SameKey(universe, siblings, schema, k, components, definitions, resolving);
    }
    var s, t := NormalizeKeys(universe, siblings, components, definitions, resolving), NormalizeKeys(universe, schema, components, definitions, resolving);
    hide IsSchemaKey;
    assert !IsSchemaKey("$ref") by {
      RefIsNoSchemaKey();
    }
    assert forall k :: k in schema.fields && IsSchemaKey(k) ==> k in siblings.fields;
    if s.Some? && t.Some? {
      assert s.value.fields == t.value.fields;
    }
  }

  lemma RefIsNoSchemaKey()
    ensures !IsSchemaKey("$ref") && !IsSchemaKey("$defs")
  {}

  lemma SameKey(universe: set<RefKey>, a: Json, b: Json, key: string, components: Table, definitions: Table, resolving: set<RefKey>)
    requires a.Obj? && b.Obj? && key in a.fields && key in b.fields && a.fields[key] == b.fields[key] && IsSchemaKey(key)
    requires Known(universe, a) && Known(universe, b) && ComponentsKnown(universe, components) && DefinitionsKnown(universe, definitions)
    ensures NormalizeKey(universe, a, key, components, definitions, resolving) == NormalizeKey(universe, b, key, components, definitions, resolving)
  {
    ReflexiveAt(a.fields[key]);
    TableReflexive(components);
    TableReflexive(definitions);
    AgreeKey(universe, universe, a, b, key, components, components, definitions, definitions, resolving, resolving);
  }

  // Definitions are not such a key: naming one can make a reference resolve.
  lemma DefinitionsMatter()
    ensures var reference := map["$ref" := Str("#/$defs/A")];
            && NormalizeSchema(Obj(reference), map[], map[]) == None
            && NormalizeSchema(Obj(reference["$defs" := Obj(map["A" := Bool(true)])]), map[], map[]) == Some(Bool(true))
  {
    hide IsSchemaKey, Names, Known;
    RefIsNoSchemaKey();
    var text := "#/$defs/A";
    assert LastSegment(text) == "A" by {
      assert text[..|text| - 1] == "#/$defs/" && text[|text| - 1] == 'A';
      assert LastSegment("#/$defs/") == "";
    }
    assert DEFINITIONS <= text && text[2] != COMPONENTS[2];
    var bare := Obj(map["$ref" := Str(text)]);
    UniverseKnows(bare, map[], map[]);
    assert DefsOf(bare) == map[];
    var u := Universe(bare, map[], map[]);
    assert Resolve(u, bare, map[], map[], {}) == None;
    var defs: Table := map["A" := Bool(true)];
    var full := Obj(bare.fields["$defs" := Obj(defs)]);
    UniverseKnows(full, map[], map[]);
    var w := Universe(full, map[], map[]);
    KnownWithin(w, full);
    assert DefsOf(full) == defs && map[] + defs == defs;
    assert Normalize(w, Bool(true), map[], defs, {Definition("A")}) == Some(Bool(true));
    assert Resolve(w, full, map[], defs, {}) == Some(Bool(true));
    var siblings := NormalizeKeys(w, full, map[], defs, {});
    assert siblings.Some? && siblings.value.fields == map[];
  }
}
