// What a normal form holds: nothing that stands beside a reference is lost, and
// without references the schema can be read back but for order and other keys.
module SchemaContent {
  import opened Options
  import opened StringOrder
  import opened CanonicalJson
  import opened SchemaNormal
  import opened SchemaOrder

  // ----- beside a reference -----

  // The reference alone, and all that stands beside it, as two parts of one schema.
  function Spread(schema: Json): Json
    requires IsReference(schema)
  {
    var parts := Arr([Obj(map["$ref" := schema.fields["$ref"]]), Obj(schema.fields - {"$ref"})]);
    if "$defs" in schema.fields then Obj(map["$defs" := schema.fields["$defs"], "allOf" := parts]) else Obj(map["allOf" := parts])
  }

  lemma SpreadIs(schema: Json)
    requires IsReference(schema)
    ensures var spread := Spread(schema);
            && spread.Obj? && "$ref" !in spread.fields && "allOf" in spread.fields && spread.fields["allOf"].Arr?
            && spread.fields["allOf"].items == [Obj(map["$ref" := schema.fields["$ref"]]), Obj(schema.fields - {"$ref"})]
            && DefsOf(spread) == DefsOf(schema)
            && (forall k :: k in spread.fields && IsSchemaKey(k) <==> k == "allOf")
  {}

  // What is known to both sides of a comparison.
  ghost predicate Fits(universe: set<RefKey>, schema: Json, components: Table, definitions: Table) {
    Known(universe, schema) && ComponentsKnown(universe, components) && DefinitionsKnown(universe, definitions)
  }

  lemma FitsMore(u: set<RefKey>, w: set<RefKey>, schema: Json, components: Table, definitions: Table)
    ensures Fits(u, schema, components, definitions) && u <= w ==> Fits(w, schema, components, definitions)
  {
    hide Names;
  }

  // The names known do not matter, as long as they are enough.
  lemma AnyUniverse(u: set<RefKey>, w: set<RefKey>, schema: Json, components: Table, definitions: Table, resolving: set<RefKey>)
    requires Fits(u, schema, components, definitions) && Fits(w, schema, components, definitions)
    ensures Normalize(u, schema, components, definitions, resolving) == Normalize(w, schema, components, definitions, resolving)
  {
    hide Known, ComponentsKnown, DefinitionsKnown, Normalize, Variant, TablesVary, NoReferences;
    Reflexive(schema);
    TableReflexive(components);
    TableReflexive(definitions);
    Agree(u, w, schema, schema, components, components, definitions, definitions, resolving, resolving);
  }

  // A reference by itself normalises to what it resolves to.
  lemma BareReference(universe: set<RefKey>, schema: Json, components: Table, definitions: Table, resolving: set<RefKey>)
    requires IsReference(schema) && Fits(universe, schema, components, definitions)
    requires var bare := Obj(map["$ref" := schema.fields["$ref"]]); Known(universe, bare)
    ensures var bare := Obj(map["$ref" := schema.fields["$ref"]]);
            Normalize(universe, bare, components, definitions, resolving) == Resolve(universe, schema, components, definitions, resolving)
  {
    hide Known, ComponentsKnown, DefinitionsKnown, Resolve, NormalizeKey, TablesVary, Variant, NoReferences;
    var bare := Obj(map["$ref" := schema.fields["$ref"]]);
    RefIsNoSchemaKey();
    hide IsSchemaKey;
    assert definitions + DefsOf(bare) == definitions;
    TableReflexive(components);
    TableReflexive(definitions);
    AgreeResolve(universe, universe, bare, schema, components, components, definitions, definitions, resolving);
    assert NormalizeKeys(universe, bare, components, definitions, resolving) == Some(Obj(map[])) by {
      var siblings := NormalizeKeys(universe, bare, components, definitions, resolving);
      assert siblings.Some? && siblings.value.fields == map[];
    }
  }

  lemma TwoItems(universe: set<RefKey>, list: Json, first: Json, second: Json, components: Table, definitions: Table, resolving: set<RefKey>)
    requires list == Arr([first, second]) && Fits(universe, list, components, definitions)
    requires Known(universe, first) && Known(universe, second)
    ensures var one, two := Normalize(universe, first, components, definitions, resolving), Normalize(universe, second, components, definitions, resolving);
            NormalizeItems(universe, list, [first, second], components, definitions, resolving) ==
            if one.None? || two.None? then None else Some([one.value, two.value])
  {
    hide Known, ComponentsKnown, DefinitionsKnown, NormalizeItems, Normalize;
    NoItems(universe, list, components, definitions, resolving);
    ItemsLast(universe, list, [], first, components, definitions, resolving);
    ItemsLast(universe, list, [first], second, components, definitions, resolving);
    assert [] + [first] == [first] && [first] + [second] == [first, second];
    var one, two := Normalize(universe, first, components, definitions, resolving), Normalize(universe, second, components, definitions, resolving);
    if one.Some? && two.Some? {
      assert [] + [one.value] == [one.value] && [one.value] + [two.value] == [one.value, two.value];
    }
  }

  lemma AllOfKey(universe: set<RefKey>, schema: Json, components: Table, definitions: Table, resolving: set<RefKey>)
    requires schema.Obj? && "allOf" in schema.fields && schema.fields["allOf"].Arr? && Fits(universe, schema, components, definitions)
    ensures Known(universe, schema.fields["allOf"])
    ensures var list := schema.fields["allOf"];
            var items := NormalizeItems(universe, list, list.items, components, definitions, resolving);
            NormalizeKey(universe, schema, "allOf", components, definitions, resolving) ==
            if items.None? then None else Some(Arr(SortedByText(items.value)))
  {
    hide Known, ComponentsKnown, DefinitionsKnown, NormalizeItems, Normalize, SortedByText;
    KnownWithin(universe, schema);
  }

  // A schema with `allOf` as its only schema key.
  lemma TwoParts(universe: set<RefKey>, spread: Json, first: Json, second: Json, components: Table, definitions: Table, resolving: set<RefKey>)
    requires spread.Obj? && "$ref" !in spread.fields && "allOf" in spread.fields && spread.fields["allOf"] == Arr([first, second])
    requires forall k :: k in spread.fields && IsSchemaKey(k) <==> k == "allOf"
    requires Fits(universe, spread, components, definitions) && Known(universe, first) && Known(universe, second)
    requires forall n :: n in DefsOf(spread) ==> n in definitions && definitions[n] == DefsOf(spread)[n]
    ensures var one, two := Normalize(universe, first, components, definitions, resolving), Normalize(universe, second, components, definitions, resolving);
            Normalize(universe, spread, components, definitions, resolving) ==
            if one.None? || two.None? then None else Some(Obj(map["allOf" := Arr(SortedByText([one.value, two.value]))]))
  {
    PlainObject(universe, spread, components, definitions, resolving);
    AllOfKey(universe, spread, components, definitions, resolving);
    hide Known, ComponentsKnown, DefinitionsKnown, NormalizeItems, Normalize, NormalizeKey, NormalizeKeys, SortedByText, IsSchemaKey, DefsOf;
    TwoItems(universe, spread.fields["allOf"], first, second, components, definitions, resolving);
    OneKey(universe, spread, "allOf", components, definitions, resolving);
  }

  lemma OneKey(universe: set<RefKey>, schema: Json, key: string, components: Table, definitions: Table, resolving: set<RefKey>)
    requires schema.Obj? && key in schema.fields && Fits(universe, schema, components, definitions)
    requires forall k :: k in schema.fields && IsSchemaKey(k) <==> k == key
    ensures var one := NormalizeKey(universe, schema, key, components, definitions, resolving);
            NormalizeKeys(universe, schema, components, definitions, resolving) ==
            if one.None? then None else Some(Obj(map[key := one.value]))
  {
    hide Known, ComponentsKnown, DefinitionsKnown, NormalizeKey, IsSchemaKey;
    var all := NormalizeKeys(universe, schema, components, definitions, resolving);
    if all.Some? {
      assert all.value.fields == map[key := NormalizeKey(universe, schema, key, components, definitions, resolving).value];
    }
  }

  lemma PlainObject(universe: set<RefKey>, schema: Json, components: Table, definitions: Table, resolving: set<RefKey>)
    requires schema.Obj? && "$ref" !in schema.fields && Fits(universe, schema, components, definitions)
    requires forall n :: n in DefsOf(schema) ==> n in definitions && definitions[n] == DefsOf(schema)[n]
    ensures Normalize(universe, schema, components, definitions, resolving) == NormalizeKeys(universe, schema, components, definitions, resolving)
  {
    hide Known, ComponentsKnown, DefinitionsKnown, NormalizeKeys;
    assert definitions + DefsOf(schema) == definitions;
  }

  lemma SpreadFits(universe: set<RefKey>, schema: Json, components: Table, definitions: Table)
    requires IsReference(schema) && Fits(universe, Spread(schema), components, definitions)
    ensures Known(universe, Obj(map["$ref" := schema.fields["$ref"]])) && Known(universe, Obj(schema.fields - {"$ref"}))
  {
    hide Known, ComponentsKnown, DefinitionsKnown;
    var spread := Spread(schema);
    SpreadIs(schema);
    KnownWithin(universe, spread);
    KnownWithin(universe, spread.fields["allOf"]);
    assert spread.fields["allOf"].items[0] == Obj(map["$ref" := schema.fields["$ref"]]);
    assert spread.fields["allOf"].items[1] == Obj(schema.fields - {"$ref"});
  }

  lemma LocalKnown(universe: set<RefKey>, schema: Json, components: Table, definitions: Table)
    requires Fits(universe, schema, components, definitions)
    ensures DefinitionsKnown(universe, definitions + DefsOf(schema))
  {
    hide Known, ComponentsKnown, DefinitionsKnown, DefsOf;
    KnownWithin(universe, schema);
    JoinedKnown(universe, definitions, DefsOf(schema));
  }

  // Local definitions may as well be given from outside.
  lemma LocalDefinitions(universe: set<RefKey>, schema: Json, components: Table, definitions: Table, resolving: set<RefKey>)
    requires Fits(universe, schema, components, definitions) && DefinitionsKnown(universe, definitions + DefsOf(schema))
    ensures Normalize(universe, schema, components, definitions, resolving)
         == Normalize(universe, schema, components, definitions + DefsOf(schema), resolving)
  {
    hide Known, ComponentsKnown, DefinitionsKnown, NormalizeKeys, Resolve, DefsOf;
    var local := definitions + DefsOf(schema);
    assert local + DefsOf(schema) == local;
  }

  lemma BesideReference(universe: set<RefKey>, schema: Json, components: Table, definitions: Table, resolving: set<RefKey>)
    requires IsReference(schema) && Fits(universe, schema, components, definitions)
    requires exists k :: k in schema.fields && IsSchemaKey(k)
    requires forall n :: n in DefsOf(schema) ==> n in definitions && definitions[n] == DefsOf(schema)[n]
    ensures var one, two := Resolve(universe, schema, components, definitions, resolving), NormalizeKeys(universe, schema, components, definitions, resolving);
            Normalize(universe, schema, components, definitions, resolving) ==
            if one.None? || two.None? then None else Some(Obj(map["allOf" := Arr(SortedByText([one.value, two.value]))]))
  {
    hide Known, ComponentsKnown, DefinitionsKnown, NormalizeKey, Resolve, SortedByText, DefsOf, IsSchemaKey;
    assert definitions + DefsOf(schema) == definitions;
    var two := NormalizeKeys(universe, schema, components, definitions, resolving);
    var k :| k in schema.fields && IsSchemaKey(k);
    assert two.Some? ==> k in two.value.fields;
  }

  // A reference with schema keys beside it normalises as the reference and the
  // keys would under one `allOf`.
  lemma SiblingsAreKept(schema: Json, components: Table, definitions: Table)
    requires IsReference(schema) && exists k :: k in schema.fields && IsSchemaKey(k)
    ensures NormalizeSchema(schema, components, definitions) == NormalizeSchema(Spread(schema), components, definitions)
  {
    var spread := Spread(schema);
    SpreadIs(schema);
    UniverseKnows(schema, components, definitions);
    UniverseKnows(spread, components, definitions);
    var u, v := Universe(schema, components, definitions), Universe(spread, components, definitions);
    var w := u + v;
    FitsMore(u, w, schema, components, definitions);
    FitsMore(v, w, spread, components, definitions);
    AnyUniverse(u, w, schema, components, definitions, {});
    AnyUniverse(v, w, spread, components, definitions, {});
    SpreadFits(w, schema, components, definitions);
    LocalKnown(w, schema, components, definitions);
    hide Known, ComponentsKnown, DefinitionsKnown, Normalize, NormalizeKeys, Resolve, SortedByText, DefsOf, IsSchemaKey, Universe, Spread;
    LocalDefinitions(w, schema, components, definitions, {});
    LocalDefinitions(w, spread, components, definitions, {});
    var local := definitions + DefsOf(schema);
    BesideReference(w, schema, components, local, {});
    BareReference(w, schema, components, local, {});
    SiblingsAreTheKeys(w, schema, components, local, {});
    TwoParts(w, spread, Obj(map["$ref" := schema.fields["$ref"]]), Obj(schema.fields - {"$ref"}), components, local, {});
  }

  // ----- without references -----

  // A schema without references has one normal form beside any components and
  // definitions, and so have its variants.
  lemma TablesAreUnused(a: Json, b: Json, components: Table, components': Table, definitions: Table, definitions': Table)
    requires NoReferences(a) && Variant(a, b)
    ensures NormalizeSchema(a, components, definitions) == NormalizeSchema(b, components', definitions')
  {
    hide Variant, Known, TablesVary, ComponentsKnown, DefinitionsKnown, Normalize, Universe, NoReferences;
    UniverseKnows(a, components, definitions);
    UniverseKnows(b, components', definitions');
    Agree(Universe(a, components, definitions), Universe(b, components', definitions'), a, b,
          components, components', definitions, definitions', {}, {});
  }

  lemma {:induction false} LastSegmentIs(front: string, name: string)
    requires front != "" && front[|front| - 1] == '/' && '/' !in name
    ensures LastSegment(front + name) == name
    decreases |name|
  {
    if name == "" {
      assert front + name == front;
    } else {
      var n := |name| - 1;
      assert (front + name)[..|front + name| - 1] == front + name[..n];
      LastSegmentIs(front, name[..n]);
      assert name == name[..n] + [name[n]];
    }
  }

  lemma ReferenceResolves(universe: set<RefKey>, name: string, components: Table, definitions: Table)
    requires '/' !in name && ComponentsKnown(universe, components) && DefinitionsKnown(universe, definitions)
    ensures DefinitionsKnown(universe, map[])
    ensures Resolve(universe, Obj(map["$ref" := Str("#/components/schemas/" + name)]), components, definitions, {})
         == if name !in components then None else Normalize(universe, components[name], components, map[], {Component(name)})
    ensures Resolve(universe, Obj(map["$ref" := Str("#/$defs/" + name)]), components, definitions, {})
         == if name !in definitions then None else Normalize(universe, definitions[name], components, definitions, {Definition(name)})
  {
    hide Known, Normalize, LastSegment;
    LastSegmentIs(COMPONENTS, name);
    LastSegmentIs(DEFINITIONS, name);
    assert COMPONENTS <= COMPONENTS + name && DEFINITIONS <= DEFINITIONS + name && (DEFINITIONS + name)[2] != COMPONENTS[2];
    assert {} + {Component(name)} == {Component(name)} && {} + {Definition(name)} == {Definition(name)};
  }

  // A reference to something without references of its own stands for it; a
  // reference to nothing has no normal form.
  lemma ReferenceIsInlined(name: string, components: Table, definitions: Table)
    requires '/' !in name
    ensures var normal := NormalizeSchema(Obj(map["$ref" := Str("#/components/schemas/" + name)]), components, definitions);
            if name !in components then normal == None
            else NoReferences(components[name]) ==> normal == NormalizeSchema(components[name], components, definitions)
    ensures var normal := NormalizeSchema(Obj(map["$ref" := Str("#/$defs/" + name)]), components, definitions);
            if name !in definitions then normal == None
            else NoReferences(definitions[name]) ==> normal == NormalizeSchema(definitions[name], components, definitions)
  {
    hide Known, ComponentsKnown, DefinitionsKnown, Normalize, Resolve, Universe, Variant, NoReferences, TablesVary;
    NormalReference(Obj(map["$ref" := Str(COMPONENTS + name)]), components, definitions);
    NormalReference(Obj(map["$ref" := Str(DEFINITIONS + name)]), components, definitions);
    var u := Universe(Obj(map["$ref" := Str(COMPONENTS + name)]), components, definitions);
    var v := Universe(Obj(map["$ref" := Str(DEFINITIONS + name)]), components, definitions);
    ReferenceResolves(u, name, components, definitions);
    ReferenceResolves(v, name, components, definitions);
    if name in components && NoReferences(components[name]) {
      TargetKnown(u, components, definitions, name);
      SameTarget(u, components[name], components, map[], definitions, {Component(name)});
    }
    if name in definitions && NoReferences(definitions[name]) {
      TargetKnown(v, components, definitions, name);
      SameTarget(v, definitions[name], components, definitions, definitions, {Definition(name)});
    }
  }

  // A component whose items are itself: the reference inside keeps its text.
  lemma CycleIsMarked(name: string, components: Table, definitions: Table)
    requires '/' !in name && name in components
    requires components[name] == Obj(map["items" := Obj(map["$ref" := Str("#/components/schemas/" + name)])])
    ensures var reference := Str("#/components/schemas/" + name);
            NormalizeSchema(Obj(map["$ref" := reference]), components, definitions) ==
            Some(Obj(map["items" := Obj(map["type" := Str("object"), "recursive_reference" := reference])]))
  {
    hide Known, ComponentsKnown, DefinitionsKnown, LastSegment, Names;
    var reference := Str(COMPONENTS + name);
    var schema := Obj(map["$ref" := reference]);
    var target := components[name];
    NormalReference(schema, components, definitions);
    var u := Universe(schema, components, definitions);
    hide Universe;
    TargetKnown(u, components, definitions, name);
    ReferenceResolves(u, name, components, definitions);
    LastSegmentIs(COMPONENTS, name);
    assert COMPONENTS <= COMPONENTS + name;
    KnownWithin(u, target);
    BareReference(u, schema, components, map[], {Component(name)});
    assert Resolve(u, schema, components, map[], {Component(name)}) == Some(Recursive(reference));
    hide Resolve;
    RefIsNoSchemaKey();
    PlainObject(u, target, components, map[], {Component(name)});
    OneKey(u, target, "items", components, map[], {Component(name)});
  }

  lemma NormalReference(schema: Json, components: Table, definitions: Table)
    requires IsReference(schema) && schema.fields == map["$ref" := schema.fields["$ref"]]
    ensures var u := Universe(schema, components, definitions);
            && Fits(u, schema, components, definitions)
            && NormalizeSchema(schema, components, definitions) == Resolve(u, schema, components, definitions, {})
  {
    UniverseKnows(schema, components, definitions);
    BareReference(Universe(schema, components, definitions), schema, components, definitions, {});
  }

  lemma TargetKnown(universe: set<RefKey>, components: Table, definitions: Table, name: string)
    requires ComponentsKnown(universe, components) && DefinitionsKnown(universe, definitions)
    ensures name in components ==> Known(universe, components[name])
    ensures name in definitions ==> Known(universe, definitions[name])
  {}

  lemma SameTarget(universe: set<RefKey>, target: Json, components: Table, definitions: Table, others: Table, resolving: set<RefKey>)
    requires NoReferences(target) && Fits(universe, target, components, definitions)
    ensures Normalize(universe, target, components, definitions, resolving) == NormalizeSchema(target, components, others)
  {
    hide Known, ComponentsKnown, DefinitionsKnown, Normalize, Universe, Variant, NoReferences, TablesVary;
    UniverseKnows(target, components, others);
    Reflexive(target);
    Agree(universe, Universe(target, components, others), target, target, components, components, definitions, others, resolving, {});
  }

  // The normal form of a schema without references shows what it says: two such
  // schemas with one normal form are variants.
  lemma {:induction false} Decided(u: set<RefKey>, v: set<RefKey>, a: Json, b: Json, components: Table, components': Table,
                                   definitions: Table, definitions': Table, resolving: set<RefKey>, resolving': set<RefKey>)
    requires Fits(u, a, components, definitions) && Fits(v, b, components', definitions') && NoReferences(a) && NoReferences(b)
    requires Normalize(u, a, components, definitions, resolving).Some?
    requires Normalize(u, a, components, definitions, resolving) == Normalize(v, b, components', definitions', resolving')
    ensures Variant(a, b)
    decreases a, 1
  {
    LocalKnown(u, a, components, definitions);
    LocalKnown(v, b, components', definitions');
    hide Known, DefinitionsKnown, ComponentsKnown, NormalizeKey, DefsOf, NoReferencesAt, VariantAt;
    if a.Obj? && b.Obj? {
      var local, local' := definitions + DefsOf(a), definitions' + DefsOf(b);
      var s, t := NormalizeKeys(u, a, components, local, resolving), NormalizeKeys(v, b, components', local', resolving');
      assert s.Some? && s == t;
      forall k | IsSchemaKey(k)
        ensures k in a.fields <==> k in b.fields
        ensures k in a.fields && k in b.fields ==> VariantAt(k, a.fields[k], b.fields[k])
      {
        assert k in s.value.fields <==> k in a.fields;
        assert k in t.value.fields <==> k in b.fields;
        if k in a.fields {
          assert s.value.fields[k] == t.value.fields[k];
          DecidedAt(u, v, a, b, k, components, components', local, local', resolving, resolving');
        }
      }
    }
  }

  lemma {:induction false} DecidedAt(u: set<RefKey>, v: set<RefKey>, a: Json, b: Json, key: string, components: Table, components': Table,
                                     definitions: Table, definitions': Table, resolving: set<RefKey>, resolving': set<RefKey>)
    requires a.Obj? && b.Obj? && key in a.fields && key in b.fields && IsSchemaKey(key)
    requires Fits(u, a, components, definitions) && Fits(v, b, components', definitions')
    requires NoReferencesAt(key, a.fields[key]) && NoReferencesAt(key, b.fields[key])
    requires NormalizeKey(u, a, key, components, definitions, resolving).Some?
    requires NormalizeKey(u, a, key, components, definitions, resolving) == NormalizeKey(v, b, key, components', definitions', resolving')
    ensures VariantAt(key, a.fields[key], b.fields[key])
    decreases a, 0
  {
    KnownWithin(u, a);
    KnownWithin(v, b);
    hide Known, DefinitionsKnown, ComponentsKnown, DefsOf, NoReferences, Variant, Normalize, NormalizeItems, SortedByText, Permuted, IsSchemaKey;
    var x, y := a.fields[key], b.fields[key];
    KnownWithin(u, x);
    KnownWithin(v, y);
    if key == "properties" {
      var s, t := NormalizeKey(u, a, key, components, definitions, resolving), NormalizeKey(v, b, key, components', definitions', resolving');
      assert s.value.fields.Keys == x.fields.Keys && t.value.fields.Keys == y.fields.Keys;
      forall name | name in x.fields
        ensures name in y.fields && Variant(x.fields[name], y.fields[name])
      {
        assert s.value.fields[name] == t.value.fields[name];
        Decided(u, v, x.fields[name], y.fields[name], components, components', definitions, definitions', resolving, resolving');
      }
    } else if key in {"items", "additionalProperties"} {
      NormalKind(u, x, components, definitions, resolving);
      NormalKind(v, y, components', definitions', resolving');
      if x.Obj? || x.Bool? {
        Decided(u, v, x, y, components, components', definitions, definitions', resolving, resolving');
      } else {
        Reflexive(x);
      }
    } else if key in {"anyOf", "oneOf", "allOf"} {
      assert x.items[..|x.items|] == x.items;
      SortedInOrder(NormalizeItems(u, x, x.items, components, definitions, resolving).value);
      SortedInOrder(NormalizeItems(v, y, y.items, components', definitions', resolving').value);
      DecidedItems(u, v, x, |x.items|, y, y.items, components, components', definitions, definitions', resolving, resolving');
    } else if key in {"enum", "required"} {
      SortedInOrder(x.items);
      SortedInOrder(y.items);
    }
  }

  // The normal form of an object without a reference is an object.
  lemma NormalKind(u: set<RefKey>, x: Json, components: Table, definitions: Table, resolving: set<RefKey>)
    requires Fits(u, x, components, definitions) && NoReferences(x)
    ensures x.Bool? ==> Normalize(u, x, components, definitions, resolving) == Some(x)
    ensures x.Obj? && Normalize(u, x, components, definitions, resolving).Some? ==> Normalize(u, x, components, definitions, resolving).value.Obj?
  {
    hide Known, DefinitionsKnown, ComponentsKnown, NormalizeKey, DefsOf, NoReferencesAt;
    LocalKnown(u, x, components, definitions);
  }

  lemma {:induction false} DecidedItems(u: set<RefKey>, v: set<RefKey>, x: Json, n: nat, y: Json, others: seq<Json>,
                                        components: Table, components': Table, definitions: Table, definitions': Table,
                                        resolving: set<RefKey>, resolving': set<RefKey>)
    requires x.Arr? && y.Arr? && n <= |x.items| && forall o :: o in others ==> o in y.items
    requires Fits(u, x, components, definitions) && Fits(v, y, components', definitions')
    requires (forall i :: 0 <= i < |x.items| ==> NoReferences(x.items[i])) && forall i :: 0 <= i < |y.items| ==> NoReferences(y.items[i])
    requires var s, t := NormalizeItems(u, x, x.items[..n], components, definitions, resolving),
                 NormalizeItems(v, y, others, components', definitions', resolving');
             s.Some? && t.Some? && multiset(s.value) == multiset(t.value)
    ensures Permuted(x, n, others)
    decreases x, 0, n
  {
    hide Known, DefinitionsKnown, ComponentsKnown, Variant, Normalize, NormalizeItems, SortedByText, DefsOf, NoReferences;
    var s, t := NormalizeItems(u, x, x.items[..n], components, definitions, resolving).value,
        NormalizeItems(v, y, others, components', definitions', resolving').value;
    ItemsEach(v, y, others, components', definitions', resolving');
    ItemsEach(u, x, x.items[..n], components, definitions, resolving);
    assert |multiset(s)| == |multiset(t)|;
    if n > 0 {
      var front, last := x.items[..n - 1], x.items[n - 1];
      assert x.items[..n] == front + [last];
      KnownMember(u, x, last);
      ItemsLast(u, x, front, last, components, definitions, resolving);
      assert s[n - 1] in multiset(t);
      var j: nat :| j < |t| && t[j] == s[n - 1];
      assert others[j] in others;
      KnownMember(v, y, others[j]);
      Decided(u, v, last, others[j], components, components', definitions, definitions', resolving, resolving');
      TakenOut(v, y, others, j, components', definitions', resolving');
      var f, rest := NormalizeItems(u, x, front, components, definitions, resolving).value,
          NormalizeItems(v, y, Without(others, j), components', definitions', resolving').value;
      assert s == f + [s[n - 1]];
      assert multiset(f) == multiset(s) - multiset{s[n - 1]} && multiset(rest) == multiset(t) - multiset{s[n - 1]};
      DecidedItems(u, v, x, n - 1, y, Without(others, j), components, components', definitions, definitions', resolving, resolving');
    }
  }

  // Each item has its normal form, in place.
  lemma {:induction false} ItemsEach(u: set<RefKey>, list: Json, items: seq<Json>, components: Table, definitions: Table, resolving: set<RefKey>)
    requires list.Arr? && (forall x :: x in items ==> x in list.items) && Fits(u, list, components, definitions)
    ensures forall i :: 0 <= i < |items| ==> Known(u, items[i])
    ensures var s := NormalizeItems(u, list, items, components, definitions, resolving);
            s.Some? ==> |s.value| == |items|
                        && forall i :: 0 <= i < |items| ==> Normalize(u, items[i], components, definitions, resolving) == Some(s.value[i])
    decreases |items|
  {
    hide Known, DefinitionsKnown, ComponentsKnown, Normalize, NormalizeItems;
    if items == [] {
      NoItems(u, list, components, definitions, resolving);
    } else {
      var n := |items| - 1;
      var front, last := items[..n], items[n];
      assert items == front + [last] && last in items;
      KnownMember(u, list, last);
      ItemsEach(u, list, front, components, definitions, resolving);
      ItemsLast(u, list, front, last, components, definitions, resolving);
    }
  }

  // Of two schemas without references, the first having a normal form: they
  // have the same one exactly when they are variants, whatever components and
  // definitions they are read beside.
  lemma NormalFormDecides(a: Json, b: Json, components: Table, components': Table, definitions: Table, definitions': Table)
    requires NoReferences(a) && NoReferences(b) && NormalizeSchema(a, components, definitions).Some?
    ensures NormalizeSchema(a, components, definitions) == NormalizeSchema(b, components', definitions') <==> Variant(a, b)
  {
    hide Variant, Known, ComponentsKnown, DefinitionsKnown, Normalize, Universe, NoReferences;
    if Variant(a, b) {
      TablesAreUnused(a, b, components, components', definitions, definitions');
    }
    if NormalizeSchema(a, components, definitions) == NormalizeSchema(b, components', definitions') {
      UniverseKnows(a, components, definitions);
      UniverseKnows(b, components', definitions');
      Decided(Universe(a, components, definitions), Universe(b, components', definitions'), a, b,
              components, components', definitions, definitions', {}, {});
    }
  }
}
