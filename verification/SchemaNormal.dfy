// Schema normalisation through cyclic references (`_normalize_schema`,
// `_resolve_schema`).
module SchemaNormal {
  import opened Options
  import opened StringOrder
  import opened CanonicalJson

  // The keys a normal schema keeps.
  predicate IsSchemaKey(key: string) {
    key in {
      "additionalProperties", "allOf", "anyOf", "const", "default", "deprecated", "enum", "exclusiveMaximum", "exclusiveMinimum",
      "format", "items", "maxItems", "maxLength", "maxProperties", "maximum", "minItems", "minLength", "minProperties", "minimum",
      "multipleOf", "oneOf", "pattern", "properties", "required", "type", "uniqueItems"
    }
  }

  const COMPONENTS: string := "#/components/schemas/"
  const DEFINITIONS: string := "#/$defs/"

  type Table = map<string, Json>

  // What is being resolved further out.
  datatype RefKey = Component(name: string) | Definition(name: string)

  // ----- sorting by canonical text -----

  ghost function Placed(sorted: seq<Json>, x: Json): seq<Json> {
    if sorted == [] || !Before(Text(x), Text(sorted[|sorted| - 1])) then sorted + [x]
    else Placed(sorted[..|sorted| - 1], x) + [sorted[|sorted| - 1]]
  }

  ghost function SortedByText(items: seq<Json>): seq<Json> {
    if items == [] then [] else Placed(SortedByText(items[..|items| - 1]), items[|items| - 1])
  }

  // ----- references -----

  function LastSegment(reference: string): string {
    if reference == "" || reference[|reference| - 1] == '/' then "" else LastSegment(reference[..|reference| - 1]) + [reference[|reference| - 1]]
  }

  predicate IsReference(schema: Json) { schema.Obj? && "$ref" in schema.fields }

  function DefsOf(json: Json): Table {
    if json.Obj? && "$defs" in json.fields && json.fields["$defs"].Obj? then json.fields["$defs"].fields else map[]
  }

  // The definition names anywhere in a value.
  function Names(json: Json): set<string> {
    match json
    case Arr(items) => set i, n | 0 <= i < |items| && n in Names(items[i]) :: n
    case Obj(fields) => DefsOf(json).Keys + set k, n | k in fields && n in Names(fields[k]) :: n
    case _ => {}
  }

  // Everything a reference can name.
  ghost predicate Known(universe: set<RefKey>, json: Json) { forall n :: n in Names(json) ==> Definition(n) in universe }

  ghost predicate ComponentsKnown(universe: set<RefKey>, components: Table) {
    forall name :: name in components ==> Component(name) in universe && Known(universe, components[name])
  }

  ghost predicate DefinitionsKnown(universe: set<RefKey>, definitions: Table) {
    forall name :: name in definitions ==> Definition(name) in universe && Known(universe, definitions[name])
  }

  function Universe(schema: Json, components: Table, definitions: Table): set<RefKey> {
    (set n | n in Names(schema) :: Definition(n))
    + (set c | c in components :: Component(c)) + (set c, n | c in components && n in Names(components[c]) :: Definition(n))
    + (set d | d in definitions :: Definition(d)) + (set d, n | d in definitions && n in Names(definitions[d]) :: Definition(n))
  }

  lemma KnownWithin(universe: set<RefKey>, json: Json)
    requires Known(universe, json)
    ensures json.Obj? ==> forall k :: k in json.fields ==> Known(universe, json.fields[k])
    ensures json.Arr? ==> forall i :: 0 <= i < |json.items| ==> Known(universe, json.items[i])
    ensures DefinitionsKnown(universe, DefsOf(json))
  {
    if json.Obj? {
      forall k | k in json.fields
        ensures Known(universe, json.fields[k])
      {
        assert forall n :: n in Names(json.fields[k]) ==> n in Names(json);
      }
      if "$defs" in json.fields && json.fields["$defs"].Obj? {
        var defs := json.fields["$defs"];
        forall n | n in defs.fields
          ensures Definition(n) in universe && Known(universe, defs.fields[n])
        {
          assert n in Names(json);
          assert forall m :: m in Names(defs.fields[n]) ==> m in Names(defs);
          assert forall m :: m in Names(defs) ==> m in Names(json);
        }
      }
    }
    if json.Arr? {
      forall i | 0 <= i < |json.items|
        ensures Known(universe, json.items[i])
      {
        assert forall n :: n in Names(json.items[i]) ==> n in Names(json);
      }
    }
  }

  // ----- normalisation -----

  ghost function Normalize(universe: set<RefKey>, schema: Json, components: Table, definitions: Table, resolving: set<RefKey>): Option<Json>
    requires Known(universe, schema) && ComponentsKnown(universe, components) && DefinitionsKnown(universe, definitions)
    decreases universe - resolving, schema, 3
  {
    KnownWithin(universe, schema);
    var local := definitions + DefsOf(schema);
    if IsReference(schema) then
      var resolved := Resolve(universe, schema, components, local, resolving);
      var siblings := NormalizeKeys(universe, schema, components, local, resolving);
      if resolved.None? || siblings.None? then None
      else if siblings.value == Obj(map[]) then resolved
      else Some(Obj(map["allOf" := Arr(SortedByText([resolved.value, siblings.value]))]))
    else if schema.Bool? then Some(schema)
    else if schema.Obj? then NormalizeKeys(universe, schema, components, local, resolving)
    else None
  }

  ghost function Resolve(universe: set<RefKey>, schema: Json, components: Table, definitions: Table, resolving: set<RefKey>): Option<Json>
    requires IsReference(schema) && ComponentsKnown(universe, components) && DefinitionsKnown(universe, definitions)
    decreases universe - resolving, schema, 2
  {
    var reference := schema.fields["$ref"];
    if !reference.Str? then None
    else if COMPONENTS <= reference.text then
      var name := LastSegment(reference.text);
      if Component(name) in resolving then Some(Recursive(reference))
      else if name !in components then None
      else Normalize(universe, components[name], components, map[], resolving + {Component(name)})
    else if DEFINITIONS <= reference.text then
      var name := LastSegment(reference.text);
      if Definition(name) in resolving then Some(Recursive(reference))
      else if name !in definitions then None
      else Normalize(universe, definitions[name], components, definitions, resolving + {Definition(name)})
    else None
  }

  function Recursive(reference: Json): Json { Obj(map["type" := Str("object"), "recursive_reference" := reference]) }

  ghost function NormalizeKeys(universe: set<RefKey>, schema: Json, components: Table, definitions: Table, resolving: set<RefKey>): Option<Json>
    requires schema.Obj? && Known(universe, schema) && ComponentsKnown(universe, components) && DefinitionsKnown(universe, definitions)
    decreases universe - resolving, schema, 1
  {
    if forall k :: k in schema.fields && IsSchemaKey(k) ==> NormalizeKey(universe, schema, k, components, definitions, resolving).Some?
    then Some(Obj(map k | k in schema.fields && IsSchemaKey(k) :: NormalizeKey(universe, schema, k, components, definitions, resolving).value))
    else None
  }

  ghost function NormalizeKey(universe: set<RefKey>, schema: Json, key: string, components: Table, definitions: Table,
                              resolving: set<RefKey>): Option<Json>
    requires schema.Obj? && key in schema.fields
    requires Known(universe, schema) && ComponentsKnown(universe, components) && DefinitionsKnown(universe, definitions)
    decreases universe - resolving, schema, 0
  {
    KnownWithin(universe, schema);
    var value := schema.fields[key];
    KnownWithin(universe, value);
    if key == "properties" then
      if !value.Obj? then None
      else if forall name :: name in value.fields ==> Normalize(universe, value.fields[name], components, definitions, resolving).Some?
      then Some(Obj(map name | name in value.fields :: Normalize(universe, value.fields[name], components, definitions, resolving).value))
      else None
    else if key in {"items", "additionalProperties"} && (value.Obj? || value.Bool?) then
      Normalize(universe, value, components, definitions, resolving)
    else if key in {"anyOf", "oneOf", "allOf"} then
      if !value.Arr? then None
      else
        var items := NormalizeItems(universe, value, value.items, components, definitions, resolving);
        if items.None? then None else Some(Arr(SortedByText(items.value)))
    else if key in {"enum", "required"} then
      if !value.Arr? then None else Some(Arr(SortedByText(value.items)))
    else Some(value)
  }

  // Some of the items of an array, in order.
  ghost function NormalizeItems(universe: set<RefKey>, list: Json, items: seq<Json>, components: Table, definitions: Table,
                                resolving: set<RefKey>): Option<seq<Json>>
    requires list.Arr? && (forall x :: x in items ==> x in list.items)
    requires Known(universe, list) && ComponentsKnown(universe, components) && DefinitionsKnown(universe, definitions)
    decreases universe - resolving, list, 0, |items|
  {
    if items == [] then Some([])
    else
      KnownWithin(universe, list);
      var front := NormalizeItems(universe, list, items[..|items| - 1], components, definitions, resolving);
      assert items[|items| - 1] in items;
      var at: nat :| at < |list.items| && list.items[at] == items[|items| - 1];
      var last := Normalize(universe, list.items[at], components, definitions, resolving);
      if front.None? || last.None? then None else Some(front.value + [last.value])
  }

  lemma UniverseKnows(schema: Json, components: Table, definitions: Table)
    ensures var u := Universe(schema, components, definitions);
            Known(u, schema) && ComponentsKnown(u, components) && DefinitionsKnown(u, definitions)
  {}

  // Any schema, any components and definitions: normalisation ends.
  ghost function NormalizeSchema(schema: Json, components: Table, definitions: Table): Option<Json> {
    UniverseKnows(schema, components, definitions);
    Normalize(Universe(schema, components, definitions), schema, components, definitions, {})
  }
}
