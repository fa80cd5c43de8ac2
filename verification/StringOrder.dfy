// Strings by code point, as the program sorts them.
module StringOrder {
  // Code point order, shorter first.
  predicate Before(a: string, b: string)
    decreases |a|
  {
    if b == "" then false else if a == "" then true
    else a[0] < b[0] || (a[0] == b[0] && Before(a[1..], b[1..]))
  }

  function Insert(values: seq<string>, v: string): (sorted: seq<string>)
    ensures forall x :: x in sorted <==> x in values || x == v
  {
    if values == [] then [v]
    else if v == values[0] then values
    else if Before(v, values[0]) then [v] + values
    else [values[0]] + Insert(values[1..], v)
  }

  // `sorted(set(values))`
  function SortedSet(values: seq<string>): (sorted: seq<string>)
    ensures forall x :: x in sorted <==> x in values
  {
    if values == [] then [] else Insert(SortedSet(values[1..]), values[0])
  }

  // ----- the order is total -----

  lemma {:induction false} NotBoth(a: string, b: string)
    ensures Before(a, b) ==> !Before(b, a) && a != b
  {
    if a != "" && b != "" && a[0] == b[0] {
      NotBoth(a[1..], b[1..]);
    }
  }

  lemma {:induction false} OneOrOther(a: string, b: string)
    ensures a == b || Before(a, b) || Before(b, a)
  {
    if a != "" && b != "" && a[0] == b[0] {
      OneOrOther(a[1..], b[1..]);
      assert a == [a[0]] + a[1..] && b == [b[0]] + b[1..];
    }
  }

  lemma {:induction false} Chained(a: string, b: string, c: string)
    requires Before(a, b) && Before(b, c)
    ensures Before(a, c)
  {
    if a != "" && a[0] == b[0] && b[0] == c[0] {
      Chained(a[1..], b[1..], c[1..]);
    }
  }

  // ----- the keys of an object, sorted -----

  ghost predicate IsLeast(keys: set<string>, k: string) { k in keys && forall o :: o in keys ==> k == o || Before(k, o) }

  lemma {:induction false} HasLeast(keys: set<string>)
    requires keys != {}
    ensures exists k :: IsLeast(keys, k)
    decreases |keys|
  {
    var k :| k in keys;
    var rest := keys - {k};
    if rest == {} {
      assert keys == {k} && IsLeast(keys, k);
    } else {
      HasLeast(rest);
      var least :| IsLeast(rest, least);
      OneOrOther(k, least);
      forall o | o in keys && Before(k, least)
        ensures k == o || Before(k, o)
      {
        if o != k && o != least {
          Chained(k, least, o);
        }
      }
      assert IsLeast(keys, k) || IsLeast(keys, least);
    }
  }

  ghost function SortedKeys(keys: set<string>): (sorted: seq<string>)
    ensures forall k :: k in sorted <==> k in keys
    decreases |keys|
  {
    if keys == {} then []
    else
      HasLeast(keys);
      var k :| IsLeast(keys, k);
      [k] + SortedKeys(keys - {k})
  }

  // ----- sorted lists without repeats -----

  predicate IsSorted(values: seq<string>) { forall i, j :: 0 <= i < j < |values| ==> Before(values[i], values[j]) }

  lemma {:induction false} InsertSorts(values: seq<string>, v: string)
    requires IsSorted(values)
    ensures IsSorted(Insert(values, v))
  {
    if values != [] {
      OneOrOther(v, values[0]);
      InsertSorts(values[1..], v);
      if v != values[0] && Before(v, values[0]) {
        forall i | 0 < i < |values|
          ensures Before(v, values[i])
        {
          Chained(v, values[0], values[i]);
        }
      } else if v != values[0] {
        var rest := Insert(values[1..], v);
        forall i | 0 <= i < |rest|
          ensures Before(values[0], rest[i])
        {
          assert rest[i] in rest;
        }
      }
    }
  }

  // `sorted(a set)`
  method SortSet(values: set<string>) returns (sorted: seq<string>)
    ensures IsSorted(sorted) && forall v :: v in sorted <==> v in values
  {
    var left := values;
    sorted := [];
    while left != {}
      invariant left <= values && IsSorted(sorted)
      invariant forall v :: v in sorted <==> v in values && v !in left
    {
      var v :| v in left;
      InsertSorts(sorted, v);
      sorted := Insert(sorted, v);
      left := left - {v};
    }
  }

  lemma {:induction false} SortedSetIsSorted(values: seq<string>)
    ensures IsSorted(SortedSet(values))
  {
    if values != [] {
      SortedSetIsSorted(values[1..]);
      InsertSorts(SortedSet(values[1..]), values[0]);
    }
  }

  lemma FirstIsMember(a: seq<string>)
    ensures a == [] || a[0] in a
  {}

  // Sorted lists of the same strings are the same list.
  lemma {:induction false} SortedIsUnique(a: seq<string>, b: seq<string>)
    requires IsSorted(a) && IsSorted(b) && forall v :: v in a <==> v in b
    ensures a == b
  {
    if a != [] && b != [] {
      assert a[0] in b && b[0] in a;
      SameFirst(a, b);
      forall v
        ensures v in a[1..] <==> v in b[1..]
      {
        InRest(a, v);
        InRest(b, v);
      }
      SortedIsUnique(a[1..], b[1..]);
      assert a == [a[0]] + a[1..] && b == [b[0]] + b[1..];
    } else {
      FirstIsMember(a);
      FirstIsMember(b);
    }
  }

  lemma SameFirst(a: seq<string>, b: seq<string>)
    ensures IsSorted(a) && IsSorted(b) && a != [] && b != [] && a[0] in b && b[0] in a ==> a[0] == b[0]
  {
    if IsSorted(a) && IsSorted(b) && a != [] && b != [] && a[0] in b && b[0] in a {
      NotBoth(a[0], b[0]);
    }
  }

  lemma InRest(a: seq<string>, v: string)
    requires IsSorted(a) && a != []
    ensures v in a[1..] <==> v in a && v != a[0]
  {
    assert a == [a[0]] + a[1..];
    NotBoth(a[0], a[0]);
  }
}
