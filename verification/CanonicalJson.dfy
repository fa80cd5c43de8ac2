// JSON values (section 3 of RFC 8259) and the text they are ordered and
// fingerprinted by (`_canonical_json`). The text determines the value.
module CanonicalJson {
  import opened StringOrder

  predicate IsDigit(c: char) { '0' <= c <= '9' }

  predicate IsNumberChar(c: char) { IsDigit(c) || c in "+-.eE" }

  // The spelling of a number: 1 and 1.0 are different values here.
  predicate IsNumber(s: string) {
    s != "" && (IsDigit(s[0]) || s[0] == '-') && forall i :: 0 <= i < |s| ==> IsNumberChar(s[i])
  }

  type NumberText = s: string | IsNumber(s) witness "0"

  datatype Json =
    | Null
    | Bool(value: bool)
    | Number(spelling: NumberText)
    | Str(text: string)
    | Arr(items: seq<Json>)
    | Obj(fields: map<string, Json>)

  // ----- strings -----

  const HEX: string := "0123456789abcdef"

  function Hex(n: nat, width: nat): (s: string)
    ensures |s| == width
  {
    if width == 0 then "" else Hex(n / 16, width - 1) + [HEX[n % 16]]
  }

  function Hex4(n: nat): (s: string)
    ensures |s| == 4
  {
    Hex(n, 4)
  }

  // Everything outside the printable ASCII range is escaped.
  function Escaped(c: char): string {
    if c == '"' then "\\\""
    else if c == '\\' then "\\\\"
    else if c == '\n' then "\\n"
    else if c == '\r' then "\\r"
    else if c == '\t' then "\\t"
    else if c == '\U{000C}' then "\\f"
    else if c == '\U{0008}' then "\\b"
    else if ' ' <= c <= '~' then [c]
    else if (c as int) < 0x10000 then "\\u" + Hex4(c as int)
    else "\\u" + Hex4(0xD800 + (c as int - 0x10000) / 1024) + "\\u" + Hex4(0xDC00 + (c as int - 0x10000) % 1024)
  }

  function Quoted(s: string): string { "\"" + Inside(s) }

  function Inside(s: string): string { if s == "" then "\"" else Escaped(s[0]) + Inside(s[1..]) }

  // ----- values -----

  ghost function Text(json: Json): string
    decreases json
  {
    match json
    case Null => "null"
    case Bool(value) => if value then "true" else "false"
    case Number(spelling) => spelling
    case Str(text) => Quoted(text)
    case Arr(_) => "[" + Elements(json, 0)
    case Obj(fields) => "{" + Members(json, SortedKeys(fields.Keys))
  }

  ghost function Elements(json: Json, i: nat): string
    requires json.Arr? && i <= |json.items|
    decreases json, |json.items| - i
  {
    if i == |json.items| then "]"
    else Text(json.items[i]) + (if i + 1 == |json.items| then "]" else "," + Elements(json, i + 1))
  }

  ghost function Members(json: Json, keys: seq<string>): string
    requires json.Obj? && forall k :: k in keys ==> k in json.fields
    decreases json, |keys|
  {
    if keys == [] then "}"
    else Quoted(keys[0]) + ":" + Text(json.fields[keys[0]]) + (if |keys| == 1 then "}" else "," + Members(json, keys[1..]))
  }

  // ----- the text of a value can be read back in one way only -----

  function Power(width: nat): nat { if width == 0 then 1 else 16 * Power(width - 1) }

  lemma {:induction false} HexIsDistinct(m: nat, n: nat, width: nat)
    requires m < Power(width) && n < Power(width) && Hex(m, width) == Hex(n, width)
    ensures m == n
  {
    if width > 0 {
      var a, b := Hex(m, width), Hex(n, width);
      assert a[..width - 1] == Hex(m / 16, width - 1) && b[..width - 1] == Hex(n / 16, width - 1);
      HexIsDistinct(m / 16, n / 16, width - 1);
      assert a[width - 1] == HEX[m % 16] && b[width - 1] == HEX[n % 16];
      DigitIsDistinct(m % 16, n % 16);
    }
  }

  lemma DigitIsDistinct(a: nat, b: nat)
    ensures a < 16 && b < 16 && HEX[a] == HEX[b] ==> a == b
  {}

  lemma SamePrefix(a: string, x: string, b: string, y: string)
    ensures a + x == b + y && |a| == |b| ==> (a, x) == (b, y)
  {
    if a + x == b + y && |a| == |b| {
      assert a == (a + x)[..|a|] && b == (b + y)[..|b|];
      assert x == (a + x)[|a|..] && y == (b + y)[|b|..];
    }
  }

  lemma Hex4Split(m: nat, x: string, n: nat, y: string)
    ensures m < 0x10000 && n < 0x10000 && Hex4(m) + x == Hex4(n) + y ==> (m, x) == (n, y)
  {
    if m < 0x10000 && n < 0x10000 && Hex4(m) + x == Hex4(n) + y {
      SamePrefix(Hex4(m), x, Hex4(n), y);
      assert Power(4) == 0x10000;
      HexIsDistinct(m, n, 4);
    }
  }

  predicate IsShort(c: char) { c == '"' || c == '\\' || c == '\n' || c == '\r' || c == '\t' || c == '\U{000C}' || c == '\U{0008}' }

  predicate IsPlain(c: char) { !IsShort(c) && ' ' <= c <= '~' }

  // The first code unit of an escape, and what follows it.
  function Unit(c: char): nat
    requires !IsShort(c) && !IsPlain(c)
  {
    if (c as int) < 0x10000 then c as int else 0xD800 + (c as int - 0x10000) / 1024
  }

  function Second(c: char): string
    requires !IsShort(c) && !IsPlain(c)
  {
    if (c as int) < 0x10000 then "" else "\\u" + Hex4(0xDC00 + (c as int - 0x10000) % 1024)
  }

  lemma LongEscape(c: char)
    requires !IsShort(c) && !IsPlain(c)
    ensures Escaped(c) == "\\u" + (Hex4(Unit(c)) + Second(c)) && Unit(c) < 0x10000
    ensures (c as int) >= 0x10000 <==> 0xD800 <= Unit(c) < 0xDC00
  {
    hide Hex4;
    if (c as int) >= 0x10000 {
      assert (c as int) < 0x110000;
      assert (c as int - 0x10000) / 1024 < 1024;
    }
  }

  lemma LongSplit(c: char, x: string, d: char, y: string)
    requires !IsShort(c) && !IsPlain(c) && !IsShort(d) && !IsPlain(d) && Escaped(c) + x == Escaped(d) + y
    ensures (c, x) == (d, y)
  {
    hide Hex4, Escaped;
    LongEscape(c);
    LongEscape(d);
    assert Escaped(c) + x == "\\u" + (Hex4(Unit(c)) + (Second(c) + x));
    assert Escaped(d) + y == "\\u" + (Hex4(Unit(d)) + (Second(d) + y));
    SamePrefix("\\u", Hex4(Unit(c)) + (Second(c) + x), "\\u", Hex4(Unit(d)) + (Second(d) + y));
    Hex4Split(Unit(c), Second(c) + x, Unit(d), Second(d) + y);
    if (c as int) >= 0x10000 {
      var m, n := 0xDC00 + (c as int - 0x10000) % 1024, 0xDC00 + (d as int - 0x10000) % 1024;
      assert Second(c) + x == "\\u" + (Hex4(m) + x) && Second(d) + y == "\\u" + (Hex4(n) + y);
      SamePrefix("\\u", Hex4(m) + x, "\\u", Hex4(n) + y);
      Hex4Split(m, x, n, y);
    } else {
      assert Second(c) + x == x && Second(d) + y == y;
    }
  }

  lemma FirstOfEscape(c: char)
    ensures Escaped(c) != "" && Escaped(c)[0] != '"'
    ensures IsShort(c) ==> |Escaped(c)| == 2 && Escaped(c)[0] == '\\' && Escaped(c)[1] != 'u'
    ensures IsPlain(c) ==> Escaped(c) == [c] && c != '\\'
    ensures !IsShort(c) && !IsPlain(c) ==> |Escaped(c)| >= 6 && Escaped(c)[0] == '\\' && Escaped(c)[1] == 'u'
  {
    hide Hex4;
    if !IsShort(c) && !IsPlain(c) {
      LongEscape(c);
    }
  }

  // No escape is the beginning of another.
  lemma EscapeSplit(c: char, x: string, d: char, y: string)
    requires Escaped(c) + x == Escaped(d) + y
    ensures (c, x) == (d, y)
  {
    hide Escaped;
    FirstOfEscape(c);
    FirstOfEscape(d);
    var whole := Escaped(c) + x;
    assert whole[0] == Escaped(c)[0] && whole[0] == Escaped(d)[0];
    if IsPlain(c) {
      SamePrefix(Escaped(c), x, Escaped(d), y);
    } else {
      assert whole[1] == Escaped(c)[1] && whole[1] == Escaped(d)[1];
      if IsShort(c) {
        SamePrefix(Escaped(c), x, Escaped(d), y);
        ShortIsDistinct(c, d);
      } else {
        LongSplit(c, x, d, y);
      }
    }
  }

  lemma ShortIsDistinct(c: char, d: char)
    ensures IsShort(c) && IsShort(d) && Escaped(c) == Escaped(d) ==> c == d
  {
    if IsShort(c) && IsShort(d) && Escaped(c) == Escaped(d) {
      assert Escaped(c)[1] == Escaped(d)[1];
    }
  }

  lemma FirstOfInside(s: string, x: string)
    ensures Inside(s) + x != "" && ((Inside(s) + x)[0] == '"' <==> s == "")
  {
    hide Escaped;
    if s != "" {
      FirstOfEscape(s[0]);
      assert (Inside(s) + x)[0] == Escaped(s[0])[0];
    }
  }

  lemma {:induction false} InsideSplit(s: string, x: string, t: string, y: string)
    requires Inside(s) + x == Inside(t) + y
    ensures (s, x) == (t, y)
  {
    hide Escaped;
    var whole := Inside(s) + x;
    FirstOfInside(s, x);
    FirstOfInside(t, y);
    if s == "" || t == "" {
      SamePrefix("\"", x, "\"", y);
    } else {
      assert whole == Escaped(s[0]) + (Inside(s[1..]) + x) && whole == Escaped(t[0]) + (Inside(t[1..]) + y);
      EscapeSplit(s[0], Inside(s[1..]) + x, t[0], Inside(t[1..]) + y);
      InsideSplit(s[1..], x, t[1..], y);
      assert s == [s[0]] + s[1..] && t == [t[0]] + t[1..];
    }
  }

  lemma QuotedSplit(s: string, x: string, t: string, y: string)
    ensures Quoted(s) + x == Quoted(t) + y ==> (s, x) == (t, y)
  {
    hide Inside;
    if Quoted(s) + x == Quoted(t) + y {
      assert Quoted(s) + x == "\"" + (Inside(s) + x) && Quoted(t) + y == "\"" + (Inside(t) + y);
      SamePrefix("\"", Inside(s) + x, "\"", Inside(t) + y);
      InsideSplit(s, x, t, y);
    }
  }

  // What may follow a value.
  predicate IsRest(x: string) { x == "" || x[0] in ",]}" }

  // How far a number reaches.
  function Span(s: string): nat { if s != "" && IsNumberChar(s[0]) then 1 + Span(s[1..]) else 0 }

  lemma {:induction false} SpanOf(a: string, x: string)
    requires (forall i :: 0 <= i < |a| ==> IsNumberChar(a[i])) && IsRest(x)
    ensures Span(a + x) == |a|
  {
    if a == "" {
      assert a + x == x;
    } else {
      SpanOf(a[1..], x);
      assert (a + x)[1..] == a[1..] + x;
    }
  }

  lemma NumberSplit(a: string, x: string, b: string, y: string)
    requires (forall i :: 0 <= i < |a| ==> IsNumberChar(a[i])) && (forall i :: 0 <= i < |b| ==> IsNumberChar(b[i]))
    requires IsRest(x) && IsRest(y) && a + x == b + y
    ensures (a, x) == (b, y)
  {
    SpanOf(a, x);
    SpanOf(b, y);
    SamePrefix(a, x, b, y);
  }

  // The first character tells the kind of a value.
  predicate StartsAs(json: Json, c: char) {
    match json
    case Null => c == 'n'
    case Bool(value) => c == (if value then 't' else 'f')
    case Number(_) => IsDigit(c) || c == '-'
    case Str(_) => c == '"'
    case Arr(_) => c == '['
    case Obj(_) => c == '{'
  }

  lemma FirstOfText(json: Json)
    ensures Text(json) != "" && StartsAs(json, Text(json)[0])
  {
    hide Elements, Members, Inside;
  }

  lemma SameKind(a: Json, b: Json, c: char)
    requires StartsAs(a, c) && StartsAs(b, c)
    ensures a.Null? == b.Null? && a.Bool? == b.Bool? && a.Number? == b.Number? && a.Str? == b.Str? && a.Arr? == b.Arr? && a.Obj? == b.Obj?
    ensures a.Bool? ==> a == b
    ensures c !in ",]}"
  {}

  // A value can be read off the front of a text in one way only.
  lemma {:induction false} TextSplit(a: Json, x: string, b: Json, y: string)
    requires IsRest(x) && IsRest(y) && Text(a) + x == Text(b) + y
    ensures (a, x) == (b, y)
    decreases a
  {
    hide Elements, Members, Inside, IsNumberChar;
    FirstOfText(a);
    FirstOfText(b);
    assert (Text(a) + x)[0] == Text(a)[0] && (Text(b) + y)[0] == Text(b)[0];
    SameKind(a, b, Text(a)[0]);
    if a.Number? {
      NumberSplit(a.spelling, x, b.spelling, y);
    } else if a.Str? {
      QuotedSplit(a.text, x, b.text, y);
    } else if a.Arr? {
      assert Text(a) + x == "[" + (Elements(a, 0) + x) && Text(b) + y == "[" + (Elements(b, 0) + y);
      SamePrefix("[", Elements(a, 0) + x, "[", Elements(b, 0) + y);
      ElementsSplit(a, 0, x, b, 0, y);
      assert a.items[0..] == a.items && b.items[0..] == b.items;
    } else if a.Obj? {
      var k, l := SortedKeys(a.fields.Keys), SortedKeys(b.fields.Keys);
      assert Text(a) + x == "{" + (Members(a, k) + x) && Text(b) + y == "{" + (Members(b, l) + y);
      SamePrefix("{", Members(a, k) + x, "{", Members(b, l) + y);
      MembersSplit(a, k, x, b, l, y);
      assert forall key :: key in a.fields <==> key in b.fields;
      assert a.fields == b.fields;
    } else {
      SamePrefix(Text(a), x, Text(b), y);
    }
  }

  lemma {:induction false} ElementsSplit(a: Json, i: nat, x: string, b: Json, j: nat, y: string)
    requires a.Arr? && b.Arr? && i <= |a.items| && j <= |b.items| && IsRest(x) && IsRest(y)
    requires Elements(a, i) + x == Elements(b, j) + y
    ensures a.items[i..] == b.items[j..] && x == y
    decreases a, |a.items| - i
  {
    hide Text;
    var whole := Elements(a, i) + x;
    if i < |a.items| {
      FirstOfText(a.items[i]);
      assert whole[0] == Text(a.items[i])[0];
    }
    if j < |b.items| {
      FirstOfText(b.items[j]);
      assert whole[0] == Text(b.items[j])[0];
    }
    if i == |a.items| || j == |b.items| {
      assert whole[0] == ']';
      SamePrefix("]", x, "]", y);
    } else {
      var v := (if i + 1 == |a.items| then "]" else "," + Elements(a, i + 1)) + x;
      var w := (if j + 1 == |b.items| then "]" else "," + Elements(b, j + 1)) + y;
      assert whole == Text(a.items[i]) + v && whole == Text(b.items[j]) + w;
      TextSplit(a.items[i], v, b.items[j], w);
      assert v[0] == w[0];
      if i + 1 == |a.items| {
        SamePrefix("]", x, "]", y);
      } else {
        assert v == "," + (Elements(a, i + 1) + x) && w == "," + (Elements(b, j + 1) + y);
        SamePrefix(",", Elements(a, i + 1) + x, ",", Elements(b, j + 1) + y);
        ElementsSplit(a, i + 1, x, b, j + 1, y);
      }
      assert a.items[i..] == [a.items[i]] + a.items[i + 1..] && b.items[j..] == [b.items[j]] + b.items[j + 1..];
    }
  }

  ghost function AfterMember(json: Json, keys: seq<string>): string
    requires json.Obj? && keys != [] && forall k :: k in keys ==> k in json.fields
  {
    if |keys| == 1 then "}" else "," + Members(json, keys[1..])
  }

  lemma MemberFirst(json: Json, keys: seq<string>, x: string)
    requires json.Obj? && keys != [] && forall k :: k in keys ==> k in json.fields
    ensures Members(json, keys) + x == Quoted(keys[0]) + (":" + (Text(json.fields[keys[0]]) + (AfterMember(json, keys) + x)))
    ensures Members(json, keys)[0] == '"' && IsRest(AfterMember(json, keys) + x)
  {
    hide Text, Inside, AfterMember;
    var key, value, after := Quoted(keys[0]), Text(json.fields[keys[0]]), AfterMember(json, keys);
    AfterMemberRests(json, keys, x);
    assert Members(json, keys) == key + ":" + value + after;
    FromTheRight(key, ":", value, after, x);
  }

  lemma FromTheRight(a: string, b: string, c: string, d: string, x: string)
    ensures a + b + c + d + x == a + (b + (c + (d + x)))
  {}

  lemma AfterMemberRests(json: Json, keys: seq<string>, x: string)
    requires json.Obj? && keys != [] && forall k :: k in keys ==> k in json.fields
    ensures IsRest(AfterMember(json, keys) + x)
    ensures Members(json, keys) == Quoted(keys[0]) + ":" + Text(json.fields[keys[0]]) + AfterMember(json, keys)
  {
    hide Text, Quoted;
  }

  lemma {:induction false} MembersSplit(a: Json, k: seq<string>, x: string, b: Json, l: seq<string>, y: string)
    requires a.Obj? && b.Obj? && (forall key :: key in k ==> key in a.fields) && (forall key :: key in l ==> key in b.fields)
    requires IsRest(x) && IsRest(y) && Members(a, k) + x == Members(b, l) + y
    ensures (k, x) == (l, y) && forall key :: key in k ==> key in b.fields && a.fields[key] == b.fields[key]
    decreases a, |k|, 0
  {
    hide Text, Quoted, Members, AfterMember;
    NoMembers(a);
    NoMembers(b);
    var whole := Members(a, k) + x;
    if k != [] {
      MemberFirst(a, k, x);
      assert whole[0] == '"';
    }
    if l != [] {
      MemberFirst(b, l, y);
      assert whole[0] == '"';
    }
    if k == [] || l == [] {
      assert whole[0] == '}';
      SamePrefix("}", x, "}", y);
    } else {
      var v, w := AfterMember(a, k) + x, AfterMember(b, l) + y;
      QuotedSplit(k[0], ":" + (Text(a.fields[k[0]]) + v), l[0], ":" + (Text(b.fields[l[0]]) + w));
      SamePrefix(":", Text(a.fields[k[0]]) + v, ":", Text(b.fields[l[0]]) + w);
      TextSplit(a.fields[k[0]], v, b.fields[l[0]], w);
      AfterMembersSplit(a, k, x, b, l, y);
      assert k == [k[0]] + k[1..] && l == [l[0]] + l[1..];
    }
  }

  lemma NoMembers(json: Json)
    ensures json.Obj? ==> Members(json, []) == "}"
  {}

  lemma {:induction false} AfterMembersSplit(a: Json, k: seq<string>, x: string, b: Json, l: seq<string>, y: string)
    requires a.Obj? && b.Obj? && (forall key :: key in k ==> key in a.fields) && (forall key :: key in l ==> key in b.fields)
    requires k != [] && l != [] && IsRest(x) && IsRest(y) && AfterMember(a, k) + x == AfterMember(b, l) + y
    ensures k[1..] == l[1..] && x == y && forall key :: key in k[1..] ==> key in b.fields && a.fields[key] == b.fields[key]
    decreases a, |k| - 1, 1
  {
    hide Members, AfterMember;
    AfterMemberShape(a, k, x);
    AfterMemberShape(b, l, y);
    if |k| == 1 {
      SamePrefix("}", x, "}", y);
    } else {
      SamePrefix(",", Members(a, k[1..]) + x, ",", Members(b, l[1..]) + y);
      MembersSplit(a, k[1..], x, b, l[1..], y);
    }
  }

  lemma AfterMemberShape(json: Json, keys: seq<string>, x: string)
    requires json.Obj? && keys != [] && forall k :: k in keys ==> k in json.fields
    ensures var after := AfterMember(json, keys) + x;
            && after != "" && after[0] == (if |keys| == 1 then '}' else ',')
            && after == (if |keys| == 1 then "}" + x else "," + (Members(json, keys[1..]) + x))
  {
    hide Members;
  }

  // Values with the same canonical text are the same.
  lemma TextIsInjective(a: Json, b: Json)
    requires Text(a) == Text(b)
    ensures a == b
  {
    assert Text(a) + "" == Text(b) + "";
    TextSplit(a, "", b, "");
  }
}
