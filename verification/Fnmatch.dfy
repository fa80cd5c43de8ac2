// `fnmatch.fnmatchcase`: `*`, `?`, `[...]` and `[!...]` over whole strings.
module Fnmatch {
  import opened Options

  datatype Item = One(c: char) | Span(low: char, high: char)

  // The position in `p` of the `]` that closes the class opened at `p[0]`.
  function ClassEnd(p: string): Option<nat>
    requires p != "" && p[0] == '['
    ensures ClassEnd(p).Some? ==> 1 < ClassEnd(p).value < |p|
  {
    var first := if 1 < |p| && p[1] == '!' then 2 else 1;
    var start := if first < |p| && p[first] == ']' then first + 1 else first;
    Closing(p, start, first)
  }

  function Closing(p: string, at: nat, first: nat): (end: Option<nat>)
    requires 1 <= first <= at
    ensures end.Some? ==> first <= end.value < |p| && (end.value > 1 || at == end.value)
    decreases |p| - at
  {
    if at >= |p| then None
    else if p[at] == ']' && at > 1 then Some(at)
    else Closing(p, at + 1, first)
  }

  // A hyphen between two characters spans them; anywhere else it is itself.
  function Items(body: string): seq<Item>
    decreases |body|
  {
    if body == "" then []
    else if |body| > 2 && body[1] == '-' then [Span(body[0], body[2])] + Items(body[3..])
    else [One(body[0])] + Items(body[1..])
  }

  // Backward spans are dropped before the class is read.
  function Kept(items: seq<Item>): seq<Item> {
    if items == [] then []
    else if items[0].Span? && items[0].low > items[0].high then Kept(items[1..])
    else [items[0]] + Kept(items[1..])
  }

  predicate Holds(items: seq<Item>, c: char) {
    exists i :: 0 <= i < |items| && match items[i] case One(x) => x == c case Span(low, high) => low <= c <= high
  }

  // `body` is the text between the brackets.  Dropping a backward span can
  // bring a `!` to the front, where it negates what follows it.
  predicate InClass(body: string, c: char) {
    if body != "" && body[0] == '!' then !Holds(Kept(Items(body[1..])), c)
    else
      var kept := Kept(Items(body));
      if kept != [] && kept[0] == One('!') then !Holds(kept[1..], c)
      else if kept != [] && kept[0].Span? && kept[0].low == '!' then !Holds([One('-'), One(kept[0].high)] + kept[1..], c)
      else Holds(kept, c)
  }

  predicate Matches(pattern: string, text: string)
    decreases |pattern|, |text|
  {
    if pattern == "" then text == ""
    else if pattern[0] == '*' then
      Matches(pattern[1..], text) || (text != "" && Matches(pattern, text[1..]))
    else if text == "" then false
    else if pattern[0] == '?' then Matches(pattern[1..], text[1..])
    else if pattern[0] == '[' && ClassEnd(pattern).Some? then
      InClass(pattern[1..ClassEnd(pattern).value], text[0]) && Matches(pattern[ClassEnd(pattern).value + 1..], text[1..])
    else pattern[0] == text[0] && Matches(pattern[1..], text[1..])
  }

  // `_contains_selector_glob`
  predicate HasGlob(s: string) { '*' in s || '?' in s || '[' in s }

  lemma {:induction false} StarMatches(text: string)
    ensures Matches("*", text)
  {
    if text != "" {
      StarMatches(text[1..]);
    }
  }

  // Without special characters in front, a pattern consumes itself literally.
  lemma {:induction false} LiteralPrefix(word: string, pattern: string, text: string)
    requires !HasGlob(word)
    ensures Matches(word + pattern, text) <==> word <= text && Matches(pattern, text[|word|..])
  {
    if word == "" {
      assert word + pattern == pattern;
    } else {
      assert (word + pattern)[0] == word[0] && (word + pattern)[1..] == word[1..] + pattern;
      assert word[0] in word;
      assert !HasGlob(word[1..]);
      if text != "" {
        LiteralPrefix(word[1..], pattern, text[1..]);
        assert word <= text <==> word[0] == text[0] && word[1..] <= text[1..];
      }
    }
  }

  lemma LiteralMatches(word: string, text: string)
    requires !HasGlob(word)
    ensures Matches(word, text) <==> word == text
  {
    assert word + "" == word;
    LiteralPrefix(word, "", text);
  }

  // A star stands for any text, the empty one included.
  lemma {:induction false} StarSplits(rest: string, text: string)
    ensures Matches("*" + rest, text) <==> exists k :: 0 <= k <= |text| && Matches(rest, text[k..])
  {
    assert ("*" + rest)[1..] == rest && text[0..] == text;
    if text != "" {
      StarSplits(rest, text[1..]);
      assert forall k :: 0 <= k <= |text| - 1 ==> text[1..][k..] == text[k + 1..];
      if k :| 0 <= k <= |text| && Matches(rest, text[k..]) {
        assert k > 0 ==> text[1..][k - 1..] == text[k..];
      }
    }
  }

  // A class without ranges, and without the bracket or mark that would end or
  // negate it.
  predicate IsPlainClass(body: string) { body != "" && forall c :: c in body ==> c != ']' && c != '-' && c != '!' }

  lemma {:induction false} PlainItems(body: string)
    requires body == "" || IsPlainClass(body)
    ensures |Kept(Items(body))| == |body| && forall i :: 0 <= i < |body| ==> Kept(Items(body))[i] == One(body[i])
  {
    if body != "" {
      assert forall c :: c in body[1..] ==> c in body;
      assert |body| > 2 ==> body[1] in body;
      PlainItems(body[1..]);
      assert Items(body) == [One(body[0])] + Items(body[1..]);
      assert Kept(Items(body)) == [One(body[0])] + Kept(Items(body[1..]));
    }
  }

  lemma PlainHolds(body: string, c: char)
    requires IsPlainClass(body)
    ensures InClass(body, c) <==> c in body
    ensures InClass("!" + body, c) <==> c !in body
  {
    PlainItems(body);
    assert body[0] in body;
    var kept := Kept(Items(body));
    assert ("!" + body)[1..] == body;
    if c in body {
      var i :| 0 <= i < |body| && body[i] == c;
      assert kept[i] == One(c);
    }
  }

  lemma {:induction false} ClosingAt(p: string, at: nat, first: nat, end: nat)
    requires 1 <= first <= at <= end < |p| && p[end] == ']' && end > 1 && forall i :: at <= i < end ==> p[i] != ']'
    ensures Closing(p, at, first) == Some(end)
    decreases end - at
  {
    if at < end {
      ClosingAt(p, at + 1, first, end);
    }
  }

  lemma ClassCloses(inner: string, rest: string)
    requires inner != "" && inner != "!" && ']' !in inner
    ensures var p := "[" + inner + "]" + rest;
            ClassEnd(p) == Some(|inner| + 1) && p[1..|inner| + 1] == inner && p[|inner| + 2..] == rest
  {
    var p, end := "[" + inner + "]" + rest, |inner| + 1;
    forall i | 1 <= i < end
      ensures p[i] == inner[i - 1] && p[i] != ']'
    {
      assert inner[i - 1] in inner;
    }
    assert p[end] == ']';
    var first := if p[1] == '!' then 2 else 1;
    ClosingAt(p, first, first, end);
  }

  // A class stands for one character in it, or not in it if it is negated.
  lemma ClassMatches(body: string, negated: bool, rest: string, text: string)
    requires IsPlainClass(body)
    ensures Matches("[" + (if negated then "!" + body else body) + "]" + rest, text) <==>
            text != "" && (text[0] in body) != negated && Matches(rest, text[1..])
  {
    hide InClass, ClassEnd;
    var inner := if negated then "!" + body else body;
    var p := "[" + inner + "]" + rest;
    assert body[0] in body;
    ClassCloses(inner, rest);
    if text != "" {
      PlainHolds(body, text[0]);
    }
  }
}
