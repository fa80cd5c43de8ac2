// A stream is read without failure exactly when it is a printed table among
// other lines.
module CopyClean {
  import opened Options
  import opened CopyTable
  import opened CopyReader
  import opened CopyRoundTrip

  lemma Regroup(a: Bytes, b: Bytes, c: Bytes)
    ensures (a + b) + c == a + (b + c)
  {}

  lemma CutAt(s: Bytes, n: nat)
    requires n < |s|
    ensures s[..n + 1] == s[..n] + [s[n]] && s == s[..n] + [s[n]] + s[n + 1..]
  {}

  lemma JoinFirst(word: Bytes, words: seq<Bytes>, separator: Bytes)
    requires words != []
    ensures Join([word] + words, separator) == word + separator + Join(words, separator)
  {
    assert ([word] + words)[1..] == words;
  }

  lemma JoinOne(word: Bytes, separator: Bytes)
    ensures Join([word], separator) == word
  {}

  // ----- columns and fields, split and joined -----

  lemma {:induction false} NoCommaBefore(s: Bytes)
    ensures !HasComma(s[..ColumnEnd(s)])
  {
    if |s| >= 2 && !(s[0] == ',' && s[1] == ' ') {
      NoCommaBefore(s[1..]);
      var n := ColumnEnd(s[1..]);
      var part := s[..n + 1];
      forall i | 0 <= i < |part| - 1
        ensures !(part[i] == ',' && part[i + 1] == ' ')
      {
        if i > 0 {
          assert s[1..][..n][i - 1] == part[i] && s[1..][..n][i] == part[i + 1];
        }
      }
    }
  }

  lemma {:induction false} ColumnsJoin(s: Bytes)
    ensures Join(SplitColumns(s), ", ") == s
    ensures forall c :: c in SplitColumns(s) ==> !HasComma(c)
    decreases |s|
  {
    hide ColumnEnd, HasComma;
    var n := ColumnEnd(s);
    NoCommaBefore(s);
    if n == |s| {
      assert s[..n] == s;
    } else {
      var rest := s[n + 2..];
      ColumnsJoin(rest);
      assert SplitColumns(s) == [s[..n]] + SplitColumns(rest);
      assert s == s[..n] + ", " + rest;
    }
  }

  lemma {:induction false} ColumnsHaveNo(s: Bytes, b: char)
    requires b !in s
    ensures forall c :: c in SplitColumns(s) ==> b !in c
    decreases |s|
  {
    var n := ColumnEnd(s);
    if n < |s| {
      ColumnsHaveNo(s[n + 2..], b);
    }
  }

  lemma {:induction false} FieldsJoin(line: Bytes)
    requires '\n' !in line
    ensures Join(Fields(line), "\t") == line
    ensures forall f :: f in Fields(line) ==> IsText(f)
    decreases |line|
  {
    hide IndexOf, Join;
    var n := IndexOf(line, '\t');
    if n == |line| {
      assert line[..n] == line;
      JoinOne(line, "\t");
    } else {
      var rest := line[n + 1..];
      FieldsJoin(rest);
      CutAt(line, n);
      JoinFirst(line[..n], Fields(rest), "\t");
    }
  }

  lemma HeaderIsPrinted(line: Bytes)
    requires IsHeader(line) && |line| <= METADATA_LIMIT && Usable(HeaderColumns(line)) && '\n' !in line[..|line| - 1]
    ensures Printable(HeaderColumns(line)) && Header(HeaderColumns(line)) == line
  {
    hide Usable, SplitColumns;
    HeaderHasRoom(line);
    var names := line[|PREFIX|..|line| - |SUFFIX|];
    assert forall b :: b in names ==> b in line[..|line| - 1];
    ColumnsJoin(names);
    ColumnsHaveNo(names, '\n');
    assert line == PREFIX + names + SUFFIX;
  }

  // ----- what can be read is printed -----

  // The first line of a stream and the rest.
  lemma FirstLine(s: Bytes)
    ensures var n := IndexOf(s, '\n'); n < |s| ==> s[..n + 1] == s[..n] + "\n" && s == s[..n] + "\n" + s[n + 1..] && '\n' !in s[..n]
  {
    hide IndexOf;
    var n := IndexOf(s, '\n');
    if n < |s| {
      CutAt(s, n);
      assert [s[n]] == "\n";
    }
  }

  lemma LinesOf(line: Bytes, lines: seq<Bytes>)
    ensures Lines([line] + lines) == line + "\n" + Lines(lines)
  {}

  lemma {:induction false} TrailerIsOther(s: Bytes) returns (after: seq<Bytes>)
    requires Trailer(s).failure.None?
    ensures (forall line :: line in after ==> IsOther(line)) && s == Lines(after)
    decreases |s|
  {
    hide IndexOf;
    var n := IndexOf(s, '\n');
    if n == |s| {
      after := [];
    } else {
      FirstLine(s);
      var rest := TrailerIsOther(s[n + 1..]);
      after := [s[..n]] + rest;
      LinesOf(s[..n], rest);
    }
  }

  lemma LineIsRow(columns: seq<Bytes>, line: Bytes) returns (row: FieldList)
    requires '\n' !in line && ReadLine(columns, line).Row?
    ensures IsRow(columns, row) && line == Join(row, "\t")
  {
    hide Selected;
    row := Fields(line);
    FieldsJoin(line);
    hide Fields;
    assert FieldFault(columns, row).None?;
  }

  lemma RowAndRest(row: FieldList, others: seq<FieldList>, end: Bytes)
    ensures Lines(RowLines([row] + others)) + end == Join(row, "\t") + "\n" + (Lines(RowLines(others)) + end)
  {
    hide Join;
    var line := Join(row, "\t");
    assert ([row] + others)[1..] == others;
    assert RowLines([row] + others) == [line] + RowLines(others);
    LinesOf(line, RowLines(others));
    Regroup(line + "\n", Lines(RowLines(others)), end);
  }

  lemma MarkEnds(columns: seq<Bytes>, line: Bytes, after: seq<Bytes>)
    requires ReadLine(columns, line).EndOfTable?
    ensures line + "\n" + Lines(after) == Lines(RowLines([])) + ("\\.\n" + Lines(after))
  {
    hide Fields, FieldFault, Project;
    assert line == "\\." && "\\." + "\n" == "\\.\n";
    assert Lines(RowLines([])) == "";
  }

  lemma {:induction false} TableIsPrinted(columns: seq<Bytes>, s: Bytes) returns (table: seq<FieldList>, after: seq<Bytes>)
    requires TableRows(columns, s).failure.None?
    ensures (forall row :: row in table ==> IsRow(columns, row)) && (forall line :: line in after ==> IsOther(line))
    ensures s == Lines(RowLines(table)) + ("\\.\n" + Lines(after))
    decreases |s|
  {
    hide IndexOf, IsRow, IsOther, Trailer, Lines, RowLines, ReadLine, Join;
    var n := IndexOf(s, '\n');
    FirstLine(s);
    var line, rest := s[..n], s[n + 1..];
    if ReadLine(columns, line).EndOfTable? {
      table := [];
      after := TrailerIsOther(rest);
      MarkEnds(columns, line, after);
    } else {
      var row := LineIsRow(columns, line);
      var others: seq<FieldList>;
      others, after := TableIsPrinted(columns, rest);
      table := [row] + others;
      RowAndRest(row, others, "\\.\n" + Lines(after));
    }
  }

  // A stream that begins with the header line.
  lemma HeaderAndTable(s: Bytes) returns (columns: seq<Bytes>, table: seq<FieldList>, after: seq<Bytes>)
    requires Grammar(s).failure.None? && IndexOf(s, '\n') < |s| && COPY_WORD <= s[..IndexOf(s, '\n') + 1]
    ensures IsPrinted(s, [], columns, table, after)
  {
    hide IndexOf, IsRow, IsOther, Printable, TableRows, Header, HeaderColumns, IsHeader, Usable;
    var n := IndexOf(s, '\n');
    FirstLine(s);
    var line, rest := s[..n + 1], s[n + 1..];
    columns := HeaderColumns(line);
    assert line[..|line| - 1] == s[..n];
    HeaderIsPrinted(line);
    PrintableHasColumns(columns);
    table, after := TableIsPrinted(columns, rest);
    hide Grammar;
    assert [] + after == after;
    assert Lines([]) == "" && "" + (line + rest) == line + rest == s;
  }

  lemma AnotherBefore(line: Bytes, rest: Bytes, others: seq<Bytes>, columns: seq<Bytes>, table: seq<FieldList>, after: seq<Bytes>)
    requires IsOther(line) && IsPrinted(rest, others, columns, table, after)
    ensures IsPrinted(line + "\n" + rest, [line] + others, columns, table, after)
  {
    hide IsRow, IsOther, Printable, Printed;
    PrintedAfter(line, others, columns, table, after);
    assert forall l :: l in [line] + others + after ==> l == line || l in others + after;
  }

  lemma {:induction false} StreamIsPrinted(s: Bytes) returns (before: seq<Bytes>, columns: seq<Bytes>, table: seq<FieldList>, after: seq<Bytes>)
    requires Grammar(s).failure.None?
    ensures IsPrinted(s, before, columns, table, after)
    decreases |s|
  {
    hide IndexOf, IsPrinted, TableRows, HeaderColumns, IsHeader, Usable;
    var n := IndexOf(s, '\n');
    FirstLine(s);
    if COPY_WORD <= s[..n + 1] {
      columns, table, after := HeaderAndTable(s);
      before := [];
    } else {
      var others: seq<Bytes>;
      others, columns, table, after := StreamIsPrinted(s[n + 1..]);
      before := [s[..n]] + others;
      AnotherBefore(s[..n], s[n + 1..], others, columns, table, after);
    }
  }

  lemma PrintableHasColumns(columns: seq<Bytes>)
    ensures Printable(columns) ==> columns != []
  {}

  lemma PrintedAfter(line: Bytes, others: seq<Bytes>, columns: seq<Bytes>, table: seq<FieldList>, after: seq<Bytes>)
    requires Printable(columns)
    ensures columns != [] && Printed([line] + others, columns, table, after) == line + "\n" + Printed(others, columns, table, after)
  {
    hide Printable, Header, Lines;
    PrintableHasColumns(columns);
    LinesOf(line, others);
    var end := "\\.\n" + Lines(after);
    Regroup(line + "\n", Lines(others), Header(columns) + (Lines(RowLines(table)) + end));
  }

  // Whatever the reader accepts is a printed table, and every printed table is
  // accepted: every other stream ends in a failure.
  lemma CleanIsPrinted(s: Bytes)
    ensures Grammar(s).failure.None? <==> exists before, columns, table, after :: IsPrinted(s, before, columns, table, after)
  {
    hide Grammar, Printable, IsRow, IsOther, Printed;
    if Grammar(s).failure.None? {
      var before, columns, table, after := StreamIsPrinted(s);
      assert IsPrinted(s, before, columns, table, after);
    }
    forall before, columns, table, after | IsPrinted(s, before, columns, table, after)
      ensures Grammar(s).failure.None?
    {
      RowsProjected(before, columns, table, after);
    }
  }
}
