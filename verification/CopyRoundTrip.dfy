// A printed table reads back as the projection of its rows.
module CopyRoundTrip {
  import opened Options
  import opened CopyTable
  import opened CopyReader

  type FieldList = fields: seq<Bytes> | fields != [] witness [[]]

  function Join(words: seq<Bytes>, separator: Bytes): Bytes
    requires words != []
  {
    if |words| == 1 then words[0] else words[0] + separator + Join(words[1..], separator)
  }

  function Lines(lines: seq<Bytes>): Bytes {
    if lines == [] then [] else lines[0] + "\n" + Lines(lines[1..])
  }

  function Header(columns: seq<Bytes>): Bytes
    requires columns != []
  {
    PREFIX + Join(columns, ", ") + SUFFIX
  }

  function RowLines(table: seq<FieldList>): (lines: seq<Bytes>)
  {
    if table == [] then [] else
      [Join(table[0], "\t")] + RowLines(table[1..])
  }

  function Printed(before: seq<Bytes>, columns: seq<Bytes>, table: seq<FieldList>, after: seq<Bytes>): Bytes
    requires columns != []
  {
    Lines(before) + (Header(columns) + (Lines(RowLines(table)) + ("\\.\n" + Lines(after))))
  }

  function Projected(columns: seq<Bytes>, table: seq<FieldList>): seq<Values> {
    if table == [] then [] else [Project(columns, table[0])] + Projected(columns, table[1..])
  }

  // A line outside the table: bounded, and not a COPY statement.
  predicate IsOther(line: Bytes) {
    '\n' !in line && |line| < METADATA_LIMIT && !(COPY_WORD <= line + "\n")
  }

  predicate HasComma(s: Bytes) { exists i :: 0 <= i < |s| - 1 && s[i] == ',' && s[i + 1] == ' ' }

  predicate Printable(columns: seq<Bytes>) {
    && columns != [] && Usable(columns)
    && (forall c :: c in columns ==> !HasComma(c) && '\n' !in c)
    && |Header(columns)| <= METADATA_LIMIT
  }

  // Escaped fields hold no raw tab or line feed; selected ones are short.
  predicate IsRow(columns: seq<Bytes>, row: seq<Bytes>) {
    && |row| == |columns|
    && (forall f :: f in row ==> IsText(f))
    && (forall j :: 0 <= j < |row| && Selected(columns, j) ==> |row[j]| <= FIELD_LIMIT)
  }

  // ----- lines -----

  // The first `b` in a word without it, then `b`, then anything.
  lemma FirstAt(word: Bytes, b: char, rest: Bytes)
    requires b !in word
    ensures var s := word + [b] + rest;
            && IndexOf(s, b) == |word| && s[..|word|] == word
            && s[..|word| + 1] == word + [b] && s[|word| + 1..] == rest
  {
    var s := word + [b] + rest;
    assert forall i :: 0 <= i < |word| ==> s[i] == word[i];
    IndexIs(s, b, |word|);
  }

  lemma {:induction false} BeforeSkipped(before: seq<Bytes>, s: Bytes)
    requires forall line :: line in before ==> IsOther(line)
    ensures Grammar(Lines(before) + s) == Grammar(s)
  {
    if before == [] {
      NilConcat(s);
    } else {
      var rest := Lines(before[1..]) + s;
      assert Lines(before) + s == before[0] + "\n" + rest;
      assert before[0] in before;
      OtherSkipped(before[0], rest);
      BeforeSkipped(before[1..], s);
    }
  }

  lemma OtherSkipped(line: Bytes, rest: Bytes)
    ensures IsOther(line) ==> Grammar(line + "\n" + rest) == Grammar(rest)
  {
    hide IndexOf, IsHeader, HeaderColumns, Usable;
    if IsOther(line) {
      FirstAt(line, '\n', rest);
    }
  }

  lemma {:induction false} AfterSkipped(after: seq<Bytes>)
    requires forall line :: line in after ==> IsOther(line)
    ensures Trailer(Lines(after)) == Outcome([], None)
  {
    hide IndexOf;
    if after != [] {
      assert after[0] in after;
      FirstAt(after[0], '\n', Lines(after[1..]));
      AfterSkipped(after[1..]);
    }
  }

  // ----- columns -----

  lemma {:induction false} ColumnEndAt(column: Bytes, rest: Bytes)
    requires !HasComma(column)
    ensures ColumnEnd(column + ", " + rest) == |column|
  {
    var s := column + ", " + rest;
    if column != [] {
      assert s[1..] == column[1..] + ", " + rest;
      NoCommaTail(column);
      ColumnEndAt(column[1..], rest);
    }
  }

  lemma NoCommaTail(s: Bytes)
    requires s != [] && !HasComma(s)
    ensures !HasComma(s[1..])
    ensures |s| > 1 ==> !(s[0] == ',' && s[1] == ' ')
  {
    assert forall i :: 0 <= i < |s| - 1 ==> s[1..][i] == s[i + 1];
    assert |s| > 1 ==> s[0 + 1] == s[1];
  }

  lemma {:induction false} ColumnEndNone(column: Bytes)
    requires !HasComma(column)
    ensures ColumnEnd(column) == |column|
  {
    if |column| >= 2 {
      NoCommaTail(column);
      ColumnEndNone(column[1..]);
    }
  }

  lemma {:induction false} ColumnsSplit(columns: seq<Bytes>)
    requires columns != [] && forall c :: c in columns ==> !HasComma(c)
    ensures SplitColumns(Join(columns, ", ")) == columns
  {
    assert columns[0] in columns;
    if |columns| == 1 {
      ColumnEndNone(columns[0]);
    } else {
      var rest := Join(columns[1..], ", ");
      var s := columns[0] + ", " + rest;
      ColumnEndAt(columns[0], rest);
      assert s[..|columns[0]|] == columns[0] && s[|columns[0]| + 2..] == rest;
      ColumnsSplit(columns[1..]);
    }
  }

  lemma {:induction false} JoinHasNo(words: seq<Bytes>, separator: Bytes, b: char)
    requires words != [] && b !in separator && forall w :: w in words ==> b !in w
    ensures b !in Join(words, separator)
  {
    assert words[0] in words;
    if |words| > 1 {
      JoinHasNo(words[1..], separator, b);
    }
  }

  // Any names between the prefix and the suffix make a header line of those names.
  lemma HeaderParts(names: Bytes)
    ensures var line := PREFIX + names + SUFFIX;
            && IsHeader(line) && COPY_WORD <= line && |line| > 0 && line[|line| - 1] == '\n'
            && line[..|line| - 1] == PREFIX + names + ") FROM stdin;"
            && line[|PREFIX|..|line| - |SUFFIX|] == names
  {
    var line := PREFIX + names + SUFFIX;
    assert line[|line| - |SUFFIX|..] == SUFFIX;
    assert PREFIX <= line && COPY_WORD <= PREFIX;
  }

  lemma HeaderReads(columns: seq<Bytes>)
    requires Printable(columns)
    ensures var line := Header(columns);
            && |line| > 0 && line[|line| - 1] == '\n' && '\n' !in line[..|line| - 1]
            && COPY_WORD <= line && IsHeader(line) && HeaderColumns(line) == columns
  {
    hide Usable, SplitColumns, Join, IsHeader;
    JoinHasNo(columns, ", ", '\n');
    ColumnsSplit(columns);
    HeaderParts(Join(columns, ", "));
    assert '\n' !in PREFIX && '\n' !in ") FROM stdin;";
  }

  // ----- rows -----

  lemma {:induction false} FieldsSplit(fields: seq<Bytes>)
    requires fields != [] && forall f :: f in fields ==> IsText(f)
    ensures Fields(Join(fields, "\t")) == fields
  {
    assert fields[0] in fields;
    if |fields| > 1 {
      var rest := Join(fields[1..], "\t");
      FirstAt(fields[0], '\t', rest);
      FieldsSplit(fields[1..]);
    }
  }

  lemma RowReads(columns: seq<Bytes>, row: seq<Bytes>)
    requires Printable(columns) && IsRow(columns, row)
    ensures row != [] && '\n' !in Join(row, "\t")
    ensures ReadLine(columns, Join(row, "\t")) == Row(Project(columns, row))
  {
    hide IndexOf, Fields;
    FieldsSplit(row);
    JoinHasNo(row, "\t", '\n');
    AtLeastTwoColumns(columns);
    JoinIsNotMark(row);
  }

  lemma AtLeastTwoColumns(columns: seq<Bytes>)
    ensures Usable(columns) ==> |columns| > 1
  {
    hide IndexOf;
    if Usable(columns) {
      SelectedPlace(columns, 0);
      assert IndexOf(columns, STORE_FNAME) < |columns| && IndexOf(columns, CHECKSUM) < |columns|;
    }
  }

  lemma JoinIsNotMark(row: seq<Bytes>)
    ensures |row| > 1 ==> Join(row, "\t") != "\\."
  {
    if |row| > 1 {
      assert Join(row, "\t")[|row[0]|] == '\t';
    }
  }

  lemma {:induction false} RowsRead(columns: seq<Bytes>, table: seq<FieldList>, after: seq<Bytes>)
    requires Printable(columns) && forall row :: row in table ==> IsRow(columns, row)
    requires forall line :: line in after ==> IsOther(line)
    ensures TableRows(columns, Lines(RowLines(table)) + ("\\.\n" + Lines(after))) == Outcome(Projected(columns, table), None)
  {
    hide IndexOf, ReadLine, Usable;
    var end := "\\.\n" + Lines(after);
    if table == [] {
      assert Lines(RowLines(table)) + end == "\\." + "\n" + Lines(after);
      FirstAt("\\.", '\n', Lines(after));
      MarkReads(columns);
      AfterSkipped(after);
    } else {
      var line := Join(table[0], "\t");
      var rest := Lines(RowLines(table[1..])) + end;
      assert table[0] in table;
      assert RowLines(table) == [line] + RowLines(table[1..]);
      assert Lines(RowLines(table)) + end == line + "\n" + rest;
      RowReads(columns, table[0]);
      FirstAt(line, '\n', rest);
      RowsRead(columns, table[1..], after);
    }
  }

  lemma MarkReads(columns: seq<Bytes>)
    ensures Usable(columns) ==> ReadLine(columns, "\\.") == EndOfTable
  {
    if Usable(columns) {
      AtLeastTwoColumns(columns);
      assert Fields("\\.") == ["\\."] by {
        assert IndexOf("\\.", '\t') == 2;
      }
    }
  }

  lemma RowsProjected(before: seq<Bytes>, columns: seq<Bytes>, table: seq<FieldList>, after: seq<Bytes>)
    requires Printable(columns) && forall row :: row in table ==> IsRow(columns, row)
    requires forall line :: line in before + after ==> IsOther(line)
    ensures Grammar(Printed(before, columns, table, after)) == Outcome(Projected(columns, table), None)
  {
    hide IndexOf, TableRows, HeaderColumns, IsHeader, Usable;
    var body := Lines(RowLines(table)) + ("\\.\n" + Lines(after));
    var line := Header(columns);
    assert forall l :: l in before ==> l in before + after;
    assert forall l :: l in after ==> l in before + after;
    BeforeSkipped(before, line + body);
    HeaderReads(columns);
    BodyAndLast(line);
    assert line + body == line[..|line| - 1] + "\n" + body;
    FirstAt(line[..|line| - 1], '\n', body);
    RowsRead(columns, table, after);
  }

  // ----- every value under its own name -----

  // The three values are the fields of the row in the columns of those names.
  predicate Carries(columns: seq<Bytes>, row: seq<Bytes>, values: Values) {
    forall j :: 0 <= j < |columns| && j < |row| ==>
      && (columns[j] == "store_fname" ==> values.storeFname == row[j])
      && (columns[j] == "checksum" ==> values.checksum == row[j])
      && (columns[j] == "file_size" ==> values.fileSize == row[j])
  }

  lemma FieldOfColumn(columns: seq<Bytes>, row: seq<Bytes>, j: nat)
    ensures Distinct(columns) && j < |columns| && j < |row| ==> FieldAt(columns, row, columns[j]) == row[j]
  {
    if Distinct(columns) && j < |columns| && j < |row| {
      IndexIs(columns, columns[j], j);
    }
  }

  // Only one triple of values is carried by a row that has all three columns.
  lemma CarriesProjection(columns: seq<Bytes>, row: seq<Bytes>, values: Values)
    ensures Usable(columns) && |row| == |columns| ==> (Carries(columns, row, values) <==> values == Project(columns, row))
  {
    hide FieldAt, Distinct;
    if Usable(columns) && |row| == |columns| {
      forall j: nat | j < |columns|
        ensures FieldAt(columns, row, columns[j]) == row[j]
      {
        FieldOfColumn(columns, row, j);
      }
      var a := IndexOf(columns, "store_fname");
      var b := IndexOf(columns, "checksum");
      var c := IndexOf(columns, "file_size");
      assert columns[a] == "store_fname" && columns[b] == "checksum" && columns[c] == "file_size";
    }
  }

  lemma {:induction false} ProjectedAt(columns: seq<Bytes>, table: seq<FieldList>, i: nat)
    requires i < |table|
    ensures |Projected(columns, table)| == |table| && Projected(columns, table)[i] == Project(columns, table[i])
  {
    if i > 0 {
      ProjectedAt(columns, table[1..], i - 1);
    } else if |table| > 1 {
      ProjectedAt(columns, table[1..], 0);
    }
  }

  // A stream that holds this table, among other lines.
  predicate IsPrinted(stream: Bytes, before: seq<Bytes>, columns: seq<Bytes>, table: seq<FieldList>, after: seq<Bytes>) {
    && Printable(columns) && (forall row :: row in table ==> IsRow(columns, row))
    && (forall line :: line in before + after ==> IsOther(line))
    && stream == Printed(before, columns, table, after)
  }

  // Every printed table reads back whole, whatever other lines surround it:
  // one row for each of its rows, in order, and in each row the value of every
  // selected column under the name of that column.
  lemma RoundTrip(before: seq<Bytes>, columns: seq<Bytes>, table: seq<FieldList>, after: seq<Bytes>)
    requires Printable(columns) && forall row :: row in table ==> IsRow(columns, row)
    requires forall line :: line in before + after ==> IsOther(line)
    ensures var read := Grammar(Printed(before, columns, table, after));
            && read == Outcome(Projected(columns, table), None) && |read.rows| == |table|
            && forall i :: 0 <= i < |table| ==> |table[i]| == |columns| && Carries(columns, table[i], read.rows[i])
  {
    hide Printable, IsRow, IsOther, Grammar, Printed, Projected, Project, Carries;
    RowsProjected(before, columns, table, after);
    ProjectedLength(columns, table);
    forall i: nat | i < |table|
      ensures |table[i]| == |columns| && Carries(columns, table[i], Projected(columns, table)[i])
    {
      assert table[i] in table;
      RowIsFull(columns, table[i]);
      ProjectedAt(columns, table, i);
      CarriesProjection(columns, table[i], Project(columns, table[i]));
    }
  }

  lemma RowIsFull(columns: seq<Bytes>, row: seq<Bytes>)
    ensures Printable(columns) && IsRow(columns, row) ==> Usable(columns) && |row| == |columns|
  {}

  // A reference is among the rows read exactly when some row of the table
  // carries it.
  lemma CarriedIsRead(before: seq<Bytes>, columns: seq<Bytes>, table: seq<FieldList>, after: seq<Bytes>, reference: Values)
    requires Printable(columns) && forall row :: row in table ==> IsRow(columns, row)
    requires forall line :: line in before + after ==> IsOther(line)
    ensures reference in Grammar(Printed(before, columns, table, after)).rows <==> exists row :: row in table && Carries(columns, row, reference)
  {
    hide Printable, IsRow, IsOther, Grammar, Printed, Projected, Project, Carries;
    RowsProjected(before, columns, table, after);
    ProjectedLength(columns, table);
    forall i: nat | i < |table|
      ensures Carries(columns, table[i], reference) <==> reference == Projected(columns, table)[i]
    {
      assert table[i] in table;
      RowIsFull(columns, table[i]);
      ProjectedAt(columns, table, i);
      CarriesProjection(columns, table[i], reference);
    }
    if row :| row in table && Carries(columns, row, reference) {
      var i :| 0 <= i < |table| && table[i] == row;
      assert Projected(columns, table)[i] == reference;
    }
  }

  lemma ProjectedLength(columns: seq<Bytes>, table: seq<FieldList>)
    ensures |Projected(columns, table)| == |table|
  {
    if table != [] {
      ProjectedAt(columns, table, 0);
    }
  }

  // `captured_attachment_reference_present`
  method ReferencePresent(chunks: seq<Bytes>, reference: Values) returns (found: bool, failure: Option<Failure>)
    ensures failure == Grammar(Concat(chunks)).failure
    ensures failure.None? ==> (found <==> reference in Grammar(Concat(chunks)).rows)
    ensures forall before, columns, table, after :: IsPrinted(Concat(chunks), before, columns, table, after) ==>
              failure.None? && (found <==> exists row :: row in table && Carries(columns, row, reference))
  {
    hide Grammar, Concat, Printable, IsRow, IsOther, Printed, Carries;
    var rows: seq<Values>;
    rows, failure := CapturedAttachmentRows(chunks);
    found := false;
    for i := 0 to |rows|
      invariant found <==> reference in rows[..i]
    {
      found := found || rows[i] == reference;
    }
    forall before, columns, table, after | IsPrinted(Concat(chunks), before, columns, table, after)
      ensures failure.None? && (found <==> exists row :: row in table && Carries(columns, row, reference))
    {
      RowsProjected(before, columns, table, after);
      CarriedIsRead(before, columns, table, after, reference);
    }
  }
}
