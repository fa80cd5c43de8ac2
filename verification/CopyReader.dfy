// The reader itself: a loop over chunks and over the parts of each chunk, and
// the proof that its rows and its failure are those of `CopyTable.Grammar`.
// The byte-at-a-time automaton `Feed` stands between the two.
module CopyReader {
  import opened Options
  import opened CopyTable

  // The reader's variables.
  datatype State = State(columns: Option<seq<Bytes>>, complete: bool, metadata: Bytes,
                         index: nat, offset: nat, marker: Bytes, values: Values)

  datatype Run = Going(rows: seq<Values>, st: State) | Failed(rows: seq<Values>, why: Failure)

  const START := Going([], State(None, false, [], 0, 0, [], NO_VALUES))

  predicate InMetadata(st: State) { st.columns.None? || st.complete }

  function Take3(s: Bytes): (r: Bytes)
    ensures |r| <= 3
  {
    if |s| <= 3 then s else s[..3]
  }

  // The selected value that fields at `index` contribute to.
  function ValueAt(columns: seq<Bytes>, values: Values, index: nat): Bytes {
    if index == IndexOf(columns, STORE_FNAME) then values.storeFname
    else if index == IndexOf(columns, CHECKSUM) then values.checksum
    else if index == IndexOf(columns, FILE_SIZE) then values.fileSize
    else []
  }

  function Add(columns: seq<Bytes>, values: Values, index: nat, text: Bytes): Values {
    if index == IndexOf(columns, STORE_FNAME) then values.(storeFname := values.storeFname + text)
    else if index == IndexOf(columns, CHECKSUM) then values.(checksum := values.checksum + text)
    else if index == IndexOf(columns, FILE_SIZE) then values.(fileSize := values.fileSize + text)
    else values
  }

  // ----- one byte at a time -----

  function Feed(run: Run, b: char): Run {
    if run.Failed? then run
    else if InMetadata(run.st) then FeedMetadata(run.rows, run.st, b)
    else if IsSeparator(b) then FeedSeparator(run.rows, run.st, run.st.columns.value, b)
    else FeedText(run.rows, run.st, run.st.columns.value, b)
  }

  function FeedMetadata(rows: seq<Values>, st: State, b: char): Run {
    var line := st.metadata + [b];
    if |line| > METADATA_LIMIT then Failed(rows, MetadataBound)
    else if b != '\n' then Going(rows, st.(metadata := line))
    else EndLine(rows, st, line)
  }

  function EndLine(rows: seq<Values>, st: State, line: Bytes): Run {
    if !(COPY_WORD <= line) then Going(rows, st.(metadata := []))
    else if st.columns.Some? || !IsHeader(line) then Failed(rows, Ambiguous)
    else if !Usable(HeaderColumns(line)) then Failed(rows, Columns)
    else Going(rows, st.(metadata := [], columns := Some(HeaderColumns(line)), values := NO_VALUES))
  }

  function FeedText(rows: seq<Values>, st: State, columns: seq<Bytes>, b: char): Run {
    var marker := if st.index == 0 then Take3(st.marker + [b]) else st.marker;
    var values := Add(columns, st.values, st.index, [b]);
    if |ValueAt(columns, values, st.index)| > FIELD_LIMIT then Failed(rows, FieldBound)
    else Going(rows, st.(marker := marker, values := values, offset := st.offset + 1))
  }

  function FeedSeparator(rows: seq<Values>, st: State, columns: seq<Bytes>, b: char): Run {
    if b == '\n' && st.index == 0 && st.offset == 2 && st.marker == "\\." then Going(rows, st.(complete := true))
    else if b == '\t' then
      if st.index + 1 >= |columns| then Failed(rows, ExcessFields)
      else Going(rows, st.(index := st.index + 1, offset := 0))
    else if st.index + 1 != |columns| then Failed(rows, IncompleteRow)
    else Going(rows + [st.values], st.(values := NO_VALUES, index := 0, offset := 0, marker := []))
  }

  function FeedAll(run: Run, s: Bytes): Run
    decreases |s|
  {
    if s == [] then run else FeedAll(Feed(run, s[0]), s[1..])
  }

  function Finish(run: Run): Outcome {
    match run
    case Failed(rows, why) => Outcome(rows, Some(why))
    case Going(rows, st) =>
      Outcome(rows, if !st.complete || st.metadata != [] then Some(IncompleteTable) else None)
  }

  lemma {:induction false} FeedConcat(run: Run, a: Bytes, b: Bytes)
    ensures FeedAll(run, a + b) == FeedAll(FeedAll(run, a), b)
    decreases |a|
  {
    if a == [] {
      assert a + b == b;
    } else {
      assert (a + b)[1..] == a[1..] + b;
      FeedConcat(Feed(run, a[0]), a[1..], b);
    }
  }

  lemma {:induction false} FailureStays(rows: seq<Values>, why: Failure, s: Bytes)
    ensures FeedAll(Failed(rows, why), s) == Failed(rows, why)
  {
    if s != [] {
      FailureStays(rows, why, s[1..]);
    }
  }

  // Reading up to byte `n`, then that byte, then the rest.
  lemma FeedAt(run: Run, s: Bytes, n: nat)
    ensures n < |s| ==> FeedAll(run, s) == FeedAll(Feed(FeedAll(run, s[..n]), s[n]), s[n + 1..])
  {
    if n < |s| {
      assert s == s[..n] + s[n..];
      FeedConcat(run, s[..n], s[n..]);
      assert s[n..][1..] == s[n + 1..];
    }
  }

  lemma FeedLast(run: Run, s: Bytes, b: char)
    ensures FeedAll(run, s + [b]) == Feed(FeedAll(run, s), b)
  {
    FeedConcat(run, s, [b]);
  }

  lemma NilConcat(s: Bytes)
    ensures [] + s == s
  {}

  lemma BodyAndLast(s: Bytes)
    ensures s != [] ==> s[..|s| - 1] + [s[|s| - 1]] == s
  {}

  // ----- a whole piece of text at once -----

  lemma {:induction false} MetadataText(rows: seq<Values>, st: State, t: Bytes)
    requires InMetadata(st) && |st.metadata| <= METADATA_LIMIT && '\n' !in t
    ensures FeedAll(Going(rows, st), t) ==
            if |st.metadata| + |t| > METADATA_LIMIT then Failed(rows, MetadataBound)
            else Going(rows, st.(metadata := st.metadata + t))
    decreases |t|
  {
    if t == [] {
      assert st.metadata + t == st.metadata;
    } else {
      var next := st.metadata + [t[0]];
      if |next| > METADATA_LIMIT {
        FailureStays(rows, MetadataBound, t[1..]);
      } else {
        MetadataText(rows, st.(metadata := next), t[1..]);
        assert st.metadata + t == next + t[1..];
      }
    }
  }

  predicate InRow(st: State) {
    && st.columns.Some? && !st.complete && Usable(st.columns.value)
    && |ValueAt(st.columns.value, st.values, st.index)| <= FIELD_LIMIT
    && |st.marker| <= 3
  }

  lemma AddText(columns: seq<Bytes>, values: Values, index: nat, a: Bytes, b: Bytes)
    ensures Add(columns, Add(columns, values, index, a), index, b) == Add(columns, values, index, a + b)
    ensures |ValueAt(columns, Add(columns, values, index, a), index)| <= |ValueAt(columns, Add(columns, values, index, a + b), index)|
  {
    assert forall x: Bytes {:trigger x + a} :: x + a + b == x + (a + b);
  }

  lemma Take3Again(a: Bytes, b: Bytes)
    ensures Take3(Take3(a) + b) == Take3(a + b)
  {}

  lemma Take3Short(s: Bytes)
    ensures |s| <= 3 ==> Take3(s) == s
  {}

  lemma AddNothing(columns: seq<Bytes>, values: Values, index: nat)
    ensures Add(columns, values, index, []) == values
  {
    assert forall x: Bytes {:trigger x + []} :: x + [] == x;
  }

  lemma {:induction false} RowText(rows: seq<Values>, st: State, t: Bytes)
    requires InRow(st) && IsText(t)
    ensures var columns := st.columns.value;
            var values := Add(columns, st.values, st.index, t);
            FeedAll(Going(rows, st), t) ==
            if |ValueAt(columns, values, st.index)| > FIELD_LIMIT then Failed(rows, FieldBound)
            else Going(rows, st.(values := values, offset := st.offset + |t|,
                                 marker := if st.index == 0 then Take3(st.marker + t) else st.marker))
    decreases |t|
  {
    hide IndexOf, Usable, IsHeader, HeaderColumns, FeedMetadata, FeedSeparator, Add, Take3;
    var columns := st.columns.value;
    if t == [] {
      assert st.marker + t == st.marker;
      AddNothing(columns, st.values, st.index);
      Take3Short(st.marker);
    } else {
      assert t == [t[0]] + t[1..];
      AddText(columns, st.values, st.index, [t[0]], t[1..]);
      var next := Feed(Going(rows, st), t[0]);
      if next.Failed? {
        FailureStays(rows, FieldBound, t[1..]);
      } else {
        RowText(rows, next.st, t[1..]);
        assert st.marker + t == st.marker + [t[0]] + t[1..];
        Take3Again(st.marker + [t[0]], t[1..]);
      }
    }
  }

  // ----- a whole line of a row -----

  // What the fields of a line add to values still empty from field `index` on.
  function PutFields(columns: seq<Bytes>, values: Values, index: nat, fields: seq<Bytes>): Values {
    Values(Put(columns, values.storeFname, STORE_FNAME, index, fields),
           Put(columns, values.checksum, CHECKSUM, index, fields),
           Put(columns, values.fileSize, FILE_SIZE, index, fields))
  }

  function Put(columns: seq<Bytes>, value: Bytes, key: Bytes, index: nat, fields: seq<Bytes>): Bytes {
    var c := IndexOf(columns, key);
    if index <= c < index + |fields| then fields[c - index] else value
  }

  predicate OverLong(columns: seq<Bytes>, index: nat, fields: seq<Bytes>) {
    exists i :: 0 <= i < |fields| && Selected(columns, index + i) && |fields[i]| > FIELD_LIMIT
  }

  ghost predicate AtField(st: State) {
    && st.columns.Some? && !st.complete && Usable(st.columns.value)
    && st.offset == 0 && st.index < |st.columns.value|
    && (st.index == 0 ==> st.marker == []) && |st.marker| <= 3
    && (forall k {:trigger ValueAt(st.columns.value, st.values, k)} :: st.index <= k ==> ValueAt(st.columns.value, st.values, k) == [])
  }

  function LineResult(rows: seq<Values>, st: State, fields: seq<Bytes>): Run
    requires st.columns.Some? && fields != []
  {
    var columns := st.columns.value;
    if OverLong(columns, st.index, fields) then Failed(rows, FieldBound)
    else if st.index + |fields| > |columns| then Failed(rows, ExcessFields)
    else Going(rows, st.(values := PutFields(columns, st.values, st.index, fields),
                         index := st.index + |fields| - 1, offset := |fields[|fields| - 1]|,
                         marker := if st.index == 0 then Take3(fields[0]) else st.marker))
  }

  lemma OverLongCons(columns: seq<Bytes>, index: nat, head: Bytes, rest: seq<Bytes>)
    ensures OverLong(columns, index, [head] + rest) <==>
            (Selected(columns, index) && |head| > FIELD_LIMIT) || OverLong(columns, index + 1, rest)
  {
    var all := [head] + rest;
    if OverLong(columns, index + 1, rest) {
      var i :| 0 <= i < |rest| && Selected(columns, index + 1 + i) && |rest[i]| > FIELD_LIMIT;
      assert all[i + 1] == rest[i] && Selected(columns, index + (i + 1));
    }
    if OverLong(columns, index, all) {
      var i :| 0 <= i < |all| && Selected(columns, index + i) && |all[i]| > FIELD_LIMIT;
      if i > 0 {
        assert all[i] == rest[i - 1] && Selected(columns, index + 1 + (i - 1));
      }
    }
    if Selected(columns, index) && |head| > FIELD_LIMIT {
      assert all[0] == head && Selected(columns, index + 0);
    }
  }

  // In distinct columns, field `index` is selected exactly when it is the place of one key.
  lemma SelectedPlace(columns: seq<Bytes>, index: nat)
    requires Usable(columns)
    ensures Selected(columns, index) <==>
            index == IndexOf(columns, STORE_FNAME) || index == IndexOf(columns, CHECKSUM) || index == IndexOf(columns, FILE_SIZE)
    ensures IndexOf(columns, STORE_FNAME) != IndexOf(columns, CHECKSUM)
    ensures IndexOf(columns, STORE_FNAME) != IndexOf(columns, FILE_SIZE)
    ensures IndexOf(columns, CHECKSUM) != IndexOf(columns, FILE_SIZE)
  {
    assert STORE_FNAME != CHECKSUM && CHECKSUM != FILE_SIZE && STORE_FNAME != FILE_SIZE by {
      assert |STORE_FNAME| == 11 && |CHECKSUM| == 8 && |FILE_SIZE| == 9;
    }
    if Selected(columns, index) {
      var c := IndexOf(columns, columns[index]);
      assert columns[c] == columns[index];
    }
  }

  lemma AddIsPut(columns: seq<Bytes>, values: Values, index: nat, head: Bytes, rest: seq<Bytes>)
    ensures Usable(columns) && ValueAt(columns, values, index) == [] ==>
              PutFields(columns, Add(columns, values, index, head), index + 1, rest) == PutFields(columns, values, index, [head] + rest)
  {
    hide IndexOf, Usable;
    if Usable(columns) && ValueAt(columns, values, index) == [] {
      SelectedPlace(columns, index);
      assert [] + head == head;
    }
  }

  function AfterHead(rows: seq<Values>, st: State, head: Bytes): Run
    requires st.columns.Some?
  {
    if Selected(st.columns.value, st.index) && |head| > FIELD_LIMIT then Failed(rows, FieldBound)
    else Going(rows, st.(values := Add(st.columns.value, st.values, st.index, head), offset := |head|,
                         marker := if st.index == 0 then Take3(head) else st.marker))
  }

  lemma HeadText(rows: seq<Values>, st: State, head: Bytes)
    ensures AtField(st) && IsText(head) ==> FeedAll(Going(rows, st), head) == AfterHead(rows, st, head)
  {
    if AtField(st) && IsText(head) {
      SelectedPlace(st.columns.value, st.index);
      assert ValueAt(st.columns.value, st.values, st.index) == [];
      RowText(rows, st, head);
      assert [] + head == head;
    }
  }

  // One field of a line, then what follows its tab.
  lemma LineResultCons(rows: seq<Values>, st: State, head: Bytes, rest: seq<Bytes>)
    requires AtField(st)
    ensures var run := AfterHead(rows, st, head);
            var whole := LineResult(rows, st, [head] + rest);
            if run.Failed? then whole == run
            else if rest == [] then whole == run
            else if st.index + 1 >= |st.columns.value| then whole == Failed(rows, ExcessFields)
            else whole == LineResult(rows, run.st.(index := st.index + 1, offset := 0), rest)
  {
    hide IndexOf, Usable, Add, ValueAt, Take3;
    var columns := st.columns.value;
    OverLongCons(columns, st.index, head, rest);
    assert ValueAt(columns, st.values, st.index) == [];
    AddIsPut(columns, st.values, st.index, head, rest);
    if st.index + 1 >= |columns| {
      assert !OverLong(columns, st.index + 1, rest);
    }
  }

  lemma AfterTab(rows: seq<Values>, st: State, head: Bytes)
    requires AtField(st) && AfterHead(rows, st, head).Going? && st.index + 1 < |st.columns.value|
    ensures AtField(AfterHead(rows, st, head).st.(index := st.index + 1, offset := 0))
  {
    FieldsStartEmpty(st.columns.value, st.values, st.index, head);
  }

  lemma TabFed(rows: seq<Values>, st: State, head: Bytes)
    requires AtField(st)
    ensures var run := AfterHead(rows, st, head);
            Feed(run, '\t') ==
            if run.Failed? then run
            else if st.index + 1 >= |st.columns.value| then Failed(rows, ExcessFields)
            else Going(rows, run.st.(index := st.index + 1, offset := 0))
  {}

  lemma HeadIsText(line: Bytes)
    ensures '\n' !in line ==> IsText(line[..IndexOf(line, '\t')])
  {
    if '\n' !in line {
      var head := line[..IndexOf(line, '\t')];
      forall b | b in head
        ensures !IsSeparator(b)
      {
        assert b in line;
      }
    }
  }

  lemma FeedUntabbed(rows: seq<Values>, st: State, line: Bytes)
    ensures AtField(st) && '\n' !in line && '\t' !in line ==>
              FeedAll(Going(rows, st), line) == LineResult(rows, st, [line])
  {
    if AtField(st) && '\n' !in line && '\t' !in line {
      var head := line[..IndexOf(line, '\t')];
      assert head == line;
      HeadIsText(line);
      HeadText(rows, st, line);
      assert [line] == [line] + [];
      LineResultCons(rows, st, line, []);
    }
  }

  lemma {:induction false} LineText(rows: seq<Values>, st: State, line: Bytes)
    requires AtField(st) && '\n' !in line
    ensures FeedAll(Going(rows, st), line) == LineResult(rows, st, Fields(line))
    decreases |line|
  {
    hide Feed;
    var n := IndexOf(line, '\t');
    if n == |line| {
      FeedUntabbed(rows, st, line);
    } else {
      var head, tail := line[..n], line[n + 1..];
      var run := AfterHead(rows, st, head);
      FeedAt(Going(rows, st), line, n);
      HeadIsText(line);
      HeadText(rows, st, head);
      LineResultCons(rows, st, head, Fields(tail));
      TabFed(rows, st, head);
      if run.Failed? || st.index + 1 >= |st.columns.value| {
        FailureStays(rows, Feed(run, '\t').why, tail);
      } else {
        AfterTab(rows, st, head);
        LineText(rows, run.st.(index := st.index + 1, offset := 0), tail);
      }
    }
  }

  lemma FieldsStartEmpty(columns: seq<Bytes>, values: Values, index: nat, head: Bytes)
    requires forall k {:trigger ValueAt(columns, values, k)} :: index <= k ==> ValueAt(columns, values, k) == []
    ensures forall k {:trigger ValueAt(columns, Add(columns, values, index, head), k)} ::
              index + 1 <= k ==> ValueAt(columns, Add(columns, values, index, head), k) == []
  {
    forall k | index + 1 <= k
      ensures ValueAt(columns, Add(columns, values, index, head), k) == []
    {
      assert ValueAt(columns, values, k) == [];
    }
  }

  // ----- whole lines: the automaton agrees with the grammar -----

  lemma {:induction false} TrailerAgrees(rows: seq<Values>, st: State, s: Bytes)
    requires st.complete && st.columns.Some? && st.metadata == []
    ensures Finish(FeedAll(Going(rows, st), s)) == Prepend(rows, Trailer(s))
    decreases |s|
  {
    hide IndexOf, FeedSeparator, FeedText;
    var n := IndexOf(s, '\n');
    MetadataText(rows, st, s[..n]);
    assert [] + s[..n] == s[..n];
    if n == |s| {
      assert s[..n] == s;
    } else {
      FeedAt(Going(rows, st), s, n);
      var run := Feed(FeedAll(Going(rows, st), s[..n]), '\n');
      assert s[..n] + ['\n'] == s[..n + 1];
      if run.Failed? {
        FailureStays(rows, run.why, s[n + 1..]);
      } else {
        assert run == Going(rows, st);
        TrailerAgrees(rows, st, s[n + 1..]);
      }
    }
  }

  ghost predicate AtLine(st: State, columns: seq<Bytes>) {
    && st.columns == Some(columns) && !st.complete && Usable(columns) && st.metadata == []
    && st.index == 0 && st.offset == 0 && st.marker == [] && st.values == NO_VALUES
  }

  lemma AtLineIsAtField(st: State, columns: seq<Bytes>)
    ensures AtLine(st, columns) ==> AtField(st)
  {
    if AtLine(st, columns) {
      assert IndexOf(columns, STORE_FNAME) < |columns|;
    }
  }

  lemma OverLongFromFirst(columns: seq<Bytes>, fields: seq<Bytes>)
    ensures OverLong(columns, 0, fields) <==> exists j :: 0 <= j < |fields| && Selected(columns, j) && |fields[j]| > FIELD_LIMIT
  {
    if OverLong(columns, 0, fields) {
      var i :| 0 <= i < |fields| && Selected(columns, 0 + i) && |fields[i]| > FIELD_LIMIT;
      assert Selected(columns, i);
    }
    if exists j :: 0 <= j < |fields| && Selected(columns, j) && |fields[j]| > FIELD_LIMIT {
      var j :| 0 <= j < |fields| && Selected(columns, j) && |fields[j]| > FIELD_LIMIT;
      assert Selected(columns, 0 + j);
    }
  }

  // The line feed tells the end mark by its first field alone.
  lemma EndMark(line: Bytes)
    requires '\n' !in line
    ensures line == "\\." <==> |Fields(line)| == 1 && Take3(Fields(line)[0]) == "\\." && |Fields(line)[0]| == 2
  {
    if line == "\\." {
      assert IndexOf(line, '\t') == 2;
    }
  }

  lemma LineRead(rows: seq<Values>, st: State, columns: seq<Bytes>, line: Bytes)
    requires AtLine(st, columns) && '\n' !in line
    ensures var fields := Fields(line);
            var fault := FieldFault(columns, fields);
            FeedAll(Going(rows, st), line) ==
            if fault.Some? then Failed(rows, fault.value)
            else Going(rows, st.(values := PutFields(columns, NO_VALUES, 0, fields), index := |fields| - 1,
                                 offset := |fields[|fields| - 1]|, marker := Take3(fields[0])))
  {
    hide IndexOf;
    AtLineIsAtField(st, columns);
    LineText(rows, st, line);
    OverLongFromFirst(columns, Fields(line));
  }

  lemma CompleteLine(rows: seq<Values>, st: State, columns: seq<Bytes>, line: Bytes)
    requires AtLine(st, columns) && '\n' !in line
    ensures var run := Feed(FeedAll(Going(rows, st), line), '\n');
            var reading := ReadLine(columns, line);
            && (reading.Refused? ==> run == Failed(rows, reading.why))
            && (reading.EndOfTable? ==> run.Going? && run.rows == rows && run.st.complete && run.st.columns.Some? && run.st.metadata == [])
            && (reading.Row? ==> run == Going(rows + [reading.values], st))
  {
    hide FieldFault, Fields, LineResult;
    LineRead(rows, st, columns, line);
    EndMark(line);
    var fields := Fields(line);
    assert PutFields(columns, NO_VALUES, 0, fields) == Project(columns, fields);
  }

  lemma LastLine(rows: seq<Values>, st: State, columns: seq<Bytes>, line: Bytes)
    ensures AtLine(st, columns) && '\n' !in line ==>
              Finish(FeedAll(Going(rows, st), line)) == Outcome(rows, Some(UnfinishedLine(columns, line)))
  {
    hide FieldFault, Fields;
    if AtLine(st, columns) && '\n' !in line {
      LineRead(rows, st, columns, line);
    }
  }

  lemma {:induction false} TableRowsAgrees(rows: seq<Values>, st: State, columns: seq<Bytes>, s: Bytes)
    requires AtLine(st, columns)
    ensures Finish(FeedAll(Going(rows, st), s)) == Prepend(rows, TableRows(columns, s))
    decreases |s|
  {
    hide Feed, FeedAll, ReadLine, UnfinishedLine, IndexOf;
    var n := IndexOf(s, '\n');
    assert rows + [] == rows;
    if n == |s| {
      assert s[..n] == s;
      LastLine(rows, st, columns, s);
    } else {
      FeedAt(Going(rows, st), s, n);
      CompleteLine(rows, st, columns, s[..n]);
      var rest := s[n + 1..];
      var run := Feed(FeedAll(Going(rows, st), s[..n]), '\n');
      var reading := ReadLine(columns, s[..n]);
      if reading.Refused? {
        FailureStays(rows, reading.why, rest);
      } else if reading.EndOfTable? {
        TrailerAgrees(rows, run.st, rest);
      } else {
        TableRowsAgrees(run.rows, st, columns, rest);
        var later := TableRows(columns, rest).rows;
        assert rows + [reading.values] + later == rows + ([reading.values] + later);
      }
    }
  }

  // A complete line before the header has been read.
  lemma PreambleLine(line: Bytes)
    requires line != [] && line[|line| - 1] == '\n' && '\n' !in line[..|line| - 1]
    ensures FeedAll(START, line) ==
            if |line| > METADATA_LIMIT then Failed([], MetadataBound)
            else EndLine([], START.st.(metadata := line[..|line| - 1]), line)
  {
    hide IndexOf, EndLine, FeedAll;
    var body := line[..|line| - 1];
    MetadataText([], START.st, body);
    NilConcat(body);
    BodyAndLast(line);
    FeedLast(START, body, '\n');
  }

  lemma {:induction false} GrammarAgrees(s: Bytes)
    ensures Finish(FeedAll(START, s)) == Grammar(s)
    decreases |s|
  {
    hide Feed, IndexOf, Usable, HeaderColumns, IsHeader;
    var n := IndexOf(s, '\n');
    if n == |s| {
      assert s[..n] == s;
      MetadataText([], START.st, s);
      assert [] + s == s;
    } else {
      var line, rest := s[..n + 1], s[n + 1..];
      assert line[..n] == s[..n];
      PreambleLine(line);
      assert s == line + rest;
      FeedConcat(START, line, rest);
      var run := FeedAll(START, line);
      if run.Failed? {
        FailureStays([], run.why, rest);
      } else if run == START {
        GrammarAgrees(rest);
      } else {
        TableRowsAgrees([], run.st, HeaderColumns(line), rest);
      }
    }
  }

  // ----- the reader -----

  lemma MetadataPart(rows: seq<Values>, st: State, part: Bytes)
    requires InMetadata(st) && |st.metadata| <= METADATA_LIMIT && IsPart(part)
    ensures FeedAll(Going(rows, st), part) ==
            if |st.metadata + part| > METADATA_LIMIT then Failed(rows, MetadataBound)
            else if part != "\n" then Going(rows, st.(metadata := st.metadata + part))
            else EndLine(rows, st, st.metadata + part)
  {
    hide EndLine;
    if part == "\n" {
      FeedLast(Going(rows, st), [], '\n');
      assert [] + ['\n'] == part;
    } else {
      assert '\n' !in part;
      MetadataText(rows, st, part);
    }
  }

  lemma SeparatorPart(run: Run, b: char)
    ensures FeedAll(run, [b]) == Feed(run, b)
  {
    hide Feed;
    FeedLast(run, [], b);
    assert [] + [b] == [b];
  }

  lemma NextPart(run: Run, parts: seq<Bytes>, p: nat, later: Bytes)
    ensures p < |parts| ==>
              FeedAll(run, Concat(parts[p..]) + later) == FeedAll(FeedAll(run, parts[p]), Concat(parts[p + 1..]) + later)
  {
    hide Feed;
    if p < |parts| {
      assert parts[p..][1..] == parts[p + 1..];
      assert Concat(parts[p..]) + later == parts[p] + (Concat(parts[p + 1..]) + later);
      FeedConcat(run, parts[p], Concat(parts[p + 1..]) + later);
    }
  }

  // The variables between two parts.
  predicate Settled(st: State) {
    && |st.metadata| <= METADATA_LIMIT && |st.marker| <= 3
    && (!InMetadata(st) ==> Usable(st.columns.value) && Bounded(st.values))
  }

  predicate Bounded(values: Values) {
    |values.storeFname| <= FIELD_LIMIT && |values.checksum| <= FIELD_LIMIT && |values.fileSize| <= FIELD_LIMIT
  }

  lemma SettledText(st: State, part: Bytes)
    requires Settled(st) && !InMetadata(st)
    ensures InRow(st)
    ensures var values := Add(st.columns.value, st.values, st.index, part);
            |ValueAt(st.columns.value, values, st.index)| <= FIELD_LIMIT ==> Bounded(values)
  {}

  method CapturedAttachmentRows(chunks: seq<Bytes>) returns (rows: seq<Values>, failure: Option<Failure>)
    ensures Outcome(rows, failure) == Grammar(Concat(chunks))
  {
    hide FeedAll, Grammar, IndexOf, Fields, TableRows, Parts, Usable, IsHeader, HeaderColumns, Add, ValueAt, InRow, Take3;
    GrammarAgrees(Concat(chunks));
    rows := [];
    var columns: Option<seq<Bytes>> := None;
    var index: nat, offset: nat := 0, 0;
    var complete, metadata, marker, values := false, [], [], NO_VALUES;
    ghost var all := FeedAll(START, Concat(chunks));
    assert chunks[0..] == chunks;
    for c := 0 to |chunks|
      invariant Settled(State(columns, complete, metadata, index, offset, marker, values))
      invariant all == FeedAll(Going(rows, State(columns, complete, metadata, index, offset, marker, values)), Concat(chunks[c..]))
    {
      var parts := Parts(chunks[c]);
      ghost var later := Concat(chunks[c + 1..]);
      PartsConcat(chunks[c]);
      assert chunks[c..][1..] == chunks[c + 1..] && parts[0..] == parts;
      for p := 0 to |parts|
        invariant Settled(State(columns, complete, metadata, index, offset, marker, values))
        invariant all == FeedAll(Going(rows, State(columns, complete, metadata, index, offset, marker, values)), Concat(parts[p..]) + later)
      {
        var part := parts[p];
        PartsAreParts(chunks[c], p);
        ghost var st := State(columns, complete, metadata, index, offset, marker, values);
        ghost var rest := Concat(parts[p + 1..]) + later;
        NextPart(Going(rows, st), parts, p, later);
        if columns.None? || complete {
          MetadataPart(rows, st, part);
          metadata := metadata + part;
          if |metadata| > METADATA_LIMIT {
            FailureStays(rows, MetadataBound, rest);
            return rows, Some(MetadataBound);
          }
          if part != "\n" {
            continue;
          }
          var line := metadata;
          metadata := [];
          if !(COPY_WORD <= line) {
            continue;
          }
          if columns.Some? || !IsHeader(line) {
            FailureStays(rows, Ambiguous, rest);
            return rows, Some(Ambiguous);
          }
          columns := Some(HeaderColumns(line));
          if !Usable(columns.value) {
            FailureStays(rows, Columns, rest);
            return rows, Some(Columns);
          }
          values := NO_VALUES;
          continue;
        }
        if part != "\t" && part != "\n" {
          RowTextPart(rows, st, part);
          if index == 0 {
            marker := Take3(marker + part);
          }
          values := Add(columns.value, values, index, part);
          if |ValueAt(columns.value, values, index)| > FIELD_LIMIT {
            FailureStays(rows, FieldBound, rest);
            return rows, Some(FieldBound);
          }
          offset := offset + |part|;
          continue;
        }
        SeparatorPart(Going(rows, st), part[0]);
        assert part == [part[0]];
        if part == "\n" && index == 0 && offset == 2 && marker == "\\." {
          complete := true;
          continue;
        }
        if part == "\t" {
          index := index + 1;
          if index >= |columns.value| {
            FailureStays(rows, ExcessFields, rest);
            return rows, Some(ExcessFields);
          }
          offset := 0;
          continue;
        }
        if index + 1 != |columns.value| {
          FailureStays(rows, IncompleteRow, rest);
          return rows, Some(IncompleteRow);
        }
        rows := rows + [values];
        values := NO_VALUES;
        index, offset, marker := 0, 0, [];
      }
      assert Concat(parts[|parts|..]) + later == later;
    }
    ghost var st := State(columns, complete, metadata, index, offset, marker, values);
    EndOfStream(Going(rows, st));
    assert chunks[|chunks|..] == [];
    if !complete || metadata != [] {
      return rows, Some(IncompleteTable);
    }
    return rows, None;
  }

  lemma EndOfStream(run: Run)
    ensures FeedAll(run, Concat([])) == run
  {}

  lemma RowTextPart(rows: seq<Values>, st: State, part: Bytes)
    requires Settled(st) && !InMetadata(st) && IsText(part)
    ensures var columns := st.columns.value;
            var values := Add(columns, st.values, st.index, part);
            && FeedAll(Going(rows, st), part) ==
               (if |ValueAt(columns, values, st.index)| > FIELD_LIMIT then Failed(rows, FieldBound)
                else Going(rows, st.(values := values, offset := st.offset + |part|,
                                     marker := if st.index == 0 then Take3(st.marker + part) else st.marker)))
            && (|ValueAt(columns, values, st.index)| <= FIELD_LIMIT ==> Bounded(values))
  {
    SettledText(st, part);
    RowText(rows, st, part);
  }
}
