// The incremental reader of a decoded `COPY public.ir_attachment` table.
//
// The reader keeps a handful of bounded variables while it consumes chunks of
// a byte stream.  `Grammar` is the independent account of what it should read:
// whole lines, and whole tab-separated fields within a line.
// A byte is represented by the character with the same code.
module CopyTable {
  import opened Options

  type Bytes = seq<char>

  const PREFIX: Bytes := "COPY public.ir_attachment ("
  const SUFFIX: Bytes := ") FROM stdin;\n"
  const COPY_WORD: Bytes := "COPY "
  const STORE_FNAME: Bytes := "store_fname"
  const CHECKSUM: Bytes := "checksum"
  const FILE_SIZE: Bytes := "file_size"
  const METADATA_LIMIT := 65536
  const FIELD_LIMIT := 64

  datatype Values = Values(storeFname: Bytes, checksum: Bytes, fileSize: Bytes)
  const NO_VALUES := Values([], [], [])

  datatype Failure = MetadataBound | Ambiguous | Columns | FieldBound | ExcessFields | IncompleteRow | IncompleteTable

  // The rows produced before the reader stopped, and why it stopped early.
  datatype Outcome = Outcome(rows: seq<Values>, failure: Option<Failure>)

  // ----- words and positions -----

  function IndexOf<T(==)>(s: seq<T>, x: T): (n: nat)
    ensures n <= |s|
    ensures n < |s| ==> s[n] == x
    ensures x !in s[..n]
    ensures x in s <==> n < |s|
  {
    if s == [] then 0 else if s[0] == x then 0 else 1 + IndexOf(s[1..], x)
  }

  lemma {:induction false} IndexIs<T>(s: seq<T>, x: T, k: nat)
    requires k < |s| && s[k] == x && forall i :: 0 <= i < k ==> s[i] != x
    ensures IndexOf(s, x) == k
  {
    if k > 0 {
      IndexIs(s[1..], x, k - 1);
    }
  }

  predicate IsSeparator(b: char) { b == '\t' || b == '\n' }

  predicate IsText(s: Bytes) { forall b :: b in s ==> !IsSeparator(b) }

  predicate EndsWith(s: Bytes, tail: Bytes) { |tail| <= |s| && s[|s| - |tail|..] == tail }

  predicate Distinct<T(==)>(s: seq<T>) { forall i, j :: 0 <= i < j < |s| ==> s[i] != s[j] }

  function Concat(parts: seq<Bytes>): Bytes {
    if parts == [] then [] else parts[0] + Concat(parts[1..])
  }

  // `bytes.split(b', ')`
  function SplitColumns(s: Bytes): (columns: seq<Bytes>)
    ensures columns != []
    decreases |s|
  {
    var n := ColumnEnd(s);
    if n == |s| then [s] else [s[..n]] + SplitColumns(s[n + 2..])
  }

  // Where the first ", " starts.
  function ColumnEnd(s: Bytes): (n: nat)
    ensures n == |s| || n + 2 <= |s|
    ensures n < |s| ==> s[n] == ',' && s[n + 1] == ' '
  {
    if |s| < 2 then |s| else if s[0] == ',' && s[1] == ' ' then 0
    else 1 + ColumnEnd(s[1..])
  }

  // `bytes.split(b'\t')`
  function Fields(line: Bytes): (fields: seq<Bytes>)
    ensures fields != []
    decreases |line|
  {
    var n := IndexOf(line, '\t');
    if n == |line| then [line] else [line[..n]] + Fields(line[n + 1..])
  }

  // `re.split(b'([\t\n])', chunk)`: text and single separators, alternating.
  function Parts(chunk: Bytes): (parts: seq<Bytes>)
    decreases |chunk|
  {
    var n := TextEnd(chunk);
    if n == |chunk| then [chunk] else [chunk[..n], [chunk[n]]] + Parts(chunk[n + 1..])
  }

  predicate IsPart(part: Bytes) { IsText(part) || part == "\t" || part == "\n" }

  lemma {:induction false} PartsConcat(chunk: Bytes)
    ensures Concat(Parts(chunk)) == chunk
    decreases |chunk|
  {
    hide TextEnd;
    var n := TextEnd(chunk);
    if n < |chunk| {
      PartsConcat(chunk[n + 1..]);
      ConcatTwo(chunk[..n], [chunk[n]], Parts(chunk[n + 1..]));
    }
  }

  lemma {:induction false} PartsAreParts(chunk: Bytes, p: nat)
    requires p < |Parts(chunk)|
    ensures IsPart(Parts(chunk)[p])
    decreases |chunk|
  {
    var n := TextEnd(chunk);
    if n < |chunk| && p >= 2 {
      PartsAreParts(chunk[n + 1..], p - 2);
    }
  }

  lemma ConcatTwo(first: Bytes, second: Bytes, parts: seq<Bytes>)
    ensures Concat([first, second] + parts) == first + second + Concat(parts)
  {
    var all := [first, second] + parts;
    assert all[1..] == [second] + parts && all[1..][1..] == parts;
    assert first + (second + Concat(parts)) == first + second + Concat(parts);
  }

  function TextEnd(s: Bytes): (n: nat)
    ensures n <= |s| && IsText(s[..n])
    ensures n < |s| ==> IsSeparator(s[n])
  {
    if s == [] || IsSeparator(s[0]) then 0
    else
      var n := TextEnd(s[1..]);
      assert s[..n + 1] == [s[0]] + s[1..][..n];
      n + 1
  }

  // ----- the header line -----

  predicate IsHeader(line: Bytes) { PREFIX <= line && EndsWith(line, SUFFIX) }

  // No byte of SUFFIX is the last byte of PREFIX, so the two cannot overlap.
  lemma HeaderHasRoom(line: Bytes)
    ensures IsHeader(line) ==> |PREFIX| + |SUFFIX| <= |line|
  {
    if IsHeader(line) {
      assert PREFIX[|PREFIX| - 1] == '(' && '(' !in SUFFIX;
      assert forall i :: 0 <= i < |SUFFIX| ==> line[|line| - |SUFFIX| + i] == SUFFIX[i];
    }
  }

  function HeaderColumns(line: Bytes): (columns: seq<Bytes>)
    requires IsHeader(line)
  {
    HeaderHasRoom(line);
    SplitColumns(line[|PREFIX|..|line| - |SUFFIX|])
  }

  predicate Usable(columns: seq<Bytes>) {
    Distinct(columns) && STORE_FNAME in columns && CHECKSUM in columns && FILE_SIZE in columns
  }

  predicate Selected(columns: seq<Bytes>, index: nat) {
    index < |columns| && columns[index] in {STORE_FNAME, CHECKSUM, FILE_SIZE}
  }

  // ----- the grammar, by whole lines and whole fields -----

  function Prepend(rows: seq<Values>, o: Outcome): Outcome { o.(rows := rows + o.rows) }

  function Stop(why: Failure): Outcome { Outcome([], Some(why)) }

  function Grammar(s: Bytes): Outcome
    decreases |s|
  {
    var n := IndexOf(s, '\n');
    if n == |s| then Stop(if |s| > METADATA_LIMIT then MetadataBound else IncompleteTable)
    else
      var line := s[..n + 1];
      if |line| > METADATA_LIMIT then Stop(MetadataBound)
      else if !(COPY_WORD <= line) then Grammar(s[n + 1..])
      else if !IsHeader(line) then Stop(Ambiguous)
      else if !Usable(HeaderColumns(line)) then Stop(Columns)
      else TableRows(HeaderColumns(line), s[n + 1..])
  }

  // One complete line of the table.
  datatype Reading = Refused(why: Failure) | EndOfTable | Row(values: Values)

  function ReadLine(columns: seq<Bytes>, line: Bytes): Reading {
    var fields := Fields(line);
    var fault := FieldFault(columns, fields);
    if fault.Some? then Refused(fault.value)
    else if line == "\\." then EndOfTable
    else if |fields| != |columns| then Refused(IncompleteRow)
    else Row(Project(columns, fields))
  }

  // A last line without its line feed can only fail.
  function UnfinishedLine(columns: seq<Bytes>, line: Bytes): Failure {
    var fault := FieldFault(columns, Fields(line));
    if fault.Some? then fault.value else IncompleteTable
  }

  function TableRows(columns: seq<Bytes>, s: Bytes): Outcome
    decreases |s|
  {
    var n := IndexOf(s, '\n');
    if n == |s| then Stop(UnfinishedLine(columns, s))
    else
      match ReadLine(columns, s[..n])
      case Refused(why) => Stop(why)
      case EndOfTable => Trailer(s[n + 1..])
      case Row(values) => Prepend([values], TableRows(columns, s[n + 1..]))
  }

  // An over-long selected field is reported before a later excess field.
  function FieldFault(columns: seq<Bytes>, fields: seq<Bytes>): Option<Failure> {
    if exists j :: 0 <= j < |fields| && Selected(columns, j) && |fields[j]| > FIELD_LIMIT then Some(FieldBound)
    else if |fields| > |columns| then Some(ExcessFields)
    else None
  }

  function FieldAt(columns: seq<Bytes>, fields: seq<Bytes>, key: Bytes): Bytes {
    var c := IndexOf(columns, key);
    if c < |fields| then fields[c] else []
  }

  function Project(columns: seq<Bytes>, fields: seq<Bytes>): Values {
    Values(FieldAt(columns, fields, STORE_FNAME), FieldAt(columns, fields, CHECKSUM), FieldAt(columns, fields, FILE_SIZE))
  }

  function Trailer(s: Bytes): Outcome
    decreases |s|
  {
    var n := IndexOf(s, '\n');
    if n == |s| then
      if |s| > METADATA_LIMIT then Stop(MetadataBound)
      else if s != [] then Stop(IncompleteTable)
      else Outcome([], None)
    else
      var line := s[..n + 1];
      if |line| > METADATA_LIMIT then Stop(MetadataBound)
      else if COPY_WORD <= line then Stop(Ambiguous)
      else Trailer(s[n + 1..])
  }
}
