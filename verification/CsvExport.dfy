/** Writing CSV and collecting the pages to write
    (apps/web/lib/scoped-csv-export.ts). */
module CsvExport {
  import opened Options
  import opened Texts

  const QUOTE: nat := 34
  const APOSTROPHE: nat := 39
  const COMMA: nat := 44
  const CR: nat := 13
  const LF: nat := 10
  const BOM: nat := 0xFEFF
  const EQUALS: nat := 61
  const PLUS: nat := 43
  const AT: nat := 64
  const MINUS: nat := 45

  type Spacing = nat -> bool

  // ---------- cells ----------

  predicate Skipped(space: Spacing, u: nat) {
    u < 32 || space(u)
  }

  /** The first unit that is neither a control character nor white space. */
  function FirstVisible(space: Spacing, t: Text): (i: nat)
    ensures i <= |t|
  {
    if t == [] || !Skipped(space, t[0]) then 0 else 1 + FirstVisible(space, t[1..])
  }

  predicate StartsFormula(t: Text) {
    t != [] && (t[0] == EQUALS || t[0] == PLUS || t[0] == AT || t[0] == MINUS)
  }

  /** A spreadsheet would take the text for a formula. */
  predicate Dangerous(space: Spacing, t: Text) {
    StartsFormula(t[FirstVisible(space, t)..])
  }

  function Guarded(space: Spacing, t: Text): Text {
    if Dangerous(space, t) then [APOSTROPHE] + t else t
  }

  function Doubled(t: Text): Text {
    if t == [] then [] else (if t[0] == QUOTE then [QUOTE, QUOTE] else [t[0]]) + Doubled(t[1..])
  }

  function Cell(space: Spacing, t: Text): Text {
    [QUOTE] + Doubled(Guarded(space, t)) + [QUOTE]
  }

  method WriteCell(space: Spacing, t: Text) returns (cell: Text)
    ensures cell == Cell(space, t)
  {
    var first := 0;
    while first < |t| && Skipped(space, t[first])
      invariant first <= |t| && FirstVisible(space, t) == first + FirstVisible(space, t[first..])
    {
      assert t[first..][1..] == t[first + 1..];
      first := first + 1;
    }
    var safe := if StartsFormula(t[first..]) then [APOSTROPHE] + t else t;
    return [QUOTE] + Doubled(safe) + [QUOTE];
  }

  /** The apostrophe is not white space. */
  ghost predicate IsSpacing(space: Spacing) {
    !space(APOSTROPHE)
  }

  /** No guarded text starts with a formula sign after control characters and white
      space, and only such texts are changed. */
  lemma GuardedIsInert(space: Spacing, t: Text)
    requires IsSpacing(space)
    ensures !Dangerous(space, Guarded(space, t))
    ensures Guarded(space, t) == t <==> !Dangerous(space, t)
  {
    assert |Guarded(space, t)| == |t| || Guarded(space, t)[0] == APOSTROPHE;
  }

  /** The text shows one of the formula signs after nothing but control characters and
      white space. */
  ghost predicate ShowsSign(space: Spacing, t: Text) {
    exists i | 0 <= i < |t| :: SignAt(space, t, i)
  }

  predicate SignAt(space: Spacing, t: Text, i: nat)
    requires i < |t|
  {
    && (t[i] == '=' as nat || t[i] == '+' as nat || t[i] == '@' as nat || t[i] == '-' as nat)
    && forall j | 0 <= j < i :: t[j] < 32 || space(t[j])
  }

  lemma {:induction false} FirstVisibleIs(space: Spacing, t: Text)
    ensures var n := FirstVisible(space, t);
      (forall j | 0 <= j < n :: Skipped(space, t[j])) && (n < |t| ==> !Skipped(space, t[n]))
  {
    if t != [] && Skipped(space, t[0]) {
      FirstVisibleIs(space, t[1..]);
      var n := FirstVisible(space, t);
      forall j | 0 <= j < n ensures Skipped(space, t[j]) {
        assert j > 0 ==> t[j] == t[1..][j - 1];
      }
      assert n < |t| ==> t[n] == t[1..][n - 1];
    }
  }

  /** The formula signs are neither control characters nor white space. */
  ghost predicate SignsVisible(space: Spacing) {
    !space('=' as nat) && !space('+' as nat) && !space('@' as nat) && !space('-' as nat)
  }

  /** A text that shows a formula sign gets an apostrophe in front, and any other text is
      left as it is. */
  lemma GuardedExactly(space: Spacing, t: Text)
    requires SignsVisible(space)
    ensures Guarded(space, t) == if ShowsSign(space, t) then ['\'' as nat] + t else t
  {
    var n := FirstVisible(space, t);
    FirstVisibleIs(space, t);
    if Dangerous(space, t) {
      assert t[n..][0] == t[n];
      assert SignAt(space, t, n);
    }
    if i :| 0 <= i < |t| && SignAt(space, t, i) {
      assert !Skipped(space, t[i]);
      assert i == n && t[n..][0] == t[n];
    }
  }

  /** Every cell is quoted. */
  lemma CellIsQuoted(space: Spacing, t: Text)
    ensures var cell := Cell(space, t); |cell| >= 2 && cell[0] == '"' as nat && cell[|cell| - 1] == '"' as nat
  {
  }

  // ---------- documents ----------

  function Line(space: Spacing, record: seq<Text>): Text {
    if record == [] then []
    else if |record| == 1 then Cell(space, record[0])
    else Cell(space, record[0]) + [COMMA] + Line(space, record[1..])
  }

  function Lines(space: Spacing, records: seq<seq<Text>>): Text {
    if records == [] then []
    else if |records| == 1 then Line(space, records[0])
    else Line(space, records[0]) + [CR, LF] + Lines(space, records[1..])
  }

  function Document(space: Spacing, records: seq<seq<Text>>): Text {
    [BOM] + Lines(space, records)
  }

  // ---------- a reader of section 2 of RFC 4180 ----------

  datatype Read = Read(text: Text, rest: Text)
  datatype ReadLine = ReadLine(fields: seq<Text>, rest: Text)

  /** The rest of a quoted field, after its opening quote. */
  function ReadQuoted(t: Text): (r: Option<Read>)
    ensures r.Some? ==> |r.value.rest| < |t|
  {
    if t == [] then None
    else if t[0] != '"' as nat then
      match ReadQuoted(t[1..])
      case None => None
      case Some(read) => Some(Read([t[0]] + read.text, read.rest))
    else if |t| > 1 && t[1] == '"' as nat then
      match ReadQuoted(t[2..])
      case None => None
      case Some(read) => Some(Read(['"' as nat] + read.text, read.rest))
    else Some(Read([], t[1..]))
  }

  /** A field without quotes ends at a comma, a line break or a quote. */
  function ReadPlain(t: Text): (r: Read)
    ensures |r.rest| <= |t|
  {
    if t == [] || t[0] == ',' as nat || t[0] == '\r' as nat || t[0] == '\n' as nat || t[0] == '"' as nat then Read([], t)
    else
      var read := ReadPlain(t[1..]);
      Read([t[0]] + read.text, read.rest)
  }

  function ReadField(t: Text): (r: Option<Read>)
    ensures r.Some? ==> |r.value.rest| <= |t|
  {
    if t != [] && t[0] == '"' as nat then ReadQuoted(t[1..]) else Some(ReadPlain(t))
  }

  function ReadRecord(t: Text): (r: Option<ReadLine>)
    ensures r.Some? ==> r.value.fields != [] && |r.value.rest| <= |t|
    decreases |t|
  {
    match ReadField(t)
    case None => None
    case Some(field) =>
      if field.rest == [] || field.rest[0] != ',' as nat then Some(ReadLine([field.text], field.rest))
      else
        match ReadRecord(field.rest[1..])
        case None => None
        case Some(more) => Some(ReadLine([field.text] + more.fields, more.rest))
  }

  predicate AtLineBreak(t: Text) {
    |t| >= 2 && t[0] == '\r' as nat && t[1] == '\n' as nat
  }

  function ReadFile(t: Text): (r: Option<seq<seq<Text>>>)
    ensures r.Some? ==> r.value != [] && forall record | record in r.value :: record != []
    decreases |t|
  {
    match ReadRecord(t)
    case None => None
    case Some(line) =>
      if line.rest == [] then Some([line.fields])
      else if !AtLineBreak(line.rest) then None
      else if |line.rest| == 2 then Some([line.fields])
      else
        match ReadFile(line.rest[2..])
        case None => None
        case Some(more) => Some([line.fields] + more)
  }

  // ---------- round trip ----------

  lemma {:induction false} QuotedRoundTrip(t: Text, rest: Text)
    requires rest == [] || rest[0] != QUOTE
    ensures ReadQuoted(Doubled(t) + [QUOTE] + rest) == Some(Read(t, rest))
  {
    var whole := Doubled(t) + [QUOTE] + rest;
    if t == [] {
      assert whole == [QUOTE] + rest;
      assert whole[1..] == rest;
    } else {
      QuotedRoundTrip(t[1..], rest);
      var tail := Doubled(t[1..]) + [QUOTE] + rest;
      assert t == [t[0]] + t[1..];
      if t[0] == QUOTE {
        assert whole == [QUOTE, QUOTE] + tail;
        assert whole[2..] == tail;
      } else {
        assert whole == [t[0]] + tail;
        assert whole[1..] == tail;
      }
    }
  }

  lemma CellRoundTrip(space: Spacing, t: Text, rest: Text)
    requires rest == [] || rest[0] != QUOTE
    ensures ReadField(Cell(space, t) + rest) == Some(Read(Guarded(space, t), rest))
  {
    QuotedRoundTrip(Guarded(space, t), rest);
    assert (Cell(space, t) + rest)[1..] == Doubled(Guarded(space, t)) + [QUOTE] + rest;
  }

  function GuardedRecord(space: Spacing, record: seq<Text>): (r: seq<Text>)
    ensures |r| == |record| && forall i | 0 <= i < |record| :: r[i] == Guarded(space, record[i])
  {
    if record == [] then [] else [Guarded(space, record[0])] + GuardedRecord(space, record[1..])
  }

  function GuardedRecords(space: Spacing, records: seq<seq<Text>>): (r: seq<seq<Text>>)
    ensures |r| == |records| && forall i | 0 <= i < |records| :: r[i] == GuardedRecord(space, records[i])
  {
    if records == [] then [] else [GuardedRecord(space, records[0])] + GuardedRecords(space, records[1..])
  }

  /** A text that ends the record before it. */
  predicate EndsRecord(rest: Text) {
    rest == [] || (rest[0] != QUOTE && rest[0] != COMMA)
  }

  lemma MoreFields(t: Text, field: Text, tail: Text)
    requires ReadField(t) == Some(Read(field, [COMMA] + tail)) && ReadRecord(tail).Some?
    ensures ReadRecord(t) == Some(ReadLine([field] + ReadRecord(tail).value.fields, ReadRecord(tail).value.rest))
  {
    assert ([COMMA] + tail)[1..] == tail;
  }

  lemma LastField(t: Text, field: Text, rest: Text)
    requires ReadField(t) == Some(Read(field, rest)) && EndsRecord(rest)
    ensures ReadRecord(t) == Some(ReadLine([field], rest))
  {
  }

  lemma Regroup(a: Text, b: Text, c: Text, d: Text)
    ensures (a + b + c) + d == a + (b + (c + d))
  {
  }

  lemma {:induction false} LineRoundTrip(space: Spacing, record: seq<Text>, rest: Text)
    requires record != [] && EndsRecord(rest)
    ensures ReadRecord(Line(space, record) + rest) == Some(ReadLine(GuardedRecord(space, record), rest))
  {
    var whole := Line(space, record) + rest;
    if |record| == 1 {
      CellRoundTrip(space, record[0], rest);
      LastField(whole, Guarded(space, record[0]), rest);
      assert GuardedRecord(space, record) == [Guarded(space, record[0])];
    } else {
      var tail := Line(space, record[1..]) + rest;
      Regroup(Cell(space, record[0]), [COMMA], Line(space, record[1..]), rest);
      assert whole == Cell(space, record[0]) + ([COMMA] + tail);
      CellRoundTrip(space, record[0], [COMMA] + tail);
      LineRoundTrip(space, record[1..], rest);
      MoreFields(whole, Guarded(space, record[0]), tail);
    }
  }

  lemma MoreRecords(t: Text, fields: seq<Text>, tail: Text)
    requires ReadRecord(t) == Some(ReadLine(fields, [CR, LF] + tail)) && tail != [] && ReadFile(tail).Some?
    ensures ReadFile(t) == Some([fields] + ReadFile(tail).value)
  {
    assert ([CR, LF] + tail)[2..] == tail;
  }

  ghost predicate NoneEmpty(records: seq<seq<Text>>) {
    forall record | record in records :: record != []
  }

  lemma {:induction false} LinesRoundTrip(space: Spacing, records: seq<seq<Text>>)
    requires records != [] && NoneEmpty(records)
    ensures ReadFile(Lines(space, records)) == Some(GuardedRecords(space, records))
  {
    assert records[0] in records;
    if |records| == 1 {
      LineRoundTrip(space, records[0], []);
      assert Line(space, records[0]) + [] == Lines(space, records);
      assert GuardedRecords(space, records) == [GuardedRecord(space, records[0])];
    } else {
      var tail := Lines(space, records[1..]);
      assert Lines(space, records) == Line(space, records[0]) + ([CR, LF] + tail);
      LineRoundTrip(space, records[0], [CR, LF] + tail);
      assert records[1] in records && forall record | record in records[1..] :: record in records;
      assert NoneEmpty(records[1..]);
      LinesNotEmpty(space, records[1..]);
      LinesRoundTrip(space, records[1..]);
      MoreRecords(Lines(space, records), GuardedRecord(space, records[0]), tail);
    }
  }

  lemma LinesNotEmpty(space: Spacing, records: seq<seq<Text>>)
    requires records != [] && records[0] != []
    ensures Lines(space, records) != []
  {
    assert Line(space, records[0]) != [];
  }

  /** Reading a document back after its byte order mark yields exactly the guarded
      texts, whatever quotes, commas and line breaks they contain, if and only if there
      is a record and none is empty. */
  lemma DocumentRoundTrip(space: Spacing, records: seq<seq<Text>>)
    ensures Document(space, records) != [] && Document(space, records)[0] == 0xFEFF
    ensures ReadFile(Document(space, records)[1..]) == Some(GuardedRecords(space, records))
       <==> records != [] && NoneEmpty(records)
  {
    assert Document(space, records)[1..] == Lines(space, records);
    if records != [] && NoneEmpty(records) {
      LinesRoundTrip(space, records);
    } else if records != [] {
      var record :| record in records && record == [];
      var i :| 0 <= i < |records| && records[i] == record;
      assert GuardedRecords(space, records)[i] == [];
      assert [] in GuardedRecords(space, records);
    }
  }

  /** So no cell read back from a document starts a formula. */
  lemma NoCellIsFormula(space: Spacing, records: seq<seq<Text>>, i: nat, j: nat)
    requires IsSpacing(space) && records != [] && NoneEmpty(records)
    requires i < |records| && j < |records[i]|
    ensures var file := ReadFile(Document(space, records)[1..]);
      file.Some? && i < |file.value| && j < |file.value[i]| && !Dangerous(space, file.value[i][j])
  {
    DocumentRoundTrip(space, records);
    GuardedIsInert(space, records[i][j]);
  }
}
