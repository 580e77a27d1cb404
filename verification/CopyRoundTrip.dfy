/** Reading back what the encoder wrote. */
module CopyRoundTrip {
  import opened Prelude
  import opened CopyWriter
  import opened CopyReader

  // ---- CSV fields ------------------------------------------------------------------------

  lemma {:induction false} QuotedReads(v: string, rest: string)
    requires rest == [] || rest[0] != '"'
    ensures ReadQuoted(Doubled(v) + "\"" + rest) == Some((v, rest))
  {
    var s := Doubled(v) + "\"" + rest;
    if v == [] {
      assert s == "\"" + rest;
    } else {
      QuotedReads(v[1..], rest);
      var tail := Doubled(v[1..]) + "\"" + rest;
      if v[0] == '"' {
        assert s == "\"\"" + tail && s[2..] == tail;
      } else {
        assert s == [v[0]] + tail && s[1..] == tail;
      }
      assert v == [v[0]] + v[1..];
    }
  }

  predicate Plain(v: string) {
    ',' !in v && '"' !in v && '\n' !in v && '\r' !in v
  }

  predicate EndsField(rest: string) {
    rest != [] && (rest[0] == ',' || rest[0] == '\n')
  }

  lemma {:induction false} PlainReads(v: string, rest: string)
    requires Plain(v) && EndsField(rest)
    ensures ReadPlain(v + rest) == Some((v, rest))
  {
    if v == [] {
      assert v + rest == rest;
    } else {
      assert (v + rest)[1..] == v[1..] + rest;
      PlainReads(v[1..], rest);
      assert v == [v[0]] + v[1..];
    }
  }

  /** What a column means. */
  function FieldOf(cell: Cell): Field {
    match cell
    case NullCell => Null
    case TextCell(s) => Text(s)
    case NumberCell(n) => Text(Decimal(n))
    case ArrayCell(values) => Text(ArrayLiteral(values))
  }

  lemma QuotedFieldReads(v: string, rest: string)
    requires EndsField(rest)
    ensures ReadField(Quoted(v) + rest) == Some((Text(v), rest))
  {
    QuotedReads(v, rest);
    assert (Quoted(v) + rest)[1..] == Doubled(v) + "\"" + rest;
  }

  lemma PlainFieldReads(v: string, rest: string)
    requires Plain(v) && EndsField(rest)
    ensures ReadField(v + rest) == Some((if v == SENTINEL then Null else Text(v), rest))
  {
    PlainReads(v, rest);
    assert (v + rest)[0] == if v == [] then rest[0] else v[0];
  }

  /** A column comes back as what it means, whatever its text, the empty text and the
      sentinel itself included. */
  lemma CellReads(cell: Cell, rest: string)
    requires EndsField(rest)
    ensures ReadField(CellText(cell) + rest) == Some((FieldOf(cell), rest))
  {
    match cell
    case NullCell => PlainFieldReads(SENTINEL, rest);
    case TextCell(s) =>
      if NeedsCsvQuotes(s) {
        QuotedFieldReads(s, rest);
      } else {
        PlainFieldReads(s, rest);
      }
    case NumberCell(n) =>
      NumberPlain(n);
      PlainFieldReads(Decimal(n), rest);
    case ArrayCell(values) => QuotedFieldReads(ArrayLiteral(values), rest);
  }

  lemma NumberPlain(n: int)
    ensures Plain(Decimal(n)) && Decimal(n) != SENTINEL
  {
    DecimalPlain(n);
    DigitsPlain(if n < 0 then -n else n);
    assert SENTINEL[0] == '_' && Decimal(n)[0] in Decimal(n);
  }

  // ---- Records ---------------------------------------------------------------------------

  lemma {:induction false} FlatCons(parts: seq<string>)
    requires parts != []
    ensures Flat(parts) == parts[0] + Flat(parts[1..])
  {
    var n := |parts| - 1;
    if n == 0 {
      assert parts[..0] == [] && parts[1..] == [];
    } else {
      FlatCons(parts[..n]);
      assert parts[..n][1..] == parts[1..][..n-1] && parts[1..][n-1] == parts[n];
      Regroup(parts[0], Flat(parts[1..][..n-1]), parts[n], "");
    }
  }

  /** Wherever a field may end, the text reads as the field. */
  ghost predicate Reads(text: string, f: Field) {
    forall rest :: EndsField(rest) ==> ReadField(text + rest) == Some((f, rest))
  }

  lemma LastField(head: string, rest: string, f: Field)
    requires Reads(head, f)
    ensures ReadRecord(head + ("\n" + rest)) == Some(([f], rest))
  {
    assert ReadField(head + ("\n" + rest)) == Some((f, "\n" + rest));
    assert ("\n" + rest)[1..] == rest;
  }

  lemma NextField(head: string, tail: string, f: Field, fs: seq<Field>, rest: string)
    requires Reads(head, f) && ReadRecord(tail) == Some((fs, rest))
    ensures ReadRecord(head + ("," + tail)) == Some(([f] + fs, rest))
  {
    assert ReadField(head + ("," + tail)) == Some((f, "," + tail));
    assert ("," + tail)[1..] == tail;
  }

  lemma SeparatedText(texts: seq<string>, rest: string)
    requires texts != []
    ensures Flat(Separated(texts)) + rest ==
            texts[0] + if |texts| == 1 then "\n" + rest else "," + (Flat(Separated(texts[1..])) + rest)
  {
    var pieces := Separated(texts);
    FlatCons(pieces);
    if |texts| == 1 {
      assert pieces[1..] == [];
      Regroup(texts[0], "\n", rest, "");
    } else {
      assert pieces[1..] == Separated(texts[1..]);
      Regroup(texts[0], ",", Flat(pieces[1..]), rest);
      Regroup(",", Flat(pieces[1..]), rest, "");
    }
  }

  lemma OneText(texts: seq<string>, f: Field, rest: string)
    requires |texts| == 1 && Reads(texts[0], f)
    ensures ReadRecord(Flat(Separated(texts)) + rest) == Some(([f], rest))
  {
    SeparatedText(texts, rest);
    LastField(texts[0], rest, f);
  }

  lemma MoreTexts(texts: seq<string>, f: Field, fs: seq<Field>, rest: string)
    requires |texts| > 1 && Reads(texts[0], f) && ReadRecord(Flat(Separated(texts[1..])) + rest) == Some((fs, rest))
    ensures ReadRecord(Flat(Separated(texts)) + rest) == Some(([f] + fs, rest))
  {
    SeparatedText(texts, rest);
    NextField(texts[0], Flat(Separated(texts[1..])) + rest, f, fs, rest);
  }

  lemma CellReadsAs(cell: Cell)
    ensures Reads(CellText(cell), FieldOf(cell))
  {
    forall rest | EndsField(rest) ensures ReadField(CellText(cell) + rest) == Some((FieldOf(cell), rest)) {
      CellReads(cell, rest);
    }
  }

  function FieldsOf(cells: seq<Cell>): seq<Field> {
    seq(|cells|, i requires 0 <= i < |cells| => FieldOf(cells[i]))
  }

  /** Each text reads as its field. */
  ghost predicate AllRead(texts: seq<string>, fields: seq<Field>)
    requires |texts| == |fields|
  {
    texts == [] || (Reads(texts[0], fields[0]) && AllRead(texts[1..], fields[1..]))
  }

  lemma {:induction false} TextsRead(texts: seq<string>, fields: seq<Field>, rest: string)
    requires |texts| == |fields| > 0 && AllRead(texts, fields)
    ensures ReadRecord(Flat(Separated(texts)) + rest) == Some((fields, rest))
  {
    if |texts| == 1 {
      OneText(texts, fields[0], rest);
      assert fields == [fields[0]];
    } else {
      TextsRead(texts[1..], fields[1..], rest);
      MoreTexts(texts, fields[0], fields[1..], rest);
      assert fields == [fields[0]] + fields[1..];
    }
  }

  lemma {:induction false} CellsRead(cells: seq<Cell>)
    ensures AllRead(Texts(cells), FieldsOf(cells))
  {
    if cells != [] {
      CellReadsAs(cells[0]);
      CellsRead(cells[1..]);
      assert Texts(cells)[1..] == Texts(cells[1..]) && FieldsOf(cells)[1..] == FieldsOf(cells[1..]);
    }
  }

  lemma RecordReads(cells: seq<Cell>, rest: string)
    requires cells != []
    ensures ReadRecord(Flat(Pieces(cells)) + rest) == Some((FieldsOf(cells), rest))
  {
    CellsRead(cells);
    TextsRead(Texts(cells), FieldsOf(cells), rest);
  }

  function RecordOf(row: PreparedRow): seq<Field> {
    FieldsOf(Cells(row))
  }

  function RecordsOf(rows: seq<PreparedRow>): seq<seq<Field>> {
    seq(|rows|, i requires 0 <= i < |rows| => RecordOf(rows[i]))
  }

  lemma FlatOf(parts: seq<string>, first: string, rest: seq<string>)
    requires parts == [first] + rest
    ensures Flat(parts) == first + Flat(rest)
  {
    FlatCons(parts);
    assert parts[1..] == rest;
  }

  lemma DocumentText(rows: seq<PreparedRow>)
    requires rows != []
    ensures Document(rows) == RowText(rows[0]) + Document(rows[1..])
  {
    assert RowTexts(rows) == [RowText(rows[0])] + RowTexts(rows[1..]);
    FlatOf(RowTexts(rows), RowText(rows[0]), RowTexts(rows[1..]));
  }

  lemma NextRecord(text: string, rest: string, fs: seq<Field>, records: seq<seq<Field>>)
    requires ReadRecord(text + rest) == Some((fs, rest)) && ReadRecords(rest) == Some(records)
    ensures ReadRecords(text + rest) == Some([fs] + records)
  {
  }

  /** The whole text comes back as one record per row. */
  lemma {:induction false} DocumentReads(rows: seq<PreparedRow>)
    ensures ReadRecords(Document(rows)) == Some(RecordsOf(rows))
  {
    if rows == [] {
      assert RecordsOf(rows) == [];
    } else {
      DocumentText(rows);
      RecordReads(Cells(rows[0]), Document(rows[1..]));
      DocumentReads(rows[1..]);
      NextRecord(RowText(rows[0]), Document(rows[1..]), RecordOf(rows[0]), RecordsOf(rows[1..]));
      assert RecordsOf(rows) == [RecordOf(rows[0])] + RecordsOf(rows[1..]);
    }
  }

  // ---- Array elements ------------------------------------------------------------------------

  lemma {:induction false} EscapedReads(v: string, rest: string)
    ensures ReadEscaped(Escaped(v) + "\"" + rest) == Some((v, rest))
  {
    var s := Escaped(v) + "\"" + rest;
    if v == [] {
      assert s == "\"" + rest;
    } else {
      EscapedReads(v[1..], rest);
      var tail := Escaped(v[1..]) + "\"" + rest;
      if v[0] == '"' || v[0] == '\\' {
        assert s == ['\\', v[0]] + tail && s[2..] == tail;
      } else {
        assert s == [v[0]] + tail && s[1..] == tail;
      }
      assert v == [v[0]] + v[1..];
    }
  }

  predicate Bare(v: string) {
    ',' !in v && '"' !in v && '\\' !in v && '{' !in v && '}' !in v
  }

  predicate EndsElement(rest: string) {
    rest != [] && (rest[0] == ',' || rest[0] == '}')
  }

  lemma {:induction false} BareReads(v: string, rest: string)
    requires Bare(v) && EndsElement(rest)
    ensures ReadBare(v + rest) == Some((v, rest))
  {
    if v == [] {
      assert v + rest == rest;
    } else {
      assert (v + rest)[1..] == v[1..] + rest;
      BareReads(v[1..], rest);
      assert v == [v[0]] + v[1..];
    }
  }

  lemma {:induction false} TrimLeftIs(s: string, rest: string)
    requires EndsElement(rest)
    ensures TrimLeft(s + rest) == TrimLeft(s) + rest
    ensures TrimLeft(s) != [] ==> !IsSpace(TrimLeft(s)[0])
    ensures forall c :: c in TrimLeft(s) ==> c in s
  {
    if s == [] {
      assert s + rest == rest && TrimLeft(rest) == rest;
      assert TrimLeft(s) == [];
    } else if IsSpace(s[0]) {
      assert (s + rest)[1..] == s[1..] + rest;
      TrimLeftIs(s[1..], rest);
    }
  }

  /** A text that does not begin with white space is not trimmed away. */
  lemma {:induction false} TrimRightKeeps(s: string)
    requires s != [] && !IsSpace(s[0])
    ensures TrimRight(s) != []
  {
    if IsSpace(s[|s|-1]) {
      TrimRightKeeps(s[..|s|-1]);
    }
  }

  /** What the array reader makes of an element: itself if it was quoted; otherwise its
      trimmed text, NULL if that is left, and no element at all if nothing is. */
  function Stored(t: string): Option<Option<string>> {
    if NeedsQuotes(t) then Some(Some(t))
    else if Trim(t) == "" then None
    else Some(if IsNullWord(Trim(t)) then None else Some(Trim(t)))
  }

  lemma QuotedText(body: string, v: string, rest: string)
    requires EndsElement(rest) && ReadEscaped(body + "\"" + rest) == Some((v, rest))
    ensures ReadElement("\"" + body + "\"" + rest) == Some((Some(v), rest))
  {
    var s := "\"" + body + "\"" + rest;
    assert s[0] == '"' && s[1..] == body + "\"" + rest;
    assert TrimLeft(s) == s && TrimLeft(rest) == rest;
  }

  lemma QuotedElementReads(t: string, rest: string)
    requires NeedsQuotes(t) && EndsElement(rest)
    ensures ReadElement(Element(t) + rest) == Some((Some(t), rest))
  {
    EscapedReads(t, rest);
    QuotedText(Escaped(t), t, rest);
  }

  lemma BareElementReads(t: string, rest: string)
    requires !NeedsQuotes(t) && EndsElement(rest)
    ensures ReadElement(t + rest) == if Stored(t).None? then None else Some((Stored(t).value, rest))
  {
    TrimLeftIs(t, rest);
    BareReads(TrimLeft(t), rest);
    assert (TrimLeft(t) + rest)[0] != '"';
  }

  lemma ElementReads(t: string, rest: string)
    requires EndsElement(rest)
    ensures ReadElement(Element(t) + rest) == if Stored(t).None? then None else Some((Stored(t).value, rest))
  {
    if NeedsQuotes(t) {
      QuotedElementReads(t, rest);
    } else {
      BareElementReads(t, rest);
    }
  }

  function Reread(values: seq<string>): Option<seq<Option<string>>> {
    if values == [] then Some([])
    else
      var first, rest := Stored(values[0]), Reread(values[1..]);
      if first.None? || rest.None? then None else Some([first.value] + rest.value)
  }

  lemma LastElement(text: string, x: Option<Option<string>>)
    requires ReadElement(text + "}") == if x.None? then None else Some((x.value, "}"))
    ensures ReadElements(text + "}") == if x.None? then None else Some([x.value])
  {
    assert "}"[1..] == [];
  }

  lemma NextElement(text: string, tail: string, x: Option<Option<string>>)
    requires ReadElement(text + ("," + tail)) == if x.None? then None else Some((x.value, "," + tail))
    ensures ReadElements(text + ("," + tail)) ==
            if x.None? || ReadElements(tail).None? then None else Some([x.value] + ReadElements(tail).value)
  {
    assert ("," + tail)[1..] == tail;
  }

  lemma {:induction false} ElementsRead(values: seq<string>)
    requires values != []
    ensures ReadElements(Elements(values) + "}") == Reread(values)
  {
    var first := Element(values[0]);
    if |values| == 1 {
      ElementReads(values[0], "}");
      LastElement(first, Stored(values[0]));
      assert values[1..] == [] && Reread(values[1..]) == Some([]);
      assert Stored(values[0]).Some? ==> [Stored(values[0]).value] + [] == [Stored(values[0]).value];
    } else {
      var tail := Elements(values[1..]) + "}";
      ElementReads(values[0], "," + tail);
      NextElement(first, tail, Stored(values[0]));
      ElementsRead(values[1..]);
      Regroup(first, ",", Elements(values[1..]), "}");
      Regroup(",", Elements(values[1..]), "}", "");
    }
  }

  /** What follows the first element of a literal. */
  lemma FirstElement(values: seq<string>) returns (rest: string)
    requires values != []
    ensures Elements(values) + "}" == Element(values[0]) + rest && EndsElement(rest)
    ensures |values| == 1 ==> rest == "}"
    ensures |values| > 1 ==> rest[0] == ','
  {
    if |values| == 1 {
      rest := "}";
    } else {
      rest := "," + Elements(values[1..]) + "}";
      Regroup(Element(values[0]), ",", Elements(values[1..]), "}");
    }
  }

  predicate Vanishes(values: seq<string>) {
    |values| == 1 && Stored(values[0]).None?
  }

  /** The literal looks empty exactly when it is, or holds one blank unquoted element. */
  lemma LooksEmpty(values: seq<string>)
    requires values != []
    ensures var body := TrimLeft(Elements(values) + "}");
            (body != [] && body[0] == '}' && TrimLeft(body[1..]) == []) <==> Vanishes(values)
  {
    var rest := FirstElement(values);
    var t := values[0];
    if NeedsQuotes(t) {
      assert (Element(t) + rest)[0] == '"';
    } else {
      TrimLeftIs(t, rest);
      if TrimLeft(t) == [] {
        assert TrimLeft(t) + rest == rest;
      } else {
        TrimRightKeeps(TrimLeft(t));
        assert (TrimLeft(t) + rest)[0] in t;
      }
    }
  }

  /** Exactly how an array comes back. */
  lemma ArrayReads(values: seq<string>)
    ensures ReadArray(ArrayLiteral(values)) == if Vanishes(values) then Some([]) else Reread(values)
  {
    var s := ArrayLiteral(values);
    assert s[0] == '{' && s[1..] == Elements(values) + "}";
    if values == [] {
      assert s[1..] == "}";
    } else {
      LooksEmpty(values);
      ElementsRead(values);
    }
  }

  // ---- When tags survive -----------------------------------------------------------------------

  /** A quoted tag, or one that neither begins nor ends with white space: with a space
      it would be quoted, so with a tab, line feed, vertical tab, form feed or carriage
      return. */
  predicate Survives(t: string) {
    NeedsQuotes(t) || (!IsSpace(t[0]) && !IsSpace(t[|t|-1]))
  }

  lemma StoredIff(t: string)
    ensures Stored(t) == Some(Some(t)) <==> Survives(t)
  {
    if !NeedsQuotes(t) {
      assert IsSpace(t[0]) ==> |TrimLeft(t)| < |t|;
      assert !IsSpace(t[0]) && IsSpace(t[|t|-1]) ==> |TrimRight(t)| < |t|;
    }
  }

  function AllSome(values: seq<string>): seq<Option<string>> {
    seq(|values|, i requires 0 <= i < |values| => Some(values[i]))
  }

  lemma {:induction false} RereadIff(values: seq<string>)
    ensures Reread(values) == Some(AllSome(values)) <==> forall i :: 0 <= i < |values| ==> Survives(values[i])
  {
    if values == [] {
      assert AllSome(values) == [];
    } else {
      StoredIff(values[0]);
      RereadIff(values[1..]);
      assert AllSome(values) == [Some(values[0])] + AllSome(values[1..]);
      assert forall i :: 1 <= i < |values| ==> values[i] == values[1..][i-1];
      if Reread(values).Some? {
        assert Reread(values).value[1..] == Reread(values[1..]).value;
      }
    }
  }

  /** The tags of a row come back as they were if and only if each of them survives. */
  lemma TagsKeptIff(tags: seq<string>)
    ensures ReadArray(ArrayLiteral(tags)) == Some(AllSome(tags)) <==> forall i :: 0 <= i < |tags| ==> Survives(tags[i])
  {
    ArrayReads(tags);
    RereadIff(tags);
    if Vanishes(tags) {
      StoredIff(tags[0]);
    }
  }

  /** A lone unquoted tag comes back trimmed; if nothing is left, the array comes back
      empty, and if NULL is left, as NULL. */
  lemma BareTagTrimmed(t: string)
    requires !NeedsQuotes(t)
    ensures ReadArray(ArrayLiteral([t])) ==
            if Trim(t) == "" then Some([]) else Some([if IsNullWord(Trim(t)) then None else Some(Trim(t))])
  {
    ArrayReads([t]);
    assert [t][1..] == [];
    assert Reread([t][1..]) == Some([]);
    assert Stored(t).Some? ==> [Stored(t).value] + [] == [Stored(t).value];
  }

  /** A blank unquoted tag beside another makes the whole array malformed. */
  lemma {:induction false} BlankTagMalformed(tags: seq<string>, i: nat)
    requires i < |tags| && |tags| > 1 && !NeedsQuotes(tags[i]) && Trim(tags[i]) == ""
    ensures ReadArray(ArrayLiteral(tags)) == None
  {
    ArrayReads(tags);
    BlankStops(tags, i);
  }

  lemma {:induction false} BlankStops(tags: seq<string>, i: nat)
    requires i < |tags| && Stored(tags[i]).None?
    ensures Reread(tags).None?
  {
    if i > 0 {
      BlankStops(tags[1..], i - 1);
    }
  }

  lemma TabIsLost()
    ensures ReadArray(ArrayLiteral(["\td"])) == Some([Some("d")])
  {
    BareTagTrimmed("\td");
    assert TrimLeft("\td") == TrimLeft("d") by {
      assert "\td"[1..] == "d";
    }
  }

  // ---- Typed columns ---------------------------------------------------------------------------

  lemma {:induction false} DigitsRead(n: nat)
    ensures ReadDigits(Digits(n)) == Some(n)
  {
    var s := Digits(n);
    if n >= 10 {
      DigitsRead(n / 10);
      DigitsPlain(n / 10);
      assert s[..|s|-1] == Digits(n / 10) && s[|s|-1] == Digit(n % 10);
    }
  }

  lemma DecimalReads(n: int)
    ensures ReadDecimal(Decimal(n)) == Some(n)
  {
    DigitsRead(if n < 0 then -n else n);
    DigitsPlain(if n < 0 then -n else n);
    if n < 0 {
      assert Decimal(n)[1..] == Digits(-n);
    } else {
      assert Decimal(n)[0] in Decimal(n);
    }
  }

  lemma {:induction false} HexReads(bytes: seq<Byte>)
    ensures ReadHex(Hex(bytes)) == Some(bytes)
  {
    if bytes != [] {
      HexReads(bytes[1..]);
      assert Hex(bytes)[2..] == Hex(bytes[1..]);
      assert bytes == [bytes[0]] + bytes[1..];
    }
  }

  lemma BytesRead(key: Option<seq<Byte>>)
    ensures OptionalBytes(FieldOf(BytesCell(key))) == Some(key)
  {
    if key.Some? {
      HexReads(key.value);
      assert ("\\x" + Hex(key.value))[2..] == Hex(key.value);
    }
  }

  /** The row the `unnest` insert stages, but for its tags. */
  function Staged(row: PreparedRow, tags: seq<Option<string>>): StagedRow {
    StagedRow(row.kind, row.queue, row.args, row.state, row.priority, row.maxAttempts, row.runAt, row.metadata, tags,
              row.uniqueKey, row.uniqueStates, row.orderingKey)
  }

  /** Every column but the tags comes back exactly. */
  lemma RowReads(row: PreparedRow)
    ensures var tags := ReadArray(ArrayLiteral(row.tags));
            ReadRow(FieldsOf(Cells(row))) == if tags.None? then None else Some(Staged(row, tags.value))
  {
    DecimalReads(row.priority);
    DecimalReads(row.maxAttempts);
    BytesRead(row.uniqueKey);
    BytesRead(row.orderingKey);
  }

  // ---- COPY and insert stage the same rows --------------------------------------------------------

  /** `stage_rows_with_insert` */
  function InsertStages(rows: seq<PreparedRow>): seq<StagedRow> {
    seq(|rows|, i requires 0 <= i < |rows| => Staged(rows[i], AllSome(rows[i].tags)))
  }

  ghost predicate TagsSurvive(row: PreparedRow) {
    forall i :: 0 <= i < |row.tags| ==> Survives(row.tags[i])
  }

  lemma RowKeptIff(row: PreparedRow)
    ensures ReadsAs(RecordOf(row), Staged(row, AllSome(row.tags))) <==> TagsSurvive(row)
  {
    RowReads(row);
    TagsKeptIff(row.tags);
  }

  ghost predicate ReadsAs(record: seq<Field>, x: StagedRow) {
    ReadRow(record) == Some(x)
  }

  lemma ReadRowsCons(records: seq<seq<Field>>, xs: seq<StagedRow>)
    requires |records| == |xs| > 0
    ensures ReadRows(records) == Some(xs) <==> ReadsAs(records[0], xs[0]) && ReadRows(records[1..]) == Some(xs[1..])
  {
    if ReadRow(records[0]).Some? && ReadRows(records[1..]).Some? {
      var read := [ReadRow(records[0]).value] + ReadRows(records[1..]).value;
      assert read[0] == ReadRow(records[0]).value && read[1..] == ReadRows(records[1..]).value;
      assert xs == [xs[0]] + xs[1..];
    }
  }

  lemma {:induction false} ReadRowsIff(records: seq<seq<Field>>, xs: seq<StagedRow>)
    requires |records| == |xs|
    ensures ReadRows(records) == Some(xs) <==> forall i :: 0 <= i < |xs| ==> ReadsAs(records[i], xs[i])
  {
    if xs != [] {
      ReadRowsCons(records, xs);
      ReadRowsIff(records[1..], xs[1..]);
      assert forall i :: 1 <= i < |xs| ==> records[i] == records[1..][i-1] && xs[i] == xs[1..][i-1];
    }
  }

  /** COPY stages exactly the rows the `unnest` insert stages if and only if every tag
      survives: for every text in every other column, the empty text and the NULL
      sentinel included. */
  lemma CopyMatchesInsertIff(rows: seq<PreparedRow>)
    ensures CopyStages(Document(rows)) == Some(InsertStages(rows))
            <==> forall i :: 0 <= i < |rows| ==> TagsSurvive(rows[i])
  {
    DocumentReads(rows);
    var records, staged := RecordsOf(rows), InsertStages(rows);
    ReadRowsIff(records, staged);
    forall i | 0 <= i < |rows| ensures ReadsAs(records[i], staged[i]) <==> TagsSurvive(rows[i]) {
      RowKeptIff(rows[i]);
    }
  }
}
