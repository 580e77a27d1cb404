/** The COPY encoder: CSV fields, and array literals inside them, appended to a buffer.
    Text is a sequence of characters; every character the encoder looks at is ASCII, so
    its UTF-8 bytes are treated alike. */
module CopyWriter {
  import opened Prelude

  type Byte = n: nat | n < 256

  const SENTINEL := "__AWA_NULL__"

  /** A row ready to be staged. JSON columns and the timestamp are held as their text. */
  datatype PreparedRow = PreparedRow(
    kind: string,
    queue: string,
    args: string,
    state: string,
    priority: int,
    maxAttempts: int,
    runAt: Option<string>,
    metadata: string,
    tags: seq<string>,
    uniqueKey: Option<seq<Byte>>,
    uniqueStates: Option<string>,
    orderingKey: Option<seq<Byte>>)

  /** What one column is written from. */
  datatype Cell = NullCell | TextCell(text: string) | NumberCell(number: int) | ArrayCell(elements: seq<string>)

  // ---- CSV fields ------------------------------------------------------------------------

  predicate NeedsCsvQuotes(s: string) {
    ',' in s || '"' in s || '\n' in s || '\r' in s || '\\' in s || s == SENTINEL
  }

  function Doubled(s: string): string {
    if s == [] then [] else (if s[0] == '"' then "\"\"" else [s[0]]) + Doubled(s[1..])
  }

  function Quoted(s: string): string {
    "\"" + Doubled(s) + "\""
  }

  function CsvField(s: string): string {
    if NeedsCsvQuotes(s) then Quoted(s) else s
  }

  // ---- Array literals ----------------------------------------------------------------------

  predicate IsNullWord(s: string) {
    |s| == 4 && s[0] in "Nn" && s[1] in "Uu" && s[2] in "Ll" && s[3] in "Ll"
  }

  predicate NeedsQuotes(s: string) {
    s == "" || ',' in s || '"' in s || '\\' in s || '{' in s || '}' in s || ' ' in s || IsNullWord(s)
  }

  function Escaped(s: string): string {
    if s == [] then [] else (if s[0] == '"' || s[0] == '\\' then ['\\', s[0]] else [s[0]]) + Escaped(s[1..])
  }

  function Element(s: string): string {
    if NeedsQuotes(s) then "\"" + Escaped(s) + "\"" else s
  }

  function Elements(values: seq<string>): string {
    if values == [] then []
    else if |values| == 1 then Element(values[0])
    else Element(values[0]) + "," + Elements(values[1..])
  }

  function ArrayLiteral(values: seq<string>): string {
    "{" + Elements(values) + "}"
  }

  // ---- Rows ----------------------------------------------------------------------------------

  function Digit(d: nat): char
    requires d < 10
  {
    ('0' as int + d) as char
  }

  function Digits(n: nat): string {
    if n < 10 then [Digit(n)] else Digits(n / 10) + [Digit(n % 10)]
  }

  function Decimal(n: int): string {
    if n < 0 then "-" + Digits(-n) else Digits(n)
  }

  function HexDigit(d: nat): char
    requires d < 16
  {
    if d < 10 then Digit(d) else ('a' as int + d - 10) as char
  }

  function Hex(bytes: seq<Byte>): string {
    if bytes == [] then [] else [HexDigit(bytes[0] / 16), HexDigit(bytes[0] % 16)] + Hex(bytes[1..])
  }

  function BytesCell(key: Option<seq<Byte>>): Cell {
    if key.Some? then TextCell("\\x" + Hex(key.value)) else NullCell
  }

  function OptionalCell(text: Option<string>): Cell {
    if text.Some? then TextCell(text.value) else NullCell
  }

  function CellText(cell: Cell): string {
    match cell
    case NullCell => SENTINEL
    case TextCell(s) => CsvField(s)
    case NumberCell(n) => Decimal(n)
    case ArrayCell(values) => Quoted(ArrayLiteral(values))
  }

  function Cells(row: PreparedRow): (cells: seq<Cell>)
    ensures CellsOf(cells, row)
  {
    [TextCell(row.kind), TextCell(row.queue), TextCell(row.args), TextCell(row.state), NumberCell(row.priority),
     NumberCell(row.maxAttempts), OptionalCell(row.runAt), TextCell(row.metadata), ArrayCell(row.tags),
     BytesCell(row.uniqueKey), OptionalCell(row.uniqueStates), BytesCell(row.orderingKey)]
  }

  function Flat(parts: seq<string>): string {
    if parts == [] then [] else Flat(parts[..|parts|-1]) + parts[|parts|-1]
  }

  /** Each text with what follows it: a comma, or the row end. */
  function Separated(texts: seq<string>): seq<string> {
    seq(|texts|, i requires 0 <= i < |texts| => texts[i] + if i == |texts| - 1 then "\n" else ",")
  }

  function Texts(cells: seq<Cell>): seq<string> {
    seq(|cells|, i requires 0 <= i < |cells| => CellText(cells[i]))
  }

  function Pieces(cells: seq<Cell>): seq<string> {
    Separated(Texts(cells))
  }

  function RowText(row: PreparedRow): string {
    Flat(Pieces(Cells(row)))
  }

  function RowTexts(rows: seq<PreparedRow>): seq<string> {
    seq(|rows|, i requires 0 <= i < |rows| => RowText(rows[i]))
  }

  /** The text of all rows. */
  function Document(rows: seq<PreparedRow>): string {
    Flat(RowTexts(rows))
  }

  // ---- Nothing in a number needs quoting ---------------------------------------------------

  lemma {:induction false} DigitsPlain(n: nat)
    ensures Digits(n) != [] && forall c :: c in Digits(n) ==> '0' <= c <= '9'
  {
    if n >= 10 {
      DigitsPlain(n / 10);
    }
  }

  lemma DecimalPlain(n: int)
    ensures CsvField(Decimal(n)) == Decimal(n)
  {
    DigitsPlain(if n < 0 then -n else n);
    assert forall c :: c in Decimal(n) ==> c == '-' || '0' <= c <= '9';
    assert Decimal(n)[0] in Decimal(n) && SENTINEL[0] == '_';
  }

  // ---- The writer ------------------------------------------------------------------------------

  lemma {:induction false} DoubledSplit(s: string, t: string)
    ensures Doubled(s + t) == Doubled(s) + Doubled(t)
  {
    if s == [] {
      assert s + t == t;
    } else {
      assert (s + t)[1..] == s[1..] + t;
      DoubledSplit(s[1..], t);
    }
  }

  lemma {:induction false} EscapedSplit(s: string, t: string)
    ensures Escaped(s + t) == Escaped(s) + Escaped(t)
  {
    if s == [] {
      assert s + t == t;
    } else {
      assert (s + t)[1..] == s[1..] + t;
      EscapedSplit(s[1..], t);
    }
  }

  lemma {:induction false} DoubledPlain(s: string)
    requires '"' !in s
    ensures Doubled(s) == s
  {
    if s != [] {
      DoubledPlain(s[1..]);
      assert s == [s[0]] + s[1..];
    }
  }

  lemma {:induction false} ElementsSplit(values: seq<string>, last: string)
    ensures Elements(values + [last]) == (if values == [] then "" else Elements(values) + ",") + Element(last)
  {
    if values == [] {
      assert values + [last] == [last];
    } else {
      assert (values + [last])[1..] == values[1..] + [last];
      ElementsSplit(values[1..], last);
      if |values| == 1 {
        assert values[1..] == [];
      } else {
        assert Element(values[0]) + "," + (Elements(values[1..]) + "," + Element(last))
            == (Element(values[0]) + "," + Elements(values[1..])) + "," + Element(last);
      }
    }
  }

  class Buffer {
    var text: string

    constructor ()
      ensures text == ""
    {
      text := "";
    }

    method Push(c: char)
      modifies this
      ensures text == old(text) + [c]
    {
      text := text + [c];
    }

    method Extend(s: string)
      modifies this
      ensures text == old(text) + s
    {
      text := text + s;
    }

    /** `write_csv_field` */
    method WriteField(value: string)
      modifies this
      ensures text == old(text) + CsvField(value)
    {
      if ',' in value || '"' in value || '\n' in value || '\r' in value || '\\' in value || value == SENTINEL {
        Push('"');
        for i := 0 to |value|
          invariant text == old(text) + "\"" + Doubled(value[..i])
        {
          DoubledSplit(value[..i], [value[i]]);
          assert value[..i+1] == value[..i] + [value[i]];
          if value[i] == '"' {
            Push('"');
          }
          Push(value[i]);
        }
        assert value[..|value|] == value;
        Push('"');
      } else {
        Extend(value);
      }
    }

    /** A quoted element of `write_pg_text_array`: escaped for the array, and its quotes
        doubled for CSV, in one pass. */
    method WriteQuotedElement(value: string)
      modifies this
      ensures text == old(text) + Doubled("\"" + Escaped(value) + "\"")
    {
      Push('"');
      Push('"');
      ghost var start := text;
      for i := 0 to |value|
        invariant text == start + Doubled(Escaped(value[..i]))
      {
        OneMoreCharacter(value, i);
        Regroup(start, Doubled(Escaped(value[..i])), Written(value[i]), "");
        match value[i]
        case '"' => Extend("\\\"\"");
        case '\\' => Extend("\\\\");
        case _ => Push(value[i]);
      }
      assert value[..|value|] == value;
      Push('"');
      Push('"');
      DoubledQuoted(Escaped(value));
    }

    method WriteElement(value: string)
      modifies this
      ensures text == old(text) + Doubled(Element(value))
    {
      if NeedsQuotes(value) {
        WriteQuotedElement(value);
      } else {
        DoubledPlain(value);
        Extend(value);
      }
    }

    /** `write_pg_text_array`: the CSV quoting of the array literal. */
    method WriteArray(values: seq<string>)
      modifies this
      ensures text == old(text) + Quoted(ArrayLiteral(values))
    {
      Push('"');
      Push('{');
      ghost var start := text;
      for i := 0 to |values|
        invariant text == start + Doubled(Elements(values[..i]))
      {
        ghost var done := Doubled(Elements(values[..i]));
        OneMoreElement(values, i);
        Regroup(start, done, if i > 0 then "," else "", Doubled(Element(values[i])));
        if i > 0 {
          Push(',');
        }
        WriteElement(values[i]);
      }
      assert values[..|values|] == values;
      Push('}');
      Push('"');
      DoubledBraces(Elements(values));
    }

    method WriteCell(cell: Cell)
      modifies this
      ensures text == old(text) + CellText(cell)
    {
      match cell
      case NullCell => Extend(SENTINEL);
      case TextCell(s) => WriteField(s);
      case NumberCell(n) => Extend(Decimal(n));
      case ArrayCell(values) => WriteArray(values);
    }

    /** One column and what follows it. */
    method WriteColumn(cell: Cell, end: char, ghost pieces: seq<string>, ghost k: nat, ghost start: string)
      requires k < |pieces| && pieces[k] == CellText(cell) + [end] && text == start + Flat(pieces[..k])
      modifies this
      ensures text == start + Flat(pieces[..k+1])
    {
      OneMorePart(start, pieces, k);
      Regroup(text, CellText(cell), [end], "");
      WriteCell(cell);
      Push(end);
    }

    method WriteIdentity(row: PreparedRow, ghost cells: seq<Cell>, ghost start: string)
      requires CellsOf(cells, row) && text == start + Flat(Pieces(cells)[..0])
      modifies this
      ensures text == start + Flat(Pieces(cells)[..3])
    {
      WriteColumn(TextCell(row.kind), ',', Pieces(cells), 0, start);
      WriteColumn(TextCell(row.queue), ',', Pieces(cells), 1, start);
      WriteColumn(TextCell(row.args), ',', Pieces(cells), 2, start);
    }

    method WriteScheduling(row: PreparedRow, ghost cells: seq<Cell>, ghost start: string)
      requires CellsOf(cells, row) && text == start + Flat(Pieces(cells)[..3])
      modifies this
      ensures text == start + Flat(Pieces(cells)[..7])
    {
      WriteColumn(TextCell(row.state), ',', Pieces(cells), 3, start);
      WriteColumn(NumberCell(row.priority), ',', Pieces(cells), 4, start);
      WriteColumn(NumberCell(row.maxAttempts), ',', Pieces(cells), 5, start);
      WriteColumn(OptionalCell(row.runAt), ',', Pieces(cells), 6, start);
    }

    method WriteDetails(row: PreparedRow, ghost cells: seq<Cell>, ghost start: string)
      requires CellsOf(cells, row) && text == start + Flat(Pieces(cells)[..7])
      modifies this
      ensures text == start + Flat(Pieces(cells)[..12])
    {
      WriteColumn(TextCell(row.metadata), ',', Pieces(cells), 7, start);
      WriteColumn(ArrayCell(row.tags), ',', Pieces(cells), 8, start);
      WriteColumn(BytesCell(row.uniqueKey), ',', Pieces(cells), 9, start);
      WriteColumn(OptionalCell(row.uniqueStates), ',', Pieces(cells), 10, start);
      WriteColumn(BytesCell(row.orderingKey), '\n', Pieces(cells), 11, start);
    }

    /** `write_csv_row` */
    method WriteRow(row: PreparedRow)
      modifies this
      ensures text == old(text) + RowText(row)
    {
      WriteIdentity(row, Cells(row), text);
      WriteScheduling(row, Cells(row), old(text));
      WriteDetails(row, Cells(row), old(text));
      assert Pieces(Cells(row))[..12] == Pieces(Cells(row));
    }

    /** The rows of a large batch, as sent to COPY. */
    method WriteRows(rows: seq<PreparedRow>)
      modifies this
      ensures text == old(text) + Document(rows)
    {
      for i := 0 to |rows|
        invariant text == old(text) + Flat(RowTexts(rows)[..i])
      {
        OneMorePart(old(text), RowTexts(rows), i);
        WriteRow(rows[i]);
      }
      assert RowTexts(rows)[..|rows|] == RowTexts(rows);
    }
  }

  /** The twelve columns, in order. */
  predicate CellsOf(cells: seq<Cell>, row: PreparedRow) {
    && |cells| == 12
    && cells[0] == TextCell(row.kind) && cells[1] == TextCell(row.queue)
    && cells[2] == TextCell(row.args) && cells[3] == TextCell(row.state)
    && cells[4] == NumberCell(row.priority) && cells[5] == NumberCell(row.maxAttempts)
    && cells[6] == OptionalCell(row.runAt) && cells[7] == TextCell(row.metadata)
    && cells[8] == ArrayCell(row.tags) && cells[9] == BytesCell(row.uniqueKey)
    && cells[10] == OptionalCell(row.uniqueStates) && cells[11] == BytesCell(row.orderingKey)
  }

  lemma OneMorePart(start: string, parts: seq<string>, k: nat)
    requires k < |parts|
    ensures start + Flat(parts[..k+1]) == start + Flat(parts[..k]) + parts[k]
  {
    assert parts[..k+1][..k] == parts[..k];
    Regroup(start, Flat(parts[..k]), parts[k], "");
  }

  lemma Regroup(a: string, b: string, c: string, d: string)
    ensures a + b + c + d == a + (b + c + d) && a + b + c == a + (b + c)
  {
  }

  /** What one character of a quoted element is written as. */
  function Written(c: char): string {
    if c == '"' then "\\\"\"" else if c == '\\' then "\\\\" else [c]
  }

  lemma OneCharacter(c: char)
    ensures Doubled(Escaped([c])) == Written(c)
  {
    assert [c][1..] == [];
    assert Doubled([c]) == if c == '"' then "\"\"" else [c];
    if c == '"' || c == '\\' {
      assert Escaped([c]) == ['\\', c];
      assert ['\\', c][1..] == [c];
      assert Doubled(['\\', c]) == ['\\'] + Doubled([c]);
    } else {
      assert Escaped([c]) == [c];
    }
  }

  lemma OneMoreCharacter(value: string, i: nat)
    requires i < |value|
    ensures Doubled(Escaped(value[..i+1])) == Doubled(Escaped(value[..i])) + Written(value[i])
  {
    EscapedSplit(value[..i], [value[i]]);
    DoubledSplit(Escaped(value[..i]), Escaped([value[i]]));
    assert value[..i+1] == value[..i] + [value[i]];
    OneCharacter(value[i]);
  }

  lemma DoubledQuoted(s: string)
    ensures Doubled("\"" + s + "\"") == "\"\"" + Doubled(s) + "\"\""
  {
    DoubledSplit("\"", s);
    DoubledSplit("\"" + s, "\"");
  }

  lemma DoubledBraces(s: string)
    ensures Doubled("{" + s + "}") == "{" + Doubled(s) + "}"
  {
    DoubledSplit("{", s);
    DoubledSplit("{" + s, "}");
  }

  lemma OneMoreElement(values: seq<string>, i: nat)
    requires i < |values|
    ensures Doubled(Elements(values[..i+1]))
         == Doubled(Elements(values[..i])) + (if i > 0 then "," else "") + Doubled(Element(values[i]))
  {
    var done := Elements(values[..i]);
    ElementsSplit(values[..i], values[i]);
    assert values[..i+1] == values[..i] + [values[i]];
    if i > 0 {
      DoubledSplit(done, ",");
      DoubledSplit(done + ",", Element(values[i]));
    }
  }
}
