/** What the encoder's output means to the server. CSV follows section 2 of RFC 4180,
    rules 5 to 7, with a line feed as the row end and the unquoted sentinel as NULL.
    Arrays follow section 8.15.6 of the PostgreSQL manual, for one dimension. */
module CopyReader {
  import opened Prelude
  import opened CopyWriter

  // ---- CSV -----------------------------------------------------------------------------------

  datatype Field = Null | Text(text: string)

  /** After an opening quote: the text up to the closing quote, and what follows it. Two
      quotes stand for one. */
  function ReadQuoted(s: string): (r: Option<(string, string)>)
    ensures r.Some? ==> |r.value.1| < |s|
  {
    if s == [] then None
    else if s[0] == '"' && (|s| == 1 || s[1] != '"') then Some(("", s[1..]))
    else
      var rest := ReadQuoted(if s[0] == '"' then s[2..] else s[1..]);
      if rest.None? then None else Some(([s[0]] + rest.value.0, rest.value.1))
  }

  /** An unquoted field ends before a comma or a row end, and holds no quote and no
      carriage return. */
  function ReadPlain(s: string): (r: Option<(string, string)>)
    ensures r.Some? ==> |r.value.1| <= |s|
  {
    if s == [] || s[0] == '"' || s[0] == '\r' then None
    else if s[0] == ',' || s[0] == '\n' then Some(("", s))
    else
      var rest := ReadPlain(s[1..]);
      if rest.None? then None else Some(([s[0]] + rest.value.0, rest.value.1))
  }

  function ReadField(s: string): (r: Option<(Field, string)>)
    ensures r.Some? ==> |r.value.1| <= |s|
  {
    if s != [] && s[0] == '"' then
      var q := ReadQuoted(s[1..]);
      if q.None? then None else Some((Text(q.value.0), q.value.1))
    else
      var p := ReadPlain(s);
      if p.None? then None else Some((if p.value.0 == SENTINEL then Null else Text(p.value.0), p.value.1))
  }

  /** The fields of one record, and what follows its row end. */
  function ReadRecord(s: string): (r: Option<(seq<Field>, string)>)
    ensures r.Some? ==> |r.value.1| < |s|
    decreases |s|
  {
    var f := ReadField(s);
    if f.None? || f.value.1 == [] then None
    else if f.value.1[0] == '\n' then Some(([f.value.0], f.value.1[1..]))
    else if f.value.1[0] == ',' then
      var rest := ReadRecord(f.value.1[1..]);
      if rest.None? then None else Some(([f.value.0] + rest.value.0, rest.value.1))
    else None
  }

  function ReadRecords(s: string): Option<seq<seq<Field>>>
    decreases |s|
  {
    if s == [] then Some([])
    else
      var first := ReadRecord(s);
      if first.None? then None
      else
        var rest := ReadRecords(first.value.1);
        if rest.None? then None else Some([first.value.0] + rest.value)
  }

  // ---- Arrays ----------------------------------------------------------------------------------

  predicate IsSpace(c: char) {
    c == ' ' || c == '\t' || c == '\n' || c == '\r' || c == '\U{000B}' || c == '\U{000C}'
  }

  function TrimLeft(s: string): (r: string)
    ensures |r| <= |s|
  {
    if s != [] && IsSpace(s[0]) then TrimLeft(s[1..]) else s
  }

  function TrimRight(s: string): (r: string)
    ensures |r| <= |s|
  {
    if s != [] && IsSpace(s[|s|-1]) then TrimRight(s[..|s|-1]) else s
  }

  function Trim(s: string): string {
    TrimRight(TrimLeft(s))
  }

  /** After an opening quote; a backslash takes the next character literally. */
  function ReadEscaped(s: string): (r: Option<(string, string)>)
    ensures r.Some? ==> |r.value.1| < |s|
  {
    if s == [] then None
    else if s[0] == '"' then Some(("", s[1..]))
    else if s[0] == '\\' && |s| == 1 then None
    else
      var c := if s[0] == '\\' then s[1] else s[0];
      var rest := ReadEscaped(if s[0] == '\\' then s[2..] else s[1..]);
      if rest.None? then None else Some(([c] + rest.value.0, rest.value.1))
  }

  /** An unquoted element up to its comma or brace. Backslashes in unquoted elements and
      nested arrays, which the encoder never writes, are refused. */
  function ReadBare(s: string): (r: Option<(string, string)>)
    ensures r.Some? ==> |r.value.1| <= |s|
  {
    if s == [] || s[0] == '"' || s[0] == '{' || s[0] == '\\' then None
    else if s[0] == ',' || s[0] == '}' then Some(("", s))
    else
      var rest := ReadBare(s[1..]);
      if rest.None? then None else Some(([s[0]] + rest.value.0, rest.value.1))
  }

  /** An element, NULL if it is that word unquoted; white space around it is ignored, and
      an unquoted element must have something else. */
  function ReadElement(s: string): (r: Option<(Option<string>, string)>)
    ensures r.Some? ==> |r.value.1| <= |s|
  {
    var t := TrimLeft(s);
    if t != [] && t[0] == '"' then
      var q := ReadEscaped(t[1..]);
      if q.None? then None else Some((Some(q.value.0), TrimLeft(q.value.1)))
    else
      var b := ReadBare(t);
      if b.None? || TrimRight(b.value.0) == "" then None
      else
        var v := TrimRight(b.value.0);
        Some((if IsNullWord(v) then None else Some(v), b.value.1))
  }

  function ReadElements(s: string): Option<seq<Option<string>>>
    decreases |s|
  {
    var e := ReadElement(s);
    if e.None? || e.value.1 == [] then None
    else if e.value.1[0] == ',' then
      var rest := ReadElements(e.value.1[1..]);
      if rest.None? then None else Some([e.value.0] + rest.value)
    else if e.value.1[0] == '}' && TrimLeft(e.value.1[1..]) == [] then Some([e.value.0])
    else None
  }

  function ReadArray(s: string): Option<seq<Option<string>>> {
    var t := TrimLeft(s);
    if t == [] || t[0] != '{' then None
    else
      var body := TrimLeft(t[1..]);
      if body != [] && body[0] == '}' && TrimLeft(body[1..]) == [] then Some([]) else ReadElements(t[1..])
  }

  // ---- Columns -----------------------------------------------------------------------------------

  function ReadDigits(s: string): Option<nat> {
    if s == [] then None
    else
      var d := s[|s|-1] as int - '0' as int;
      if d < 0 || d > 9 then None
      else if |s| == 1 then Some(d)
      else
        var rest := ReadDigits(s[..|s|-1]);
        if rest.None? then None else Some(rest.value * 10 + d)
  }

  function ReadDecimal(s: string): Option<int> {
    var negative := s != [] && s[0] == '-';
    match ReadDigits(if negative then s[1..] else s)
    case None => None
    case Some(n) => Some(if negative then 0 - n else n)
  }

  function ReadHexDigit(c: char): Option<nat> {
    if '0' <= c <= '9' then Some(c as int - '0' as int)
    else if 'a' <= c <= 'f' then Some(c as int - 'a' as int + 10)
    else None
  }

  function ReadHex(s: string): Option<seq<Byte>> {
    if s == [] then Some([])
    else if |s| == 1 then None
    else
      var high, low, rest := ReadHexDigit(s[0]), ReadHexDigit(s[1]), ReadHex(s[2..]);
      if high.None? || low.None? || rest.None? || high.value > 15 || low.value > 15 then None
      else Some([(high.value * 16 + low.value) as Byte] + rest.value)
  }

  function ReadBytes(s: string): Option<seq<Byte>> {
    if |s| < 2 || s[0] != '\\' || s[1] != 'x' then None else ReadHex(s[2..])
  }

  /** A staged row. An array element may be NULL. */
  datatype StagedRow = StagedRow(
    kind: string,
    queue: string,
    args: string,
    state: string,
    priority: int,
    maxAttempts: int,
    runAt: Option<string>,
    metadata: string,
    tags: seq<Option<string>>,
    uniqueKey: Option<seq<Byte>>,
    uniqueStates: Option<string>,
    orderingKey: Option<seq<Byte>>)

  function OptionalText(f: Field): Option<string> {
    if f.Null? then None else Some(f.text)
  }

  /** A column that may be NULL; a malformed value is an error. */
  function OptionalBytes(f: Field): Option<Option<seq<Byte>>> {
    if f.Null? then Some(None)
    else
      var b := ReadBytes(f.text);
      if b.None? then None else Some(Some(b.value))
  }

  /** The twelve columns of the staging table, most of them `NOT NULL`. */
  function ReadRow(fields: seq<Field>): Option<StagedRow> {
    if |fields| != 12 || fields[0].Null? || fields[1].Null? || fields[2].Null? || fields[3].Null?
       || fields[4].Null? || fields[5].Null? || fields[7].Null? || fields[8].Null? then None
    else
      var priority, maxAttempts := ReadDecimal(fields[4].text), ReadDecimal(fields[5].text);
      var tags, uniqueKey, orderingKey :=
        ReadArray(fields[8].text), OptionalBytes(fields[9]), OptionalBytes(fields[11]);
      if priority.None? || maxAttempts.None? || tags.None? || uniqueKey.None? || orderingKey.None? then None
      else
        Some(StagedRow(fields[0].text, fields[1].text, fields[2].text, fields[3].text,
                       priority.value, maxAttempts.value,
                       OptionalText(fields[6]), fields[7].text, tags.value, uniqueKey.value, OptionalText(fields[10]),
                       orderingKey.value))
  }

  function ReadRows(records: seq<seq<Field>>): Option<seq<StagedRow>> {
    if records == [] then Some([])
    else
      var first, rest := ReadRow(records[0]), ReadRows(records[1..]);
      if first.None? || rest.None? then None else Some([first.value] + rest.value)
  }

  /** What COPY stages; one malformed row fails the whole command. */
  function CopyStages(text: string): Option<seq<StagedRow>> {
    var records := ReadRecords(text);
    if records.None? then None else ReadRows(records.value)
  }
}
