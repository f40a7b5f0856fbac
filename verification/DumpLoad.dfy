/** DUMP and LOAD: the text of a table, its printer and its reader. */
module DumpLoad {
  import opened Values
  import opened Tables
  import opened Text

  const WIDTH := 10

  /** What a dump is about. */
  datatype Image = Image(name: string, fields: seq<string>, rows: seq<Row>)

  // ---------------------------------------------------------------- the printer

  function Spaces(n: nat): (s: string)
    ensures |s| == n && Blank(s)
  {
    seq(n, _ => ' ')
  }

  /** std::setw(10): pads on the left, never cuts, and puts nothing between columns. */
  function Pad(s: string): (p: string)
    ensures |p| >= WIDTH
  {
    if |s| < WIDTH then Spaces(WIDTH - |s|) + s else s
  }

  function Pads(words: seq<string>): (ps: seq<string>)
    ensures |ps| == |words| && forall i :: 0 <= i < |words| ==> ps[i] == Pad(words[i])
  {
    seq(|words|, i requires 0 <= i < |words| => Pad(words[i]))
  }

  function Columns(words: seq<string>): string {
    Concat(Pads(words))
  }

  function Decimals(vals: seq<Int32>): (ds: seq<string>)
    ensures |ds| == |vals| && forall i :: 0 <= i < |vals| ==> ds[i] == Decimal(vals[i])
  {
    seq(|vals|, i requires 0 <= i < |vals| => Decimal(vals[i]))
  }

  function RowLine(r: Row): string {
    Columns([r.key] + Decimals(r.vals))
  }

  function Line(s: string): string {
    s + "\n"
  }

  function LinesOf(rows: seq<Row>): (ls: seq<string>)
    ensures |ls| == |rows| && forall i :: 0 <= i < |rows| ==> ls[i] == Line(RowLine(rows[i]))
  {
    seq(|rows|, i requires 0 <= i < |rows| => Line(RowLine(rows[i])))
  }

  function RowLines(rows: seq<Row>): string {
    Concat(LinesOf(rows))
  }

  function Heading(t: Image): string {
    Line(t.name + "\t" + Digits(|t.fields| + 1)) + Line(Columns(["KEY"] + t.fields))
  }

  function Dump(t: Image): string {
    Heading(t) + RowLines(t.rows)
  }

  /** operator<< */
  method PrintTable(table: Table) returns (buffer: string)
    requires table.Valid() && table.Rectangular()
    ensures buffer == Dump(Image(table.tableName, table.fields, table.data))
  {
    var metadata := Line(table.tableName + "\t" + Digits(|table.fields| + 1));
    var names := PrintColumns("KEY", table.fields);
    var body := PrintRows(table.data);
    buffer := metadata + names + body;
  }

  method PrintRows(data: seq<Row>) returns (body: string)
    ensures body == RowLines(data)
  {
    ghost var pieces := LinesOf(data);
    body := "";
    assert Concat(pieces[..0]) == "";
    for r := 0 to |data|
      invariant body == Concat(pieces[..r])
    {
      var line := PrintColumns(data[r].key, Decimals(data[r].vals));
      ConcatTake(pieces, r);
      body := body + line;
    }
    assert pieces[..|data|] == pieces;
  }

  /** One line: a first column and the others, each through setw. */
  method PrintColumns(first: string, others: seq<string>) returns (line: string)
    ensures line == Line(Columns([first] + others))
  {
    ghost var pieces := Pads([first] + others);
    ConcatTake(pieces, 0);
    line := Pad(first);
    for i := 0 to |others|
      invariant line == Concat(pieces[..i + 1])
    {
      ConcatTake(pieces, i + 1);
      line := line + Pad(others[i]);
    }
    assert pieces[..|pieces|] == pieces;
    line := line + "\n";
  }

  // ---------------------------------------------------------------- the reader

  function LineLength(s: string): (n: nat)
    ensures n <= |s| && '\n' !in s[..n]
    ensures n < |s| ==> s[n] == '\n'
  {
    if s == "" || s[0] == '\n' then 0 else 1 + LineLength(s[1..])
  }

  /** std::getline: None at the end of the stream. */
  function GetLine(s: string): (r: (Option<string>, string))
    ensures r.0.Some? ==> |r.1| < |s|
  {
    if s == "" then (None, "")
    else (Some(s[..LineLength(s)]), if LineLength(s) < |s| then s[LineLength(s) + 1..] else "")
  }

  /** All lines of a text. */
  function SplitLines(text: string): seq<string>
    decreases |text|
  {
    var (line, rest) := GetLine(text);
    if line.None? then [] else [line.value] + SplitLines(rest)
  }

  function DigitLength(s: string): (n: nat)
    ensures n <= |s| && Digital(s[..n])
    ensures n < |s| ==> !IsDigit(s[n])
  {
    if s == "" || !IsDigit(s[0]) then 0 else 1 + DigitLength(s[1..])
  }

  function Signed(s: string): (r: (bool, string))
    ensures |r.1| <= |s|
  {
    if s != "" && s[0] == '-' then (true, s[1..])
    else if s != "" && s[0] == '+' then (false, s[1..])
    else (false, s)
  }

  /** `stream >> int`: blanks, a sign, digits; None when there is no digit or the number is out of
      range. Reading stops at the first character that is not a digit. */
  function ReadInt(s: string): (r: (Option<Int32>, string))
    ensures |r.1| <= |s|
  {
    var (minus, t) := Signed(SkipSpaces(s));
    var n := DigitLength(t);
    var digits: int := NumberOf(t[..n]);
    var v := if minus then -digits else digits;
    if n > 0 && InRange(v) then (Some(v), t[n..]) else (None, t[n..])
  }

  const SIZE_MAX := 0x1_0000_0000_0000_0000

  /** `stream >> size_t`: as above, a minus sign negates modulo 2^64. */
  function ReadCount(s: string): Option<nat> {
    var (minus, t) := Signed(SkipSpaces(s));
    var n := DigitLength(t);
    var v := NumberOf(t[..n]);
    if n == 0 || v >= SIZE_MAX then None
    else if minus && v > 0 then Some(SIZE_MAX - v)
    else Some(v)
  }

  function ReadWords(s: string, n: nat): (r: Option<seq<string>>)
    ensures r.Some? ==> |r.value| == n
    decreases n
  {
    if n == 0 then Some([])
    else
      var (w, rest) := ReadWord(s);
      if w.None? then None else Prepend([w.value], ReadWords(rest, n - 1))
  }

  function ReadInts(s: string, n: nat): (r: Option<seq<Int32>>)
    ensures r.Some? ==> |r.value| == n
    decreases n
  {
    if n == 0 then Some([])
    else
      var (v, rest) := ReadInt(s);
      if v.None? then None else Prepend([v.value], ReadInts(rest, n - 1))
  }

  /** One line of data; what is left on the line after the last value is ignored. */
  function ReadRow(line: string, width: nat): Option<Row> {
    var (key, rest) := ReadWord(line);
    if key.None? then None
    else
      var vals := ReadInts(rest, width);
      if vals.None? then None else Some(Row(key.value, vals.value))
  }

  datatype LoadError =
    | NoMetadata | BadMetadata | DuplicatedTableName | NoFieldNames | NoKeyField | MultipleKey | BadRow | ConflictingKey

  /** Undefined: fields.front() of an empty deque, after a field count of 0. */
  datatype LoadResult<+T> = Loaded(value: T) | LoadFailed(error: LoadError) | Undefined

  /** The lines of data: up to the end of the text or an empty line. */
  function LoadRows(text: string, width: nat, rows: seq<Row>): LoadResult<seq<Row>>
    decreases |text|
  {
    var (line, rest) := GetLine(text);
    if line.None? || line.value == "" then Loaded(rows)
    else
      var row := ReadRow(line.value, width);
      if row.None? then LoadFailed(BadRow)
      else if row.value.key in Keys(rows) then LoadFailed(ConflictingKey)
      else LoadRows(rest, width, rows + [row.value])
  }

  /** The names of the fields after KEY. */
  function LoadNames(line: string, count: nat): LoadResult<seq<string>> {
    var fields := ReadWords(line, count);
    if fields.None? then LoadFailed(NoFieldNames)
    else if fields.value == [] then Undefined
    else if fields.value[0] != "KEY" then LoadFailed(NoKeyField)
    else if "KEY" in fields.value[1..] then LoadFailed(MultipleKey)
    else Loaded(fields.value[1..])
  }

  function LoadFields(name: string, count: nat, text: string): LoadResult<Image> {
    var (line, rest) := GetLine(text);
    if line.None? then LoadFailed(NoFieldNames)
    else
      match LoadNames(line.value, count)
      case LoadFailed(e) => LoadFailed(e)
      case Undefined => Undefined
      case Loaded(fields) =>
        match LoadRows(rest, |fields|, [])
        case Loaded(rows) => Loaded(Image(name, fields, rows))
        case LoadFailed(e) => LoadFailed(e)
        case Undefined => Undefined
  }

  /** Loading a text into a database that has tables of the names in `taken`. */
  function Load(text: string, taken: set<string>): LoadResult<Image> {
    var (line, rest) := GetLine(text);
    if line.None? then LoadFailed(NoMetadata)
    else
      var (name, more) := ReadWord(line.value);
      if name.None? || ReadCount(more).None? then LoadFailed(BadMetadata)
      else if name.value in taken then LoadFailed(DuplicatedTableName)
      else LoadFields(name.value, ReadCount(more).value, rest)
  }

  class Database {
    var tables: map<string, Table>

    constructor ()
      ensures tables == map[]
    {
      tables := map[];
    }

    /** registerTable with its testDuplicate; false stands for the DuplicatedTableName exception. */
    method RegisterTable(table: Table) returns (ok: bool)
      modifies this
      ensures ok <==> table.tableName !in old(tables)
      ensures tables == if ok then old(tables)[table.tableName := table] else old(tables)
    {
      if table.tableName in tables {
        return false;
      }
      tables := tables[table.tableName := table];
      return true;
    }

    /** loadTableFromStream: a text that loads adds exactly one table, with the image that the text
        has and an exact index; any other text changes nothing. */
    method LoadTableFromStream(text: string) returns (r: LoadResult<Table>)
      modifies this
      ensures var image := Load(text, old(tables.Keys));
        && (r.Loaded? <==> image.Loaded?)
        && (r.LoadFailed? <==> image.LoadFailed?) && (r.LoadFailed? ==> r.error == image.error)
        && (r.Loaded? ==>
              && fresh(r.value) && r.value.Valid() && r.value.Rectangular()
              && Image(r.value.tableName, r.value.fields, r.value.data) == image.value
              && tables == old(tables)[image.value.name := r.value])
        && (!r.Loaded? ==> tables == old(tables))
    {
      var (line, rest) := GetLine(text);
      if line.None? {
        return LoadFailed(NoMetadata);
      }
      var (tableName, more) := ReadWord(line.value);
      var fieldCount := ReadCount(more);
      if tableName.None? || fieldCount.None? {
        return LoadFailed(BadMetadata);
      }
      if tableName.value in tables {
        return LoadFailed(DuplicatedTableName);
      }
      r := LoadBody(tableName.value, fieldCount.value, rest);
      if r.Loaded? {
        var ok := RegisterTable(r.value);
      }
    }
  }

  /** From the line of field names on; the new table is not registered yet. */
  method LoadBody(tableName: string, fieldCount: nat, text: string) returns (r: LoadResult<Table>)
    ensures var image := LoadFields(tableName, fieldCount, text);
      && (r.Loaded? <==> image.Loaded?)
      && (r.LoadFailed? <==> image.LoadFailed?) && (r.LoadFailed? ==> r.error == image.error)
      && (r.Loaded? ==> fresh(r.value) && r.value.Valid() && r.value.Rectangular())
      && (r.Loaded? ==> Image(r.value.tableName, r.value.fields, r.value.data) == image.value)
    ensures r.Loaded? ==> r.value.tableName == tableName
  {
    var (heading, body) := GetLine(text);
    if heading.None? {
      return LoadFailed(NoFieldNames);
    }
    var fields := NewTable(tableName, heading.value, fieldCount);
    match fields {
      case LoadFailed(e) => return LoadFailed(e);
      case Undefined => return Undefined;
      case Loaded(table) =>
        var error := FillTable(body, |table.fields|, table);
        if error.Some? {
          return LoadFailed(error.value);
        }
        return Loaded(table);
    }
  }

  /** The empty table with the fields that the line names. */
  method NewTable(tableName: string, line: string, fieldCount: nat) returns (r: LoadResult<Table>)
    ensures match LoadNames(line, fieldCount)
      case LoadFailed(e) => r == LoadFailed(e)
      case Undefined => r.Undefined?
      case Loaded(fields) =>
        r.Loaded? && fresh(r.value) && r.value.Valid() && r.value.data == []
        && r.value.tableName == tableName && r.value.fields == fields
  {
    var fields := ReadFieldNames(line, fieldCount);
    if fields.None? {
      return LoadFailed(NoFieldNames);
    }
    if fields.value == [] {
      return Undefined;
    }
    if fields.value[0] != "KEY" {
      return LoadFailed(NoKeyField);
    }
    var table := Table.Create(tableName, fields.value[1..]);
    if table.None? {
      return LoadFailed(MultipleKey);
    }
    return Loaded(table.value);
  }

  method ReadFieldNames(line: string, fieldCount: nat) returns (fields: Option<seq<string>>)
    ensures fields == ReadWords(line, fieldCount)
  {
    var stream, read := line, [];
    PrependNone(ReadWords(line, fieldCount));
    for i := 0 to fieldCount
      invariant |read| == i
      invariant ReadWords(line, fieldCount) == Prepend(read, ReadWords(stream, fieldCount - i))
    {
      var (field, rest) := ReadWord(stream);
      if field.None? {
        return None;
      }
      PrependOne(read, field.value, ReadWords(rest, fieldCount - i - 1));
      stream, read := rest, read + [field.value];
    }
    assert read + [] == read;
    return Some(read);
  }

  method ReadTuple(line: string, width: nat) returns (tuple: Option<seq<Int32>>)
    ensures tuple == ReadInts(line, width)
  {
    var stream, read := line, [];
    PrependNone(ReadInts(line, width));
    for i := 0 to width
      invariant |read| == i
      invariant ReadInts(line, width) == Prepend(read, ReadInts(stream, width - i))
    {
      var (value, rest) := ReadInt(stream);
      if value.None? {
        return None;
      }
      PrependOne(read, value.value, ReadInts(rest, width - i - 1));
      stream, read := rest, read + [value.value];
    }
    assert read + [] == read;
    return Some(read);
  }

  method FillTable(text: string, width: nat, table: Table) returns (error: Option<LoadError>)
    requires table.Valid() && table.Rectangular() && width == |table.fields| && table.data == []
    modifies table`data, table`keyMap
    ensures match LoadRows(text, width, [])
      case Loaded(rows) => error.None? && table.Valid() && table.Rectangular() && table.data == rows
      case LoadFailed(e) => error == Some(e)
      case Undefined => false
  {
    var stream := text;
    while true
      invariant table.Valid() && table.Rectangular()
      invariant LoadRows(text, width, []) == LoadRows(stream, width, table.data)
      decreases |stream|
    {
      var (line, rest) := GetLine(stream);
      if line.None? || line.value == "" {
        return None;
      }
      var (key, more) := ReadWord(line.value);
      if key.None? {
        return Some(BadRow);
      }
      var tuple := ReadTuple(more, width);
      if tuple.None? {
        return Some(BadRow);
      }
      var ok := table.InsertByKey(key.value, tuple.value);
      if !ok {
        return Some(ConflictingKey);
      }
      stream := rest;
    }
  }
}
