/** What a dump looks like line by line, and what the loader makes of a table text. */
module TableText {
  import opened Values
  import opened Text
  import opened DumpLoad
  import opened RoundTrip
  import opened Listings

  // ---------------------------------------------------------------- the dump

  /** Right-aligned in ten columns. */
  lemma PadMeans(w: string)
    ensures |Pad(w)| == if |w| < 10 then 10 else |w|
    ensures Pad(w)[|Pad(w)| - |w|..] == w
    ensures forall i :: 0 <= i < |Pad(w)| - |w| ==> Pad(w)[i] == ' '
  {
  }

  /** The padded words one after the other. */
  function Aligned(words: seq<string>): string {
    if words == [] then "" else Pad(words[0]) + Aligned(words[1..])
  }

  lemma {:induction false} ColumnsAligned(words: seq<string>)
    ensures Columns(words) == Aligned(words)
  {
    if words != [] {
      ColumnsCons(words);
      ColumnsAligned(words[1..]);
    }
  }

  ghost predicate LinesAre(lines: seq<string>, rows: seq<Row>) {
    |lines| == |rows| && forall i :: 0 <= i < |rows| ==> lines[i] == RowLine(rows[i])
  }

  lemma LinesAreCons(lines: seq<string>, rest: seq<string>, rows: seq<Row>)
    requires rows != [] && lines == [RowLine(rows[0])] + rest && LinesAre(rest, rows[1..])
    ensures LinesAre(lines, rows)
  {
  }

  lemma {:induction false} RowLinesSplit(rows: seq<Row>)
    requires forall i :: 0 <= i < |rows| ==> Clean(rows[i].key)
    ensures LinesAre(SplitLines(RowLines(rows)), rows)
  {
    if rows != [] {
      RowLinesCons(rows);
      RowLineIsLine(rows[0]);
      FirstSplits(RowLine(rows[0]), RowLines(rows[1..]));
      RowLinesSplit(rows[1..]);
      LinesAreCons(SplitLines(RowLines(rows)), SplitLines(RowLines(rows[1..])), rows);
    }
  }

  lemma MetadataIsLine(t: Image)
    requires Regular(t)
    ensures '\n' !in t.name + "\t" + Digits(|t.fields| + 1)
    ensures SignedValue(Digits(|t.fields| + 1)) == |t.fields| + 1
  {
    var ds := Digits(|t.fields| + 1);
    assert forall i :: 0 <= i < |ds| ==> IsDigit(ds[i]);
    assert Decimal(|t.fields| + 1) == ds;
    DecimalReadsBack(|t.fields| + 1);
  }

  lemma SplitTwo(first: string, second: string, rest: string)
    requires '\n' !in first && '\n' !in second
    ensures SplitLines(Line(first) + (Line(second) + rest)) == [first, second] + SplitLines(rest)
  {
    FirstSplits(first, Line(second) + rest);
    FirstSplits(second, rest);
    Two(first, second, SplitLines(rest));
  }

  lemma Two<T>(x: T, y: T, rest: seq<T>)
    ensures [x] + ([y] + rest) == [x, y] + rest
  {
  }

  lemma RowsAligned(rows: seq<Row>)
    requires forall i :: 0 <= i < |rows| ==> Clean(rows[i].key)
    ensures var lines := SplitLines(RowLines(rows));
      |lines| == |rows| && forall i :: 0 <= i < |rows| ==> lines[i] == Aligned([rows[i].key] + Decimals(rows[i].vals))
  {
    RowLinesSplit(rows);
    forall i | 0 <= i < |rows| ensures RowLine(rows[i]) == Aligned([rows[i].key] + Decimals(rows[i].vals)) {
      ColumnsAligned([rows[i].key] + Decimals(rows[i].vals));
    }
  }

  /** A dump has the name and the number of columns in its first line, the aligned names in the second,
      and then one line a row, in the order of the rows, with the aligned key and values. */
  lemma DumpLines(t: Image)
    requires Regular(t)
    ensures SplitLines(Dump(t)) ==
      [t.name + "\t" + Digits(|t.fields| + 1), Aligned(["KEY"] + t.fields)] + SplitLines(RowLines(t.rows))
    ensures SignedValue(Digits(|t.fields| + 1)) == |t.fields| + 1
    ensures |SplitLines(RowLines(t.rows))| == |t.rows|
    ensures forall i :: 0 <= i < |t.rows| ==>
      SplitLines(RowLines(t.rows))[i] == Aligned([t.rows[i].key] + Decimals(t.rows[i].vals))
  {
    DumpIs(t);
    MetadataIsLine(t);
    FieldNamesRoundTrip(t);
    ColumnsAligned(["KEY"] + t.fields);
    SplitTwo(t.name + "\t" + Digits(|t.fields| + 1), Columns(["KEY"] + t.fields), RowLines(t.rows));
    RowsAligned(t.rows);
  }

  // ---------------------------------------------------------------- the loader

  lemma SignedMeans(sign: string, ds: string, rest: string)
    requires sign in ["", "+", "-"] && ds != "" && Digital(ds)
    ensures Signed(sign + ds + rest) == (sign == "-", ds + rest)
  {
    var t := sign + ds + rest;
    assert IsDigit(ds[0]);
    if sign == "" {
      assert t == ds + rest && t[0] == ds[0];
    } else {
      assert t[0] == sign[0] && t[1..] == ds + rest;
    }
  }

  lemma SignedSolid(sign: string, ds: string, rest: string)
    requires sign in ["", "+", "-"] && ds != "" && Digital(ds)
    ensures sign + ds + rest != "" && !IsSpace((sign + ds + rest)[0])
  {
    assert IsDigit(ds[0]);
    assert (sign + ds + rest)[0] == if sign == "" then ds[0] else sign[0];
  }

  /** A number is read with an optional sign, up to the first character that is no digit, and refused if
      it leaves the range of int. */
  lemma ReadIntMeans(pad: string, sign: string, ds: string, rest: string)
    requires Blank(pad) && sign in ["", "+", "-"] && ds != "" && Digital(ds) && (rest != "" ==> !IsDigit(rest[0]))
    ensures var v := if sign == "-" then -PlaceValue(ds) else PlaceValue(ds);
      ReadInt(pad + (sign + ds + rest)) == (if -2_147_483_648 <= v <= 2_147_483_647 then Some(v) else None, rest)
  {
    SignedSolid(sign, ds, rest);
    SkipBlank(pad, sign + ds + rest);
    SignedMeans(sign, ds, rest);
    DigitRun(ds, rest);
    NumberIsPlaceValue(ds);
    Halves(ds, rest);
  }

  /** A count is read in the same way; a minus sign takes it from 2^64. */
  lemma ReadCountMeans(pad: string, sign: string, ds: string)
    requires Blank(pad) && sign in ["", "+", "-"] && ds != "" && Digital(ds)
    ensures ReadCount(pad + (sign + ds + "")) ==
      var v := PlaceValue(ds);
      if v >= 0x1_0000_0000_0000_0000 then None
      else if sign == "-" && v > 0 then Some(0x1_0000_0000_0000_0000 - v)
      else Some(v)
  {
    SignedSolid(sign, ds, "");
    SkipBlank(pad, sign + ds + "");
    SignedMeans(sign, ds, "");
    DigitRun(ds, "");
    NumberIsPlaceValue(ds);
    Halves(ds, "");
  }

  lemma Halves(a: string, b: string)
    ensures (a + b)[..|a|] == a && (a + b)[|a|..] == b
  {
  }

  lemma {:induction false} WordsRead(ws: seq<string>, pad: string)
    requires Blank(pad) && forall i :: 0 <= i < |ws| ==> Clean(ws[i])
    ensures ReadWords(pad + Spaced(ws), |ws|) == Some(ws)
  {
    if |ws| == 1 {
      ReadPadded(pad, ws[0], "");
      assert pad + ws[0] + "" == pad + Spaced(ws);
      assert [ws[0]] + [] == ws;
    } else if |ws| > 1 {
      var rest := " " + Spaced(ws[1..]);
      ReadPadded(pad, ws[0], rest);
      assert pad + Spaced(ws) == pad + ws[0] + rest;
      WordsRead(ws[1..], " ");
      assert [ws[0]] + ws[1..] == ws;
    }
  }

  /** A header loads if its name is free and exactly its first field is called KEY; these are the errors
      in the order in which they are found. */
  lemma HeadMeans(name: string, names: seq<string>, body: string, taken: set<string>)
    requires Clean(name) && names != [] && |names| < SIZE_MAX
    requires '\n' !in Spaced(names) && forall i :: 0 <= i < |names| ==> Clean(names[i])
    ensures Load(Line(name + "\t" + Digits(|names|)) + (Line(Spaced(names)) + body), taken) ==
      if name in taken then LoadFailed(DuplicatedTableName)
      else if names[0] != "KEY" then LoadFailed(NoKeyField)
      else if "KEY" in names[1..] then LoadFailed(MultipleKey)
      else match LoadRows(body, |names| - 1, [])
        case Loaded(rows) => Loaded(Image(name, names[1..], rows))
        case LoadFailed(e) => LoadFailed(e)
        case Undefined => Undefined
  {
    MetadataLoads(name, |names|, Line(Spaced(names)) + body, taken);
    if name !in taken {
      NamesLoad(name, names, body);
    }
  }

  lemma MetadataLoads(name: string, count: nat, rest: string, taken: set<string>)
    requires Clean(name) && count < SIZE_MAX
    ensures Load(Line(name + "\t" + Digits(count)) + rest, taken) ==
      if name in taken then LoadFailed(DuplicatedTableName) else LoadFields(name, count, rest)
  {
    var ds := Digits(count);
    assert forall i :: 0 <= i < |ds| ==> IsDigit(ds[i]);
    assert '\n' !in name + "\t" + ds;
    GetLineBack(name + "\t" + ds, rest);
    ReadPadded("", name, "\t" + ds);
    assert "" + name + ("\t" + ds) == name + "\t" + ds;
    CountReadsBack(count);
  }

  lemma NamesLoad(name: string, names: seq<string>, body: string)
    requires names != [] && '\n' !in Spaced(names) && forall i :: 0 <= i < |names| ==> Clean(names[i])
    ensures LoadFields(name, |names|, Line(Spaced(names)) + body) ==
      if names[0] != "KEY" then LoadFailed(NoKeyField)
      else if "KEY" in names[1..] then LoadFailed(MultipleKey)
      else match LoadRows(body, |names| - 1, [])
        case Loaded(rows) => Loaded(Image(name, names[1..], rows))
        case LoadFailed(e) => LoadFailed(e)
        case Undefined => Undefined
  {
    GetLineBack(Spaced(names), body);
    WordsRead(names, "");
    assert "" + Spaced(names) == Spaced(names);
    NamesMean(Spaced(names), names);
    BodyLoads(name, |names|, Line(Spaced(names)) + body, Spaced(names), body);
  }

  lemma NamesMean(line: string, names: seq<string>)
    requires names != [] && ReadWords(line, |names|) == Some(names)
    ensures LoadNames(line, |names|) ==
      if names[0] != "KEY" then LoadFailed(NoKeyField)
      else if "KEY" in names[1..] then LoadFailed(MultipleKey)
      else Loaded(names[1..])
  {
  }

  lemma BodyLoads(name: string, count: nat, text: string, line: string, rest: string)
    requires GetLine(text) == (Some(line), rest)
    ensures LoadNames(line, count).LoadFailed? ==> LoadFields(name, count, text) == LoadFailed(LoadNames(line, count).error)
    ensures LoadNames(line, count).Loaded? ==>
      var fields := LoadNames(line, count).value;
      LoadFields(name, count, text) ==
        match LoadRows(rest, |fields|, [])
        case Loaded(rows) => Loaded(Image(name, fields, rows))
        case LoadFailed(e) => LoadFailed(e)
        case Undefined => Undefined
  {
  }

  lemma EmptyText(taken: set<string>)
    ensures Load("", taken) == LoadFailed(NoMetadata)
  {
  }

  /** A line of blanks alone is not an empty line but a row without a key. */
  lemma BlankRow(line: string, rest: string, width: nat, done: seq<Row>)
    requires line != "" && Blank(line) && '\n' !in line
    ensures LoadRows(Line(line) + rest, width, done) == LoadFailed(BadRow)
  {
    GetLineBack(line, rest);
    SkipBlank(line, "");
    assert line + "" == line;
  }

  /** Rows are read up to the first empty line or the end, and a key may not come twice. */
  lemma RowsMean(r: Row, rest: string, done: seq<Row>)
    requires Clean(r.key) && RowFits(r.vals)
    ensures LoadRows(Line(RowLine(r)) + rest, |r.vals|, done) ==
      if exists i :: 0 <= i < |done| && done[i].key == r.key then LoadFailed(ConflictingKey) else LoadRows(rest, |r.vals|, done + [r])
    ensures LoadRows(Line("") + rest, |r.vals|, done) == Loaded(done) == LoadRows("", |r.vals|, done)
  {
    RowLineIsLine(r);
    GetLineBack(RowLine(r), rest);
    GetLineBack("", rest);
    RowRoundTrip(r);
  }
}
