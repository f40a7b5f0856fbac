/** LOAD reads back exactly what DUMP wrote if and only if the columns stay apart. */
module RoundTrip {
  import opened Values
  import opened Tables
  import opened Text
  import opened DumpLoad

  /** What every table made of tokens satisfies. */
  ghost predicate Regular(t: Image) {
    && Clean(t.name)
    && |t.fields| + 1 < SIZE_MAX
    && (forall i :: 0 <= i < |t.fields| ==> Clean(t.fields[i]) && t.fields[i] != "KEY")
    && UniqueKeys(t.rows)
    && forall i :: 0 <= i < |t.rows| ==> Clean(t.rows[i].key) && |t.rows[i].vals| == |t.fields|
  }

  /** The columns of a row stay apart: the first value leaves room for a blank after the key, and no
      later value starts with a digit right after the digits of the one before. */
  predicate RowFits(vals: seq<Int32>) {
    forall i :: 0 <= i < |vals| ==> vals[i] <= 999_999_999 && (i == 0 ==> -99_999_999 <= vals[i])
  }

  predicate Fits(t: Image) {
    && ShortNames(t)
    && AllFit(t.rows)
  }

  // ---------------------------------------------------------------- lengths of numbers

  lemma {:induction false} DigitsLength(n: nat, k: nat)
    requires k > 0
    ensures |Digits(n)| <= k <==> n < Pow10(k)
  {
    if k == 1 {
      assert Pow10(1) == 10 * Pow10(0) == 10;
    } else if n < 10 {
      PowAtLeast(k);
    } else {
      DigitsLength(n / 10, k - 1);
    }
  }

  lemma {:induction false} PowAtLeast(k: nat)
    requires k > 0
    ensures Pow10(k) >= 10
  {
    if k > 1 { PowAtLeast(k - 1); } else { assert Pow10(0) == 1; }
  }

  lemma DecimalShort(v: Int32)
    ensures |Decimal(v)| <= 9 <==> -99_999_999 <= v <= 999_999_999
    ensures v < 0 || v <= 999_999_999 <==> (|Decimal(v)| <= 9 || !IsDigit(Decimal(v)[0]))
  {
    assert Pow10(4) == 10 * Pow10(3) == 100 * Pow10(2) == 1000 * Pow10(1) == 10_000 * Pow10(0) == 10_000;
    assert Pow10(8) == 10 * Pow10(7) == 100 * Pow10(6) == 1000 * Pow10(5) == 10_000 * Pow10(4);
    assert Pow10(9) == 10 * Pow10(8);
    DigitsLength(Magnitude(v), if v < 0 then 8 else 9);
  }

  // ---------------------------------------------------------------- padded columns

  function Padding(s: string): (pad: string)
    ensures Blank(pad) && Pad(s) == pad + s
    ensures |s| < WIDTH ==> pad != ""
  {
    if |s| < WIDTH then Spaces(WIDTH - |s|) else ""
  }

  lemma ColumnsCons(words: seq<string>)
    requires words != []
    ensures Columns(words) == Pad(words[0]) + Columns(words[1..])
  {
    ConcatCons(Pads(words));
    assert Pads(words)[1..] == Pads(words[1..]);
  }

  lemma ColumnsSnoc(words: seq<string>)
    requires words != []
    ensures Columns(words) == Columns(words[..|words| - 1]) + Pad(words[|words| - 1])
  {
    assert Pads(words)[..|words| - 1] == Pads(words[..|words| - 1]);
  }

  lemma RowLinesCons(rows: seq<Row>)
    requires rows != []
    ensures RowLines(rows) == Line(RowLine(rows[0])) + RowLines(rows[1..])
  {
    ConcatCons(LinesOf(rows));
    assert LinesOf(rows)[1..] == LinesOf(rows[1..]);
  }

  /** Where the next column begins. */
  lemma ColumnsStart(words: seq<string>)
    requires words != [] && words[0] != ""
    ensures Columns(words) != "" && Columns(words)[0] == if |words[0]| < WIDTH then ' ' else words[0][0]
  {
    ColumnsCons(words);
    assert Pad(words[0])[0] == if |words[0]| < WIDTH then ' ' else words[0][0];
  }

  lemma ReadWordsCons(s: string, words: seq<string>, rest: string)
    requires words != [] && ReadWord(s) == (Some(words[0]), rest) && ReadWords(rest, |words| - 1) == Some(words[1..])
    ensures ReadWords(s, |words|) == Some(words)
  {
    assert [words[0]] + words[1..] == words;
  }

  lemma {:induction false} ReadColumns(words: seq<string>)
    requires forall i :: 0 <= i < |words| ==> Clean(words[i])
    requires forall i :: 1 <= i < |words| ==> |words[i]| < WIDTH
    ensures ReadWords(Columns(words), |words|) == Some(words)
  {
    if words != [] {
      var rest := Columns(words[1..]);
      ColumnsCons(words);
      if |words| > 1 { ColumnsStart(words[1..]); }
      ReadPadded(Padding(words[0]), words[0], rest);
      ReadColumns(words[1..]);
      ReadWordsCons(Columns(words), words, rest);
    }
  }

  // ---------------------------------------------------------------- reading numbers back

  lemma {:induction false} DigitRun(ds: string, rest: string)
    requires Digital(ds) && (rest != "" ==> !IsDigit(rest[0]))
    ensures DigitLength(ds + rest) == |ds|
  {
    if ds == "" {
      assert ds + rest == rest;
    } else {
      DigitRun(ds[1..], rest);
      assert (ds + rest)[1..] == ds[1..] + rest;
    }
  }

  lemma ReadIntPadded(pad: string, v: Int32, rest: string)
    requires Blank(pad) && (rest != "" ==> !IsDigit(rest[0]))
    ensures ReadInt(pad + Decimal(v) + rest) == (Some(v), rest)
  {
    var ds := Digits(Magnitude(v));
    DecimalClean(v);
    Assoc(pad, Decimal(v), rest);
    SkipBlank(pad, Decimal(v) + rest);
    if v < 0 {
      assert (Decimal(v) + rest)[1..] == ds + rest;
    } else {
      assert IsDigit(ds[0]);
    }
    DigitRun(ds, rest);
    NumberOfDigits(Magnitude(v));
    assert (ds + rest)[..|ds|] == ds && (ds + rest)[|ds|..] == rest;
  }

  /** A line of numbers goes on without a digit when the next one is not too long. */
  lemma DecimalsStart(vals: seq<Int32>)
    requires vals != [] && vals[0] <= 999_999_999
    ensures Columns(Decimals(vals)) != "" && !IsDigit(Columns(Decimals(vals))[0])
  {
    ColumnsStart(Decimals(vals));
    DecimalShort(vals[0]);
  }

  lemma DecimalsCons(vals: seq<Int32>)
    requires vals != []
    ensures Columns(Decimals(vals)) == Padding(Decimal(vals[0])) + Decimal(vals[0]) + Columns(Decimals(vals[1..]))
  {
    ColumnsCons(Decimals(vals));
    assert Decimals(vals)[1..] == Decimals(vals[1..]);
  }

  lemma ReadIntsCons(s: string, vals: seq<Int32>, rest: string)
    requires vals != [] && ReadInt(s) == (Some(vals[0]), rest) && ReadInts(rest, |vals| - 1) == Some(vals[1..])
    ensures ReadInts(s, |vals|) == Some(vals)
  {
    assert [vals[0]] + vals[1..] == vals;
  }

  lemma {:induction false} ReadDecimals(vals: seq<Int32>)
    requires forall i :: 1 <= i < |vals| ==> vals[i] <= 999_999_999
    ensures ReadInts(Columns(Decimals(vals)), |vals|) == Some(vals)
  {
    if vals != [] {
      DecimalsCons(vals);
      if |vals| > 1 {
        DecimalsStart(vals[1..]);
      }
      ReadIntPadded(Padding(Decimal(vals[0])), vals[0], Columns(Decimals(vals[1..])));
      ReadDecimals(vals[1..]);
      ReadIntsCons(Columns(Decimals(vals)), vals, Columns(Decimals(vals[1..])));
    }
  }

  lemma RowLineCons(r: Row)
    ensures RowLine(r) == Padding(r.key) + r.key + Columns(Decimals(r.vals))
  {
    var words := [r.key] + Decimals(r.vals);
    ColumnsCons(words);
    assert words[1..] == Decimals(r.vals);
  }

  /** With room for a blank in the first column of values, the key comes off the line whole. */
  lemma KeyReadsBack(r: Row)
    requires Clean(r.key) && (r.vals != [] ==> |Decimal(r.vals[0])| < WIDTH)
    ensures ReadWord(RowLine(r)) == (Some(r.key), Columns(Decimals(r.vals)))
  {
    RowLineCons(r);
    if r.vals != [] {
      ColumnsStart(Decimals(r.vals));
    }
    ReadPadded(Padding(r.key), r.key, Columns(Decimals(r.vals)));
  }

  lemma RowReadsBack(r: Row)
    requires Clean(r.key) && RowFits(r.vals)
    ensures ReadRow(RowLine(r), |r.vals|) == Some(r)
  {
    if r.vals != [] {
      DecimalShort(r.vals[0]);
    }
    KeyReadsBack(r);
    ReadDecimals(r.vals);
  }

  // ---------------------------------------------------------------- counting runs of characters

  /** Number of maximal runs of characters with property p, counted at their ends. */
  function Runs(p: char -> bool, s: string): nat {
    if s == "" then 0 else (if p(s[0]) && (|s| == 1 || !p(s[1])) then 1 else 0) + Runs(p, s[1..])
  }

  /** Runs that meet become one. */
  lemma {:induction false} RunsConcat(p: char -> bool, a: string, b: string)
    ensures Runs(p, a + b) == Runs(p, a) + Runs(p, b) - (if a != "" && b != "" && p(a[|a| - 1]) && p(b[0]) then 1 else 0)
  {
    if a == "" {
      assert a + b == b;
    } else {
      RunsConcat(p, a[1..], b);
      assert (a + b)[1..] == a[1..] + b;
    }
  }

  lemma {:induction false} RunsOne(p: char -> bool, s: string)
    requires s != "" && forall i :: 0 <= i < |s| ==> p(s[i])
    ensures Runs(p, s) == 1
  {
    if |s| > 1 { RunsOne(p, s[1..]); } else { assert s[1..] == ""; }
  }

  lemma {:induction false} RunsNone(p: char -> bool, s: string)
    requires forall i :: 0 <= i < |s| ==> !p(s[i])
    ensures Runs(p, s) == 0
  {
    if s != "" { RunsNone(p, s[1..]); }
  }

  lemma {:induction false} RunsSuffix(p: char -> bool, s: string, k: nat)
    requires k <= |s|
    ensures Runs(p, s[k..]) <= Runs(p, s)
  {
    if k > 0 {
      RunsSuffix(p, s[1..], k - 1);
      assert s[1..][k - 1..] == s[k..];
    }
  }

  lemma {:induction false} RunsSkip(p: char -> bool, s: string)
    requires forall c :: p(c) ==> !IsSpace(c)
    ensures Runs(p, SkipSpaces(s)) == Runs(p, s)
  {
    if s != "" && IsSpace(s[0]) { RunsSkip(p, s[1..]); }
  }

  /** Each column holds one run, up to its last character. */
  ghost predicate OneRunEach(p: char -> bool, words: seq<string>) {
    forall i :: 0 <= i < |words| ==> words[i] != "" && Runs(p, Pad(words[i])) == 1 && p(words[i][|words[i]| - 1])
  }

  lemma LastOfBoth(a: string, b: string)
    requires b != ""
    ensures a + b != "" && (a + b)[|a + b| - 1] == b[|b| - 1]
  {
  }

  lemma ColumnsLast(p: char -> bool, words: seq<string>)
    requires OneRunEach(p, words) && words != []
    ensures Columns(words) != "" && p(Columns(words)[|Columns(words)| - 1])
  {
    var n := |words| - 1;
    ColumnsSnoc(words);
    LastOfBoth(Padding(words[n]), words[n]);
    LastOfBoth(Columns(words[..n]), Pad(words[n]));
  }

  lemma RunsAppend(p: char -> bool, front: string, column: string, n: nat)
    requires Runs(p, front) <= n && Runs(p, column) == 1
    ensures Runs(p, front + column) <= n + 1
    ensures front != "" && column != "" && p(front[|front| - 1]) && p(column[0]) ==> Runs(p, front + column) <= n
  {
    RunsConcat(p, front, column);
  }

  /** Columns of one run each hold one less together as soon as two of them meet. */
  lemma {:induction false} RunsColumns(p: char -> bool, words: seq<string>, bad: int)
    requires OneRunEach(p, words)
    requires 1 <= bad < |words| ==> p(Pad(words[bad])[0])
    ensures Runs(p, Columns(words)) <= |words| - (if 1 <= bad < |words| then 1 else 0)
  {
    if words != [] {
      var n := |words| - 1;
      var front := words[..n];
      ColumnsSnoc(words);
      assert OneRunEach(p, front);
      RunsColumns(p, front, bad);
      if bad == n && n > 0 {
        ColumnsLast(p, front);
        RunsAppend(p, Columns(front), Pad(words[n]), n);
      } else {
        RunsAppend(p, Columns(front), Pad(words[n]), n - (if 1 <= bad < n then 1 else 0));
      }
    }
  }

  predicate Visible(c: char) {
    !IsSpace(c)
  }

  lemma VisiblePad(w: string)
    requires Clean(w)
    ensures Runs(Visible, Pad(w)) == 1 && Visible(w[|w| - 1])
    ensures |w| >= WIDTH ==> Visible(Pad(w)[0])
  {
    RunsOne(Visible, w);
    RunsNone(Visible, Padding(w));
    RunsConcat(Visible, Padding(w), w);
  }

  lemma DigitPad(v: Int32)
    ensures var d := Decimal(v);
      Runs(IsDigit, Pad(d)) == 1 && IsDigit(d[|d| - 1]) && (v > 999_999_999 ==> IsDigit(Pad(d)[0]))
  {
    var d := Decimal(v);
    var ds := Digits(Magnitude(v));
    var front := Padding(d) + (if v < 0 then "-" else "");
    RunsOne(IsDigit, ds);
    RunsNone(IsDigit, front);
    RunsConcat(IsDigit, front, ds);
    SignInFront(v);
    DecimalShort(v);
  }

  lemma SignInFront(v: Int32)
    ensures Pad(Decimal(v)) == Padding(Decimal(v)) + (if v < 0 then "-" else "") + Digits(Magnitude(v))
  {
  }

  lemma WordUsesRun(t: string)
    ensures WordLength(t) > 0 ==> Runs(Visible, t[WordLength(t)..]) + 1 <= Runs(Visible, t)
  {
    var n := WordLength(t);
    if n > 0 {
      RunsOne(Visible, t[..n]);
      RunsConcat(Visible, t[..n], t[n..]);
      assert t == t[..n] + t[n..];
    }
  }

  /** Each word that is read uses up a run of visible characters. */
  lemma ReadWordRuns(s: string)
    ensures var (w, rest) := ReadWord(s);
      w.Some? ==> Runs(Visible, rest) + 1 <= Runs(Visible, s)
  {
    var t := SkipSpaces(s);
    RunsSkip(Visible, s);
    WordUsesRun(t);
  }

  lemma {:induction false} ReadWordsRuns(s: string, n: nat)
    ensures ReadWords(s, n).Some? ==> Runs(Visible, s) >= n
    decreases n
  {
    if n > 0 {
      ReadWordRuns(s);
      ReadWordsRuns(ReadWord(s).1, n - 1);
    }
  }

  lemma SignNoRun(t: string)
    ensures Runs(IsDigit, Signed(t).1) == Runs(IsDigit, t)
  {
  }

  lemma DigitsUseRun(u: string)
    ensures DigitLength(u) > 0 ==> Runs(IsDigit, u[DigitLength(u)..]) + 1 <= Runs(IsDigit, u)
  {
    var n := DigitLength(u);
    if n > 0 {
      RunsOne(IsDigit, u[..n]);
      RunsConcat(IsDigit, u[..n], u[n..]);
      assert u == u[..n] + u[n..];
    }
  }

  /** Each number that is read uses up a run of digits. */
  lemma ReadIntRuns(s: string)
    ensures var (v, rest) := ReadInt(s);
      v.Some? ==> Runs(IsDigit, rest) + 1 <= Runs(IsDigit, s)
  {
    RunsSkip(IsDigit, s);
    SignNoRun(SkipSpaces(s));
    DigitsUseRun(Signed(SkipSpaces(s)).1);
  }

  lemma {:induction false} ReadIntsRuns(s: string, n: nat)
    ensures ReadInts(s, n).Some? ==> Runs(IsDigit, s) >= n
    decreases n
  {
    if n > 0 {
      ReadIntRuns(s);
      ReadIntsRuns(ReadInt(s).1, n - 1);
    }
  }

  // ---------------------------------------------------------------- columns that meet are lost

  lemma LongFieldLost(words: seq<string>, bad: nat)
    requires forall i :: 0 <= i < |words| ==> Clean(words[i])
    requires 1 <= bad < |words| && |words[bad]| >= WIDTH
    ensures ReadWords(Columns(words), |words|).None?
  {
    forall i | 0 <= i < |words| ensures Runs(Visible, Pad(words[i])) == 1 && Visible(words[i][|words[i]| - 1]) {
      VisiblePad(words[i]);
    }
    VisiblePad(words[bad]);
    RunsColumns(Visible, words, bad);
    ReadWordsRuns(Columns(words), |words|);
  }

  lemma DecimalRuns(vals: seq<Int32>, bad: int)
    requires 1 <= bad < |vals| ==> vals[bad] > 999_999_999
    ensures Runs(IsDigit, Columns(Decimals(vals))) <= |vals| - (if 1 <= bad < |vals| then 1 else 0)
  {
    var ds := Decimals(vals);
    forall i | 0 <= i < |ds|
      ensures Runs(IsDigit, Pad(ds[i])) == 1 && IsDigit(ds[i][|ds[i]| - 1])
      ensures vals[i] > 999_999_999 ==> IsDigit(Pad(ds[i])[0])
    {
      DigitPad(vals[i]);
    }
    RunsColumns(IsDigit, ds, bad);
  }

  lemma {:induction false} WordAtLeast(w: string, rest: string)
    requires Solid(w)
    ensures WordLength(w + rest) >= |w|
  {
    if w != "" {
      WordAtLeast(w[1..], rest);
      assert (w + rest)[1..] == w[1..] + rest;
    }
  }

  /** Reading a word goes at least to the end of the visible text in front. */
  lemma ReadPast(pad: string, glued: string, rest: string)
    requires Blank(pad) && Clean(glued)
    ensures Runs(IsDigit, ReadWord(pad + (glued + rest)).1) <= Runs(IsDigit, rest)
  {
    SkipBlank(pad, glued + rest);
    WordAtLeast(glued, rest);
    var n := WordLength(glued + rest);
    assert (glued + rest)[n..] == rest[n - |glued|..];
    RunsSuffix(IsDigit, rest, n - |glued|);
  }

  lemma Regroup(a: string, b: string, c: string, d: string)
    ensures (a + b) + (c + d) == a + ((b + c) + d)
  {
  }

  lemma ColumnsGlued(vals: seq<Int32>)
    requires vals != [] && |Decimal(vals[0])| >= WIDTH
    ensures Columns(Decimals(vals)) == Decimal(vals[0]) + Columns(Decimals(vals[1..]))
  {
    ColumnsCons(Decimals(vals));
    assert Decimals(vals)[1..] == Decimals(vals[1..]);
  }

  lemma RowLineGlued(r: Row)
    requires r.vals != [] && |Decimal(r.vals[0])| >= WIDTH
    ensures RowLine(r) == Padding(r.key) + (r.key + Decimal(r.vals[0]) + Columns(Decimals(r.vals[1..])))
  {
    RowLineCons(r);
    ColumnsGlued(r.vals);
    Regroup(Padding(r.key), r.key, Decimal(r.vals[0]), Columns(Decimals(r.vals[1..])));
  }

  /** A first value of ten characters is swallowed by the key. */
  lemma FirstValueLost(r: Row)
    requires Clean(r.key) && r.vals != [] && |Decimal(r.vals[0])| >= WIDTH
    ensures ReadRow(RowLine(r), |r.vals|).None?
  {
    RowLineGlued(r);
    DecimalClean(r.vals[0]);
    DecimalRuns(r.vals[1..], 0);
    CleanBoth(r.key, Decimal(r.vals[0]));
    GluedLost(RowLine(r), Padding(r.key), r.key + Decimal(r.vals[0]), Columns(Decimals(r.vals[1..])), |r.vals|);
  }

  lemma CleanBoth(a: string, b: string)
    requires Clean(a) && Clean(b)
    ensures Clean(a + b)
  {
  }

  lemma GluedLost(line: string, pad: string, glued: string, rest: string, width: nat)
    requires line == pad + (glued + rest) && Blank(pad) && Clean(glued) && Runs(IsDigit, rest) < width
    ensures ReadRow(line, width).None?
  {
    ReadPast(pad, glued, rest);
    ReadIntsRuns(ReadWord(line).1, width);
  }

  /** A later value of ten digits continues the number before it. */
  lemma LaterValueLost(r: Row, bad: nat)
    requires Clean(r.key) && 1 <= bad < |r.vals| && r.vals[bad] > 999_999_999 && |Decimal(r.vals[0])| < WIDTH
    ensures ReadRow(RowLine(r), |r.vals|).None?
  {
    KeyReadsBack(r);
    DecimalRuns(r.vals, bad);
    ReadIntsRuns(Columns(Decimals(r.vals)), |r.vals|);
  }

  /** One row: it reads back if and only if its columns stay apart, and does not read at all
      otherwise. */
  lemma RowRoundTrip(r: Row)
    requires Clean(r.key)
    ensures RowFits(r.vals) ==> ReadRow(RowLine(r), |r.vals|) == Some(r)
    ensures !RowFits(r.vals) ==> ReadRow(RowLine(r), |r.vals|).None?
  {
    if RowFits(r.vals) {
      RowReadsBack(r);
    } else {
      DecimalShort(r.vals[0]);
      if |Decimal(r.vals[0])| >= WIDTH {
        FirstValueLost(r);
      } else {
        var bad: nat :| bad < |r.vals| && r.vals[bad] > 999_999_999;
        LaterValueLost(r, bad);
      }
    }
  }

  // ---------------------------------------------------------------- lines and the whole table

  lemma {:induction false} LineEnds(line: string, rest: string)
    requires '\n' !in line
    ensures LineLength(line + "\n" + rest) == |line|
  {
    if line == "" {
      assert line + "\n" + rest == "\n" + rest;
    } else {
      LineEnds(line[1..], rest);
      assert (line + "\n" + rest)[1..] == line[1..] + "\n" + rest;
    }
  }

  lemma GetLineBack(line: string, rest: string)
    requires '\n' !in line
    ensures GetLine(Line(line) + rest) == (Some(line), rest)
  {
    LineEnds(line, rest);
    var s := Line(line) + rest;
    assert s == line + "\n" + rest;
    assert s[..|line|] == line && s[|line| + 1..] == rest;
  }

  lemma {:induction false} ColumnsNoNewline(words: seq<string>)
    requires forall i :: 0 <= i < |words| ==> Clean(words[i])
    ensures '\n' !in Columns(words)
    ensures words != [] ==> Columns(words) != ""
  {
    if words != [] {
      var n := |words| - 1;
      ColumnsNoNewline(words[..n]);
      ColumnsSnoc(words);
      var w := Pad(words[n]);
      assert forall i :: 0 <= i < |w| ==> w[i] == ' ' || !IsSpace(w[i]);
    }
  }

  lemma RowLineIsLine(r: Row)
    requires Clean(r.key)
    ensures '\n' !in RowLine(r) && RowLine(r) != ""
  {
    forall i | 0 <= i < |r.vals| ensures Clean(Decimals(r.vals)[i]) {
      DecimalClean(r.vals[i]);
    }
    ColumnsNoNewline([r.key] + Decimals(r.vals));
  }

  lemma FirstRow(rows: seq<Row>, width: nat, done: seq<Row>)
    requires rows != [] && Clean(rows[0].key) && |rows[0].vals| == width && rows[0].key !in Keys(done)
    ensures LoadRows(RowLines(rows), width, done) ==
      if RowFits(rows[0].vals) then LoadRows(RowLines(rows[1..]), width, done + [rows[0]]) else LoadFailed(BadRow)
  {
    RowLinesCons(rows);
    RowLineIsLine(rows[0]);
    GetLineBack(RowLine(rows[0]), RowLines(rows[1..]));
    RowRoundTrip(rows[0]);
  }

  predicate AllFit(rows: seq<Row>) {
    forall i :: 0 <= i < |rows| ==> RowFits(rows[i].vals)
  }

  lemma AllFitCons(rows: seq<Row>)
    requires rows != []
    ensures AllFit(rows) <==> RowFits(rows[0].vals) && AllFit(rows[1..])
  {
    if RowFits(rows[0].vals) && AllFit(rows[1..]) {
      forall i | 0 <= i < |rows| ensures RowFits(rows[i].vals) {
        assert i == 0 || rows[1..][i - 1] == rows[i];
      }
    }
  }

  lemma Shift(done: seq<Row>, rows: seq<Row>)
    requires rows != []
    ensures done + rows == done + [rows[0]] + rows[1..]
  {
  }

  predicate Even(rows: seq<Row>, width: nat) {
    forall i :: 0 <= i < |rows| ==> Clean(rows[i].key) && |rows[i].vals| == width
  }

  /** The lines of these rows, read behind `done`, give the rows back if all of them fit. */
  predicate LoadsBack(rows: seq<Row>, width: nat, done: seq<Row>) {
    LoadRows(RowLines(rows), width, done) == if AllFit(rows) then Loaded(done + rows) else LoadFailed(BadRow)
  }

  lemma NoRows(width: nat, done: seq<Row>)
    ensures LoadsBack([], width, done)
  {
    assert done + [] == done;
  }

  lemma RowAgain(rows: seq<Row>, width: nat, done: seq<Row>)
    requires rows != [] && Clean(rows[0].key) && |rows[0].vals| == width && rows[0].key !in Keys(done)
    ensures !RowFits(rows[0].vals) ==> LoadsBack(rows, width, done)
    ensures LoadsBack(rows[1..], width, done + [rows[0]]) ==> LoadsBack(rows, width, done)
  {
    FirstRow(rows, width, done);
    AllFitCons(rows);
    Shift(done, rows);
  }

  /** The lines of data read back if and only if every row does. */
  lemma {:induction false} RowsRoundTrip(rows: seq<Row>, width: nat, done: seq<Row>)
    requires UniqueKeys(done + rows) && Even(rows, width)
    ensures LoadsBack(rows, width, done)
  {
    if rows == [] {
      NoRows(width, done);
    } else {
      NewKey(done, rows);
      RowAgain(rows, width, done);
      if RowFits(rows[0].vals) {
        Shift(done, rows);
        RowsRoundTrip(rows[1..], width, done + [rows[0]]);
      }
    }
  }

  lemma NewKey(done: seq<Row>, rows: seq<Row>)
    requires UniqueKeys(done + rows) && rows != []
    ensures rows[0].key !in Keys(done)
  {
    forall i | 0 <= i < |done| ensures done[i].key != rows[0].key {
      assert (done + rows)[i] == done[i] && (done + rows)[|done|] == rows[0];
    }
  }

  lemma CountReadsBack(n: nat)
    requires n < SIZE_MAX
    ensures ReadCount("\t" + Digits(n)) == Some(n)
  {
    var ds := Digits(n);
    assert IsDigit(ds[0]);
    SkipBlank("\t", ds);
    DigitRun(ds, "");
    assert ds + "" == ds && ds[..|ds|] == ds;
    NumberOfDigits(n);
  }

  lemma MetadataReadsBack(t: Image, taken: set<string>, rest: string)
    requires Regular(t) && t.name !in taken
    ensures Load(Line(t.name + "\t" + Digits(|t.fields| + 1)) + rest, taken) == LoadFields(t.name, |t.fields| + 1, rest)
  {
    var ds := Digits(|t.fields| + 1);
    var line := t.name + "\t" + ds;
    assert forall i :: 0 <= i < |ds| ==> IsDigit(ds[i]);
    assert '\n' !in line;
    GetLineBack(line, rest);
    ReadPadded("", t.name, "\t" + ds);
    assert "" + t.name + ("\t" + ds) == line;
    CountReadsBack(|t.fields| + 1);
  }

  /** The rest of loading once the names have been read. */
  function WithRows(t: Image, rows: LoadResult<seq<Row>>): LoadResult<Image> {
    match rows
    case Loaded(rs) => Loaded(Image(t.name, t.fields, rs))
    case LoadFailed(e) => LoadFailed(e)
    case Undefined => Undefined
  }

  lemma FieldsLine(t: Image, text: string, line: string, rest: string)
    requires GetLine(text) == (Some(line), rest) && "KEY" !in t.fields
    ensures ReadWords(line, |t.fields| + 1).None? ==> LoadFields(t.name, |t.fields| + 1, text) == LoadFailed(NoFieldNames)
    ensures ReadWords(line, |t.fields| + 1) == Some(["KEY"] + t.fields) ==>
      LoadFields(t.name, |t.fields| + 1, text) == WithRows(t, LoadRows(rest, |t.fields|, []))
  {
    assert (["KEY"] + t.fields)[1..] == t.fields;
  }

  predicate ShortNames(t: Image) {
    forall i :: 0 <= i < |t.fields| ==> |t.fields[i]| <= 9
  }

  lemma FieldsRoundTrip(t: Image, rest: string)
    requires Regular(t)
    ensures LoadFields(t.name, |t.fields| + 1, Line(Columns(["KEY"] + t.fields)) + rest) ==
      if ShortNames(t) then WithRows(t, LoadRows(rest, |t.fields|, [])) else LoadFailed(NoFieldNames)
  {
    var line := Columns(["KEY"] + t.fields);
    FieldNamesRoundTrip(t);
    GetLineBack(line, rest);
    FieldsLine(t, Line(line) + rest, line, rest);
  }

  /** The words after the first leave room for a blank in front of them. */
  predicate Apart(words: seq<string>) {
    forall i :: 1 <= i < |words| ==> |words[i]| < WIDTH
  }

  lemma WordsRoundTrip(words: seq<string>)
    requires forall i :: 0 <= i < |words| ==> Clean(words[i])
    ensures '\n' !in Columns(words)
    ensures ReadWords(Columns(words), |words|) == if Apart(words) then Some(words) else None
  {
    ColumnsNoNewline(words);
    if Apart(words) {
      ReadColumns(words);
    } else {
      var bad :| 1 <= bad < |words| && |words[bad]| >= WIDTH;
      LongFieldLost(words, bad);
    }
  }

  lemma KeyIsClean()
    ensures Clean("KEY")
  {
  }

  lemma ApartNames(t: Image, first: string)
    ensures Apart([first] + t.fields) <==> ShortNames(t)
  {
    var words := [first] + t.fields;
    assert forall i :: 1 <= i < |words| ==> words[i] == t.fields[i - 1];
    if Apart(words) {
      assert forall i :: 0 <= i < |t.fields| ==> words[i + 1] == t.fields[i];
    }
  }

  lemma FieldNamesRoundTrip(t: Image)
    requires Regular(t)
    ensures '\n' !in Columns(["KEY"] + t.fields)
    ensures ReadWords(Columns(["KEY"] + t.fields), |t.fields| + 1) == if ShortNames(t) then Some(["KEY"] + t.fields) else None
  {
    KeyIsClean();
    HeadingRoundTrip(t, "KEY");
  }

  lemma HeadingRoundTrip(t: Image, first: string)
    requires Regular(t) && Clean(first)
    ensures '\n' !in Columns([first] + t.fields)
    ensures ReadWords(Columns([first] + t.fields), |t.fields| + 1) == if ShortNames(t) then Some([first] + t.fields) else None
  {
    ApartNames(t, first);
    WordsRoundTrip([first] + t.fields);
  }

  /** Loading a dump gives back the same name, fields, row order and values if and only if the dump's
      columns stay apart; a dump whose columns meet does not load at all. */
  lemma DumpLoadRoundTrip(t: Image, taken: set<string>)
    requires Regular(t) && t.name !in taken
    ensures Load(Dump(t), taken) == Loaded(t) <==> Fits(t)
    ensures !Fits(t) ==> Load(Dump(t), taken).LoadFailed?
  {
    DumpIs(t);
    HeadRoundTrip(t, taken, RowLines(t.rows));
    BodyRoundTrip(t);
    WholeLoads(t, LoadRows(RowLines(t.rows), |t.fields|, []), Load(Dump(t), taken));
  }

  lemma BodyRoundTrip(t: Image)
    requires Regular(t)
    ensures LoadRows(RowLines(t.rows), |t.fields|, []) == if AllFit(t.rows) then Loaded(t.rows) else LoadFailed(BadRow)
  {
    assert [] + t.rows == t.rows;
    RowsRoundTrip(t.rows, |t.fields|, []);
  }

  /** Head and rows together. */
  lemma WholeLoads(t: Image, rows: LoadResult<seq<Row>>, whole: LoadResult<Image>)
    requires rows == if AllFit(t.rows) then Loaded(t.rows) else LoadFailed(BadRow)
    requires whole == if ShortNames(t) then WithRows(t, rows) else LoadFailed(NoFieldNames)
    ensures whole == Loaded(t) <==> Fits(t)
    ensures !Fits(t) ==> whole.LoadFailed?
  {
  }

  lemma HeadRoundTrip(t: Image, taken: set<string>, rest: string)
    requires Regular(t) && t.name !in taken
    ensures Load(Line(t.name + "\t" + Digits(|t.fields| + 1)) + (Line(Columns(["KEY"] + t.fields)) + rest), taken) ==
      if ShortNames(t) then WithRows(t, LoadRows(rest, |t.fields|, [])) else LoadFailed(NoFieldNames)
  {
    MetadataReadsBack(t, taken, Line(Columns(["KEY"] + t.fields)) + rest);
    FieldsRoundTrip(t, rest);
  }

  lemma DumpIs(t: Image)
    ensures Dump(t) == Line(t.name + "\t" + Digits(|t.fields| + 1)) + (Line(Columns(["KEY"] + t.fields)) + RowLines(t.rows))
  {
    Assoc(Line(t.name + "\t" + Digits(|t.fields| + 1)), Line(Columns(["KEY"] + t.fields)), RowLines(t.rows));
  }

  /** Ten digits in a second column run into the number before them. */
  lemma TenDigitsLost(t: Image)
    requires t == Image("t", ["a", "b"], [Row("k", [0, 1_000_000_000])])
    ensures Regular(t) && Load(Dump(t), {}).LoadFailed?
  {
    assert Clean("t") && Clean("k") && Clean("a") && Clean("b");
    assert !RowFits(t.rows[0].vals) by {
      assert t.rows[0].vals[1] == 1_000_000_000;
    }
    assert !AllFit(t.rows);
    DumpLoadRoundTrip(t, {});
  }

  /** In particular names and printed values of at most nine characters always come back. */
  lemma NineCharactersSuffice(t: Image, taken: set<string>)
    requires Regular(t) && t.name !in taken
    requires forall i :: 0 <= i < |t.fields| ==> |t.fields[i]| <= 9
    requires forall i, j :: 0 <= i < |t.rows| && 0 <= j < |t.rows[i].vals| ==> |Decimal(t.rows[i].vals[j])| <= 9
    ensures Load(Dump(t), taken) == Loaded(t)
  {
    forall i | 0 <= i < |t.rows| ensures RowFits(t.rows[i].vals) {
      forall j | 0 <= j < |t.rows[i].vals| ensures -99_999_999 <= t.rows[i].vals[j] <= 999_999_999 {
        DecimalShort(t.rows[i].vals[j]);
      }
    }
    DumpLoadRoundTrip(t, taken);
  }
}
