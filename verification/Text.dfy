/** Characters, whitespace-separated words and decimal numbers, as C++ streams read and write them. */
module Text {
  import opened Values

  /** isspace in the "C" locale. */
  predicate IsSpace(c: char) {
    c == ' ' || c == '\t' || c == '\n' || c == '\U{0B}' || c == '\U{0C}' || c == '\r'
  }

  predicate Blank(s: string) {
    forall i :: 0 <= i < |s| ==> IsSpace(s[i])
  }

  predicate Solid(s: string) {
    forall i :: 0 <= i < |s| ==> !IsSpace(s[i])
  }

  /** A word that `>>` can read back: not empty, no whitespace inside. */
  predicate Clean(s: string) {
    s != "" && Solid(s)
  }

  function SkipSpaces(s: string): (t: string)
    ensures |t| <= |s|
    ensures t != "" ==> !IsSpace(t[0])
  {
    if s != "" && IsSpace(s[0]) then SkipSpaces(s[1..]) else s
  }

  /** Length of the leading run without whitespace. */
  function WordLength(s: string): (n: nat)
    ensures n <= |s|
    ensures Solid(s[..n])
    ensures n < |s| ==> IsSpace(s[n])
  {
    if s == "" || IsSpace(s[0]) then 0 else 1 + WordLength(s[1..])
  }

  /** `stream >> word`: the word and what is left, or None at the end of the stream. */
  function ReadWord(s: string): (r: (Option<string>, string))
    ensures r.0.Some? ==> Clean(r.0.value) && |r.1| < |s|
    ensures r.1 != "" ==> IsSpace(r.1[0])
  {
    var t := SkipSpaces(s);
    if t == "" then (None, "") else (Some(t[..WordLength(t)]), t[WordLength(t)..])
  }

  /** Every word of the stream. */
  function Words(s: string): (ws: seq<string>)
    ensures forall i :: 0 <= i < |ws| ==> Clean(ws[i])
    decreases |s|
  {
    var (w, rest) := ReadWord(s);
    if w.None? then [] else [w.value] + Words(rest)
  }

  lemma {:induction false} SkipBlank(pad: string, s: string)
    requires Blank(pad) && (s != "" ==> !IsSpace(s[0]))
    ensures SkipSpaces(pad + s) == s
  {
    if pad == "" {
      assert pad + s == s;
    } else {
      SkipBlank(pad[1..], s);
      assert (pad + s)[1..] == pad[1..] + s;
    }
  }

  lemma {:induction false} WordThenSpace(w: string, rest: string)
    requires Solid(w) && (rest != "" ==> IsSpace(rest[0]))
    ensures WordLength(w + rest) == |w|
  {
    if w == "" {
      assert w + rest == rest;
    } else {
      WordThenSpace(w[1..], rest);
      assert (w + rest)[1..] == w[1..] + rest;
    }
  }

  /** Reading a padded word gives the word, whatever whitespace comes after it. */
  lemma ReadPadded(pad: string, w: string, rest: string)
    requires Blank(pad) && Clean(w) && (rest != "" ==> IsSpace(rest[0]))
    ensures ReadWord(pad + w + rest) == (Some(w), rest)
  {
    assert pad + w + rest == pad + (w + rest);
    SkipBlank(pad, w + rest);
    WordThenSpace(w, rest);
  }

  /** What was read in front of what a reader still finds, if it finds it. */
  function Prepend<T>(front: seq<T>, tail: Option<seq<T>>): Option<seq<T>> {
    if tail.None? then None else Some(front + tail.value)
  }

  lemma PrependOne<T>(read: seq<T>, x: T, tail: Option<seq<T>>)
    ensures Prepend(read, Prepend([x], tail)) == Prepend(read + [x], tail)
  {
    if tail.Some? {
      assert read + ([x] + tail.value) == (read + [x]) + tail.value;
    }
  }

  lemma PrependNone<T>(tail: Option<seq<T>>)
    ensures Prepend([], tail) == tail
  {
    if tail.Some? {
      assert [] + tail.value == tail.value;
    }
  }

  /** Pieces of text one after the other. */
  function Concat(pieces: seq<string>): string {
    if pieces == [] then "" else Concat(pieces[..|pieces| - 1]) + pieces[|pieces| - 1]
  }

  lemma ConcatTake(pieces: seq<string>, i: nat)
    requires i < |pieces|
    ensures Concat(pieces[..i + 1]) == Concat(pieces[..i]) + pieces[i]
    ensures Concat(pieces[..0]) == "" && pieces[..|pieces|] == pieces
  {
    assert pieces[..i + 1][..i] == pieces[..i];
  }

  lemma Assoc(a: string, b: string, c: string)
    ensures (a + b) + c == a + (b + c)
  {
  }

  lemma {:induction false} ConcatCons(pieces: seq<string>)
    requires pieces != []
    ensures Concat(pieces) == pieces[0] + Concat(pieces[1..])
  {
    var n := |pieces| - 1;
    if n == 0 {
      assert Concat(pieces[..0]) == "" == Concat(pieces[1..]);
    } else {
      ConcatCons(pieces[..n]);
      assert pieces[..n][1..] == pieces[1..][..n - 1];
      Assoc(pieces[0], Concat(pieces[1..][..n - 1]), pieces[n]);
    }
  }

  /** Words printed with single spaces between them. */
  function Spaced(ws: seq<string>): string {
    if ws == [] then "" else if |ws| == 1 then ws[0] else ws[0] + " " + Spaced(ws[1..])
  }

  lemma {:induction false} WordsOfSpaced(ws: seq<string>, pad: string)
    requires Blank(pad)
    requires forall i :: 0 <= i < |ws| ==> Clean(ws[i])
    ensures Words(pad + Spaced(ws)) == ws
  {
    if ws == [] {
      SkipBlank(pad, "");
    } else if |ws| == 1 {
      ReadPadded(pad, ws[0], "");
      assert pad + ws[0] + "" == pad + Spaced(ws);
      SkipBlank("", "");
    } else {
      var rest := " " + Spaced(ws[1..]);
      ReadPadded(pad, ws[0], rest);
      assert pad + Spaced(ws) == pad + ws[0] + rest;
      WordsOfSpaced(ws[1..], " ");
    }
  }

  /** The characters that separate words: blank, tab, line feed, vertical tab, form feed and carriage
      return. */
  predicate White(c: char) {
    c in [' ', '\t', '\n', '\U{0B}', '\U{0C}', '\r']
  }

  predicate AllWhite(s: string) {
    forall i :: 0 <= i < |s| ==> White(s[i])
  }

  predicate NoneWhite(s: string) {
    forall i :: 0 <= i < |s| ==> !White(s[i])
  }

  /** Words with any separators in front of, between and behind them. */
  function Mixed(ws: seq<string>, seps: seq<string>): string
    requires |seps| == |ws| + 1
  {
    if ws == [] then seps[0] else seps[0] + ws[0] + Mixed(ws[1..], seps[1..])
  }

  /** Tokenizing finds exactly the words, whatever whitespace stands around them. */
  lemma {:induction false} WordsOfMixed(ws: seq<string>, seps: seq<string>)
    requires |seps| == |ws| + 1
    requires forall i :: 0 <= i < |ws| ==> ws[i] != "" && NoneWhite(ws[i])
    requires forall i :: 0 <= i < |seps| ==> AllWhite(seps[i]) && (0 < i < |ws| ==> seps[i] != "")
    ensures Words(Mixed(ws, seps)) == ws
  {
    BlankIsWhite(seps[0]);
    if ws == [] {
      SkipBlank(seps[0], "");
      assert seps[0] + "" == seps[0];
    } else {
      var rest := Mixed(ws[1..], seps[1..]);
      CleanIsSolid(ws[0]);
      MixedBegins(ws, seps);
      ReadPadded(seps[0], ws[0], rest);
      forall i | 0 <= i < |ws| - 1 ensures ws[1..][i] != "" && NoneWhite(ws[1..][i]) {
        assert ws[1..][i] == ws[i + 1];
      }
      forall i | 0 <= i < |seps| - 1 ensures AllWhite(seps[1..][i]) && (0 < i < |ws| - 1 ==> seps[1..][i] != "") {
        assert seps[1..][i] == seps[i + 1];
      }
      WordsOfMixed(ws[1..], seps[1..]);
      assert [ws[0]] + ws[1..] == ws;
    }
  }

  lemma MixedBegins(ws: seq<string>, seps: seq<string>)
    requires |seps| == |ws| + 1 && ws != []
    requires forall i :: 0 <= i < |seps| ==> AllWhite(seps[i]) && (0 < i < |ws| ==> seps[i] != "")
    ensures var rest := Mixed(ws[1..], seps[1..]);
      rest != "" ==> IsSpace(rest[0])
  {
    assert seps[1..][0] == seps[1];
    BlankIsWhite(seps[1]);
  }

  lemma BlankIsWhite(s: string)
    requires AllWhite(s)
    ensures Blank(s)
  {
  }

  lemma CleanIsSolid(s: string)
    requires s != "" && NoneWhite(s)
    ensures Clean(s)
  {
  }

  // ---------------------------------------------------------------- decimal numbers

  predicate IsDigit(c: char) {
    '0' <= c <= '9'
  }

  function DigitChar(d: nat): (c: char)
    requires d < 10
    ensures IsDigit(c) && DigitValue(c) == d
  {
    '0' + d as char
  }

  function DigitValue(c: char): (d: nat)
    requires IsDigit(c)
    ensures d < 10
  {
    c as int - '0' as int
  }

  predicate Digital(s: string) {
    forall i :: 0 <= i < |s| ==> IsDigit(s[i])
  }

  function Digits(n: nat): (s: string)
    ensures s != "" && Digital(s)
  {
    if n < 10 then [DigitChar(n)] else Digits(n / 10) + [DigitChar(n % 10)]
  }

  function NumberOf(s: string): nat
    requires Digital(s)
  {
    if s == "" then 0 else 10 * NumberOf(s[..|s| - 1]) + DigitValue(s[|s| - 1])
  }

  lemma {:induction false} NumberOfDigits(n: nat)
    ensures NumberOf(Digits(n)) == n
  {
    if n < 10 {
      assert NumberOf("") == 0;
      assert Digits(n)[..0] == "";
    } else {
      NumberOfDigits(n / 10);
      assert Digits(n)[..|Digits(n)| - 1] == Digits(n / 10);
    }
  }

  function Magnitude(v: int): nat {
    if v < 0 then -v else v
  }

  /** How `<<` prints an int. */
  function Decimal(v: int): (s: string)
    ensures s != ""
  {
    if v < 0 then "-" + Digits(Magnitude(v)) else Digits(Magnitude(v))
  }

  lemma DecimalClean(v: int)
    ensures Clean(Decimal(v))
  {
    var ds := Digits(Magnitude(v));
    assert forall i :: 0 <= i < |ds| ==> IsDigit(ds[i]);
  }

  function Pow10(k: nat): nat {
    if k == 0 then 1 else 10 * Pow10(k - 1)
  }

  /** The value of decimal digits by their places. */
  function PlaceValue(s: string): int {
    if s == "" then 0 else (s[0] as int - '0' as int) * Pow10(|s| - 1) + PlaceValue(s[1..])
  }

  lemma {:induction false} PlaceValueSnoc(s: string, c: char)
    ensures PlaceValue(s + [c]) == 10 * PlaceValue(s) + (c as int - '0' as int)
  {
    if s == "" {
      assert s + [c] == [c] && [c][1..] == "";
      assert Pow10(0) == 1 && PlaceValue("") == 0;
    } else {
      PlaceValueSnoc(s[1..], c);
      assert (s + [c])[1..] == s[1..] + [c];
      Shifted(s[0] as int - '0' as int, |s|);
    }
  }

  lemma Shifted(d: int, k: nat)
    requires k > 0
    ensures d * Pow10(k) == 10 * (d * Pow10(k - 1))
  {
    assert Pow10(k) == 10 * Pow10(k - 1);
    var p := Pow10(k - 1);
    assert d * (10 * p) == 10 * (d * p);
  }

  lemma {:induction false} NumberIsPlaceValue(s: string)
    requires Digital(s)
    ensures NumberOf(s) == PlaceValue(s)
  {
    if s != "" {
      var n := |s| - 1;
      NumberIsPlaceValue(s[..n]);
      PlaceValueSnoc(s[..n], s[n]);
      assert s[..n] + [s[n]] == s;
    }
  }

  lemma {:induction false} NoLeadingZero(n: nat)
    ensures Digits(n)[0] == '0' ==> n == 0 && |Digits(n)| == 1
  {
    if n >= 10 {
      NoLeadingZero(n / 10);
    }
  }

  /** A number is printed as its decimal digits, most significant first and none too many, with a
      minus sign in front if it is negative. */
  lemma DecimalMeans(v: int)
    ensures v >= 0 ==> PlaceValue(Decimal(v)) == v && (Decimal(v)[0] == '0' ==> Decimal(v) == "0")
    ensures v < 0 ==> Decimal(v)[0] == '-' && PlaceValue(Decimal(v)[1..]) == -v && Decimal(v)[1..] != "" && Decimal(v)[1] != '0'
    ensures forall i :: (if v < 0 then 1 else 0) <= i < |Decimal(v)| ==> '0' <= Decimal(v)[i] <= '9'
  {
    var m := Magnitude(v);
    NumberOfDigits(m);
    NumberIsPlaceValue(Digits(m));
    NoLeadingZero(m);
    if v < 0 {
      assert Decimal(v)[1..] == Digits(m);
    }
  }

  /** The number that a printed int stands for. */
  function SignedValue(s: string): int {
    if s != "" && s[0] == '-' then -PlaceValue(s[1..]) else PlaceValue(s)
  }

  lemma DecimalReadsBack(v: int)
    ensures SignedValue(Decimal(v)) == v
  {
    DecimalMeans(v);
  }
}
