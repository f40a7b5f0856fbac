/** Machine integers, rows, and the order on keys that std::string's `<` gives. */
module Values {

  datatype Option<+T> = None | Some(value: T)

  const INT_MIN := -0x8000_0000
  const INT_MAX := 0x7fff_ffff

  predicate InRange(x: int) {
    INT_MIN <= x <= INT_MAX
  }

  /** The C++ int of a cell or an accumulator. */
  type Int32 = x: int | InRange(x)

  const MODULUS := 0x1_0000_0000

  /** How far an exact result lies outside the machine range. */
  function Outside(x: int): nat {
    if x > INT_MAX then x - INT_MAX else if x < INT_MIN then INT_MIN - x else 0
  }

  /** The two's complement reading of an exact result. It is the identity on every result that
      fits, which is the only case in which the C++ expression is defined. */
  function Wrap(x: int): (r: Int32)
    ensures InRange(x) ==> r == x
    decreases Outside(x)
  {
    if x > INT_MAX then Wrap(x - MODULUS)
    else if x < INT_MIN then Wrap(x + MODULUS)
    else x
  }

  /** It is the one 32-bit number that differs from x by a multiple of 2^32. */
  lemma {:induction false} WrapIsCongruent(x: int)
    ensures -2_147_483_648 <= Wrap(x) <= 2_147_483_647
    ensures (x - Wrap(x)) % 4_294_967_296 == 0
    decreases Outside(x)
  {
    if x > INT_MAX {
      WrapIsCongruent(x - MODULUS);
    } else if x < INT_MIN {
      WrapIsCongruent(x + MODULUS);
    }
  }

  lemma WrapShift(x: int)
    ensures Wrap(x + MODULUS) == Wrap(x)
  {
  }

  /** Wrapping at every step or once at the end gives the same result. */
  lemma {:induction false} WrapAdd(a: int, b: int)
    ensures Wrap(Wrap(a) + b) == Wrap(a + b)
    decreases Outside(a)
  {
    if a > INT_MAX {
      WrapAdd(a - MODULUS, b);
      WrapShift(a - MODULUS + b);
    } else if a < INT_MIN {
      WrapAdd(a + MODULUS, b);
      WrapShift(a + b);
    }
  }

  /** One more addend, or one more subtrahend, in a wrapping accumulator. */
  lemma WrapStep(acc: Int32, total: int, b: int, next: int)
    requires acc == Wrap(total)
    ensures next == total + b ==> Wrap(acc + b) == Wrap(next)
    ensures next == total - b ==> Wrap(acc - b) == Wrap(next)
  {
    WrapAdd(total, b);
    WrapAdd(total, -b);
  }

  lemma WrapBoth(x: int, y: int)
    ensures Wrap(Wrap(x) + Wrap(y)) == Wrap(x + y)
  {
    WrapAdd(x, Wrap(y));
    var z: int := x + Wrap(y);
    assert Wrap(z) == Wrap(x + y) by {
      WrapAdd(y, x);
      assert z == Wrap(y) + x;
    }
  }

  datatype Row = Row(key: string, vals: seq<Int32>)

  /** Cell f of a row; f is below the row width wherever the queries read it. */
  function Cell(r: Row, f: nat): Int32 {
    if f < |r.vals| then r.vals[f] else 0
  }

  function SetCell(r: Row, f: nat, v: Int32): (s: Row)
    ensures s.key == r.key && |s.vals| == |r.vals|
  {
    if f < |r.vals| then r.(vals := r.vals[f := v]) else r
  }

  /** Two rows of one width that agree on every cell are the same row. */
  lemma SameCells(a: Row, b: Row)
    requires a.key == b.key && |a.vals| == |b.vals|
    requires forall f: nat :: f < |a.vals| ==> Cell(a, f) == Cell(b, f)
    ensures a == b
  {
    forall f | 0 <= f < |a.vals| ensures a.vals[f] == b.vals[f] {
      assert Cell(a, f) == Cell(b, f);
    }
    assert a.vals == b.vals;
  }

  /** Lexicographic order by character code, a proper prefix first. */
  predicate KeyLess(a: string, b: string) {
    b != "" && (a == "" || a[0] < b[0] || (a[0] == b[0] && KeyLess(a[1..], b[1..])))
  }

  /** b goes on where a ends, or is greater at the first character where they differ. */
  ghost predicate Before(a: string, b: string) {
    || (|a| < |b| && b[..|a|] == a)
    || exists i :: 0 <= i < |a| && i < |b| && a[..i] == b[..i] && a[i] < b[i]
  }

  lemma {:induction false} KeyLessIsBefore(a: string, b: string)
    ensures KeyLess(a, b) <==> Before(a, b)
  {
    if a != "" && b != "" {
      KeyLessIsBefore(a[1..], b[1..]);
      if a[0] == b[0] {
        BeforeTail(a, b);
      } else if a[0] < b[0] {
        assert a[..0] == b[..0];
      }
    }
  }

  lemma BeforeTail(a: string, b: string)
    requires a != "" && b != "" && a[0] == b[0]
    ensures Before(a, b) <==> Before(a[1..], b[1..])
  {
    var s, t := a[1..], b[1..];
    assert a == [a[0]] + s && b == [a[0]] + t;
    if |a| < |b| {
      assert b[..|a|] == [a[0]] + t[..|s|];
    }
    forall i | 0 <= i < |s| && i < |t| ensures a[..i + 1] == b[..i + 1] <==> s[..i] == t[..i] {
      assert a[..i + 1] == [a[0]] + s[..i] && b[..i + 1] == [a[0]] + t[..i];
      assert a[..i + 1][1..] == s[..i] && b[..i + 1][1..] == t[..i];
    }
    if i :| 0 <= i < |s| && i < |t| && s[..i] == t[..i] && s[i] < t[i] {
      assert a[i + 1] == s[i] && b[i + 1] == t[i];
    }
    if i :| 0 <= i < |a| && i < |b| && a[..i] == b[..i] && a[i] < b[i] {
      assert i > 0;
      assert a[i] == s[i - 1] && b[i] == t[i - 1];
    }
  }

  lemma {:induction false} KeyLessTotal(a: string, b: string)
    ensures a == b || KeyLess(a, b) || KeyLess(b, a)
    ensures !(KeyLess(a, b) && KeyLess(b, a))
    ensures !KeyLess(a, a)
  {
    if a != "" {
      KeyLessTotal(a[1..], if b == "" then "" else b[1..]);
      if b != "" && a[0] == b[0] && a[1..] == b[1..] {
        assert a == [a[0]] + a[1..] == b;
      }
    }
  }

  lemma {:induction false} KeyLessTransitive(a: string, b: string, c: string)
    requires KeyLess(a, b) && KeyLess(b, c)
    ensures KeyLess(a, c)
  {
    if a != "" && a[0] == b[0] && b[0] == c[0] {
      KeyLessTransitive(a[1..], b[1..], c[1..]);
    }
  }

  lemma SliceSnoc<T>(s: seq<T>, lo: nat, i: nat)
    requires lo <= i < |s|
    ensures s[lo..i] + [s[i]] == s[lo..i + 1]
  {
  }
}
