/** How execute() cuts a table of n rows into one range per task. */
module Partition {

  /** Tables below this size always take the sequential loop. */
  const GRAIN := 2000

  function Tasks(n: nat): nat {
    n / GRAIN + 1
  }

  function Share(n: nat): nat {
    n / Tasks(n)
  }

  /** head = begin + id * subtable_num */
  function Head(n: nat, id: nat): nat {
    id * Share(n)
  }

  /** tail = end for the last task, head + subtable_num for the others */
  function Tail(n: nat, id: nat): nat {
    if id == Tasks(n) - 1 then n else Head(n, id) + Share(n)
  }

  /** Euclid for the two divisions, with the products named. */
  lemma ShareBounds(n: nat)
    ensures GRAIN * (Tasks(n) - 1) <= n < GRAIN * Tasks(n)
    ensures Tasks(n) * Share(n) + n % Tasks(n) == n && 0 <= n % Tasks(n) < Tasks(n)
  {
    var t := Tasks(n);
    assert n == t * (n / t) + n % t;
  }

  lemma Monotone(a: nat, b: nat, s: nat)
    requires a <= b
    ensures a * s <= b * s
  {
    assert b * s == a * s + (b - a) * s;
  }

  lemma Proportional(t: nat, s: nat, c: nat)
    ensures s >= c ==> t * s >= t * c
    ensures s <= c ==> t * s <= t * c
  {
    assert t * s == t * c + t * (s - c);
    if s >= c {
      assert 0 <= t * (s - c);
    } else {
      assert 0 <= t * (c - s);
    }
  }

  lemma HeadStep(n: nat, id: nat)
    ensures Head(n, id + 1) == Head(n, id) + Share(n)
  {
  }

  /** Every range lies inside the table, starts where the previous one stops, and the last one
      stops at the end. */
  lemma RangesTile(n: nat, id: nat)
    requires id < Tasks(n)
    ensures 0 <= Head(n, id) <= Tail(n, id) <= n
    ensures Head(n, 0) == 0
    ensures id + 1 < Tasks(n) ==> Tail(n, id) == Head(n, id + 1)
    ensures id + 1 == Tasks(n) ==> Tail(n, id) == n
  {
    ShareBounds(n);
    HeadStep(n, id);
    Monotone(id + 1, Tasks(n), Share(n));
  }

  /** Ranges of different tasks share no row. */
  lemma RangesDisjoint(n: nat, i: nat, j: nat)
    requires i < j < Tasks(n)
    ensures Tail(n, i) <= Head(n, j)
  {
    HeadStep(n, i);
    Monotone(i + 1, j, Share(n));
  }

  lemma SharePositive(n: nat)
    requires GRAIN <= n
    ensures Share(n) >= 1
  {
    SizesFit(n);
  }

  /** The task whose range holds row r. */
  function Owner(n: nat, r: nat): nat
    requires r < n && GRAIN <= n
  {
    SharePositive(n);
    if r / Share(n) < Tasks(n) then r / Share(n) else Tasks(n) - 1
  }

  /** Every row belongs to exactly one task. */
  lemma RangesCover(n: nat, r: nat)
    requires GRAIN <= n && r < n
    ensures Owner(n, r) < Tasks(n)
    ensures Head(n, Owner(n, r)) <= r < Tail(n, Owner(n, r))
    ensures forall i: nat :: i < Tasks(n) && Head(n, i) <= r < Tail(n, i) ==> i == Owner(n, r)
  {
    SizesFit(n);
    var s := Share(n);
    var o := Owner(n, r);
    assert r == s * (r / s) + r % s;
    if r / s >= Tasks(n) {
      Monotone(Tasks(n) - 1, r / s, s);
    } else {
      assert o * s <= r < o * s + s;
    }
    forall i: nat | i < Tasks(n) && Head(n, i) <= r < Tail(n, i)
      ensures i == o
    {
      if i < o { RangesDisjoint(n, i, o); }
      if o < i { RangesDisjoint(n, o, i); }
    }
  }

  /** The sizes the 2000-row rule produces, and no id * subtable_num leaving int. */
  lemma SizesFit(n: nat)
    requires GRAIN <= n
    ensures 2 <= Tasks(n)
    ensures 1000 <= Share(n) <= 1999
    ensures Tail(n, Tasks(n) - 1) - Head(n, Tasks(n) - 1) == Share(n) + n % Tasks(n) <= Share(n) + Tasks(n) - 1
    ensures forall id: nat :: id < Tasks(n) ==> Head(n, id) <= n
  {
    ShareBounds(n);
    var t, s := Tasks(n), Share(n);
    Proportional(t, s, 2000);
    Proportional(t, s, 999);
    HeadStep(n, t - 1);
    forall id: nat | id < t ensures Head(n, id) <= n {
      Monotone(id, t, s);
    }
  }

  /** Where the first n ranges end. */
  function Ended(size: nat, n: nat): nat {
    if n == 0 then 0 else Tail(size, n - 1)
  }

  lemma EndedNext(size: nat, n: nat)
    requires n < Tasks(size)
    ensures Ended(size, n) == Head(size, n) <= Tail(size, n) == Ended(size, n + 1) <= size
    ensures Ended(size, Tasks(size)) == size
  {
    RangesTile(size, n);
    RangesTile(size, Tasks(size) - 1);
    if n > 0 {
      RangesTile(size, n - 1);
    }
  }
}
