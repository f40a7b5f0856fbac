/** The queries on a plain key-to-values map, and the table as a refinement of it. */
module PlainMap {
  import opened Values
  import opened Conditions
  import opened Tables
  import opened Queries
  import opened Rewrites
  import opened Aggregates
  import opened Selects
  import opened Changes
  import opened Commands

  /** Keys of the entries that satisfy the conditions. */
  function Hits(cs: seq<QueryCondition>, m: map<string, seq<Int32>>): set<string> {
    set k | k in m && Matches(cs, Row(k, m[k]))
  }

  function CopySet(cs: seq<QueryCondition>, m: map<string, seq<Int32>>): set<string> {
    set k | k in Hits(cs, m) && k + COPY_SUFFIX !in m
  }

  /** The entry that a copy comes from. */
  function Original(copy: string): string {
    if |copy| >= |COPY_SUFFIX| then copy[..|copy| - |COPY_SUFFIX|] else copy
  }

  function Copied(cs: seq<QueryCondition>, m: map<string, seq<Int32>>): map<string, seq<Int32>> {
    map c | c in (set k | k in CopySet(cs, m) :: k + COPY_SUFFIX) && Original(c) in m :: m[Original(c)]
  }

  /** A change of every entry that keeps its key. */
  function Mapped(m: map<string, seq<Int32>>, change: Row -> Row): map<string, seq<Int32>> {
    map k | k in m :: change(Row(k, m[k])).vals
  }

  function Setting(cs: seq<QueryCondition>, f: nat, v: Int32): Row -> Row {
    r => SetField(cs, f, v, r)
  }

  function Targeting(cs: seq<QueryCondition>, k: Kernel): Row -> Row
    requires Sensible(k)
  {
    r => Target(cs, k, r)
  }

  ghost function PlainUpdate(fm: FieldMap, operands: seq<string>, v: Int32, conds: seq<QueryCondition>, m: map<string, seq<Int32>>)
    : (map<string, seq<Int32>>, Answer)
  {
    var (cs, init) := Init(fm, conds);
    if |operands| != 2 || operands[0] !in fm || init.Threw? then (m, Failed)
    else if !init.flag then (m, Affected(0))
    else (Mapped(m, Setting(cs, fm[operands[0]], v)), Affected(|Hits(cs, m)|))
  }

  /** The entries in `hits` together under a new key: their values, if they are one entry. */
  ghost function Rekeyed(hits: set<string>, key: string, m: map<string, seq<Int32>>): map<string, seq<Int32>>
    requires hits <= m.Keys
  {
    if hits == {} then m else var k :| k in hits; (m - hits)[key := m[k]]
  }

  ghost function PlainRename(fm: FieldMap, operands: seq<string>, conds: seq<QueryCondition>, m: map<string, seq<Int32>>)
    : (map<string, seq<Int32>>, Answer)
  {
    var (cs, init) := Init(fm, conds);
    PlainRenameWith(operands, cs, init, m)
  }

  ghost function PlainRenameWith(operands: seq<string>, cs: seq<QueryCondition>, init: InitResult, m: map<string, seq<Int32>>)
    : (map<string, seq<Int32>>, Answer)
  {
    if |operands| != 2 || init.Threw? then (m, Failed)
    else if !init.flag then (m, Affected(0))
    else (Rekeyed(Hits(cs, m), operands[1], m), Affected(|Hits(cs, m)|))
  }

  ghost function PlainDelete(fm: FieldMap, operands: seq<string>, conds: seq<QueryCondition>, m: map<string, seq<Int32>>)
    : (map<string, seq<Int32>>, Answer)
  {
    var (cs, init) := Init(fm, conds);
    PlainDeleteWith(operands, cs, init, m)
  }

  ghost function PlainDeleteWith(operands: seq<string>, cs: seq<QueryCondition>, init: InitResult, m: map<string, seq<Int32>>)
    : (map<string, seq<Int32>>, Answer)
  {
    if operands != [] || init.Threw? then (m, Failed)
    else if !init.flag then (m, Affected(0))
    else (m - Hits(cs, m), Affected(|Hits(cs, m)|))
  }

  ghost function PlainDuplicate(fm: FieldMap, operands: seq<string>, conds: seq<QueryCondition>, m: map<string, seq<Int32>>)
    : (map<string, seq<Int32>>, Answer)
  {
    var (cs, init) := Init(fm, conds);
    PlainDuplicateWith(operands, cs, init, m)
  }

  ghost function PlainDuplicateWith(operands: seq<string>, cs: seq<QueryCondition>, init: InitResult, m: map<string, seq<Int32>>)
    : (map<string, seq<Int32>>, Answer)
  {
    if operands != [] || init.Threw? then (m, Failed)
    else if !init.flag then (m, Affected(0))
    else (m + Copied(cs, m), Affected(|CopySet(cs, m)|))
  }

  ghost function PlainRewrite(fm: FieldMap, kind: RewriteQuery, operands: seq<string>, conds: seq<QueryCondition>, m: map<string, seq<Int32>>)
    : (map<string, seq<Int32>>, Answer)
  {
    var (cs, init) := Init(fm, conds);
    PlainRewriteWith(fm, kind, operands, cs, init, m)
  }

  ghost function PlainRewriteWith(fm: FieldMap, kind: RewriteQuery, operands: seq<string>, cs: seq<QueryCondition>, init: InitResult,
                                  m: map<string, seq<Int32>>): (map<string, seq<Int32>>, Answer)
  {
    if !ArityOk(kind, operands) || init.Threw? || (kind.SwapQuery? && !Known(fm, operands)) then (m, Failed)
    else if !init.flag then (m, Affected(0))
    else if Known(fm, operands) then (Mapped(m, Targeting(cs, KernelOf(kind, fm, operands))), Affected(|Hits(cs, m)|))
    else if |Hits(cs, m)| == 0 then (m, Affected(0))
    else (m, Failed)
  }

  ghost function PlainCount(fm: FieldMap, operands: seq<string>, conds: seq<QueryCondition>, m: map<string, seq<Int32>>): Answer {
    var (cs, init) := Init(fm, conds);
    if operands != [] || init.Threw? then Failed else Number(if init.flag then |Hits(cs, m)| else 0)
  }

  /** The same queries on a plain key-to-values map, with no vector, no index and no order. */
  ghost function Plain(fm: FieldMap, c: Command, m: map<string, seq<Int32>>): (map<string, seq<Int32>>, Answer) {
    match c
    case Insert(operands, numbers) =>
      if operands == [] || numbers == [] || operands[0] in m then (m, Failed)
      else (m[operands[0] := numbers[1..]], Null)
    case Update(operands, v, conds) =>
      if OfKey(operands) then PlainRename(fm, operands, conds, m) else PlainUpdate(fm, operands, v, conds, m)
    case Delete(operands, conds) => PlainDelete(fm, operands, conds, m)
    case Duplicate(operands, conds) => PlainDuplicate(fm, operands, conds, m)
    case Rewrite(kind, operands, conds) => PlainRewrite(fm, kind, operands, conds, m)
    case Truncate => (map[], Null)
    case Count(operands, conds) => (m, PlainCount(fm, operands, conds, m))
    case Aggregate(g, operands, conds) => (m, Aggregating(g, fm, operands, conds, Ordered(m)))
    case Select(operands, conds) => (m, Selecting(fm, operands, conds, m))
  }

  // ---------------------------------------------------------------- counting and folding need no order

  lemma HitsSnoc(cs: seq<QueryCondition>, m: map<string, seq<Int32>>, r: Row)
    requires r.key !in m
    ensures |Hits(cs, m[r.key := r.vals])| == |Hits(cs, m)| + (if Matches(cs, r) then 1 else 0)
  {
    var after := Hits(cs, m[r.key := r.vals]);
    assert r == Row(r.key, r.vals);
    if Matches(cs, r) {
      assert after == Hits(cs, m) + {r.key};
    } else {
      assert after == Hits(cs, m);
    }
  }

  lemma {:induction false} HitsCount(cs: seq<QueryCondition>, rows: seq<Row>)
    requires UniqueKeys(rows)
    ensures CountMatches(cs, rows) == |Hits(cs, AsMap(rows))|
  {
    if rows != [] {
      var n := |rows| - 1;
      assert rows == rows[..n] + [rows[n]];
      HitsCount(cs, rows[..n]);
      AsMapSnoc(rows[..n], rows[n]);
      HitsSnoc(cs, AsMap(rows[..n]), rows[n]);
    } else {
      assert Hits(cs, AsMap(rows)) == {};
    }
  }

  lemma AsMapSnoc(rows: seq<Row>, r: Row)
    requires UniqueKeys(rows + [r])
    ensures UniqueKeys(rows) && r.key !in AsMap(rows)
    ensures AsMap(rows + [r]) == AsMap(rows)[r.key := r.vals]
  {
    var all := rows + [r];
    assert forall i :: 0 <= i < |rows| ==> all[i] == rows[i];
    assert all[|rows|] == r;
    forall x ensures x in all <==> Entry(AsMap(rows)[r.key := r.vals], x) {
      RowInMap(rows, x);
      assert x in all <==> x in rows || x == r;
    }
    MapFromRows(all, AsMap(rows)[r.key := r.vals]);
  }

  lemma {:induction false} RowsOnce(rows: seq<Row>, r: Row)
    requires UniqueKeys(rows)
    ensures multiset(rows)[r] == if r in rows then 1 else 0
  {
    if rows != [] {
      var n := |rows| - 1;
      assert rows == rows[..n] + [rows[n]];
      RowsOnce(rows[..n], r);
    }
  }

  lemma AscendingKeys(rows: seq<Row>)
    requires Ascending(rows)
    ensures UniqueKeys(rows)
  {
    forall i, j | 0 <= i < j < |rows| ensures rows[i].key != rows[j].key {
      KeyLessTotal(rows[i].key, rows[j].key);
    }
  }

  /** A table is a permutation of its map's rows in key order. */
  lemma TableIsPermutation(rows: seq<Row>)
    requires UniqueKeys(rows)
    ensures multiset(rows) == multiset(Ordered(AsMap(rows)))
    ensures UniqueKeys(Ordered(AsMap(rows))) && AsMap(Ordered(AsMap(rows))) == AsMap(rows)
  {
    var m := AsMap(rows);
    var o := Ordered(m);
    OrderedRows(m);
    AscendingKeys(o);
    MapFromRows(o, m);
    forall r ensures r in rows <==> r in o {
      RowInMap(rows, r);
    }
    SameBag(rows, o);
  }

  lemma SameBag(a: seq<Row>, b: seq<Row>)
    requires UniqueKeys(a) && UniqueKeys(b)
    requires forall r :: r in a <==> r in b
    ensures multiset(a) == multiset(b)
  {
    forall r ensures multiset(a)[r] == multiset(b)[r] {
      RowsOnce(a, r);
      RowsOnce(b, r);
    }
  }

  lemma ColumnCut(a: Agg, cs: seq<QueryCondition>, f: nat, rows: seq<Row>, i: nat)
    requires i < |rows|
    ensures Column(a, cs, f, rows) ==
      if Matches(cs, rows[i]) then Join(a, Column(a, cs, f, Cut(rows, i)), Cell(rows[i], f)) else Column(a, cs, f, Cut(rows, i))
  {
    assert rows == (rows[..i] + [rows[i]]) + rows[i + 1..];
    ColumnConcat(a, cs, f, rows[..i] + [rows[i]], rows[i + 1..]);
    ColumnSnoc(a, cs, f, rows[..i], rows[i]);
    ColumnConcat(a, cs, f, rows[..i], rows[i + 1..]);
  }

  lemma CutSame(cs: seq<QueryCondition>, xs: seq<Row>, ys: seq<Row>, i: nat)
    requires xs != [] && i < |ys| && ys[i] == xs[|xs| - 1] && multiset(xs) == multiset(ys)
    ensures multiset(xs[..|xs| - 1]) == multiset(Cut(ys, i))
  {
    var n := |xs| - 1;
    assert xs == xs[..n] + [xs[n]];
    CountCut(cs, ys, i);
    assert multiset(xs) == multiset(xs[..n]) + multiset{xs[n]};
    assert multiset(xs[..n]) == multiset(xs) - multiset{xs[n]} == multiset(Cut(ys, i));
  }

  /** SUM, MIN and MAX do not depend on the order of the rows. */
  lemma {:induction false} ColumnPermutes(a: Agg, cs: seq<QueryCondition>, f: nat, xs: seq<Row>, ys: seq<Row>)
    requires multiset(xs) == multiset(ys)
    ensures Column(a, cs, f, xs) == Column(a, cs, f, ys)
    decreases |xs|
  {
    if xs == [] {
      assert |multiset(ys)| == 0;
    } else {
      var n := |xs| - 1;
      assert xs[n] in multiset(xs);
      var i :| 0 <= i < |ys| && ys[i] == xs[n];
      CutSame(cs, xs, ys, i);
      ColumnPermutes(a, cs, f, xs[..n], Cut(ys, i));
      ColumnCut(a, cs, f, ys, i);
    }
  }

  lemma TotalsPermute(g: Agg, cs: seq<QueryCondition>, fs: seq<nat>, rows: seq<Row>)
    requires UniqueKeys(rows)
    ensures Totals(g, cs, fs, rows) == Totals(g, cs, fs, Ordered(AsMap(rows)))
  {
    TableIsPermutation(rows);
    forall j | 0 <= j < |fs| ensures Column(g, cs, fs[j], rows) == Column(g, cs, fs[j], Ordered(AsMap(rows))) {
      ColumnPermutes(g, cs, fs[j], rows, Ordered(AsMap(rows)));
    }
  }

  lemma CountPermutes(cs: seq<QueryCondition>, rows: seq<Row>)
    requires UniqueKeys(rows)
    ensures CountMatches(cs, rows) == CountMatches(cs, Ordered(AsMap(rows)))
  {
    TableIsPermutation(rows);
    HitsCount(cs, rows);
    HitsCount(cs, Ordered(AsMap(rows)));
  }

  lemma AggregatePermutesWith(g: Agg, fm: FieldMap, operands: seq<string>, cs: seq<QueryCondition>, init: InitResult, rows: seq<Row>)
    requires UniqueKeys(rows)
    ensures AggregatingWith(g, fm, operands, cs, init, rows) == AggregatingWith(g, fm, operands, cs, init, Ordered(AsMap(rows)))
  {
    CountPermutes(cs, rows);
    if Known(fm, operands) {
      TotalsPermute(g, cs, Positions(fm, operands), rows);
    }
  }

  lemma AggregatePermutes(g: Agg, fm: FieldMap, operands: seq<string>, conds: seq<QueryCondition>, rows: seq<Row>)
    requires UniqueKeys(rows)
    ensures Aggregating(g, fm, operands, conds, rows) == Aggregating(g, fm, operands, conds, Ordered(AsMap(rows)))
  {
    AggregatePermutesWith(g, fm, operands, Init(fm, conds).0, Init(fm, conds).1, rows);
  }

  // ---------------------------------------------------------------- every step refines the plain map

  /** A row-by-row change that keeps keys is the same change on the map. */
  lemma MapRows(rows: seq<Row>, now: seq<Row>, change: Row -> Row)
    requires UniqueKeys(rows) && |now| == |rows|
    requires forall r :: change(r).key == r.key
    requires forall i :: 0 <= i < |rows| ==> now[i] == change(rows[i])
    ensures UniqueKeys(now)
    ensures AsMap(now) == Mapped(AsMap(rows), change)
  {
    forall r ensures r in now <==> Entry(Mapped(AsMap(rows), change), r) {
      MappedRow(rows, now, change, r);
    }
    MapFromRows(now, Mapped(AsMap(rows), change));
  }

  lemma MappedRow(rows: seq<Row>, now: seq<Row>, change: Row -> Row, r: Row)
    requires UniqueKeys(rows) && |now| == |rows|
    requires forall r :: change(r).key == r.key
    requires forall i :: 0 <= i < |rows| ==> now[i] == change(rows[i])
    ensures r in now <==> Entry(Mapped(AsMap(rows), change), r)
  {
    if r in now {
      var i :| 0 <= i < |now| && now[i] == r;
      assert Row(rows[i].key, AsMap(rows)[rows[i].key]) == rows[i];
    }
    if Entry(Mapped(AsMap(rows), change), r) {
      var i :| 0 <= i < |rows| && rows[i].key == r.key;
      assert rows[i] == Row(r.key, AsMap(rows)[r.key]);
      assert now[i] == r;
    }
  }

  lemma DeleteRefines(cs: seq<QueryCondition>, rows: seq<Row>, now: seq<Row>)
    requires UniqueKeys(rows) && Survivors(cs, rows, now)
    ensures UniqueKeys(now) && AsMap(now) == AsMap(rows) - Hits(cs, AsMap(rows))
  {
    var m := AsMap(rows) - Hits(cs, AsMap(rows));
    forall r ensures r in now <==> r in rows && !Matches(cs, r) {
      assert r in now <==> multiset(now)[r] > 0;
      assert r in rows <==> multiset(rows)[r] > 0;
    }
    SurvivorsUnique(cs, rows, now);
    forall r ensures r in now <==> Entry(m, r) {
      RowInMap(rows, r);
      assert r == Row(r.key, r.vals);
    }
    MapFromRows(now, m);
  }

  lemma SurvivorsUnique(cs: seq<QueryCondition>, rows: seq<Row>, now: seq<Row>)
    requires UniqueKeys(rows) && Survivors(cs, rows, now)
    ensures UniqueKeys(now)
  {
    forall i, j | 0 <= i < j < |now| ensures now[i].key != now[j].key {
      RowsOnce(rows, now[i]);
      assert multiset(now)[now[i]] <= 1;
      TwiceCounts(now, i, j);
      assert now[i] in multiset(now) && now[j] in multiset(now);
      assert now[i] in rows && now[j] in rows;
      var p :| 0 <= p < |rows| && rows[p] == now[i];
      var q :| 0 <= q < |rows| && rows[q] == now[j];
      assert p != q;
    }
  }

  lemma TwiceCounts(rows: seq<Row>, i: nat, j: nat)
    requires i < j < |rows|
    ensures rows[i] == rows[j] ==> multiset(rows)[rows[i]] >= 2
  {
    assert rows == rows[..j] + [rows[j]] + rows[j + 1..];
    assert rows[..j][i] == rows[i];
    assert rows[i] in multiset(rows[..j]);
  }

  lemma InsertRefines(rows: seq<Row>, key: string, vals: seq<Int32>)
    requires UniqueKeys(rows) && key !in Keys(rows)
    ensures UniqueKeys(rows + [Row(key, vals)])
    ensures AsMap(rows + [Row(key, vals)]) == AsMap(rows)[key := vals]
  {
    var all := rows + [Row(key, vals)];
    assert forall i :: 0 <= i < |rows| ==> all[i] == rows[i] && all[i].key in Keys(rows);
    AsMapSnoc(rows, Row(key, vals));
  }

  lemma CopiesUnique(rows: seq<Row>, keys: seq<string>)
    requires UniqueKeys(rows) && Copyable(rows, keys)
    ensures UniqueKeys(rows + Copies(rows, keys))
  {
    var all, n := rows + Copies(rows, keys), |rows|;
    forall i, j | 0 <= i < j < |all| ensures all[i].key != all[j].key {
      if n <= i {
        if all[i].key == all[j].key {
          CopyInjective(keys[i - n], keys[j - n]);
        }
      } else {
        assert all[i].key in Keys(rows);
      }
    }
  }

  lemma OriginalOfCopy(k: string)
    ensures Original(k + COPY_SUFFIX) == k
  {
    assert (k + COPY_SUFFIX)[..|k|] == k;
  }

  lemma CopySetIs(cs: seq<QueryCondition>, rows: seq<Row>, key: string)
    requires UniqueKeys(rows)
    ensures key in CopyKeys(cs, Keys(rows), rows) <==> key in CopySet(cs, AsMap(rows))
  {
    CopyKeysFrom(cs, Keys(rows), rows, key);
    if key in CopySet(cs, AsMap(rows)) {
      RowInMap(rows, Row(key, AsMap(rows)[key]));
      var i :| 0 <= i < |rows| && rows[i] == Row(key, AsMap(rows)[key]);
      assert rows[i].key == key && Matches(cs, rows[i]);
    }
    if i :| 0 <= i < |rows| && rows[i].key == key && Matches(cs, rows[i]) {
      assert rows[i] == Row(key, AsMap(rows)[key]);
    }
  }

  lemma {:induction false} DistinctSize(keys: seq<string>, s: set<string>)
    requires forall k, l :: 0 <= k < l < |keys| ==> keys[k] != keys[l]
    requires forall k :: k in keys <==> k in s
    ensures |keys| == |s|
  {
    if keys == [] {
      assert s == {};
    } else {
      var last := keys[|keys| - 1];
      assert last in keys;
      var front := keys[..|keys| - 1];
      forall k ensures k in front <==> k in s - {last} {
        if k in keys && k != last {
          var i :| 0 <= i < |keys| && keys[i] == k;
          assert front[i] == k;
        }
      }
      DistinctSize(front, s - {last});
    }
  }

  lemma DuplicateRefines(cs: seq<QueryCondition>, rows: seq<Row>)
    requires UniqueKeys(rows)
    ensures var keys := CopyKeys(cs, Keys(rows), rows);
      && Copyable(rows, keys) && UniqueKeys(rows + Copies(rows, keys))
      && AsMap(rows + Copies(rows, keys)) == AsMap(rows) + Copied(cs, AsMap(rows))
      && |keys| == |CopySet(cs, AsMap(rows))|
  {
    var keys, m := CopyKeys(cs, Keys(rows), rows), AsMap(rows);
    CopyKeysCopyable(cs, rows);
    CopiesUnique(rows, keys);
    forall k ensures k in keys <==> k in CopySet(cs, m) {
      CopySetIs(cs, rows, k);
    }
    DistinctSize(keys, CopySet(cs, m));
    CopiedIs(cs, rows, keys);
  }

  lemma CopiedIs(cs: seq<QueryCondition>, rows: seq<Row>, keys: seq<string>)
    requires UniqueKeys(rows) && Copyable(rows, keys) && UniqueKeys(rows + Copies(rows, keys))
    requires forall k :: k in keys <==> k in CopySet(cs, AsMap(rows))
    ensures AsMap(rows + Copies(rows, keys)) == AsMap(rows) + Copied(cs, AsMap(rows))
  {
    var m := AsMap(rows);
    forall r ensures r in rows + Copies(rows, keys) <==> Entry(m + Copied(cs, m), r) {
      RowInMap(rows, r);
      CopyIsEntry(cs, rows, keys, r);
      if r.key in m {
        NoCopyTaken(cs, m, r.key);
      }
      assert r in rows + Copies(rows, keys) <==> r in rows || r in Copies(rows, keys);
    }
    MapFromRows(rows + Copies(rows, keys), m + Copied(cs, m));
  }

  lemma CopyIsEntry(cs: seq<QueryCondition>, rows: seq<Row>, keys: seq<string>, r: Row)
    requires UniqueKeys(rows) && Copyable(rows, keys)
    requires forall k :: k in keys <==> k in CopySet(cs, AsMap(rows))
    ensures r in Copies(rows, keys) <==> Entry(Copied(cs, AsMap(rows)), r)
  {
    var m, copies := AsMap(rows), Copies(rows, keys);
    if r in copies {
      var i :| 0 <= i < |keys| && copies[i] == r;
      assert keys[i] in keys;
      CopyEntry(cs, m, keys[i]);
    }
    if Entry(Copied(cs, m), r) {
      var o :| o in CopySet(cs, m) && o + COPY_SUFFIX == r.key;
      CopyEntry(cs, m, o);
      var i :| 0 <= i < |keys| && keys[i] == o;
      assert copies[i] == r;
    }
  }

  lemma NoCopyTaken(cs: seq<QueryCondition>, m: map<string, seq<Int32>>, k: string)
    requires k in m
    ensures k !in Copied(cs, m)
  {
  }

  lemma CopyEntry(cs: seq<QueryCondition>, m: map<string, seq<Int32>>, o: string)
    requires o in CopySet(cs, m)
    ensures o in m && o + COPY_SUFFIX in Copied(cs, m) && Copied(cs, m)[o + COPY_SUFFIX] == m[o]
  {
    OriginalOfCopy(o);
  }

  lemma CountIsHits(cs: seq<QueryCondition>, rows: seq<Row>)
    requires UniqueKeys(rows)
    ensures CountMatches(cs, rows) == |Hits(cs, AsMap(rows))|
    ensures cs == [] ==> |Hits(cs, AsMap(rows))| == |rows|
  {
    HitsCount(cs, rows);
    if cs == [] {
      CountAll(rows);
    }
  }

  /** The step leaves an exact index, the width of the rows and the map and answer of the plain query. */
  ghost predicate Refines(width: nat, r: (Contents, Answer), plain: (map<string, seq<Int32>>, Answer)) {
    && Sound(r.0) && UniqueKeys(r.0.data) && AllWide(r.0.data, width)
    && AsMap(r.0.data) == plain.0 && r.1 == plain.1
  }

  lemma Unchanged(width: nat, s: Contents, a: Answer)
    requires Sound(s) && UniqueKeys(s.data) && AllWide(s.data, width)
    ensures Refines(width, (s, a), (AsMap(s.data), a))
  {
  }

  lemma SurvivorsWide(cs: seq<QueryCondition>, rows: seq<Row>, now: seq<Row>, width: nat)
    requires Survivors(cs, rows, now) && AllWide(rows, width)
    ensures AllWide(now, width)
  {
    forall i | 0 <= i < |now| ensures |now[i].vals| == width {
      assert now[i] in multiset(now);
      assert now[i] in multiset(rows);
    }
  }

  lemma DeleteStep(cs: seq<QueryCondition>, s: Contents, t: Contents, width: nat)
    requires Sound(s) && UniqueKeys(s.data) && AllWide(s.data, width)
    requires Sound(t) && Survivors(cs, s.data, t.data)
    ensures var m := AsMap(s.data);
      Refines(width, (t, Affected(CountMatches(cs, s.data))), (m - Hits(cs, m), Affected(|Hits(cs, m)|)))
  {
    CountIsHits(cs, s.data);
    SurvivorsWide(cs, s.data, t.data, width);
    DeleteRefines(cs, s.data, t.data);
  }

  lemma DeleteStepWith(operands: seq<string>, cs: seq<QueryCondition>, init: InitResult, s: Contents, width: nat)
    requires Sound(s) && UniqueKeys(s.data) && AllWide(s.data, width)
    ensures Refines(width, DeletingWith(operands, cs, init, s), PlainDeleteWith(operands, cs, init, AsMap(s.data)))
  {
    if operands == [] && init.Flag? && init.flag {
      if cs == [] {
        CountAll(s.data);
        DeleteStep(cs, s, Contents([], map[]), width);
      } else {
        DeletedExact(cs, s);
        DeleteStep(cs, s, DeletedFrom(cs, s, 0), width);
      }
    } else {
      Unchanged(width, s, DeletingWith(operands, cs, init, s).1);
    }
  }

  lemma InsertStep(fm: FieldMap, c: Command, s: Contents, width: nat)
    requires c.Insert? && Sound(s) && UniqueKeys(s.data) && AllWide(s.data, width) && ShapeSafe(c, width)
    ensures Refines(width, Sequential(fm, c, s), Plain(fm, c, AsMap(s.data)))
  {
    ExactKeys(s.data, s.keyMap);
    if c.operands != [] && c.numbers != [] && c.operands[0] !in s.keyMap {
      InsertExact(s, Row(c.operands[0], c.numbers[1..]));
      InsertRefines(s.data, c.operands[0], c.numbers[1..]);
    }
  }

  lemma CopiesWide(rows: seq<Row>, keys: seq<string>, width: nat)
    requires UniqueKeys(rows) && AllWide(rows, width) && forall k :: 0 <= k < |keys| ==> keys[k] in Keys(rows)
    ensures AllWide(rows + Copies(rows, keys), width)
  {
    forall k | 0 <= k < |keys| ensures |Copies(rows, keys)[k].vals| == width {
      assert rows[Find(rows, keys[k])].key == keys[k];
    }
  }

  lemma DuplicateStep(cs: seq<QueryCondition>, s: Contents, width: nat)
    requires Sound(s) && UniqueKeys(s.data) && AllWide(s.data, width)
    ensures var keys, m := CopyKeys(cs, Keys(s.data), s.data), AsMap(s.data);
      && CopyAll(s, keys).Some?
      && Refines(width, (CopyAll(s, keys).value, Affected(|keys|)), (m + Copied(cs, m), Affected(|CopySet(cs, m)|)))
  {
    DuplicateExact(cs, s);
    DuplicateRefines(cs, s.data);
    CopiesWide(s.data, CopyKeys(cs, Keys(s.data), s.data), width);
  }

  lemma DuplicateStepWith(operands: seq<string>, cs: seq<QueryCondition>, init: InitResult, s: Contents, width: nat)
    requires Sound(s) && UniqueKeys(s.data) && AllWide(s.data, width)
    ensures Refines(width, DuplicatingWith(operands, cs, init, s), PlainDuplicateWith(operands, cs, init, AsMap(s.data)))
  {
    if operands == [] && init.Flag? && init.flag {
      DuplicateStep(cs, s, width);
      assert PlainDuplicateWith(operands, cs, init, AsMap(s.data)) ==
        (AsMap(s.data) + Copied(cs, AsMap(s.data)), Affected(|CopySet(cs, AsMap(s.data))|));
    } else {
      Unchanged(width, s, DuplicatingWith(operands, cs, init, s).1);
    }
  }

  /** A change of cells alone keeps the index, since the keys stay where they are. */
  lemma CellsStep(s: Contents, now: seq<Row>, change: Row -> Row, a: Answer, width: nat)
    requires Sound(s) && UniqueKeys(s.data) && AllWide(s.data, width) && |now| == |s.data|
    requires forall r :: change(r).key == r.key && |change(r).vals| == |r.vals|
    requires forall i :: 0 <= i < |now| ==> now[i] == change(s.data[i])
    ensures Refines(width, (Contents(now, s.keyMap), a), (Mapped(AsMap(s.data), change), a))
  {
    MapRows(s.data, now, change);
    CellsExact(s, now);
  }

  lemma RewriteKnown(cs: seq<QueryCondition>, k: Kernel, s: Contents, width: nat)
    requires Sound(s) && UniqueKeys(s.data) && AllWide(s.data, width) && Sensible(k)
    ensures Refines(width, (Contents(Rewritten(cs, k, s.data), s.keyMap), Affected(CountMatches(cs, s.data))),
                    (Mapped(AsMap(s.data), Targeting(cs, k)), Affected(|Hits(cs, AsMap(s.data))|)))
  {
    HitsCount(cs, s.data);
    CellsStep(s, Rewritten(cs, k, s.data), Targeting(cs, k), Affected(CountMatches(cs, s.data)), width);
  }

  lemma RewriteStepWith(fm: FieldMap, kind: RewriteQuery, operands: seq<string>, cs: seq<QueryCondition>, init: InitResult,
                        s: Contents, width: nat)
    requires Sound(s) && UniqueKeys(s.data) && AllWide(s.data, width)
    ensures Refines(width, KeepingIndex(s, RewritingWith(kind, fm, operands, cs, init, s.data)),
                    PlainRewriteWith(fm, kind, operands, cs, init, AsMap(s.data)))
  {
    if ArityOk(kind, operands) && init.Flag? && init.flag && Known(fm, operands) {
      RewriteKnown(cs, KernelOf(kind, fm, operands), s, width);
    } else {
      HitsCount(cs, s.data);
      Unchanged(width, s, RewritingWith(kind, fm, operands, cs, init, s.data).1);
    }
  }

  lemma UpdateKnown(cs: seq<QueryCondition>, f: nat, v: Int32, s: Contents, width: nat)
    requires Sound(s) && UniqueKeys(s.data) && AllWide(s.data, width)
    ensures Refines(width, (Contents(Updated(cs, f, v, s.data), s.keyMap), Affected(CountMatches(cs, s.data))),
                    (Mapped(AsMap(s.data), Setting(cs, f, v)), Affected(|Hits(cs, AsMap(s.data))|)))
  {
    HitsCount(cs, s.data);
    CellsStep(s, Updated(cs, f, v, s.data), Setting(cs, f, v), Affected(CountMatches(cs, s.data)), width);
  }

  lemma UpdateStep(fm: FieldMap, operands: seq<string>, v: Int32, conds: seq<QueryCondition>, s: Contents, width: nat)
    requires Sound(s) && UniqueKeys(s.data) && AllWide(s.data, width)
    ensures Refines(width, KeepingIndex(s, Updating(fm, operands, v, conds, s.data)),
                    PlainUpdate(fm, operands, v, conds, AsMap(s.data)))
  {
    var (cs, init) := Init(fm, conds);
    if |operands| == 2 && operands[0] in fm && init.Flag? && init.flag {
      UpdateKnown(cs, fm[operands[0]], v, s, width);
    } else {
      Unchanged(width, s, Updating(fm, operands, v, conds, s.data).1);
    }
  }

  // ---------------------------------------------------------------- renaming

  lemma SingleHit(cs: seq<QueryCondition>, rows: seq<Row>, i: nat)
    requires UniqueKeys(rows) && i < |rows| && Matches(cs, rows[i]) && CountMatches(cs, rows) == 1
    ensures Hits(cs, AsMap(rows)) == {rows[i].key}
    ensures forall j :: 0 <= j < |rows| && j != i ==> !Matches(cs, rows[j])
  {
    TwoMatches(cs, rows);
    CountIsHits(cs, rows);
    var hits := Hits(cs, AsMap(rows));
    assert rows[i].key in hits by {
      assert rows[i] == Row(rows[i].key, AsMap(rows)[rows[i].key]);
    }
    SubsetSize({rows[i].key}, hits);
  }

  /** One row under another key that no other row holds is one entry under another key. */
  lemma RenameOne(rows: seq<Row>, now: seq<Row>, i: nat, key: string)
    requires UniqueKeys(rows) && i < |rows| && now == rows[i := rows[i].(key := key)]
    requires forall j :: 0 <= j < |rows| && j != i ==> rows[j].key != key
    ensures UniqueKeys(now) && AsMap(now) == (AsMap(rows) - {rows[i].key})[key := rows[i].vals]
  {
    var m := (AsMap(rows) - {rows[i].key})[key := rows[i].vals];
    forall r ensures r in now <==> Entry(m, r) {
      RowInMap(rows, r);
      ReplacedRow(rows, now, i, r);
    }
    MapFromRows(now, m);
  }

  lemma ReplacedRow(rows: seq<Row>, now: seq<Row>, i: nat, r: Row)
    requires UniqueKeys(rows) && i < |rows| && |now| == |rows|
    requires forall j :: 0 <= j < |rows| && j != i ==> now[j] == rows[j]
    ensures r in now <==> r == now[i] || (r in rows && r.key != rows[i].key)
  {
    if r in rows && r.key != rows[i].key {
      var j :| 0 <= j < |rows| && rows[j] == r;
      assert now[j] == r;
    }
    if r in now && r != now[i] {
      var j :| 0 <= j < |now| && now[j] == r;
      assert rows[j] == r;
    }
  }

  lemma RenameRefines(cs: seq<QueryCondition>, key: string, rows: seq<Row>, now: seq<Row>)
    requires UniqueKeys(rows) && AllRenamed(cs, key, rows, now) && RenameSafe(cs, rows, key)
    ensures UniqueKeys(now) && AsMap(now) == Rekeyed(Hits(cs, AsMap(rows)), key, AsMap(rows))
  {
    CountIsHits(cs, rows);
    CountNone(cs, rows);
    if CountMatches(cs, rows) == 0 {
      NoneRenamed(cs, key, rows, now);
    } else {
      var i :| 0 <= i < |rows| && Matches(cs, rows[i]);
      SingleHit(cs, rows, i);
      OneRenamed(cs, key, rows, now, i);
      RenameOne(rows, now, i, key);
      RekeyedOne(rows[i].key, key, AsMap(rows));
    }
  }

  lemma RekeyedOne(k: string, key: string, m: map<string, seq<Int32>>)
    requires k in m
    ensures Rekeyed({k}, key, m) == (m - {k})[key := m[k]]
  {
  }

  lemma NoneRenamed(cs: seq<QueryCondition>, key: string, rows: seq<Row>, now: seq<Row>)
    requires AllRenamed(cs, key, rows, now) && forall i :: 0 <= i < |rows| ==> !Matches(cs, rows[i])
    ensures now == rows
  {
    assert forall i :: 0 <= i < |rows| ==> now[i] == rows[i];
  }

  lemma OneRenamed(cs: seq<QueryCondition>, key: string, rows: seq<Row>, now: seq<Row>, i: nat)
    requires AllRenamed(cs, key, rows, now) && i < |rows| && Matches(cs, rows[i])
    requires forall j :: 0 <= j < |rows| && j != i ==> !Matches(cs, rows[j])
    ensures now == rows[i := rows[i].(key := key)]
  {
  }

  lemma RenameStepWith(operands: seq<string>, cs: seq<QueryCondition>, init: InitResult, s: Contents, width: nat)
    requires Sound(s) && UniqueKeys(s.data) && AllWide(s.data, width)
    requires |operands| == 2 && init.Flag? && init.flag ==> RenameSafe(cs, s.data, operands[1])
    ensures Refines(width, RenamingWith(operands, cs, init, s), PlainRenameWith(operands, cs, init, AsMap(s.data)))
  {
    if |operands| == 2 && init.Flag? && init.flag {
      RenamingExact(cs, operands[1], s);
      RenamedWide(cs, operands[1], s, width);
      RenameRefines(cs, operands[1], s.data, RenamedFrom(cs, operands[1], s, 0).data);
      CountIsHits(cs, s.data);
    }
  }

  lemma CountRefines(fm: FieldMap, operands: seq<string>, conds: seq<QueryCondition>, rows: seq<Row>)
    requires UniqueKeys(rows)
    ensures Counting(fm, operands, conds, rows) == PlainCount(fm, operands, conds, AsMap(rows))
  {
    HitsCount(Init(fm, conds).0, rows);
  }

  lemma UpdateAnyStep(fm: FieldMap, c: Command, s: Contents, width: nat)
    requires c.Update? && Sound(s) && UniqueKeys(s.data) && AllWide(s.data, width) && IndexSafe(fm, c, s.data)
    ensures Refines(width, Sequential(fm, c, s), Plain(fm, c, AsMap(s.data)))
  {
    if OfKey(c.operands) {
      RenameStepWith(c.operands, Init(fm, c.conds).0, Init(fm, c.conds).1, s, width);
    } else {
      UpdateStep(fm, c.operands, c.v, c.conds, s, width);
    }
  }

  /** DELETE, DUPLICATE and the queries that write cells. */
  lemma ChangeStep(fm: FieldMap, c: Command, s: Contents, width: nat)
    requires c.Delete? || c.Duplicate? || c.Rewrite?
    requires Sound(s) && UniqueKeys(s.data) && AllWide(s.data, width)
    ensures Refines(width, Sequential(fm, c, s), Plain(fm, c, AsMap(s.data)))
  {
    var (cs, init) := Init(fm, c.conds);
    match c
    case Delete(operands, conds) => DeleteStepWith(operands, cs, init, s, width);
    case Duplicate(operands, conds) => DuplicateStepWith(operands, cs, init, s, width);
    case Rewrite(kind, operands, conds) => RewriteStepWith(fm, kind, operands, cs, init, s, width);
  }

  lemma ReadStep(fm: FieldMap, c: Command, s: Contents, width: nat)
    requires c.Count? || c.Aggregate? || c.Select? || c.Truncate?
    requires Sound(s) && UniqueKeys(s.data) && AllWide(s.data, width)
    ensures Refines(width, Sequential(fm, c, s), Plain(fm, c, AsMap(s.data)))
  {
    match c
    case Truncate => assert AsMap([]) == map[];
    case Count(operands, conds) => CountRefines(fm, operands, conds, s.data);
    case Aggregate(g, operands, conds) => AggregatePermutes(g, fm, operands, conds, s.data);
    case Select(_, _) =>
  }

  /** Each query that is safe keeps the index exact and the rows wide, does to the table's map what it
      does to a plain map and answers the same; in particular the order of the rows cannot be
      observed. */
  lemma StepRefines(fm: FieldMap, c: Command, s: Contents, width: nat)
    requires Sound(s) && UniqueKeys(s.data) && AllWide(s.data, width)
    requires IndexSafe(fm, c, s.data) && ShapeSafe(c, width)
    ensures Refines(width, Sequential(fm, c, s), Plain(fm, c, AsMap(s.data)))
  {
    if c.Insert? {
      InsertStep(fm, c, s, width);
    } else if c.Update? {
      UpdateAnyStep(fm, c, s, width);
    } else if c.Delete? || c.Duplicate? || c.Rewrite? {
      ChangeStep(fm, c, s, width);
    } else {
      ReadStep(fm, c, s, width);
    }
  }
}
