/** COUNT, SUM, MIN and MAX: what they compute over the matching rows, and the sequential loops. */
module Aggregates {
  import opened Values
  import opened Conditions
  import opened Tables
  import opened Queries

  datatype Agg = Sum | Max | Min

  /** What the result array is filled with before the scan. */
  function Unit(a: Agg): Int32 {
    match a
    case Sum => 0
    case Max => INT_MIN
    case Min => INT_MAX
  }

  /** The aggregate of two exact values. */
  function Join(a: Agg, x: int, y: int): int {
    match a
    case Sum => x + y
    case Max => if x < y then y else x
    case Min => if x > y then y else x
  }

  /** One update of an `int` accumulator; also how a task's result is merged. */
  function Accumulate(a: Agg, acc: Int32, v: Int32): Int32 {
    Wrap(Join(a, acc, v))
  }

  /** The exact aggregate of column f over the matching rows. */
  function Column(a: Agg, cs: seq<QueryCondition>, f: nat, rows: seq<Row>): (x: int)
    ensures !a.Sum? ==> InRange(x)
    ensures Join(a, x, Unit(a)) == x == Join(a, Unit(a), x)
  {
    if rows == [] then Unit(a)
    else
      var front := Column(a, cs, f, rows[..|rows| - 1]);
      var last := rows[|rows| - 1];
      if Matches(cs, last) then Join(a, front, Cell(last, f)) else front
  }

  /** The accumulators after these rows. */
  function Totals(a: Agg, cs: seq<QueryCondition>, fs: seq<nat>, rows: seq<Row>): (out: seq<Int32>)
    ensures |out| == |fs|
    ensures forall j :: 0 <= j < |fs| ==> out[j] == Wrap(Column(a, cs, fs[j], rows))
  {
    seq(|fs|, j requires 0 <= j < |fs| => Wrap(Column(a, cs, fs[j], rows)))
  }

  lemma ColumnSnoc(a: Agg, cs: seq<QueryCondition>, f: nat, rows: seq<Row>, r: Row)
    ensures Column(a, cs, f, rows + [r]) ==
      if Matches(cs, r) then Join(a, Column(a, cs, f, rows), Cell(r, f)) else Column(a, cs, f, rows)
  {
    assert (rows + [r])[..|rows|] == rows;
  }

  lemma {:induction false} ColumnConcat(a: Agg, cs: seq<QueryCondition>, f: nat, xs: seq<Row>, ys: seq<Row>)
    ensures Column(a, cs, f, xs + ys) == Join(a, Column(a, cs, f, xs), Column(a, cs, f, ys))
  {
    if ys == [] {
      assert xs + ys == xs;
    } else {
      var n := |ys| - 1;
      ColumnConcat(a, cs, f, xs, ys[..n]);
      assert xs + ys == (xs + ys[..n]) + [ys[n]];
      ColumnSnoc(a, cs, f, xs + ys[..n], ys[n]);
    }
  }

  lemma ColumnJoin(a: Agg, cs: seq<QueryCondition>, f: nat, rows: seq<Row>, lo: nat, hi: nat)
    requires lo <= hi <= |rows|
    ensures Column(a, cs, f, rows[..hi]) == Join(a, Column(a, cs, f, rows[..lo]), Column(a, cs, f, rows[lo..hi]))
  {
    assert rows[..hi] == rows[..lo] + rows[lo..hi];
    ColumnConcat(a, cs, f, rows[..lo], rows[lo..hi]);
  }

  lemma {:induction false} ColumnNone(a: Agg, cs: seq<QueryCondition>, f: nat, rows: seq<Row>)
    requires CountMatches(cs, rows) == 0
    ensures Column(a, cs, f, rows) == Unit(a)
  {
    if rows != [] {
      ColumnNone(a, cs, f, rows[..|rows| - 1]);
    }
  }

  /** Updating a wrapped accumulator is updating the exact aggregate. */
  lemma AccumulateExact(a: Agg, x: int, v: Int32, y: int)
    requires !a.Sum? ==> InRange(x)
    requires y == Join(a, x, v)
    ensures Accumulate(a, Wrap(x), v) == Wrap(y)
  {
    if a.Sum? {
      WrapStep(Wrap(x), x, v, y);
    }
  }

  /** Merging a wrapped partial result is joining the exact ones. */
  lemma MergeExact(a: Agg, x: int, y: int)
    requires !a.Sum? ==> InRange(x) && InRange(y)
    ensures Accumulate(a, Wrap(x), Wrap(y)) == Wrap(Join(a, x, y))
  {
    if a.Sum? {
      MergeSum(x, y);
    } else {
      MergeInRange(a, x, y);
    }
  }

  lemma MergeSum(x: int, y: int)
    ensures Accumulate(Sum, Wrap(x), Wrap(y)) == Wrap(Join(Sum, x, y))
  {
    WrapBoth(x, y);
  }

  lemma MergeInRange(a: Agg, x: Int32, y: Int32)
    requires !a.Sum?
    ensures Accumulate(a, x, y) == Join(a, x, y) == Wrap(Join(a, x, y))
  {
  }

  lemma {:induction false} ColumnAttained(a: Agg, cs: seq<QueryCondition>, f: nat, rows: seq<Row>)
    requires !a.Sum? && CountMatches(cs, rows) > 0
    ensures exists i :: 0 <= i < |rows| && Matches(cs, rows[i]) && Cell(rows[i], f) == Column(a, cs, f, rows)
  {
    var n := |rows| - 1;
    var front := rows[..n];
    if CountMatches(cs, front) > 0 {
      ColumnAttained(a, cs, f, front);
      var i :| 0 <= i < |front| && Matches(cs, front[i]) && Cell(front[i], f) == Column(a, cs, f, front);
      assert rows[i] == front[i];
    } else {
      ColumnNone(a, cs, f, front);
    }
    assert Matches(cs, rows[n]) || CountMatches(cs, front) > 0;
  }

  lemma {:induction false} ColumnBounds(a: Agg, cs: seq<QueryCondition>, f: nat, rows: seq<Row>, i: nat)
    requires i < |rows| && Matches(cs, rows[i])
    ensures a.Max? ==> Cell(rows[i], f) <= Column(a, cs, f, rows)
    ensures a.Min? ==> Column(a, cs, f, rows) <= Cell(rows[i], f)
  {
    if i < |rows| - 1 {
      ColumnBounds(a, cs, f, rows[..|rows| - 1], i);
    }
  }

  /** MAX and MIN name a cell of a matching row that no matching row beats. */
  lemma ColumnBest(a: Agg, cs: seq<QueryCondition>, f: nat, rows: seq<Row>)
    requires !a.Sum? && CountMatches(cs, rows) > 0
    ensures exists i :: 0 <= i < |rows| && Matches(cs, rows[i]) && Cell(rows[i], f) == Column(a, cs, f, rows)
    ensures forall i :: 0 <= i < |rows| && Matches(cs, rows[i]) ==>
      if a.Max? then Cell(rows[i], f) <= Column(a, cs, f, rows) else Column(a, cs, f, rows) <= Cell(rows[i], f)
  {
    ColumnAttained(a, cs, f, rows);
    forall i | 0 <= i < |rows| && Matches(cs, rows[i])
      ensures if a.Max? then Cell(rows[i], f) <= Column(a, cs, f, rows) else Column(a, cs, f, rows) <= Cell(rows[i], f)
    {
      ColumnBounds(a, cs, f, rows, i);
    }
  }

  // ---------------------------------------------------------------- no overflow in SUM

  function Abs(x: int): nat {
    if x < 0 then -x else x
  }

  function AbsColumn(cs: seq<QueryCondition>, f: nat, rows: seq<Row>): nat {
    if rows == [] then 0
    else AbsColumn(cs, f, rows[..|rows| - 1]) + (if Matches(cs, rows[|rows| - 1]) then Abs(Cell(rows[|rows| - 1], f)) else 0)
  }

  /** It is the sum without signs over the matching rows. */
  lemma {:induction false} AbsColumnIsSum(cs: seq<QueryCondition>, f: nat, rows: seq<Row>)
    requires forall i :: 0 <= i < |rows| ==> f < |rows[i].vals|
    ensures rows == [] ==> AbsColumn(cs, f, rows) == 0
    ensures rows != [] ==> var v: int := rows[0].vals[f];
      AbsColumn(cs, f, rows) == AbsColumn(cs, f, rows[1..]) + (if !Matches(cs, rows[0]) then 0 else if v < 0 then -v else v)
  {
    if rows != [] {
      AbsConcat(cs, f, [rows[0]], rows[1..]);
      assert [rows[0]] + rows[1..] == rows;
      assert [rows[0]][..0] == [];
    }
  }

  lemma {:induction false} AbsConcat(cs: seq<QueryCondition>, f: nat, xs: seq<Row>, ys: seq<Row>)
    ensures AbsColumn(cs, f, xs + ys) == AbsColumn(cs, f, xs) + AbsColumn(cs, f, ys)
  {
    if ys == [] {
      assert xs + ys == xs;
    } else {
      AbsConcat(cs, f, xs, ys[..|ys| - 1]);
      assert (xs + ys)[..|xs + ys| - 1] == xs + ys[..|ys| - 1];
    }
  }

  lemma AbsJoin(cs: seq<QueryCondition>, f: nat, rows: seq<Row>, lo: nat, hi: nat)
    requires lo <= hi <= |rows|
    ensures AbsColumn(cs, f, rows[..hi]) == AbsColumn(cs, f, rows[..lo]) + AbsColumn(cs, f, rows[lo..hi])
  {
    assert rows[..hi] == rows[..lo] + rows[lo..hi];
    AbsConcat(cs, f, rows[..lo], rows[lo..hi]);
  }

  /** The C++ sum of two ints is defined. */
  predicate Fits(x: int, y: int) {
    -2_147_483_648 <= x + y <= 2_147_483_647
  }

  lemma {:induction false} SumWithinAbs(cs: seq<QueryCondition>, f: nat, rows: seq<Row>)
    ensures Abs(Column(Sum, cs, f, rows)) <= AbsColumn(cs, f, rows)
  {
    if rows != [] {
      SumWithinAbs(cs, f, rows[..|rows| - 1]);
    }
  }

  /** If the absolute values of the matched cells add up to at most INT_MAX, the exact sum over any
      stretch of the table fits into an int. */
  lemma StretchFits(cs: seq<QueryCondition>, f: nat, rows: seq<Row>, lo: nat, hi: nat)
    requires lo <= hi <= |rows| && AbsColumn(cs, f, rows) <= INT_MAX
    ensures InRange(Column(Sum, cs, f, rows[lo..hi]))
    ensures AbsColumn(cs, f, rows[lo..hi]) <= INT_MAX
  {
    AbsJoin(cs, f, rows, lo, hi);
    AbsJoin(cs, f, rows, hi, |rows|);
    assert rows[..|rows|] == rows;
    SumWithinAbs(cs, f, rows[lo..hi]);
  }

  /** The same for each addition of a loop over the rows from lo on. */
  lemma AdditionFits(cs: seq<QueryCondition>, f: nat, rows: seq<Row>, lo: nat, i: nat)
    requires lo <= i < |rows| && Matches(cs, rows[i]) && AbsColumn(cs, f, rows) <= INT_MAX
    ensures Fits(Wrap(Column(Sum, cs, f, rows[lo..i])), Cell(rows[i], f))
  {
    StretchFits(cs, f, rows, lo, i);
    StretchFits(cs, f, rows, lo, i + 1);
    ColumnSnoc(Sum, cs, f, rows[lo..i], rows[i]);
    SliceSnoc(rows, lo, i);
  }

  /** No addition of the sequential loop overflows. */
  lemma SequentialAdditionFits(cs: seq<QueryCondition>, f: nat, rows: seq<Row>, i: nat)
    requires i < |rows| && Matches(cs, rows[i]) && AbsColumn(cs, f, rows) <= INT_MAX
    ensures Fits(Wrap(Column(Sum, cs, f, rows[..i])), Cell(rows[i], f))
  {
    AdditionFits(cs, f, rows, 0, i);
    assert rows[0..i] == rows[..i];
  }

  // ---------------------------------------------------------------- the answers

  function Units(a: Agg, n: nat): seq<Int32> {
    seq(n, _ => Unit(a))
  }

  /** SUM answers with its array in any case, MIN and MAX only if they found a matching row. An
      unknown operand is noticed at the first matching row. */
  function Aggregating(a: Agg, fm: FieldMap, operands: seq<string>, conds: seq<QueryCondition>, rows: seq<Row>): Answer {
    var (cs, init) := Init(fm, conds);
    AggregatingWith(a, fm, operands, cs, init, rows)
  }

  /** The same once initCondition has run. */
  function AggregatingWith(a: Agg, fm: FieldMap, operands: seq<string>, cs: seq<QueryCondition>, init: InitResult, rows: seq<Row>): Answer {
    if operands == [] || init.Threw? then Failed
    else if !init.flag || CountMatches(cs, rows) == 0 then
      if a.Sum? then Answer.Values(Units(a, |operands|)) else Null
    else if Known(fm, operands) then Answer.Values(Totals(a, cs, Positions(fm, operands), rows))
    else Failed
  }

  function Counting(fm: FieldMap, operands: seq<string>, conds: seq<QueryCondition>, rows: seq<Row>): Answer {
    var (cs, init) := Init(fm, conds);
    if operands != [] || init.Threw? then Failed
    else Number(if init.flag then CountMatches(cs, rows) else 0)
  }

  // ---------------------------------------------------------------- what COUNT, SUM, MAX and MIN promise

  /** The exact sum of a named field over the rows that satisfy the conditions as written. */
  function SumOver(fm: FieldMap, conds: seq<QueryCondition>, name: string, rows: seq<Row>): int {
    if rows == [] then 0
    else
      var r := rows[|rows| - 1];
      SumOver(fm, conds, name, rows[..|rows| - 1]) + (if AllMean(fm, conds, r) then FieldOf(fm, name, r) else 0)
  }

  /** v is the greatest value of the field in those rows. */
  ghost predicate GreatestOver(fm: FieldMap, conds: seq<QueryCondition>, name: string, rows: seq<Row>, v: int) {
    && (exists i :: 0 <= i < |rows| && AllMean(fm, conds, rows[i]) && FieldOf(fm, name, rows[i]) == v)
    && forall i :: 0 <= i < |rows| && AllMean(fm, conds, rows[i]) ==> FieldOf(fm, name, rows[i]) <= v
  }

  ghost predicate LeastOver(fm: FieldMap, conds: seq<QueryCondition>, name: string, rows: seq<Row>, v: int) {
    && (exists i :: 0 <= i < |rows| && AllMean(fm, conds, rows[i]) && FieldOf(fm, name, rows[i]) == v)
    && forall i :: 0 <= i < |rows| && AllMean(fm, conds, rows[i]) ==> v <= FieldOf(fm, name, rows[i])
  }

  ghost predicate ValuePromise(a: Agg, fm: FieldMap, conds: seq<QueryCondition>, name: string, rows: seq<Row>, v: int) {
    match a
    case Sum => v == Wrap(SumOver(fm, conds, name, rows))
    case Max => GreatestOver(fm, conds, name, rows, v)
    case Min => LeastOver(fm, conds, name, rows, v)
  }

  /** SUM, MAX and MIN, all in all. */
  ghost predicate AggregatePromise(a: Agg, fm: FieldMap, operands: seq<string>, conds: seq<QueryCondition>, rows: seq<Row>, ans: Answer) {
    if operands == [] || Refused(fm, conds, 0) then ans == Failed
    else if PickedRows(fm, conds, rows) == {} then
      if a.Sum? then ans.Values? && |ans.vs| == |operands| && forall j :: 0 <= j < |operands| ==> ans.vs[j] == 0
      else ans == Null
    else if exists j :: 0 <= j < |operands| && operands[j] !in fm then ans == Failed
    else
      && ans.Values? && |ans.vs| == |operands|
      && forall j :: 0 <= j < |operands| ==> ValuePromise(a, fm, conds, operands[j], rows, ans.vs[j])
  }

  lemma {:induction false} ColumnIsSum(fm: FieldMap, conds: seq<QueryCondition>, cs: seq<QueryCondition>, name: string, rows: seq<Row>)
    requires name in fm && SamePick(fm, conds, cs, rows)
    ensures Column(Sum, cs, fm[name], rows) == SumOver(fm, conds, name, rows)
  {
    if rows != [] {
      var n := |rows| - 1;
      assert SamePick(fm, conds, cs, rows[..n]);
      ColumnIsSum(fm, conds, cs, name, rows[..n]);
    }
  }

  lemma ColumnKeepsPromise(a: Agg, fm: FieldMap, conds: seq<QueryCondition>, cs: seq<QueryCondition>, name: string, rows: seq<Row>)
    requires name in fm && SamePick(fm, conds, cs, rows) && CountMatches(cs, rows) > 0
    ensures ValuePromise(a, fm, conds, name, rows, Wrap(Column(a, cs, fm[name], rows)))
  {
    var f := fm[name];
    if a.Sum? {
      ColumnIsSum(fm, conds, cs, name, rows);
    } else {
      ColumnAttained(a, cs, f, rows);
      var i :| 0 <= i < |rows| && Matches(cs, rows[i]) && Cell(rows[i], f) == Column(a, cs, f, rows);
      assert AllMean(fm, conds, rows[i]) && FieldOf(fm, name, rows[i]) == Wrap(Column(a, cs, f, rows));
      forall i | 0 <= i < |rows| && AllMean(fm, conds, rows[i])
        ensures a.Max? ==> FieldOf(fm, name, rows[i]) <= Column(a, cs, f, rows)
        ensures a.Min? ==> Column(a, cs, f, rows) <= FieldOf(fm, name, rows[i])
      {
        assert Matches(cs, rows[i]);
        ColumnBounds(a, cs, f, rows, i);
      }
    }
  }

  lemma AggregatingKept(a: Agg, fm: FieldMap, operands: seq<string>, conds: seq<QueryCondition>, rows: seq<Row>)
    requires KeysNamed(conds)
    ensures AggregatePromise(a, fm, operands, conds, rows, Aggregating(a, fm, operands, conds, rows))
  {
    WherePicks(fm, conds, rows);
    var (cs, init) := Init(fm, conds);
    var ans := AggregatingWith(a, fm, operands, cs, init, rows);
    if operands != [] && init.Flag? {
      if !init.flag || CountMatches(cs, rows) == 0 {
        assert PickedRows(fm, conds, rows) == {};
        assert a.Sum? ==> ans.Values? && forall j :: 0 <= j < |operands| ==> ans.vs[j] == 0;
        assert AggregatePromise(a, fm, operands, conds, rows, ans);
      } else {
        assert PickedRows(fm, conds, rows) != {};
        if Known(fm, operands) {
          assert SamePick(fm, conds, cs, rows);
          TotalsKept(a, fm, operands, conds, cs, rows);
          assert AggregatePromise(a, fm, operands, conds, rows, ans);
        } else {
          var j :| 0 <= j < |operands| && operands[j] !in fm;
          assert ans == Failed;
          assert AggregatePromise(a, fm, operands, conds, rows, ans);
        }
      }
    }
  }

  lemma TotalsKept(a: Agg, fm: FieldMap, operands: seq<string>, conds: seq<QueryCondition>, cs: seq<QueryCondition>, rows: seq<Row>)
    requires Known(fm, operands) && SamePick(fm, conds, cs, rows) && CountMatches(cs, rows) > 0
    ensures var vs := Totals(a, cs, Positions(fm, operands), rows);
      |vs| == |operands| && forall j :: 0 <= j < |operands| ==> ValuePromise(a, fm, conds, operands[j], rows, vs[j])
  {
    forall j | 0 <= j < |operands|
      ensures ValuePromise(a, fm, conds, operands[j], rows, Totals(a, cs, Positions(fm, operands), rows)[j])
    {
      ColumnKeepsPromise(a, fm, conds, cs, operands[j], rows);
    }
  }

  /** COUNT, all in all. */
  ghost predicate CountPromise(fm: FieldMap, operands: seq<string>, conds: seq<QueryCondition>, rows: seq<Row>, ans: Answer) {
    if operands != [] || Refused(fm, conds, 0) then ans == Failed
    else ans == Number(|PickedRows(fm, conds, rows)|)
  }

  lemma CountingKept(fm: FieldMap, operands: seq<string>, conds: seq<QueryCondition>, rows: seq<Row>)
    requires KeysNamed(conds)
    ensures CountPromise(fm, operands, conds, rows, Counting(fm, operands, conds, rows))
  {
    WherePicks(fm, conds, rows);
    var (cs, init) := Init(fm, conds);
    assert init.Flag? ==> (if init.flag then CountMatches(cs, rows) else 0) == |PickedRows(fm, conds, rows)|;
  }

  // ---------------------------------------------------------------- sequential loops

  method ExecuteCount(q: ComplexQuery, table: Table) returns (ans: Answer)
    requires Usable(table)
    modifies q`condition
    ensures ans == Counting(table.fieldMap, q.operands, old(q.condition), table.data)
    ensures KeysNamed(old(q.condition)) ==> CountPromise(table.fieldMap, q.operands, old(q.condition), table.data, ans)
  {
    if KeysNamed(q.condition) {
      CountingKept(table.fieldMap, q.operands, q.condition, table.data);
    }
    if |q.operands| > 0 {
      return Failed;
    }
    InitInitialised(table.fieldMap, q.condition, |table.fields|);
    var result := q.InitCondition(table.fieldMap);
    if result.Threw? {
      return Failed;
    }
    var counter := 0;
    if result.flag {
      counter := CountLoop(q, table);
    }
    return Number(counter);
  }

  method CountLoop(q: ComplexQuery, table: Table) returns (counter: nat)
    requires Usable(table) && Initialised(q.condition, |table.fields|)
    ensures counter == CountMatches(q.condition, table.data)
  {
    counter := 0;
    for i := 0 to |table.data|
      invariant counter == CountMatches(q.condition, table.data[..i])
    {
      CountStep(q.condition, table.data, i);
      var matched := q.EvalCondition(table.data[i]);
      if matched {
        counter := counter + 1;
      }
    }
    assert table.data[..|table.data|] == table.data;
  }

  /** Every accumulator has taken in the row. */
  ghost predicate TookRow(a: Agg, before: seq<Int32>, after: seq<Int32>, fs: seq<nat>, row: Row) {
    && |before| == |after| == |fs|
    && forall j :: 0 <= j < |fs| ==> after[j] == Accumulate(a, before[j], Cell(row, fs[j]))
  }

  /** One matching row goes into every accumulator; false is the exception for an unknown field. */
  method AddRow(a: Agg, fm: FieldMap, ops: seq<string>, row: Row, arr: array<Int32>) returns (ok: bool)
    requires Within(fm, |row.vals|) && arr.Length == |ops|
    modifies arr
    ensures ok <==> Known(fm, ops)
    ensures ok ==> TookRow(a, old(arr[..]), arr[..], Positions(fm, ops), row)
  {
    for i := 0 to |ops|
      invariant Known(fm, ops[..i])
      invariant forall j :: 0 <= j < i ==> ops[j] in fm && arr[j] == Accumulate(a, old(arr[j]), Cell(row, fm[ops[j]]))
      invariant forall j :: i <= j < |ops| ==> arr[j] == old(arr[j])
    {
      if ops[i] !in fm {
        return false;
      }
      var v: int := row.vals[fm[ops[i]]];
      var acc: int := arr[i];
      match a {
        case Sum => arr[i] := Wrap(acc + v);
        case Max => if acc < v { arr[i] := v; }
        case Min => if acc > v { arr[i] := v; }
      }
    }
    return true;
  }

  lemma TotalsSnoc(a: Agg, cs: seq<QueryCondition>, fs: seq<nat>, rows: seq<Row>, r: Row, after: seq<Int32>)
    requires Matches(cs, r) && TookRow(a, Totals(a, cs, fs, rows), after, fs, r)
    ensures after == Totals(a, cs, fs, rows + [r])
  {
    forall j | 0 <= j < |fs| ensures after[j] == Wrap(Column(a, cs, fs[j], rows + [r])) {
      ColumnSnoc(a, cs, fs[j], rows, r);
      AccumulateExact(a, Column(a, cs, fs[j], rows), Cell(r, fs[j]), Column(a, cs, fs[j], rows + [r]));
    }
  }

  lemma TotalsSkip(a: Agg, cs: seq<QueryCondition>, fs: seq<nat>, rows: seq<Row>, r: Row)
    requires !Matches(cs, r)
    ensures Totals(a, cs, fs, rows + [r]) == Totals(a, cs, fs, rows)
  {
    forall j | 0 <= j < |fs| ensures Column(a, cs, fs[j], rows + [r]) == Column(a, cs, fs[j], rows) {
      ColumnSnoc(a, cs, fs[j], rows, r);
    }
  }

  lemma TotalsNone(a: Agg, cs: seq<QueryCondition>, fs: seq<nat>, rows: seq<Row>)
    requires CountMatches(cs, rows) == 0
    ensures Totals(a, cs, fs, rows) == Units(a, |fs|)
  {
    forall j | 0 <= j < |fs| ensures Column(a, cs, fs[j], rows) == Unit(a) {
      ColumnNone(a, cs, fs[j], rows);
    }
  }

  /** What the scan knows after the rows in `done`; fs is meaningful when all operands are fields. */
  ghost predicate Scanned(a: Agg, cs: seq<QueryCondition>, known: bool, fs: seq<nat>, done: seq<Row>, arr: seq<Int32>, found: bool) {
    && (found <==> CountMatches(cs, done) > 0)
    && (if known then arr == Totals(a, cs, fs, done) else !found && arr == Units(a, |arr|))
  }

  lemma ScannedNext(a: Agg, cs: seq<QueryCondition>, known: bool, fs: seq<nat>, done: seq<Row>, arr: seq<Int32>, found: bool,
                    r: Row, after: seq<Int32>)
    requires Scanned(a, cs, known, fs, done, arr, found)
    ensures Matches(cs, r) && known && TookRow(a, arr, after, fs, r) ==> Scanned(a, cs, known, fs, done + [r], after, true)
    ensures !Matches(cs, r) ==> Scanned(a, cs, known, fs, done + [r], arr, found)
  {
    CountSnoc(cs, done, r);
    if known && Matches(cs, r) && TookRow(a, arr, after, fs, r) {
      TotalsSnoc(a, cs, fs, done, r, after);
    }
    if known && !Matches(cs, r) {
      TotalsSkip(a, cs, fs, done, r);
    }
  }

  /** The scan of SUM, MIN and MAX over the whole table. */
  method AggregateLoop(a: Agg, q: ComplexQuery, table: Table, arr: array<Int32>, ghost known: bool, ghost fs: seq<nat>)
    returns (found: bool, ok: bool)
    requires Usable(table) && Initialised(q.condition, |table.fields|)
    requires arr.Length == |q.operands| && arr[..] == Units(a, |q.operands|)
    requires known <==> Known(table.fieldMap, q.operands)
    requires known ==> fs == Positions(table.fieldMap, q.operands)
    modifies arr
    ensures ok ==> Scanned(a, q.condition, known, fs, table.data, arr[..], found)
    ensures !ok ==> !known && CountMatches(q.condition, table.data) > 0
  {
    ghost var cs, rows := q.condition, table.data;
    assert Within(table.fieldMap, |table.fields|);
    if known {
      TotalsNone(a, cs, fs, []);
    }
    found := false;
    for i := 0 to |table.data|
      invariant Scanned(a, cs, known, fs, rows[..i], arr[..], found)
    {
      CountStep(cs, rows, i);
      assert rows[..i + 1] == rows[..i] + [rows[i]];
      ghost var before, was := arr[..], found;
      var matched := q.EvalCondition(table.data[i]);
      if matched {
        found := true;
        ok := AddRow(a, table.fieldMap, q.operands, table.data[i], arr);
        if !ok {
          return;
        }
      }
      ScannedNext(a, cs, known, fs, rows[..i], before, was, rows[i], arr[..]);
    }
    assert rows[..|rows|] == rows;
    ok := true;
  }

  method ExecuteAggregate(a: Agg, q: ComplexQuery, table: Table) returns (ans: Answer)
    requires Usable(table)
    modifies q`condition
    ensures ans == Aggregating(a, table.fieldMap, q.operands, old(q.condition), table.data)
  {
    if |q.operands| == 0 {
      return Failed;
    }
    InitInitialised(table.fieldMap, q.condition, |table.fields|);
    var result := q.InitCondition(table.fieldMap);
    if result.Threw? {
      return Failed;
    }
    var arr := new Int32[|q.operands|](_ => Unit(a));
    assert arr[..] == Units(a, |q.operands|);
    var found, ok := false, true;
    if result.flag {
      ghost var known := Known(table.fieldMap, q.operands);
      ghost var fs := if known then Positions(table.fieldMap, q.operands) else [];
      found, ok := AggregateLoop(a, q, table, arr, known, fs);
      if known && !found && ok {
        TotalsNone(a, q.condition, fs, table.data);
      }
    }
    if !ok {
      return Failed;
    }
    return if found || a.Sum? then Answer.Values(arr[..]) else Null;
  }

  method ExecuteSum(q: ComplexQuery, table: Table) returns (ans: Answer)
    requires Usable(table)
    modifies q`condition
    ensures ans == Aggregating(Sum, table.fieldMap, q.operands, old(q.condition), table.data)
    ensures KeysNamed(old(q.condition)) ==>
      AggregatePromise(Sum, table.fieldMap, q.operands, old(q.condition), table.data, ans)
  {
    if KeysNamed(q.condition) {
      AggregatingKept(Sum, table.fieldMap, q.operands, q.condition, table.data);
    }
    ans := ExecuteAggregate(Sum, q, table);
  }

  method ExecuteMax(q: ComplexQuery, table: Table) returns (ans: Answer)
    requires Usable(table)
    modifies q`condition
    ensures ans == Aggregating(Max, table.fieldMap, q.operands, old(q.condition), table.data)
    ensures KeysNamed(old(q.condition)) ==>
      AggregatePromise(Max, table.fieldMap, q.operands, old(q.condition), table.data, ans)
  {
    if KeysNamed(q.condition) {
      AggregatingKept(Max, table.fieldMap, q.operands, q.condition, table.data);
    }
    ans := ExecuteAggregate(Max, q, table);
  }

  method ExecuteMin(q: ComplexQuery, table: Table) returns (ans: Answer)
    requires Usable(table)
    modifies q`condition
    ensures ans == Aggregating(Min, table.fieldMap, q.operands, old(q.condition), table.data)
    ensures KeysNamed(old(q.condition)) ==>
      AggregatePromise(Min, table.fieldMap, q.operands, old(q.condition), table.data, ans)
  {
    if KeysNamed(q.condition) {
      AggregatingKept(Min, table.fieldMap, q.operands, q.condition, table.data);
    }
    ans := ExecuteAggregate(Min, q, table);
  }
}
