/** SELECT: the rows in a shared priority queue, taken out in key order and printed. */
module Selects {
  import opened Values
  import opened Conditions
  import opened Tables
  import opened Queries
  import Text

  // ---------------------------------------------------------------- rows in key order

  ghost predicate Ascending(rows: seq<Row>) {
    forall i, j :: 0 <= i < j < |rows| ==> KeyLess(rows[i].key, rows[j].key)
  }

  lemma SomeRow(rows: seq<Row>)
    ensures rows == [] || exists r :: r in rows
  {
    assert rows == [] || rows[0] in rows;
  }

  /** An ascending sequence is determined by the rows in it. */
  lemma {:induction false} AscendingUnique(a: seq<Row>, b: seq<Row>)
    requires Ascending(a) && Ascending(b)
    requires forall r :: r in a <==> r in b
    ensures a == b
  {
    if a == [] {
      SomeRow(b);
    } else {
      assert a[0] in b;
      FirstSame(a, b);
      forall r ensures r in a[1..] <==> r in b[1..] {
        NotAgain(a, r);
        NotAgain(b, r);
      }
      AscendingUnique(a[1..], b[1..]);
      assert a == [a[0]] + a[1..] && b == [b[0]] + b[1..];
    }
  }

  lemma FirstSame(a: seq<Row>, b: seq<Row>)
    requires Ascending(a) && Ascending(b) && a != [] && b != []
    requires forall r :: r in a <==> r in b
    ensures a[0] == b[0]
  {
    assert a[0] in a && b[0] in b;
    var i :| 0 <= i < |b| && b[i] == a[0];
    var j :| 0 <= j < |a| && a[j] == b[0];
    KeyLessTotal(a[0].key, b[0].key);
  }

  lemma NotAgain(a: seq<Row>, r: Row)
    requires Ascending(a) && a != []
    ensures r in a[1..] <==> r in a && r != a[0]
  {
    KeyLessTotal(a[0].key, a[0].key);
    if r in a[1..] {
      var i :| 0 <= i < |a[1..]| && a[1..][i] == r;
      assert a[i + 1] == r;
    }
    if r in a && r != a[0] {
      var i :| 0 <= i < |a| && a[i] == r;
      assert a[1..][i - 1] == r;
    }
  }

  ghost predicate Least(keys: set<string>, k: string) {
    k in keys && forall x :: x in keys ==> x == k || KeyLess(k, x)
  }

  lemma {:induction false} LeastExists(keys: set<string>)
    requires keys != {}
    ensures exists k :: Least(keys, k)
  {
    var a :| a in keys;
    var rest := keys - {a};
    if rest == {} {
      assert forall x :: x in keys ==> x == a || x in rest;
      assert Least(keys, a);
    } else {
      LeastExists(rest);
      var b :| Least(rest, b);
      KeyLessTotal(a, b);
      if KeyLess(a, b) {
        forall x | x in keys ensures x == a || KeyLess(a, x) {
          assert x == a || x in rest;
          if x != a && x != b { KeyLessTransitive(a, b, x); }
        }
        assert Least(keys, a);
      } else {
        forall x | x in keys ensures x == b || KeyLess(b, x) {
          assert x == a || x in rest;
        }
        assert Least(keys, b);
      }
    }
  }

  ghost function LeastKey(keys: set<string>): (k: string)
    requires keys != {}
    ensures Least(keys, k)
  {
    LeastExists(keys);
    var k :| Least(keys, k);
    k
  }

  /** The rows of a plain map by ascending key. */
  ghost function Ordered(m: map<string, seq<Int32>>): seq<Row>
    decreases |m.Keys|
  {
    if m.Keys == {} then []
    else
      var k := LeastKey(m.Keys);
      assert (m - {k}).Keys == m.Keys - {k};
      [Row(k, m[k])] + Ordered(m - {k})
  }

  lemma {:induction false} OrderedRows(m: map<string, seq<Int32>>)
    ensures Ascending(Ordered(m))
    ensures forall r :: r in Ordered(m) <==> Entry(m, r)
    decreases |m.Keys|
  {
    if m.Keys != {} {
      var k := LeastKey(m.Keys);
      assert (m - {k}).Keys == m.Keys - {k};
      OrderedRows(m - {k});
      var rest := Ordered(m - {k});
      forall r ensures r in Ordered(m) <==> Entry(m, r) {
        assert r in Ordered(m) <==> r == Row(k, m[k]) || r in rest;
      }
      forall j | 0 <= j < |rest| ensures KeyLess(k, rest[j].key) {
        assert rest[j] in rest;
        KeyLessTotal(k, k);
      }
    }
  }

  function Matching(cs: seq<QueryCondition>, rows: seq<Row>): (out: seq<Row>)
    ensures forall r :: r in out <==> r in rows && Matches(cs, r)
  {
    if rows == [] then []
    else (if Matches(cs, rows[0]) then [rows[0]] else []) + Matching(cs, rows[1..])
  }

  lemma {:induction false} MatchingAscends(cs: seq<QueryCondition>, rows: seq<Row>)
    requires Ascending(rows)
    ensures Ascending(Matching(cs, rows))
  {
    if rows != [] {
      MatchingAscends(cs, rows[1..]);
      var rest := Matching(cs, rows[1..]);
      forall j | 0 <= j < |rest| ensures KeyLess(rows[0].key, rest[j].key) {
        assert rest[j] in rows[1..];
      }
    }
  }

  /** The rows that SELECT must print, in the order in which it must print them: a function of the
      plain map alone. */
  ghost function Selected(cs: seq<QueryCondition>, m: map<string, seq<Int32>>): seq<Row> {
    Matching(cs, Ordered(m))
  }

  // ---------------------------------------------------------------- the priority queue

  /** The comparator of the queue: false means that a goes before b. */
  predicate Prioritize(a: Row, b: Row) {
    !KeyLess(a.key, b.key)
  }

  /** On distinct rows of a table the comparator is a strict total order, which is what
      std::priority_queue asks for; on a row and itself it is not. */
  lemma PrioritizeStrict(rows: seq<Row>, i: nat, j: nat, k: nat)
    requires UniqueKeys(rows) && i < |rows| && j < |rows| && k < |rows|
    ensures i != j ==> (Prioritize(rows[i], rows[j]) <==> !Prioritize(rows[j], rows[i]))
    ensures i != j && j != k && i != k && Prioritize(rows[i], rows[j]) && Prioritize(rows[j], rows[k]) ==>
      Prioritize(rows[i], rows[k])
    ensures Prioritize(rows[i], rows[i])
  {
    KeyLessTotal(rows[i].key, rows[j].key);
    KeyLessTotal(rows[j].key, rows[k].key);
    KeyLessTotal(rows[i].key, rows[k].key);
    KeyLessTotal(rows[i].key, rows[i].key);
    if KeyLess(rows[k].key, rows[j].key) && KeyLess(rows[j].key, rows[i].key) {
      KeyLessTransitive(rows[k].key, rows[j].key, rows[i].key);
    }
  }

  /** A queue of row positions with no position twice. */
  ghost predicate Distinct(rows: seq<Row>, q: multiset<nat>) {
    forall r: nat :: q[r] <= 1 && (r in q ==> r < |rows|)
  }

  /** What top() returns: an element that goes before every other. */
  predicate IsTop(rows: seq<Row>, q: multiset<nat>, t: nat) {
    t in q && t < |rows| && forall x :: x in q && x != t && x < |rows| ==> !Prioritize(rows[t], rows[x])
  }

  lemma TopExists(rows: seq<Row>, q: multiset<nat>)
    requires UniqueKeys(rows) && Distinct(rows, q) && |q| > 0
    ensures exists t :: IsTop(rows, q, t)
  {
    var some :| some in q;
    var keys := set r | r in q :: rows[r].key;
    assert rows[some].key in keys;
    LeastExists(keys);
    var k :| Least(keys, k);
    var t :| t in q && rows[t].key == k;
    forall x | x in q && x != t ensures !Prioritize(rows[t], rows[x]) {
      assert rows[x].key in keys;
    }
    assert IsTop(rows, q, t);
  }

  ghost function Remaining(q: multiset<nat>, order: seq<nat>): multiset<nat> {
    q - multiset(order)
  }

  /** order is what successive top() and pop() took from q. */
  ghost predicate Popped(rows: seq<Row>, q: multiset<nat>, order: seq<nat>) {
    forall k :: 0 <= k < |order| ==> IsTop(rows, Remaining(q, order[..k]), order[k])
  }

  function RowsAt(rows: seq<Row>, order: seq<nat>): (out: seq<Row>)
    requires forall k :: 0 <= k < |order| ==> order[k] < |rows|
    ensures |out| == |order| && forall k :: 0 <= k < |order| ==> out[k] == rows[order[k]]
  {
    seq(|order|, k requires 0 <= k < |order| => rows[order[k]])
  }

  lemma RemainingLater(q: multiset<nat>, order: seq<nat>, a: nat, b: nat, x: nat)
    requires a <= b <= |order| && x in Remaining(q, order[..b])
    ensures x in Remaining(q, order[..a])
    ensures q[x] <= 1 ==> x !in order[..b]
  {
    assert order[..b] == order[..a] + order[a..b];
    if x in order[..b] {
      assert multiset(order[..b])[x] >= 1;
    }
  }

  lemma PoppedAscends(rows: seq<Row>, q: multiset<nat>, order: seq<nat>)
    requires Distinct(rows, q) && Popped(rows, q, order)
    ensures forall k :: 0 <= k < |order| ==> order[k] in q && order[k] < |rows|
    ensures forall a, b :: 0 <= a < b < |order| ==> KeyLess(rows[order[a]].key, rows[order[b]].key)
  {
    forall a, b | 0 <= a < b < |order| ensures KeyLess(rows[order[a]].key, rows[order[b]].key) {
      assert IsTop(rows, Remaining(q, order[..b]), order[b]);
      RemainingLater(q, order, a, b, order[b]);
      assert order[..b][a] == order[a];
      assert IsTop(rows, Remaining(q, order[..a]), order[a]);
    }
    forall k | 0 <= k < |order| ensures order[k] in q {
      assert IsTop(rows, Remaining(q, order[..k]), order[k]);
    }
  }

  lemma PoppedInOrder(rows: seq<Row>, q: multiset<nat>, order: seq<nat>)
    requires Distinct(rows, q) && Popped(rows, q, order)
    ensures forall k :: 0 <= k < |order| ==> order[k] < |rows|
    ensures forall a, b :: 0 <= a < b < |order| ==> Before(rows[order[a]].key, rows[order[b]].key)
  {
    PoppedAscends(rows, q, order);
    forall a, b | 0 <= a < b < |order| ensures Before(rows[order[a]].key, rows[order[b]].key) {
      KeyLessIsBefore(rows[order[a]].key, rows[order[b]].key);
    }
  }

  /** The queue holds every matching row exactly once. */
  ghost predicate HoldsMatches(cs: seq<QueryCondition>, rows: seq<Row>, q: multiset<nat>) {
    forall r: nat :: q[r] == if r < |rows| && Matches(cs, rows[r]) then 1 else 0
  }

  /** What was popped from such a queue until it was empty is what matches. */
  lemma PoppedAre(cs: seq<QueryCondition>, rows: seq<Row>, q: multiset<nat>, order: seq<nat>, r: Row)
    requires HoldsMatches(cs, rows, q) && Remaining(q, order) == multiset{}
    requires forall k :: 0 <= k < |order| ==> order[k] in q && order[k] < |rows|
    ensures r in RowsAt(rows, order) <==> r in rows && Matches(cs, r)
  {
    var out := RowsAt(rows, order);
    if r in rows && Matches(cs, r) {
      var i: nat :| i < |rows| && rows[i] == r;
      assert q[i] == 1 && Remaining(q, order)[i] == 0;
      assert i in order;
      var k :| 0 <= k < |order| && order[k] == i;
      assert out[k] == r;
    }
    if r in out {
      var k :| 0 <= k < |out| && out[k] == r;
      assert q[order[k]] == 1;
    }
  }

  lemma SelectedAre(cs: seq<QueryCondition>, rows: seq<Row>, r: Row)
    requires UniqueKeys(rows)
    ensures r in Selected(cs, AsMap(rows)) <==> r in rows && Matches(cs, r)
  {
    OrderedRows(AsMap(rows));
    RowInMap(rows, r);
  }

  lemma SelectedAscends(cs: seq<QueryCondition>, m: map<string, seq<Int32>>)
    ensures Ascending(Selected(cs, m))
  {
    OrderedRows(m);
    MatchingAscends(cs, Ordered(m));
  }

  /** Emptying a queue of all matching rows, however it was filled, gives exactly the selected rows
      in ascending order. */
  lemma DrainSelects(cs: seq<QueryCondition>, rows: seq<Row>, q: multiset<nat>, order: seq<nat>)
    requires UniqueKeys(rows) && HoldsMatches(cs, rows, q)
    requires Popped(rows, q, order) && Remaining(q, order) == multiset{}
    ensures forall k :: 0 <= k < |order| ==> order[k] < |rows|
    ensures RowsAt(rows, order) == Selected(cs, AsMap(rows))
    ensures forall a, b :: 0 <= a < b < |order| ==> Before(rows[order[a]].key, rows[order[b]].key)
  {
    PoppedInOrder(rows, q, order);
    PoppedAscends(rows, q, order);
    SelectedAscends(cs, AsMap(rows));
    var out, sel := RowsAt(rows, order), Selected(cs, AsMap(rows));
    forall r ensures r in out <==> r in sel {
      PoppedAre(cs, rows, q, order, r);
      SelectedAre(cs, rows, r);
    }
    AscendingUnique(out, sel);
  }

  // ---------------------------------------------------------------- printing

  predicate Shown(fm: FieldMap, operand: string) {
    operand == "KEY" || operand in fm
  }

  predicate Printable(fm: FieldMap, operands: seq<string>) {
    forall i :: 0 <= i < |operands| ==> Shown(fm, operands[i])
  }

  function CellText(fm: FieldMap, operand: string, r: Row): string {
    if operand == "KEY" then r.key else if operand in fm then Text.Decimal(Cell(r, fm[operand])) else ""
  }

  function CellsText(fm: FieldMap, operands: seq<string>, r: Row): string {
    if operands == [] then ""
    else CellsText(fm, operands[..|operands| - 1], r) + CellText(fm, operands[|operands| - 1], r) + " "
  }

  function RowText(fm: FieldMap, operands: seq<string>, r: Row): string {
    "( " + CellsText(fm, operands, r) + ")"
  }

  /** One line a row, no newline after the last. */
  function Lines(fm: FieldMap, operands: seq<string>, rows: seq<Row>): string {
    if rows == [] then ""
    else if |rows| == 1 then RowText(fm, operands, rows[0])
    else Lines(fm, operands, rows[..|rows| - 1]) + "\n" + RowText(fm, operands, rows[|rows| - 1])
  }

  ghost function Selecting(fm: FieldMap, operands: seq<string>, conds: seq<QueryCondition>, m: map<string, seq<Int32>>): Answer {
    var (cs, init) := Init(fm, conds);
    SelectingWith(fm, operands, cs, init, m)
  }

  /** The same once initCondition has run. */
  ghost function SelectingWith(fm: FieldMap, operands: seq<string>, cs: seq<QueryCondition>, init: InitResult,
                               m: map<string, seq<Int32>>): Answer
  {
    if init.Threw? then Failed
    else if !init.flag || Selected(cs, m) == [] then Null
    else if Printable(fm, operands) then Listing(Lines(fm, operands, Selected(cs, m)))
    else Failed
  }

  /** The static priority queue that all SELECT queries share. */
  class SelectQueue {
    var priorityQueue: multiset<nat>

    constructor ()
      ensures priorityQueue == multiset{}
    {
      priorityQueue := multiset{};
    }
  }

  lemma AppendCell(a: string, b: string, c: string, d: string)
    ensures a + b + c + d == a + (b + c + d)
  {
  }

  lemma CellsTextNext(fm: FieldMap, operands: seq<string>, i: nat, r: Row, before: string, oss: string)
    requires i < |operands| && oss == before + CellsText(fm, operands[..i], r)
    ensures oss + CellText(fm, operands[i], r) + " " == before + CellsText(fm, operands[..i + 1], r)
  {
    assert operands[..i + 1][..i] == operands[..i];
    AppendCell(before, CellsText(fm, operands[..i], r), CellText(fm, operands[i], r), " ");
  }

  /** One cell; None is the exception for an unknown field. */
  method PrintCell(fm: FieldMap, operand: string, row: Row) returns (cell: Option<string>)
    requires Within(fm, |row.vals|)
    ensures cell.Some? <==> Shown(fm, operand)
    ensures cell.Some? ==> cell.value == CellText(fm, operand, row)
  {
    if operand == "KEY" {
      return Some(row.key);
    }
    if operand !in fm {
      return None;
    }
    return Some(Text.Decimal(row.vals[fm[operand]]));
  }

  /** One printed row; None is the exception for an unknown field. */
  method PrintRow(fm: FieldMap, operands: seq<string>, row: Row) returns (line: Option<string>)
    requires Within(fm, |row.vals|)
    ensures line.Some? <==> Printable(fm, operands)
    ensures line.Some? ==> line.value == RowText(fm, operands, row)
  {
    var oss := PrintCells(fm, operands, row, "( ");
    if oss.None? {
      return None;
    }
    return Some(oss.value + ")");
  }

  /** The first i cells are out. */
  predicate PrintedUpTo(fm: FieldMap, operands: seq<string>, i: nat, r: Row, before: string, oss: string)
    requires i <= |operands|
  {
    Printable(fm, operands[..i]) && oss == before + CellsText(fm, operands[..i], r)
  }

  lemma PrintedUpToNext(fm: FieldMap, operands: seq<string>, i: nat, r: Row, before: string, oss: string)
    requires i < |operands| && PrintedUpTo(fm, operands, i, r, before, oss) && Shown(fm, operands[i])
    ensures PrintedUpTo(fm, operands, i + 1, r, before, oss + CellText(fm, operands[i], r) + " ")
  {
    PrintableNext(fm, operands, i);
    CellsTextNext(fm, operands, i, r, before, oss);
  }

  lemma PrintableNext(fm: FieldMap, operands: seq<string>, i: nat)
    requires i < |operands| && Printable(fm, operands[..i]) && Shown(fm, operands[i])
    ensures Printable(fm, operands[..i + 1])
  {
    assert forall k :: 0 <= k < i ==> operands[..i][k] == operands[k];
  }

  lemma PrintedUpToEnds(fm: FieldMap, operands: seq<string>, r: Row, before: string, oss: string)
    requires PrintedUpTo(fm, operands, |operands|, r, before, oss)
    ensures Printable(fm, operands) && oss == before + CellsText(fm, operands, r)
  {
    assert operands[..|operands|] == operands;
  }

  method PrintCells(fm: FieldMap, operands: seq<string>, row: Row, before: string) returns (after: Option<string>)
    requires Within(fm, |row.vals|)
    ensures after.Some? <==> Printable(fm, operands)
    ensures after.Some? ==> after.value == before + CellsText(fm, operands, row)
  {
    var oss := before;
    for i := 0 to |operands|
      invariant PrintedUpTo(fm, operands, i, row, before, oss)
    {
      var cell := PrintCell(fm, operands[i], row);
      if cell.None? {
        return None;
      }
      PrintedUpToNext(fm, operands, i, row, before, oss);
      oss := oss + cell.value + " ";
    }
    PrintedUpToEnds(fm, operands, row, before, oss);
    return Some(oss);
  }

  /** What has been printed when the rows in `done` are out and more are to come or not. */
  function Printed(fm: FieldMap, operands: seq<string>, done: seq<Row>, more: bool): string {
    Lines(fm, operands, done) + (if more && done != [] then "\n" else "")
  }

  lemma PrintedNext(fm: FieldMap, operands: seq<string>, done: seq<Row>, r: Row, more: bool)
    ensures Printed(fm, operands, done + [r], more) ==
      Printed(fm, operands, done, true) + RowText(fm, operands, r) + (if more then "\n" else "")
  {
    assert (done + [r])[..|done|] == done;
  }

  lemma PopOne(rows: seq<Row>, q: multiset<nat>, order: seq<nat>, t: nat)
    requires Popped(rows, q, order) && IsTop(rows, Remaining(q, order), t)
    ensures Popped(rows, q, order + [t])
    ensures Remaining(q, order + [t]) == Remaining(q, order) - multiset{t}
  {
    var longer := order + [t];
    forall k | 0 <= k < |longer| ensures IsTop(rows, Remaining(q, longer[..k]), longer[k]) {
      Front(order, t, k);
    }
    RemainingSnoc(q, order, t);
  }

  lemma Front(order: seq<nat>, t: nat, k: nat)
    requires k <= |order|
    ensures (order + [t])[..k] == order[..k]
    ensures k == |order| ==> order[..k] == order
  {
  }

  lemma RemainingSnoc(q: multiset<nat>, order: seq<nat>, t: nat)
    ensures Remaining(q, order + [t]) == Remaining(q, order) - multiset{t}
  {
  }

  /** `order` has been popped from q0, which leaves q. */
  ghost predicate Drained(rows: seq<Row>, q0: multiset<nat>, q: multiset<nat>, order: seq<nat>) {
    && Popped(rows, q0, order) && q == Remaining(q0, order)
    && forall k :: 0 <= k < |order| ==> order[k] < |rows|
  }

  lemma TakeOut(rows: seq<Row>, q: multiset<nat>, t: nat)
    requires Distinct(rows, q) && t in q
    ensures Distinct(rows, q - multiset{t}) && |q - multiset{t}| == |q| - 1
  {
    var less := q - multiset{t};
    forall r: nat ensures less[r] <= 1 && (r in less ==> r < |rows|) {
      assert less[r] <= q[r];
    }
  }

  lemma DrainNext(rows: seq<Row>, q0: multiset<nat>, q: multiset<nat>, order: seq<nat>, t: nat)
    requires Drained(rows, q0, q, order) && IsTop(rows, q, t)
    ensures Drained(rows, q0, q - multiset{t}, order + [t])
  {
    PopOne(rows, q0, order, t);
  }

  lemma RowsAtNext(rows: seq<Row>, order: seq<nat>, t: nat)
    requires t < |rows| && forall k :: 0 <= k < |order| ==> order[k] < |rows|
    ensures RowsAt(rows, order + [t]) == RowsAt(rows, order) + [rows[t]]
  {
  }

  /** Any such queue can be emptied, taking a top each time. */
  lemma {:induction false} DrainOrder(rows: seq<Row>, q0: multiset<nat>, q: multiset<nat>, order: seq<nat>) returns (full: seq<nat>)
    requires UniqueKeys(rows) && Distinct(rows, q) && Drained(rows, q0, q, order)
    ensures Drained(rows, q0, multiset{}, full)
    decreases |q|
  {
    if |q| == 0 {
      assert q == multiset{};
      return order;
    }
    TopExists(rows, q);
    var t: nat :| IsTop(rows, q, t);
    TakeOut(rows, q, t);
    DrainNext(rows, q0, q, order, t);
    full := DrainOrder(rows, q0, q - multiset{t}, order + [t]);
  }

  /** Where the printing loop stands: what was popped, what is left, what has been printed. */
  ghost predicate Draining(fm: FieldMap, operands: seq<string>, rows: seq<Row>, q0: multiset<nat>, q: multiset<nat>,
                           order: seq<nat>, oss: string)
  {
    && Distinct(rows, q) && Drained(rows, q0, q, order)
    && oss == Printed(fm, operands, RowsAt(rows, order), |q| > 0)
  }

  lemma DrainBegins(fm: FieldMap, operands: seq<string>, rows: seq<Row>, q: multiset<nat>)
    requires Distinct(rows, q)
    ensures Draining(fm, operands, rows, q, q, [], "")
  {
    assert Remaining(q, []) == q;
  }

  /** One turn of it. */
  lemma DrainTurn(fm: FieldMap, operands: seq<string>, rows: seq<Row>, q0: multiset<nat>, q: multiset<nat>, order: seq<nat>,
                  oss: string, t: nat)
    requires Draining(fm, operands, rows, q0, q, order, oss) && IsTop(rows, q, t)
    ensures |q - multiset{t}| == |q| - 1
    ensures Draining(fm, operands, rows, q0, q - multiset{t}, order + [t],
                     oss + RowText(fm, operands, rows[t]) + (if |q| > 1 then "\n" else ""))
  {
    TakeOut(rows, q, t);
    DrainNext(rows, q0, q, order, t);
    RowsAtNext(rows, order, t);
    PrintedNext(fm, operands, RowsAt(rows, order), rows[t], |q| > 1);
  }

  lemma DrainEnds(fm: FieldMap, operands: seq<string>, rows: seq<Row>, q0: multiset<nat>, q: multiset<nat>, order: seq<nat>, oss: string)
    requires Draining(fm, operands, rows, q0, q, order, oss) && |q| == 0
    ensures q == multiset{} && Drained(rows, q0, multiset{}, order)
    ensures oss == Lines(fm, operands, RowsAt(rows, order))
  {
  }

  /** Prints the queue empty. An unknown operand throws at the first row and leaves every entry
      behind. */
  method Drain(queue: SelectQueue, rows: seq<Row>, fm: FieldMap, operands: seq<string>)
    returns (text: Option<string>, ghost order: seq<nat>)
    requires UniqueKeys(rows) && Distinct(rows, queue.priorityQueue)
    requires forall i :: 0 <= i < |rows| ==> Within(fm, |rows[i].vals|)
    modifies queue
    ensures text.Some? <==> Printable(fm, operands) || old(queue.priorityQueue) == multiset{}
    ensures text.Some? ==> Drained(rows, old(queue.priorityQueue), multiset{}, order)
    ensures text.Some? ==> text.value == Lines(fm, operands, RowsAt(rows, order))
    ensures queue.priorityQueue == if text.Some? then multiset{} else old(queue.priorityQueue)
  {
    ghost var q0 := queue.priorityQueue;
    order := [];
    var oss := "";
    DrainBegins(fm, operands, rows, q0);
    while |queue.priorityQueue| != 0
      invariant Draining(fm, operands, rows, q0, queue.priorityQueue, order, oss)
      invariant queue.priorityQueue == q0 || Printable(fm, operands)
      decreases |queue.priorityQueue|
    {
      TopExists(rows, queue.priorityQueue);
      var q := queue.priorityQueue;
      var t: nat :| t in q && IsTop(rows, q, t);
      var line := PrintRow(fm, operands, rows[t]);
      if line.None? {
        return None, [];
      }
      DrainTurn(fm, operands, rows, q0, q, order, oss, t);
      oss := oss + line.value + (if |q| > 1 then "\n" else "");
      queue.priorityQueue := q - multiset{t};
      order := order + [t];
    }
    DrainEnds(fm, operands, rows, q0, queue.priorityQueue, order, oss);
    return Some(oss), order;
  }

  /** Pushes the matching rows of the whole table. */
  method PushMatches(q: ComplexQuery, table: Table, queue: SelectQueue)
    requires Usable(table) && Initialised(q.condition, |table.fields|) && queue.priorityQueue == multiset{}
    modifies queue
    ensures HoldsMatches(q.condition, table.data, queue.priorityQueue)
  {
    for i := 0 to |table.data|
      invariant forall r: nat :: queue.priorityQueue[r] == if r < i && Matches(q.condition, table.data[r]) then 1 else 0
    {
      var matched := q.EvalCondition(table.data[i]);
      if matched {
        queue.priorityQueue := queue.priorityQueue + multiset{i};
      }
    }
  }

  lemma NoMembers(q: multiset<nat>)
    requires forall r: nat :: q[r] == 0
    ensures |q| == 0
  {
    assert q == multiset{};
  }

  lemma NothingSelected(cs: seq<QueryCondition>, rows: seq<Row>, q: multiset<nat>)
    requires UniqueKeys(rows) && HoldsMatches(cs, rows, q)
    ensures |q| == 0 <==> Selected(cs, AsMap(rows)) == []
  {
    var sel := Selected(cs, AsMap(rows));
    if |q| > 0 {
      var r :| r in q;
      SelectedAre(cs, rows, rows[r]);
    }
    if sel != [] {
      SelectedAre(cs, rows, sel[0]);
      assert sel[0] in sel;
      var i: nat :| i < |rows| && rows[i] == sel[0];
      assert q[i] == 1;
    }
  }

  // ---------------------------------------------------------------- what SELECT promises

  /** order lists, in key order, the rows that satisfy the conditions. */
  ghost predicate InKeyOrder(fm: FieldMap, conds: seq<QueryCondition>, rows: seq<Row>, order: seq<nat>) {
    && (forall i: nat :: i in order <==> i in PickedRows(fm, conds, rows))
    && forall j, k :: 0 <= j < k < |order| ==> order[j] < |rows| && order[k] < |rows| && Before(rows[order[j]].key, rows[order[k]].key)
  }

  /** The listed rows are all that satisfy the conditions, in the order of their keys. */
  ghost predicate ListedInOrder(fm: FieldMap, operands: seq<string>, conds: seq<QueryCondition>, rows: seq<Row>, text: string) {
    exists order :: InKeyOrder(fm, conds, rows, order)
      && (forall k :: 0 <= k < |order| ==> order[k] < |rows|) && text == Lines(fm, operands, RowsAt(rows, order))
  }

  ghost predicate SelectPromise(fm: FieldMap, operands: seq<string>, conds: seq<QueryCondition>, rows: seq<Row>, a: Answer) {
    if Refused(fm, conds, 0) then a == Failed
    else if PickedRows(fm, conds, rows) == {} then a == Null
    else if exists k :: 0 <= k < |operands| && operands[k] != "KEY" && operands[k] !in fm then a == Failed
    else a.Listing? && ListedInOrder(fm, operands, conds, rows, a.text)
  }

  lemma QueueOf(cs: seq<QueryCondition>, rows: seq<Row>) returns (q: multiset<nat>)
    ensures HoldsMatches(cs, rows, q) && Distinct(rows, q)
  {
    q := multiset(set i: nat | i < |rows| && Matches(cs, rows[i]));
  }

  lemma SelectingKept(fm: FieldMap, operands: seq<string>, conds: seq<QueryCondition>, rows: seq<Row>)
    requires KeysNamed(conds) && UniqueKeys(rows)
    ensures SelectPromise(fm, operands, conds, rows, Selecting(fm, operands, conds, AsMap(rows)))
  {
    WherePicks(fm, conds, rows);
    var (cs, init) := Init(fm, conds);
    if init.Flag? {
      if init.flag {
        assert SamePick(fm, conds, cs, rows);
        SelectedKept(fm, operands, conds, cs, init, rows);
      } else {
        assert PickedRows(fm, conds, rows) == {};
      }
    }
  }

  lemma SelectedKept(fm: FieldMap, operands: seq<string>, conds: seq<QueryCondition>, cs: seq<QueryCondition>, init: InitResult, rows: seq<Row>)
    requires UniqueKeys(rows) && SamePick(fm, conds, cs, rows) && init.Flag? && init.flag && !Refused(fm, conds, 0)
    ensures SelectPromise(fm, operands, conds, rows, SelectingWith(fm, operands, cs, init, AsMap(rows)))
  {
    var q := QueueOf(cs, rows);
    NothingSelected(cs, rows, q);
    NoneInQueue(fm, conds, cs, rows, q);
    if |q| > 0 {
      if Printable(fm, operands) {
        ListingKept(fm, operands, conds, cs, rows, q);
      } else {
        var k :| 0 <= k < |operands| && operands[k] != "KEY" && operands[k] !in fm;
      }
    }
  }

  lemma ListingKept(fm: FieldMap, operands: seq<string>, conds: seq<QueryCondition>, cs: seq<QueryCondition>, rows: seq<Row>, q: multiset<nat>)
    requires UniqueKeys(rows) && SamePick(fm, conds, cs, rows) && HoldsMatches(cs, rows, q) && Distinct(rows, q)
    ensures ListedInOrder(fm, operands, conds, rows, Lines(fm, operands, Selected(cs, AsMap(rows))))
  {
    assert Remaining(q, []) == q;
    var order := DrainOrder(rows, q, q, []);
    DrainSelects(cs, rows, q, order);
    OrderKept(fm, conds, cs, rows, q, order);
  }

  lemma NoneInQueue(fm: FieldMap, conds: seq<QueryCondition>, cs: seq<QueryCondition>, rows: seq<Row>, q: multiset<nat>)
    requires SamePick(fm, conds, cs, rows) && HoldsMatches(cs, rows, q)
    ensures |q| == 0 <==> PickedRows(fm, conds, rows) == {}
  {
    if PickedRows(fm, conds, rows) == {} {
      forall r: nat ensures q[r] == 0 {
        assert r !in PickedRows(fm, conds, rows);
      }
      NoMembers(q);
    } else {
      var i :| i in PickedRows(fm, conds, rows);
      assert q[i] == 1;
    }
  }

  lemma OrderKept(fm: FieldMap, conds: seq<QueryCondition>, cs: seq<QueryCondition>, rows: seq<Row>, q: multiset<nat>, order: seq<nat>)
    requires UniqueKeys(rows) && SamePick(fm, conds, cs, rows) && HoldsMatches(cs, rows, q)
    requires Drained(rows, q, multiset{}, order)
    ensures InKeyOrder(fm, conds, rows, order)
  {
    PoppedInOrder(rows, q, order);
    forall i: nat ensures i in order <==> i in PickedRows(fm, conds, rows) {
      assert Remaining(q, order)[i] == 0;
      if q[i] == 1 {
        assert multiset(order)[i] >= 1;
      }
    }
  }

  // ---------------------------------------------------------------- execute

  /** The queue is shared by all SELECT queries and must be empty on entry. It is empty again on
      return unless the query failed while printing. */
  method ExecuteSelect(q: ComplexQuery, table: Table, queue: SelectQueue) returns (ans: Answer)
    requires Usable(table) && queue.priorityQueue == multiset{}
    modifies queue, q`condition
    ensures ans == Selecting(table.fieldMap, q.operands, old(q.condition), AsMap(table.data))
    ensures KeysNamed(old(q.condition)) ==> SelectPromise(table.fieldMap, q.operands, old(q.condition), table.data, ans)
    ensures queue.priorityQueue == multiset{} <==>
      Printable(table.fieldMap, q.operands) || ans != Failed || Init(table.fieldMap, old(q.condition)).1.Threw?
  {
    if KeysNamed(q.condition) {
      SelectingKept(table.fieldMap, q.operands, q.condition, table.data);
    }
    InitInitialised(table.fieldMap, q.condition, |table.fields|);
    var result := q.InitCondition(table.fieldMap);
    if result.Threw? {
      return Failed;
    }
    if !result.flag {
      return Null;
    }
    PushMatches(q, table, queue);
    ans := Answered(q.condition, q.operands, table, queue);
  }

  /** The second half of execute(), the same after the sequential and the parallel pushes. */
  method Answered(ghost cs: seq<QueryCondition>, operands: seq<string>, table: Table, queue: SelectQueue) returns (ans: Answer)
    requires Usable(table) && HoldsMatches(cs, table.data, queue.priorityQueue)
    modifies queue
    ensures var out := Selected(cs, AsMap(table.data));
      ans == if out == [] then Null
             else if Printable(table.fieldMap, operands) then Listing(Lines(table.fieldMap, operands, out))
             else Failed
    ensures queue.priorityQueue == if ans == Failed then old(queue.priorityQueue) else multiset{}
    ensures ans == Failed ==> old(queue.priorityQueue) != multiset{}
  {
    NothingSelected(cs, table.data, queue.priorityQueue);
    if |queue.priorityQueue| == 0 {
      assert queue.priorityQueue == multiset{};
      return Null;
    }
    ghost var pushed := queue.priorityQueue;
    assert Within(table.fieldMap, |table.fields|);
    var text, order := Drain(queue, table.data, table.fieldMap, operands);
    if text.None? {
      return Failed;
    }
    DrainSelects(cs, table.data, pushed, order);
    return Listing(text.value);
  }
}
