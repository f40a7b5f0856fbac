/** What the query files share: answers, operands, and what a scan relies on. */
module Queries {
  import opened Values
  import opened Conditions
  import opened Tables

  /** Failed stands for every ErrorMsgResult, Null for NullQueryResult. */
  datatype Answer =
    | Failed
    | Null
    | Affected(rows: int)
    | Number(n: int)
    | Values(vs: seq<Int32>)
    | Listing(text: string)

  predicate Known(fm: FieldMap, operands: seq<string>) {
    forall i :: 0 <= i < |operands| ==> operands[i] in fm
  }

  predicate Within(fm: FieldMap, width: nat) {
    forall f :: f in fm ==> fm[f] < width
  }

  function Positions(fm: FieldMap, operands: seq<string>): (fs: seq<nat>)
    requires Known(fm, operands)
    ensures |fs| == |operands| && forall i :: 0 <= i < |fs| ==> fs[i] == fm[operands[i]]
  {
    seq(|operands|, i requires 0 <= i < |operands| => fm[operands[i]])
  }

  /** What the loops rely on: an exact index, and every row as wide as the field list. */
  ghost predicate Usable(t: Table)
    reads t
  {
    t.Valid() && t.Rectangular()
  }

  lemma CountStep(cs: seq<QueryCondition>, rows: seq<Row>, i: nat)
    requires i < |rows|
    ensures CountMatches(cs, rows[..i + 1]) == CountMatches(cs, rows[..i]) + (if Matches(cs, rows[i]) then 1 else 0)
    ensures CountMatches(cs, rows[..i]) <= CountMatches(cs, rows[..i + 1]) <= CountMatches(cs, rows)
  {
    CountSnoc(cs, rows[..i], rows[i]);
    assert rows[..i + 1] == rows[..i] + [rows[i]];
    CountConcat(cs, rows[..i + 1], rows[i + 1..]);
    assert rows == rows[..i + 1] + rows[i + 1..];
  }

  // ---------------------------------------------------------------- the rows that a query is about

  /** Positions of the rows that satisfy the conditions as written. */
  ghost function PickedRows(fm: FieldMap, conds: seq<QueryCondition>, rows: seq<Row>): set<nat> {
    set i: nat | i < |rows| && AllMean(fm, conds, rows[i])
  }

  /** The value of a named field. */
  function FieldOf(fm: FieldMap, name: string, r: Row): int {
    if name in fm && fm[name] < |r.vals| then r.vals[fm[name]] else 0
  }

  ghost function MatchingRows(cs: seq<QueryCondition>, rows: seq<Row>): set<nat> {
    set i: nat | i < |rows| && Matches(cs, rows[i])
  }

  lemma MatchingRowsNext(cs: seq<QueryCondition>, rows: seq<Row>)
    requires rows != []
    ensures var n := |rows| - 1;
      && MatchingRows(cs, rows) == MatchingRows(cs, rows[..n]) + (if Matches(cs, rows[n]) then {n} else {})
      && n !in MatchingRows(cs, rows[..n])
  {
    var n := |rows| - 1;
    forall i: nat | i < n ensures i in MatchingRows(cs, rows) <==> i in MatchingRows(cs, rows[..n]) {
      assert rows[..n][i] == rows[i];
    }
  }

  lemma {:induction false} CountIsSize(cs: seq<QueryCondition>, rows: seq<Row>)
    ensures CountMatches(cs, rows) == |MatchingRows(cs, rows)|
  {
    if rows == [] {
      assert MatchingRows(cs, rows) == {};
    } else {
      CountIsSize(cs, rows[..|rows| - 1]);
      MatchingRowsNext(cs, rows);
    }
  }

  /** What initCondition and evalCondition make of a WHERE: the query is refused, or it works on exactly
      the rows that satisfy every condition as written. */
  lemma WherePicks(fm: FieldMap, conds: seq<QueryCondition>, rows: seq<Row>)
    requires KeysNamed(conds)
    ensures var (cs, init) := Init(fm, conds);
      && (init.Threw? <==> Refused(fm, conds, 0))
      && (init.Flag? ==>
            && (forall i: nat :: i < |rows| ==> (init.flag && Matches(cs, rows[i]) <==> AllMean(fm, conds, rows[i])))
            && (if init.flag then CountMatches(cs, rows) else 0) == |PickedRows(fm, conds, rows)|)
  {
    var (cs, init) := Init(fm, conds);
    InitThrows(fm, conds);
    forall i: nat | i < |rows| && init.Flag? ensures init.flag && Matches(cs, rows[i]) <==> AllMean(fm, conds, rows[i]) {
      WhereMeans(fm, conds, rows[i]);
    }
    if init.Flag? {
      CountIsSize(cs, rows);
      if init.flag {
        assert PickedRows(fm, conds, rows) == MatchingRows(cs, rows);
      } else {
        assert PickedRows(fm, conds, rows) == {};
      }
    }
  }

  /** The conditions `cs` pick, of these rows, those that satisfy `conds` as written. */
  ghost predicate SamePick(fm: FieldMap, conds: seq<QueryCondition>, cs: seq<QueryCondition>, rows: seq<Row>) {
    forall i :: 0 <= i < |rows| ==> (Matches(cs, rows[i]) <==> AllMean(fm, conds, rows[i]))
  }

  // ---------------------------------------------------------------- what DUPLICATE may copy

  /** taken is the key set against which evalDuplicate checks. */
  predicate CanCopy(taken: set<string>, key: string) {
    key + COPY_SUFFIX !in taken
  }

  /** What DUPLICATE collects at one row. */
  function CopyKey(conds: seq<QueryCondition>, taken: set<string>, r: Row): seq<string> {
    if Matches(conds, r) && CanCopy(taken, r.key) then [r.key] else []
  }

  /** Keys of the matching rows whose copy is not taken, in table order. */
  function CopyKeys(conds: seq<QueryCondition>, taken: set<string>, rows: seq<Row>): seq<string> {
    if rows == [] then []
    else CopyKeys(conds, taken, rows[..|rows| - 1]) + CopyKey(conds, taken, rows[|rows| - 1])
  }

  lemma CopyKeysSnoc(conds: seq<QueryCondition>, taken: set<string>, rows: seq<Row>, r: Row)
    ensures CopyKeys(conds, taken, rows + [r]) == CopyKeys(conds, taken, rows) + CopyKey(conds, taken, r)
  {
    assert (rows + [r])[..|rows|] == rows;
  }

  lemma CopyKeysNext(conds: seq<QueryCondition>, taken: set<string>, rows: seq<Row>, i: nat)
    requires i < |rows|
    ensures CopyKeys(conds, taken, rows[..i + 1]) == CopyKeys(conds, taken, rows[..i]) + CopyKey(conds, taken, rows[i])
    ensures rows[..|rows|] == rows
  {
    assert rows[..i + 1] == rows[..i] + [rows[i]];
    CopyKeysSnoc(conds, taken, rows[..i], rows[i]);
  }

  // ---------------------------------------------------------------- the index short-cut

  /** Raised: initCondition threw. Handled: the callback ran, with the row or without one. NotHandled:
      no KEY condition, so the caller has to scan. */
  datatype KeyTest = Raised | Handled(hit: Option<nat>) | NotHandled

  /** testKeyCondition agrees with a full scan: whatever it hands to the callback is the one row that
      satisfies the conditions as written, and nothing means that no row does. */
  method TestKeyCondition(q: ComplexQuery, table: Table) returns (t: KeyTest)
    requires Usable(table)
    modifies q`condition
    ensures t.Raised? <==> Init(table.fieldMap, old(q.condition)).1.Threw?
    ensures t.Handled? ==> forall i: nat :: i < |table.data| ==>
      (AllMean(table.fieldMap, old(q.condition), table.data[i]) <==> t.hit == Some(i))
    ensures t.Handled? && t.hit.Some? ==> t.hit.value < |table.data|
    ensures t.NotHandled? ==> Initialised(q.condition, |table.fields|)
  {
    ghost var fm, conds := table.fieldMap, q.condition;
    InitInitialised(fm, conds, |table.fields|);
    var result := q.InitCondition(table.fieldMap);
    if result.Threw? {
      return Raised;
    }
    forall i: nat | i < |table.data|
      ensures !result.flag ==> !AllMean(fm, conds, table.data[i])
      ensures result.flag ==> (Matches(q.condition, table.data[i]) <==> AllMean(fm, conds, table.data[i]))
      ensures result.flag && result.key != "" && Matches(q.condition, table.data[i]) ==> table.data[i].key == result.key
    {
      InitSound(fm, conds, table.data[i]);
    }
    if !result.flag {
      return Handled(None);
    }
    if result.key != "" {
      var row := table.Lookup(result.key);
      if row.Some? {
        var holds := q.EvalCondition(table.data[row.value]);
        if holds {
          return Handled(row);
        }
      }
      return Handled(None);
    }
    return NotHandled;
  }
}
