/** WHERE conditions: initCondition prepares them once per query, evalCondition tests a row. */
module Conditions {
  import opened Values

  datatype Cmp = Greater | Less | EqualTo | GreaterEqual | LessEqual

  function OpOf(op: string): Option<Cmp> {
    if op == ">" then Some(Greater)
    else if op == "<" then Some(Less)
    else if op == "=" then Some(EqualTo)
    else if op == ">=" then Some(GreaterEqual)
    else if op == "<=" then Some(LessEqual)
    else None
  }

  predicate Compare(c: Cmp, a: int, b: int) {
    match c
    case Greater => a > b
    case Less => a < b
    case EqualTo => a == b
    case GreaterEqual => a >= b
    case LessEqual => a <= b
  }

  /** number is what strtol reads in value; comp is None until initCondition has set it. */
  datatype QueryCondition = QueryCondition(
    field: string, op: string, value: string, number: Int32,
    fieldId: nat, comp: Option<Cmp>, valueParsed: Int32)

  datatype InitError = KeyOperator | FieldNotFound | BadOperator

  /** The pair that initCondition returns, or what it throws. */
  datatype InitResult = Threw(error: InitError) | Flag(key: string, flag: bool)

  type FieldMap = map<string, nat>

  // ---------------------------------------------------------------- what conditions mean

  /** What the five operators mean between numbers. */
  predicate Compares(op: string, a: int, b: int) {
    || (op == ">" && a > b) || (op == "<" && a < b) || (op == "=" && a == b)
    || (op == ">=" && a >= b) || (op == "<=" && a <= b)
  }

  /** A condition as the user wrote it. */
  predicate Means(fm: FieldMap, c: QueryCondition, r: Row) {
    if c.field == "KEY" then r.key == c.value
    else c.field in fm && Compares(c.op, if fm[c.field] < |r.vals| then r.vals[fm[c.field]] else 0, c.number)
  }

  predicate AllMean(fm: FieldMap, conds: seq<QueryCondition>, r: Row) {
    forall k :: 0 <= k < |conds| ==> Means(fm, conds[k], r)
  }

  /** A condition as evalCondition reads it. */
  predicate Holds(c: QueryCondition, r: Row) {
    if c.field == "KEY" then r.key == c.value
    else c.comp.Some? && Compare(c.comp.value, Cell(r, c.fieldId), c.valueParsed)
  }

  predicate Matches(conds: seq<QueryCondition>, r: Row) {
    forall k :: 0 <= k < |conds| ==> Holds(conds[k], r)
  }

  /** evalCondition may run: every non-KEY condition has its comparator and a field in the row. */
  predicate Initialised(conds: seq<QueryCondition>, width: nat) {
    forall k :: 0 <= k < |conds| && conds[k].field != "KEY" ==> conds[k].comp.Some? && conds[k].fieldId < width
  }

  function CountMatches(conds: seq<QueryCondition>, rows: seq<Row>): (n: nat)
    ensures n <= |rows|
  {
    if rows == [] then 0
    else CountMatches(conds, rows[..|rows| - 1]) + (if Matches(conds, rows[|rows| - 1]) then 1 else 0)
  }

  lemma CountSnoc(conds: seq<QueryCondition>, rows: seq<Row>, r: Row)
    ensures CountMatches(conds, rows + [r]) == CountMatches(conds, rows) + (if Matches(conds, r) then 1 else 0)
  {
    assert (rows + [r])[..|rows|] == rows;
  }

  lemma {:induction false} CountConcat(conds: seq<QueryCondition>, a: seq<Row>, b: seq<Row>)
    ensures CountMatches(conds, a + b) == CountMatches(conds, a) + CountMatches(conds, b)
  {
    if b == [] {
      assert a + b == a;
    } else {
      CountConcat(conds, a, b[..|b| - 1]);
      assert (a + b)[..|a + b| - 1] == a + b[..|b| - 1];
    }
  }

  lemma CountJoin(conds: seq<QueryCondition>, orig: seq<Row>, lo: nat, hi: nat)
    requires lo <= hi <= |orig|
    ensures CountMatches(conds, orig[..hi]) == CountMatches(conds, orig[..lo]) + CountMatches(conds, orig[lo..hi])
  {
    assert orig[..hi] == orig[..lo] + orig[lo..hi];
    CountConcat(conds, orig[..lo], orig[lo..hi]);
  }

  lemma {:induction false} CountNone(conds: seq<QueryCondition>, rows: seq<Row>)
    ensures CountMatches(conds, rows) == 0 <==> forall i :: 0 <= i < |rows| ==> !Matches(conds, rows[i])
  {
    if rows != [] {
      CountNone(conds, rows[..|rows| - 1]);
    }
  }

  // ---------------------------------------------------------------- initCondition

  function Prepared(fm: FieldMap, c: QueryCondition): QueryCondition
    requires c.field in fm
  {
    c.(fieldId := fm[c.field], valueParsed := c.number, comp := if OpOf(c.op).Some? then OpOf(c.op) else c.comp)
  }

  /** The loop from condition i on, with `key` the KEY value seen so far. */
  function InitFrom(fm: FieldMap, conds: seq<QueryCondition>, i: nat, key: string): (seq<QueryCondition>, InitResult)
    decreases |conds| - i
  {
    if i >= |conds| then (conds, Flag(key, true))
    else
      var c := conds[i];
      if c.field == "KEY" then
        if c.op != "=" then (conds, Threw(KeyOperator))
        else if key == "" then InitFrom(fm, conds, i + 1, c.value)
        else if key != c.value then (conds, Flag(key, false))
        else InitFrom(fm, conds, i + 1, key)
      else if c.field !in fm then (conds, Threw(FieldNotFound))
      else
        var next := conds[i := Prepared(fm, c)];
        if OpOf(c.op).None? then (next, Threw(BadOperator)) else InitFrom(fm, next, i + 1, key)
  }

  function Init(fm: FieldMap, conds: seq<QueryCondition>): (seq<QueryCondition>, InitResult) {
    InitFrom(fm, conds, 0, "")
  }

  class ComplexQuery {
    var targetTable: string
    var operands: seq<string>
    var condition: seq<QueryCondition>

    constructor (targetTable: string, operands: seq<string>, condition: seq<QueryCondition>)
      ensures this.targetTable == targetTable && this.operands == operands && this.condition == condition
    {
      this.targetTable, this.operands, this.condition := targetTable, operands, condition;
    }

    method InitCondition(fm: FieldMap) returns (r: InitResult)
      modifies this`condition
      ensures (condition, r) == Init(fm, old(condition))
      ensures KeysNamed(old(condition)) ==>
        && (r.Threw? <==> Refused(fm, old(condition), 0))
        && forall row :: r.Flag? ==> (r.flag && Matches(condition, row) <==> AllMean(fm, old(condition), row))
    {
      WhereMeansAll(fm, condition);
      var key := "";
      var i := 0;
      while i < |condition|
        invariant 0 <= i <= |condition|
        invariant InitFrom(fm, condition, i, key) == Init(fm, old(condition))
        decreases |condition| - i
      {
        var c := condition[i];
        ghost var before := condition;
        if c.field == "KEY" {
          if c.op != "=" {
            return Threw(KeyOperator);
          } else if key == "" {
            key := c.value;
          } else if key != c.value {
            return Flag(key, false);
          }
        } else {
          if c.field !in fm {
            return Threw(FieldNotFound);
          }
          condition := condition[i := c.(fieldId := fm[c.field], valueParsed := c.number)];
          var op := OpOf(c.op);
          if op.None? {
            assert condition == before[i := Prepared(fm, c)];
            return Threw(BadOperator);
          }
          condition := condition[i := condition[i].(comp := op)];
          assert condition == before[i := Prepared(fm, c)];
        }
        i := i + 1;
      }
      return Flag(key, true);
    }

    method EvalCondition(row: Row) returns (ret: bool)
      requires Initialised(condition, |row.vals|)
      ensures ret == Matches(condition, row)
      ensures ret <==> forall k :: 0 <= k < |condition| ==>
        var c := condition[k];
        && (c.field == "KEY" ==> row.key == c.value)
        && (c.field != "KEY" && c.comp == Some(Greater) ==> row.vals[c.fieldId] > c.valueParsed)
        && (c.field != "KEY" && c.comp == Some(Less) ==> row.vals[c.fieldId] < c.valueParsed)
        && (c.field != "KEY" && c.comp == Some(EqualTo) ==> row.vals[c.fieldId] == c.valueParsed)
        && (c.field != "KEY" && c.comp == Some(GreaterEqual) ==> row.vals[c.fieldId] >= c.valueParsed)
        && (c.field != "KEY" && c.comp == Some(LessEqual) ==> row.vals[c.fieldId] <= c.valueParsed)
    {
      ret := true;
      for i := 0 to |condition|
        invariant ret == Matches(condition[..i], row)
      {
        var cond := condition[i];
        if cond.field != "KEY" {
          ret := ret && Compare(cond.comp.value, row.vals[cond.fieldId], cond.valueParsed);
        } else {
          ret := ret && row.key == cond.value;
        }
        assert condition[..i + 1] == condition[..i] + [cond];
      }
      assert condition[..|condition|] == condition;
    }
  }

  // ---------------------------------------------------------------- what the preparation promises

  /** Preparation fills in fields of conditions; it never changes what the user wrote. */
  predicate SameText(a: QueryCondition, b: QueryCondition) {
    a.field == b.field && a.op == b.op && a.value == b.value && a.number == b.number
  }

  predicate Ready(fm: FieldMap, c: QueryCondition) {
    if c.field == "KEY" then c.op == "="
    else c.field in fm && OpOf(c.op).Some? && c == Prepared(fm, c)
  }

  lemma {:induction false} InitShape(fm: FieldMap, conds: seq<QueryCondition>, i: nat, key: string)
    requires i <= |conds|
    ensures var (cs, r) := InitFrom(fm, conds, i, key);
      && |cs| == |conds| && cs[..i] == conds[..i]
      && (forall k :: 0 <= k < |cs| ==> SameText(cs[k], conds[k]))
      && (r.Flag? && r.flag ==> forall k :: i <= k < |cs| ==> Ready(fm, cs[k]))
    decreases |conds| - i
  {
    if i < |conds| {
      var c := conds[i];
      if c.field == "KEY" {
        if c.op == "=" && (key == "" || key == c.value) {
          InitShape(fm, conds, i + 1, c.value);
          var (cs, _) := InitFrom(fm, conds, i + 1, c.value);
          assert cs[i] == cs[..i + 1][i] == conds[i];
          assert cs[..i] == cs[..i + 1][..i];
        }
      } else if c.field in fm && OpOf(c.op).Some? {
        var next := conds[i := Prepared(fm, c)];
        InitShape(fm, next, i + 1, key);
        var (cs, _) := InitFrom(fm, next, i + 1, key);
        assert cs[i] == cs[..i + 1][i] == next[i];
        assert cs[..i] == cs[..i + 1][..i];
      }
    }
  }

  /** The key that comes back is the one every row must have: a lookup key was written in some KEY
      condition, and a false flag means a second one asks for a different key. */
  lemma {:induction false} InitKey(fm: FieldMap, conds: seq<QueryCondition>, i: nat, key: string)
    requires i <= |conds|
    ensures var (_, r) := InitFrom(fm, conds, i, key);
      r.Flag? ==>
        && (key != "" ==> r.key == key)
        && (key == "" && r.key != "" ==>
              exists k :: i <= k < |conds| && conds[k].field == "KEY" && conds[k].value == r.key)
        && (!r.flag ==> r.key != "")
        && (r.flag ==> forall k :: i <= k < |conds| && conds[k].field == "KEY" ==> conds[k].value in {"", r.key})
        && (!r.flag ==> exists k :: i <= k < |conds| && conds[k].field == "KEY" && conds[k].value != r.key)
    decreases |conds| - i
  {
    if i < |conds| {
      var c := conds[i];
      if c.field == "KEY" {
        if c.op == "=" && (key == "" || key == c.value) {
          InitKey(fm, conds, i + 1, c.value);
        }
      } else if c.field in fm && OpOf(c.op).Some? {
        var next := conds[i := Prepared(fm, c)];
        InitKey(fm, next, i + 1, key);
        assert forall k :: i < k < |conds| ==> next[k] == conds[k];
      }
    }
  }

  /** A false flag means no row can satisfy the conditions; with a true flag every condition is
      ready to be evaluated, and evaluating the prepared ones is what the user's text means. */
  lemma InitSound(fm: FieldMap, conds: seq<QueryCondition>, r: Row)
    ensures var (cs, res) := Init(fm, conds);
      && (res.Flag? && !res.flag ==> !AllMean(fm, conds, r))
      && (res.Flag? && res.flag ==> (Matches(cs, r) <==> AllMean(fm, conds, r)))
      && (res.Flag? && res.flag && res.key != "" && Matches(cs, r) ==> r.key == res.key)
  {
    var (cs, res) := Init(fm, conds);
    InitShape(fm, conds, 0, "");
    InitKey(fm, conds, 0, "");
    if res.Flag? && res.flag {
      forall k | 0 <= k < |cs| ensures Holds(cs[k], r) <==> Means(fm, conds[k], r) {
        assert Ready(fm, cs[k]) && SameText(cs[k], conds[k]);
      }
      if res.key != "" && Matches(cs, r) {
        var k :| 0 <= k < |conds| && conds[k].field == "KEY" && conds[k].value == res.key;
        assert Holds(cs[k], r) && SameText(cs[k], conds[k]);
      }
    }
  }

  /** KEY values are tokens and so never empty: the flag is then false exactly when two KEY
      conditions name different keys. */
  lemma FlagExact(fm: FieldMap, conds: seq<QueryCondition>)
    requires forall k :: 0 <= k < |conds| && conds[k].field == "KEY" ==> conds[k].value != ""
    requires Init(fm, conds).1.Flag?
    ensures !Init(fm, conds).1.flag <==>
      exists a, b :: 0 <= a < b < |conds| && conds[a].field == "KEY" == conds[b].field && conds[a].value != conds[b].value
  {
    var r := Init(fm, conds).1;
    InitKey(fm, conds, 0, "");
    if !r.flag {
      var b :| 0 <= b < |conds| && conds[b].field == "KEY" && conds[b].value != r.key;
      var a :| 0 <= a < |conds| && conds[a].field == "KEY" && conds[a].value == r.key;
      assert a < b || b < a;
    }
  }

  /** What initCondition refuses in a condition. */
  predicate IllFormed(fm: FieldMap, c: QueryCondition) {
    if c.field == "KEY" then c.op != "="
    else c.field !in fm || (c.op != ">" && c.op != "<" && c.op != "=" && c.op != ">=" && c.op != "<=")
  }

  /** Two of the first n conditions ask for different keys. */
  ghost predicate Contradict(conds: seq<QueryCondition>, n: nat) {
    exists a, b :: 0 <= a < b < n && b < |conds| && conds[a].field == "KEY" == conds[b].field && conds[a].value != conds[b].value
  }

  predicate KeysNamed(conds: seq<QueryCondition>) {
    forall k :: 0 <= k < |conds| && conds[k].field == "KEY" ==> conds[k].value != ""
  }

  /** The query is refused: some condition is ill-formed, and no contradiction comes before it. */
  ghost predicate Refused(fm: FieldMap, conds: seq<QueryCondition>, from: nat) {
    exists j: nat :: from <= j < |conds| && IllFormed(fm, conds[j]) && !Contradict(conds, j)
  }

  lemma SameRefused(fm: FieldMap, conds: seq<QueryCondition>, next: seq<QueryCondition>, from: nat)
    requires |conds| == |next| && forall k :: 0 <= k < |conds| ==> SameText(conds[k], next[k])
    ensures Refused(fm, conds, from) <==> Refused(fm, next, from)
  {
    forall n: nat | n <= |conds| ensures Contradict(conds, n) <==> Contradict(next, n) {
      if a, b :| 0 <= a < b < n && conds[a].field == "KEY" == conds[b].field && conds[a].value != conds[b].value {
        assert next[a].field == "KEY" == next[b].field && next[a].value != next[b].value;
      }
      if a, b :| 0 <= a < b < n && next[a].field == "KEY" == next[b].field && next[a].value != next[b].value {
        assert conds[a].field == "KEY" == conds[b].field && conds[a].value != conds[b].value;
      }
    }
    if j: nat :| from <= j < |conds| && IllFormed(fm, conds[j]) && !Contradict(conds, j) {
      assert IllFormed(fm, next[j]) && !Contradict(next, j);
    }
    if j: nat :| from <= j < |conds| && IllFormed(fm, next[j]) && !Contradict(next, j) {
      assert IllFormed(fm, conds[j]) && !Contradict(conds, j);
    }
  }

  /** `key` is what the KEY conditions before i ask for, if there is one. */
  ghost predicate KeyBefore(conds: seq<QueryCondition>, i: nat, key: string)
    requires i <= |conds|
  {
    && (forall k :: 0 <= k < i && conds[k].field == "KEY" ==> conds[k].value == key)
    && (key != "" ==> exists k :: 0 <= k < i && conds[k].field == "KEY")
  }

  lemma KeyBeforeNext(conds: seq<QueryCondition>, i: nat, key: string)
    requires i < |conds| && KeysNamed(conds) && KeyBefore(conds, i, key)
    ensures !Contradict(conds, i)
    ensures conds[i].field != "KEY" ==> KeyBefore(conds, i + 1, key)
    ensures conds[i].field == "KEY" && key in {"", conds[i].value} ==> KeyBefore(conds, i + 1, conds[i].value)
    ensures conds[i].field == "KEY" && key !in {"", conds[i].value} ==> forall j: nat :: i < j <= |conds| ==> Contradict(conds, j)
  {
    if conds[i].field == "KEY" && key != "" && key != conds[i].value {
      var k :| 0 <= k < i && conds[k].field == "KEY";
      assert conds[k].value != conds[i].value;
    }
  }

  lemma RefusedNext(fm: FieldMap, conds: seq<QueryCondition>, i: nat)
    requires i < |conds|
    ensures Refused(fm, conds, i) <==> (IllFormed(fm, conds[i]) && !Contradict(conds, i)) || Refused(fm, conds, i + 1)
  {
  }

  lemma {:induction false} InitThrowsFrom(fm: FieldMap, conds: seq<QueryCondition>, i: nat, key: string)
    requires i <= |conds| && KeysNamed(conds) && KeyBefore(conds, i, key)
    ensures InitFrom(fm, conds, i, key).1.Threw? <==> Refused(fm, conds, i)
    decreases |conds| - i
  {
    if i < |conds| {
      var c := conds[i];
      KeyBeforeNext(conds, i, key);
      RefusedNext(fm, conds, i);
      if c.field == "KEY" {
        if c.op == "=" && (key == "" || key == c.value) {
          InitThrowsFrom(fm, conds, i + 1, c.value);
        }
      } else if c.field in fm && OpOf(c.op).Some? {
        var next := conds[i := Prepared(fm, c)];
        SameRefused(fm, conds, next, i + 1);
        assert KeyBefore(next, i + 1, key) by {
          SameKeys(conds, next, i + 1, key);
        }
        InitThrowsFrom(fm, next, i + 1, key);
      }
    }
  }

  lemma SameKeys(conds: seq<QueryCondition>, next: seq<QueryCondition>, i: nat, key: string)
    requires |conds| == |next| && i <= |conds| && KeyBefore(conds, i, key)
    requires forall k :: 0 <= k < |conds| ==> SameText(conds[k], next[k])
    ensures KeyBefore(next, i, key)
  {
    if key != "" {
      var k :| 0 <= k < i && conds[k].field == "KEY";
      assert next[k].field == "KEY";
    }
  }

  /** initCondition throws if and only if, before any contradiction, a KEY condition does not say `=`,
      a field is unknown, or an operator is none of the five. */
  lemma InitThrows(fm: FieldMap, conds: seq<QueryCondition>)
    requires KeysNamed(conds)
    ensures Init(fm, conds).1.Threw? <==> Refused(fm, conds, 0)
  {
    InitThrowsFrom(fm, conds, 0, "");
  }

  /** WHERE, all in all: a query that is not refused works on exactly the rows that satisfy every
      condition as written. */
  lemma WhereMeans(fm: FieldMap, conds: seq<QueryCondition>, r: Row)
    requires KeysNamed(conds)
    ensures var (cs, res) := Init(fm, conds);
      && (res.Threw? <==> Refused(fm, conds, 0))
      && (res.Flag? ==> (res.flag && Matches(cs, r) <==> AllMean(fm, conds, r)))
  {
    InitThrows(fm, conds);
    InitSound(fm, conds, r);
  }

  lemma WhereMeansAll(fm: FieldMap, conds: seq<QueryCondition>)
    ensures KeysNamed(conds) ==>
      var (cs, res) := Init(fm, conds);
      && (res.Threw? <==> Refused(fm, conds, 0))
      && forall r :: res.Flag? ==> (res.flag && Matches(cs, r) <==> AllMean(fm, conds, r))
  {
    forall r | KeysNamed(conds) && Init(fm, conds).1.Flag?
      ensures Init(fm, conds).1.flag && Matches(Init(fm, conds).0, r) <==> AllMean(fm, conds, r)
    {
      WhereMeans(fm, conds, r);
    }
    if KeysNamed(conds) {
      InitThrows(fm, conds);
    }
  }

  lemma InitInitialised(fm: FieldMap, conds: seq<QueryCondition>, width: nat)
    requires forall f :: f in fm ==> fm[f] < width
    ensures var (cs, res) := Init(fm, conds);
      res.Flag? && res.flag ==> Initialised(cs, width)
  {
    InitShape(fm, conds, 0, "");
    var (cs, res) := Init(fm, conds);
    assert forall k :: 0 <= k < |cs| && res.Flag? && res.flag ==> Ready(fm, cs[k]);
  }

  lemma InitKeeps(fm: FieldMap, conds: seq<QueryCondition>, i: nat, key: string)
    requires i < |conds|
    ensures var (cs, r) := InitFrom(fm, conds, i + 1, key);
      |cs| == |conds| && cs[i] == conds[i]
  {
    InitShape(fm, conds, i + 1, key);
    var (cs, _) := InitFrom(fm, conds, i + 1, key);
    assert cs[i] == cs[..i + 1][i] == conds[i];
  }

  lemma PreparedAgain(fm: FieldMap, cs: seq<QueryCondition>, i: nat, c: QueryCondition)
    requires i < |cs| && c.field in fm && cs[i] == Prepared(fm, c)
    ensures cs[i].field in fm && cs[i := Prepared(fm, cs[i])] == cs
  {
    assert Prepared(fm, cs[i]) == cs[i];
  }

  /** Running initCondition on its own output changes nothing (SWAP runs it twice). */
  lemma {:induction false} InitAgain(fm: FieldMap, conds: seq<QueryCondition>, i: nat, key: string)
    requires i <= |conds|
    ensures var (cs, r) := InitFrom(fm, conds, i, key);
      InitFrom(fm, cs, i, key) == (cs, r)
    decreases |conds| - i
  {
    if i < |conds| {
      var c := conds[i];
      if c.field == "KEY" {
        if c.op == "=" && (key == "" || key == c.value) {
          InitAgain(fm, conds, i + 1, c.value);
          InitKeeps(fm, conds, i, c.value);
        }
      } else if c.field in fm {
        var next := conds[i := Prepared(fm, c)];
        if OpOf(c.op).Some? {
          InitAgain(fm, next, i + 1, key);
          InitKeeps(fm, next, i, key);
          PreparedAgain(fm, InitFrom(fm, next, i + 1, key).0, i, c);
        } else {
          PreparedAgain(fm, next, i, c);
        }
      }
    }
  }

  lemma InitIdempotent(fm: FieldMap, conds: seq<QueryCondition>)
    ensures var (cs, r) := Init(fm, conds);
      Init(fm, cs) == (cs, r)
  {
    InitAgain(fm, conds, 0, "");
  }
}
