/** INSERT, UPDATE, DELETE and DUPLICATE: the queries that change which rows there are, or the keys
    they go by. */
module Changes {
  import opened Values
  import opened Conditions
  import opened Tables
  import opened Queries

  // ---------------------------------------------------------------- INSERT

  function Inserting(operands: seq<string>, numbers: seq<Int32>, s: Contents): (Contents, Answer) {
    if operands == [] || numbers == [] || operands[0] in s.keyMap then (s, Failed)
    else (Contents(s.data + [Row(operands[0], numbers[1..])], s.keyMap[operands[0] := |s.data|]), Null)
  }

  /** numbers[i] is what strtol reads in operand i. Nothing checks how many there are. */
  method ExecuteInsert(operands: seq<string>, numbers: seq<Int32>, table: Table) returns (a: Answer)
    requires table.Valid() && |numbers| == |operands|
    modifies table`data, table`keyMap
    ensures table.Valid()
    ensures (Contents(table.data, table.keyMap), a) == Inserting(operands, numbers, old(Contents(table.data, table.keyMap)))
    ensures a == Null <==> operands != [] && operands[0] !in Keys(old(table.data))
    ensures a == Null ==> table.data == old(table.data) + [Row(operands[0], numbers[1..])]
    ensures a != Null ==> a == Failed && table.data == old(table.data)
    ensures old(table.Rectangular()) ==> (table.Rectangular() <==> a == Failed || |numbers| == |table.fields| + 1)
  {
    if operands == [] {
      return Failed;
    }
    LookUp(table.data, table.keyMap, operands[0]);
    var data: seq<Int32> := [];
    for i := 1 to |operands|
      invariant data == numbers[1..i]
    {
      data := data + [numbers[i]];
    }
    assert numbers[1..|operands|] == numbers[1..];
    var ok := table.InsertByKey(operands[0], data);
    if ok {
      assert table.data[|table.data| - 1].vals == data;
      return Null;
    }
    return Failed;
  }

  // ---------------------------------------------------------------- UPDATE of a field

  function SetField(cs: seq<QueryCondition>, f: nat, v: Int32, r: Row): (s: Row)
    ensures s.key == r.key && |s.vals| == |r.vals|
  {
    if Matches(cs, r) then SetCell(r, f, v) else r
  }

  function Updated(cs: seq<QueryCondition>, f: nat, v: Int32, rows: seq<Row>): (out: seq<Row>)
    ensures |out| == |rows| && forall i :: 0 <= i < |rows| ==> out[i] == SetField(cs, f, v, rows[i])
  {
    seq(|rows|, i requires 0 <= i < |rows| => SetField(cs, f, v, rows[i]))
  }

  function Updating(fm: FieldMap, operands: seq<string>, v: Int32, conds: seq<QueryCondition>, rows: seq<Row>): (seq<Row>, Answer) {
    if |operands| != 2 || operands[0] !in fm then (rows, Failed)
    else
      var (cs, init) := Init(fm, conds);
      if init.Threw? then (rows, Failed)
      else if !init.flag then (rows, Affected(0))
      else (Updated(cs, fm[operands[0]], v, rows), Affected(CountMatches(cs, rows)))
  }

  /** UPDATE of anything but KEY; v is what strtol reads in the second operand. */
  method ExecuteUpdateField(q: ComplexQuery, v: Int32, table: Table) returns (a: Answer)
    requires Usable(table) && (q.operands != [] ==> q.operands[0] != "KEY")
    modifies table`data, q`condition
    ensures Usable(table)
    ensures (table.data, a) == Updating(table.fieldMap, q.operands, v, old(q.condition), old(table.data))
  {
    if |q.operands| != 2 || q.operands[0] !in table.fieldMap {
      return Failed;
    }
    InitInitialised(table.fieldMap, q.condition, |table.fields|);
    var result := q.InitCondition(table.fieldMap);
    if result.Threw? {
      return Failed;
    }
    if !result.flag {
      return Affected(0);
    }
    var counter := UpdateLoop(q, table.fieldMap[q.operands[0]], v, table);
    return Affected(counter);
  }

  ghost predicate UpdatedUpTo(cs: seq<QueryCondition>, f: nat, v: Int32, rows: seq<Row>, now: seq<Row>, i: nat) {
    && |now| == |rows| && i <= |rows|
    && (forall r :: 0 <= r < i ==> now[r] == SetField(cs, f, v, rows[r]))
    && (forall r :: i <= r < |rows| ==> now[r] == rows[r])
  }

  lemma UpdateNext(cs: seq<QueryCondition>, f: nat, v: Int32, rows: seq<Row>, now: seq<Row>, i: nat)
    requires i < |rows| && UpdatedUpTo(cs, f, v, rows, now, i)
    ensures Matches(cs, now[i]) ==> UpdatedUpTo(cs, f, v, rows, now[i := SetCell(now[i], f, v)], i + 1)
    ensures !Matches(cs, now[i]) ==> UpdatedUpTo(cs, f, v, rows, now, i + 1)
  {
  }

  lemma AllUpdated(cs: seq<QueryCondition>, f: nat, v: Int32, rows: seq<Row>, now: seq<Row>)
    requires UpdatedUpTo(cs, f, v, rows, now, |rows|)
    ensures now == Updated(cs, f, v, rows) && rows[..|rows|] == rows
  {
  }

  method UpdateLoop(q: ComplexQuery, fieldId: nat, v: Int32, table: Table) returns (counter: nat)
    requires Usable(table) && fieldId < |table.fields| && Initialised(q.condition, |table.fields|)
    modifies table`data
    ensures Usable(table)
    ensures table.data == Updated(q.condition, fieldId, v, old(table.data))
    ensures counter == CountMatches(q.condition, old(table.data))
  {
    ghost var rows, cs := table.data, q.condition;
    counter := 0;
    for i := 0 to |table.data|
      invariant Usable(table)
      invariant counter == CountMatches(cs, rows[..i])
      invariant UpdatedUpTo(cs, fieldId, v, rows, table.data, i)
    {
      CountStep(cs, rows, i);
      UpdateNext(cs, fieldId, v, rows, table.data, i);
      var row := table.data[i];
      var matched := q.EvalCondition(row);
      if matched {
        table.WriteRow(i, row.(vals := row.vals[fieldId := v]));
        counter := counter + 1;
      }
    }
    AllUpdated(cs, fieldId, v, rows, table.data);
  }

  // ---------------------------------------------------------------- UPDATE of KEY

  function RenameRow(cs: seq<QueryCondition>, key: string, r: Row): Row {
    if Matches(cs, r) then r.(key := key) else r
  }

  /** Whether renaming the matching rows to `key` is harmless: none matches, or a single one does and
      no other row holds the key. */
  predicate RenameSafe(cs: seq<QueryCondition>, rows: seq<Row>, key: string) {
    || CountMatches(cs, rows) == 0
    || (CountMatches(cs, rows) == 1 && forall j :: 0 <= j < |rows| && !Matches(cs, rows[j]) ==> rows[j].key != key)
  }

  lemma {:induction false} TwoMatches(cs: seq<QueryCondition>, rows: seq<Row>)
    ensures CountMatches(cs, rows) >= 2 ==>
      exists i, j :: 0 <= i < j < |rows| && Matches(cs, rows[i]) && Matches(cs, rows[j])
    ensures CountMatches(cs, rows) <= 1 ==>
      forall i, j :: 0 <= i < j < |rows| && Matches(cs, rows[i]) ==> !Matches(cs, rows[j])
  {
    if rows != [] {
      var front := rows[..|rows| - 1];
      TwoMatches(cs, front);
      CountNone(cs, front);
      if CountMatches(cs, rows) >= 2 && Matches(cs, rows[|rows| - 1]) {
        var i :| 0 <= i < |front| && Matches(cs, front[i]);
        assert Matches(cs, rows[i]);
      } else if CountMatches(cs, rows) >= 2 {
        var i, j :| 0 <= i < j < |front| && Matches(cs, front[i]) && Matches(cs, front[j]);
        assert Matches(cs, rows[i]) && Matches(cs, rows[j]);
      }
      forall i, j | CountMatches(cs, rows) <= 1 && 0 <= i < j < |rows| && Matches(cs, rows[i]) ensures !Matches(cs, rows[j]) {
        assert rows[i] == front[i];
        if j < |front| {
          assert rows[j] == front[j];
        }
      }
    }
  }

  /** Two rows that end up under one key make an exact index impossible. */
  lemma RenameUnsafe(cs: seq<QueryCondition>, rows: seq<Row>, key: string, data: seq<Row>, keyMap: map<string, nat>)
    requires AllRenamed(cs, key, rows, data)
    requires !RenameSafe(cs, rows, key)
    ensures !Exact(data, keyMap)
  {
    TwoMatches(cs, rows);
    CountNone(cs, rows);
    if CountMatches(cs, rows) >= 2 {
      var i, j :| 0 <= i < j < |rows| && Matches(cs, rows[i]) && Matches(cs, rows[j]);
      assert data[i].key == key == data[j].key;
    } else {
      var i :| 0 <= i < |rows| && Matches(cs, rows[i]);
      var j :| 0 <= j < |rows| && !Matches(cs, rows[j]) && rows[j].key == key;
      assert data[i].key == key == data[j].key;
    }
  }

  /** The renaming loop has dealt with the first i rows: the later ones can still be found, and the
      index is exact if the renaming is safe. */
  ghost predicate RenamedUpTo(cs: seq<QueryCondition>, rows: seq<Row>, key: string, i: nat, s: Contents) {
    && |s.data| == |rows| && i <= |rows|
    && (forall r :: 0 <= r < i ==> s.data[r] == RenameRow(cs, key, rows[r]))
    && (forall r :: i <= r < |rows| ==> s.data[r] == rows[r] && rows[r].key in s.keyMap)
    && (RenameSafe(cs, rows, key) ==> Sound(s))
  }

  lemma RenameNextExact(cs: seq<QueryCondition>, rows: seq<Row>, key: string, i: nat, s: Contents)
    requires UniqueKeys(rows) && RenamedUpTo(cs, rows, key, i, s) && i < |rows| && Matches(cs, rows[i])
    requires RenameSafe(cs, rows, key)
    ensures Sound(Renamed(s, i, key))
  {
    TwoMatches(cs, rows);
    CountNone(cs, rows);
    forall j | 0 <= j < |s.data| && j != i ensures s.data[j].key != key {
      assert !Matches(cs, rows[j]);
      assert s.data[j] == rows[j];
    }
    RenameExact(s, i, key);
  }

  lemma RenameNext(cs: seq<QueryCondition>, rows: seq<Row>, key: string, i: nat, s: Contents)
    requires UniqueKeys(rows) && RenamedUpTo(cs, rows, key, i, s) && i < |rows|
    ensures Matches(cs, rows[i]) ==> RenamedUpTo(cs, rows, key, i + 1, Renamed(s, i, key))
    ensures !Matches(cs, rows[i]) ==> RenamedUpTo(cs, rows, key, i + 1, s)
  {
    if Matches(cs, rows[i]) && RenameSafe(cs, rows, key) {
      RenameNextExact(cs, rows, key, i, s);
    }
  }

  /** setKey on every matching row from row i on; a key that the index had lost would be skipped. */
  function RenamedFrom(cs: seq<QueryCondition>, key: string, s: Contents, i: nat): Contents
    decreases |s.data| - i
  {
    if i >= |s.data| then s
    else if Matches(cs, s.data[i]) && s.data[i].key in s.keyMap then RenamedFrom(cs, key, Renamed(s, i, key), i + 1)
    else RenamedFrom(cs, key, s, i + 1)
  }

  lemma {:induction false} RenamedFromEnds(cs: seq<QueryCondition>, rows: seq<Row>, key: string, i: nat, s: Contents)
    requires UniqueKeys(rows) && RenamedUpTo(cs, rows, key, i, s)
    ensures RenamedUpTo(cs, rows, key, |rows|, RenamedFrom(cs, key, s, i))
    decreases |rows| - i
  {
    if i < |rows| {
      RenameNext(cs, rows, key, i, s);
      RenamedFromEnds(cs, rows, key, i + 1, if Matches(cs, rows[i]) then Renamed(s, i, key) else s);
    }
  }

  /** The renaming loop renames every matching row and no other; the index survives it if and only if
      the renaming is safe. */
  lemma RenamingExact(cs: seq<QueryCondition>, key: string, s: Contents)
    requires Sound(s)
    ensures var t := RenamedFrom(cs, key, s, 0);
      AllRenamed(cs, key, s.data, t.data) && (Sound(t) <==> RenameSafe(cs, s.data, key))
  {
    var t := RenamedFrom(cs, key, s, 0);
    ExactKeys(s.data, s.keyMap);
    RenamedFromEnds(cs, s.data, key, 0, s);
    if !RenameSafe(cs, s.data, key) {
      RenameUnsafe(cs, s.data, key, t.data, t.keyMap);
    }
  }

  lemma RenamedWide(cs: seq<QueryCondition>, key: string, s: Contents, width: nat)
    requires Sound(s) && AllWide(s.data, width)
    ensures AllWide(RenamedFrom(cs, key, s, 0).data, width)
  {
    RenamingExact(cs, key, s);
    var now := RenamedFrom(cs, key, s, 0).data;
    forall i | 0 <= i < |now| ensures |now[i].vals| == width {
      assert now[i] == RenameRow(cs, key, s.data[i]);
    }
  }

  /** A safe renaming is one that leaves the keys distinct. Two rows and a key that is taken: */
  lemma RenameCollides(s: Contents, c: QueryCondition)
    requires s == Contents([Row("a", []), Row("b", [])], map["a" := 0, "b" := 1])
    requires c.field == "KEY" && c.op == "=" && c.value == "a"
    ensures Sound(s) && !Sound(RenamedFrom([c], "b", s, 0))
  {
    assert Holds([c][0], s.data[0]) && !Holds([c][0], s.data[1]);
    assert [c][0] == c;
    RenamingExact([c], "b", s);
  }

  method RenameLoop(q: ComplexQuery, key: string, table: Table) returns (counter: nat)
    requires Usable(table) && Initialised(q.condition, |table.fields|)
    modifies table`data, table`keyMap
    ensures Contents(table.data, table.keyMap) == RenamedFrom(q.condition, key, old(Contents(table.data, table.keyMap)), 0)
    ensures counter == CountMatches(q.condition, old(table.data))
  {
    ghost var s, rows, cs := Contents(table.data, table.keyMap), table.data, q.condition;
    counter := 0;
    for i := 0 to |table.data|
      invariant RenamedUpTo(cs, rows, key, i, Contents(table.data, table.keyMap))
      invariant RenamedFrom(cs, key, s, 0) == RenamedFrom(cs, key, Contents(table.data, table.keyMap), i)
      invariant counter == CountMatches(cs, rows[..i])
    {
      CountStep(cs, rows, i);
      RenameNext(cs, rows, key, i, Contents(table.data, table.keyMap));
      var matched := q.EvalCondition(table.data[i]);
      if matched {
        table.SetKey(i, key);
        counter := counter + 1;
      }
    }
    assert rows[..|rows|] == rows;
  }

  function RenamingKeys(fm: FieldMap, operands: seq<string>, conds: seq<QueryCondition>, s: Contents): (Contents, Answer) {
    var (cs, init) := Init(fm, conds);
    RenamingWith(operands, cs, init, s)
  }

  /** The same once initCondition has run. */
  function RenamingWith(operands: seq<string>, cs: seq<QueryCondition>, init: InitResult, s: Contents): (Contents, Answer) {
    if |operands| != 2 || init.Threw? then (s, Failed)
    else if !init.flag then (s, Affected(0))
    else (RenamedFrom(cs, operands[1], s, 0), Affected(CountMatches(cs, s.data)))
  }

  ghost predicate AllRenamed(cs: seq<QueryCondition>, key: string, rows: seq<Row>, now: seq<Row>) {
    |now| == |rows| && forall i :: 0 <= i < |rows| ==> now[i] == RenameRow(cs, key, rows[i])
  }

  predicate OfKey(operands: seq<string>) {
    operands != [] && operands[0] == "KEY"
  }

  /** Whether the query leaves the keys distinct. */
  predicate UpdateSafe(fm: FieldMap, operands: seq<string>, conds: seq<QueryCondition>, rows: seq<Row>) {
    OfKey(operands) && |operands| == 2 ==>
      var (cs, init) := Init(fm, conds);
      init.Flag? && init.flag ==> RenameSafe(cs, rows, operands[1])
  }

  /** UPDATE of KEY leaves the index exact if and only if the renaming was safe; whatever happens, no
      lookup in the loop misses. The new key is a token and so not empty. */
  method ExecuteUpdateKey(q: ComplexQuery, table: Table) returns (a: Answer)
    requires Usable(table) && q.operands != [] && q.operands[0] == "KEY"
    requires |q.operands| == 2 ==> q.operands[1] != ""
    modifies table`data, table`keyMap, q`condition
    ensures var rows := old(table.data);
      var (cs, init) := Init(table.fieldMap, old(q.condition));
      if |q.operands| != 2 || init.Threw? then a == Failed && table.data == rows && Usable(table)
      else if !init.flag then a == Affected(0) && table.data == rows && Usable(table)
      else
        && a == Affected(CountMatches(cs, rows))
        && AllRenamed(cs, q.operands[1], rows, table.data)
        && (Exact(table.data, table.keyMap) <==> RenameSafe(cs, rows, q.operands[1]))
    ensures table.Rectangular()
    ensures Exact(table.data, table.keyMap) <==> UpdateSafe(table.fieldMap, q.operands, old(q.condition), old(table.data))
    ensures (Contents(table.data, table.keyMap), a) ==
      RenamingKeys(table.fieldMap, q.operands, old(q.condition), old(Contents(table.data, table.keyMap)))
  {
    if |q.operands| != 2 {
      return Failed;
    }
    InitInitialised(table.fieldMap, q.condition, |table.fields|);
    var result := q.InitCondition(table.fieldMap);
    if result.Threw? {
      return Failed;
    }
    if !result.flag {
      return Affected(0);
    }
    RenamingExact(q.condition, q.operands[1], Contents(table.data, table.keyMap));
    RenamedWide(q.condition, q.operands[1], Contents(table.data, table.keyMap), |table.fields|);
    var counter := RenameLoop(q, q.operands[1], table);
    return Affected(counter);
  }

  /** A KEY condition leaves at most one matching row, so renaming through it is safe exactly when
      no other row holds the new key. */
  lemma RenameByKey(fm: FieldMap, conds: seq<QueryCondition>, rows: seq<Row>, key: string)
    requires UniqueKeys(rows)
    requires var r := Init(fm, conds).1; r.Flag? && r.flag && r.key != ""
    ensures var cs := Init(fm, conds).0;
      CountMatches(cs, rows) <= 1
      && (RenameSafe(cs, rows, key) <==>
            CountMatches(cs, rows) == 0 || forall j :: 0 <= j < |rows| && !Matches(cs, rows[j]) ==> rows[j].key != key)
  {
    var (cs, r) := Init(fm, conds);
    TwoMatches(cs, rows);
    forall i, j | 0 <= i < j < |rows| && Matches(cs, rows[i])
      ensures !Matches(cs, rows[j])
    {
      InitSound(fm, conds, rows[i]);
      InitSound(fm, conds, rows[j]);
    }
  }

  // ---------------------------------------------------------------- UPDATE

  /** A change of cells alone. */
  function KeepingIndex(s: Contents, r: (seq<Row>, Answer)): (Contents, Answer) {
    (Contents(r.0, s.keyMap), r.1)
  }

  function UpdatingAny(fm: FieldMap, operands: seq<string>, v: Int32, conds: seq<QueryCondition>, s: Contents): (Contents, Answer) {
    if OfKey(operands) then RenamingKeys(fm, operands, conds, s)
    else KeepingIndex(s, Updating(fm, operands, v, conds, s.data))
  }

  /** UPDATE of KEY or of a field, told apart by the first operand. */
  method ExecuteUpdate(q: ComplexQuery, v: Int32, table: Table) returns (a: Answer)
    requires Usable(table) && (|q.operands| == 2 ==> q.operands[1] != "")
    modifies table`data, table`keyMap, q`condition
    ensures (Contents(table.data, table.keyMap), a) ==
      UpdatingAny(table.fieldMap, q.operands, v, old(q.condition), old(Contents(table.data, table.keyMap)))
    ensures Exact(table.data, table.keyMap) <==> UpdateSafe(table.fieldMap, q.operands, old(q.condition), old(table.data))
    ensures table.Rectangular()
  {
    if |q.operands| > 0 && q.operands[0] == "KEY" {
      a := ExecuteUpdateKey(q, table);
    } else {
      a := ExecuteUpdateField(q, v, table);
    }
  }

  // ---------------------------------------------------------------- DELETE

  function Cut(rows: seq<Row>, i: nat): seq<Row>
    requires i < |rows|
  {
    rows[..i] + rows[i + 1..]
  }

  lemma CountCut(cs: seq<QueryCondition>, rows: seq<Row>, i: nat)
    requires i < |rows|
    ensures CountMatches(cs, rows) == CountMatches(cs, Cut(rows, i)) + (if Matches(cs, rows[i]) then 1 else 0)
    ensures multiset(rows) == multiset(Cut(rows, i)) + multiset{rows[i]}
  {
    assert rows == (rows[..i] + [rows[i]]) + rows[i + 1..];
    CountConcat(cs, rows[..i] + [rows[i]], rows[i + 1..]);
    CountSnoc(cs, rows[..i], rows[i]);
    CountConcat(cs, rows[..i], rows[i + 1..]);
  }

  /** The row that swap-delete takes out is the one that was asked for, and only that one. */
  lemma CountSwapDelete(cs: seq<QueryCondition>, rows: seq<Row>, i: nat)
    requires i < |rows|
    ensures CountMatches(cs, rows) == CountMatches(cs, SwapDelete(rows, i)) + (if Matches(cs, rows[i]) then 1 else 0)
    ensures multiset(rows) == multiset(SwapDelete(rows, i)) + multiset{rows[i]}
  {
    var n := |rows| - 1;
    var front := rows[..n];
    if i == n {
      assert SwapDelete(rows, i) == front;
      assert rows == front + [rows[n]];
      CountSnoc(cs, front, rows[n]);
    } else {
      var d := SwapDelete(rows, i);
      assert Cut(d, i) == Cut(front, i);
      assert rows == front + [rows[n]];
      CountCut(cs, d, i);
      CountCut(cs, front, i);
      CountSnoc(cs, front, rows[n]);
    }
  }

  /** No row in front of the cursor matches, and what has gone did match. */
  ghost predicate DeletedUpTo(cs: seq<QueryCondition>, rows: seq<Row>, now: seq<Row>, i: nat, counter: nat) {
    && i <= |now|
    && (forall r :: 0 <= r < i ==> !Matches(cs, now[r]))
    && counter + CountMatches(cs, now) == CountMatches(cs, rows)
    && multiset(now) <= multiset(rows)
    && (forall r :: r !in multiset(rows) - multiset(now) || Matches(cs, r))
  }

  lemma TakenOut(cs: seq<QueryCondition>, all: multiset<Row>, now: multiset<Row>, less: multiset<Row>, out: Row)
    requires now <= all && now == less + multiset{out} && Matches(cs, out)
    requires forall r :: r !in all - now || Matches(cs, r)
    ensures less <= all && forall r :: r !in all - less || Matches(cs, r)
  {
    assert all - less == all - now + multiset{out};
  }

  lemma FrontKept(now: seq<Row>, i: nat)
    requires i < |now|
    ensures forall r :: 0 <= r < i ==> SwapDelete(now, i)[r] == now[r]
  {
    SwapDeleteRows(now, i);
  }

  lemma DeleteNext(cs: seq<QueryCondition>, rows: seq<Row>, now: seq<Row>, i: nat, counter: nat)
    requires DeletedUpTo(cs, rows, now, i, counter) && i < |now|
    ensures Matches(cs, now[i]) ==> DeletedUpTo(cs, rows, SwapDelete(now, i), i, counter + 1)
    ensures !Matches(cs, now[i]) ==> DeletedUpTo(cs, rows, now, i + 1, counter)
  {
    if Matches(cs, now[i]) {
      CountSwapDelete(cs, now, i);
      FrontKept(now, i);
      TakenOut(cs, multiset(rows), multiset(now), multiset(SwapDelete(now, i)), now[i]);
    }
  }

  /** What DELETE must leave: every row that does not match as often as before, no other. */
  ghost predicate Survivors(cs: seq<QueryCondition>, rows: seq<Row>, now: seq<Row>) {
    forall r :: multiset(now)[r] == if Matches(cs, r) then 0 else multiset(rows)[r]
  }

  lemma DeleteEnds(cs: seq<QueryCondition>, rows: seq<Row>, now: seq<Row>, counter: nat)
    requires DeletedUpTo(cs, rows, now, |now|, counter)
    ensures Survivors(cs, rows, now) && counter == CountMatches(cs, rows)
  {
    CountNone(cs, now);
    forall r ensures multiset(now)[r] == if Matches(cs, r) then 0 else multiset(rows)[r] {
      if r in now {
        var i :| 0 <= i < |now| && now[i] == r;
      }
      assert r !in multiset(rows) - multiset(now) || Matches(cs, r);
    }
  }

  ghost predicate Deleted(cs: seq<QueryCondition>, rows: seq<Row>, s: Contents, it: nat, counter: nat) {
    Sound(s) && DeletedUpTo(cs, rows, s.data, it, counter)
  }

  lemma DeletedNext(cs: seq<QueryCondition>, rows: seq<Row>, s: Contents, it: nat, counter: nat)
    requires Deleted(cs, rows, s, it, counter) && it < |s.data|
    ensures Matches(cs, s.data[it]) ==> Deleted(cs, rows, Removed(s, it), it, counter + 1)
    ensures !Matches(cs, s.data[it]) ==> Deleted(cs, rows, s, it + 1, counter)
  {
    DeleteNext(cs, rows, s.data, it, counter);
    DeleteExact(s, it);
  }

  /** The deleting loop from the cursor on. */
  ghost function DeletedFrom(cs: seq<QueryCondition>, s: Contents, it: nat): Contents
    decreases |s.data| - it
  {
    if it >= |s.data| then s
    else if Matches(cs, s.data[it]) then DeletedFrom(cs, Removed(s, it), it)
    else DeletedFrom(cs, s, it + 1)
  }

  /** One turn takes a matching row out, and leaves the rest of the loop to do what it would. */
  lemma DeletingTurn(cs: seq<QueryCondition>, s: Contents, it: nat)
    requires it < |s.data|
    ensures Matches(cs, s.data[it]) ==>
      && DeletedFrom(cs, s, it) == DeletedFrom(cs, Removed(s, it), it)
      && CountMatches(cs, s.data) == CountMatches(cs, Removed(s, it).data) + 1
    ensures !Matches(cs, s.data[it]) ==> DeletedFrom(cs, s, it) == DeletedFrom(cs, s, it + 1)
  {
    CountSwapDelete(cs, s.data, it);
  }

  /** The index is exact and the rows that do not match are left. */
  ghost predicate Pruned(cs: seq<QueryCondition>, rows: seq<Row>, t: Contents) {
    Sound(t) && Survivors(cs, rows, t.data)
  }

  lemma AllPruned(cs: seq<QueryCondition>, rows: seq<Row>, s: Contents, counter: nat)
    requires Deleted(cs, rows, s, |s.data|, counter)
    ensures Pruned(cs, rows, s)
  {
    DeleteEnds(cs, rows, s.data, counter);
  }

  lemma {:induction false} DeletedFromEnds(cs: seq<QueryCondition>, rows: seq<Row>, s: Contents, it: nat, counter: nat)
    requires it <= |s.data| && Deleted(cs, rows, s, it, counter)
    ensures Pruned(cs, rows, DeletedFrom(cs, s, it))
    decreases |s.data| - it
  {
    if it == |s.data| {
      AllPruned(cs, rows, s, counter);
    } else {
      DeletingTurn(cs, s, it);
      DeletedNext(cs, rows, s, it, counter);
      var hit := Matches(cs, s.data[it]);
      DeletedFromEnds(cs, rows, if hit then Removed(s, it) else s, if hit then it else it + 1, counter + if hit then 1 else 0);
    }
  }

  /** The deleting loop keeps the index exact and leaves exactly the rows that do not match. */
  lemma DeletedExact(cs: seq<QueryCondition>, s: Contents)
    requires Sound(s)
    ensures Sound(DeletedFrom(cs, s, 0)) && Survivors(cs, s.data, DeletedFrom(cs, s, 0).data)
  {
    DeletedFromEnds(cs, s.data, s, 0, 0);
  }

  lemma NoneLeft(cs: seq<QueryCondition>, rows: seq<Row>, now: seq<Row>)
    requires Survivors(cs, rows, now)
    ensures CountMatches(cs, now) == 0
  {
    CountNone(cs, now);
    forall i | 0 <= i < |now| ensures !Matches(cs, now[i]) {
      assert multiset(now)[now[i]] > 0;
    }
  }

  /** table.deleteDatum(it->key()) */
  method DeleteHere(table: Table, it: nat)
    requires Usable(table) && it < |table.data|
    modifies table`data, table`keyMap
    ensures Usable(table)
    ensures Contents(table.data, table.keyMap) == Removed(old(Contents(table.data, table.keyMap)), it)
  {
    ExactKeys(table.data, table.keyMap);
    FindUnique(table.data, it);
    table.DeleteDatum(table.data[it].key);
  }

  /** The loop that deletes while it iterates: after a deletion the cursor stays, so that the row
      moved into the gap is examined too. The index is exact after every deletion. */
  method DeleteLoop(q: ComplexQuery, table: Table) returns (counter: nat)
    requires Usable(table) && Initialised(q.condition, |table.fields|)
    modifies table`data, table`keyMap
    ensures Usable(table)
    ensures Contents(table.data, table.keyMap) == DeletedFrom(q.condition, old(Contents(table.data, table.keyMap)), 0)
    ensures Survivors(q.condition, old(table.data), table.data)
    ensures counter == CountMatches(q.condition, old(table.data))
  {
    ghost var s, cs := Contents(table.data, table.keyMap), q.condition;
    counter := 0;
    var it: nat := 0;
    while it < |table.data|
      invariant Usable(table) && it <= |table.data|
      invariant DeletedFrom(cs, s, 0) == DeletedFrom(cs, Contents(table.data, table.keyMap), it)
      invariant counter + CountMatches(cs, table.data) == CountMatches(cs, s.data)
      decreases |table.data| - it
    {
      DeletingTurn(cs, Contents(table.data, table.keyMap), it);
      var matched := q.EvalCondition(table.data[it]);
      if matched {
        DeleteHere(table, it);
        counter := counter + 1;
      } else {
        it := it + 1;
      }
    }
    DeletedExact(cs, s);
    NoneLeft(cs, s.data, table.data);
  }

  /** What DELETE does to the table and what it answers. */
  ghost function Deleting(fm: FieldMap, operands: seq<string>, conds: seq<QueryCondition>, s: Contents): (Contents, Answer) {
    var (cs, init) := Init(fm, conds);
    DeletingWith(operands, cs, init, s)
  }

  /** The same once initCondition has run. */
  ghost function DeletingWith(operands: seq<string>, cs: seq<QueryCondition>, init: InitResult, s: Contents): (Contents, Answer) {
    if operands != [] || init.Threw? then (s, Failed)
    else if !init.flag then (s, Affected(0))
    else if cs == [] then (Contents([], map[]), Affected(|s.data|))
    else (DeletedFrom(cs, s, 0), Affected(CountMatches(cs, s.data)))
  }

  lemma {:induction false} CountAll(rows: seq<Row>)
    ensures CountMatches([], rows) == |rows|
  {
    if rows != [] {
      CountAll(rows[..|rows| - 1]);
    }
  }

  method ExecuteDelete(q: ComplexQuery, table: Table) returns (a: Answer)
    requires Usable(table)
    modifies table`data, table`keyMap, q`condition
    ensures Usable(table)
    ensures (Contents(table.data, table.keyMap), a) ==
      Deleting(table.fieldMap, q.operands, old(q.condition), old(Contents(table.data, table.keyMap)))
  {
    if |q.operands| != 0 {
      return Failed;
    }
    InitInitialised(table.fieldMap, q.condition, |table.fields|);
    var result := q.InitCondition(table.fieldMap);
    if result.Threw? {
      return Failed;
    }
    var counter := 0;
    if result.flag {
      if q.condition == [] {
        counter := |table.data|;
        var cleared := table.Clear();
      } else {
        counter := DeleteLoop(q, table);
      }
    }
    return Affected(counter);
  }

  // ---------------------------------------------------------------- DUPLICATE

  /** The copies in the order of their originals. */
  ghost function Copies(rows: seq<Row>, keys: seq<string>): (out: seq<Row>)
    requires UniqueKeys(rows) && forall k :: 0 <= k < |keys| ==> keys[k] in Keys(rows)
    ensures |out| == |keys|
    ensures forall k :: 0 <= k < |keys| ==> out[k] == Row(keys[k] + COPY_SUFFIX, AsMap(rows)[keys[k]])
  {
    seq(|keys|, k requires 0 <= k < |keys| => Row(keys[k] + COPY_SUFFIX, AsMap(rows)[keys[k]]))
  }

  lemma CopyInjective(a: string, b: string)
    requires a + COPY_SUFFIX == b + COPY_SUFFIX
    ensures a == b
  {
    assert |a| == |b|;
    assert a == (a + COPY_SUFFIX)[..|a|] == (b + COPY_SUFFIX)[..|b|] == b;
  }

  /** Keys that DUPLICATE may collect: of rows of the table, each once, no copy taken. */
  ghost predicate Copyable(rows: seq<Row>, keys: seq<string>) {
    && (forall k :: 0 <= k < |keys| ==> keys[k] in Keys(rows) && CanCopy(Keys(rows), keys[k]))
    && (forall k, l :: 0 <= k < l < |keys| ==> keys[k] != keys[l])
  }

  lemma {:induction false} CopyKeysFrom(cs: seq<QueryCondition>, taken: set<string>, rows: seq<Row>, key: string)
    ensures key in CopyKeys(cs, taken, rows) <==>
      CanCopy(taken, key) && exists i :: 0 <= i < |rows| && rows[i].key == key && Matches(cs, rows[i])
  {
    if rows != [] {
      var n := |rows| - 1;
      CopyKeysFrom(cs, taken, rows[..n], key);
      if key in CopyKeys(cs, taken, rows[..n]) {
        var i :| 0 <= i < n && rows[..n][i].key == key && Matches(cs, rows[..n][i]);
        assert rows[i].key == key && Matches(cs, rows[i]);
      }
      if i :| 0 <= i < |rows| && rows[i].key == key && Matches(cs, rows[i]) {
        assert i == n || rows[..n][i] == rows[i];
      }
    }
  }

  lemma {:induction false} CopyKeysDistinct(cs: seq<QueryCondition>, taken: set<string>, rows: seq<Row>)
    requires UniqueKeys(rows)
    ensures var keys := CopyKeys(cs, taken, rows);
      forall k, l :: 0 <= k < l < |keys| ==> keys[k] != keys[l]
  {
    if rows != [] {
      var n := |rows| - 1;
      CopyKeysDistinct(cs, taken, rows[..n]);
      CopyKeysFrom(cs, taken, rows[..n], rows[n].key);
    }
  }

  lemma CopyKeysCopyable(cs: seq<QueryCondition>, rows: seq<Row>)
    requires UniqueKeys(rows)
    ensures Copyable(rows, CopyKeys(cs, Keys(rows), rows))
  {
    var keys := CopyKeys(cs, Keys(rows), rows);
    CopyKeysDistinct(cs, Keys(rows), rows);
    forall k | 0 <= k < |keys| ensures keys[k] in Keys(rows) && CanCopy(Keys(rows), keys[k]) {
      CopyKeysFrom(cs, Keys(rows), rows, keys[k]);
    }
  }

  /** duplicateByKey; None when the original is not there or the copy already is. */
  function InsertCopy(s: Contents, key: string): Option<Contents> {
    var copy := key + COPY_SUFFIX;
    if key !in s.keyMap || s.keyMap[key] >= |s.data| || copy in s.keyMap then None
    else Some(Contents(s.data + [Row(copy, s.data[s.keyMap[key]].vals)], s.keyMap[copy := |s.data|]))
  }

  /** The inserting loop, with whatever keys. */
  function CopyAll(s: Contents, keys: seq<string>): Option<Contents> {
    if keys == [] then Some(s)
    else
      var m := CopyAll(s, keys[..|keys| - 1]);
      if m.None? then None else InsertCopy(m.value, keys[|keys| - 1])
  }

  ghost function Duplicating(fm: FieldMap, operands: seq<string>, conds: seq<QueryCondition>, s: Contents): (Contents, Answer) {
    var (cs, init) := Init(fm, conds);
    DuplicatingWith(operands, cs, init, s)
  }

  /** The same once initCondition has run. */
  ghost function DuplicatingWith(operands: seq<string>, cs: seq<QueryCondition>, init: InitResult, s: Contents): (Contents, Answer) {
    if operands != [] || init.Threw? then (s, Failed)
    else if !init.flag then (s, Affected(0))
    else
      var keys := CopyKeys(cs, Keys(s.data), s.data);
      var t := CopyAll(s, keys);
      if t.None? then (s, Failed) else (t.value, Affected(|keys|))
  }

  /** The collecting loop; it reads the table and changes nothing. */
  method CollectKeys(q: ComplexQuery, table: Table) returns (keys: seq<string>, counter: nat)
    requires Usable(table) && Initialised(q.condition, |table.fields|)
    ensures keys == CopyKeys(q.condition, Keys(table.data), table.data) && counter == |keys|
  {
    keys, counter := [], 0;
    for i := 0 to |table.data|
      invariant keys == CopyKeys(q.condition, Keys(table.data), table.data[..i]) && counter == |keys|
    {
      CopyKeysNext(q.condition, Keys(table.data), table.data, i);
      var key := table.data[i].key;
      var matched := q.EvalCondition(table.data[i]);
      var fits := table.EvalDuplicate(key);
      if matched && fits {
        keys := keys + [key];
        counter := counter + 1;
      }
    }
    assert table.data[..|table.data|] == table.data;
  }

  /** With the first k copies in place the next key is still there and its copy still free. */
  lemma CopyFits(rows: seq<Row>, keys: seq<string>, k: nat)
    requires UniqueKeys(rows) && Copyable(rows, keys) && k < |keys|
    ensures var now := rows + Copies(rows, keys[..k]);
      keys[k] in Keys(now) && keys[k] + COPY_SUFFIX !in Keys(now)
  {
    var done := Copies(rows, keys[..k]);
    var now := rows + done;
    var i :| 0 <= i < |rows| && rows[i].key == keys[k];
    assert now[i].key == keys[k];
    forall p | 0 <= p < |now| ensures now[p].key != keys[k] + COPY_SUFFIX {
      if p < |rows| {
        assert rows[p].key in Keys(rows);
      } else if done[p - |rows|].key == keys[k] + COPY_SUFFIX {
        CopyInjective(keys[p - |rows|], keys[k]);
        assert false;
      }
    }
  }

  lemma CopiesNext(rows: seq<Row>, keys: seq<string>, k: nat)
    requires UniqueKeys(rows) && Copyable(rows, keys) && k < |keys|
    ensures Copies(rows, keys[..k + 1]) == Copies(rows, keys[..k]) + [Row(keys[k] + COPY_SUFFIX, AsMap(rows)[keys[k]])]
  {
  }

  lemma SameValue(rows: seq<Row>, more: seq<Row>, key: string)
    requires UniqueKeys(rows) && UniqueKeys(rows + more) && key in Keys(rows) && key in Keys(rows + more)
    ensures AsMap(rows + more)[key] == AsMap(rows)[key]
  {
    var i :| 0 <= i < |rows| && rows[i].key == key;
    assert (rows + more)[i] == rows[i];
  }

  /** What one more duplicateByKey appends is the next copy. */
  lemma NextCopy(rows: seq<Row>, keys: seq<string>, k: nat, now: seq<Row>)
    requires UniqueKeys(rows) && Copyable(rows, keys) && k < |keys|
    requires now == rows + Copies(rows, keys[..k]) && UniqueKeys(now)
    ensures keys[k] in Keys(now) && keys[k] + COPY_SUFFIX !in Keys(now)
    ensures now + [Row(keys[k] + COPY_SUFFIX, AsMap(now)[keys[k]])] == rows + Copies(rows, keys[..k + 1])
  {
    CopyFits(rows, keys, k);
    CopiesNext(rows, keys, k);
    SameValue(rows, Copies(rows, keys[..k]), keys[k]);
  }

  lemma InsertCopyExact(s: Contents, key: string)
    requires Sound(s) && key in Keys(s.data) && key + COPY_SUFFIX !in Keys(s.data)
    ensures UniqueKeys(s.data)
    ensures var t := InsertCopy(s, key);
      t.Some? && Sound(t.value) && t.value.data == s.data + [Row(key + COPY_SUFFIX, AsMap(s.data)[key])]
  {
    ExactKeys(s.data, s.keyMap);
    InsertExact(s, Row(key + COPY_SUFFIX, AsMap(s.data)[key]));
  }

  /** t is the table with these copies in. */
  ghost predicate HasCopies(s: Contents, keys: seq<string>, t: Option<Contents>)
    requires UniqueKeys(s.data) && Copyable(s.data, keys)
  {
    t.Some? && Sound(t.value) && t.value.data == s.data + Copies(s.data, keys)
  }

  lemma CopyableFront(rows: seq<Row>, keys: seq<string>)
    requires Copyable(rows, keys) && keys != []
    ensures Copyable(rows, keys[..|keys| - 1])
  {
  }

  /** With such keys the inserting loop meets no conflict and no missing row, and keeps the index. */
  lemma {:induction false} CopyAllExact(s: Contents, keys: seq<string>)
    requires Sound(s) && UniqueKeys(s.data) && Copyable(s.data, keys)
    ensures HasCopies(s, keys, CopyAll(s, keys))
  {
    if keys == [] {
      NoCopies(s);
    } else {
      CopyableFront(s.data, keys);
      CopyAllExact(s, keys[..|keys| - 1]);
      CopyOneMore(s, keys, CopyAll(s, keys[..|keys| - 1]));
    }
  }

  lemma NoCopies(s: Contents)
    requires Sound(s) && UniqueKeys(s.data)
    ensures HasCopies(s, [], CopyAll(s, []))
  {
    assert s.data + Copies(s.data, []) == s.data;
  }

  lemma CopyOneMore(s: Contents, keys: seq<string>, m: Option<Contents>)
    requires UniqueKeys(s.data) && Copyable(s.data, keys) && keys != [] && Copyable(s.data, keys[..|keys| - 1])
    requires HasCopies(s, keys[..|keys| - 1], m)
    ensures HasCopies(s, keys, InsertCopy(m.value, keys[|keys| - 1]))
  {
    var k := |keys| - 1;
    ExactKeys(m.value.data, m.value.keyMap);
    NextCopy(s.data, keys, k, m.value.data);
    assert keys[..k + 1] == keys;
    InsertCopyExact(m.value, keys[k]);
  }

  lemma DuplicateExact(cs: seq<QueryCondition>, s: Contents)
    requires Sound(s)
    ensures UniqueKeys(s.data)
    ensures var keys := CopyKeys(cs, Keys(s.data), s.data);
      && Copyable(s.data, keys)
      && var t := CopyAll(s, keys);
         t.Some? && Sound(t.value) && t.value.data == s.data + Copies(s.data, keys)
  {
    var keys := CopyKeys(cs, Keys(s.data), s.data);
    ExactKeys(s.data, s.keyMap);
    CopyKeysCopyable(cs, s.data);
    CopyAllExact(s, keys);
  }

  /** The inserting loop never meets a key that exists: the old rows stay in front, followed by one
      copy per key in the order of the keys. */
  method InsertCopies(keys: seq<string>, table: Table)
    requires Usable(table) && Copyable(table.data, keys)
    modifies table`data, table`keyMap
    ensures Usable(table)
    ensures table.data == old(table.data) + Copies(old(table.data), keys)
    ensures CopyAll(old(Contents(table.data, table.keyMap)), keys) == Some(Contents(table.data, table.keyMap))
  {
    ghost var s, rows := Contents(table.data, table.keyMap), table.data;
    for k := 0 to |keys|
      invariant Usable(table)
      invariant table.data == rows + Copies(rows, keys[..k])
    {
      NextCopy(rows, keys, k, table.data);
      var ok := table.DuplicateByKey(keys[k]);
    }
    assert keys[..|keys|] == keys;
    CopyAllExact(s, keys);
    ExactUnique(table.data, table.keyMap, CopyAll(s, keys).value.keyMap);
  }

  method ExecuteDuplicate(q: ComplexQuery, table: Table) returns (a: Answer)
    requires Usable(table)
    modifies table`data, table`keyMap, q`condition
    ensures Usable(table)
    ensures (Contents(table.data, table.keyMap), a) ==
      Duplicating(table.fieldMap, q.operands, old(q.condition), old(Contents(table.data, table.keyMap)))
  {
    if |q.operands| != 0 {
      return Failed;
    }
    InitInitialised(table.fieldMap, q.condition, |table.fields|);
    var result := q.InitCondition(table.fieldMap);
    if result.Threw? {
      return Failed;
    }
    if !result.flag {
      return Affected(0);
    }
    var keys, counter := CollectKeys(q, table);
    CopyKeysCopyable(q.condition, table.data);
    InsertCopies(keys, table);
    return Affected(counter);
  }
}
