/** What each query promises, said on rows, cells and the conditions as written, and without any of the
    functions that compute it. */
module Laws {
  import opened Values
  import opened Conditions
  import opened Tables
  import opened Queries
  import opened Rewrites
  import opened Aggregates
  import opened Selects
  import opened Changes
  import opened Commands
  import opened Paths
  import opened Store

  // ---------------------------------------------------------------- INSERT and UPDATE

  ghost predicate InsertPromise(operands: seq<string>, numbers: seq<Int32>, s: Contents, t: Contents, a: Answer) {
    if operands == [] || numbers == [] || exists i :: 0 <= i < |s.data| && s.data[i].key == operands[0] then t == s && a == Failed
    else
      && a == Null && |t.data| == |s.data| + 1 && t.data[..|s.data|] == s.data
      && t.data[|s.data|].key == operands[0] && t.data[|s.data|].vals == numbers[1..]
  }

  lemma InsertingKept(operands: seq<string>, numbers: seq<Int32>, s: Contents)
    requires Sound(s)
    ensures var (t, a) := Inserting(operands, numbers, s);
      InsertPromise(operands, numbers, s, t, a)
  {
    if operands != [] {
      LookUp(s.data, s.keyMap, operands[0]);
    }
  }

  ghost predicate UpdatePromise(fm: FieldMap, operands: seq<string>, v: Int32, conds: seq<QueryCondition>, s: Contents, t: Contents, a: Answer) {
    if |operands| != 2 || (operands[0] != "KEY" && operands[0] !in fm) || Refused(fm, conds, 0) then t == s && a == Failed
    else
      && |t.data| == |s.data| && a == Affected(|PickedRows(fm, conds, s.data)|)
      && forall i :: 0 <= i < |s.data| ==>
           if !AllMean(fm, conds, s.data[i]) then t.data[i] == s.data[i]
           else if operands[0] == "KEY" then t.data[i].key == operands[1] && t.data[i].vals == s.data[i].vals
           else
             && fm[operands[0]] < |s.data[i].vals|
             && OthersAsBefore(s.data[i], t.data[i], fm[operands[0]], fm[operands[0]])
             && t.data[i].vals[fm[operands[0]]] == v
  }

  lemma UpdatingKept(fm: FieldMap, operands: seq<string>, v: Int32, conds: seq<QueryCondition>, s: Contents)
    requires KeysNamed(conds) && Sound(s) && "KEY" !in fm && forall i :: 0 <= i < |s.data| ==> Within(fm, |s.data[i].vals|)
    ensures var (t, a) := UpdatingAny(fm, operands, v, conds, s);
      UpdatePromise(fm, operands, v, conds, s, t, a)
  {
    WherePicks(fm, conds, s.data);
    if OfKey(operands) {
      RenamingKept(fm, operands, v, conds, s);
    } else if |operands| == 2 && operands[0] in fm && Init(fm, conds).1.Flag? && Init(fm, conds).1.flag {
      FieldKept(Init(fm, conds).0, fm[operands[0]], v, s.data);
    }
  }

  lemma FieldKept(cs: seq<QueryCondition>, f: nat, v: Int32, rows: seq<Row>)
    requires forall i :: 0 <= i < |rows| ==> f < |rows[i].vals|
    ensures forall i :: 0 <= i < |rows| && Matches(cs, rows[i]) ==>
      OthersAsBefore(rows[i], Updated(cs, f, v, rows)[i], f, f) && Updated(cs, f, v, rows)[i].vals[f] == v
    ensures forall i :: 0 <= i < |rows| && !Matches(cs, rows[i]) ==> Updated(cs, f, v, rows)[i] == rows[i]
  {
  }

  lemma RenamingKept(fm: FieldMap, operands: seq<string>, v: Int32, conds: seq<QueryCondition>, s: Contents)
    requires KeysNamed(conds) && Sound(s) && OfKey(operands)
    ensures var (t, a) := RenamingKeys(fm, operands, conds, s);
      UpdatePromise(fm, operands, v, conds, s, t, a)
  {
    WherePicks(fm, conds, s.data);
    var (cs, init) := Init(fm, conds);
    if |operands| == 2 && init.Flag? && init.flag {
      RenamingExact(cs, operands[1], s);
    }
  }

  // ---------------------------------------------------------------- DELETE and DUPLICATE

  ghost predicate DeletePromise(fm: FieldMap, operands: seq<string>, conds: seq<QueryCondition>, s: Contents, t: Contents, a: Answer) {
    if operands != [] || Refused(fm, conds, 0) then t == s && a == Failed
    else
      && a == Affected(|PickedRows(fm, conds, s.data)|)
      && forall r :: multiset(t.data)[r] == if AllMean(fm, conds, r) then 0 else multiset(s.data)[r]
  }

  lemma DeletingKept(fm: FieldMap, operands: seq<string>, conds: seq<QueryCondition>, s: Contents)
    requires KeysNamed(conds) && Sound(s)
    ensures var (t, a) := Deleting(fm, operands, conds, s);
      DeletePromise(fm, operands, conds, s, t, a)
  {
    WherePicks(fm, conds, s.data);
    var (cs, init) := Init(fm, conds);
    var (t, a) := Deleting(fm, operands, conds, s);
    if operands == [] && init.Flag? {
      DeletedExact(cs, s);
      CountAll(s.data);
      forall r ensures multiset(t.data)[r] == if AllMean(fm, conds, r) then 0 else multiset(s.data)[r] {
        WhereMeans(fm, conds, r);
        NotThere(fm, conds, s.data, r, init.flag);
      }
    }
  }

  /** With contradictory conditions there is nothing that could have been deleted. */
  lemma NotThere(fm: FieldMap, conds: seq<QueryCondition>, rows: seq<Row>, r: Row, flag: bool)
    requires !flag ==> !AllMean(fm, conds, r)
    ensures !flag ==> multiset(rows)[r] == if AllMean(fm, conds, r) then 0 else multiset(rows)[r]
  {
  }

  predicate NoCopyYet(rows: seq<Row>, key: string) {
    forall k :: 0 <= k < |rows| ==> rows[k].key != key + "_copy"
  }

  /** idx lists, in order, the rows that satisfy the conditions and have no copy yet. */
  ghost predicate Originals(fm: FieldMap, conds: seq<QueryCondition>, rows: seq<Row>, idx: seq<nat>) {
    && (forall j, k :: 0 <= j < k < |idx| ==> idx[j] < idx[k])
    && forall i: nat :: i in idx <==> i < |rows| && AllMean(fm, conds, rows[i]) && NoCopyYet(rows, rows[i].key)
  }

  /** The rows are followed by copies of those at idx. */
  ghost predicate Appended(rows: seq<Row>, now: seq<Row>, idx: seq<nat>) {
    && |now| == |rows| + |idx| && now[..|rows|] == rows
    && forall j :: 0 <= j < |idx| ==> idx[j] < |rows| && now[|rows| + j] == Row(rows[idx[j]].key + "_copy", rows[idx[j]].vals)
  }

  ghost predicate DuplicatePromise(fm: FieldMap, operands: seq<string>, conds: seq<QueryCondition>, s: Contents, t: Contents, a: Answer) {
    if operands != [] || Refused(fm, conds, 0) then t == s && a == Failed
    else exists idx :: Originals(fm, conds, s.data, idx) && a == Affected(|idx|) && Appended(s.data, t.data, idx)
  }

  /** `keys` are the keys of the rows at idx, which are those that DUPLICATE collects. */
  ghost predicate Lists(cs: seq<QueryCondition>, taken: set<string>, rows: seq<Row>, keys: seq<string>, idx: seq<nat>) {
    && |idx| == |keys|
    && (forall j, k :: 0 <= j < k < |idx| ==> idx[j] < idx[k])
    && (forall j :: 0 <= j < |idx| ==> idx[j] < |rows| && keys[j] == rows[idx[j]].key)
    && forall i: nat :: i in idx <==> Collected(cs, taken, rows, i)
  }

  ghost predicate Collected(cs: seq<QueryCondition>, taken: set<string>, rows: seq<Row>, i: nat) {
    i < |rows| && Matches(cs, rows[i]) && CanCopy(taken, rows[i].key)
  }

  lemma {:induction false} KeysListed(cs: seq<QueryCondition>, taken: set<string>, rows: seq<Row>) returns (idx: seq<nat>)
    ensures Lists(cs, taken, rows, CopyKeys(cs, taken, rows), idx)
  {
    if rows == [] {
      return [];
    }
    var n := |rows| - 1;
    var front := KeysListed(cs, taken, rows[..n]);
    if Collected(cs, taken, rows, n) {
      ListsMore(cs, taken, rows, CopyKeys(cs, taken, rows[..n]), front);
      idx := front + [n];
    } else {
      ListsSame(cs, taken, rows, CopyKeys(cs, taken, rows[..n]), front);
      idx := front;
      assert CopyKeys(cs, taken, rows[..n]) + [] == CopyKeys(cs, taken, rows[..n]);
    }
  }

  lemma ListsMore(cs: seq<QueryCondition>, taken: set<string>, rows: seq<Row>, keys: seq<string>, front: seq<nat>)
    requires rows != [] && Lists(cs, taken, rows[..|rows| - 1], keys, front) && Collected(cs, taken, rows, |rows| - 1)
    ensures Lists(cs, taken, rows, keys + [rows[|rows| - 1].key], front + [|rows| - 1])
  {
    var n := |rows| - 1;
    forall i: nat ensures i in front + [n] <==> Collected(cs, taken, rows, i) {
      CollectedBefore(cs, taken, rows, i);
      assert i in front + [n] <==> i in front || i == n;
    }
    forall j | 0 <= j < |front| ensures front[j] < n {
    }
  }

  lemma ListsSame(cs: seq<QueryCondition>, taken: set<string>, rows: seq<Row>, keys: seq<string>, front: seq<nat>)
    requires rows != [] && Lists(cs, taken, rows[..|rows| - 1], keys, front) && !Collected(cs, taken, rows, |rows| - 1)
    ensures Lists(cs, taken, rows, keys, front)
  {
    forall i: nat ensures i in front <==> Collected(cs, taken, rows, i) {
      CollectedBefore(cs, taken, rows, i);
    }
  }

  lemma CollectedBefore(cs: seq<QueryCondition>, taken: set<string>, rows: seq<Row>, i: nat)
    requires rows != []
    ensures Collected(cs, taken, rows, i) <==> Collected(cs, taken, rows[..|rows| - 1], i) || (i == |rows| - 1 && Collected(cs, taken, rows, i))
  {
  }

  lemma DuplicatingKept(fm: FieldMap, operands: seq<string>, conds: seq<QueryCondition>, s: Contents)
    requires KeysNamed(conds) && Sound(s)
    ensures var (t, a) := Duplicating(fm, operands, conds, s);
      DuplicatePromise(fm, operands, conds, s, t, a)
  {
    WherePicks(fm, conds, s.data);
    var (cs, init) := Init(fm, conds);
    if operands == [] && init.Flag? {
      if init.flag {
        assert SamePick(fm, conds, cs, s.data);
        CopiesKept(fm, conds, cs, s);
      } else {
        assert Originals(fm, conds, s.data, []);
        assert Appended(s.data, s.data, []);
      }
    }
  }

  lemma CopiesKept(fm: FieldMap, conds: seq<QueryCondition>, cs: seq<QueryCondition>, s: Contents)
    requires Sound(s) && SamePick(fm, conds, cs, s.data)
    ensures var keys := CopyKeys(cs, Keys(s.data), s.data);
      && CopyAll(s, keys).Some?
      && exists idx :: Originals(fm, conds, s.data, idx) && |keys| == |idx| && Appended(s.data, CopyAll(s, keys).value.data, idx)
  {
    var keys := CopyKeys(cs, Keys(s.data), s.data);
    var idx := KeysListed(cs, Keys(s.data), s.data);
    DuplicateExact(cs, s);
    ListedOriginals(fm, conds, cs, s.data, keys, idx);
    CopiesListed(cs, s.data, keys, idx);
  }

  lemma ListedOriginals(fm: FieldMap, conds: seq<QueryCondition>, cs: seq<QueryCondition>, rows: seq<Row>, keys: seq<string>, idx: seq<nat>)
    requires SamePick(fm, conds, cs, rows) && Lists(cs, Keys(rows), rows, keys, idx)
    ensures Originals(fm, conds, rows, idx)
  {
    forall i: nat ensures i in idx <==> i < |rows| && AllMean(fm, conds, rows[i]) && NoCopyYet(rows, rows[i].key) {
      assert i in idx <==> Collected(cs, Keys(rows), rows, i);
      if i < |rows| {
        CopyTaken(rows, rows[i].key);
      }
    }
  }

  lemma CopyTaken(rows: seq<Row>, key: string)
    ensures CanCopy(Keys(rows), key) <==> NoCopyYet(rows, key)
  {
  }

  lemma CopiesListed(cs: seq<QueryCondition>, rows: seq<Row>, keys: seq<string>, idx: seq<nat>)
    requires UniqueKeys(rows) && Lists(cs, Keys(rows), rows, keys, idx) && Copyable(rows, keys)
    ensures Appended(rows, rows + Copies(rows, keys), idx)
  {
    var all := rows + Copies(rows, keys);
    assert all[..|rows|] == rows;
    forall j | 0 <= j < |idx| ensures all[|rows| + j] == Row(rows[idx[j]].key + "_copy", rows[idx[j]].vals) {
      assert all[|rows| + j] == Copies(rows, keys)[j];
    }
  }

  // ---------------------------------------------------------------- every query, on either path

  ghost predicate Obeys(fm: FieldMap, c: Command, s: Contents, t: Contents, a: Answer) {
    match c
    case Insert(operands, numbers) => InsertPromise(operands, numbers, s, t, a)
    case Update(operands, v, conds) => UpdatePromise(fm, operands, v, conds, s, t, a)
    case Delete(operands, conds) => DeletePromise(fm, operands, conds, s, t, a)
    case Duplicate(operands, conds) => DuplicatePromise(fm, operands, conds, s, t, a)
    case Rewrite(kind, operands, conds) => RewritePromise(kind, fm, operands, conds, s.data, t.data, a)
    case Truncate => t.data == [] && a == Null
    case Count(operands, conds) => t == s && CountPromise(fm, operands, conds, s.data, a)
    case Aggregate(g, operands, conds) => t == s && AggregatePromise(g, fm, operands, conds, s.data, a)
    case Select(operands, conds) => t == s && SelectPromise(fm, operands, conds, s.data, a)
  }

  /** KEY values are tokens and so never empty. */
  predicate Tokenized(c: Command) {
    c.Insert? || c.Truncate? || KeysNamed(c.conds)
  }

  lemma SequentialObeys(fm: FieldMap, c: Command, s: Contents, width: nat)
    requires Tokenized(c) && Sound(s) && UniqueKeys(s.data) && AllWide(s.data, width) && Within(fm, width) && "KEY" !in fm
    ensures var (t, a) := Sequential(fm, c, s);
      Obeys(fm, c, s, t, a)
  {
    match c
    case Insert(operands, numbers) => InsertingKept(operands, numbers, s);
    case Update(operands, v, conds) => UpdatingKept(fm, operands, v, conds, s);
    case Delete(operands, conds) => DeletingKept(fm, operands, conds, s);
    case Duplicate(operands, conds) => DuplicatingKept(fm, operands, conds, s);
    case Rewrite(kind, operands, conds) => RewritingKept(kind, fm, operands, conds, s.data);
    case Truncate =>
    case Count(operands, conds) => CountingKept(fm, operands, conds, s.data);
    case Aggregate(g, operands, conds) => AggregatingKept(g, fm, operands, conds, s.data);
    case Select(operands, conds) => SelectingKept(fm, operands, conds, s.data);
  }

  /** Whatever path a query takes, it does what it promises. */
  lemma StepObeys(fm: FieldMap, width: nat, c: Command, s: Contents, t: Contents, a: Answer)
    requires Tokenized(c) && Fit(fm, width, s) && "KEY" !in fm && Step(fm, c, s, t, a)
    ensures Obeys(fm, c, s, t, a)
  {
    if ParallelStep(fm, c, s, t, a) {
      PathsAgree(fm, c, s, t, a);
    }
    SequentialObeys(fm, c, s, width);
  }
}
