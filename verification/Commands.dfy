/** All queries on one table in one type, and what each does on the sequential path. */
module Commands {
  import opened Values
  import opened Conditions
  import opened Tables
  import opened Queries
  import opened Rewrites
  import opened Aggregates
  import opened Selects
  import opened Changes

  /** The queries on one table. numbers[i] is what strtol reads in operand i, v what it reads in the
      second operand. */
  datatype Command =
    | Insert(operands: seq<string>, numbers: seq<Int32>)
    | Update(operands: seq<string>, v: Int32, conds: seq<QueryCondition>)
    | Delete(operands: seq<string>, conds: seq<QueryCondition>)
    | Duplicate(operands: seq<string>, conds: seq<QueryCondition>)
    | Rewrite(kind: RewriteQuery, operands: seq<string>, conds: seq<QueryCondition>)
    | Truncate
    | Count(operands: seq<string>, conds: seq<QueryCondition>)
    | Aggregate(a: Agg, operands: seq<string>, conds: seq<QueryCondition>)
    | Select(operands: seq<string>, conds: seq<QueryCondition>)

  /** What the sequential path of a query does to vector and index, and what it answers. */
  ghost function Sequential(fm: FieldMap, c: Command, s: Contents): (Contents, Answer)
    requires UniqueKeys(s.data)
  {
    match c
    case Insert(operands, numbers) => Inserting(operands, numbers, s)
    case Update(operands, v, conds) => UpdatingAny(fm, operands, v, conds, s)
    case Delete(operands, conds) => Deleting(fm, operands, conds, s)
    case Duplicate(operands, conds) => Duplicating(fm, operands, conds, s)
    case Rewrite(kind, operands, conds) => KeepingIndex(s, Rewriting(kind, fm, operands, conds, s.data))
    case Truncate => (Contents([], map[]), Null)
    case Count(operands, conds) => (s, Counting(fm, operands, conds, s.data))
    case Aggregate(g, operands, conds) => (s, Aggregating(g, fm, operands, conds, s.data))
    case Select(operands, conds) => (s, Selecting(fm, operands, conds, AsMap(s.data)))
  }

  // ---------------------------------------------------------------- what the code does not check

  /** Only an UPDATE of KEY that makes two keys one spoils the index. */
  ghost predicate IndexSafe(fm: FieldMap, c: Command, rows: seq<Row>) {
    c.Update? ==> UpdateSafe(fm, c.operands, c.conds, rows)
  }

  /** Only an INSERT with the wrong number of values spoils the shape of the table. */
  predicate ShapeSafe(c: Command, width: nat) {
    c.Insert? && c.numbers != [] ==> |c.numbers| == width + 1
  }

  /** Only a SELECT that fails while printing leaves entries in the shared queue. */
  ghost predicate QueueSafe(fm: FieldMap, c: Command, m: map<string, seq<Int32>>) {
    c.Select? ==>
      Printable(fm, c.operands) || Init(fm, c.conds).1.Threw? || Selecting(fm, c.operands, c.conds, m) != Failed
  }

  /** A query after which the table and the shared queue are fit for the next one. */
  ghost predicate Orderly(fm: FieldMap, width: nat, c: Command, rows: seq<Row>)
    requires UniqueKeys(rows)
  {
    IndexSafe(fm, c, rows) && ShapeSafe(c, width) && QueueSafe(fm, c, AsMap(rows))
  }

  /** The queries' own code does this to any table with an exact index and rows of the right width.
      The index is exact afterwards, and the shared queue empty, if and only if the query was safe in
      that respect; so is the shape, except that a refused INSERT does no harm. */
  method Execute(c: Command, table: Table, queue: SelectQueue) returns (a: Answer)
    requires Usable(table) && queue.priorityQueue == multiset{}
    requires c.Insert? ==> |c.numbers| == |c.operands|
    requires c.Update? && |c.operands| == 2 ==> c.operands[1] != ""
    modifies table`data, table`keyMap, queue
    ensures (Contents(table.data, table.keyMap), a) ==
      Sequential(table.fieldMap, c, old(Contents(table.data, table.keyMap)))
    ensures Exact(table.data, table.keyMap) <==> IndexSafe(table.fieldMap, c, old(table.data))
    ensures table.Rectangular() <==> ShapeSafe(c, |table.fields|) || a == Failed
    ensures queue.priorityQueue == multiset{} <==> QueueSafe(table.fieldMap, c, AsMap(old(table.data)))
  {
    ExactKeys(table.data, table.keyMap);
    match c
    case Insert(operands, numbers) => a := ExecuteInsert(operands, numbers, table);
    case Update(operands, v, conds) =>
      var q := new ComplexQuery("", operands, conds);
      a := ExecuteUpdate(q, v, table);
    case Delete(operands, conds) =>
      var q := new ComplexQuery("", operands, conds);
      a := ExecuteDelete(q, table);
    case Duplicate(operands, conds) =>
      var q := new ComplexQuery("", operands, conds);
      a := ExecuteDuplicate(q, table);
    case Rewrite(kind, operands, conds) =>
      var q := new ComplexQuery("", operands, conds);
      match kind {
        case AddQuery => a := ExecuteAdd(q, table);
        case SubQuery => a := ExecuteSub(q, table);
        case SwapQuery => a := ExecuteSwap(q, table);
      }
    case Truncate =>
      var cleared := table.Clear();
      a := Null;
    case _ => a := ExecuteReading(c, table, queue);
  }

  /** The queries that leave the table alone. */
  method ExecuteReading(c: Command, table: Table, queue: SelectQueue) returns (a: Answer)
    requires Usable(table) && queue.priorityQueue == multiset{}
    requires c.Count? || c.Aggregate? || c.Select?
    modifies queue
    ensures UniqueKeys(table.data)
    ensures (Contents(table.data, table.keyMap), a) == Sequential(table.fieldMap, c, Contents(table.data, table.keyMap))
    ensures queue.priorityQueue == multiset{} <==> QueueSafe(table.fieldMap, c, AsMap(table.data))
  {
    ExactKeys(table.data, table.keyMap);
    match c
    case Count(operands, conds) =>
      var q := new ComplexQuery("", operands, conds);
      a := ExecuteCount(q, table);
    case Aggregate(g, operands, conds) =>
      var q := new ComplexQuery("", operands, conds);
      a := ExecuteAggregate(g, q, table);
    case Select(operands, conds) =>
      var q := new ComplexQuery("", operands, conds);
      a := ExecuteSelect(q, table, queue);
  }
}
