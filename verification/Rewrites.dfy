/** ADD, SUB and SWAP: what they do to one row, the instructions a task runs for that, and the
    sequential loops. */
module Rewrites {
  import opened Values
  import opened Conditions
  import opened Tables
  import opened Queries

  /** Operands are field positions; the last operand of ADD and SUB is the target. */
  datatype Kernel =
    | Add(ops: seq<nat>)
    | Sub(ops: seq<nat>)
    | Swap(f1: nat, f2: nat)

  predicate Sensible(k: Kernel) {
    k.Swap? || |k.ops| >= 2
  }

  /** Exact sum of some cells of a row. */
  function Total(ops: seq<nat>, r: Row): int {
    if ops == [] then 0 else Total(ops[..|ops| - 1], r) + Cell(r, ops[|ops| - 1])
  }

  lemma TotalSnoc(ops: seq<nat>, f: nat, r: Row)
    ensures Total(ops + [f], r) == Total(ops, r) + Cell(r, f)
  {
    assert (ops + [f])[..|ops|] == ops;
  }

  /** What is left of one cell after taking away some others. */
  function Rest(f0: nat, ops: seq<nat>, r: Row): int {
    Cell(r, f0) - Total(ops, r)
  }

  lemma RestSnoc(f0: nat, ops: seq<nat>, f: nat, r: Row, acc: Int32)
    requires acc == Wrap(Rest(f0, ops, r))
    ensures Wrap(acc - Cell(r, f)) == Wrap(Rest(f0, ops + [f], r))
  {
    TotalSnoc(ops, f, r);
    WrapStep(acc, Rest(f0, ops, r), Cell(r, f), Rest(f0, ops + [f], r));
  }

  lemma TotalNext(ops: seq<nat>, f: nat, r: Row, acc: Int32)
    requires acc == Wrap(Total(ops, r))
    ensures Wrap(acc + Cell(r, f)) == Wrap(Total(ops + [f], r))
  {
    TotalSnoc(ops, f, r);
    WrapStep(acc, Total(ops, r), Cell(r, f), Total(ops + [f], r));
  }

  /** The row the query leaves behind, stated on exact sums and without any order of access. */
  function Apply(k: Kernel, r: Row): Row
    requires Sensible(k)
  {
    match k
    case Add(ops) => SetCell(r, ops[|ops| - 1], Wrap(Total(ops[..|ops| - 1], r)))
    case Sub(ops) => SetCell(r, ops[|ops| - 1], Wrap(Rest(ops[0], ops[1..|ops| - 1], r)))
    case Swap(f1, f2) => SetCell(SetCell(r, f2, Cell(r, f1)), f1, Cell(r, f2))
  }

  function Target(conds: seq<QueryCondition>, k: Kernel, r: Row): (s: Row)
    requires Sensible(k)
    ensures s.key == r.key && |s.vals| == |r.vals|
  {
    if Matches(conds, r) then Apply(k, r) else r
  }

  function Rewritten(conds: seq<QueryCondition>, k: Kernel, rows: seq<Row>): (out: seq<Row>)
    requires Sensible(k)
    ensures |out| == |rows|
    ensures forall i :: 0 <= i < |rows| ==> out[i] == Target(conds, k, rows[i])
  {
    seq(|rows|, i requires 0 <= i < |rows| => Target(conds, k, rows[i]))
  }

  // ---------------------------------------------------------------- one cell access at a time

  /** acc is `sum`, `ans`, `total` or `temp` of the source; aux holds the cell on its way from one
      column to the other. */
  datatype Instr =
    | Zero
    | Load(f: nat)
    | LoadAux(f: nat)
    | AddCell(f: nat)
    | SubCell(f: nat)
    | Store(f: nat)
    | StoreAux(f: nat)

  datatype Machine = Machine(acc: Int32, aux: Int32, row: Row)

  function Exec(i: Instr, m: Machine): (m': Machine)
    ensures m'.row.key == m.row.key && |m'.row.vals| == |m.row.vals|
  {
    match i
    case Zero => m.(acc := 0)
    case Load(f) => m.(acc := Cell(m.row, f))
    case LoadAux(f) => m.(aux := Cell(m.row, f))
    case AddCell(f) => m.(acc := Wrap(m.acc + Cell(m.row, f)))
    case SubCell(f) => m.(acc := Wrap(m.acc - Cell(m.row, f)))
    case Store(f) => m.(row := SetCell(m.row, f, m.acc))
    case StoreAux(f) => m.(row := SetCell(m.row, f, m.aux))
  }

  function CodeLength(k: Kernel): nat
    requires Sensible(k)
  {
    match k
    case Add(ops) => |ops| + 1
    case Sub(ops) => |ops|
    case Swap(_, _) => 4
  }

  function Code(k: Kernel, i: nat): Instr
    requires Sensible(k) && i < CodeLength(k)
  {
    match k
    case Add(ops) => if i == 0 then Zero else if i < |ops| then AddCell(ops[i - 1]) else Store(ops[i - 1])
    case Sub(ops) => if i == 0 then Load(ops[0]) else if i < |ops| - 1 then SubCell(ops[i]) else Store(ops[i])
    case Swap(f1, f2) => if i == 0 then Load(f2) else if i == 1 then LoadAux(f1) else if i == 2 then StoreAux(f2) else Store(f1)
  }

  /** The registers and the row after the first n instructions. */
  function Run(k: Kernel, n: nat, r: Row): (m: Machine)
    requires Sensible(k) && n <= CodeLength(k)
    ensures m.row.key == r.key && |m.row.vals| == |r.vals|
  {
    if n == 0 then Machine(0, 0, r) else Exec(Code(k, n - 1), Run(k, n - 1, r))
  }

  lemma {:induction false} RunAdds(k: Kernel, n: nat, r: Row)
    requires k.Add? && Sensible(k) && n < |k.ops|
    ensures Run(k, n + 1, r) == Machine(Wrap(Total(k.ops[..n], r)), 0, r)
  {
    if n == 0 {
      assert Run(k, 0, r) == Machine(0, 0, r);
    } else {
      RunAdds(k, n - 1, r);
      RunAddsNext(k, n - 1, r);
    }
  }

  lemma RunAddsNext(k: Kernel, n: nat, r: Row)
    requires k.Add? && Sensible(k) && n + 1 < |k.ops|
    requires Run(k, n + 1, r) == Machine(Wrap(Total(k.ops[..n], r)), 0, r)
    ensures Run(k, n + 2, r) == Machine(Wrap(Total(k.ops[..n + 1], r)), 0, r)
  {
    assert k.ops[..n + 1] == k.ops[..n] + [k.ops[n]];
    TotalNext(k.ops[..n], k.ops[n], r, Run(k, n + 1, r).acc);
    assert Code(k, n + 1) == AddCell(k.ops[n]);
  }

  lemma {:induction false} RunSubs(k: Kernel, mid: seq<nat>, n: nat, r: Row)
    requires k.Sub? && Sensible(k) && mid == k.ops[1..|k.ops| - 1] && n <= |mid|
    ensures Run(k, n + 1, r) == Machine(Wrap(Rest(k.ops[0], mid[..n], r)), 0, r)
  {
    if n == 0 {
      assert Run(k, 0, r) == Machine(0, 0, r);
    } else {
      RunSubs(k, mid, n - 1, r);
      RunSubsNext(k, mid, n - 1, r);
    }
  }

  lemma RunSubsNext(k: Kernel, mid: seq<nat>, n: nat, r: Row)
    requires k.Sub? && Sensible(k) && mid == k.ops[1..|k.ops| - 1] && n < |mid|
    requires Run(k, n + 1, r) == Machine(Wrap(Rest(k.ops[0], mid[..n], r)), 0, r)
    ensures Run(k, n + 2, r) == Machine(Wrap(Rest(k.ops[0], mid[..n + 1], r)), 0, r)
  {
    assert mid[..n + 1] == mid[..n] + [mid[n]];
    RestSnoc(k.ops[0], mid[..n], mid[n], r, Run(k, n + 1, r).acc);
    assert Code(k, n + 1) == SubCell(mid[n]);
  }

  /** The instructions do to a row what the query promises. */
  lemma CodeMeaning(k: Kernel, r: Row)
    requires Sensible(k)
    ensures Run(k, CodeLength(k), r).row == Apply(k, r)
  {
    match k
    case Add(ops) => RunAdds(k, |ops| - 1, r);
    case Sub(ops) =>
      var mid := ops[1..|ops| - 1];
      RunSubs(k, mid, |mid|, r);
      assert mid[..|mid|] == mid;
    case Swap(f1, f2) =>
      assert Run(k, 1, r) == Machine(Cell(r, f2), 0, r);
      assert Run(k, 2, r) == Machine(Cell(r, f2), Cell(r, f1), r);
      assert Run(k, 3, r) == Exec(StoreAux(f2), Run(k, 2, r));
  }

  /** SWAP exchanges the two columns of a row and leaves the others alone. */
  lemma SwapExchanges(f1: nat, f2: nat, r: Row)
    requires f1 < |r.vals| && f2 < |r.vals|
    ensures var s := Apply(Swap(f1, f2), r);
      && Cell(s, f1) == Cell(r, f2) && Cell(s, f2) == Cell(r, f1)
      && (forall g: nat :: g != f1 && g != f2 ==> Cell(s, g) == Cell(r, g))
      && Apply(Swap(f1, f2), s) == r
  {
    var s := Apply(Swap(f1, f2), r);
    SameCells(Apply(Swap(f1, f2), s), r);
  }

  // ---------------------------------------------------------------- the queries' sequential loops

  datatype RewriteQuery = AddQuery | SubQuery | SwapQuery

  predicate ArityOk(q: RewriteQuery, operands: seq<string>) {
    if q.SwapQuery? then |operands| == 2 else |operands| > 1
  }

  function KernelOf(q: RewriteQuery, fm: FieldMap, operands: seq<string>): (k: Kernel)
    requires ArityOk(q, operands) && Known(fm, operands)
    ensures Sensible(k)
  {
    var fs := Positions(fm, operands);
    match q
    case AddQuery => Add(fs)
    case SubQuery => Sub(fs)
    case SwapQuery => Swap(fs[0], fs[1])
  }

  /** The table and the answer that ADD, SUB or SWAP must produce. An unknown operand is noticed by
      SWAP before the scan, by ADD and SUB at the first matching row, before anything is written. */
  function Rewriting(q: RewriteQuery, fm: FieldMap, operands: seq<string>, conds: seq<QueryCondition>, rows: seq<Row>)
    : (seq<Row>, Answer)
  {
    var (cs, init) := Init(fm, conds);
    RewritingWith(q, fm, operands, cs, init, rows)
  }

  /** The same once initCondition has run. */
  function RewritingWith(q: RewriteQuery, fm: FieldMap, operands: seq<string>, cs: seq<QueryCondition>, init: InitResult, rows: seq<Row>)
    : (seq<Row>, Answer)
  {
    if !ArityOk(q, operands) || init.Threw? then (rows, Failed)
    else if q.SwapQuery? && !Known(fm, operands) then (rows, Failed)
    else if !init.flag then (rows, Affected(0))
    else if Known(fm, operands) then
      (Rewritten(cs, KernelOf(q, fm, operands), rows), Affected(CountMatches(cs, rows)))
    else if CountMatches(cs, rows) == 0 then (rows, Affected(0))
    else (rows, Failed)
  }

  // ---------------------------------------------------------------- what ADD, SUB and SWAP promise

  /** The sum of some named fields. */
  function SumOf(fm: FieldMap, names: seq<string>, r: Row): int {
    if names == [] then 0 else SumOf(fm, names[..|names| - 1], r) + FieldOf(fm, names[|names| - 1], r)
  }

  /** All cells but those at f and g are as they were. */
  predicate OthersAsBefore(was: Row, now: Row, f: nat, g: nat) {
    && now.key == was.key && |now.vals| == |was.vals|
    && forall h :: 0 <= h < |was.vals| && h != f && h != g ==> now.vals[h] == was.vals[h]
  }

  /** ADD puts the sum of all operands but the last into the last; SUB the first minus those between; SWAP
      exchanges two. */
  predicate RowPromise(q: RewriteQuery, fm: FieldMap, operands: seq<string>, was: Row, now: Row)
    requires Known(fm, operands) && |operands| >= 2 && forall k :: 0 <= k < |operands| ==> fm[operands[k]] < |was.vals|
  {
    var n := |operands| - 1;
    var f, g := fm[operands[0]], fm[operands[n]];
    match q
    case AddQuery => OthersAsBefore(was, now, g, g) && now.vals[g] == Wrap(SumOf(fm, operands[..n], was))
    case SubQuery => OthersAsBefore(was, now, g, g) && now.vals[g] == Wrap(was.vals[f] - SumOf(fm, operands[1..n], was))
    case SwapQuery => OthersAsBefore(was, now, f, g) && now.vals[f] == was.vals[g] && now.vals[g] == was.vals[f]
  }

  lemma {:induction false} TotalIsSum(fm: FieldMap, names: seq<string>, r: Row)
    requires Known(fm, names)
    ensures Total(Positions(fm, names), r) == SumOf(fm, names, r)
  {
    if names != [] {
      var n := |names| - 1;
      TotalIsSum(fm, names[..n], r);
      assert Positions(fm, names)[..n] == Positions(fm, names[..n]);
    }
  }

  lemma KernelKeepsPromise(q: RewriteQuery, fm: FieldMap, operands: seq<string>, r: Row)
    requires ArityOk(q, operands) && Known(fm, operands) && forall k :: 0 <= k < |operands| ==> fm[operands[k]] < |r.vals|
    ensures RowPromise(q, fm, operands, r, Apply(KernelOf(q, fm, operands), r))
  {
    var n, fs := |operands| - 1, Positions(fm, operands);
    if q.AddQuery? {
      TotalIsSum(fm, operands[..n], r);
      assert fs[..n] == Positions(fm, operands[..n]);
    } else if q.SubQuery? {
      TotalIsSum(fm, operands[1..n], r);
      assert fs[1..n] == Positions(fm, operands[1..n]);
    }
  }

  /** ADD, SUB and SWAP, all in all. `a` counts the rows that satisfy the conditions as written. */
  ghost predicate RewritePromise(q: RewriteQuery, fm: FieldMap, operands: seq<string>, conds: seq<QueryCondition>,
                                 rows: seq<Row>, now: seq<Row>, a: Answer)
  {
    if (if q.SwapQuery? then |operands| != 2 else |operands| < 2) || Refused(fm, conds, 0) then now == rows && a == Failed
    else if exists k :: 0 <= k < |operands| && operands[k] !in fm then
      && now == rows
      && a == if q.SwapQuery? || PickedRows(fm, conds, rows) != {} then Failed else Affected(0)
    else
      && |now| == |rows| && a == Affected(|PickedRows(fm, conds, rows)|)
      && forall i :: 0 <= i < |rows| ==>
           if AllMean(fm, conds, rows[i]) then
             (forall k :: 0 <= k < |operands| ==> fm[operands[k]] < |rows[i].vals|) && RowPromise(q, fm, operands, rows[i], now[i])
           else now[i] == rows[i]
  }

  lemma RewritingKept(q: RewriteQuery, fm: FieldMap, operands: seq<string>, conds: seq<QueryCondition>, rows: seq<Row>)
    requires KeysNamed(conds) && forall i :: 0 <= i < |rows| ==> Within(fm, |rows[i].vals|)
    ensures var (now, a) := Rewriting(q, fm, operands, conds, rows);
      RewritePromise(q, fm, operands, conds, rows, now, a)
  {
    WherePicks(fm, conds, rows);
    var (now, a) := Rewriting(q, fm, operands, conds, rows);
    if ArityOk(q, operands) && Init(fm, conds).1.Flag? && Known(fm, operands) {
      forall i | 0 <= i < |rows| && AllMean(fm, conds, rows[i]) ensures RowPromise(q, fm, operands, rows[i], now[i]) {
        KernelKeepsPromise(q, fm, operands, rows[i]);
      }
    }
  }

  /** The loop has dealt with the first i rows of `rows`. */
  ghost predicate RewrittenUpTo(cs: seq<QueryCondition>, k: Kernel, rows: seq<Row>, now: seq<Row>, i: nat)
    requires Sensible(k)
  {
    && |now| == |rows| && i <= |rows|
    && (forall r :: 0 <= r < i ==> now[r] == Target(cs, k, rows[r]))
    && (forall r :: i <= r < |rows| ==> now[r] == rows[r])
  }

  lemma RewriteNext(cs: seq<QueryCondition>, k: Kernel, rows: seq<Row>, now: seq<Row>, i: nat)
    requires Sensible(k) && i < |rows| && RewrittenUpTo(cs, k, rows, now, i)
    ensures Matches(cs, now[i]) ==> RewrittenUpTo(cs, k, rows, now[i := Apply(k, now[i])], i + 1)
    ensures !Matches(cs, now[i]) ==> RewrittenUpTo(cs, k, rows, now, i + 1)
  {
  }

  lemma AllRewritten(cs: seq<QueryCondition>, k: Kernel, rows: seq<Row>, now: seq<Row>)
    requires Sensible(k) && RewrittenUpTo(cs, k, rows, now, |rows|)
    ensures now == Rewritten(cs, k, rows) && rows[..|rows|] == rows
  {
  }

  /** The operands of one row, added up in order; None is the exception for an unknown field. */
  method SumOperands(fm: FieldMap, operands: seq<string>, row: Row) returns (sum: Option<Int32>)
    requires |operands| > 1 && Within(fm, |row.vals|)
    ensures sum.Some? <==> Known(fm, operands[..|operands| - 1])
    ensures sum.Some? ==> sum.value == Wrap(Total(Positions(fm, operands[..|operands| - 1]), row))
  {
    var s: Int32 := 0;
    for k := 0 to |operands| - 1
      invariant Known(fm, operands[..k])
      invariant s == Wrap(Total(Positions(fm, operands[..k]), row))
    {
      if operands[k] !in fm {
        assert operands[..|operands| - 1][k] !in fm;
        return None;
      }
      TotalNext(Positions(fm, operands[..k]), fm[operands[k]], row, s);
      assert Positions(fm, operands[..k + 1]) == Positions(fm, operands[..k]) + [fm[operands[k]]];
      s := Wrap(s + row.vals[fm[operands[k]]]);
    }
    return Some(s);
  }

  /** The first operand minus those in the middle; None is the exception for an unknown field. */
  method SubtractOperands(fm: FieldMap, operands: seq<string>, row: Row) returns (total: Option<Int32>)
    requires |operands| > 1 && Within(fm, |row.vals|)
    ensures total.Some? <==> Known(fm, operands[..|operands| - 1])
    ensures total.Some? ==> var fs := Positions(fm, operands[..|operands| - 1]);
      total.value == Wrap(Rest(fs[0], fs[1..], row))
  {
    if operands[0] !in fm {
      assert operands[..|operands| - 1][0] !in fm;
      return None;
    }
    var t: Int32 := row.vals[fm[operands[0]]];
    ghost var first, taken: seq<nat> := fm[operands[0]], [];
    for k := 1 to |operands| - 1
      invariant Known(fm, operands[..k])
      invariant taken == Positions(fm, operands[..k])[1..]
      invariant t == Wrap(Rest(first, taken, row))
    {
      if operands[k] !in fm {
        assert operands[..|operands| - 1][k] !in fm;
        return None;
      }
      RestSnoc(first, taken, fm[operands[k]], row, t);
      taken := taken + [fm[operands[k]]];
      t := Wrap(t - row.vals[fm[operands[k]]]);
    }
    return Some(t);
  }

  lemma KnownSplit(fm: FieldMap, operands: seq<string>)
    requires |operands| > 1
    ensures Known(fm, operands) <==> Known(fm, operands[..|operands| - 1]) && operands[|operands| - 1] in fm
    ensures Known(fm, operands) ==>
      var fs := Positions(fm, operands);
      var gs := Positions(fm, operands[..|operands| - 1]);
      fs[..|fs| - 1] == gs && fs[1..|fs| - 1] == gs[1..]
  {
    var n := |operands| - 1;
    assert operands == operands[..n] + [operands[n]];
    if Known(fm, operands) {
      assert Positions(fm, operands)[..n] == Positions(fm, operands[..n]);
    }
  }

  method ExecuteAdd(q: ComplexQuery, table: Table) returns (a: Answer)
    requires Usable(table)
    modifies table`data, q`condition
    ensures Usable(table)
    ensures (table.data, a) == Rewriting(AddQuery, table.fieldMap, q.operands, old(q.condition), old(table.data))
    ensures KeysNamed(old(q.condition)) ==>
      RewritePromise(AddQuery, table.fieldMap, q.operands, old(q.condition), old(table.data), table.data, a)
  {
    if KeysNamed(q.condition) {
      RewritingKept(AddQuery, table.fieldMap, q.operands, q.condition, table.data);
    }
    a := ExecuteFold(AddQuery, q, table);
  }

  method ExecuteSub(q: ComplexQuery, table: Table) returns (a: Answer)
    requires Usable(table)
    modifies table`data, q`condition
    ensures Usable(table)
    ensures (table.data, a) == Rewriting(SubQuery, table.fieldMap, q.operands, old(q.condition), old(table.data))
    ensures KeysNamed(old(q.condition)) ==>
      RewritePromise(SubQuery, table.fieldMap, q.operands, old(q.condition), old(table.data), table.data, a)
  {
    if KeysNamed(q.condition) {
      RewritingKept(SubQuery, table.fieldMap, q.operands, q.condition, table.data);
    }
    a := ExecuteFold(SubQuery, q, table);
  }

  /** One matching row of ADD or SUB; None is the exception for an unknown field. */
  method FoldRow(kind: RewriteQuery, fm: FieldMap, ops: seq<string>, row: Row, ghost known: bool, ghost k: Kernel)
    returns (out: Option<Row>)
    requires !kind.SwapQuery? && ArityOk(kind, ops) && Within(fm, |row.vals|)
    requires Resolved(kind, fm, ops, known, k)
    ensures out.Some? <==> known
    ensures out.Some? ==> out.value == Apply(k, row)
  {
    KnownSplit(fm, ops);
    var value;
    if kind.AddQuery? {
      value := SumOperands(fm, ops, row);
    } else {
      value := SubtractOperands(fm, ops, row);
    }
    var last := ops[|ops| - 1];
    if value.None? || last !in fm {
      return None;
    }
    return Some(row.(vals := row.vals[fm[last] := value.value]));
  }

  /** Whether all operands are fields, and the kernel they then make. */
  ghost predicate Resolved(kind: RewriteQuery, fm: FieldMap, ops: seq<string>, known: bool, k: Kernel) {
    && ArityOk(kind, ops) && Sensible(k)
    && (known <==> Known(fm, ops))
    && (known ==> k == KernelOf(kind, fm, ops))
  }

  /** The loop that ADD and SUB share but for the arithmetic on the operands. */
  method FoldLoop(kind: RewriteQuery, q: ComplexQuery, table: Table, ghost known: bool, ghost k: Kernel)
    returns (a: Answer)
    requires Usable(table) && !kind.SwapQuery? && Resolved(kind, table.fieldMap, q.operands, known, k)
    requires Initialised(q.condition, |table.fields|)
    modifies table`data
    ensures Usable(table)
    ensures known ==> table.data == Rewritten(q.condition, k, old(table.data))
    ensures known ==> a == Affected(CountMatches(q.condition, old(table.data)))
    ensures !known ==> table.data == old(table.data)
    ensures !known ==> a == if CountMatches(q.condition, old(table.data)) == 0 then Affected(0) else Failed
  {
    var fm := table.fieldMap;
    ghost var rows, cs := table.data, q.condition;
    var counter := 0;
    assert Within(fm, |table.fields|);
    for i := 0 to |table.data|
      invariant Usable(table)
      invariant counter == CountMatches(cs, rows[..i])
      invariant known ==> RewrittenUpTo(cs, k, rows, table.data, i)
      invariant !known ==> table.data == rows && counter == 0
    {
      CountStep(cs, rows, i);
      if known {
        RewriteNext(cs, k, rows, table.data, i);
      }
      var matched := q.EvalCondition(table.data[i]);
      if matched {
        var row := FoldRow(kind, fm, q.operands, table.data[i], known, k);
        if row.None? {
          return Failed;
        }
        table.WriteRow(i, row.value);
        counter := counter + 1;
      }
    }
    assert rows[..|rows|] == rows;
    if known {
      AllRewritten(cs, k, rows, table.data);
    }
    return Affected(counter);
  }

  method ExecuteFold(kind: RewriteQuery, q: ComplexQuery, table: Table) returns (a: Answer)
    requires Usable(table) && !kind.SwapQuery?
    modifies table`data, q`condition
    ensures Usable(table)
    ensures (table.data, a) == Rewriting(kind, table.fieldMap, q.operands, old(q.condition), old(table.data))
  {
    if |q.operands| <= 1 {
      return Failed;
    }
    InitInitialised(table.fieldMap, q.condition, |table.fields|);
    var result := q.InitCondition(table.fieldMap);
    if result.Threw? {
      return Failed;
    }
    if !result.flag {
      return Affected(0);
    }
    ghost var known := Known(table.fieldMap, q.operands);
    ghost var k := if known then KernelOf(kind, table.fieldMap, q.operands) else Swap(0, 0);
    a := FoldLoop(kind, q, table, known, k);
  }

  method ExecuteSwap(q: ComplexQuery, table: Table) returns (a: Answer)
    requires Usable(table)
    modifies table`data, q`condition
    ensures Usable(table)
    ensures (table.data, a) == Rewriting(SwapQuery, table.fieldMap, q.operands, old(q.condition), old(table.data))
    ensures KeysNamed(old(q.condition)) ==>
      RewritePromise(SwapQuery, table.fieldMap, q.operands, old(q.condition), old(table.data), table.data, a)
  {
    if KeysNamed(q.condition) {
      RewritingKept(SwapQuery, table.fieldMap, q.operands, q.condition, table.data);
    }
    if |q.operands| != 2 {
      return Failed;
    }
    var fm, ops := table.fieldMap, q.operands;
    ghost var rows := table.data;
    InitInitialised(fm, q.condition, |table.fields|);
    InitIdempotent(fm, q.condition);
    var first := q.InitCondition(fm);
    if first.Threw? || ops[0] !in fm || ops[1] !in fm {
      return Failed;
    }
    var fid1, fid2 := fm[ops[0]], fm[ops[1]];
    var result := q.InitCondition(fm);
    if !result.flag {
      return Affected(0);
    }
    a := SwapLoop(fid1, fid2, q, table);
  }

  method SwapLoop(fid1: nat, fid2: nat, q: ComplexQuery, table: Table) returns (a: Answer)
    requires Usable(table) && fid1 < |table.fields| && fid2 < |table.fields|
    requires Initialised(q.condition, |table.fields|)
    modifies table`data
    ensures Usable(table)
    ensures table.data == Rewritten(q.condition, Swap(fid1, fid2), old(table.data))
    ensures a == Affected(CountMatches(q.condition, old(table.data)))
  {
    ghost var rows, cs, k := table.data, q.condition, Swap(fid1, fid2);
    var counter := 0;
    for i := 0 to |table.data|
      invariant Usable(table)
      invariant counter == CountMatches(cs, rows[..i])
      invariant RewrittenUpTo(cs, k, rows, table.data, i)
    {
      CountStep(cs, rows, i);
      RewriteNext(cs, k, rows, table.data, i);
      var matched := q.EvalCondition(table.data[i]);
      if matched {
        var row := SwapRow(fid1, fid2, table.data[i]);
        table.WriteRow(i, row);
        counter := counter + 1;
      }
    }
    AllRewritten(cs, k, rows, table.data);
    return Affected(counter);
  }

  method SwapRow(fid1: nat, fid2: nat, row: Row) returns (out: Row)
    requires fid1 < |row.vals| && fid2 < |row.vals|
    ensures out == Apply(Swap(fid1, fid2), row)
  {
    var temp := row.vals[fid2];
    out := row.(vals := row.vals[fid2 := row.vals[fid1]]);
    out := out.(vals := out.vals[fid1 := temp]);
  }
}
