/** The pool's side of ADD, SUB and SWAP: one task per range of rows, every access to a cell of the
    shared table a step of its own. */
module ParallelRewrites {
  import opened Values
  import opened Conditions
  import opened Rewrites
  import opened Partition
  import Pool

  /** Where a task is in its current row: about to test condition j with the verdict so far, or
      about to run instruction n on a row that matched. */
  datatype Phase = Test(j: nat, ret: bool) | Do(n: nat)

  datatype Task = Task(cursor: nat, phase: Phase, acc: Int32, aux: Int32, counter: nat)

  /** The table that all tasks write in place, and each task's own variables. */
  datatype Shared = Shared(rows: seq<Row>, tasks: seq<Task>)

  /** What execute() leaves in the static variables before it submits. */
  datatype Plan = Plan(conds: seq<QueryCondition>, kernel: Kernel, flag: bool, size: nat)

  predicate PlanOk(p: Plan) {
    Sensible(p.kernel) && GRAIN <= p.size
  }

  function Fresh(cursor: nat): Task {
    Task(cursor, Test(0, true), 0, 0, 0)
  }

  function Initial(p: Plan, rows: seq<Row>): Shared {
    Shared(rows, seq(Tasks(p.size), i requires 0 <= i => Fresh(Head(p.size, i))))
  }

  function NextRow(t: Task): Task {
    t.(cursor := t.cursor + 1, phase := Test(0, true))
  }

  /** One step of a task on row r: its own new state and the row it leaves. */
  function Micro(p: Plan, t: Task, r: Row): (Task, Row)
    requires PlanOk(p)
  {
    match t.phase
    case Test(j, ret) =>
      if j < |p.conds| then (t.(phase := Test(j + 1, ret && Holds(p.conds[j], r))), r)
      else if ret then (t.(phase := Do(0), acc := 0, aux := 0, counter := t.counter + 1), r)
      else (NextRow(t), r)
    case Do(n) =>
      if n < CodeLength(p.kernel) then
        var m := Exec(Code(p.kernel, n), Machine(t.acc, t.aux, r));
        (t.(phase := Do(n + 1), acc := m.acc, aux := m.aux), m.row)
      else (NextRow(t), r)
  }

  function Step(p: Plan, d: Shared, i: nat): Shared
    requires PlanOk(p)
  {
    if i < |d.tasks| && d.tasks[i].cursor < |d.rows| then
      var (t, r) := Micro(p, d.tasks[i], d.rows[d.tasks[i].cursor]);
      Shared(d.rows[d.tasks[i].cursor := r], d.tasks[i := t])
    else d
  }

  function Position(p: Plan, phase: Phase): nat {
    match phase
    case Test(j, _) => j
    case Do(n) => |p.conds| + 1 + n
  }

  /** More than the steps any row can take. */
  function Width(p: Plan): nat
    requires PlanOk(p)
  {
    |p.conds| + CodeLength(p.kernel) + 2
  }

  /** Steps left for `rest` rows, when the first of them is at position pos of at most width. */
  function Bound(rest: nat, width: nat, pos: nat): nat
    requires width > 0
  {
    if rest == 0 then 0 else (rest - 1) * width + (if pos < width then width - pos else 1)
  }

  lemma BoundLess(rest: nat, width: nat, pos: nat)
    requires rest > 0 && pos < width
    ensures Bound(rest, width, pos) > 0
    ensures pos + 1 < width ==> Bound(rest, width, pos + 1) < Bound(rest, width, pos)
    ensures Bound(rest - 1, width, 0) < Bound(rest, width, pos)
  {
    if rest > 1 {
      assert (rest - 1) * width == (rest - 2) * width + width;
    }
  }

  lemma BoundZero(rest: nat, width: nat, pos: nat)
    requires width > 0
    ensures Bound(rest, width, pos) == 0 ==> rest == 0
  {
  }

  /** An upper bound on the steps task i still has to do, 0 exactly when it has reached its tail. */
  function Left(p: Plan, d: Shared, i: nat): nat
    requires PlanOk(p)
  {
    if !p.flag || i >= |d.tasks| || d.tasks[i].cursor >= Tail(p.size, i) then 0
    else Bound(Tail(p.size, i) - d.tasks[i].cursor, Width(p), Position(p, d.tasks[i].phase))
  }

  // ---------------------------------------------------------------- one task's progress

  /** The task stands in its row as if it alone had worked on it. */
  ghost predicate InRow(p: Plan, t: Task, was: Row, now: Row)
    requires PlanOk(p)
  {
    match t.phase
    case Test(j, ret) => j <= |p.conds| && now == was && ret == Matches(p.conds[..j], was)
    case Do(n) => n <= CodeLength(p.kernel) && Matches(p.conds, was) && Machine(t.acc, t.aux, now) == Run(p.kernel, n, was)
  }

  /** Of the rows from lo to hi: those before the cursor are rewritten, those after it untouched. */
  ghost predicate TaskOk(p: Plan, orig: seq<Row>, rows: seq<Row>, t: Task, lo: nat, hi: nat)
    requires PlanOk(p) && |orig| == |rows| && lo <= hi <= |rows|
  {
    && lo <= t.cursor <= hi
    && (forall r :: lo <= r < t.cursor ==> rows[r] == Target(p.conds, p.kernel, orig[r]))
    && (forall r :: t.cursor < r < hi ==> rows[r] == orig[r])
    && (if t.cursor < hi then InRow(p, t, orig[t.cursor], rows[t.cursor]) else t.phase == Test(0, true))
    && t.counter == CountMatches(p.conds, orig[lo..t.cursor]) + (if t.phase.Do? then 1 else 0)
  }

  ghost predicate Ok(p: Plan, orig: seq<Row>, d: Shared)
    requires PlanOk(p)
  {
    && |d.rows| == |orig| == p.size && |d.tasks| == Tasks(p.size)
    && (!p.flag ==> d == Initial(p, orig))
    && forall i: nat :: i < Tasks(p.size) ==> RangeOk(p, orig, d, i)
  }

  ghost predicate RangeOk(p: Plan, orig: seq<Row>, d: Shared, i: nat)
    requires PlanOk(p) && |d.rows| == |orig| == p.size && i < |d.tasks| == Tasks(p.size)
  {
    RangesTile(p.size, i);
    TaskOk(p, orig, d.rows, d.tasks[i], Head(p.size, i), Tail(p.size, i))
  }

  ghost function JobsOf(p: Plan, orig: seq<Row>): Pool.Jobs<Shared>
    requires PlanOk(p)
  {
    Pool.Jobs(Tasks(p.size), (d, i) => Step(p, d, i), (d, i) => Left(p, d, i), d => Ok(p, orig, d))
  }

  lemma InitialOk(p: Plan, orig: seq<Row>)
    requires PlanOk(p) && |orig| == p.size
    ensures Ok(p, orig, Initial(p, orig))
  {
    forall i: nat | i < Tasks(p.size) ensures RangeOk(p, orig, Initial(p, orig), i) {
      RangesTile(p.size, i);
      assert p.conds[..0] == [];
    }
  }

  lemma {:induction false} MatchesSnoc(conds: seq<QueryCondition>, j: nat, r: Row)
    requires j < |conds|
    ensures Matches(conds[..j + 1], r) <==> Matches(conds[..j], r) && Holds(conds[j], r)
    ensures Matches(conds[..|conds|], r) == Matches(conds, r)
  {
    assert conds[..j + 1] == conds[..j] + [conds[j]];
    assert conds[..|conds|] == conds;
  }

  /** A row left after a failed test or after the last instruction has become its target. */
  lemma RowBecomesTarget(p: Plan, t: Task, was: Row, now: Row)
    requires PlanOk(p) && InRow(p, t, was, now)
    requires t.phase.Test? ==> t.phase.j == |p.conds| && !t.phase.ret
    requires t.phase.Do? ==> t.phase.n == CodeLength(p.kernel)
    ensures now == Target(p.conds, p.kernel, was)
    ensures t.phase.Do? <==> Matches(p.conds, was)
  {
    assert p.conds[..|p.conds|] == p.conds;
    CodeMeaning(p.kernel, was);
  }

  lemma CountNext(conds: seq<QueryCondition>, orig: seq<Row>, lo: nat, c: nat)
    requires lo <= c < |orig|
    ensures CountMatches(conds, orig[lo..c + 1]) == CountMatches(conds, orig[lo..c]) + (if Matches(conds, orig[c]) then 1 else 0)
  {
    CountSnoc(conds, orig[lo..c], orig[c]);
    SliceSnoc(orig, lo, c);
  }

  lemma RowBegins(p: Plan, t: Task, row: Row)
    requires PlanOk(p)
    ensures InRow(p, NextRow(t), row, row)
  {
    assert p.conds[..0] == [];
  }

  lemma RowsDone(p: Plan, orig: seq<Row>, rows: seq<Row>, t: Task, lo: nat, hi: nat)
    requires PlanOk(p) && |orig| == |rows| && lo <= t.cursor < hi <= |rows| && TaskOk(p, orig, rows, t, lo, hi)
    requires rows[t.cursor] == Target(p.conds, p.kernel, orig[t.cursor])
    ensures forall r :: lo <= r < t.cursor + 1 ==> rows[r] == Target(p.conds, p.kernel, orig[r])
    ensures forall r :: t.cursor + 1 <= r < hi ==> rows[r] == orig[r]
  {
  }

  lemma RowDone(p: Plan, orig: seq<Row>, rows: seq<Row>, t: Task, lo: nat, hi: nat)
    requires PlanOk(p) && |orig| == |rows| && lo <= t.cursor < hi <= |rows| && TaskOk(p, orig, rows, t, lo, hi)
    requires t.phase.Test? ==> t.phase.j == |p.conds| && !t.phase.ret
    requires t.phase.Do? ==> t.phase.n == CodeLength(p.kernel)
    ensures TaskOk(p, orig, rows, NextRow(t), lo, hi)
  {
    var c := t.cursor;
    RowBecomesTarget(p, t, orig[c], rows[c]);
    RowsDone(p, orig, rows, t, lo, hi);
    RowCounted(p, t, orig, lo);
    if c + 1 < hi {
      RowBegins(p, t, orig[c + 1]);
    }
    AfterRow(p, orig, rows, NextRow(t), lo, hi);
  }

  lemma AfterRow(p: Plan, orig: seq<Row>, rows: seq<Row>, t: Task, lo: nat, hi: nat)
    requires PlanOk(p) && |orig| == |rows| && lo < t.cursor <= hi <= |rows| && t.phase == Test(0, true)
    requires forall r :: lo <= r < t.cursor ==> rows[r] == Target(p.conds, p.kernel, orig[r])
    requires forall r :: t.cursor <= r < hi ==> rows[r] == orig[r]
    requires t.cursor < hi ==> InRow(p, t, orig[t.cursor], rows[t.cursor])
    requires t.counter == CountMatches(p.conds, orig[lo..t.cursor])
    ensures TaskOk(p, orig, rows, t, lo, hi)
  {
  }

  lemma RowCounted(p: Plan, t: Task, orig: seq<Row>, lo: nat)
    requires lo <= t.cursor < |orig| && (t.phase.Do? <==> Matches(p.conds, orig[t.cursor]))
    requires t.counter == CountMatches(p.conds, orig[lo..t.cursor]) + (if t.phase.Do? then 1 else 0)
    ensures t.counter == CountMatches(p.conds, orig[lo..t.cursor + 1])
  {
    CountNext(p.conds, orig, lo, t.cursor);
  }

  /** A task's step carries its own range on. */
  lemma MicroOk(p: Plan, orig: seq<Row>, rows: seq<Row>, t: Task, lo: nat, hi: nat)
    requires PlanOk(p) && |orig| == |rows| && lo <= t.cursor < hi <= |rows| && TaskOk(p, orig, rows, t, lo, hi)
    ensures var (t', r) := Micro(p, t, rows[t.cursor]);
      TaskOk(p, orig, rows[t.cursor := r], t', lo, hi)
  {
    var c := t.cursor;
    assert rows[c := rows[c]] == rows;
    match t.phase
    case Test(j, ret) =>
      if j < |p.conds| {
        MatchesSnoc(p.conds, j, orig[c]);
      } else if ret {
        assert p.conds[..|p.conds|] == p.conds;
        assert Run(p.kernel, 0, orig[c]) == Machine(0, 0, orig[c]);
      } else {
        RowDone(p, orig, rows, t, lo, hi);
      }
    case Do(n) =>
      if n == CodeLength(p.kernel) {
        RowDone(p, orig, rows, t, lo, hi);
      }
  }

  /** A step goes on in the row or on to the next one. */
  lemma MicroMoves(p: Plan, t: Task, was: Row, now: Row)
    requires PlanOk(p) && InRow(p, t, was, now)
    ensures Position(p, t.phase) < Width(p)
    ensures var t' := Micro(p, t, now).0;
      || (t'.cursor == t.cursor && Position(p, t'.phase) == Position(p, t.phase) + 1 < Width(p))
      || (t'.cursor == t.cursor + 1 && Position(p, t'.phase) == 0)
  {
  }

  /** It brings that task nearer its tail. */
  lemma MicroLess(p: Plan, orig: seq<Row>, d: Shared, i: nat)
    requires PlanOk(p) && Ok(p, orig, d) && i < Tasks(p.size) && Left(p, d, i) > 0
    ensures Left(p, Step(p, d, i), i) < Left(p, d, i)
  {
    var t := d.tasks[i];
    assert RangeOk(p, orig, d, i);
    RangesTile(p.size, i);
    MicroMoves(p, t, orig[t.cursor], d.rows[t.cursor]);
    BoundLess(Tail(p.size, i) - t.cursor, Width(p), Position(p, t.phase));
    assert Step(p, d, i).tasks[i] == Micro(p, t, d.rows[t.cursor]).0;
  }

  lemma RowsApart(size: nat, i: nat, k: nat, r: nat)
    requires GRAIN <= size && i < Tasks(size) && k < Tasks(size) && i != k
    requires Head(size, i) <= r < Tail(size, i)
    ensures !(Head(size, k) <= r < Tail(size, k))
  {
    if i < k { RangesDisjoint(size, i, k); } else { RangesDisjoint(size, k, i); }
  }

  /** It leaves every other task's range and variables alone. */
  lemma OthersKept(p: Plan, orig: seq<Row>, d: Shared, i: nat, k: nat)
    requires PlanOk(p) && Ok(p, orig, d) && i < Tasks(p.size) && k < Tasks(p.size) && i != k && Left(p, d, i) > 0
    ensures var d' := Step(p, d, i);
      && |d'.rows| == |d.rows| && |d'.tasks| == |d.tasks| && d'.tasks[k] == d.tasks[k]
      && RangeOk(p, orig, d', k)
  {
    assert RangeOk(p, orig, d, k);
    RangesTile(p.size, k);
    StepFrame(p, d, i);
    CursorElsewhere(p, orig, d, i, k);
    TaskUnmoved(p, orig, d.rows, Step(p, d, i).rows, d.tasks[k], Head(p.size, k), Tail(p.size, k));
  }

  lemma CursorElsewhere(p: Plan, orig: seq<Row>, d: Shared, i: nat, k: nat)
    requires PlanOk(p) && Ok(p, orig, d) && i < Tasks(p.size) && k < Tasks(p.size) && i != k && Left(p, d, i) > 0
    ensures !(Head(p.size, k) <= d.tasks[i].cursor < Tail(p.size, k))
  {
    assert RangeOk(p, orig, d, i);
    RangesTile(p.size, i);
    RowsApart(p.size, i, k, d.tasks[i].cursor);
  }

  /** A step writes the row under its task's cursor and that task's variables. */
  lemma StepFrame(p: Plan, d: Shared, i: nat)
    requires PlanOk(p)
    ensures var d' := Step(p, d, i);
      && |d'.rows| == |d.rows| && |d'.tasks| == |d.tasks|
      && (forall k: nat :: k < |d.tasks| && k != i ==> d'.tasks[k] == d.tasks[k])
      && (forall r: nat :: r < |d.rows| && (i < |d.tasks| ==> r != d.tasks[i].cursor) ==> d'.rows[r] == d.rows[r])
  {
  }

  lemma TaskUnmoved(p: Plan, orig: seq<Row>, rows: seq<Row>, now: seq<Row>, t: Task, lo: nat, hi: nat)
    requires PlanOk(p) && |orig| == |rows| == |now| && lo <= hi <= |rows| && TaskOk(p, orig, rows, t, lo, hi)
    requires forall r :: lo <= r < hi ==> now[r] == rows[r]
    ensures TaskOk(p, orig, now, t, lo, hi)
  {
  }

  /** And it carries its own range on. */
  lemma OwnKept(p: Plan, orig: seq<Row>, d: Shared, i: nat)
    requires PlanOk(p) && Ok(p, orig, d) && i < Tasks(p.size) && Left(p, d, i) > 0
    ensures var d' := Step(p, d, i);
      |d'.rows| == |d.rows| && |d'.tasks| == |d.tasks| && RangeOk(p, orig, d', i)
  {
    RangesTile(p.size, i);
    assert RangeOk(p, orig, d, i);
    MicroOk(p, orig, d.rows, d.tasks[i], Head(p.size, i), Tail(p.size, i));
  }

  lemma StepOk(p: Plan, orig: seq<Row>, d: Shared, i: nat)
    requires PlanOk(p) && Ok(p, orig, d) && i < Tasks(p.size) && Left(p, d, i) > 0
    ensures Ok(p, orig, Step(p, d, i))
    ensures Left(p, Step(p, d, i), i) < Left(p, d, i)
    ensures forall k: nat :: k < Tasks(p.size) && k != i ==> Left(p, Step(p, d, i), k) == Left(p, d, k)
  {
    var d' := Step(p, d, i);
    OwnKept(p, orig, d, i);
    MicroLess(p, orig, d, i);
    forall k: nat | k < Tasks(p.size) ensures RangeOk(p, orig, d', k) && (k != i ==> Left(p, d', k) == Left(p, d, k)) {
      if k != i {
        OthersKept(p, orig, d, i, k);
      }
    }
  }

  lemma JobsIndependent(p: Plan, orig: seq<Row>)
    requires PlanOk(p)
    ensures Pool.Independent(JobsOf(p, orig))
  {
    var j := JobsOf(p, orig);
    forall d: Shared, i: nat | j.ok(d) && i < j.count && j.left(d, i) > 0
      ensures j.ok(j.step(d, i)) && j.left(j.step(d, i), i) < j.left(d, i)
      ensures forall k: nat :: k < j.count && k != i ==> j.left(j.step(d, i), k) == j.left(d, k)
    {
      StepOk(p, orig, d, i);
    }
  }

  // ---------------------------------------------------------------- all tasks together

  /** counter = counter + futures[i].get(), in submit order. */
  function SumCounters(tasks: seq<Task>, n: nat): nat
    requires n <= |tasks|
  {
    if n == 0 then 0 else SumCounters(tasks, n - 1) + tasks[n - 1].counter
  }

  lemma {:induction false} CountersAddUp(p: Plan, orig: seq<Row>, d: Shared, n: nat)
    requires PlanOk(p) && Ok(p, orig, d) && n <= Tasks(p.size)
    requires forall i: nat :: i < Tasks(p.size) ==> d.tasks[i].cursor == Tail(p.size, i)
    ensures Ended(p.size, n) <= |orig|
    ensures SumCounters(d.tasks, n) == CountMatches(p.conds, orig[..Ended(p.size, n)])
  {
    if n > 0 {
      CountersAddUp(p, orig, d, n - 1);
      EndedNext(p.size, n - 1);
      assert RangeOk(p, orig, d, n - 1);
      CountJoin(p.conds, orig, Ended(p.size, n - 1), Ended(p.size, n));
    }
  }

  /** The state in which every task has reached its tail. */
  lemma AllDone(p: Plan, orig: seq<Row>, d: Shared)
    requires PlanOk(p) && Ok(p, orig, d) && p.flag
    requires forall i: nat :: i < Tasks(p.size) ==> Left(p, d, i) == 0
    ensures d.rows == Rewritten(p.conds, p.kernel, orig)
    ensures SumCounters(d.tasks, |d.tasks|) == CountMatches(p.conds, orig)
  {
    var t := Tasks(p.size);
    forall i: nat | i < t ensures d.tasks[i].cursor == Tail(p.size, i) {
      assert RangeOk(p, orig, d, i) && Left(p, d, i) == 0;
      BoundZero(Tail(p.size, i) - d.tasks[i].cursor, Width(p), Position(p, d.tasks[i].phase));
    }
    forall r | 0 <= r < p.size ensures d.rows[r] == Target(p.conds, p.kernel, orig[r]) {
      RangesCover(p.size, r);
      assert RangeOk(p, orig, d, Owner(p.size, r));
    }
    CountersAddUp(p, orig, d, t);
    EndedNext(p.size, t - 1);
    assert orig[..p.size] == orig;
  }

  /** A run of the pool that has collected every future. */
  ghost predicate RunsTo(p: Plan, orig: seq<Row>, s0: Pool.Pool<Shared>, es: seq<Pool.Event>, d: Shared)
    requires PlanOk(p)
  {
    && Pool.Start(JobsOf(p, orig), Initial(p, orig), s0) && Pool.Legal(JobsOf(p, orig), s0, es)
    && Pool.After(JobsOf(p, orig), s0, es).collected == Tasks(p.size)
    && Pool.After(JobsOf(p, orig), s0, es).data == d
  }

  /** For any number of workers and any interleaving of the tasks' cell accesses, a run that has
      collected every future leaves the table and the count of the sequential loop. */
  lemma ParallelRewrite(p: Plan, orig: seq<Row>, s0: Pool.Pool<Shared>, es: seq<Pool.Event>, d: Shared)
    requires PlanOk(p) && |orig| == p.size && RunsTo(p, orig, s0, es, d)
    ensures d.rows == if p.flag then Rewritten(p.conds, p.kernel, orig) else orig
    ensures SumCounters(d.tasks, |d.tasks|) == if p.flag then CountMatches(p.conds, orig) else 0
  {
    var j := JobsOf(p, orig);
    JobsIndependent(p, orig);
    Pool.Completed(j, Initial(p, orig), s0, es);
    if p.flag {
      forall i: nat | i < Tasks(p.size) ensures Left(p, d, i) == 0 {
        assert j.left(d, i) == 0;
      }
      AllDone(p, orig, d);
    } else {
      NoCounts(d.tasks, |d.tasks|);
    }
  }

  /** Such a run exists from every start, so the statement above is about something. */
  lemma RunExists(p: Plan, orig: seq<Row>, s0: Pool.Pool<Shared>) returns (es: seq<Pool.Event>)
    requires PlanOk(p) && |orig| == p.size && |s0.workers| >= 1
    requires Pool.Start(JobsOf(p, orig), Initial(p, orig), s0)
    ensures Pool.Legal(JobsOf(p, orig), s0, es)
    ensures RunsTo(p, orig, s0, es, Pool.After(JobsOf(p, orig), s0, es).data)
  {
    JobsIndependent(p, orig);
    Pool.StartInv(JobsOf(p, orig), Initial(p, orig), s0);
    es := Pool.CompletingRun(JobsOf(p, orig), Initial(p, orig), s0);
  }

  /** In particular from the pool as pool_set leaves it. */
  lemma SomeRun(p: Plan, orig: seq<Row>) returns (s0: Pool.Pool<Shared>, es: seq<Pool.Event>)
    requires PlanOk(p) && |orig| == p.size
    ensures Pool.Legal(JobsOf(p, orig), s0, es)
    ensures RunsTo(p, orig, s0, es, Pool.After(JobsOf(p, orig), s0, es).data)
  {
    s0 := Pool.PoolSet(2, Initial(p, orig));
    InitialOk(p, orig);
    Pool.PoolSetStarts(JobsOf(p, orig), Initial(p, orig), 2);
    es := RunExists(p, orig, s0);
  }

  lemma {:induction false} NoCounts(tasks: seq<Task>, n: nat)
    requires n <= |tasks| && forall i :: 0 <= i < |tasks| ==> tasks[i].counter == 0
    ensures SumCounters(tasks, n) == 0
  {
    if n > 0 {
      NoCounts(tasks, n - 1);
    }
  }
}
