/** The pool's side of COUNT, SUM, MIN, MAX, SELECT and DUPLICATE: tasks that only read the table,
    and hand in their findings through futures, under a mutex, or into a shared queue. */
module ParallelScans {
  import opened Values
  import opened Conditions
  import opened Queries
  import opened Aggregates
  import opened Partition
  import Pool

  /** taken is the key set against which evalDuplicate checks. */
  datatype Job =
    | CountJob
    | AggregateJob(a: Agg, fs: seq<nat>)
    | SelectJob
    | DuplicateJob(taken: set<string>)

  /** A task's variables: counter and keys go out through its future, sub is merged under m_mutex. */
  datatype Task = Task(cursor: nat, merged: bool, counter: int, keys: seq<string>, sub: seq<Int32>)

  /** arr, found and queue are the statics int_arr, found and priorityQueue (of row positions). */
  datatype Shared = Shared(tasks: seq<Task>, arr: seq<Int32>, found: bool, queue: multiset<nat>)

  /** junk is what DUPLICATE's `Ret_Dup temp` happens to hold in task i before it is assigned. */
  datatype Plan = Plan(job: Job, conds: seq<QueryCondition>, rows: seq<Row>, flag: bool, junk: seq<int>)

  predicate PlanOk(p: Plan) {
    GRAIN <= |p.rows| && |p.junk| == Tasks(|p.rows|)
  }

  function FirstCounter(p: Plan, i: nat): int {
    if p.job.DuplicateJob? && !p.flag && i < |p.junk| then p.junk[i] else 0
  }

  function FirstSub(p: Plan): seq<Int32> {
    if p.job.AggregateJob? then seq(|p.job.fs|, _ => Unit(p.job.a)) else []
  }

  function Initial(p: Plan): Shared {
    Shared(seq(Tasks(|p.rows|), i requires 0 <= i => Task(Head(|p.rows|, i), false, FirstCounter(p, i), [], FirstSub(p))),
           FirstSub(p), false, multiset{})
  }

  function Added(a: Agg, fs: seq<nat>, sub: seq<Int32>, r: Row): (out: seq<Int32>)
    requires |sub| == |fs|
    ensures TookRow(a, sub, out, fs, r)
  {
    seq(|fs|, j requires 0 <= j < |fs| => Accumulate(a, sub[j], Cell(r, fs[j])))
  }

  /** A task looks at the row under its cursor. */
  function Visit(p: Plan, d: Shared, i: nat): Shared
    requires i < |d.tasks| && d.tasks[i].cursor < |p.rows|
  {
    var t := d.tasks[i].(cursor := d.tasks[i].cursor + 1);
    var r := p.rows[d.tasks[i].cursor];
    if !Matches(p.conds, r) then d.(tasks := d.tasks[i := t])
    else match p.job
      case CountJob => d.(tasks := d.tasks[i := t.(counter := t.counter + 1)])
      case DuplicateJob(taken) =>
        if CanCopy(taken, r.key) then d.(tasks := d.tasks[i := t.(counter := t.counter + 1, keys := t.keys + [r.key])])
        else d.(tasks := d.tasks[i := t])
      case SelectJob => d.(tasks := d.tasks[i := t], queue := d.queue + multiset{d.tasks[i].cursor})
      case AggregateJob(a, fs) =>
        if |t.sub| == |fs| then d.(tasks := d.tasks[i := t.(sub := Added(a, fs, t.sub, r))], found := true) else d
  }

  /** The critical section at the end of a SUM, MIN or MAX task. */
  function Merge(p: Plan, d: Shared, i: nat): Shared
    requires i < |d.tasks| && p.job.AggregateJob?
  {
    var t := d.tasks[i];
    if |d.arr| == |t.sub| then
      d.(arr := seq(|d.arr|, j requires 0 <= j < |d.arr| => Accumulate(p.job.a, d.arr[j], t.sub[j])),
         tasks := d.tasks[i := t.(merged := true)])
    else d
  }

  function Step(p: Plan, d: Shared, i: nat): Shared {
    if i >= |d.tasks| then d
    else if p.flag && d.tasks[i].cursor < Tail(|p.rows|, i) && d.tasks[i].cursor < |p.rows| then Visit(p, d, i)
    else if p.job.AggregateJob? && !d.tasks[i].merged then Merge(p, d, i)
    else d
  }

  function Left(p: Plan, d: Shared, i: nat): nat {
    if i >= |d.tasks| then 0
    else
      (if p.flag && d.tasks[i].cursor < Tail(|p.rows|, i) then Tail(|p.rows|, i) - d.tasks[i].cursor else 0)
      + (if p.job.AggregateJob? && !d.tasks[i].merged then 1 else 0)
  }

  // ---------------------------------------------------------------- what a stretch of rows yields

  lemma {:induction false} CopyKeysConcat(conds: seq<QueryCondition>, taken: set<string>, xs: seq<Row>, ys: seq<Row>)
    ensures CopyKeys(conds, taken, xs + ys) == CopyKeys(conds, taken, xs) + CopyKeys(conds, taken, ys)
  {
    if ys == [] {
      assert xs + ys == xs;
    } else {
      var n := |ys| - 1;
      CopyKeysConcat(conds, taken, xs, ys[..n]);
      assert xs + ys == (xs + ys[..n]) + [ys[n]];
      CopyKeysSnoc(conds, taken, xs + ys[..n], ys[n]);
      Associative(CopyKeys(conds, taken, xs), CopyKeys(conds, taken, ys[..n]), CopyKey(conds, taken, ys[n]));
    }
  }

  lemma CopyKeysJoin(conds: seq<QueryCondition>, taken: set<string>, rows: seq<Row>, lo: nat, hi: nat)
    requires lo <= hi <= |rows|
    ensures CopyKeys(conds, taken, rows[..hi]) == CopyKeys(conds, taken, rows[..lo]) + CopyKeys(conds, taken, rows[lo..hi])
  {
    assert rows[..hi] == rows[..lo] + rows[lo..hi];
    CopyKeysConcat(conds, taken, rows[..lo], rows[lo..hi]);
  }

  lemma Associative(a: seq<string>, b: seq<string>, c: seq<string>)
    ensures (a + b) + c == a + (b + c)
  {
  }

  /** What a task's own variables must hold after the rows in `seen`. */
  ghost predicate Holding(p: Plan, t: Task, seen: seq<Row>) {
    match p.job
    case CountJob => t.counter == CountMatches(p.conds, seen)
    case DuplicateJob(taken) => t.keys == CopyKeys(p.conds, taken, seen) && t.counter == |t.keys|
    case AggregateJob(a, fs) => t.sub == Totals(a, p.conds, fs, seen)
    case SelectJob => true
  }

  ghost predicate RangeOk(p: Plan, d: Shared, i: nat)
    requires PlanOk(p) && i < |d.tasks| == Tasks(|p.rows|)
  {
    RangesTile(|p.rows|, i);
    var t, lo, hi := d.tasks[i], Head(|p.rows|, i), Tail(|p.rows|, i);
    && lo <= t.cursor <= hi
    && (t.merged ==> p.job.AggregateJob?)
    && (if p.flag then (t.merged ==> t.cursor == hi) && Holding(p, t, p.rows[lo..t.cursor])
        else t.cursor == lo && t.counter == FirstCounter(p, i) && t.keys == [] && t.sub == FirstSub(p))
  }

  /** Row r has been looked at. */
  ghost predicate Visited(p: Plan, d: Shared, r: nat)
    requires PlanOk(p) && |d.tasks| == Tasks(|p.rows|)
  {
    r < |p.rows| && (RangesCover(|p.rows|, r); r < d.tasks[Owner(|p.rows|, r)].cursor)
  }

  ghost predicate Hit(p: Plan, d: Shared, r: nat)
    requires PlanOk(p) && |d.tasks| == Tasks(|p.rows|)
  {
    p.flag && Visited(p, d, r) && Matches(p.conds, p.rows[r])
  }

  /** What task i contributes to column f once merged. */
  ghost function Part(p: Plan, i: nat, f: nat): int
    requires PlanOk(p) && i < Tasks(|p.rows|) && p.job.AggregateJob?
    ensures !p.job.a.Sum? ==> InRange(Part(p, i, f))
  {
    RangesTile(|p.rows|, i);
    if p.flag then Column(p.job.a, p.conds, f, p.rows[Head(|p.rows|, i)..Tail(|p.rows|, i)]) else Unit(p.job.a)
  }

  /** The exact aggregate of what the first n tasks have merged so far. */
  ghost function MergedColumn(p: Plan, tasks: seq<Task>, n: nat, f: nat): (x: int)
    requires PlanOk(p) && n <= |tasks| == Tasks(|p.rows|) && p.job.AggregateJob?
    ensures !p.job.a.Sum? ==> InRange(x)
  {
    if n == 0 then Unit(p.job.a)
    else Join(p.job.a, MergedColumn(p, tasks, n - 1, f), if tasks[n - 1].merged then Part(p, n - 1, f) else Unit(p.job.a))
  }

  ghost predicate SharedOk(p: Plan, d: Shared)
    requires PlanOk(p) && |d.tasks| == Tasks(|p.rows|)
  {
    && (forall r: nat :: d.queue[r] == if p.job.SelectJob? && Hit(p, d, r) then 1 else 0)
    && (d.found <==> p.job.AggregateJob? && exists r: nat :: Hit(p, d, r))
    && (p.job.AggregateJob? ==>
          && |d.arr| == |p.job.fs|
          && forall j :: 0 <= j < |p.job.fs| ==> d.arr[j] == Wrap(MergedColumn(p, d.tasks, |d.tasks|, p.job.fs[j])))
  }

  ghost predicate Ok(p: Plan, d: Shared)
    requires PlanOk(p)
  {
    && |d.tasks| == Tasks(|p.rows|)
    && (forall i: nat :: i < |d.tasks| ==> RangeOk(p, d, i))
    && SharedOk(p, d)
  }

  ghost function JobsOf(p: Plan): Pool.Jobs<Shared>
    requires PlanOk(p)
  {
    Pool.Jobs(Tasks(|p.rows|), (d, i) => Step(p, d, i), (d, i) => Left(p, d, i), d => Ok(p, d))
  }

  // ---------------------------------------------------------------- every step keeps it

  lemma {:induction false} NothingMerged(p: Plan, tasks: seq<Task>, n: nat, f: nat)
    requires PlanOk(p) && n <= |tasks| == Tasks(|p.rows|) && p.job.AggregateJob?
    requires forall i :: 0 <= i < n ==> !tasks[i].merged
    ensures MergedColumn(p, tasks, n, f) == Unit(p.job.a)
  {
    if n > 0 {
      NothingMerged(p, tasks, n - 1, f);
    }
  }

  lemma InitialOk(p: Plan)
    requires PlanOk(p)
    ensures Ok(p, Initial(p))
  {
    var d := Initial(p);
    forall i: nat | i < |d.tasks| ensures RangeOk(p, d, i) {
      RangesTile(|p.rows|, i);
      var lo := Head(|p.rows|, i);
      assert p.rows[lo..lo] == [];
      if p.job.AggregateJob? {
        TotalsNone(p.job.a, p.conds, p.job.fs, []);
      }
    }
    forall r: nat ensures !Hit(p, d, r) {
      if r < |p.rows| {
        RangesCover(|p.rows|, r);
      }
    }
    if p.job.AggregateJob? {
      forall j | 0 <= j < |p.job.fs| ensures d.arr[j] == Wrap(MergedColumn(p, d.tasks, |d.tasks|, p.job.fs[j])) {
        NothingMerged(p, d.tasks, |d.tasks|, p.job.fs[j]);
      }
    }
  }

  /** The mutex-guarded merge adds exactly the task's part, wherever the task stands in line. */
  lemma {:induction false} MergeAdds(p: Plan, tasks: seq<Task>, i: nat, n: nat, f: nat)
    requires PlanOk(p) && n <= |tasks| == Tasks(|p.rows|) && p.job.AggregateJob?
    requires i < |tasks| && !tasks[i].merged
    ensures MergedColumn(p, tasks[i := tasks[i].(merged := true)], n, f) ==
      if i < n then Join(p.job.a, MergedColumn(p, tasks, n, f), Part(p, i, f)) else MergedColumn(p, tasks, n, f)
  {
    if n > 0 {
      MergeAdds(p, tasks, i, n - 1, f);
    }
  }

  lemma {:induction false} MergedSame(p: Plan, tasks: seq<Task>, i: nat, t: Task, n: nat, f: nat)
    requires PlanOk(p) && n <= |tasks| == Tasks(|p.rows|) && p.job.AggregateJob?
    requires i < |tasks| && t.merged == tasks[i].merged
    ensures MergedColumn(p, tasks[i := t], n, f) == MergedColumn(p, tasks, n, f)
  {
    if n > 0 {
      MergedSame(p, tasks, i, t, n - 1, f);
    }
  }

  lemma VisitHolding(p: Plan, d: Shared, i: nat, seen: seq<Row>, more: seq<Row>)
    requires i < |d.tasks| && d.tasks[i].cursor < |p.rows| && Holding(p, d.tasks[i], seen)
    requires more == seen + [p.rows[d.tasks[i].cursor]]
    ensures |Visit(p, d, i).tasks| == |d.tasks|
    ensures Holding(p, Visit(p, d, i).tasks[i], more)
  {
    var r := p.rows[d.tasks[i].cursor];
    CountSnoc(p.conds, seen, r);
    match p.job
    case DuplicateJob(taken) => CopyKeysSnoc(p.conds, taken, seen, r);
    case AggregateJob(a, fs) =>
      if Matches(p.conds, r) {
        TotalsSnoc(a, p.conds, fs, seen, r, Added(a, fs, d.tasks[i].sub, r));
      } else {
        TotalsSkip(a, p.conds, fs, seen, r);
      }
    case _ =>
  }

  /** The step is a visit: the task is short of its tail. */
  predicate Visiting(p: Plan, d: Shared, i: nat) {
    i < |d.tasks| && p.flag && d.tasks[i].cursor < Tail(|p.rows|, i) && d.tasks[i].cursor < |p.rows|
  }

  lemma VisitFrame(p: Plan, d: Shared, i: nat)
    requires Visiting(p, d, i) && (p.job.AggregateJob? ==> |d.tasks[i].sub| == |p.job.fs|)
    ensures var d' := Step(p, d, i);
      && d' == Visit(p, d, i) && |d'.tasks| == |d.tasks| && d'.arr == d.arr
      && d'.tasks[i].cursor == d.tasks[i].cursor + 1 && d'.tasks[i].merged == d.tasks[i].merged
      && d'.tasks == d.tasks[i := d'.tasks[i]]
  {
  }

  lemma VisitRange(p: Plan, d: Shared, i: nat)
    requires PlanOk(p) && Ok(p, d) && Visiting(p, d, i)
    ensures var d' := Step(p, d, i);
      && |d'.tasks| == |d.tasks| && d'.arr == d.arr
      && d'.tasks[i].cursor == d.tasks[i].cursor + 1 && d'.tasks[i].merged == d.tasks[i].merged == false
      && d'.tasks == d.tasks[i := d'.tasks[i]]
      && RangeOk(p, d', i)
  {
    assert RangeOk(p, d, i);
    RangesTile(|p.rows|, i);
    VisitFrame(p, d, i);
    VisitHolds(p, d, i, Head(|p.rows|, i));
  }

  lemma VisitHolds(p: Plan, d: Shared, i: nat, lo: nat)
    requires Visiting(p, d, i) && lo <= d.tasks[i].cursor && Holding(p, d.tasks[i], p.rows[lo..d.tasks[i].cursor])
    ensures |Visit(p, d, i).tasks| == |d.tasks|
    ensures Holding(p, Visit(p, d, i).tasks[i], p.rows[lo..d.tasks[i].cursor + 1])
  {
    var c := d.tasks[i].cursor;
    SliceSnoc(p.rows, lo, c);
    VisitHolding(p, d, i, p.rows[lo..c], p.rows[lo..c + 1]);
  }

  /** Of all rows, exactly the one under the cursor becomes visited. */
  lemma VisitedNext(p: Plan, d: Shared, i: nat, d': Shared, r: nat)
    requires PlanOk(p) && Ok(p, d) && Visiting(p, d, i)
    requires |d'.tasks| == |d.tasks| && d'.tasks == d.tasks[i := d'.tasks[i]]
    requires d'.tasks[i].cursor == d.tasks[i].cursor + 1
    ensures Visited(p, d', r) <==> Visited(p, d, r) || r == d.tasks[i].cursor
    ensures !Visited(p, d, d.tasks[i].cursor)
  {
    var c := d.tasks[i].cursor;
    assert RangeOk(p, d, i);
    RangesTile(|p.rows|, i);
    RangesCover(|p.rows|, c);
    if r < |p.rows| {
      RangesCover(|p.rows|, r);
    }
  }

  lemma VisitShared(p: Plan, d: Shared, i: nat)
    requires PlanOk(p) && Ok(p, d) && Visiting(p, d, i)
    ensures |Step(p, d, i).tasks| == |d.tasks| && SharedOk(p, Step(p, d, i))
  {
    VisitRange(p, d, i);
    var d', c := Step(p, d, i), d.tasks[i].cursor;
    forall r: nat ensures Hit(p, d', r) <==> Hit(p, d, r) || (r == c && Matches(p.conds, p.rows[c])) {
      VisitedNext(p, d, i, d', r);
    }
    VisitedNext(p, d, i, d', c);
    if Matches(p.conds, p.rows[c]) {
      assert Hit(p, d', c);
    }
    if p.job.AggregateJob? {
      assert RangeOk(p, d, i);
      forall j | 0 <= j < |p.job.fs| ensures d'.arr[j] == Wrap(MergedColumn(p, d'.tasks, |d'.tasks|, p.job.fs[j])) {
        MergedSame(p, d.tasks, i, d'.tasks[i], |d.tasks|, p.job.fs[j]);
      }
    }
  }

  lemma MergeShared(p: Plan, d: Shared, i: nat)
    requires PlanOk(p) && Ok(p, d) && i < |d.tasks| && !Visiting(p, d, i) && p.job.AggregateJob? && !d.tasks[i].merged
    ensures Step(p, d, i) == Merge(p, d, i)
    ensures Step(p, d, i).tasks == d.tasks[i := d.tasks[i].(merged := true)]
    ensures RangeOk(p, Step(p, d, i), i) && SharedOk(p, Step(p, d, i))
  {
    var d', a, fs := Step(p, d, i), p.job.a, p.job.fs;
    assert RangeOk(p, d, i);
    RangesTile(|p.rows|, i);
    var t := d.tasks[i];
    forall r: nat ensures Hit(p, d', r) <==> Hit(p, d, r) {
      if r < |p.rows| {
        RangesCover(|p.rows|, r);
      }
    }
    forall j | 0 <= j < |fs| ensures d'.arr[j] == Wrap(MergedColumn(p, d'.tasks, |d'.tasks|, fs[j])) {
      assert t.sub[j] == Wrap(Part(p, i, fs[j]));
      MergeExact(a, MergedColumn(p, d.tasks, |d.tasks|, fs[j]), Part(p, i, fs[j]));
      MergeAdds(p, d.tasks, i, |d.tasks|, fs[j]);
    }
  }

  lemma StepOk(p: Plan, d: Shared, i: nat)
    requires PlanOk(p) && Ok(p, d) && i < |d.tasks| && Left(p, d, i) > 0
    ensures Ok(p, Step(p, d, i))
    ensures Left(p, Step(p, d, i), i) < Left(p, d, i)
    ensures forall k: nat :: k < |d.tasks| && k != i ==> Left(p, Step(p, d, i), k) == Left(p, d, k)
  {
    var d' := Step(p, d, i);
    RangesTile(|p.rows|, i);
    if Visiting(p, d, i) {
      VisitRange(p, d, i);
      VisitShared(p, d, i);
    } else {
      MergeShared(p, d, i);
    }
    forall k: nat | k < |d'.tasks| ensures RangeOk(p, d', k) {
      assert RangeOk(p, d, k);
    }
  }

  lemma JobsIndependent(p: Plan)
    requires PlanOk(p)
    ensures Pool.Independent(JobsOf(p))
  {
    var j := JobsOf(p);
    forall d: Shared, i: nat | j.ok(d) && i < j.count && j.left(d, i) > 0
      ensures j.ok(j.step(d, i)) && j.left(j.step(d, i), i) < j.left(d, i)
      ensures forall k: nat :: k < j.count && k != i ==> j.left(j.step(d, i), k) == j.left(d, k)
    {
      StepOk(p, d, i);
    }
  }

  // ---------------------------------------------------------------- all tasks together

  function SumCounters(tasks: seq<Task>, n: nat): int
    requires n <= |tasks|
  {
    if n == 0 then 0 else SumCounters(tasks, n - 1) + tasks[n - 1].counter
  }

  /** keys grows by each future's sub_keys, in submit order. */
  function AllKeys(tasks: seq<Task>, n: nat): seq<string>
    requires n <= |tasks|
  {
    if n == 0 then [] else AllKeys(tasks, n - 1) + tasks[n - 1].keys
  }

  function SumFirst(p: Plan, n: nat): int {
    if n == 0 then 0 else SumFirst(p, n - 1) + FirstCounter(p, n - 1)
  }

  ghost predicate AllLeftZero(p: Plan, d: Shared)
    requires PlanOk(p)
  {
    Ok(p, d) && forall i: nat :: i < |d.tasks| ==> Left(p, d, i) == 0
  }

  /** A finished task has looked at its whole range and, if it merges, has merged. */
  lemma TaskEnded(p: Plan, d: Shared, i: nat)
    requires PlanOk(p) && AllLeftZero(p, d) && i < |d.tasks|
    ensures p.flag ==> d.tasks[i].cursor == Tail(|p.rows|, i)
    ensures Head(|p.rows|, i) <= Tail(|p.rows|, i) <= |p.rows|
    ensures p.flag ==> Holding(p, d.tasks[i], p.rows[Head(|p.rows|, i)..Tail(|p.rows|, i)])
    ensures p.job.AggregateJob? ==> d.tasks[i].merged
  {
    assert RangeOk(p, d, i) && Left(p, d, i) == 0;
    RangesTile(|p.rows|, i);
  }

  lemma CountersNext(p: Plan, d: Shared, n: nat)
    requires PlanOk(p) && AllLeftZero(p, d) && p.flag && p.job.CountJob? && n < |d.tasks|
    ensures Ended(|p.rows|, n) <= Ended(|p.rows|, n + 1) <= |p.rows|
    ensures CountMatches(p.conds, p.rows[..Ended(|p.rows|, n + 1)]) ==
      CountMatches(p.conds, p.rows[..Ended(|p.rows|, n)]) + d.tasks[n].counter
  {
    EndedNext(|p.rows|, n);
    TaskEnded(p, d, n);
    CountJoin(p.conds, p.rows, Ended(|p.rows|, n), Ended(|p.rows|, n + 1));
  }

  lemma {:induction false} CountersAddUp(p: Plan, d: Shared, n: nat)
    requires PlanOk(p) && AllLeftZero(p, d) && p.flag && p.job.CountJob? && n <= |d.tasks|
    ensures Ended(|p.rows|, n) <= |p.rows|
    ensures SumCounters(d.tasks, n) == CountMatches(p.conds, p.rows[..Ended(|p.rows|, n)])
  {
    if n > 0 {
      CountersAddUp(p, d, n - 1);
      CountersNext(p, d, n - 1);
    }
  }

  lemma KeysNext(p: Plan, d: Shared, n: nat)
    requires PlanOk(p) && AllLeftZero(p, d) && p.flag && p.job.DuplicateJob? && n < |d.tasks|
    ensures Ended(|p.rows|, n) <= Ended(|p.rows|, n + 1) <= |p.rows|
    ensures CopyKeys(p.conds, p.job.taken, p.rows[..Ended(|p.rows|, n + 1)]) ==
      CopyKeys(p.conds, p.job.taken, p.rows[..Ended(|p.rows|, n)]) + d.tasks[n].keys
    ensures d.tasks[n].counter == |d.tasks[n].keys|
  {
    EndedNext(|p.rows|, n);
    TaskEnded(p, d, n);
    CopyKeysJoin(p.conds, p.job.taken, p.rows, Ended(|p.rows|, n), Ended(|p.rows|, n + 1));
  }

  lemma {:induction false} KeysAddUp(p: Plan, d: Shared, n: nat)
    requires PlanOk(p) && AllLeftZero(p, d) && p.flag && p.job.DuplicateJob? && n <= |d.tasks|
    ensures Ended(|p.rows|, n) <= |p.rows|
    ensures AllKeys(d.tasks, n) == CopyKeys(p.conds, p.job.taken, p.rows[..Ended(|p.rows|, n)])
    ensures SumCounters(d.tasks, n) == |AllKeys(d.tasks, n)|
  {
    if n > 0 {
      KeysAddUp(p, d, n - 1);
      KeysNext(p, d, n - 1);
    }
  }

  lemma PartsNext(p: Plan, d: Shared, n: nat, f: nat)
    requires PlanOk(p) && AllLeftZero(p, d) && p.job.AggregateJob? && n < |d.tasks|
    ensures d.tasks[n].merged && Ended(|p.rows|, n) <= Ended(|p.rows|, n + 1) <= |p.rows|
    ensures p.flag ==> (Column(p.job.a, p.conds, f, p.rows[..Ended(|p.rows|, n + 1)]) ==
      Join(p.job.a, Column(p.job.a, p.conds, f, p.rows[..Ended(|p.rows|, n)]), Part(p, n, f)))
  {
    EndedNext(|p.rows|, n);
    TaskEnded(p, d, n);
    ColumnJoin(p.job.a, p.conds, f, p.rows, Ended(|p.rows|, n), Ended(|p.rows|, n + 1));
  }

  lemma {:induction false} PartsAddUp(p: Plan, d: Shared, n: nat, f: nat)
    requires PlanOk(p) && AllLeftZero(p, d) && p.job.AggregateJob? && n <= |d.tasks|
    ensures Ended(|p.rows|, n) <= |p.rows|
    ensures MergedColumn(p, d.tasks, n, f) ==
      if p.flag then Column(p.job.a, p.conds, f, p.rows[..Ended(|p.rows|, n)]) else Unit(p.job.a)
  {
    if n > 0 {
      PartsAddUp(p, d, n - 1, f);
      PartsNext(p, d, n - 1, f);
    }
  }

  /** In a state with nothing left to do, every row has been looked at. */
  lemma AllHit(p: Plan, d: Shared, r: nat)
    requires PlanOk(p) && AllLeftZero(p, d) && r < |p.rows|
    ensures Hit(p, d, r) <==> p.flag && Matches(p.conds, p.rows[r])
  {
    RangesCover(|p.rows|, r);
    TaskEnded(p, d, Owner(|p.rows|, r));
  }

  /** A run of the pool that has collected every future. */
  ghost predicate RunsTo(p: Plan, s0: Pool.Pool<Shared>, es: seq<Pool.Event>, d: Shared)
    requires PlanOk(p)
  {
    && Pool.Start(JobsOf(p), Initial(p), s0) && Pool.Legal(JobsOf(p), s0, es)
    && Pool.After(JobsOf(p), s0, es).collected == Tasks(|p.rows|)
    && Pool.After(JobsOf(p), s0, es).data == d
  }

  lemma RunEnds(p: Plan, s0: Pool.Pool<Shared>, es: seq<Pool.Event>, d: Shared)
    requires PlanOk(p) && RunsTo(p, s0, es, d)
    ensures AllLeftZero(p, d)
  {
    var j := JobsOf(p);
    JobsIndependent(p);
    Pool.Completed(j, Initial(p), s0, es);
    forall i: nat | i < |d.tasks| ensures Left(p, d, i) == 0 {
      assert j.left(d, i) == 0;
    }
  }

  /** Such a run exists, so the statements below are about something. */
  lemma SomeRun(p: Plan) returns (s0: Pool.Pool<Shared>, es: seq<Pool.Event>)
    requires PlanOk(p)
    ensures Pool.Legal(JobsOf(p), s0, es) && RunsTo(p, s0, es, Pool.After(JobsOf(p), s0, es).data)
  {
    s0 := Pool.PoolSet(2, Initial(p));
    InitialOk(p);
    JobsIndependent(p);
    Pool.PoolSetStarts(JobsOf(p), Initial(p), 2);
    Pool.StartInv(JobsOf(p), Initial(p), s0);
    es := Pool.CompletingRun(JobsOf(p), Initial(p), s0);
  }

  /** COUNT: the sum of the futures is the count of the sequential loop. */
  lemma ParallelCount(p: Plan, s0: Pool.Pool<Shared>, es: seq<Pool.Event>, d: Shared)
    requires PlanOk(p) && RunsTo(p, s0, es, d) && p.job.CountJob?
    ensures SumCounters(d.tasks, |d.tasks|) == if p.flag then CountMatches(p.conds, p.rows) else 0
  {
    RunEnds(p, s0, es, d);
    var n := |d.tasks|;
    if p.flag {
      CountersAddUp(p, d, n);
      EndedNext(|p.rows|, n - 1);
      assert p.rows[..|p.rows|] == p.rows;
    } else {
      UntouchedCounters(p, d, n);
      ZeroJunk(p, n);
    }
  }

  lemma {:induction false} UntouchedCounters(p: Plan, d: Shared, n: nat)
    requires PlanOk(p) && Ok(p, d) && !p.flag && n <= |d.tasks|
    ensures SumCounters(d.tasks, n) == SumFirst(p, n)
    ensures AllKeys(d.tasks, n) == []
  {
    if n > 0 {
      UntouchedCounters(p, d, n - 1);
      assert RangeOk(p, d, n - 1);
    }
  }

  lemma {:induction false} ZeroJunk(p: Plan, n: nat)
    requires !p.job.DuplicateJob?
    ensures SumFirst(p, n) == 0
  {
    if n > 0 {
      ZeroJunk(p, n - 1);
    }
  }

  /** SUM, MIN and MAX: whatever the order of the tasks, the merged array is that of the sequential
      scan, and `found` tells whether any row matches. */
  lemma ParallelAggregate(p: Plan, s0: Pool.Pool<Shared>, es: seq<Pool.Event>, d: Shared)
    requires PlanOk(p) && RunsTo(p, s0, es, d) && p.job.AggregateJob?
    ensures d.arr == if p.flag then Totals(p.job.a, p.conds, p.job.fs, p.rows) else Units(p.job.a, |p.job.fs|)
    ensures d.found <==> p.flag && CountMatches(p.conds, p.rows) > 0
  {
    RunEnds(p, s0, es, d);
    var n := |d.tasks|;
    EndedNext(|p.rows|, n - 1);
    assert p.rows[..|p.rows|] == p.rows;
    forall j | 0 <= j < |p.job.fs|
      ensures d.arr[j] == Wrap(if p.flag then Column(p.job.a, p.conds, p.job.fs[j], p.rows) else Unit(p.job.a))
    {
      PartsAddUp(p, d, n, p.job.fs[j]);
    }
    forall r: nat | r < |p.rows| ensures Hit(p, d, r) <==> p.flag && Matches(p.conds, p.rows[r]) {
      AllHit(p, d, r);
    }
    CountNone(p.conds, p.rows);
  }

  /** SELECT: the shared queue holds every matching row exactly once and nothing else. */
  lemma ParallelSelect(p: Plan, s0: Pool.Pool<Shared>, es: seq<Pool.Event>, d: Shared)
    requires PlanOk(p) && RunsTo(p, s0, es, d) && p.job.SelectJob?
    ensures forall r: nat :: d.queue[r] == if r < |p.rows| && p.flag && Matches(p.conds, p.rows[r]) then 1 else 0
  {
    RunEnds(p, s0, es, d);
    forall r: nat ensures Hit(p, d, r) <==> r < |p.rows| && p.flag && Matches(p.conds, p.rows[r]) {
      if r < |p.rows| {
        AllHit(p, d, r);
      }
    }
  }

  /** DUPLICATE's collecting phase: the keys of the sequential loop in its order; the count too,
      provided the flag was true. */
  lemma ParallelDuplicate(p: Plan, s0: Pool.Pool<Shared>, es: seq<Pool.Event>, d: Shared)
    requires PlanOk(p) && RunsTo(p, s0, es, d) && p.job.DuplicateJob?
    ensures AllKeys(d.tasks, |d.tasks|) == if p.flag then CopyKeys(p.conds, p.job.taken, p.rows) else []
    ensures SumCounters(d.tasks, |d.tasks|) == if p.flag then |AllKeys(d.tasks, |d.tasks|)| else SumFirst(p, |d.tasks|)
  {
    RunEnds(p, s0, es, d);
    var n := |d.tasks|;
    if p.flag {
      KeysAddUp(p, d, n);
      EndedNext(|p.rows|, n - 1);
      assert p.rows[..|p.rows|] == p.rows;
    } else {
      UntouchedCounters(p, d, n);
    }
  }

  // ---------------------------------------------------------------- no overflow

  predicate IsSum(p: Plan) {
    p.job.AggregateJob? && p.job.a.Sum?
  }

  /** The int additions of the step task i takes next, each on exact operands. */
  ghost predicate AdditionsFit(p: Plan, d: Shared, i: nat)
    requires i < |d.tasks| && p.job.AggregateJob?
  {
    && (Visiting(p, d, i) && Matches(p.conds, p.rows[d.tasks[i].cursor]) ==>
          forall j :: 0 <= j < |p.job.fs| && j < |d.tasks[i].sub| ==>
            Fits(d.tasks[i].sub[j], Cell(p.rows[d.tasks[i].cursor], p.job.fs[j])))
    && (!Visiting(p, d, i) && !d.tasks[i].merged ==>
          forall j :: 0 <= j < |d.arr| && j < |d.tasks[i].sub| ==> Fits(d.arr[j], d.tasks[i].sub[j]))
  }

  /** The absolute values in the first n ranges. */
  ghost function Budget(p: Plan, n: nat, f: nat): nat
    requires PlanOk(p) && n <= Tasks(|p.rows|)
  {
    if n == 0 then 0 else EndedNext(|p.rows|, n - 1); AbsColumn(p.conds, f, p.rows[..Ended(|p.rows|, n)])
  }

  lemma BudgetNext(p: Plan, n: nat, f: nat)
    requires PlanOk(p) && IsSum(p) && p.flag && n < Tasks(|p.rows|)
    ensures Budget(p, n, f) + Abs(Part(p, n, f)) <= Budget(p, n + 1, f)
  {
    EndedNext(|p.rows|, n);
    var lo, hi := Ended(|p.rows|, n), Ended(|p.rows|, n + 1);
    AbsJoin(p.conds, f, p.rows, lo, hi);
    SumWithinAbs(p.conds, f, p.rows[lo..hi]);
  }

  lemma {:induction false} MergedWithinAbs(p: Plan, tasks: seq<Task>, n: nat, f: nat, skip: nat)
    requires PlanOk(p) && n <= |tasks| == Tasks(|p.rows|) && IsSum(p) && p.flag
    requires skip < |tasks| && !tasks[skip].merged
    ensures Abs(MergedColumn(p, tasks, n, f)) + (if skip < n then Abs(Part(p, skip, f)) else 0) <= Budget(p, n, f)
  {
    if n > 0 {
      MergedWithinAbs(p, tasks, n - 1, f, skip);
      BudgetNext(p, n - 1, f);
    }
  }

  lemma VisitFits(p: Plan, d: Shared, i: nat, j: nat)
    requires PlanOk(p) && Ok(p, d) && Visiting(p, d, i) && IsSum(p) && j < |p.job.fs|
    requires AbsColumn(p.conds, p.job.fs[j], p.rows) <= INT_MAX
    requires Matches(p.conds, p.rows[d.tasks[i].cursor])
    ensures |d.tasks[i].sub| == |p.job.fs|
    ensures Fits(d.tasks[i].sub[j], Cell(p.rows[d.tasks[i].cursor], p.job.fs[j]))
  {
    assert RangeOk(p, d, i);
    RangesTile(|p.rows|, i);
    AdditionFits(p.conds, p.job.fs[j], p.rows, Head(|p.rows|, i), d.tasks[i].cursor);
  }

  lemma MergeFits(p: Plan, d: Shared, i: nat, j: nat)
    requires PlanOk(p) && Ok(p, d) && IsSum(p) && j < |p.job.fs| && p.flag
    requires i < |d.tasks| && !Visiting(p, d, i) && !d.tasks[i].merged
    requires AbsColumn(p.conds, p.job.fs[j], p.rows) <= INT_MAX
    ensures |d.tasks[i].sub| == |p.job.fs|
    ensures Fits(d.arr[j], d.tasks[i].sub[j])
  {
    assert RangeOk(p, d, i);
    RangesTile(|p.rows|, i);
    var n, f := |d.tasks|, p.job.fs[j];
    MergedWithinAbs(p, d.tasks, n, f, i);
    EndedNext(|p.rows|, n - 1);
    assert p.rows[..|p.rows|] == p.rows;
    assert d.tasks[i].sub[j] == Wrap(Part(p, i, f));
  }

  lemma {:induction false} NothingToAdd(p: Plan, tasks: seq<Task>, n: nat, f: nat)
    requires PlanOk(p) && n <= |tasks| == Tasks(|p.rows|) && IsSum(p) && !p.flag
    ensures MergedColumn(p, tasks, n, f) == 0
  {
    if n > 0 {
      NothingToAdd(p, tasks, n - 1, f);
    }
  }

  lemma NextAdditionsFit(p: Plan, d: Shared, i: nat)
    requires PlanOk(p) && Ok(p, d) && i < |d.tasks| && IsSum(p)
    requires forall j :: 0 <= j < |p.job.fs| ==> AbsColumn(p.conds, p.job.fs[j], p.rows) <= INT_MAX
    ensures AdditionsFit(p, d, i)
  {
    assert RangeOk(p, d, i);
    forall j: nat | j < |p.job.fs| && Visiting(p, d, i) && Matches(p.conds, p.rows[d.tasks[i].cursor])
      ensures j < |d.tasks[i].sub| ==> Fits(d.tasks[i].sub[j], Cell(p.rows[d.tasks[i].cursor], p.job.fs[j]))
    {
      VisitFits(p, d, i, j);
    }
    forall j: nat | j < |d.arr| && !Visiting(p, d, i) && !d.tasks[i].merged
      ensures j < |d.tasks[i].sub| ==> Fits(d.arr[j], d.tasks[i].sub[j])
    {
      if p.flag {
        MergeFits(p, d, i, j);
      } else {
        NothingToAdd(p, d.tasks, |d.tasks|, p.job.fs[j]);
      }
    }
  }

  /** If for every operand the absolute values of the matched cells add up to at most INT_MAX, then
      in no state that any run reaches does an addition of SUM leave the range of int. */
  lemma SumNeverOverflows(p: Plan, s0: Pool.Pool<Shared>, es: seq<Pool.Event>, i: nat)
    requires PlanOk(p) && IsSum(p) && i < Tasks(|p.rows|)
    requires Pool.Start(JobsOf(p), Initial(p), s0) && Pool.Legal(JobsOf(p), s0, es)
    requires forall j :: 0 <= j < |p.job.fs| ==> AbsColumn(p.conds, p.job.fs[j], p.rows) <= INT_MAX
    ensures var d := Pool.After(JobsOf(p), s0, es).data;
      |d.tasks| == Tasks(|p.rows|) && AdditionsFit(p, d, i)
  {
    JobsIndependent(p);
    Pool.StartInv(JobsOf(p), Initial(p), s0);
    Pool.RunInv(JobsOf(p), Initial(p), s0, es);
    var d := Pool.After(JobsOf(p), s0, es).data;
    assert JobsOf(p).ok(d);
    NextAdditionsFit(p, d, i);
  }
}
