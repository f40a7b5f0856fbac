/** The two paths of execute(): what the pool may do, and that it is what the loop does. */
module Paths {
  import opened Values
  import opened Conditions
  import opened Tables
  import opened Queries
  import opened Rewrites
  import opened Aggregates
  import opened Selects
  import opened Changes
  import opened Commands
  import opened Partition
  import Pool
  import PR = ParallelRewrites
  import PS = ParallelScans

  // ---------------------------------------------------------------- when the pool may be used

  /** What the query looks like when Thread_count() may send it to the pool: a table large enough, and
      nothing that execute() refuses before. Operands are fields, which the code does not check, and
      DUPLICATE has a true flag, without which its counters are never set. */
  predicate PoolPath(fm: FieldMap, c: Command, rows: seq<Row>) {
    && GRAIN <= |rows|
    && match c
       case Rewrite(kind, operands, conds) => Init(fm, conds).1.Flag? && ArityOk(kind, operands) && Known(fm, operands)
       case Count(operands, conds) => Init(fm, conds).1.Flag? && operands == []
       case Aggregate(_, operands, conds) => Init(fm, conds).1.Flag? && operands != [] && Known(fm, operands)
       case Select(_, conds) => Init(fm, conds).1.Flag?
       case Duplicate(operands, conds) => Init(fm, conds).1.Flag? && Init(fm, conds).1.flag && operands == []
       case _ => false
  }

  function RewritePlan(fm: FieldMap, c: Command, rows: seq<Row>): PR.Plan
    requires PoolPath(fm, c, rows) && c.Rewrite?
  {
    var (cs, init) := Init(fm, c.conds);
    PR.Plan(cs, KernelOf(c.kind, fm, c.operands), init.flag, |rows|)
  }

  function JobOf(fm: FieldMap, c: Command, rows: seq<Row>): PS.Job
    requires PoolPath(fm, c, rows) && !c.Rewrite?
  {
    match c
    case Count(_, _) => PS.CountJob
    case Aggregate(g, operands, _) => PS.AggregateJob(g, Positions(fm, operands))
    case Select(_, _) => PS.SelectJob
    case Duplicate(_, _) => PS.DuplicateJob(Keys(rows))
  }

  function ScanPlan(fm: FieldMap, c: Command, rows: seq<Row>, junk: seq<int>): PS.Plan
    requires PoolPath(fm, c, rows) && !c.Rewrite?
  {
    var (cs, init) := Init(fm, c.conds);
    PS.Plan(JobOf(fm, c, rows), cs, rows, init.flag, junk)
  }

  // ---------------------------------------------------------------- what execute() does with a run

  /** Some run of the pool over the plan ends in d with every future collected. */
  ghost predicate RewriteRan(p: PR.Plan, rows: seq<Row>, d: PR.Shared) {
    PR.PlanOk(p) && exists s0, es :: PR.RunsTo(p, rows, s0, es, d)
  }

  ghost predicate Ran(p: PS.Plan, d: PS.Shared) {
    PS.PlanOk(p) && exists s0, es :: PS.RunsTo(p, s0, es, d)
  }

  /** The second half of SELECT on whatever is in the shared queue. */
  ghost predicate QueueAnswered(fm: FieldMap, operands: seq<string>, rows: seq<Row>, q: multiset<nat>, a: Answer) {
    if |q| == 0 then a == Null
    else if !Printable(fm, operands) then a == Failed
    else exists order :: Drained(rows, q, multiset{}, order) && a == Listing(Lines(fm, operands, RowsAt(rows, order)))
  }

  /** The second half of DUPLICATE on whatever the futures brought; a conflict or a missing row in the
      inserting loop fails, and may leave anything. */
  ghost predicate KeysCopied(s: Contents, keys: seq<string>, count: int, t: Contents, a: Answer) {
    match CopyAll(s, keys)
    case Some(u) => t == u && a == Affected(count)
    case None => a == Failed
  }

  /** What execute() makes of the state in which a run of the reading tasks left the shared data. */
  ghost predicate Finish(fm: FieldMap, c: Command, s: Contents, d: PS.Shared, t: Contents, a: Answer) {
    match c
    case Count(_, _) => t == s && a == Number(PS.SumCounters(d.tasks, |d.tasks|))
    case Aggregate(g, _, _) => t == s && a == if d.found || g.Sum? then Answer.Values(d.arr) else Null
    case Select(operands, _) => t == s && QueueAnswered(fm, operands, s.data, d.queue, a)
    case Duplicate(_, _) => KeysCopied(s, PS.AllKeys(d.tasks, |d.tasks|), PS.SumCounters(d.tasks, |d.tasks|), t, a)
    case _ => false
  }

  /** What the pool may do to vector and index, and answer, when a query is sent there. The tasks of
      ADD, SUB and SWAP write cells alone. */
  ghost predicate ParallelStep(fm: FieldMap, c: Command, s: Contents, t: Contents, a: Answer) {
    && PoolPath(fm, c, s.data)
    && if c.Rewrite? then
         exists d :: RewriteRan(RewritePlan(fm, c, s.data), s.data, d)
           && t == Contents(d.rows, s.keyMap) && a == Affected(PR.SumCounters(d.tasks, |d.tasks|))
       else
         exists junk, d :: Ran(ScanPlan(fm, c, s.data, junk), d) && Finish(fm, c, s, d, t, a)
  }

  // ---------------------------------------------------------------- the paths agree

  lemma RewritePathsAgree(fm: FieldMap, c: Command, s: Contents, d: PR.Shared)
    requires c.Rewrite? && PoolPath(fm, c, s.data) && UniqueKeys(s.data) && RewriteRan(RewritePlan(fm, c, s.data), s.data, d)
    ensures (Contents(d.rows, s.keyMap), Affected(PR.SumCounters(d.tasks, |d.tasks|))) == Sequential(fm, c, s)
  {
    var p := RewritePlan(fm, c, s.data);
    var s0, es :| PR.RunsTo(p, s.data, s0, es, d);
    PR.ParallelRewrite(p, s.data, s0, es, d);
  }

  lemma CountPathsAgree(fm: FieldMap, c: Command, s: Contents, junk: seq<int>, d: PS.Shared)
    requires c.Count? && PoolPath(fm, c, s.data) && UniqueKeys(s.data) && Ran(ScanPlan(fm, c, s.data, junk), d)
    ensures (s, Number(PS.SumCounters(d.tasks, |d.tasks|))) == Sequential(fm, c, s)
  {
    var p := ScanPlan(fm, c, s.data, junk);
    var s0, es :| PS.RunsTo(p, s0, es, d);
    PS.ParallelCount(p, s0, es, d);
  }

  lemma AggregateRan(p: PS.Plan, d: PS.Shared)
    requires p.job.AggregateJob? && Ran(p, d)
    ensures d.arr == if p.flag && CountMatches(p.conds, p.rows) > 0 then Totals(p.job.a, p.conds, p.job.fs, p.rows)
                     else Units(p.job.a, |p.job.fs|)
    ensures d.found <==> p.flag && CountMatches(p.conds, p.rows) > 0
  {
    var s0, es :| PS.RunsTo(p, s0, es, d);
    PS.ParallelAggregate(p, s0, es, d);
    if CountMatches(p.conds, p.rows) == 0 {
      TotalsNone(p.job.a, p.conds, p.job.fs, p.rows);
    }
  }

  lemma AggregatePathsAgree(fm: FieldMap, c: Command, s: Contents, junk: seq<int>, d: PS.Shared)
    requires c.Aggregate? && PoolPath(fm, c, s.data) && UniqueKeys(s.data) && Ran(ScanPlan(fm, c, s.data, junk), d)
    ensures (s, if d.found || c.a.Sum? then Answer.Values(d.arr) else Null) == Sequential(fm, c, s)
  {
    AggregateRan(ScanPlan(fm, c, s.data, junk), d);
  }

  lemma SelectRan(p: PS.Plan, d: PS.Shared)
    requires p.job.SelectJob? && Ran(p, d)
    ensures forall r: nat :: d.queue[r] == if p.flag && r < |p.rows| && Matches(p.conds, p.rows[r]) then 1 else 0
  {
    var s0, es :| PS.RunsTo(p, s0, es, d);
    PS.ParallelSelect(p, s0, es, d);
  }

  /** What every complete run of SELECT leaves in the queue is answered like the sequential one, in
      whatever order the queue gives it back. */
  lemma SelectAnswers(cs: seq<QueryCondition>, init: InitResult, fm: FieldMap, operands: seq<string>, rows: seq<Row>,
                      q: multiset<nat>, a: Answer)
    requires UniqueKeys(rows) && QueueAnswered(fm, operands, rows, q, a)
    requires init.Flag? && forall r: nat :: q[r] == if init.flag && r < |rows| && Matches(cs, rows[r]) then 1 else 0
    ensures a == SelectingWith(fm, operands, cs, init, AsMap(rows))
  {
    if init.flag {
      assert HoldsMatches(cs, rows, q);
      MatchesAnswer(cs, init, fm, operands, rows, q, a);
    } else {
      NoMembers(q);
    }
  }

  lemma MatchesAnswer(cs: seq<QueryCondition>, init: InitResult, fm: FieldMap, operands: seq<string>, rows: seq<Row>,
                      q: multiset<nat>, a: Answer)
    requires UniqueKeys(rows) && HoldsMatches(cs, rows, q) && QueueAnswered(fm, operands, rows, q, a) && init.Flag? && init.flag
    ensures a == SelectingWith(fm, operands, cs, init, AsMap(rows))
  {
    NothingSelected(cs, rows, q);
    if |q| > 0 && Printable(fm, operands) {
      ListingIsSelected(cs, fm, operands, rows, q, a);
    }
  }

  lemma ListingIsSelected(cs: seq<QueryCondition>, fm: FieldMap, operands: seq<string>, rows: seq<Row>, q: multiset<nat>, a: Answer)
    requires UniqueKeys(rows) && HoldsMatches(cs, rows, q) && |q| > 0 && Printable(fm, operands)
    requires QueueAnswered(fm, operands, rows, q, a)
    ensures a == Listing(Lines(fm, operands, Selected(cs, AsMap(rows))))
  {
    var order :| Drained(rows, q, multiset{}, order) && a == Listing(Lines(fm, operands, RowsAt(rows, order)));
    DrainSelects(cs, rows, q, order);
  }

  lemma SelectPathsAgree(fm: FieldMap, c: Command, s: Contents, junk: seq<int>, d: PS.Shared, a: Answer)
    requires c.Select? && PoolPath(fm, c, s.data) && UniqueKeys(s.data) && Ran(ScanPlan(fm, c, s.data, junk), d)
    requires QueueAnswered(fm, c.operands, s.data, d.queue, a)
    ensures (s, a) == Sequential(fm, c, s)
  {
    var (cs, init) := Init(fm, c.conds);
    SelectRan(ScanPlan(fm, c, s.data, junk), d);
    SelectAnswers(cs, init, fm, c.operands, s.data, d.queue, a);
  }

  lemma DuplicateRan(p: PS.Plan, d: PS.Shared)
    requires p.job.DuplicateJob? && p.flag && Ran(p, d)
    ensures PS.AllKeys(d.tasks, |d.tasks|) == CopyKeys(p.conds, p.job.taken, p.rows)
    ensures PS.SumCounters(d.tasks, |d.tasks|) == |CopyKeys(p.conds, p.job.taken, p.rows)|
  {
    var s0, es :| PS.RunsTo(p, s0, es, d);
    PS.ParallelDuplicate(p, s0, es, d);
  }

  /** On the pool too the inserting loop meets no conflict, whatever the run. */
  lemma DuplicatePathsAgree(fm: FieldMap, c: Command, s: Contents, junk: seq<int>, d: PS.Shared)
    requires c.Duplicate? && PoolPath(fm, c, s.data) && Sound(s) && UniqueKeys(s.data) && Ran(ScanPlan(fm, c, s.data, junk), d)
    ensures CopyAll(s, PS.AllKeys(d.tasks, |d.tasks|)).Some?
    ensures Copyable(s.data, PS.AllKeys(d.tasks, |d.tasks|))
    ensures (CopyAll(s, PS.AllKeys(d.tasks, |d.tasks|)).value, Affected(PS.SumCounters(d.tasks, |d.tasks|))) == Sequential(fm, c, s)
  {
    DuplicateRan(ScanPlan(fm, c, s.data, junk), d);
    CopiesAgree(c.operands, Init(fm, c.conds).0, Init(fm, c.conds).1, s, PS.AllKeys(d.tasks, |d.tasks|), PS.SumCounters(d.tasks, |d.tasks|));
  }

  lemma CopiesAgree(operands: seq<string>, cs: seq<QueryCondition>, init: InitResult, s: Contents, keys: seq<string>, count: int)
    requires Sound(s) && UniqueKeys(s.data) && operands == [] && init.Flag? && init.flag
    requires keys == CopyKeys(cs, Keys(s.data), s.data) && count == |keys|
    ensures Copyable(s.data, keys) && CopyAll(s, keys).Some?
    ensures (CopyAll(s, keys).value, Affected(count)) == DuplicatingWith(operands, cs, init, s)
  {
    DuplicateExact(cs, s);
  }

  lemma FinishAgrees(fm: FieldMap, c: Command, s: Contents, junk: seq<int>, d: PS.Shared, t: Contents, a: Answer)
    requires PoolPath(fm, c, s.data) && !c.Rewrite? && Sound(s) && UniqueKeys(s.data)
    requires Ran(ScanPlan(fm, c, s.data, junk), d) && Finish(fm, c, s, d, t, a)
    ensures (t, a) == Sequential(fm, c, s)
  {
    match c
    case Count(_, _) => CountPathsAgree(fm, c, s, junk, d);
    case Aggregate(_, _, _) => AggregatePathsAgree(fm, c, s, junk, d);
    case Select(_, _) => SelectPathsAgree(fm, c, s, junk, d, a);
    case Duplicate(_, _) => DuplicatePathsAgree(fm, c, s, junk, d);
  }

  /** Whichever path the timing of the pool selects, the query does the same. */
  lemma PathsAgree(fm: FieldMap, c: Command, s: Contents, t: Contents, a: Answer)
    requires Sound(s) && UniqueKeys(s.data) && ParallelStep(fm, c, s, t, a)
    ensures (t, a) == Sequential(fm, c, s)
  {
    if c.Rewrite? {
      var d :| RewriteRan(RewritePlan(fm, c, s.data), s.data, d)
        && t == Contents(d.rows, s.keyMap) && a == Affected(PR.SumCounters(d.tasks, |d.tasks|));
      RewritePathsAgree(fm, c, s, d);
    } else {
      var junk, d :| Ran(ScanPlan(fm, c, s.data, junk), d) && Finish(fm, c, s, d, t, a);
      FinishAgrees(fm, c, s, junk, d, t, a);
    }
  }

  // ---------------------------------------------------------------- no run is left out

  /** A queue filled by a complete run can be emptied. */
  lemma QueueCanBeAnswered(fm: FieldMap, operands: seq<string>, rows: seq<Row>, q: multiset<nat>)
    requires UniqueKeys(rows) && Distinct(rows, q)
    ensures exists a :: QueueAnswered(fm, operands, rows, q, a)
  {
    if |q| == 0 {
      assert QueueAnswered(fm, operands, rows, q, Null);
    } else if !Printable(fm, operands) {
      assert QueueAnswered(fm, operands, rows, q, Failed);
    } else {
      assert Remaining(q, []) == q;
      var order := DrainOrder(rows, q, q, []);
      assert QueueAnswered(fm, operands, rows, q, Listing(Lines(fm, operands, RowsAt(rows, order))));
    }
  }

  /** Whatever a complete run of the reading tasks leaves, execute() makes a step of it. */
  lemma EveryRunFinishes(fm: FieldMap, c: Command, s: Contents, junk: seq<int>, d: PS.Shared)
    requires PoolPath(fm, c, s.data) && !c.Rewrite? && UniqueKeys(s.data) && Ran(ScanPlan(fm, c, s.data, junk), d)
    ensures exists t, a :: Finish(fm, c, s, d, t, a) && ParallelStep(fm, c, s, t, a)
  {
    var t, a := s, Failed;
    match c {
      case Count(_, _) => a := Number(PS.SumCounters(d.tasks, |d.tasks|));
      case Aggregate(g, _, _) => a := if d.found || g.Sum? then Answer.Values(d.arr) else Null;
      case Select(operands, _) =>
        SelectRan(ScanPlan(fm, c, s.data, junk), d);
        assert Distinct(s.data, d.queue);
        QueueCanBeAnswered(fm, operands, s.data, d.queue);
        a :| QueueAnswered(fm, operands, s.data, d.queue, a);
      case Duplicate(_, _) =>
        match CopyAll(s, PS.AllKeys(d.tasks, |d.tasks|)) {
          case Some(u) => t, a := u, Affected(PS.SumCounters(d.tasks, |d.tasks|));
          case None =>
        }
    }
    assert Finish(fm, c, s, d, t, a);
  }

  lemma EveryRewriteFinishes(fm: FieldMap, c: Command, s: Contents, d: PR.Shared)
    requires PoolPath(fm, c, s.data) && c.Rewrite? && RewriteRan(RewritePlan(fm, c, s.data), s.data, d)
    ensures ParallelStep(fm, c, s, Contents(d.rows, s.keyMap), Affected(PR.SumCounters(d.tasks, |d.tasks|)))
  {
  }

  /** And there is such a run for every query that the pool may get. */
  lemma PoolAlwaysSteps(fm: FieldMap, c: Command, s: Contents)
    requires PoolPath(fm, c, s.data) && UniqueKeys(s.data)
    ensures exists t, a :: ParallelStep(fm, c, s, t, a)
  {
    if c.Rewrite? {
      var p := RewritePlan(fm, c, s.data);
      var s0, es := PR.SomeRun(p, s.data);
      var d := Pool.After(PR.JobsOf(p, s.data), s0, es).data;
      assert RewriteRan(p, s.data, d);
      EveryRewriteFinishes(fm, c, s, d);
    } else {
      var junk := seq(Tasks(|s.data|), _ => 0);
      var p := ScanPlan(fm, c, s.data, junk);
      var s0, es := PS.SomeRun(p);
      var d := Pool.After(PS.JobsOf(p), s0, es).data;
      assert Ran(p, d);
      EveryRunFinishes(fm, c, s, junk, d);
    }
  }

  // ---------------------------------------------------------------- DUPLICATE with a false flag

  /** DUPLICATE on the pool answers like the loop for every content of the workers' stacks if and
      only if initCondition's flag was true. */
  lemma DuplicateCountExact(conds: seq<QueryCondition>, rows: seq<Row>, flag: bool)
    requires GRAIN <= |rows|
    ensures flag <==>
      forall junk, d :: Ran(PS.Plan(PS.DuplicateJob(Keys(rows)), conds, rows, flag, junk), d) ==>
        PS.SumCounters(d.tasks, |d.tasks|) == if flag then |CopyKeys(conds, Keys(rows), rows)| else 0
  {
    var job := PS.DuplicateJob(Keys(rows));
    if flag {
      forall junk, d | Ran(PS.Plan(job, conds, rows, flag, junk), d)
        ensures PS.SumCounters(d.tasks, |d.tasks|) == |CopyKeys(conds, Keys(rows), rows)|
      {
        DuplicateRan(PS.Plan(job, conds, rows, flag, junk), d);
      }
    } else {
      var junk := seq(Tasks(|rows|), _ => 1);
      var p := PS.Plan(job, conds, rows, flag, junk);
      var s0, es := PS.SomeRun(p);
      var d := Pool.After(PS.JobsOf(p), s0, es).data;
      assert Ran(PS.Plan(job, conds, rows, flag, junk), d);
      PS.RunEnds(p, s0, es, d);
      PS.ParallelDuplicate(p, s0, es, d);
      Ones(p, |d.tasks|);
    }
  }

  lemma {:induction false} Ones(p: PS.Plan, n: nat)
    requires p.job.DuplicateJob? && !p.flag && n <= |p.junk| && forall i :: 0 <= i < |p.junk| ==> p.junk[i] == 1
    ensures PS.SumFirst(p, n) == n
  {
    if n > 0 {
      Ones(p, n - 1);
    }
  }
}
