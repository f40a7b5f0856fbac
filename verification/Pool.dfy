/** The thread pool as a step system: one submitting thread, any number of workers, any data that
    the tasks step over. Each step is one atomic section of the program: a critical section of
    `lockx`, one atomic counter update, or one step of a task body. */
module Pool {
  import opened Values

  /** Asleep: inside cv.wait and not notified. Awake: anywhere between two tasks with the lock
      still to be taken (notified workers included). Holding: popped, idleThreadNum-- to come.
      Leaving: the future is ready, idleThreadNum++ to come. */
  datatype Worker = Asleep | Awake | Holding(task: nat) | Running(task: nat) | Leaving

  /** What one query hands to the pool: task i takes `step(d, i)` steps until `left(d, i)` is 0. */
  datatype Jobs<!D(!new)> = Jobs(count: nat, step: (D, nat) -> D, left: (D, nat) -> nat, ok: D -> bool)

  /** total is the number given to pool_set; popped and schedule record the run. */
  datatype Pool<D> = Pool(
    workers: seq<Worker>,
    queue: seq<nat>,
    idle: int,
    total: int,
    submitted: nat,
    collected: nat,
    ready: set<nat>,
    data: D,
    popped: seq<nat>,
    schedule: seq<nat>)

  /** woken is the waiter that notify_one releases, None exactly when nobody waits. */
  datatype Event =
    | Submit(woken: Option<nat>)
    | Wait(w: nat)
    | Take(w: nat, woken: Option<nat>)
    | Begin(w: nat)
    | Work(w: nat)
    | Finish(w: nat)
    | Leave(w: nat)
    | Spurious(w: nat)
    | Get

  predicate IsAsleep(w: Worker) { w.Asleep? }
  predicate IsAwake(w: Worker) { w.Awake? }
  predicate IsBusy(w: Worker) { w.Holding? || w.Running? }
  predicate IsCounted(w: Worker) { w.Running? || w.Leaving? }

  predicate Has(w: Worker, t: nat) {
    IsBusy(w) && w.task == t
  }

  predicate NotifyOk(ws: seq<Worker>, woken: Option<nat>) {
    match woken
    case None => forall v :: 0 <= v < |ws| ==> !ws[v].Asleep?
    case Some(v) => v < |ws| && ws[v].Asleep?
  }

  function Wake(ws: seq<Worker>, woken: Option<nat>): seq<Worker>
    requires NotifyOk(ws, woken)
  {
    if woken.Some? then ws[woken.value := Awake] else ws
  }

  predicate Enabled<D(!new)>(j: Jobs<D>, s: Pool<D>, e: Event) {
    match e
    case Submit(woken) => s.submitted < j.count && NotifyOk(s.workers, woken)
    case Wait(w) => w < |s.workers| && s.workers[w].Awake? && s.queue == []
    case Take(w, woken) => w < |s.workers| && s.workers[w].Awake? && s.queue != [] && NotifyOk(s.workers, woken)
    case Begin(w) => w < |s.workers| && s.workers[w].Holding?
    case Work(w) => w < |s.workers| && s.workers[w].Running? && j.left(s.data, s.workers[w].task) > 0
    case Finish(w) => w < |s.workers| && s.workers[w].Running? && j.left(s.data, s.workers[w].task) == 0
    case Leave(w) => w < |s.workers| && s.workers[w].Leaving?
    case Spurious(w) => w < |s.workers| && s.workers[w].Asleep?
    case Get => s.submitted == j.count && s.collected < j.count && s.collected in s.ready
  }

  function Next<D(!new)>(j: Jobs<D>, s: Pool<D>, e: Event): Pool<D>
    requires Enabled(j, s, e)
  {
    match e
    case Submit(woken) =>
      s.(queue := s.queue + [s.submitted], submitted := s.submitted + 1, workers := Wake(s.workers, woken))
    case Wait(w) =>
      s.(workers := s.workers[w := Asleep])
    case Take(w, woken) =>
      s.(queue := s.queue[1..], popped := s.popped + [s.queue[0]],
         workers := Wake(s.workers, woken)[w := Holding(s.queue[0])])
    case Begin(w) =>
      s.(idle := s.idle - 1, workers := s.workers[w := Running(s.workers[w].task)])
    case Work(w) =>
      var t := s.workers[w].task;
      s.(data := j.step(s.data, t), schedule := s.schedule + [t])
    case Finish(w) =>
      s.(ready := s.ready + {s.workers[w].task}, workers := s.workers[w := Leaving])
    case Leave(w) =>
      s.(idle := s.idle + 1, workers := s.workers[w := Awake])
    case Spurious(w) =>
      s.(workers := s.workers[w := Awake])
    case Get =>
      s.(collected := s.collected + 1)
  }

  /** A run is a sequence of events, each enabled when it happens. */
  ghost predicate Legal<D(!new)>(j: Jobs<D>, s: Pool<D>, es: seq<Event>)
    decreases |es|
  {
    es == [] || (Enabled(j, s, es[0]) && Legal(j, Next(j, s, es[0]), es[1..]))
  }

  ghost function After<D(!new)>(j: Jobs<D>, s: Pool<D>, es: seq<Event>): Pool<D>
    requires Legal(j, s, es)
    decreases |es|
  {
    if es == [] then s else After(j, Next(j, s, es[0]), es[1..])
  }

  // ---------------------------------------------------------------- the tasks' own data

  /** A task's step keeps the data well formed, brings that task nearer its end and leaves the
      distance of the others alone. */
  ghost predicate Independent<D(!new)>(j: Jobs<D>) {
    forall d: D, i: nat {:trigger j.step(d, i)} :: j.ok(d) && i < j.count && j.left(d, i) > 0 ==>
      && j.ok(j.step(d, i))
      && j.left(j.step(d, i), i) < j.left(d, i)
      && forall k: nat :: k < j.count && k != i ==> j.left(j.step(d, i), k) == j.left(d, k)
  }

  /** The task steps of a run alone, in the order they happened. */
  ghost function Exec<D(!new)>(j: Jobs<D>, d: D, schedule: seq<nat>): D {
    if schedule == [] then d
    else j.step(Exec(j, d, schedule[..|schedule| - 1]), schedule[|schedule| - 1])
  }

  /** A schedule never steps a task that has ended. */
  ghost predicate Honest<D(!new)>(j: Jobs<D>, d: D, schedule: seq<nat>) {
    schedule == [] ||
    var front := schedule[..|schedule| - 1];
    var i := schedule[|schedule| - 1];
    Honest(j, d, front) && i < j.count && j.left(Exec(j, d, front), i) > 0
  }

  lemma ExecExtend<D(!new)>(j: Jobs<D>, d: D, schedule: seq<nat>, i: nat)
    ensures Exec(j, d, schedule + [i]) == j.step(Exec(j, d, schedule), i)
    ensures Honest(j, d, schedule) && i < j.count && j.left(Exec(j, d, schedule), i) > 0 ==> Honest(j, d, schedule + [i])
  {
    var longer := schedule + [i];
    assert longer[..|longer| - 1] == schedule;
  }

  // ---------------------------------------------------------------- counting workers

  ghost function Num(ws: seq<Worker>, p: Worker -> bool): nat {
    if ws == [] then 0 else Num(ws[..|ws| - 1], p) + (if p(ws[|ws| - 1]) then 1 else 0)
  }

  function Bit(b: bool): nat {
    if b then 1 else 0
  }

  lemma {:induction false} NumUpdate(ws: seq<Worker>, i: nat, x: Worker, p: Worker -> bool)
    requires i < |ws|
    ensures Num(ws[i := x], p) == Num(ws, p) - Bit(p(ws[i])) + Bit(p(x))
  {
    var last := |ws| - 1;
    if i < last {
      NumUpdate(ws[..last], i, x, p);
      assert ws[i := x][..last] == ws[..last][i := x];
    } else {
      assert ws[i := x][..last] == ws[..last];
    }
  }

  lemma {:induction false} NumZero(ws: seq<Worker>, p: Worker -> bool)
    ensures Num(ws, p) <= |ws|
    ensures Num(ws, p) == 0 <==> forall v :: 0 <= v < |ws| ==> !p(ws[v])
  {
    if ws != [] {
      NumZero(ws[..|ws| - 1], p);
    }
  }

  lemma NumUpdates(ws: seq<Worker>, i: nat, x: Worker)
    requires i < |ws|
    ensures Num(ws[i := x], IsAsleep) == Num(ws, IsAsleep) - Bit(IsAsleep(ws[i])) + Bit(IsAsleep(x))
    ensures Num(ws[i := x], IsAwake) == Num(ws, IsAwake) - Bit(IsAwake(ws[i])) + Bit(IsAwake(x))
    ensures Num(ws[i := x], IsBusy) == Num(ws, IsBusy) - Bit(IsBusy(ws[i])) + Bit(IsBusy(x))
    ensures Num(ws[i := x], IsCounted) == Num(ws, IsCounted) - Bit(IsCounted(ws[i])) + Bit(IsCounted(x))
  {
    NumUpdate(ws, i, x, IsAsleep);
    NumUpdate(ws, i, x, IsAwake);
    NumUpdate(ws, i, x, IsBusy);
    NumUpdate(ws, i, x, IsCounted);
  }

  /** notify_one moves one sleeper, if there is one, to the awake workers and changes nothing else. */
  lemma NumWake(ws: seq<Worker>, woken: Option<nat>)
    requires NotifyOk(ws, woken)
    ensures Num(ws, IsAsleep) > 0 <==> woken.Some?
    ensures Num(Wake(ws, woken), IsAsleep) == Num(ws, IsAsleep) - Bit(woken.Some?)
    ensures Num(Wake(ws, woken), IsAwake) == Num(ws, IsAwake) + Bit(woken.Some?)
    ensures Num(Wake(ws, woken), IsBusy) == Num(ws, IsBusy)
    ensures Num(Wake(ws, woken), IsCounted) == Num(ws, IsCounted)
  {
    NumZero(ws, IsAsleep);
    if woken.Some? {
      NumUpdates(ws, woken.value, Awake);
    }
  }

  // ---------------------------------------------------------------- the invariant

  /** Tasks leave the queue in submit order: the popped ones are 0, 1, .. and the queued ones go on
      from there up to the last submitted. */
  ghost predicate InOrder<D(!new)>(j: Jobs<D>, s: Pool<D>) {
    && |s.popped| + |s.queue| == s.submitted <= j.count
    && (forall k :: 0 <= k < |s.popped| ==> s.popped[k] == k)
    && (forall k :: 0 <= k < |s.queue| ==> s.queue[k] == |s.popped| + k)
    && s.collected <= j.count
    && (s.collected > 0 ==> s.submitted == j.count)
    && (forall t: nat :: t < s.collected ==> t in s.ready)
  }

  /** Each of the first `taken` tasks is either finished or in the hands of exactly one worker. */
  ghost predicate InHand(ws: seq<Worker>, ready: set<nat>, taken: nat) {
    && (forall t :: t in ready ==> t < taken)
    && (forall w :: 0 <= w < |ws| && IsBusy(ws[w]) ==> ws[w].task < taken && ws[w].task !in ready)
    && (forall v, w :: 0 <= v < w < |ws| && IsBusy(ws[v]) && IsBusy(ws[w]) ==> ws[v].task != ws[w].task)
    && (forall t: nat :: t < taken && t !in ready ==> exists w :: 0 <= w < |ws| && Has(ws[w], t))
  }

  /** No task is lost or run twice, and submitted = queued + held + finished. */
  ghost predicate Conserved<D(!new)>(s: Pool<D>) {
    && InHand(s.workers, s.ready, |s.popped|)
    && s.submitted == |s.queue| + Num(s.workers, IsBusy) + |s.ready|
  }

  /** If any worker sleeps un-notified, enough others are awake and free to empty the queue. */
  ghost predicate NoLostWakeup<D(!new)>(s: Pool<D>) {
    Num(s.workers, IsAsleep) > 0 ==> Num(s.workers, IsAwake) >= |s.queue|
  }

  /** idleThreadNum is its set value minus the workers between the decrement and the increment. */
  ghost predicate IdleExact<D(!new)>(s: Pool<D>) {
    s.idle == s.total - Num(s.workers, IsCounted)
  }

  /** The shared data is what the recorded task steps made of d0; finished tasks have ended and
      tasks nobody took are untouched. */
  ghost predicate Tracked<D(!new)>(j: Jobs<D>, d0: D, s: Pool<D>) {
    && s.data == Exec(j, d0, s.schedule)
    && Honest(j, d0, s.schedule)
    && j.ok(s.data)
    && (forall t :: t in s.ready ==> j.left(s.data, t) == 0)
  }

  ghost predicate Inv<D(!new)>(j: Jobs<D>, d0: D, s: Pool<D>) {
    InOrder(j, s) && Conserved(s) && NoLostWakeup(s) && IdleExact(s) && Tracked(j, d0, s)
  }

  /** A query starts with an empty queue and no task in hand; workers that ran tasks of an earlier
      query may still be on their way back, so idleThreadNum may be anything from -1 to total. */
  ghost predicate Start<D(!new)>(j: Jobs<D>, d0: D, s: Pool<D>) {
    && s.queue == [] && s.popped == [] && s.schedule == [] && s.ready == {}
    && s.submitted == 0 && s.collected == 0
    && s.data == d0 && j.ok(d0)
    && (forall w :: 0 <= w < |s.workers| ==> !IsBusy(s.workers[w]))
    && IdleExact(s)
  }

  lemma StartInv<D(!new)>(j: Jobs<D>, d0: D, s: Pool<D>)
    requires Start(j, d0, s)
    ensures Inv(j, d0, s)
  {
    NumZero(s.workers, IsBusy);
  }

  /** A worker that keeps the task it has, or keeps having none, disturbs nothing. */
  lemma SameHand(ws: seq<Worker>, ready: set<nat>, taken: nat, w: nat, x: Worker)
    requires InHand(ws, ready, taken) && w < |ws|
    requires forall t :: Has(x, t) <==> Has(ws[w], t)
    ensures InHand(ws[w := x], ready, taken)
  {
    var ws' := ws[w := x];
    assert IsBusy(x) ==> Has(x, x.task);
    forall t: nat | t < taken && t !in ready ensures exists v :: 0 <= v < |ws'| && Has(ws'[v], t) {
      var v :| 0 <= v < |ws| && Has(ws[v], t);
      assert Has(ws'[v], t);
    }
  }

  lemma WakeHand(ws: seq<Worker>, ready: set<nat>, taken: nat, woken: Option<nat>)
    requires InHand(ws, ready, taken) && NotifyOk(ws, woken)
    ensures InHand(Wake(ws, woken), ready, taken)
  {
    if woken.Some? {
      SameHand(ws, ready, taken, woken.value, Awake);
    }
  }

  lemma NewHand(ws: seq<Worker>, ready: set<nat>, taken: nat, w: nat)
    requires InHand(ws, ready, taken) && w < |ws| && !IsBusy(ws[w])
    ensures InHand(ws[w := Holding(taken)], ready, taken + 1)
  {
    var ws' := ws[w := Holding(taken)];
    assert Has(ws'[w], taken);
    forall t: nat | t < taken && t !in ready ensures exists v :: 0 <= v < |ws'| && Has(ws'[v], t) {
      var v :| 0 <= v < |ws| && Has(ws[v], t);
      assert Has(ws'[v], t);
    }
  }

  lemma EmptyHand(ws: seq<Worker>, ready: set<nat>, taken: nat, w: nat)
    requires InHand(ws, ready, taken) && w < |ws| && IsBusy(ws[w])
    ensures InHand(ws[w := Leaving], ready + {ws[w].task}, taken)
  {
    var ws' := ws[w := Leaving];
    forall t: nat | t < taken && t !in ready + {ws[w].task} ensures exists v :: 0 <= v < |ws'| && Has(ws'[v], t) {
      var v :| 0 <= v < |ws| && Has(ws[v], t);
      assert Has(ws'[v], t);
    }
  }

  lemma SubmitInv<D(!new)>(j: Jobs<D>, d0: D, s: Pool<D>, e: Event)
    requires Inv(j, d0, s) && e.Submit? && Enabled(j, s, e)
    ensures Inv(j, d0, Next(j, s, e))
  {
    NumWake(s.workers, e.woken);
    WakeHand(s.workers, s.ready, |s.popped|, e.woken);
  }

  lemma TakeOrder<D(!new)>(j: Jobs<D>, s: Pool<D>, e: Event)
    requires InOrder(j, s) && e.Take? && Enabled(j, s, e)
    ensures InOrder(j, Next(j, s, e))
    ensures s.queue[0] == |s.popped|
  {
    var s' := Next(j, s, e);
    assert s'.popped == s.popped + [|s.popped|];
    forall k | 0 <= k < |s'.queue| ensures s'.queue[k] == |s'.popped| + k {
      assert s'.queue[k] == s.queue[k + 1];
    }
  }

  lemma TakeWorkers(ws: seq<Worker>, woken: Option<nat>, w: nat, ready: set<nat>, taken: nat)
    requires NotifyOk(ws, woken) && w < |ws| && ws[w].Awake? && InHand(ws, ready, taken)
    ensures var ws' := Wake(ws, woken)[w := Holding(taken)];
      && InHand(ws', ready, taken + 1)
      && Num(ws', IsBusy) == Num(ws, IsBusy) + 1
      && Num(ws', IsCounted) == Num(ws, IsCounted)
      && Num(ws', IsAsleep) == Num(ws, IsAsleep) - Bit(woken.Some?)
      && Num(ws', IsAwake) == Num(ws, IsAwake) + Bit(woken.Some?) - 1
      && (Num(ws, IsAsleep) > 0 <==> woken.Some?)
  {
    var wake := Wake(ws, woken);
    assert wake[w] == Awake;
    NumWake(ws, woken);
    NumUpdates(wake, w, Holding(taken));
    WakeHand(ws, ready, taken, woken);
    NewHand(wake, ready, taken, w);
  }

  lemma TakeInv<D(!new)>(j: Jobs<D>, d0: D, s: Pool<D>, e: Event)
    requires Inv(j, d0, s) && e.Take? && Enabled(j, s, e)
    ensures Inv(j, d0, Next(j, s, e))
  {
    TakeOrder(j, s, e);
    TakeWorkers(s.workers, e.woken, e.w, s.ready, |s.popped|);
  }

  /** Steps of one worker that touch neither the queue nor another worker. */
  lemma WorkerInv<D(!new)>(j: Jobs<D>, d0: D, s: Pool<D>, e: Event)
    requires Inv(j, d0, s) && Enabled(j, s, e)
    requires e.Wait? || e.Begin? || e.Finish? || e.Leave? || e.Spurious?
    ensures Inv(j, d0, Next(j, s, e))
  {
    var s' := Next(j, s, e);
    NumUpdates(s.workers, e.w, s'.workers[e.w]);
    if e.Finish? {
      EmptyHand(s.workers, s.ready, |s.popped|, e.w);
    } else {
      SameHand(s.workers, s.ready, |s.popped|, e.w, s'.workers[e.w]);
    }
  }

  lemma WorkInv<D(!new)>(j: Jobs<D>, d0: D, s: Pool<D>, e: Event)
    requires Inv(j, d0, s) && Independent(j) && e.Work? && Enabled(j, s, e)
    ensures Inv(j, d0, Next(j, s, e))
  {
    WorkTracked(j, d0, s, e);
  }

  lemma WorkTracked<D(!new)>(j: Jobs<D>, d0: D, s: Pool<D>, e: Event)
    requires Tracked(j, d0, s) && Independent(j) && e.Work? && Enabled(j, s, e) && s.workers[e.w].task < j.count
    requires s.workers[e.w].task !in s.ready && forall t :: t in s.ready ==> t < j.count
    ensures Tracked(j, d0, Next(j, s, e))
  {
    ExecExtend(j, d0, s.schedule, s.workers[e.w].task);
  }

  lemma StepInv<D(!new)>(j: Jobs<D>, d0: D, s: Pool<D>, e: Event)
    requires Inv(j, d0, s) && Independent(j) && Enabled(j, s, e)
    ensures Inv(j, d0, Next(j, s, e))
  {
    match e
    case Submit(_) => SubmitInv(j, d0, s, e);
    case Take(_, _) => TakeInv(j, d0, s, e);
    case Work(_) => WorkInv(j, d0, s, e);
    case Get =>
    case _ => WorkerInv(j, d0, s, e);
  }

  /** Every reachable state satisfies the invariant. */
  lemma {:induction false} RunInv<D(!new)>(j: Jobs<D>, d0: D, s: Pool<D>, es: seq<Event>)
    requires Independent(j) && Inv(j, d0, s) && Legal(j, s, es)
    ensures Inv(j, d0, After(j, s, es))
    decreases |es|
  {
    if es != [] {
      StepInv(j, d0, s, es[0]);
      RunInv(j, d0, Next(j, s, es[0]), es[1..]);
    }
  }

  // ---------------------------------------------------------------- what every run guarantees

  /** The pool's promises, in every state that any interleaving reaches: FIFO order, conservation,
      no lost wakeup, and the idle counter, which with one more worker than pool_set asked for
      stays between -1 and the number asked for. */
  lemma PoolSafety<D(!new)>(j: Jobs<D>, d0: D, s0: Pool<D>, es: seq<Event>)
    requires Independent(j) && Start(j, d0, s0) && Legal(j, s0, es)
    ensures var s := After(j, s0, es);
      && (forall k :: 0 <= k < |s.popped| ==> s.popped[k] == k)
      && s.submitted == |s.queue| + Num(s.workers, IsBusy) + |s.ready|
      && (forall v, w :: 0 <= v < w < |s.workers| && IsBusy(s.workers[v]) && IsBusy(s.workers[w]) ==>
            s.workers[v].task != s.workers[w].task)
      && (Num(s.workers, IsAsleep) > 0 ==> Num(s.workers, IsAwake) >= |s.queue|)
      && s.idle == s.total - Num(s.workers, IsCounted)
      && (|s.workers| <= s.total + 1 ==> -1 <= s.idle <= s.total)
      && (s.idle < 0 <==> Num(s.workers, IsCounted) > s.total)
  {
    StartInv(j, d0, s0);
    RunInv(j, d0, s0, es);
    NumZero(After(j, s0, es).workers, IsCounted);
  }

  /** When the submitter has collected every future, each task has run to its end, and the data is
      an interleaving of the tasks' steps and of nothing else. */
  lemma Completed<D(!new)>(j: Jobs<D>, d0: D, s0: Pool<D>, es: seq<Event>)
    requires Independent(j) && Start(j, d0, s0) && Legal(j, s0, es)
    requires After(j, s0, es).collected == j.count
    ensures var s := After(j, s0, es);
      && s.data == Exec(j, d0, s.schedule)
      && Honest(j, d0, s.schedule)
      && j.ok(s.data)
      && forall t: nat :: t < j.count ==> j.left(s.data, t) == 0
  {
    StartInv(j, d0, s0);
    RunInv(j, d0, s0, es);
  }

  // ---------------------------------------------------------------- progress

  /** With at least one worker, something other than a spurious wakeup can happen until the
      submitter has every result, however many more tasks than workers there are. */
  lemma NoDeadlock<D(!new)>(j: Jobs<D>, d0: D, s: Pool<D>) returns (e: Event)
    requires Inv(j, d0, s) && |s.workers| >= 1 && s.collected < j.count
    ensures Enabled(j, s, e) && !e.Spurious?
  {
    var woken := Sleeper(s.workers);
    if s.submitted < j.count {
      e := Submit(woken);
    } else if s.collected in s.ready {
      e := Get;
    } else {
      SomeoneUp(j, d0, s);
      var v: nat :| v < |s.workers| && !s.workers[v].Asleep?;
      e := match s.workers[v]
        case Awake => if s.queue == [] then Wait(v) else Take(v, woken)
        case Holding(_) => Begin(v)
        case Running(t) => if j.left(s.data, t) > 0 then Work(v) else Finish(v)
        case _ => Leave(v);
    }
  }

  /** While the next result is missing, somebody is up to produce it. */
  lemma SomeoneUp<D(!new)>(j: Jobs<D>, d0: D, s: Pool<D>)
    requires Inv(j, d0, s) && |s.workers| >= 1
    requires s.submitted == j.count && s.collected < j.count && s.collected !in s.ready
    ensures exists v: nat :: v < |s.workers| && !s.workers[v].Asleep?
  {
    if s.collected < |s.popped| {
      var w :| 0 <= w < |s.workers| && Has(s.workers[w], s.collected);
      assert !s.workers[w].Asleep?;
    } else {
      NumZero(s.workers, IsAsleep);
      NumZero(s.workers, IsAwake);
      assert IsAsleep(s.workers[0]) || !s.workers[0].Asleep?;
    }
  }

  /** The waiter notify_one may pick. */
  ghost function Sleeper(ws: seq<Worker>): (r: Option<nat>)
    ensures NotifyOk(ws, r)
  {
    if v: nat :| v < |ws| && ws[v].Asleep? then Some(v) else None
  }

  /** A worker's distance from sleep. */
  function Weight(w: Worker): nat {
    match w
    case Asleep => 0
    case Awake => 1
    case Leaving => 2
    case Running(_) => 3
    case Holding(_) => 4
  }

  ghost function TotalWeight(ws: seq<Worker>): nat {
    if ws == [] then 0 else TotalWeight(ws[..|ws| - 1]) + Weight(ws[|ws| - 1])
  }

  lemma {:induction false} WeightUpdate(ws: seq<Worker>, i: nat, x: Worker)
    requires i < |ws|
    ensures TotalWeight(ws[i := x]) == TotalWeight(ws) - Weight(ws[i]) + Weight(x)
  {
    var last := |ws| - 1;
    if i < last {
      WeightUpdate(ws[..last], i, x);
      assert ws[i := x][..last] == ws[..last][i := x];
    } else {
      assert ws[i := x][..last] == ws[..last];
    }
  }

  ghost function TotalLeft<D(!new)>(j: Jobs<D>, d: D, n: nat): nat {
    if n == 0 then 0 else TotalLeft(j, d, n - 1) + j.left(d, n - 1)
  }

  lemma {:induction false} LeftUpdate<D(!new)>(j: Jobs<D>, d: D, i: nat, n: nat)
    requires Independent(j) && j.ok(d) && i < j.count && j.left(d, i) > 0 && n <= j.count
    ensures TotalLeft(j, j.step(d, i), n) + Bit(i < n) <= TotalLeft(j, d, n)
  {
    if n > 0 {
      LeftUpdate(j, d, i, n - 1);
    }
  }

  /** Unsubmitted, queued, running, awake and uncollected work, weighted so that a task always
      weighs less the further it has come. */
  ghost function Measure<D(!new)>(j: Jobs<D>, s: Pool<D>): int {
    7 * (j.count - s.submitted) + 5 * |s.queue| + TotalWeight(s.workers)
    + (j.count - s.collected) + TotalLeft(j, s.data, j.count)
  }

  lemma WakeWeight(ws: seq<Worker>, woken: Option<nat>)
    requires NotifyOk(ws, woken)
    ensures TotalWeight(Wake(ws, woken)) <= TotalWeight(ws) + 1
  {
    if woken.Some? {
      WeightUpdate(ws, woken.value, Awake);
    }
  }

  /** The two steps that notify: what leaves the queue or the submitter outweighs the waiter. */
  lemma NotifyMeasure<D(!new)>(j: Jobs<D>, s: Pool<D>, e: Event)
    requires Enabled(j, s, e) && (e.Submit? || e.Take?)
    ensures Measure(j, Next(j, s, e)) <= Measure(j, s) - 1
  {
    WakeWeight(s.workers, e.woken);
    if e.Take? {
      assert Wake(s.workers, e.woken)[e.w].Awake?;
      WeightUpdate(Wake(s.workers, e.woken), e.w, Holding(s.queue[0]));
    }
  }

  lemma StepMeasure<D(!new)>(j: Jobs<D>, d0: D, s: Pool<D>, e: Event)
    requires Inv(j, d0, s) && Independent(j) && Enabled(j, s, e)
    ensures Measure(j, Next(j, s, e)) <= Measure(j, s) + (if e.Spurious? then 1 else -1)
  {
    match e
    case Submit(_) => NotifyMeasure(j, s, e);
    case Take(_, _) => NotifyMeasure(j, s, e);
    case Work(w) => LeftUpdate(j, s.data, s.workers[w].task, j.count);
    case Get =>
    case _ => WeightUpdate(s.workers, e.w, Next(j, s, e).workers[e.w]);
  }

  function Spurious(es: seq<Event>): nat {
    if es == [] then 0 else Bit(es[0].Spurious?) + Spurious(es[1..])
  }

  /** Every run is finite up to spurious wakeups: each of those pays for at most one further step. */
  lemma {:induction false} RunsAreBounded<D(!new)>(j: Jobs<D>, d0: D, s: Pool<D>, es: seq<Event>)
    requires Independent(j) && Inv(j, d0, s) && Legal(j, s, es)
    ensures 0 <= Measure(j, After(j, s, es))
    ensures |es| <= Measure(j, s) + 2 * Spurious(es)
    decreases |es|
  {
    if es != [] {
      StepInv(j, d0, s, es[0]);
      StepMeasure(j, d0, s, es[0]);
      RunsAreBounded(j, d0, Next(j, s, es[0]), es[1..]);
    }
  }

  /** A run that can only wait for spurious wakeups has delivered every result and put every worker
      to sleep. */
  lemma StuckMeansDone<D(!new)>(j: Jobs<D>, d0: D, s0: Pool<D>, es: seq<Event>)
    requires Independent(j) && Start(j, d0, s0) && Legal(j, s0, es) && |s0.workers| >= 1
    requires forall e :: Enabled(j, After(j, s0, es), e) ==> e.Spurious?
    ensures var s := After(j, s0, es);
      s.collected == j.count && s.queue == [] && forall w :: 0 <= w < |s.workers| ==> s.workers[w].Asleep?
  {
    StartInv(j, d0, s0);
    RunInv(j, d0, s0, es);
    WorkersKept(j, s0, es);
    var s := After(j, s0, es);
    if s.collected < j.count {
      var e := NoDeadlock(j, d0, s);
      assert false;
    }
    if j.count > 0 {
      assert j.count - 1 in s.ready;
    }
    forall w | 0 <= w < |s.workers| ensures s.workers[w].Asleep? {
      assert !Enabled(j, s, Wait(w)) && !Enabled(j, s, Leave(w)) && !Enabled(j, s, Begin(w));
      assert !Enabled(j, s, Work(w)) && !Enabled(j, s, Finish(w));
    }
  }

  lemma {:induction false} WorkersKept<D(!new)>(j: Jobs<D>, s: Pool<D>, es: seq<Event>)
    requires Legal(j, s, es)
    ensures |After(j, s, es).workers| == |s.workers| && After(j, s, es).total == s.total
    decreases |es|
  {
    if es != [] {
      WorkersKept(j, Next(j, s, es[0]), es[1..]);
    }
  }

  /** Termination: from every start some run collects every future, without spurious wakeups. */
  lemma {:induction false} CompletingRun<D(!new)>(j: Jobs<D>, d0: D, s: Pool<D>) returns (es: seq<Event>)
    requires Independent(j) && Inv(j, d0, s) && |s.workers| >= 1
    ensures Legal(j, s, es) && After(j, s, es).collected == j.count && Spurious(es) == 0
    decreases Measure(j, s)
  {
    if s.collected == j.count {
      return [];
    }
    var e := NoDeadlock(j, d0, s);
    StepInv(j, d0, s, e);
    StepMeasure(j, d0, s, e);
    var rest := CompletingRun(j, d0, Next(j, s, e));
    es := [e] + rest;
    assert es[1..] == rest;
  }

  // ---------------------------------------------------------------- how the pool comes up

  /** The constructor starts one worker; pool_set(temp) starts temp more and sets the counter. */
  function PoolSet<D>(temp: nat, d0: D): Pool<D> {
    Pool(seq(1 + temp, _ => Awake), [], temp, temp, 0, 0, {}, d0, [], [])
  }

  lemma PoolSetStarts<D(!new)>(j: Jobs<D>, d0: D, temp: nat)
    requires j.ok(d0)
    ensures Start(j, d0, PoolSet(temp, d0)) && |PoolSet(temp, d0).workers| == temp + 1
  {
    NumZero(PoolSet(temp, d0).workers, IsCounted);
  }

  lemma {:induction false} LegalSnoc<D(!new)>(j: Jobs<D>, s: Pool<D>, es: seq<Event>, e: Event)
    requires Legal(j, s, es) && Enabled(j, After(j, s, es), e)
    ensures Legal(j, s, es + [e]) && After(j, s, es + [e]) == Next(j, After(j, s, es), e)
    decreases |es|
  {
    assert es + [e] == (if es == [] then [e] else [es[0]] + (es[1..] + [e]));
    if es != [] {
      LegalSnoc(j, Next(j, s, es[0]), es[1..], e);
      assert (es + [e])[1..] == es[1..] + [e];
    }
  }

  /** The first n workers run the first n tasks, and the others have nothing to do. */
  ghost predicate FirstBusy<D(!new)>(s: Pool<D>, n: nat) {
    && n <= |s.workers| == s.total + 1
    && s.queue == [] && s.submitted == n && s.idle == s.total - n
    && forall w :: 0 <= w < |s.workers| ==> s.workers[w] == if w < n then Running(w) else Awake
  }

  lemma OneMoreBusy<D(!new)>(j: Jobs<D>, s: Pool<D>, n: nat)
    requires FirstBusy(s, n) && n < |s.workers| && n < j.count
    ensures Enabled(j, s, Submit(None))
    ensures var s1 := Next(j, s, Submit(None));
      && Enabled(j, s1, Take(n, None))
      && var s2 := Next(j, s1, Take(n, None));
         Enabled(j, s2, Begin(n)) && FirstBusy(Next(j, s2, Begin(n)), n + 1)
  {
  }

  lemma {:induction false} BusyRun<D(!new)>(j: Jobs<D>, s0: Pool<D>, n: nat) returns (es: seq<Event>)
    requires FirstBusy(s0, 0) && n <= |s0.workers| && n <= j.count
    ensures Legal(j, s0, es) && FirstBusy(After(j, s0, es), n)
  {
    if n == 0 {
      return [];
    }
    var before := BusyRun(j, s0, n - 1);
    WorkersKept(j, s0, before);
    OneMoreBusy(j, After(j, s0, before), n - 1);
    LegalSnoc(j, s0, before, Submit(None));
    LegalSnoc(j, s0, before + [Submit(None)], Take(n - 1, None));
    LegalSnoc(j, s0, before + [Submit(None)] + [Take(n - 1, None)], Begin(n - 1));
    es := before + [Submit(None)] + [Take(n - 1, None)] + [Begin(n - 1)];
  }

  /** With more tasks than pool_set asked for workers, some run takes idleThreadNum below zero. */
  lemma IdleGoesNegative<D(!new)>(j: Jobs<D>, d0: D, temp: nat) returns (es: seq<Event>)
    requires temp < j.count
    ensures Legal(j, PoolSet(temp, d0), es) && After(j, PoolSet(temp, d0), es).idle == -1
  {
    var s0 := PoolSet(temp, d0);
    es := BusyRun(j, s0, temp + 1);
    WorkersKept(j, s0, es);
  }

  /** The state in which the submitter goes on to its next query. */
  function NextQuery<D, E>(s: Pool<D>, d1: E): Pool<E> {
    Pool(s.workers, [], s.idle, s.total, 0, 0, {}, d1, [], [])
  }

  /** Once a query has its results the pool is ready for the next one, with idleThreadNum still
      short by the workers that have not come back yet. */
  lemma NextQueryStarts<D(!new), E(!new)>(j: Jobs<D>, k: Jobs<E>, d0: D, s0: Pool<D>, es: seq<Event>, d1: E)
    requires Independent(j) && Start(j, d0, s0) && Legal(j, s0, es) && k.ok(d1)
    requires After(j, s0, es).collected == j.count
    ensures Start(k, d1, NextQuery(After(j, s0, es), d1))
  {
    StartInv(j, d0, s0);
    RunInv(j, d0, s0, es);
    var s := After(j, s0, es);
    assert forall t: nat :: t < |s.popped| ==> t in s.ready;
  }
}
