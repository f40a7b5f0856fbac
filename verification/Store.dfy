/** Whole runs: a table driven by any queries on either path against a plain key-to-values map. */
module Store {
  import opened Values
  import opened Conditions
  import opened Tables
  import opened Queries
  import opened Commands
  import opened Paths
  import opened PlainMap

  ghost predicate Step(fm: FieldMap, c: Command, s: Contents, t: Contents, a: Answer)
    requires UniqueKeys(s.data)
  {
    (t, a) == Sequential(fm, c, s) || ParallelStep(fm, c, s, t, a)
  }

  /** What the code relies on between queries: an exact index, one value a field in every row, and
      fields inside the rows. */
  ghost predicate Fit(fm: FieldMap, width: nat, s: Contents) {
    Sound(s) && UniqueKeys(s.data) && AllWide(s.data, width) && Within(fm, width)
  }

  /** A run on a table that starts fit: states[i] is vector and index before query i, each query is
      orderly where it is asked, and takes either path. */
  ghost predicate IsRun(fm: FieldMap, width: nat, cs: seq<Command>, states: seq<Contents>, answers: seq<Answer>) {
    && |states| == |cs| + 1 && |answers| == |cs|
    && Fit(fm, width, states[0])
    && forall i: nat :: i < |cs| ==> GoesOn(fm, width, cs[i], states[i], states[i + 1], answers[i])
  }

  ghost predicate GoesOn(fm: FieldMap, width: nat, c: Command, s: Contents, t: Contents, a: Answer) {
    Fit(fm, width, s) ==> Orderly(fm, width, c, s.data) && Step(fm, c, s, t, a)
  }

  /** n queries in turn on a map, and their answers. */
  ghost function Fold<C>(step: (C, map<string, seq<Int32>>) -> (map<string, seq<Int32>>, Answer), cs: seq<C>,
                         m: map<string, seq<Int32>>, n: nat): (map<string, seq<Int32>>, seq<Answer>)
    requires n <= |cs|
  {
    if n == 0 then (m, [])
    else
      var (before, answers) := Fold(step, cs, m, n - 1);
      var (after, a) := step(cs[n - 1], before);
      (after, answers + [a])
  }

  ghost function PlainRun(fm: FieldMap, cs: seq<Command>, m: map<string, seq<Int32>>, n: nat): (map<string, seq<Int32>>, seq<Answer>)
    requires n <= |cs|
  {
    Fold((c, before) => Plain(fm, c, before), cs, m, n)
  }

  /** An orderly query on either path leaves the table fit, and does to it what the query does to a
      plain map. */
  lemma StepPlain(fm: FieldMap, width: nat, c: Command, s: Contents, t: Contents, a: Answer)
    requires Fit(fm, width, s) && Orderly(fm, width, c, s.data) && Step(fm, c, s, t, a)
    ensures Fit(fm, width, t) && (AsMap(t.data), a) == Plain(fm, c, AsMap(s.data))
  {
    if ParallelStep(fm, c, s, t, a) {
      PathsAgree(fm, c, s, t, a);
    }
    StepRefines(fm, c, s, width);
  }

  /** step is what a query does to a plain map. */
  ghost predicate IsPlain(fm: FieldMap, step: (Command, map<string, seq<Int32>>) -> (map<string, seq<Int32>>, Answer)) {
    forall c, m {:trigger Plain(fm, c, m)} :: step(c, m) == Plain(fm, c, m)
  }

  lemma RunStep(fm: FieldMap, width: nat, cs: seq<Command>, states: seq<Contents>, answers: seq<Answer>, n: nat,
                step: (Command, map<string, seq<Int32>>) -> (map<string, seq<Int32>>, Answer))
    requires IsRun(fm, width, cs, states, answers) && 0 < n <= |cs| && Fit(fm, width, states[n - 1]) && IsPlain(fm, step)
    ensures Fit(fm, width, states[n])
    ensures (AsMap(states[n].data), answers[n - 1]) == step(cs[n - 1], AsMap(states[n - 1].data))
  {
    var i: nat := n - 1;
    assert GoesOn(fm, width, cs[i], states[i], states[i + 1], answers[i]);
    StepPlain(fm, width, cs[i], states[i], states[n], answers[i]);
  }

  lemma FoldNext<C>(step: (C, map<string, seq<Int32>>) -> (map<string, seq<Int32>>, Answer), cs: seq<C>,
                    m: map<string, seq<Int32>>, n: nat, before: map<string, seq<Int32>>, after: map<string, seq<Int32>>, answers: seq<Answer>)
    requires 0 < n <= |cs| && n <= |answers|
    requires Fold(step, cs, m, n - 1) == (before, answers[..n - 1]) && step(cs[n - 1], before) == (after, answers[n - 1])
    ensures Fold(step, cs, m, n) == (after, answers[..n])
  {
    assert answers[..n] == answers[..n - 1] + [answers[n - 1]];
  }

  lemma {:induction false} RunFolds(fm: FieldMap, width: nat, cs: seq<Command>, states: seq<Contents>, answers: seq<Answer>, n: nat,
                                    step: (Command, map<string, seq<Int32>>) -> (map<string, seq<Int32>>, Answer))
    requires IsRun(fm, width, cs, states, answers) && n <= |cs| && IsPlain(fm, step)
    ensures Fit(fm, width, states[n])
    ensures Fold(step, cs, AsMap(states[0].data), n) == (AsMap(states[n].data), answers[..n])
  {
    if n > 0 {
      RunFolds(fm, width, cs, states, answers, n - 1, step);
      RunStep(fm, width, cs, states, answers, n, step);
      FoldNext(step, cs, AsMap(states[0].data), n, AsMap(states[n - 1].data), AsMap(states[n].data), answers);
    }
  }

  /** Over every sequence of queries, each on the path its timing chose, the index is exact and the
      rows are wide at all times, and the table is the plain map and gives the plain map's answers. */
  lemma RunRefinesPlainMap(fm: FieldMap, width: nat, cs: seq<Command>, states: seq<Contents>, answers: seq<Answer>, n: nat)
    requires IsRun(fm, width, cs, states, answers) && n <= |cs|
    ensures Exact(states[n].data, states[n].keyMap) && UniqueKeys(states[n].data) && AllWide(states[n].data, width)
    ensures (AsMap(states[n].data), answers[..n]) == PlainRun(fm, cs, AsMap(states[0].data), n)
  {
    RunFolds(fm, width, cs, states, answers, n, (c, before) => Plain(fm, c, before));
  }

  /** Tables that hold the same rows in different orders cannot be told apart by any sequence of
      queries, whichever paths the queries take. */
  lemma OrderUnobservable(fm: FieldMap, width: nat, cs: seq<Command>, states1: seq<Contents>, answers1: seq<Answer>,
                          states2: seq<Contents>, answers2: seq<Answer>, n: nat)
    requires IsRun(fm, width, cs, states1, answers1) && IsRun(fm, width, cs, states2, answers2) && n <= |cs|
    requires AsMap(states1[0].data) == AsMap(states2[0].data)
    ensures answers1[..n] == answers2[..n]
    ensures UniqueKeys(states1[n].data) && UniqueKeys(states2[n].data)
    ensures AsMap(states1[n].data) == AsMap(states2[n].data)
  {
    RunRefinesPlainMap(fm, width, cs, states1, answers1, n);
    RunRefinesPlainMap(fm, width, cs, states2, answers2, n);
  }
}
