/** The main loop's stack of inputs: LISTEN reads another file in place. */
module Listen {
  import opened Values
  import opened Text

  /** The files that can be opened, as their contents. */
  type Files = map<string, string>

  function SemicolonAt(s: string): (n: nat)
    ensures n <= |s| && ';' !in s[..n]
    ensures n < |s| ==> s[n] == ';'
  {
    if s == "" || s[0] == ';' then 0 else 1 + SemicolonAt(s[1..])
  }

  /** extractQueryString: the text up to the next semicolon and what follows it; None is the
      "End of input" exception, after which the stream has nothing left. */
  function Extract(s: string): (r: (Option<string>, string))
    ensures r.0.Some? ==> |r.1| < |s|
  {
    var n := SemicolonAt(s);
    if n == |s| then (None, "") else (Some(s[..n]), s[n + 1..])
  }

  method ExtractQueryString(s: string) returns (query: Option<string>, rest: string)
    ensures (query, rest) == Extract(s)
    ensures if ';' in s then query.Some? && ';' !in query.value && s == query.value + ";" + rest else query.None?
  {
    ExtractSplits(s, "");
    var buf := "";
    while |buf| < |s|
      invariant |buf| <= |s| && buf == s[..|buf|]
      invariant SemicolonAt(s) == |buf| + SemicolonAt(s[|buf|..])
    {
      var ch := s[|buf|];
      if ch == ';' {
        return Some(buf), s[|buf| + 1..];
      }
      assert s[|buf|..][1..] == s[|buf| + 1..];
      buf := buf + [ch];
    }
    return None, "";
  }

  const LISTEN := "LISTEN"

  predicate Contains(s: string, part: string) {
    part <= s || (s != "" && Contains(s[1..], part))
  }

  /** Any text with LISTEN somewhere in it. */
  predicate IsListen(query: string) {
    Contains(query, LISTEN)
  }

  /** The third word, empty if there is none. */
  function PathOf(query: string): string {
    var ws := Words(query);
    if |ws| >= 3 then ws[2] else ""
  }

  predicate Opens(files: Files, path: string) {
    path != "" && path in files
  }

  /** What the program does in order: answer a LISTEN, or parse and execute a query. */
  datatype Event = Listening(path: string) | Query(text: string)

  /** The terminated queries of a text; unterminated trailing text is not among them. */
  function Queries(text: string): seq<string>
    decreases |text|
  {
    var (q, rest) := Extract(text);
    if q.None? then [] else [q.value] + Queries(rest)
  }

  lemma {:induction false} SemicolonBehind(q: string, rest: string)
    requires ';' !in q
    ensures SemicolonAt(q + ";" + rest) == |q|
  {
    if q == "" {
      assert q + ";" + rest == ";" + rest;
    } else {
      SemicolonBehind(q[1..], rest);
      assert (q + ";" + rest)[1..] == q[1..] + ";" + rest;
    }
  }

  /** A query ends at the first semicolon and the next one begins right behind it; without a semicolon
      there is no query. */
  lemma ExtractSplits(q: string, rest: string)
    ensures ';' !in q ==> Extract(q + ";" + rest) == (Some(q), rest)
    ensures Extract(q).0.None? <==> ';' !in q
  {
    if ';' !in q {
      SemicolonBehind(q, rest);
      var s := q + ";" + rest;
      assert s[..|q|] == q && s[|q| + 1..] == rest;
    }
    assert q[..|q|] == q;
  }

  /** Queries as they stand in a script, and what comes after the last semicolon. */
  function Script(queries: seq<string>, tail: string): string {
    if queries == [] then tail else queries[0] + ";" + Script(queries[1..], tail)
  }

  /** A script yields exactly its terminated queries, in order. */
  lemma {:induction false} QueriesOfScript(queries: seq<string>, tail: string)
    requires ';' !in tail && forall i :: 0 <= i < |queries| ==> ';' !in queries[i]
    ensures Queries(Script(queries, tail)) == queries
  {
    if queries == [] {
      ExtractSplits(tail, "");
    } else {
      ExtractSplits(queries[0], Script(queries[1..], tail));
      QueriesOfScript(queries[1..], tail);
      assert [queries[0]] + queries[1..] == queries;
    }
  }

  predicate StandsAt(s: string, part: string, i: nat) {
    i + |part| <= |s| && s[i..i + |part|] == part
  }

  lemma StandsLater(s: string, part: string, i: nat)
    requires StandsAt(s, part, i) && s != ""
    ensures i == 0 ==> part <= s
    ensures i > 0 ==> StandsAt(s[1..], part, i - 1)
  {
  }

  /** A text counts as LISTEN exactly if the six letters stand somewhere in it. */
  lemma {:induction false} ContainsMeans(s: string, part: string)
    ensures Contains(s, part) <==> exists i: nat :: StandsAt(s, part, i)
  {
    if part <= s {
      assert StandsAt(s, part, 0);
    } else if s != "" {
      ContainsMeans(s[1..], part);
      if i: nat :| StandsAt(s[1..], part, i) {
        assert StandsAt(s, part, i + 1);
      }
      if i: nat :| StandsAt(s, part, i) {
        StandsLater(s, part, i);
      }
    }
  }

  lemma ThirdWord(a: string, b: string, path: string, d: string)
    requires Clean(a) && Clean(b) && Clean(path) && Clean(d)
    ensures PathOf(Spaced([a, b, path, d])) == path && a <= Spaced([a, b, path, d])
  {
    var ws := [a, b, path, d];
    WordsOfSpaced(ws, "");
    assert "" + Spaced(ws) == Spaced(ws);
    assert Spaced(ws) == a + " " + Spaced(ws[1..]);
  }

  /** `LISTEN ( path )` is a LISTEN and names the path. */
  lemma PathIsThirdWord(path: string)
    requires Clean(path)
    ensures PathOf(Spaced(["LISTEN", "(", path, ")"])) == path
    ensures IsListen(Spaced(["LISTEN", "(", path, ")"]))
  {
    assert Clean("LISTEN") && Clean("(") && Clean(")");
    ThirdWord("LISTEN", "(", path, ")");
  }

  // ---------------------------------------------------------------- the meaning: inlining

  /** Every LISTEN among these queries that opens a file opens one of lower rank. */
  ghost predicate Below(files: Files, rank: map<string, nat>, queries: seq<string>, bound: nat) {
    forall i :: 0 <= i < |queries| && IsListen(queries[i]) && Opens(files, PathOf(queries[i])) ==>
      PathOf(queries[i]) in rank && rank[PathOf(queries[i])] < bound
  }

  /** rank witnesses that no file listens to itself, directly or through others. */
  ghost predicate Acyclic(files: Files, rank: map<string, nat>) {
    forall f :: f in files ==> f in rank && Below(files, rank, Queries(files[f]), rank[f])
  }

  /** The queries with every LISTEN followed by the whole of the file it names. The flag tells that a
      file could not be opened, which ends the program. */
  ghost function Inlined(files: Files, rank: map<string, nat>, queries: seq<string>, bound: nat): (seq<Event>, bool)
    requires Acyclic(files, rank) && Below(files, rank, queries, bound)
    decreases bound, |queries|
  {
    if queries == [] then ([], false)
    else
      BelowRest(files, rank, queries, bound);
      var q := queries[0];
      if !IsListen(q) then
        var (events, aborted) := Inlined(files, rank, queries[1..], bound);
        ([Query(q)] + events, aborted)
      else if !Opens(files, PathOf(q)) then ([], true)
      else
        var path := PathOf(q);
        var (inner, innerAborted) := Inlined(files, rank, Queries(files[path]), rank[path]);
        if innerAborted then ([Listening(path)] + inner, true)
        else
          var (events, aborted) := Inlined(files, rank, queries[1..], bound);
          ([Listening(path)] + inner + events, aborted)
  }

  lemma BelowRest(files: Files, rank: map<string, nat>, queries: seq<string>, bound: nat)
    requires Below(files, rank, queries, bound) && queries != []
    ensures Below(files, rank, queries[1..], bound)
  {
    forall i | 0 <= i < |queries[1..]| && IsListen(queries[1..][i]) && Opens(files, PathOf(queries[1..][i]))
      ensures PathOf(queries[1..][i]) in rank && rank[PathOf(queries[1..][i])] < bound
    {
      assert queries[1..][i] == queries[i + 1];
    }
  }

  // ---------------------------------------------------------------- the stack

  /** texts[i] is what is still to be read of input i, the innermost last; bounds[i] limits the ranks
      of the files that its queries listen to. */
  ghost predicate StackOk(files: Files, rank: map<string, nat>, texts: seq<string>, bounds: seq<nat>) {
    && |texts| == |bounds|
    && (texts == [] ||
        var n := |texts| - 1;
        Below(files, rank, Queries(texts[n]), bounds[n]) && StackOk(files, rank, texts[..n], bounds[..n]))
  }

  lemma StackTop(files: Files, rank: map<string, nat>, front: seq<string>, text: string, bounds: seq<nat>)
    ensures StackOk(files, rank, front + [text], bounds) <==>
      |bounds| == |front| + 1 && Below(files, rank, Queries(text), bounds[|front|]) && StackOk(files, rank, front, bounds[..|front|])
  {
    assert (front + [text])[..|front|] == front;
  }

  /** What is left to happen: the rest of the innermost input, then of the one around it, and so on. */
  ghost function Pending(files: Files, rank: map<string, nat>, texts: seq<string>, bounds: seq<nat>): (seq<Event>, bool)
    requires Acyclic(files, rank) && StackOk(files, rank, texts, bounds)
  {
    if texts == [] then ([], false)
    else
      var n := |texts| - 1;
      var (inner, aborted) := Inlined(files, rank, Queries(texts[n]), bounds[n]);
      if aborted then (inner, true)
      else
        var (outer, outerAborted) := Pending(files, rank, texts[..n], bounds[..n]);
        (inner + outer, outerAborted)
  }

  /** Turns of the main loop for these queries: one each, one for the end of the input, and those of
      the files listened to. */
  ghost function Turns(files: Files, rank: map<string, nat>, queries: seq<string>, bound: nat): nat
    requires Acyclic(files, rank) && Below(files, rank, queries, bound)
    decreases bound, |queries|
  {
    if queries == [] then 1
    else
      BelowRest(files, rank, queries, bound);
      var path := PathOf(queries[0]);
      1 + Turns(files, rank, queries[1..], bound)
      + (if IsListen(queries[0]) && Opens(files, path) then Turns(files, rank, Queries(files[path]), rank[path]) else 0)
  }

  ghost function StackTurns(files: Files, rank: map<string, nat>, texts: seq<string>, bounds: seq<nat>): nat
    requires Acyclic(files, rank) && StackOk(files, rank, texts, bounds)
  {
    if texts == [] then 0
    else
      var n := |texts| - 1;
      Turns(files, rank, Queries(texts[n]), bounds[n]) + StackTurns(files, rank, texts[..n], bounds[..n])
  }

  /** Joins what happened with what is to come. */
  function After(events: seq<Event>, pending: (seq<Event>, bool)): (seq<Event>, bool) {
    (events + pending.0, pending.1)
  }

  lemma AfterNext(events: seq<Event>, e: Event, pending: (seq<Event>, bool))
    ensures After(events, ([e] + pending.0, pending.1)) == After(events + [e], pending)
  {
    assert events + ([e] + pending.0) == (events + [e]) + pending.0;
  }

  lemma AfterNone(pending: (seq<Event>, bool))
    ensures After([], pending) == pending && pending.0 + [] == pending.0
  {
    assert [] + pending.0 == pending.0;
  }

  lemma QueriesCons(text: string)
    requires Extract(text).0.Some?
    ensures Queries(text) == [Extract(text).0.value] + Queries(Extract(text).1)
    ensures Queries(text)[1..] == Queries(Extract(text).1)
  {
  }

  lemma InlinedPlain(files: Files, rank: map<string, nat>, queries: seq<string>, bound: nat)
    requires Acyclic(files, rank) && Below(files, rank, queries, bound) && queries != [] && !IsListen(queries[0])
    ensures Below(files, rank, queries[1..], bound)
    ensures var (events, aborted) := Inlined(files, rank, queries[1..], bound);
      Inlined(files, rank, queries, bound) == ([Query(queries[0])] + events, aborted)
    ensures Turns(files, rank, queries, bound) == 1 + Turns(files, rank, queries[1..], bound)
  {
    BelowRest(files, rank, queries, bound);
  }

  lemma RegroupCons(e: Event, b: seq<Event>, c: seq<Event>)
    ensures ([e] + b) + c == [e] + (b + c)
  {
  }

  /** The loop's state after a turn stands for the same whole run. */
  ghost predicate Goes(files: Files, rank: map<string, nat>, texts: seq<string>, bounds: seq<nat>, e: Event, texts': seq<string>, bounds': seq<nat>)
    requires Acyclic(files, rank) && StackOk(files, rank, texts, bounds)
  {
    && StackOk(files, rank, texts', bounds')
    && StackTurns(files, rank, texts', bounds') < StackTurns(files, rank, texts, bounds)
    && Pending(files, rank, texts, bounds) ==
         ([e] + Pending(files, rank, texts', bounds').0, Pending(files, rank, texts', bounds').1)
  }

  /** A query that is not LISTEN: it happens, and its input shortens. */
  lemma PlainTurn(files: Files, rank: map<string, nat>, front: seq<string>, text: string, bounds: seq<nat>)
    requires Acyclic(files, rank) && StackOk(files, rank, front + [text], bounds)
    requires Extract(text).0.Some? && !IsListen(Extract(text).0.value)
    ensures Goes(files, rank, front + [text], bounds, Query(Extract(text).0.value), front + [Extract(text).1], bounds)
  {
    var (q, rest) := Extract(text);
    var n := |front|;
    QueriesCons(text);
    PendingTop(files, rank, front, text, bounds);
    InlinedPlain(files, rank, Queries(text), bounds[n]);
    StackReplace(files, rank, front, text, rest, bounds);
    PendingTop(files, rank, front, rest, bounds);
    RegroupCons(Query(q.value), Inlined(files, rank, Queries(rest), bounds[n]).0, Pending(files, rank, front, bounds[..n]).0);
  }

  /** The end of an input: the one around it goes on. */
  lemma EndTurn(files: Files, rank: map<string, nat>, front: seq<string>, text: string, bounds: seq<nat>)
    requires Acyclic(files, rank) && StackOk(files, rank, front + [text], bounds) && Extract(text).0.None?
    ensures StackOk(files, rank, front, bounds[..|front|])
    ensures Pending(files, rank, front, bounds[..|front|]) == Pending(files, rank, front + [text], bounds)
    ensures StackTurns(files, rank, front, bounds[..|front|]) < StackTurns(files, rank, front + [text], bounds)
  {
    assert Queries(text) == [];
    PendingTop(files, rank, front, text, bounds);
    AfterNone(Pending(files, rank, front, bounds[..|front|]));
  }

  lemma StackReplace(files: Files, rank: map<string, nat>, front: seq<string>, text: string, rest: string, bounds: seq<nat>)
    requires StackOk(files, rank, front + [text], bounds) && Below(files, rank, Queries(rest), bounds[|front|])
    ensures StackOk(files, rank, front + [rest], bounds) && StackOk(files, rank, front, bounds[..|front|])
  {
    StackTop(files, rank, front, text, bounds);
    StackTop(files, rank, front, rest, bounds);
  }

  lemma PendingTop(files: Files, rank: map<string, nat>, front: seq<string>, text: string, bounds: seq<nat>)
    requires Acyclic(files, rank) && StackOk(files, rank, front + [text], bounds)
    ensures StackOk(files, rank, front, bounds[..|front|]) && Below(files, rank, Queries(text), bounds[|front|])
    ensures var (inner, aborted) := Inlined(files, rank, Queries(text), bounds[|front|]);
      var outer := Pending(files, rank, front, bounds[..|front|]);
      Pending(files, rank, front + [text], bounds) == if aborted then (inner, true) else (inner + outer.0, outer.1)
    ensures StackTurns(files, rank, front + [text], bounds) ==
      Turns(files, rank, Queries(text), bounds[|front|]) + StackTurns(files, rank, front, bounds[..|front|])
  {
    var n := |front|;
    assert (front + [text])[n] == text && (front + [text])[..n] == front;
  }

  lemma InlinedListen(files: Files, rank: map<string, nat>, queries: seq<string>, bound: nat)
    requires Acyclic(files, rank) && Below(files, rank, queries, bound) && queries != [] && IsListen(queries[0])
    requires Opens(files, PathOf(queries[0]))
    ensures Below(files, rank, queries[1..], bound)
    ensures var path := PathOf(queries[0]);
      && path in rank && Below(files, rank, Queries(files[path]), rank[path])
      && var (inner, innerAborted) := Inlined(files, rank, Queries(files[path]), rank[path]);
         var (events, aborted) := Inlined(files, rank, queries[1..], bound);
         && Inlined(files, rank, queries, bound) ==
              (if innerAborted then ([Listening(path)] + inner, true) else ([Listening(path)] + inner + events, aborted))
         && Turns(files, rank, queries, bound) ==
              1 + Turns(files, rank, queries[1..], bound) + Turns(files, rank, Queries(files[path]), rank[path])
  {
    BelowRest(files, rank, queries, bound);
  }

  /** A LISTEN that opens: its file goes on top of the rest of the input. */
  lemma ListenTurn(files: Files, rank: map<string, nat>, front: seq<string>, text: string, bounds: seq<nat>)
    requires Acyclic(files, rank) && StackOk(files, rank, front + [text], bounds)
    requires Extract(text).0.Some? && IsListen(Extract(text).0.value) && Opens(files, PathOf(Extract(text).0.value))
    ensures var path := PathOf(Extract(text).0.value);
      && path in rank
      && Goes(files, rank, front + [text], bounds, Listening(path), front + [Extract(text).1] + [files[path]], bounds + [rank[path]])
  {
    var (q, rest) := Extract(text);
    var path, n := PathOf(q.value), |front|;
    QueriesCons(text);
    PendingTop(files, rank, front, text, bounds);
    InlinedListen(files, rank, Queries(text), bounds[n]);
    StackReplace(files, rank, front, text, rest, bounds);
    var bounds' := bounds + [rank[path]];
    assert bounds'[..n + 1] == bounds;
    StackPush(files, rank, front + [rest], bounds, files[path], rank[path]);
    PendingTop(files, rank, front + [rest], files[path], bounds');
    PendingTop(files, rank, front, rest, bounds);
    var (inner, innerAborted) := Inlined(files, rank, Queries(files[path]), rank[path]);
    var (mid, midAborted) := Inlined(files, rank, Queries(rest), bounds[n]);
    Regroup(Listening(path), inner, mid, Pending(files, rank, front, bounds[..n]).0);
  }

  lemma Regroup(e: Event, a: seq<Event>, b: seq<Event>, c: seq<Event>)
    ensures [e] + a + b + c == [e] + (a + (b + c))
    ensures [e] + a + b == [e] + (a + b)
  {
  }

  lemma StackPush(files: Files, rank: map<string, nat>, texts: seq<string>, bounds: seq<nat>, text: string, bound: nat)
    requires StackOk(files, rank, texts, bounds) && Below(files, rank, Queries(text), bound)
    ensures StackOk(files, rank, texts + [text], bounds + [bound])
  {
    assert (bounds + [bound])[..|bounds|] == bounds;
    StackTop(files, rank, texts, text, bounds + [bound]);
  }

  /** At the start everything is still to come. */
  lemma PendingFirst(files: Files, rank: map<string, nat>, first: string, top: nat)
    requires Acyclic(files, rank) && Below(files, rank, Queries(first), top)
    ensures StackOk(files, rank, [first], [top])
    ensures After([], Pending(files, rank, [first], [top])) == Inlined(files, rank, Queries(first), top)
  {
    assert [] + [first] == [first];
    StackTop(files, rank, [], first, [top]);
    PendingTop(files, rank, [], first, [top]);
    AfterNone(Inlined(files, rank, Queries(first), top));
  }

  /** A LISTEN that does not open ends the program. */
  lemma AbortTurn(files: Files, rank: map<string, nat>, front: seq<string>, text: string, bounds: seq<nat>)
    requires Acyclic(files, rank) && StackOk(files, rank, front + [text], bounds)
    requires Extract(text).0.Some? && IsListen(Extract(text).0.value) && !Opens(files, PathOf(Extract(text).0.value))
    ensures Pending(files, rank, front + [text], bounds) == ([], true)
  {
    QueriesCons(text);
    PendingTop(files, rank, front, text, bounds);
  }

  /** A script without LISTEN is executed query by query. */
  lemma {:induction false} PlainInlined(files: Files, rank: map<string, nat>, queries: seq<string>, bound: nat)
    requires Acyclic(files, rank) && Below(files, rank, queries, bound)
    requires forall i :: 0 <= i < |queries| ==> !IsListen(queries[i])
    ensures var (events, aborted) := Inlined(files, rank, queries, bound);
      !aborted && |events| == |queries| && forall i :: 0 <= i < |queries| ==> events[i] == Query(queries[i])
  {
    if queries != [] {
      InlinedPlain(files, rank, queries, bound);
      PlainInlined(files, rank, queries[1..], bound);
    }
  }

  /** `LISTEN ( path )` followed by `rest`: the whole of an existing file comes in between, and a file that
      does not exist ends the program. */
  lemma ListenInlines(files: Files, rank: map<string, nat>, path: string, rest: seq<string>, bound: nat)
    requires Acyclic(files, rank) && Clean(path)
    requires Below(files, rank, [Spaced(["LISTEN", "(", path, ")"])] + rest, bound)
    ensures path !in files ==> Inlined(files, rank, [Spaced(["LISTEN", "(", path, ")"])] + rest, bound) == ([], true)
    ensures path in files ==>
      && path in rank && Below(files, rank, Queries(files[path]), rank[path]) && Below(files, rank, rest, bound)
      && var inner := Inlined(files, rank, Queries(files[path]), rank[path]);
         var after := Inlined(files, rank, rest, bound);
         Inlined(files, rank, [Spaced(["LISTEN", "(", path, ")"])] + rest, bound) ==
           if inner.1 then ([Listening(path)] + inner.0, true) else ([Listening(path)] + inner.0 + after.0, after.1)
  {
    PathIsThirdWord(path);
    ListenFirst(files, rank, Spaced(["LISTEN", "(", path, ")"]), path, rest, bound);
  }

  lemma ListenFirst(files: Files, rank: map<string, nat>, q: string, path: string, rest: seq<string>, bound: nat)
    requires Acyclic(files, rank) && IsListen(q) && PathOf(q) == path && path != "" && Below(files, rank, [q] + rest, bound)
    ensures path !in files ==> Inlined(files, rank, [q] + rest, bound) == ([], true)
    ensures path in files ==>
      && path in rank && Below(files, rank, Queries(files[path]), rank[path]) && Below(files, rank, rest, bound)
      && var inner := Inlined(files, rank, Queries(files[path]), rank[path]);
         var after := Inlined(files, rank, rest, bound);
         Inlined(files, rank, [q] + rest, bound) ==
           if inner.1 then ([Listening(path)] + inner.0, true) else ([Listening(path)] + inner.0 + after.0, after.1)
  {
    assert ([q] + rest)[0] == q && ([q] + rest)[1..] == rest;
    if path in files {
      InlinedListen(files, rank, [q] + rest, bound);
    }
  }

  // ---------------------------------------------------------------- the main loop

  /** Answers are numbered; a text that no builder takes gets no number. */
  function Numbered(accepted: string -> bool, events: seq<Event>): nat {
    if events == [] then 0
    else
      var last := events[|events| - 1];
      Numbered(accepted, events[..|events| - 1]) + (if last.Listening? || accepted(last.text) then 1 else 0)
  }

  /** Positions of the events that get a number. */
  ghost function Answered(accepted: string -> bool, events: seq<Event>): set<nat> {
    set i: nat | i < |events| && (events[i].Query? ==> accepted(events[i].text))
  }

  lemma AnsweredNext(accepted: string -> bool, events: seq<Event>)
    requires events != []
    ensures var n := |events| - 1;
      && Answered(accepted, events) == Answered(accepted, events[..n]) + (if events[n].Query? ==> accepted(events[n].text) then {n} else {})
      && n !in Answered(accepted, events[..n])
  {
    var n := |events| - 1;
    forall i: nat | i < n ensures i in Answered(accepted, events) <==> i in Answered(accepted, events[..n]) {
      assert events[..n][i] == events[i];
    }
  }

  /** The number of answers is how many of the events are a LISTEN or an accepted query. */
  lemma {:induction false} NumberedIsSize(accepted: string -> bool, events: seq<Event>)
    ensures Numbered(accepted, events) == |Answered(accepted, events)|
  {
    if events == [] {
      assert Answered(accepted, events) == {};
    } else {
      NumberedIsSize(accepted, events[..|events| - 1]);
      AnsweredNext(accepted, events);
    }
  }

  lemma NumberedNext(accepted: string -> bool, events: seq<Event>, e: Event)
    ensures Numbered(accepted, events + [e]) ==
      Numbered(accepted, events) + (if e.Listening? || accepted(e.text) then 1 else 0)
  {
    assert (events + [e])[..|events|] == events;
  }

  /** With an acyclic LISTEN relation the loop ends, whatever the nesting, and what it has executed is
      the first input with every listened file inlined, up to the first file that does not open. */
  method MainLoop(files: Files, first: string, accepted: string -> bool, ghost rank: map<string, nat>, ghost top: nat)
    returns (events: seq<Event>, counter: nat, aborted: bool)
    requires Acyclic(files, rank) && Below(files, rank, Queries(first), top)
    ensures (events, aborted) == Inlined(files, rank, Queries(first), top)
    ensures counter == Numbered(accepted, events)
  {
    var inputlist := [first];
    ghost var bounds := [top];
    events, counter := [], 0;
    PendingFirst(files, rank, first, top);
    ghost var whole := Inlined(files, rank, Queries(first), top);
    while inputlist != []
      invariant StackOk(files, rank, inputlist, bounds)
      invariant After(events, Pending(files, rank, inputlist, bounds)) == whole
      invariant counter == Numbered(accepted, events)
      decreases StackTurns(files, rank, inputlist, bounds)
    {
      var n := |inputlist| - 1;
      ghost var front, text := inputlist[..n], inputlist[n];
      assert inputlist == front + [text];
      var query, rest := ExtractQueryString(inputlist[n]);
      if query.None? {
        EndTurn(files, rank, front, text, bounds);
        if |inputlist| == 1 {
          assert front == [];
          break;
        }
        inputlist, bounds := inputlist[..n], bounds[..n];
        continue;
      }
      var event;
      if IsListen(query.value) {
        var path := PathOf(query.value);
        if !Opens(files, path) {
          AbortTurn(files, rank, front, text, bounds);
          AfterNone((events, true));
          return events, counter, true;
        }
        ListenTurn(files, rank, front, text, bounds);
        event := Listening(path);
        inputlist := inputlist[..n] + [rest] + [files[path]];
        bounds := bounds + [rank[path]];
        counter := counter + 1;
      } else {
        PlainTurn(files, rank, front, text, bounds);
        event := Query(query.value);
        inputlist := inputlist[..n] + [rest];
        if accepted(query.value) {
          counter := counter + 1;
        }
      }
      AfterNext(events, event, Pending(files, rank, inputlist, bounds));
      NumberedNext(accepted, events, event);
      events := events + [event];
    }
    AfterNone((events, false));
    aborted := false;
  }
}
