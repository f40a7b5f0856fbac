/** Query text: the tokenizer, the token grammar of the complex queries, and the builder chain. */
module Grammar {
  import opened Values
  import opened Text

  /** The three words of one parenthesised condition. */
  datatype Triple = Triple(field: string, op: string, value: string)

  /** op ( operands ) FROM table WHERE conds */
  datatype Parsed = Parsed(operands: seq<string>, table: string, conds: seq<Triple>)

  // ---------------------------------------------------------------- the grammar

  function CondTokens(conds: seq<Triple>): seq<string> {
    if conds == [] then []
    else ["(", conds[0].field, conds[0].op, conds[0].value, ")"] + CondTokens(conds[1..])
  }

  /** The tokens of a query: the parentheses may go when there is no operand, and so may WHERE when
      there is no condition. */
  function Sentence(op: string, p: Parsed, parens: bool, wher: bool): seq<string> {
    [op] + OperandPart(p.operands, parens) + ["FROM", p.table] + WherePart(p.conds, wher)
  }

  function OperandPart(operands: seq<string>, parens: bool): seq<string> {
    if parens then ["("] + operands + [")"] else []
  }

  function WherePart(conds: seq<Triple>, wher: bool): seq<string> {
    if wher then ["WHERE"] + CondTokens(conds) else []
  }

  /** The tokens say p, in one of its spellings. No operand can be a closing parenthesis. */
  ghost predicate Says(tokens: seq<string>, p: Parsed) {
    && ")" !in p.operands
    && exists parens, wher ::
         && (parens || p.operands == []) && (wher || p.conds == [])
         && tokens != [] && tokens == Sentence(tokens[0], p, parens, wher)
  }

  // ---------------------------------------------------------------- parseToken

  /** How many tokens stand before the first ")". */
  function CloseAt(tokens: seq<string>): (n: nat)
    ensures n <= |tokens| && ")" !in tokens[..n]
    ensures n < |tokens| ==> tokens[n] == ")"
  {
    if tokens == [] || tokens[0] == ")" then 0 else 1 + CloseAt(tokens[1..])
  }

  function ParseConds(tokens: seq<string>): Option<seq<Triple>> {
    if tokens == [] then Some([])
    else if |tokens| < 5 || tokens[0] != "(" || tokens[4] != ")" then None
    else Prepend([Triple(tokens[1], tokens[2], tokens[3])], ParseConds(tokens[5..]))
  }

  /** From the table name on. */
  function ParseTail(operands: seq<string>, tokens: seq<string>): Option<Parsed> {
    if tokens == [] then None
    else if |tokens| == 1 then Some(Parsed(operands, tokens[0], []))
    else if tokens[1] != "WHERE" then None
    else
      var conds := ParseConds(tokens[2..]);
      if conds.None? then None else Some(Parsed(operands, tokens[0], conds.value))
  }

  /** What parseToken accepts, and as what; `rest` follows the operation. */
  function Parse(rest: seq<string>): Option<Parsed> {
    if rest == [] then None
    else if rest[0] == "FROM" then ParseTail([], rest[1..])
    else if rest[0] != "(" then None
    else
      var n := CloseAt(rest[1..]);
      if n + 2 >= |rest| || rest[n + 2] != "FROM" then None
      else ParseTail(rest[1..n + 1], rest[n + 3..])
  }

  lemma {:induction false} CondsBack(conds: seq<Triple>)
    ensures ParseConds(CondTokens(conds)) == Some(conds)
  {
    if conds != [] {
      CondsBack(conds[1..]);
      var ts := CondTokens(conds);
      assert ts[5..] == CondTokens(conds[1..]);
      assert [conds[0]] + conds[1..] == conds;
    }
  }

  lemma {:induction false} CondsMean(tokens: seq<string>)
    ensures ParseConds(tokens).Some? ==> CondTokens(ParseConds(tokens).value) == tokens
  {
    if ParseConds(tokens).Some? && tokens != [] {
      CondsMean(tokens[5..]);
      var conds := ParseConds(tokens).value;
      assert conds[1..] == ParseConds(tokens[5..]).value;
      assert tokens == [tokens[0], tokens[1], tokens[2], tokens[3], tokens[4]] + tokens[5..];
    }
  }

  lemma {:induction false} CloseIs(operands: seq<string>, rest: seq<string>)
    requires ")" !in operands
    ensures CloseAt(operands + [")"] + rest) == |operands|
  {
    if operands == [] {
      assert operands + [")"] + rest == [")"] + rest;
    } else {
      CloseIs(operands[1..], rest);
      assert (operands + [")"] + rest)[1..] == operands[1..] + [")"] + rest;
    }
  }

  function Tail(p: Parsed, wher: bool): seq<string> {
    [p.table] + WherePart(p.conds, wher)
  }

  lemma TailBack(p: Parsed, wher: bool)
    requires wher || p.conds == []
    ensures ParseTail(p.operands, Tail(p, wher)) == Some(p)
  {
    if wher {
      CondsBack(p.conds);
      assert Tail(p, wher)[2..] == CondTokens(p.conds);
    }
  }

  lemma TailMeans(operands: seq<string>, tokens: seq<string>)
    ensures ParseTail(operands, tokens).Some? ==>
      var p := ParseTail(operands, tokens).value;
      p.operands == operands && tokens == Tail(p, |tokens| > 1) && (|tokens| > 1 || p.conds == [])
  {
    if ParseTail(operands, tokens).Some? && |tokens| > 1 {
      CondsMean(tokens[2..]);
      assert tokens == [tokens[0], tokens[1]] + tokens[2..];
    }
  }

  lemma SentenceParts(op: string, p: Parsed, parens: bool, wher: bool)
    ensures Sentence(op, p, parens, wher) == [op] + (OperandPart(p.operands, parens) + (["FROM"] + Tail(p, wher)))
  {
  }

  lemma ParseBackParens(operands: seq<string>, tail: seq<string>)
    requires ")" !in operands
    ensures Parse(OperandPart(operands, true) + (["FROM"] + tail)) == ParseTail(operands, tail)
  {
    CloseIs(operands, ["FROM"] + tail);
    ParensSlices(operands, tail);
  }

  lemma ParensSlices(operands: seq<string>, tail: seq<string>)
    ensures var rest, n := OperandPart(operands, true) + (["FROM"] + tail), |operands|;
      && |rest| == n + 3 + |tail| && rest[0] == "(" && rest[n + 2] == "FROM"
      && rest[1..] == operands + [")"] + (["FROM"] + tail)
      && rest[1..n + 1] == operands && rest[n + 3..] == tail
  {
  }

  lemma ParseBack(p: Parsed, parens: bool, wher: bool)
    requires ")" !in p.operands && (parens || p.operands == []) && (wher || p.conds == [])
    ensures Parse(OperandPart(p.operands, parens) + (["FROM"] + Tail(p, wher))) == Some(p)
  {
    TailBack(p, wher);
    if parens {
      ParseBackParens(p.operands, Tail(p, wher));
    } else {
      assert [] + (["FROM"] + Tail(p, wher)) == ["FROM"] + Tail(p, wher);
    }
  }

  /** rest is what follows the operation in some spelling of p. */
  ghost predicate Spells(rest: seq<string>, p: Parsed, parens: bool, wher: bool) {
    && ")" !in p.operands && (parens || p.operands == []) && (wher || p.conds == [])
    && rest == OperandPart(p.operands, parens) + (["FROM"] + Tail(p, wher))
  }

  lemma ParseMeansBare(rest: seq<string>)
    requires Parse(rest).Some? && rest[0] == "FROM"
    ensures Spells(rest, Parse(rest).value, false, |rest| > 2)
  {
    TailMeans([], rest[1..]);
    assert rest == ["FROM"] + rest[1..];
    assert [] + (["FROM"] + rest[1..]) == ["FROM"] + rest[1..];
  }

  lemma ParseMeansParens(rest: seq<string>)
    requires Parse(rest).Some? && rest[0] == "("
    ensures exists wher :: Spells(rest, Parse(rest).value, true, wher)
  {
    var n := CloseAt(rest[1..]);
    var operands, tail := rest[1..n + 1], rest[n + 3..];
    TailMeans(operands, tail);
    assert rest[1..][..n] == operands && rest[1..][n] == rest[n + 1];
    CutAround(rest, n);
    assert Spells(rest, Parse(rest).value, true, |tail| > 1);
  }

  lemma CutAround(rest: seq<string>, n: nat)
    requires n + 2 < |rest| && rest[0] == "(" && rest[n + 1] == ")" && rest[n + 2] == "FROM"
    ensures rest == OperandPart(rest[1..n + 1], true) + (["FROM"] + rest[n + 3..])
  {
  }

  /** parseToken accepts exactly the sentences of the grammar, and each of them in one way only. */
  lemma ParseExact(tokens: seq<string>, p: Parsed)
    requires tokens != []
    ensures Parse(tokens[1..]) == Some(p) <==> Says(tokens, p)
  {
    if Says(tokens, p) {
      var parens, wher :| (parens || p.operands == []) && (wher || p.conds == [])
         && tokens == Sentence(tokens[0], p, parens, wher);
      SentenceParts(tokens[0], p, parens, wher);
      ParseBack(p, parens, wher);
      assert tokens[1..] == OperandPart(p.operands, parens) + (["FROM"] + Tail(p, wher));
    }
    if Parse(tokens[1..]) == Some(p) {
      var rest := tokens[1..];
      if rest[0] == "FROM" {
        ParseMeansBare(rest);
      } else {
        ParseMeansParens(rest);
      }
      var parens, wher :| Spells(rest, p, parens, wher);
      SpellsSays(tokens, p, parens, wher);
    }
  }

  lemma SpellsSays(tokens: seq<string>, p: Parsed, parens: bool, wher: bool)
    requires tokens != [] && Spells(tokens[1..], p, parens, wher)
    ensures Says(tokens, p)
  {
    var sentence := Sentence(tokens[0], p, parens, wher);
    SentenceParts(tokens[0], p, parens, wher);
    assert tokens == [tokens[0]] + tokens[1..] == sentence;
  }

  lemma Slices(token: seq<string>, c: nat)
    requires c + 2 <= |token|
    ensures token[1..][1..] == token[2..] && token[1..][1..c + 1] == token[2..c + 2]
    ensures c + 4 <= |token| ==> token[1..][c + 3..] == token[c + 4..]
  {
  }

  lemma TailOperands(operands: seq<string>, tokens: seq<string>)
    ensures ParseTail(operands, tokens) ==
      var p := ParseTail([], tokens);
      if p.None? then None else Some(p.value.(operands := operands))
  {
  }

  /** The builder's fields, into which parseToken pushes; clear() is all that empties them. */
  class ComplexQueryBuilder {
    var targetTable: string
    var operandToken: seq<string>
    var conditionToken: seq<Triple>

    constructor ()
    {
      targetTable, operandToken, conditionToken := "", [], [];
    }

    method Clear()
      modifies this
      ensures targetTable == "" && operandToken == [] && conditionToken == []
    {
      conditionToken := [];
      targetTable := "";
      operandToken := [];
    }

    /** False stands for IllFormedQuery; the fields then hold whatever had been pushed. On the two
        tokens `op (` the program reads past the end of the list. */
    method ParseToken(token: seq<string>) returns (ok: bool)
      requires token != [] && (|token| == 2 ==> token[1] != "(")
      modifies this
      ensures ok <==> Parse(token[1..]).Some?
      ensures ok ==> var p := Parse(token[1..]).value;
        operandToken == old(operandToken) + p.operands && targetTable == p.table
        && conditionToken == old(conditionToken) + p.conds
    {
      var it := 1;
      if it == |token| {
        return false;
      }
      ghost var rest := token[1..];
      if token[it] != "FROM" {
        if token[it] != "(" {
          return false;
        }
        Slices(token, 0);
        ok, it := ParseOperands(token);
        if !ok {
          return false;
        }
        ghost var c := CloseAt(rest[1..]);
        Slices(token, c);
        it := it + 1;
        if it == |token| || token[it] != "FROM" {
          return false;
        }
      }
      assert token[it] == "FROM" && (it == 1 ==> token[it + 1..] == rest[1..]);
      TailOperands(if it == 1 then [] else rest[1..CloseAt(rest[1..]) + 1], token[it + 1..]);
      ok := ParseFrom(token, it);
    }

    /** The operands after "(", up to the first ")". */
    method ParseOperands(token: seq<string>) returns (closed: bool, it: nat)
      requires |token| > 2
      modifies this`operandToken
      ensures it == 2 + CloseAt(token[2..]) <= |token|
      ensures closed <==> it < |token|
      ensures operandToken == old(operandToken) + token[2..it]
    {
      it := 2;
      while token[it] != ")"
        invariant 2 <= it < |token|
        invariant operandToken == old(operandToken) + token[2..it]
        invariant CloseAt(token[2..]) == it - 2 + CloseAt(token[it..])
        decreases |token| - it
      {
        operandToken := operandToken + [token[it]];
        assert token[2..it + 1] == token[2..it] + [token[it]];
        assert token[it..][1..] == token[it + 1..];
        it := it + 1;
        if it == |token| {
          return false, it;
        }
      }
      return true, it;
    }

    /** From FROM on. */
    method ParseFrom(token: seq<string>, from: nat) returns (ok: bool)
      requires from < |token|
      modifies this`targetTable, this`conditionToken
      ensures var p := ParseTail([], token[from + 1..]);
        && (ok <==> p.Some?)
        && (ok ==> targetTable == p.value.table && conditionToken == old(conditionToken) + p.value.conds)
    {
      var it := from + 1;
      if it == |token| {
        return false;
      }
      targetTable := token[it];
      it := it + 1;
      if it == |token| {
        return true;
      }
      if token[it] != "WHERE" {
        return false;
      }
      ok := ParseWhere(token, it + 1);
    }

    /** The conditions after WHERE. */
    method ParseWhere(token: seq<string>, start: nat) returns (ok: bool)
      requires start <= |token|
      modifies this`conditionToken
      ensures var conds := ParseConds(token[start..]);
        && (ok <==> conds.Some?)
        && (ok ==> conditionToken == old(conditionToken) + conds.value)
    {
      var it := start;
      ghost var pushed: seq<Triple> := [];
      PrependNone(ParseConds(token[start..]));
      while it != |token|
        invariant start <= it <= |token|
        invariant conditionToken == old(conditionToken) + pushed
        invariant ParseConds(token[start..]) == Prepend(pushed, ParseConds(token[it..]))
        decreases |token| - it
      {
        if token[it] != "(" || it + 1 == |token| || it + 2 == |token| || it + 3 == |token| {
          return false;
        }
        var cond := Triple(token[it + 1], token[it + 2], token[it + 3]);
        if it + 4 == |token| || token[it + 4] != ")" {
          return false;
        }
        assert token[it..][5..] == token[it + 5..];
        PrependOne(pushed, cond, ParseConds(token[it + 5..]));
        conditionToken := conditionToken + [cond];
        pushed := pushed + [cond];
        it := it + 5;
      }
      return true;
    }
  }

  // ---------------------------------------------------------------- the chain

  const OPERATIONS := ["INSERT", "UPDATE", "SELECT", "DELETE", "DUPLICATE", "COUNT", "SUM", "MIN", "MAX", "ADD", "SUB", "SWAP"]

  /** NoMatch stands for QueryBuilderMatchFailed. */
  datatype QueryText = Complex(op: string, query: Parsed) | Managed(token: seq<string>) | NoMatch

  /** Commands that the first two builders take. */
  predicate IsManaged(token: seq<string>) {
    || (|token| == 1 && token[0] in ["LIST", "QUIT"])
    || (|token| == 2 && token[0] in ["SHOWTABLE", "LOAD", "DROP", "TRUNCATE"])
    || (|token| == 3 && token[0] in ["DUMP", "COPYTABLE"])
  }

  /** What a query text is, whoever asked before. */
  function Meaning(token: seq<string>): QueryText {
    if token == [] then NoMatch
    else if IsManaged(token) then Managed(token)
    else if Parse(token[1..]).Some? && token[0] in OPERATIONS then Complex(token[0], Parse(token[1..]).value)
    else NoMatch
  }

  /** For instance: op ( a b ) FROM t WHERE ( f o v ) */
  lemma OneConditionSays(token: seq<string>, op: string, a: string, b: string, t: string, f: string, o: string, v: string)
    requires token == [op, "(", a, b, ")", "FROM", t, "WHERE", "(", f, o, v, ")"] && a != ")" && b != ")"
    ensures Says(token, Parsed([a, b], t, [Triple(f, o, v)]))
  {
    var p := Parsed([a, b], t, [Triple(f, o, v)]);
    assert p.conds[1..] == [];
    assert CondTokens(p.conds) == ["(", f, o, v, ")"];
    assert token[0] == op && token == Sentence(op, p, true, true);
    assert ")" !in p.operands && token == Sentence(token[0], p, true, true);
  }

  /** The words of the management commands, and how many tokens each comes with. */
  lemma ManagementWords(token: seq<string>)
    ensures Meaning(token).Managed? <==>
      || (|token| == 1 && (token[0] == "LIST" || token[0] == "QUIT"))
      || (|token| == 2 && (token[0] == "SHOWTABLE" || token[0] == "LOAD" || token[0] == "DROP" || token[0] == "TRUNCATE"))
      || (|token| == 3 && (token[0] == "DUMP" || token[0] == "COPYTABLE"))
    ensures Meaning(token).Managed? ==> Meaning(token).token == token
  {
  }

  /** A sentence of the grammar is a query exactly if it begins with one of the twelve operations. */
  lemma OperationWords(token: seq<string>, p: Parsed)
    requires Says(token, p)
    ensures Meaning(token) == Complex(token[0], p) <==>
      || token[0] == "INSERT" || token[0] == "UPDATE" || token[0] == "SELECT" || token[0] == "DELETE"
      || token[0] == "DUPLICATE" || token[0] == "COUNT" || token[0] == "SUM" || token[0] == "MIN" || token[0] == "MAX"
      || token[0] == "ADD" || token[0] == "SUB" || token[0] == "SWAP"
  {
    ParseExact(token, p);
    OperationNamed(token[0]);
    if token[0] in OPERATIONS {
      OperationsAreNotManaged(token[0], token);
    }
  }

  lemma OperationNamed(op: string)
    ensures op in OPERATIONS <==>
      || op == "INSERT" || op == "UPDATE" || op == "SELECT" || op == "DELETE" || op == "DUPLICATE" || op == "COUNT"
      || op == "SUM" || op == "MIN" || op == "MAX" || op == "ADD" || op == "SUB" || op == "SWAP"
  {
    assert OPERATIONS[0] == "INSERT" && OPERATIONS[1] == "UPDATE" && OPERATIONS[2] == "SELECT" && OPERATIONS[3] == "DELETE";
    assert OPERATIONS[4] == "DUPLICATE" && OPERATIONS[5] == "COUNT" && OPERATIONS[6] == "SUM" && OPERATIONS[7] == "MIN";
    assert OPERATIONS[8] == "MAX" && OPERATIONS[9] == "ADD" && OPERATIONS[10] == "SUB" && OPERATIONS[11] == "SWAP";
    assert |OPERATIONS| == 12;
  }

  /** The text reads past the end of its tokens. */
  predicate Overruns(token: seq<string>) {
    |token| == 2 && token[1] == "("
  }

  class QueryParser {
    const complex: ComplexQueryBuilder

    constructor ()
      ensures fresh(complex)
    {
      complex := new ComplexQueryBuilder();
    }

    method TokenizeQueryString(queryString: string) returns (token: seq<string>)
      ensures token == Words(queryString)
    {
      token := [];
      var s := queryString;
      var more := true;
      while more
        invariant Words(queryString) == token + (if more then Words(s) else [])
        decreases more, |s|
      {
        var (tStr, rest) := ReadWord(s);
        if tStr.Some? {
          assert token + ([tStr.value] + Words(rest)) == (token + [tStr.value]) + Words(rest);
          token := token + [tStr.value];
        } else {
          assert token + [] == token;
          more := false;
        }
        s := rest;
      }
    }

    /** LIST, DROP and the like never reach parseToken, so only other texts can overrun. The answer
        depends on the text alone: nothing that the builder collected for earlier queries,
        accepted or rejected, gets into it. */
    method ParseQuery(queryString: string) returns (q: QueryText)
      requires !IsManaged(Words(queryString)) ==> !Overruns(Words(queryString))
      modifies complex
      ensures q == Meaning(Words(queryString))
    {
      var t := TokenizeQueryString(queryString);
      if t == [] {
        return NoMatch;
      }
      complex.Clear();
      if IsManaged(t) {
        return Managed(t);
      }
      var ok := complex.ParseToken(t);
      if ok && t[0] in OPERATIONS {
        assert [] + Parse(t[1..]).value.operands == Parse(t[1..]).value.operands;
        assert [] + Parse(t[1..]).value.conds == Parse(t[1..]).value.conds;
        return Complex(t[0], Parsed(complex.operandToken, complex.targetTable, complex.conditionToken));
      }
      return NoMatch;
    }
  }

  ghost predicate CleanQuery(p: Parsed) {
    && (forall i :: 0 <= i < |p.operands| ==> Clean(p.operands[i]) && p.operands[i] != ")")
    && Clean(p.table)
    && (forall i :: 0 <= i < |p.conds| ==> Clean(p.conds[i].field) && Clean(p.conds[i].op) && Clean(p.conds[i].value))
  }

  lemma {:induction false} CondTokensClean(conds: seq<Triple>)
    requires forall i :: 0 <= i < |conds| ==> Clean(conds[i].field) && Clean(conds[i].op) && Clean(conds[i].value)
    ensures forall i :: 0 <= i < |CondTokens(conds)| ==> Clean(CondTokens(conds)[i])
  {
    if conds != [] {
      CondTokensClean(conds[1..]);
      assert Clean("(") && Clean(")");
    }
  }

  lemma SentenceClean(op: string, p: Parsed, parens: bool, wher: bool)
    requires Clean(op) && CleanQuery(p)
    ensures forall i :: 0 <= i < |Sentence(op, p, parens, wher)| ==> Clean(Sentence(op, p, parens, wher)[i])
  {
    CondTokensClean(p.conds);
    KeywordsClean();
  }

  lemma KeywordsClean()
    ensures Clean("(") && Clean(")") && Clean("FROM") && Clean("WHERE")
  {
  }

  lemma OperationsAreNotManaged(op: string, tokens: seq<string>)
    requires op in OPERATIONS && tokens != [] && tokens[0] == op
    ensures !IsManaged(tokens)
  {
    var i :| 0 <= i < |OPERATIONS| && OPERATIONS[i] == op;
  }

  lemma OperationsAreClean(op: string)
    requires op in OPERATIONS
    ensures Clean(op)
  {
    var i :| 0 <= i < |OPERATIONS| && OPERATIONS[i] == op;
  }

  /** Printing a query in any of its spellings, tokenizing and parsing it gives the query back. */
  lemma PrintParse(op: string, p: Parsed, parens: bool, wher: bool)
    requires op in OPERATIONS && CleanQuery(p)
    requires (parens || p.operands == []) && (wher || p.conds == [])
    ensures Meaning(Words(Spaced(Sentence(op, p, parens, wher)))) == Complex(op, p)
    ensures !Overruns(Words(Spaced(Sentence(op, p, parens, wher))))
  {
    var tokens := Sentence(op, p, parens, wher);
    OperationsAreNotManaged(op, tokens);
    OperationsAreClean(op);
    SentenceClean(op, p, parens, wher);
    WordsOfSpaced(tokens, "");
    assert "" + Spaced(tokens) == Spaced(tokens);
    SentenceParts(op, p, parens, wher);
    ParseBack(p, parens, wher);
    assert tokens[1..] == OperandPart(p.operands, parens) + (["FROM"] + Tail(p, wher));
  }
}
