/** What SELECT prints, cut at newlines and blanks, gives back the keys and numbers of its rows. */
module Listings {
  import opened Values
  import opened Conditions
  import opened Text
  import opened Queries
  import opened DumpLoad
  import opened Selects
  import RoundTrip

  /** The words of a printed row: parentheses around one word an operand. */
  function RowWords(fm: FieldMap, operands: seq<string>, r: Row): (ws: seq<string>)
    ensures |ws| == |operands| + 2
  {
    ["("] + CellWords(fm, operands, r) + [")"]
  }

  function CellWords(fm: FieldMap, operands: seq<string>, r: Row): (ws: seq<string>)
    ensures |ws| == |operands|
  {
    if operands == [] then []
    else CellWords(fm, operands[..|operands| - 1], r) + [CellText(fm, operands[|operands| - 1], r)]
  }

  lemma {:induction false} CellWordAt(fm: FieldMap, operands: seq<string>, r: Row, k: nat)
    requires k < |operands|
    ensures CellWords(fm, operands, r)[k] == CellText(fm, operands[k], r)
  {
    if k < |operands| - 1 {
      CellWordAt(fm, operands[..|operands| - 1], r, k);
    }
  }

  lemma {:induction false} SpacedSnoc(ws: seq<string>, w: string)
    requires ws != []
    ensures Spaced(ws + [w]) == Spaced(ws) + " " + w
  {
    if |ws| == 1 {
      assert (ws + [w])[1..] == [w];
    } else {
      SpacedSnoc(ws[1..], w);
      assert (ws + [w])[1..] == ws[1..] + [w];
      Assoc(ws[0] + " ", Spaced(ws[1..]), " " + w);
      assert ws[0] + " " + (Spaced(ws[1..]) + " " + w) == ws[0] + " " + (Spaced(ws[1..]) + (" " + w));
    }
  }

  lemma {:induction false} CellsSpaced(fm: FieldMap, operands: seq<string>, r: Row, open: string)
    ensures open + " " + CellsText(fm, operands, r) == Spaced([open] + CellWords(fm, operands, r)) + " "
  {
    if operands == [] {
      assert [open] + CellWords(fm, operands, r) == [open];
      assert open + " " + "" == open + " ";
    } else {
      var n := |operands| - 1;
      var front, w := operands[..n], CellText(fm, operands[n], r);
      CellsSpaced(fm, front, r, open);
      SpacedSnoc([open] + CellWords(fm, front, r), w);
      assert [open] + CellWords(fm, operands, r) == [open] + CellWords(fm, front, r) + [w];
      Behind(open + " ", CellsText(fm, front, r), w, Spaced([open] + CellWords(fm, front, r)));
    }
  }

  lemma Behind(open: string, cells: string, w: string, spaced: string)
    requires open + cells == spaced + " "
    ensures open + (cells + w + " ") == spaced + " " + w + " "
  {
    assert open + (cells + w + " ") == (open + cells) + w + " ";
  }

  lemma RowTextSpaced(fm: FieldMap, operands: seq<string>, r: Row)
    ensures RowText(fm, operands, r) == Spaced(RowWords(fm, operands, r))
  {
    CellsSpaced(fm, operands, r, "(");
    SpacedSnoc(["("] + CellWords(fm, operands, r), ")");
    assert "(" + " " == "( ";
  }

  lemma RowWordsClean(fm: FieldMap, operands: seq<string>, r: Row)
    requires Printable(fm, operands) && Clean(r.key)
    ensures forall i :: 0 <= i < |operands| + 2 ==> Clean(RowWords(fm, operands, r)[i])
  {
    assert Clean("(") && Clean(")");
    forall k | 0 <= k < |operands| ensures Clean(CellWords(fm, operands, r)[k]) {
      CellWordAt(fm, operands, r, k);
      if operands[k] != "KEY" {
        DecimalClean(Cell(r, fm[operands[k]]));
      }
    }
  }

  lemma RowReadsBack(fm: FieldMap, operands: seq<string>, r: Row)
    requires Printable(fm, operands) && Clean(r.key)
    ensures Words(RowText(fm, operands, r)) == RowWords(fm, operands, r)
  {
    RowTextSpaced(fm, operands, r);
    RowWordsClean(fm, operands, r);
    WordsOfSpaced(RowWords(fm, operands, r), "");
    assert "" + Spaced(RowWords(fm, operands, r)) == Spaced(RowWords(fm, operands, r));
  }

  // ---------------------------------------------------------------- one line a row

  lemma {:induction false} LinesCons(fm: FieldMap, operands: seq<string>, rows: seq<Row>)
    requires |rows| > 1
    ensures Lines(fm, operands, rows) == Line(RowText(fm, operands, rows[0])) + Lines(fm, operands, rows[1..])
  {
    var n := |rows| - 1;
    if n > 1 {
      LinesCons(fm, operands, rows[..n]);
      assert rows[..n][1..] == rows[1..][..n - 1];
      LinesMiddle(Line(RowText(fm, operands, rows[0])), Lines(fm, operands, rows[1..n]), RowText(fm, operands, rows[n]));
    }
  }

  lemma LinesMiddle(first: string, middle: string, last: string)
    ensures first + middle + "\n" + last == first + (middle + "\n" + last)
  {
  }

  lemma {:induction false} SpacedNoNewline(ws: seq<string>)
    requires forall i :: 0 <= i < |ws| ==> Clean(ws[i])
    ensures '\n' !in Spaced(ws)
    ensures ws != [] ==> Spaced(ws) != ""
  {
    if |ws| > 1 {
      SpacedNoNewline(ws[1..]);
    }
  }

  lemma {:induction false} LastLine(line: string)
    requires '\n' !in line && line != ""
    ensures LineLength(line) == |line|
  {
    if |line| > 1 {
      LastLine(line[1..]);
    }
  }

  ghost predicate LinesPrint(fm: FieldMap, operands: seq<string>, rows: seq<Row>, lines: seq<string>) {
    |lines| == |rows| && forall i :: 0 <= i < |rows| ==> lines[i] == RowText(fm, operands, rows[i])
  }

  lemma LinesPrintCons(fm: FieldMap, operands: seq<string>, rows: seq<Row>, lines: seq<string>, rest: seq<string>)
    requires rows != [] && lines == [RowText(fm, operands, rows[0])] + rest && LinesPrint(fm, operands, rows[1..], rest)
    ensures LinesPrint(fm, operands, rows, lines)
  {
  }

  lemma {:induction false} ListingSplits(fm: FieldMap, operands: seq<string>, rows: seq<Row>)
    requires Printable(fm, operands) && forall i :: 0 <= i < |rows| ==> Clean(rows[i].key)
    ensures LinesPrint(fm, operands, rows, SplitLines(Lines(fm, operands, rows)))
  {
    if |rows| == 1 {
      RowIsLine(fm, operands, rows[0]);
      LastSplits(RowText(fm, operands, rows[0]));
    } else if |rows| > 1 {
      RowIsLine(fm, operands, rows[0]);
      LinesCons(fm, operands, rows);
      FirstSplits(RowText(fm, operands, rows[0]), Lines(fm, operands, rows[1..]));
      ListingSplits(fm, operands, rows[1..]);
      LinesPrintCons(fm, operands, rows, SplitLines(Lines(fm, operands, rows)), SplitLines(Lines(fm, operands, rows[1..])));
    }
  }

  lemma RowIsLine(fm: FieldMap, operands: seq<string>, r: Row)
    requires Printable(fm, operands) && Clean(r.key)
    ensures '\n' !in RowText(fm, operands, r) && RowText(fm, operands, r) != ""
  {
    RowTextSpaced(fm, operands, r);
    RowWordsClean(fm, operands, r);
    SpacedNoNewline(RowWords(fm, operands, r));
  }

  lemma LastSplits(line: string)
    requires '\n' !in line && line != ""
    ensures SplitLines(line) == [line]
  {
    LastLine(line);
    assert line[..|line|] == line;
    assert SplitLines("") == [];
  }

  lemma FirstSplits(line: string, rest: string)
    requires '\n' !in line
    ensures SplitLines(Line(line) + rest) == [line] + SplitLines(rest)
  {
    RoundTrip.GetLineBack(line, rest);
  }

  /** The line has one word an operand: the key itself, or a number that stands for the value of the
      field. */
  predicate TellsRow(fm: FieldMap, operands: seq<string>, r: Row, line: string) {
    var ws := Words(line);
    && |ws| == |operands| + 2 && ws[0] == "(" && ws[|operands| + 1] == ")"
    && forall k :: 0 <= k < |operands| ==>
         if operands[k] == "KEY" then ws[k + 1] == r.key
         else SignedValue(ws[k + 1]) == FieldOf(fm, operands[k], r)
  }

  lemma RowTells(fm: FieldMap, operands: seq<string>, r: Row)
    requires Printable(fm, operands) && Clean(r.key)
    ensures TellsRow(fm, operands, r, RowText(fm, operands, r))
  {
    RowReadsBack(fm, operands, r);
    var cells := CellWords(fm, operands, r);
    forall k | 0 <= k < |operands|
      ensures RowWords(fm, operands, r)[k + 1] == cells[k]
      ensures if operands[k] == "KEY" then cells[k] == r.key else SignedValue(cells[k]) == FieldOf(fm, operands[k], r)
    {
      CellWordAt(fm, operands, r, k);
      if operands[k] != "KEY" {
        DecimalReadsBack(Cell(r, fm[operands[k]]));
      }
    }
  }

  /** A listing has one line a row, and each line tells its row. */
  lemma ListingReadsBack(fm: FieldMap, operands: seq<string>, rows: seq<Row>)
    requires Printable(fm, operands) && forall i :: 0 <= i < |rows| ==> Clean(rows[i].key)
    ensures var lines := SplitLines(Lines(fm, operands, rows));
      |lines| == |rows| && forall i :: 0 <= i < |rows| ==> TellsRow(fm, operands, rows[i], lines[i])
  {
    ListingSplits(fm, operands, rows);
    forall i | 0 <= i < |rows| ensures TellsRow(fm, operands, rows[i], RowText(fm, operands, rows[i])) {
      RowTells(fm, operands, rows[i]);
    }
  }
}
