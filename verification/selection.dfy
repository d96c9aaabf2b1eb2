/**
 Copying a selection as text (vt/window.cc, the key handler): continuation cells are skipped, and a
 row that was not wrapped ends in a newline.
 */
module Selections {
  import opened Rows
  import opened Screens

  /** The characters of the glyphs of some cells. */
  function GlyphText(cells: seq<Cell>): string
    decreases |cells|
  {
    if cells == [] then "" else [cells[0].c] + GlyphText(cells[End(cells, 1)..])
  }

  function LineText(line: Line): string {
    GlyphText(line.cells) + if line.wrapped then "" else "\n"
  }

  function LinesText(lines: seq<Line>): string {
    if lines == [] then "" else LineText(lines[0]) + LinesText(lines[1..])
  }

  /** A place in the content: a column of a row, or the end of everything. */
  predicate IsPlace(lines: seq<Line>, x: nat, y: nat) {
    (y < |lines| && x <= |lines[y].cells|) || (y == |lines| && x == 0)
  }

  predicate Before(ax: nat, ay: nat, cx: nat, cy: nat) {
    ay < cy || (ay == cy && ax <= cx)
  }

  function RowPart(lines: seq<Line>, x: nat, y: nat): seq<Cell>
    requires IsPlace(lines, x, y)
  {
    if y < |lines| then lines[y].cells[..x] else []
  }

  /** The text between two places. */
  function TextBetween(lines: seq<Line>, ax: nat, ay: nat, cx: nat, cy: nat): string
    requires IsPlace(lines, ax, ay) && IsPlace(lines, cx, cy) && Before(ax, ay, cx, cy)
  {
    if ay < cy then
      LineText(lines[ay].(cells := lines[ay].cells[ax..])) + LinesText(lines[ay + 1..cy])
        + GlyphText(RowPart(lines, cx, cy))
    else if ay < |lines| then GlyphText(lines[ay].cells[ax..cx])
    else ""
  }

  lemma {:induction false} LinesTextOfTwo(a: seq<Line>, b: seq<Line>)
    ensures LinesText(a + b) == LinesText(a) + LinesText(b)
  {
    if a == [] {
      assert a + b == b;
    } else {
      assert (a + b)[0] == a[0] && (a + b)[1..] == a[1..] + b;
      LinesTextOfTwo(a[1..], b);
    }
  }

  /** A glyph and what follows it. */
  lemma GlyphStep(cells: seq<Cell>, q: nat, p: nat)
    requires q < p <= |cells| && (forall i :: q < i < p ==> cells[i].c == NUL) && (p < |cells| ==> cells[p].c != NUL)
    ensures GlyphText(cells[q..]) == [cells[q].c] + GlyphText(cells[p..])
  {
    var s := cells[q..];
    assert forall i :: 0 <= i < |s| ==> s[i] == cells[q + i];
    assert End(s, 1) == p - q;
    assert s[p - q..] == cells[p..];
  }

  lemma Regroup(a: string, b: string, c: string)
    ensures a + (b + c) == (a + b) + c
  {
  }

  method PutCells(cells: seq<Cell>) returns (cs: string)
    ensures cs == GlyphText(cells)
  {
    hide GlyphText;
    cs := "";
    var p := 0;
    assert cells[0..] == cells && "" + GlyphText(cells) == GlyphText(cells);
    while p != |cells|
      invariant 0 <= p <= |cells| && cs + GlyphText(cells[p..]) == GlyphText(cells)
      decreases |cells| - p
    {
      ghost var q, before := p, cs;
      cs := cs + [cells[p].c];
      p := p + 1;
      while p != |cells| && cells[p].c == NUL
        invariant q < p <= |cells| && forall i :: q < i < p ==> cells[i].c == NUL
        decreases |cells| - p
      {
        p := p + 1;
      }
      GlyphStep(cells, q, p);
      Regroup(before, [cells[q].c], GlyphText(cells[p..]));
    }
    NothingLeft(cells);
    assert cs + "" == cs;
  }

  lemma NothingLeft(cells: seq<Cell>)
    ensures GlyphText(cells[|cells|..]) == ""
  {
  }

  method PutLine(line: Line) returns (cs: string)
    ensures cs == LineText(line)
  {
    cs := PutCells(line.cells);
    if !line.wrapped {
      cs := cs + "\n";
    }
  }

  method Copy(lines: seq<Line>, ax: nat, ay: nat, cx: nat, cy: nat) returns (cs: string)
    requires IsPlace(lines, ax, ay) && IsPlace(lines, cx, cy) && Before(ax, ay, cx, cy)
    ensures cs == TextBetween(lines, ax, ay, cx, cy)
  {
    hide GlyphText, LineText, LinesText;
    if ay < cy {
      var first := PutLine(lines[ay].(cells := lines[ay].cells[ax..]));
      var middle := PutLines(lines, ay + 1, cy);
      var last := PutCells(if cy < |lines| then lines[cy].cells[..cx] else []);
      cs := first + middle + last;
    } else if ay < |lines| {
      cs := PutCells(lines[ay].cells[ax..cx]);
    } else {
      cs := "";
    }
  }

  /** The rows between the first and the last. */
  method PutLines(lines: seq<Line>, a: nat, b: nat) returns (cs: string)
    requires a <= b <= |lines|
    ensures cs == LinesText(lines[a..b])
  {
    hide LineText;
    cs := "";
    var y := a;
    while y < b
      invariant a <= y <= b && cs == LinesText(lines[a..y])
    {
      var line := PutLine(lines[y]);
      OneMoreLine(lines, a, y);
      cs := cs + line;
      y := y + 1;
    }
  }

  lemma OneMoreLine(lines: seq<Line>, a: nat, y: nat)
    requires a <= y < |lines|
    ensures LinesText(lines[a..y + 1]) == LinesText(lines[a..y]) + LineText(lines[y])
  {
    assert lines[a..y + 1] == lines[a..y] + [lines[y]];
    LinesTextOfTwo(lines[a..y], [lines[y]]);
    assert LinesText([lines[y]]) == LineText(lines[y]) + "";
  }

  // What a selection is a part of.

  lemma {:induction false} GlyphTextOfTwo(a: seq<Cell>, b: seq<Cell>)
    requires Led(b)
    ensures GlyphText(a + b) == GlyphText(a) + GlyphText(b)
    decreases |a|
  {
    if a == [] {
      assert a + b == b;
    } else {
      var e := End(a, 1);
      assert forall i :: 0 <= i < |a| ==> (a + b)[i] == a[i];
      assert b != [] ==> (a + b)[|a|] == b[0];
      assert End(a + b, 1) == e;
      assert (a + b)[e..] == a[e..] + b;
      GlyphTextOfTwo(a[e..], b);
    }
  }

  /** A place that does not cut a glyph in two. */
  predicate IsBoundary(lines: seq<Line>, x: nat, y: nat) {
    IsPlace(lines, x, y) && (y < |lines| ==> !Continues(lines[y].cells, x))
  }

  lemma RowInTwo(cells: seq<Cell>, a: nat, b: nat, c: nat)
    requires a <= b <= c <= |cells| && !Continues(cells, b)
    ensures GlyphText(cells[a..c]) == GlyphText(cells[a..b]) + GlyphText(cells[b..c])
  {
    assert cells[a..c] == cells[a..b] + cells[b..c];
    GlyphTextOfTwo(cells[a..b], cells[b..c]);
  }

  lemma RowsInTwo(lines: seq<Line>, a: nat, b: nat, c: nat)
    requires a <= b < c <= |lines|
    ensures LinesText(lines[a..c]) == LinesText(lines[a..b]) + LineText(lines[b]) + LinesText(lines[b + 1..c])
  {
    hide LinesText, LineText;
    OneMoreLine(lines, a, b);
    assert lines[a..c] == lines[a..b + 1] + lines[b + 1..c];
    LinesTextOfTwo(lines[a..b + 1], lines[b + 1..c]);
  }

  /** The rest of a row, with its newline. */
  function RowRest(line: Line, x: nat): string
    requires x <= |line.cells|
  {
    LineText(line.(cells := line.cells[x..]))
  }

  lemma LineInTwo(line: Line, a: nat, b: nat)
    requires a <= b <= |line.cells| && !Continues(line.cells, b)
    ensures RowRest(line, a) == GlyphText(line.cells[a..b]) + RowRest(line, b)
  {
    var cells, end := line.cells, if line.wrapped then "" else "\n";
    assert cells[a..|cells|] == cells[a..] && cells[b..|cells|] == cells[b..];
    hide GlyphText;
    RowInTwo(cells, a, b, |cells|);
    Regroup(GlyphText(cells[a..b]), GlyphText(cells[b..]), end);
  }

  lemma RegroupFour(a: string, b: string, c: string, d: string, e: string, f: string)
    ensures a + (b + (c + d) + e) + f == (a + b + c) + (d + e + f)
  {
  }

  lemma WholeRow(line: Line)
    ensures RowRest(line, 0) == LineText(line)
  {
    assert line.cells[0..] == line.cells;
  }

  /** What is selected in two parts is what is selected at once. */
  lemma TextsJoin(lines: seq<Line>, ax: nat, ay: nat, mx: nat, my: nat, cx: nat, cy: nat)
    requires IsPlace(lines, ax, ay) && IsBoundary(lines, mx, my) && IsPlace(lines, cx, cy)
    requires Before(ax, ay, mx, my) && Before(mx, my, cx, cy)
    ensures Before(ax, ay, cx, cy)
    ensures TextBetween(lines, ax, ay, cx, cy)
         == TextBetween(lines, ax, ay, mx, my) + TextBetween(lines, mx, my, cx, cy)
  {
    hide GlyphText, LineText, LinesText;
    if my == |lines| {
      assert TextBetween(lines, ax, ay, cx, cy) + "" == TextBetween(lines, ax, ay, cx, cy);
    } else {
      var row := lines[my];
      if ay == my == cy {
        RowInTwo(row.cells, ax, mx, cx);
      } else if ay == my {
        LineInTwo(row, ax, mx);
        var rest, last := LinesText(lines[my + 1..cy]), GlyphText(RowPart(lines, cx, cy));
        Regroup(GlyphText(row.cells[ax..mx]), RowRest(row, mx), rest);
        Regroup(GlyphText(row.cells[ax..mx]), RowRest(row, mx) + rest, last);
      } else if my == cy {
        var first, rest := RowRest(lines[ay], ax), LinesText(lines[ay + 1..cy]);
        RowInTwo(row.cells, 0, mx, cx);
        assert row.cells[0..mx] == row.cells[..mx] && row.cells[0..cx] == row.cells[..cx];
        Regroup(first + rest, GlyphText(row.cells[..mx]), GlyphText(row.cells[mx..cx]));
      } else {
        RowsInTwo(lines, ay + 1, my, cy);
        WholeRow(row);
        LineInTwo(row, 0, mx);
        assert row.cells[0..mx] == row.cells[..mx];
        RegroupFour(RowRest(lines[ay], ax), LinesText(lines[ay + 1..my]), GlyphText(row.cells[..mx]), RowRest(row, mx),
          LinesText(lines[my + 1..cy]), GlyphText(RowPart(lines, cx, cy)));
      }
    }
  }

  /** From the start, a selection is all rows above its end, and its row up to it. */
  lemma TextFromStart(lines: seq<Line>, x: nat, y: nat)
    requires IsPlace(lines, x, y)
    ensures IsPlace(lines, 0, 0) && Before(0, 0, x, y)
    ensures TextBetween(lines, 0, 0, x, y) == LinesText(lines[..y]) + GlyphText(RowPart(lines, x, y))
  {
    hide GlyphText, LineText;
    if y > 0 {
      WholeRow(lines[0]);
      assert lines[..y][0] == lines[0] && lines[..y][1..] == lines[1..y];
    } else if y < |lines| {
      assert lines[..y] == [] && lines[0].cells[0..x] == lines[0].cells[..x];
      assert "" + GlyphText(lines[0].cells[..x]) == GlyphText(lines[0].cells[..x]);
    } else {
      assert GlyphText([]) == "" by { NothingLeft([]); }
    }
  }

  /** From start to end it is the text of all rows. */
  lemma TextOfAll(lines: seq<Line>)
    ensures IsPlace(lines, 0, 0) && IsPlace(lines, 0, |lines|) && Before(0, 0, 0, |lines|)
    ensures TextBetween(lines, 0, 0, 0, |lines|) == LinesText(lines)
  {
    hide LinesText;
    TextFromStart(lines, 0, |lines|);
    assert lines[..|lines|] == lines;
    assert LinesText(lines) + GlyphText([]) == LinesText(lines);
  }

  /** Where a place lies in the text of all rows. */
  function Offset(lines: seq<Line>, x: nat, y: nat): nat
    requires IsPlace(lines, x, y)
  {
    |LinesText(lines[..y])| + |GlyphText(RowPart(lines, x, y))|
  }

  /** A selection between glyphs is exactly the part of the text of all rows between its two places. */
  lemma SelectionIsSlice(lines: seq<Line>, ax: nat, ay: nat, cx: nat, cy: nat)
    requires IsBoundary(lines, ax, ay) && IsBoundary(lines, cx, cy) && Before(ax, ay, cx, cy)
    ensures Offset(lines, ax, ay) <= Offset(lines, cx, cy) <= |LinesText(lines)|
    ensures TextBetween(lines, ax, ay, cx, cy) == LinesText(lines)[Offset(lines, ax, ay)..Offset(lines, cx, cy)]
  {
    hide GlyphText, LineText, LinesText, TextBetween;
    TextFromStart(lines, ax, ay);
    TextFromStart(lines, cx, cy);
    TextOfAll(lines);
    TextsJoin(lines, 0, 0, ax, ay, cx, cy);
    TextsJoin(lines, 0, 0, cx, cy, 0, |lines|);
  }

  // What resizing does to the text.

  ghost predicate FitIn(lines: seq<Line>, width: nat) {
    forall i :: 0 <= i < |lines| ==> LineLed(lines[i], width)
  }

  ghost predicate NoneWrapped(lines: seq<Line>) {
    forall i :: 0 <= i < |lines| ==> !lines[i].wrapped
  }

  function Wraps(lines: seq<Line>): (r: nat)
    ensures r == 0 <==> NoneWrapped(lines)
  {
    if lines == [] then 0 else (if lines[0].wrapped then 1 else 0) + Wraps(lines[1..])
  }

  /** Every mark that is lost adds a newline. */
  lemma {:induction false} CutAddsNewlines(lines: seq<Line>, width: nat)
    requires FitIn(lines, width)
    ensures |LinesText(CutAll(lines, width))| == |LinesText(lines)| + Wraps(lines)
  {
    if lines != [] {
      assert CutAll(lines, width)[1..] == CutAll(lines[1..], width);
      assert CutAll(lines, width)[0].cells == lines[0].cells;
      CutAddsNewlines(lines[1..], width);
    }
  }

  /** Rows that fit the new width have the same text in it exactly when none of them was wrapped. */
  lemma CutKeepsText(lines: seq<Line>, width: nat)
    requires FitIn(lines, width)
    ensures LinesText(CutAll(lines, width)) == LinesText(lines) <==> NoneWrapped(lines)
  {
    CutAddsNewlines(lines, width);
    if NoneWrapped(lines) {
      assert CutAll(lines, width) == lines;
    }
  }

  /** So after any resizing to a width that logged rows fit, what is copied from the log is as before only then. */
  lemma ResizeKeepsLogText(s: Screen, width: nat, height: nat)
    requires AllLed(s) && FitIn(s.log, AtLeastOne(width))
    requires AtLeastOne(width) != s.width || AtLeastOne(height) != s.height
    ensures LinesText(Resize(s, width, height).log) == LinesText(s.log) <==> NoneWrapped(s.log)
  {
    hide LinesText;
    CutKeepsText(s.log, AtLeastOne(width));
  }

  /** A line wrapped after its first character is cut in two by making the window wider. */
  lemma WrappedLineIsCut(s: Screen)
    requires s.width == 1 && s.height == 1 && s.normal == s.alternate == [EMPTY]
    requires s.log == [Line([Cell('a', PLAIN)], true), Line([Cell('b', PLAIN)], false)]
    ensures AllLed(s)
    ensures LinesText(s.log) == "ab\n" && LinesText(Resize(s, 2, 1).log) == "a\nb\n"
  {
    var a, b := Line([Cell('a', PLAIN)], true), Line([Cell('b', PLAIN)], false);
    GlyphTextOfOne(a.cells[0]);
    GlyphTextOfOne(b.cells[0]);
    TwoLines(a, b);
    TwoLines(a.(wrapped := false), b);
    assert Resize(s, 2, 1).log == [a.(wrapped := false), b];
  }

  lemma GlyphTextOfOne(cell: Cell)
    ensures GlyphText([cell]) == [cell.c]
  {
    assert [cell][End([cell], 1)..] == [];
  }

  lemma TwoLines(a: Line, b: Line)
    ensures LinesText([a, b]) == LineText(a) + LineText(b)
  {
    assert LinesText([b]) == LineText(b) + "";
    assert [a, b][1..] == [b];
  }
}
