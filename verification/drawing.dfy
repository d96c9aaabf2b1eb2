/**
 Redrawing what is not valid (vt/window.cc, f_draw_content) on lines, and why afterwards the whole
 window shows the content with its cursor.
 */
module Drawing {
  import opened Wrappers
  import opened Rows
  import opened Damage
  import opened Screens

  /** SkRegion::contains for lines y to y + n. */
  predicate Contains(valid: set<int>, y: int, n: nat) {
    forall p :: y <= p < y + n ==> p in valid
  }

  /** Fill the lines of a rectangle with the lines of a row, or with the background. */
  function Paint(lines: seq<Strip>, y: int, n: nat, row: Option<Drawn>): (r: seq<Strip>)
    ensures |r| == |lines|
    ensures forall p :: 0 <= p < |r| ==>
              r[p] == if y <= p < y + n then (if row.Some? then Part(row.value, p - y) else Background) else lines[p]
  {
    seq(|lines|, p requires 0 <= p < |lines| =>
      if y <= p < y + n then (if row.Some? then Part(row.value, p - y) else Background) else lines[p])
  }

  /** Drawing the cursor over a row that was drawn without one. */
  function Overlay(strip: Strip, cursor: Cursor): Strip {
    match strip
    case Part(Drawn(cells, NoCursor), offset) => Part(Drawn(cells, cursor), offset)
    case _ => strip
  }

  function PaintCursor(lines: seq<Strip>, y: int, n: nat, cursor: Cursor): (r: seq<Strip>)
    ensures |r| == |lines|
    ensures forall p :: 0 <= p < |r| ==> r[p] == if y <= p < y + n then Overlay(lines[p], cursor) else lines[p]
  {
    seq(|lines|, p requires 0 <= p < |lines| => if y <= p < y + n then Overlay(lines[p], cursor) else lines[p])
  }

  /** Where row i of the content begins in the window. */
  function RowTop(v: View, i: int): int {
    i * v.unit - v.position
  }

  predicate RowValid(v: View, i: int) {
    Contains(v.valid, RowTop(v, i), v.unit)
  }

  lemma LineOfRow(v: View, i: int, p: int)
    requires v.unit > 0
    ensures RowTop(v, i) <= p < RowTop(v, i) + v.unit <==> RowAt(v, p) == i
    ensures RowAt(v, p) == i ==> p - RowTop(v, i) == (p + v.position) % v.unit
    ensures RowTop(v, i + 1) == RowTop(v, i) + v.unit
  {
    RowBelow(v.unit, p + v.position, i);
    RowBelow(v.unit, p + v.position, i + 1);
    assert (i + 1) * v.unit == i * v.unit + v.unit;
    if RowAt(v, p) == i {
      DivMod(v.unit, p + v.position, i, p - RowTop(v, i));
    }
  }

  /** Rows from start on, up to done, are drawn where they were not valid; all else is as before. */
  ghost predicate RowsDrawn(v: View, lines: seq<Strip>, content: seq<Line>, start: int, done: int)
    requires v.unit > 0
  {
    && |lines| == |v.lines| == v.height
    && forall p {:trigger lines[p]} :: 0 <= p < v.height ==>
         var i := RowAt(v, p);
         lines[p] == if start <= i < done && 0 <= i < |content| && !RowValid(v, i)
                     then Part(DrawnLine(content[i]), (p + v.position) % v.unit) else v.lines[p]
  }

  lemma DrawOneRow(v: View, lines: seq<Strip>, content: seq<Line>, start: int, i: nat)
    requires v.unit > 0 && RowsDrawn(v, lines, content, start, i) && start <= i < |content|
    ensures var y := RowTop(v, i);
            var t := if RowValid(v, i) then lines else Paint(lines, y, v.unit, Some(DrawnLine(content[i])));
            RowsDrawn(v, t, content, start, i + 1)
  {
    hide RowAt, RowTop, RowValid;
    var t := if RowValid(v, i) then lines else Paint(lines, RowTop(v, i), v.unit, Some(DrawnLine(content[i])));
    forall p | 0 <= p < v.height
      ensures var j := RowAt(v, p);
              t[p] == if start <= j < i + 1 && 0 <= j < |content| && !RowValid(v, j)
                      then Part(DrawnLine(content[j]), (p + v.position) % v.unit) else v.lines[p]
    {
      LineOfRow(v, i, p);
      assert lines[p] == lines[p];
    }
  }

  /** The picture with the cursor on its row. */
  function CursorPicture(s: Screen, focused: bool): seq<Drawn>
    requires s.y < |s.Rows()|
  {
    Picture(s)[|s.log| + s.y := Drawn(s.Rows()[s.y].cells, CursorAt(s.x, focused))]
  }

  /** Every line from top to bottom that is not valid lies in these bounds. */
  ghost predicate InvalidWithin(v: View, top: int, bottom: int) {
    forall p :: 0 <= p < v.height && !(top <= p < bottom) ==> p in v.valid
  }

  /** The lines after all rows that reach into the bounds, the background and the cursor are drawn. */
  function Finished(v: View, lines: seq<Strip>, s: Screen, top: int, bottom: int, focused: bool): seq<Strip> {
    var end := RowTop(v, |s.log| + |s.Rows()|);
    var ground := if end < bottom && end <= v.height && !Contains(v.valid, end, v.height - end)
                  then Paint(lines, end, v.height - end, None) else lines;
    var c := |s.log| + s.y;
    if RowTop(v, c) + v.unit > top && RowTop(v, c) < bottom && !RowValid(v, c)
    then PaintCursor(ground, RowTop(v, c), v.unit, CursorAt(s.x, focused)) else ground
  }

  /** Drawing stops at the first row below the bounds, or when there are no more rows. */
  ghost predicate StopsAt(v: View, rows: nat, bottom: int, start: int, done: int) {
    (RowTop(v, done) >= bottom || done >= rows) && (start < done ==> RowTop(v, done - 1) < bottom)
  }

  /** The rows drawn are those that reach into the bounds. */
  lemma DrawnRowsReach(v: View, rows: nat, top: int, bottom: int, start: int, done: int, i: int)
    requires v.unit > 0 && 0 <= i < rows && RowTop(v, start) <= top < RowTop(v, start + 1)
      && StopsAt(v, rows, bottom, start, done)
    ensures start <= i < done <==> RowTop(v, i) + v.unit > top && RowTop(v, i) < bottom
  {
    TopsIncrease(v, i, start);
    TopsIncrease(v, start + 1, i + 1);
    TopsIncrease(v, i, done - 1);
    TopsIncrease(v, done, i);
    TopsIncrease(v, i + 1, start);
    LineOfRow(v, i, 0);
  }

  lemma TopsIncrease(v: View, i: int, j: int)
    requires v.unit > 0
    ensures i <= j ==> RowTop(v, i) <= RowTop(v, j)
  {
    if i <= j {
      assert (j - i) * v.unit >= 0;
      assert j * v.unit == i * v.unit + (j - i) * v.unit;
    }
  }

  /** Drawing only what is not valid shows the same as drawing everything. */
  lemma FinishedShowsAll(v: View, lines: seq<Strip>, s: Screen, top: int, bottom: int, start: int, done: int,
      focused: bool)
    requires s.y < |s.Rows()| && Shows(v, CursorPicture(s, focused)) && v.position >= 0
    requires bottom <= v.height && InvalidWithin(v, top, bottom)
    requires RowTop(v, start) <= top < RowTop(v, start + 1)
    requires RowsDrawn(v, lines, s.Content(), start, done)
    requires StopsAt(v, |s.Content()|, bottom, start, done)
    ensures var r := Finished(v, lines, s, top, bottom, focused);
            && |r| == v.height
            && forall p :: 0 <= p < v.height ==>
                 r[p] == StripAt(CursorPicture(s, focused), v.unit, p + v.position)
  {
    hide CursorPicture, Finished, Shows, RowsDrawn, InvalidWithin, StripAt;
    FinishedLength(v, lines, s, top, bottom, start, done, focused);
    forall p | 0 <= p < v.height
      ensures Finished(v, lines, s, top, bottom, focused)[p]
        == StripAt(CursorPicture(s, focused), v.unit, p + v.position)
    {
      if RowAt(v, p) >= |s.Content()| {
        GroundLine(v, lines, s, top, bottom, start, done, focused, p);
      } else {
        ContentLine(v, lines, s, top, bottom, start, done, focused, p);
      }
    }
  }

  lemma FinishedLength(v: View, lines: seq<Strip>, s: Screen, top: int, bottom: int, start: int, done: int,
      focused: bool)
    requires s.y < |s.Rows()| && Shows(v, CursorPicture(s, focused))
    requires RowsDrawn(v, lines, s.Content(), start, done)
    ensures |Finished(v, lines, s, top, bottom, focused)| == v.height
  {
  }

  lemma GroundLine(v: View, lines: seq<Strip>, s: Screen, top: int, bottom: int, start: int, done: int,
      focused: bool, p: int)
    requires s.y < |s.Rows()| && Shows(v, CursorPicture(s, focused)) && v.position >= 0
    requires bottom <= v.height && InvalidWithin(v, top, bottom)
    requires RowsDrawn(v, lines, s.Content(), start, done)
    requires 0 <= p < v.height && RowAt(v, p) >= |s.Content()|
    ensures |Finished(v, lines, s, top, bottom, focused)| == v.height
    ensures Finished(v, lines, s, top, bottom, focused)[p] == StripAt(CursorPicture(s, focused), v.unit, p + v.position)
  {
    hide RowTop, RowValid;
    var end, c := |s.log| + |s.Rows()|, |s.log| + s.y;
    LineOfRow(v, c, p);
    assert RowTop(v, end) <= p by { hide *; RowTopBelow(v, end, p); }
    assert lines[p] == v.lines[p];
  }

  lemma RowTopBelow(v: View, i: int, p: int)
    requires v.unit > 0
    ensures RowTop(v, i) <= p <==> i <= RowAt(v, p)
  {
    RowBelow(v.unit, p + v.position, i);
  }

  lemma ContentLine(v: View, lines: seq<Strip>, s: Screen, top: int, bottom: int, start: int, done: int,
      focused: bool, p: int)
    requires s.y < |s.Rows()| && Shows(v, CursorPicture(s, focused)) && v.position >= 0
    requires bottom <= v.height && InvalidWithin(v, top, bottom)
    requires RowTop(v, start) <= top < RowTop(v, start + 1)
    requires RowsDrawn(v, lines, s.Content(), start, done)
    requires StopsAt(v, |s.Content()|, bottom, start, done)
    requires 0 <= p < v.height && RowAt(v, p) < |s.Content()|
    ensures |Finished(v, lines, s, top, bottom, focused)| == v.height
    ensures Finished(v, lines, s, top, bottom, focused)[p] == StripAt(CursorPicture(s, focused), v.unit, p + v.position)
  {
    hide RowTop, RowValid, Picture, RowAt;
    var i, c := RowAt(v, p), |s.log| + s.y;
    RowIsNatural(v, p);
    DrawnRowsReach(v, |s.Content()|, top, bottom, start, done, i);
    DrawnRowsReach(v, |s.Content()|, top, bottom, start, done, c);
    LineOfRow(v, i, p);
    LineOfRow(v, c, p);
    EndIsBelow(v, |s.log| + |s.Rows()|, p);
    PictureAt(s, focused, i);
    StripIs(CursorPicture(s, focused), v, p);
    if RowValid(v, i) {
      assert p in v.valid by { ValidRowLine(v, i, p); }
    }
    assert lines[p] == lines[p];
  }

  lemma RowIsNatural(v: View, p: int)
    requires v.unit > 0 && v.position >= 0 && p >= 0
    ensures RowAt(v, p) >= 0
  {
    RowBelow(v.unit, p + v.position, 0);
  }

  lemma EndIsBelow(v: View, end: int, p: int)
    requires v.unit > 0 && RowAt(v, p) < end
    ensures p < RowTop(v, end)
  {
    RowTopBelow(v, end, p);
  }

  lemma ValidRowLine(v: View, i: int, p: int)
    requires RowValid(v, i) && RowTop(v, i) <= p < RowTop(v, i) + v.unit
    ensures p in v.valid
  {
  }

  lemma StripIs(picture: seq<Drawn>, v: View, p: int)
    requires v.unit > 0 && v.position >= 0 && p >= 0 && 0 <= RowAt(v, p) < |picture|
    ensures StripAt(picture, v.unit, p + v.position) == Part(picture[RowAt(v, p)], (p + v.position) % v.unit)
  {
  }

  lemma PictureAt(s: Screen, focused: bool, i: nat)
    requires s.y < |s.Rows()| && i < |s.Content()|
    ensures |CursorPicture(s, focused)| == |s.Content()|
    ensures var cells := s.Content()[i].cells;
            CursorPicture(s, focused)[i]
            == Drawn(cells, if i == |s.log| + s.y then CursorAt(s.x, focused) else NoCursor)
  {
  }

  /** The view with every line drawn. */
  function Redrawn(v: View, picture: seq<Drawn>): View
    requires v.unit > 0
  {
    v.(valid := AllLines(v.height),
       lines := seq(v.height, p requires 0 <= p < v.height => StripAt(picture, v.unit, p + v.position)))
  }

  function AllLines(n: nat): (r: set<int>)
    ensures forall p :: p in r <==> 0 <= p < n
  {
    if n == 0 then {} else AllLines(n - 1) + {n - 1}
  }
}
