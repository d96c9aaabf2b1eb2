/**
 What the terminal window keeps of its last drawing (vt/window.cc): the set of pixel lines of the
 framebuffer that are still right, the scroll position, and the lines themselves. Rectangles are
 always as wide as the window, so the valid region is a set of lines.
 */
module Damage {
  import opened Rows

  datatype Cursor = NoCursor | CursorAt(x: nat, focused: bool)

  /** What one row of text looks like. */
  datatype Drawn = Drawn(cells: seq<Cell>, cursor: Cursor)

  /** What one pixel line looks like: the background, or a line of a drawn row. */
  datatype Strip = Background | Part(row: Drawn, offset: nat)

  datatype View = View(height: nat, unit: nat, position: int, valid: set<int>, lines: seq<Strip>)

  ghost predicate Proper(v: View) {
    v.unit > 0 && |v.lines| == v.height && forall p :: p in v.valid ==> 0 <= p < v.height
  }

  /** The line q pixels below the top of the content. */
  function StripAt(picture: seq<Drawn>, unit: nat, q: int): Strip
    requires unit > 0
  {
    if 0 <= q && q / unit < |picture| then Part(picture[q / unit], q % unit) else Background
  }

  /** Every line held valid is what a full redraw of the picture would put there. */
  ghost predicate Shows(v: View, picture: seq<Drawn>) {
    Proper(v) && forall p :: p in v.valid ==> v.lines[p] == StripAt(picture, v.unit, p + v.position)
  }

  function Inside(lines: set<int>, y: int, n: nat): set<int> {
    set p | p in lines && y <= p < y + n
  }

  function Outside(lines: set<int>, y: int, n: nat): set<int> {
    set p | p in lines && !(y <= p < y + n)
  }

  function Shifted(lines: set<int>, dy: int): set<int> {
    set p | p in lines :: p + dy
  }

  /** f__invalidate. */
  function InvalidateLines(v: View, y: nat, n: nat): View {
    v.(valid := Outside(v.valid, y, n))
  }

  /** The valid lines in a range that stay in it when they move. */
  function Moved(v: View, y: nat, n: nat, dy: int): set<int> {
    Inside(Shifted(Inside(v.valid, y, n), dy), y, n)
  }

  function MovedLines(lines: seq<Strip>, y: nat, n: nat, dy: int): (r: seq<Strip>)
    requires y + n <= |lines|
    ensures |r| == |lines|
    ensures forall p {:trigger r[p]} :: 0 <= p < |r| ==>
        r[p] == if y <= p < y + n && y <= p - dy < y + n then lines[p - dy] else lines[p]
  {
    seq(|lines|, p requires 0 <= p < |lines| =>
      if y <= p < y + n && y <= p - dy < y + n then lines[p - dy] else lines[p])
  }

  /** f__scroll: lines of a range move with their pixels; what is uncovered is not valid. */
  function ScrollLines(v: View, y: nat, n: nat, dy: int): View
    requires y + n <= |v.lines|
  {
    var moved := Moved(v, y, n, dy);
    v.(valid := Outside(v.valid, y, n) + moved, lines := if moved == {} then v.lines else MovedLines(v.lines, y, n, dy))
  }

  // Rows to pixel lines. Row y of the screen lies below the rows of the log.

  function Top(v: View, log: nat, y: int): int {
    (y + log) * v.unit - v.position
  }

  function ClipTop(v: View, top: int): nat {
    if top < 0 then 0 else top
  }

  function ClipBottom(v: View, bottom: int): int {
    if bottom > v.height then v.height else bottom
  }

  /** Some part of the rows is inside the window. */
  predicate Reaches(v: View, log: nat, y: int, h: nat) {
    Top(v, log, y + h) >= 0 && Top(v, log, y) < v.height
  }

  lemma ClipFits(v: View, log: nat, y: int, h: nat)
    requires Reaches(v, log, y, h)
    ensures ClipTop(v, Top(v, log, y)) <= ClipBottom(v, Top(v, log, y + h)) <= v.height
    ensures Top(v, log, y + h) == Top(v, log, y) + h * v.unit
  {
    assert (y + h + log) * v.unit == (y + log) * v.unit + h * v.unit;
  }

  /** f_invalidate: rows y to y + h no longer show what is there. */
  function Invalidate(v: View, log: nat, y: int, h: nat): View {
    if h == 0 || !Reaches(v, log, y, h) then v
    else
      ClipFits(v, log, y, h);
      var top := ClipTop(v, Top(v, log, y));
      InvalidateLines(v, top, ClipBottom(v, Top(v, log, y + h)) - top)
  }

  /** f_scroll: rows y to y + h moved by dy rows. */
  function Scroll(v: View, log: nat, y: int, h: nat, dy: int): View
    requires |v.lines| == v.height
  {
    if !Reaches(v, log, y, h) then v
    else
      ClipFits(v, log, y, h);
      var top := ClipTop(v, Top(v, log, y));
      ScrollLines(v, top, ClipBottom(v, Top(v, log, y + h)) - top, dy * v.unit)
  }

  /** f_log: the log grew by a row, and the view moves with the screen. */
  function Logged(v: View): View {
    v.(position := v.position + v.unit)
  }

  function Clamped(v: View, log: nat, position: int): int {
    if position < 0 then 0 else if position > log * v.unit then log * v.unit else position
  }

  /** f_position__. */
  function MoveTo(v: View, log: nat, position: int): View
    requires |v.lines| == v.height
  {
    var to := Clamped(v, log, position);
    if to == v.position then v else ScrollLines(v, 0, v.height, v.position - to).(position := to)
  }

  // Arithmetic of rows and pixel lines.

  lemma ProductGrows(a: int, b: int, unit: nat)
    requires a <= b
    ensures a * unit <= b * unit
  {
    assert (b - a) * unit >= 0;
    assert b * unit == a * unit + (b - a) * unit;
  }

  lemma RowBelow(unit: nat, q: int, n: int)
    requires unit > 0
    ensures q < n * unit <==> q / unit < n
  {
    var i := q / unit;
    assert q == i * unit + q % unit;
    assert (i + 1) * unit == i * unit + unit;
    if i < n {
      ProductGrows(i + 1, n, unit);
    } else {
      ProductGrows(n, i, unit);
    }
  }

  lemma RowShift(unit: nat, q: int, k: int)
    requires unit > 0
    ensures (q + k * unit) / unit == q / unit + k && (q + k * unit) % unit == q % unit
  {
    var i, o := q / unit, q % unit;
    assert q + k * unit == (i + k) * unit + o;
    DivMod(unit, q + k * unit, i + k, o);
  }

  lemma DivMod(unit: nat, q: int, i: int, o: int)
    requires 0 <= o < unit && q == i * unit + o
    ensures q / unit == i && q % unit == o
  {
    var j := q / unit;
    assert (i - j) * unit == q % unit - o;
    Apart(unit, i - j);
  }

  lemma Apart(unit: nat, d: int)
    ensures d >= 1 ==> d * unit >= unit
    ensures d <= -1 ==> d * unit + unit <= 0
  {
    if d >= 1 {
      assert (d - 1) * unit >= 0;
    } else if d <= -1 {
      assert (-1 - d) * unit >= 0;
    }
  }

  /** The row of the content that pixel line p of the window belongs to. */
  function RowAt(v: View, p: int): int
    requires v.unit > 0
  {
    (p + v.position) / v.unit
  }

  /** A pixel line of the window lies between two rows exactly when its row does. */
  lemma LineInRows(v: View, log: nat, y: int, h: nat, p: int)
    requires v.unit > 0 && 0 <= p < v.height
    ensures y + log <= RowAt(v, p) < y + h + log
       <==> Reaches(v, log, y, h) && ClipTop(v, Top(v, log, y)) <= p < ClipBottom(v, Top(v, log, y + h))
  {
    RowBelow(v.unit, p + v.position, y + log);
    RowBelow(v.unit, p + v.position, y + h + log);
  }

  // What is shown stays right.

  /** Two pictures that differ in rows y to y + h at most. */
  ghost predicate SameOutside(a: seq<Drawn>, b: seq<Drawn>, y: int, h: nat) {
    |a| == |b| && forall i :: 0 <= i < |a| && !(y <= i < y + h) ==> a[i] == b[i]
  }

  /** b is a with rows y to y + h moved by k; what moved in from outside is not known. */
  ghost predicate MovedRows(a: seq<Drawn>, b: seq<Drawn>, y: int, h: nat, k: int) {
    && SameOutside(a, b, y, h) && 0 <= y && y + h <= |b|
    && forall i :: y <= i < y + h && y <= i - k < y + h ==> b[i] == a[i - k]
  }

  /** A line outside the rows in question looks the same in both pictures. */
  lemma StripOutside(v: View, a: seq<Drawn>, b: seq<Drawn>, y: int, h: nat, p: int)
    requires v.unit > 0 && SameOutside(a, b, y, h) && !(y <= RowAt(v, p) < y + h)
    ensures StripAt(a, v.unit, p + v.position) == StripAt(b, v.unit, p + v.position)
  {
  }

  /** A line that moved with its row looks as it did where it was. */
  lemma StripMoved(v: View, a: seq<Drawn>, b: seq<Drawn>, y: int, h: nat, k: int, p: int)
    requires v.unit > 0 && MovedRows(a, b, y, h, k) && y <= RowAt(v, p) < y + h && y <= RowAt(v, p - k * v.unit) < y + h
    ensures StripAt(b, v.unit, p + v.position) == StripAt(a, v.unit, p - k * v.unit + v.position)
  {
    var q := p - k * v.unit + v.position;
    RowShift(v.unit, q, k);
    RowBelow(v.unit, q, 0);
    RowBelow(v.unit, p + v.position, 0);
    assert p + v.position == q + k * v.unit;
  }

  lemma InvalidateIs(v: View, log: nat, y: int, h: nat, p: int)
    requires Proper(v) && p in Invalidate(v, log, y, h).valid
    ensures p in v.valid && !(y + log <= RowAt(v, p) < y + h + log)
  {
    hide RowAt, Top;
    LineInRows(v, log, y, h, p);
    if Reaches(v, log, y, h) {
      ClipFits(v, log, y, h);
    }
  }

  lemma InvalidateShows(v: View, log: nat, y: int, h: nat, a: seq<Drawn>, b: seq<Drawn>)
    requires Shows(v, a) && SameOutside(a, b, y + log, h)
    ensures Shows(Invalidate(v, log, y, h), b)
  {
    hide RowAt, StripAt, Reaches;
    forall p | p in Invalidate(v, log, y, h).valid
      ensures p in v.valid && StripAt(a, v.unit, p + v.position) == StripAt(b, v.unit, p + v.position)
    {
      InvalidateIs(v, log, y, h, p);
      StripOutside(v, a, b, y + log, h, p);
    }
  }

  /** Where a line that is valid after a scroll came from. */
  lemma ScrollLinesIs(v: View, y: nat, n: nat, dy: int, p: int)
    requires Proper(v) && y + n <= v.height && p in ScrollLines(v, y, n, dy).valid
    ensures var v' := ScrollLines(v, y, n, dy);
            if y <= p < y + n then y <= p - dy < y + n && p - dy in v.valid && v'.lines[p] == v.lines[p - dy]
            else p in v.valid && v'.lines[p] == v.lines[p]
  {
    if y <= p < y + n {
      assert p in Moved(v, y, n, dy);
    }
  }

  lemma ScrollLinesProper(v: View, y: nat, n: nat, dy: int)
    requires Proper(v) && y + n <= v.height
    ensures Proper(ScrollLines(v, y, n, dy))
  {
    forall p | p in ScrollLines(v, y, n, dy).valid ensures 0 <= p < v.height {
      ScrollLinesIs(v, y, n, dy, p);
    }
  }

  /** The lines of the window that belong to rows y to y + h. */
  ghost predicate LinesOfRows(v: View, top: nat, n: nat, y: int, h: nat)
    requires v.unit > 0
  {
    top + n <= v.height && forall p :: 0 <= p < v.height ==> (top <= p < top + n <==> y <= RowAt(v, p) < y + h)
  }

  lemma ScrollLinesShows(v: View, top: nat, n: nat, y: int, h: nat, k: int, a: seq<Drawn>, b: seq<Drawn>)
    requires Shows(v, a) && LinesOfRows(v, top, n, y, h) && MovedRows(a, b, y, h, k)
    ensures Shows(ScrollLines(v, top, n, k * v.unit), b)
  {
    hide ScrollLines, StripAt, RowAt, MovedRows;
    var dy := k * v.unit;
    var v' := ScrollLines(v, top, n, dy);
    ScrollLinesProper(v, top, n, dy);
    ScrollLinesFields(v, top, n, dy);
    forall p | p in v'.valid ensures v'.lines[p] == StripAt(b, v.unit, p + v.position) {
      ScrollLinesIs(v, top, n, dy, p);
      if top <= p < top + n {
        StripMoved(v, a, b, y, h, k, p);
      } else {
        MovedOutside(a, b, y, h, k);
        StripOutside(v, a, b, y, h, p);
      }
    }
  }

  lemma ScrollLinesFields(v: View, y: nat, n: nat, dy: int)
    requires y + n <= |v.lines|
    ensures var v' := ScrollLines(v, y, n, dy); v'.unit == v.unit && v'.position == v.position && v'.height == v.height
  {
  }

  lemma MovedOutside(a: seq<Drawn>, b: seq<Drawn>, y: int, h: nat, k: int)
    requires MovedRows(a, b, y, h, k)
    ensures SameOutside(a, b, y, h)
  {
  }

  lemma ScrollShows(v: View, log: nat, y: int, h: nat, k: int, a: seq<Drawn>, b: seq<Drawn>)
    requires Shows(v, a) && MovedRows(a, b, y + log, h, k)
    ensures Shows(Scroll(v, log, y, h, k), b)
  {
    hide ScrollLines, StripAt, RowAt, MovedRows, Reaches, ClipTop, ClipBottom, Top, SameOutside;
    forall p | 0 <= p < v.height
      ensures y + log <= RowAt(v, p) < y + h + log
         <==> Reaches(v, log, y, h) && ClipTop(v, Top(v, log, y)) <= p < ClipBottom(v, Top(v, log, y + h))
    {
      LineInRows(v, log, y, h, p);
    }
    if Reaches(v, log, y, h) {
      ClipFits(v, log, y, h);
      var top := ClipTop(v, Top(v, log, y));
      ScrollLinesShows(v, top, ClipBottom(v, Top(v, log, y + h)) - top, y + log, h, k, a, b);
    } else {
      MovedOutside(a, b, y + log, h, k);
      forall p | p in v.valid ensures v.lines[p] == StripAt(b, v.unit, p + v.position) {
        StripOutside(v, a, b, y + log, h, p);
      }
    }
  }

  lemma LoggedShows(v: View, a: seq<Drawn>, d: Drawn)
    requires Shows(v, a) && v.position >= 0
    ensures Shows(Logged(v), [d] + a)
  {
    forall p | p in v.valid ensures v.lines[p] == StripAt([d] + a, v.unit, p + v.position + v.unit) {
      RowShift(v.unit, p + v.position, 1);
      RowBelow(v.unit, p + v.position, 0);
    }
  }

  /** The view goes exactly where it is asked to, from the top of the log to the last screen, and no further. */
  lemma MoveToLands(v: View, log: nat, position: int)
    requires |v.lines| == v.height
    ensures var r := MoveTo(v, log, position);
            && (0 <= position <= log * v.unit ==> r.position == position)
            && (position < 0 ==> r.position == 0)
            && (position > log * v.unit ==> r.position == log * v.unit)
            && r.unit == v.unit && r.height == v.height
  {
    hide ScrollLines;
    ScrollLinesFields(v, 0, v.height, v.position - Clamped(v, log, position));
  }

  /** Every valid line that stays in the window stays valid, and no other line becomes so. */
  lemma MoveToKeepsLines(v: View, log: nat, position: int, p: int)
    requires Proper(v)
    ensures var r := MoveTo(v, log, position);
            var q := p + r.position - v.position;
            && (p in r.valid <==> 0 <= p < v.height && q in v.valid)
            && (p in r.valid ==> r.lines[p] == v.lines[q])
  {
    hide ScrollLines;
    var to := Clamped(v, log, position);
    if to != v.position {
      ScrollLinesFields(v, 0, v.height, v.position - to);
      ScrollLinesAre(v, 0, v.height, v.position - to, p);
    }
  }

  /** Exactly the lines outside the range, and those that stay in it when they move, are valid. */
  lemma ScrollLinesAre(v: View, y: nat, n: nat, dy: int, p: int)
    requires Proper(v) && y + n <= v.height
    ensures var r := ScrollLines(v, y, n, dy);
            && (p in r.valid <==>
                  if y <= p < y + n then y <= p - dy < y + n && p - dy in v.valid else p in v.valid)
            && (p in r.valid ==> r.lines[p] == v.lines[if y <= p < y + n then p - dy else p])
  {
    if y <= p < y + n && y <= p - dy < y + n && p - dy in v.valid {
      assert p - dy in Inside(v.valid, y, n);
      assert p - dy + dy in Shifted(Inside(v.valid, y, n), dy);
      assert p in Moved(v, y, n, dy);
    }
    if p in ScrollLines(v, y, n, dy).valid {
      ScrollLinesIs(v, y, n, dy, p);
    }
  }

  /** Exactly the lines of the rows in question are no longer valid. */
  lemma InvalidateAre(v: View, log: nat, y: int, h: nat, p: int)
    requires Proper(v)
    ensures p in Invalidate(v, log, y, h).valid <==> p in v.valid && !(y + log <= RowAt(v, p) < y + h + log)
    ensures Invalidate(v, log, y, h).lines == v.lines && Invalidate(v, log, y, h).position == v.position
  {
    hide RowAt, Top;
    if 0 <= p < v.height {
      LineInRows(v, log, y, h, p);
    }
    if Reaches(v, log, y, h) {
      ClipFits(v, log, y, h);
    }
  }

  /** Exactly the lines of rows outside, and those whose row stays among the moved ones, are valid. */
  lemma ScrollAre(v: View, log: nat, y: int, h: nat, k: int, p: int)
    requires Proper(v) && 0 <= p < v.height
    ensures var r, q := Scroll(v, log, y, h, k), p - k * v.unit;
            p in r.valid <==>
              if y + log <= RowAt(v, p) < y + h + log
              then 0 <= q < v.height && y + log <= RowAt(v, q) < y + h + log && q in v.valid
              else p in v.valid
  {
    hide RowAt, Top, Reaches, ScrollLines, ClipTop, ClipBottom;
    var q := p - k * v.unit;
    LineInRows(v, log, y, h, p);
    if 0 <= q < v.height {
      LineInRows(v, log, y, h, q);
    }
    if Reaches(v, log, y, h) {
      ClipFits(v, log, y, h);
      var top := ClipTop(v, Top(v, log, y));
      ScrollLinesAre(v, top, ClipBottom(v, Top(v, log, y + h)) - top, k * v.unit, p);
    }
  }

  lemma MoveToShows(v: View, log: nat, position: int, a: seq<Drawn>)
    requires Shows(v, a) && 0 <= v.position <= log * v.unit
    ensures Shows(MoveTo(v, log, position), a)
    ensures 0 <= MoveTo(v, log, position).position <= log * v.unit
  {
    hide ScrollLines, StripAt;
    var to, v' := Clamped(v, log, position), MoveTo(v, log, position);
    if to != v.position {
      var dy := v.position - to;
      ScrollLinesProper(v, 0, v.height, dy);
      ScrollLinesFields(v, 0, v.height, dy);
      forall p | p in v'.valid ensures v'.lines[p] == StripAt(a, v.unit, p + to) {
        ScrollLinesIs(v, 0, v.height, dy, p);
        assert p - dy + v.position == p + to;
      }
    }
  }
}
