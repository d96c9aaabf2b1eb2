/**
 The screen and its scrollback (vt/buffer.h, t_buffer) as values, together with what every operation
 tells the window: which rows to draw again and which to move. The rows of the log come first, then
 those of the screen in use.
 */
module Screens {
  import opened Rows
  import opened Damage

  datatype Line = Line(cells: seq<Cell>, wrapped: bool)

  const EMPTY := Line([], false)

  datatype Saved = Saved(attribute: Attribute, x: nat, y: nat)

  datatype Screen = Screen(
    capacity: nat,
    width: nat,
    height: nat,
    log: seq<Line>,
    normal: seq<Line>,
    alternate: seq<Line>,
    onAlternate: bool,
    attribute: Attribute,
    x: nat,
    y: nat,
    savedNormal: Saved,
    savedAlternate: Saved)
  {
    function Rows(): seq<Line> {
      if onAlternate then alternate else normal
    }

    function WithRows(rows: seq<Line>): Screen {
      if onAlternate then this.(alternate := rows) else this.(normal := rows)
    }

    function Content(): seq<Line> {
      log + Rows()
    }
  }

  /** The terminal's buffer with the window that shows it. */
  datatype Hosted = Hosted(screen: Screen, view: View)

  function Fresh(capacity: nat, width: nat, height: nat, savedNormal: Saved, savedAlternate: Saved): Screen {
    Screen(capacity, width, height, [], Empties(height), Empties(height), false, PLAIN, 0, 0, savedNormal,
      savedAlternate)
  }

  function Empties(n: nat): (r: seq<Line>)
    ensures |r| == n && forall i :: 0 <= i < n ==> r[i] == EMPTY
  {
    seq(n, _ => EMPTY)
  }

  // Calls to the window.

  function Redraw(h: Hosted, y: int, n: nat): Hosted {
    h.(view := Invalidate(h.view, |h.screen.log|, y, n))
  }

  function Move(h: Hosted, y: int, n: nat, dy: int): Hosted
    requires Proper(h.view)
  {
    h.(view := Scroll(h.view, |h.screen.log|, y, n, dy))
  }

  // Operations of the buffer.

  /** The first row leaves for the log; the oldest of a full log is dropped. */
  function PushLog(s: Screen): Screen
    requires s.Rows() != [] && s.capacity > 0
  {
    var row := s.Rows()[0];
    var log := if |s.log| < s.capacity then s.log + [row] else s.log[1..] + [row];
    s.WithRows(s.Rows()[1..] + [EMPTY]).(log := log)
  }

  function ScrollLog(h: Hosted): Hosted
    requires Proper(h.view) && h.screen.Rows() != [] && h.screen.capacity > 0
  {
    var h1 := Redraw(h, h.screen.y, 1);
    var grows := |h.screen.log| < h.screen.capacity;
    var h2 := Hosted(PushLog(h1.screen), if grows then Logged(h1.view) else h1.view);
    var n := |h2.screen.log|;
    RedrawIsProper(h, h.screen.y, 1);
    Redraw(Move(h2, -n, n + h.screen.height, -1), h.screen.y, 1)
  }

  function Up(rows: seq<Line>, y: nat, n: nat, k: nat): (r: seq<Line>)
    requires y + n <= |rows| && k <= n
    ensures |r| == |rows|
    ensures forall i {:trigger r[i]} :: 0 <= i < |r| ==>
              r[i] == if y <= i < y + n - k then rows[i + k] else if y <= i < y + n then EMPTY else rows[i]
  {
    rows[..y] + rows[y + k..y + n] + Empties(k) + rows[y + n..]
  }

  function Down(rows: seq<Line>, y: nat, n: nat, k: nat): (r: seq<Line>)
    requires y + n <= |rows| && k <= n
    ensures |r| == |rows|
    ensures forall i {:trigger r[i]} :: 0 <= i < |r| ==>
              r[i] == if y + k <= i < y + n then rows[i - k] else if y <= i < y + n then EMPTY else rows[i]
  {
    rows[..y] + Empties(k) + rows[y..y + n - k] + rows[y + n..]
  }

  function Least(a: nat, b: nat): (r: nat)
    ensures r <= a && r <= b
  {
    if a < b then a else b
  }

  /** Move the view with the rows; the row of the cursor is drawn again where it was and where it is. */
  function MoveRegion(h: Hosted, y: nat, n: nat, dy: int): Hosted
    requires Proper(h.view)
  {
    var c := h.screen.y;
    if y <= c < y + n then
      RedrawIsProper(h, c, 1);
      Redraw(Move(Redraw(h, c, 1), y, n, dy), c, 1)
    else Move(h, y, n, dy)
  }

  lemma RedrawIsProper(h: Hosted, y: int, n: nat)
    requires Proper(h.view)
    ensures var v := Redraw(h, y, n).view; Proper(v) && v.unit == h.view.unit && v.position == h.view.position
  {
    hide Reaches, Top, ClipTop, ClipBottom;
    if Reaches(h.view, |h.screen.log|, y, n) {
      ClipFits(h.view, |h.screen.log|, y, n);
    }
  }

  function ScrollUp(h: Hosted, y: nat, n: nat, k: nat): Hosted
    requires Proper(h.view) && y + n <= |h.screen.Rows()|
  {
    var d := Least(k, n);
    if d == 0 then h
    else MoveRegion(h.(screen := h.screen.WithRows(Up(h.screen.Rows(), y, n, d))), y, n, 0 - d)
  }

  function ScrollDown(h: Hosted, y: nat, n: nat, k: nat): Hosted
    requires Proper(h.view) && y + n <= |h.screen.Rows()|
  {
    var d := Least(k, n);
    if d == 0 then h
    else MoveRegion(h.(screen := h.screen.WithRows(Down(h.screen.Rows(), y, n, d))), y, n, d)
  }

  function Erased(rows: seq<Line>, y: nat, n: nat): (r: seq<Line>)
    requires y + n <= |rows|
    ensures |r| == |rows| && forall i :: 0 <= i < |r| ==> r[i] == if y <= i < y + n then EMPTY else rows[i]
  {
    rows[..y] + Empties(n) + rows[y + n..]
  }

  function EraseRows(h: Hosted, y: nat, n: nat): Hosted
    requires y + n <= |h.screen.Rows()|
  {
    Redraw(h.(screen := h.screen.WithRows(Erased(h.screen.Rows(), y, n))), y, n)
  }

  /** One row is edited and drawn again. */
  function Edit(h: Hosted, y: nat, line: Line): Hosted
    requires y < |h.screen.Rows()|
  {
    Redraw(h.(screen := h.screen.WithRows(h.screen.Rows()[y := line])), y, 1)
  }

  function InsertCells(h: Hosted, x: nat, y: nat, n: nat): Hosted
    requires y < |h.screen.Rows()| && FitsRow(h.screen, y)
  {
    if x >= h.screen.width then h
    else
      var row := h.screen.Rows()[y];
      Edit(h, y, row.(cells := InsertBlanks(row.cells, x, n, h.screen.width)))
  }

  function PutCell(h: Hosted, x: nat, y: nat, cell: Cell, n: nat, shift: bool): Hosted
    requires y < |h.screen.Rows()| && FitsRow(h.screen, y) && cell.c != NUL
  {
    if n == 0 || x >= h.screen.width then h
    else
      var row := h.screen.Rows()[y];
      Edit(h, y, row.(cells := Put(row.cells, x, cell, n, h.screen.width, shift)))
  }

  function EraseCells(h: Hosted, x: nat, y: nat, n: int, shift: bool): Hosted
    requires y < |h.screen.Rows()| && FitsRow(h.screen, y)
    requires x < |h.screen.Rows()[y].cells| ==> n >= 0
  {
    var row := h.screen.Rows()[y];
    if x >= |row.cells| then h else Edit(h, y, row.(cells := Erase(row.cells, x, n, shift)))
  }

  /** Marking a row as wrapped does not change how it looks. */
  function Wrap(h: Hosted, y: nat): Hosted
    requires y < |h.screen.Rows()|
  {
    var row := h.screen.Rows()[y];
    h.(screen := h.screen.WithRows(h.screen.Rows()[y := row.(wrapped := true)]))
  }

  function Alternate(h: Hosted, on: bool): Hosted {
    Redraw(h.(screen := h.screen.(onAlternate := on)), 0, h.screen.height)
  }

  function SaveCursor(h: Hosted): Hosted {
    var s := h.screen;
    var saved := Saved(s.attribute, s.x, s.y);
    h.(screen := if s.onAlternate then s.(savedAlternate := saved) else s.(savedNormal := saved))
  }

  function RestoreCursor(h: Hosted): Hosted {
    var s := h.screen;
    var saved := if s.onAlternate then s.savedAlternate else s.savedNormal;
    h.(screen := s.(attribute := saved.attribute, x := saved.x, y := saved.y))
  }

  /** A row in the new width; the mark of a wrapped row is lost. */
  function Cut(line: Line, width: nat): Line
    requires Led(line.cells)
  {
    Line(Fitted(line.cells, width), false)
  }

  function CutAll(lines: seq<Line>, width: nat): (r: seq<Line>)
    requires forall i :: 0 <= i < |lines| ==> Led(lines[i].cells)
    ensures |r| == |lines| && forall i :: 0 <= i < |r| ==> r[i] == Cut(lines[i], width)
  {
    seq(|lines|, i requires 0 <= i < |lines| => Cut(lines[i], width))
  }

  function CutScreen(lines: seq<Line>, width: nat, height: nat): (r: seq<Line>)
    requires forall i :: 0 <= i < |lines| ==> Led(lines[i].cells)
    ensures |r| == height
  {
    var n := Least(|lines|, height);
    CutAll(lines[..n], width) + Empties(height - n)
  }

  function AtLeastOne(n: nat): nat {
    if n < 1 then 1 else n
  }

  function Resize(s: Screen, width: nat, height: nat): Screen
    requires AllLed(s)
  {
    var w, h := AtLeastOne(width), AtLeastOne(height);
    if w == s.width && h == s.height then s
    else
      s.(width := w, height := h, log := CutAll(s.log, w),
         normal := CutScreen(s.normal, w, h), alternate := CutScreen(s.alternate, w, h),
         x := if s.x >= w then w - 1 else s.x, y := if s.y >= h then h - 1 else s.y)
  }

  // What every operation keeps.

  predicate LineLed(line: Line, width: nat) {
    Led(line.cells) && |line.cells| <= width
  }

  predicate FitsRow(s: Screen, y: nat)
    requires y < |s.Rows()|
  {
    LineLed(s.Rows()[y], s.width)
  }

  ghost predicate AllLed(s: Screen) {
    && (forall i :: 0 <= i < |s.log| ==> LineLed(s.log[i], s.width))
    && (forall i :: 0 <= i < |s.normal| ==> LineLed(s.normal[i], s.width))
    && (forall i :: 0 <= i < |s.alternate| ==> LineLed(s.alternate[i], s.width))
  }

  ghost predicate Sized(s: Screen) {
    && s.width > 0 && s.height > 0 && s.capacity > 0 && |s.log| <= s.capacity
    && |s.normal| == s.height && |s.alternate| == s.height
    && AllLed(s)
  }

  ghost predicate WholeLines(w: Widths, lines: seq<Line>) {
    forall i :: 0 <= i < |lines| ==> Whole(w, lines[i].cells)
  }

  /** Every row, logged or on either screen, is made of whole glyphs. */
  ghost predicate WholeRows(w: Widths, s: Screen) {
    WholeLines(w, s.log) && WholeLines(w, s.normal) && WholeLines(w, s.alternate)
  }

  // The picture of the content.

  function DrawnLine(line: Line): Drawn {
    Drawn(line.cells, NoCursor)
  }

  function DrawnLines(lines: seq<Line>): (r: seq<Drawn>)
    ensures |r| == |lines| && forall i :: 0 <= i < |r| ==> r[i] == DrawnLine(lines[i])
  {
    seq(|lines|, i requires 0 <= i < |lines| => DrawnLine(lines[i]))
  }

  /** The content without a cursor. */
  function Picture(s: Screen): seq<Drawn> {
    DrawnLines(s.Content())
  }

  /** The view is right, but for the cursor, and the position inside the content. */
  ghost predicate InStep(h: Hosted) {
    && Shows(h.view, Picture(h.screen))
    && 0 <= h.view.position <= |h.screen.log| * h.view.unit
  }

  lemma RedrawInStep(h: Hosted, y: int, n: nat, before: Screen)
    requires Shows(h.view, Picture(before)) && 0 <= h.view.position <= |h.screen.log| * h.view.unit
    requires |h.screen.log| == |before.log| && SameOutside(Picture(before), Picture(h.screen), y + |before.log|, n)
    ensures InStep(Redraw(h, y, n))
  {
    hide Picture, Shows, SameOutside, Invalidate;
    InvalidateShows(h.view, |h.screen.log|, y, n, Picture(before), Picture(h.screen));
    assert Proper(h.view) by { ShowsIsProper(h.view, Picture(before)); }
    RedrawIsProper(h, y, n);
  }

  lemma ShowsIsProper(v: View, a: seq<Drawn>)
    requires Shows(v, a)
    ensures Proper(v)
  {
  }

  /** Drawing anything again never hurts. */
  lemma RedrawAgain(h: Hosted, y: int, n: nat)
    requires InStep(h)
    ensures InStep(Redraw(h, y, n)) && Redraw(h, y, n).screen == h.screen
  {
    hide Picture, Invalidate;
    RedrawInStep(h, y, n, h.screen);
  }

  lemma MoveKeepsPlace(v: View, log: nat, y: int, n: nat, dy: int)
    requires Proper(v)
    ensures var v' := Scroll(v, log, y, n, dy); v'.position == v.position && v'.unit == v.unit && v'.height == v.height
  {
    hide Reaches, Top, ClipTop, ClipBottom;
    if Reaches(v, log, y, n) {
      ClipFits(v, log, y, n);
    }
  }

  lemma MoveInStep(h: Hosted, y: int, n: nat, k: int, before: Screen)
    requires Shows(h.view, Picture(before)) && 0 <= h.view.position <= |h.screen.log| * h.view.unit
    requires |h.screen.log| == |before.log| && MovedRows(Picture(before), Picture(h.screen), y + |before.log|, n, k)
    ensures Proper(h.view) && InStep(Move(h, y, n, k))
  {
    hide Picture, Shows, MovedRows, Scroll;
    assert Proper(h.view) by { ShowsIsProper(h.view, Picture(before)); }
    ScrollShows(h.view, |h.screen.log|, y, n, k, Picture(before), Picture(h.screen));
    MoveKeepsPlace(h.view, |h.screen.log|, y, n, k);
  }

  lemma MoveRegionInStep(h: Hosted, y: nat, n: nat, k: int, before: Screen)
    requires InStep(Hosted(before, h.view)) && before.y == h.screen.y
    requires |h.screen.log| == |before.log| && MovedRows(Picture(before), Picture(h.screen), y + |before.log|, n, k)
    ensures InStep(MoveRegion(h, y, n, k))
  {
    hide Picture, Shows, MovedRows, Scroll, Invalidate;
    var c, h0 := h.screen.y, Hosted(before, h.view);
    assert Proper(h.view) by { ShowsIsProper(h.view, Picture(before)); }
    if y <= c < y + n {
      RedrawAgain(h0, c, 1);
      RedrawIsProper(h0, c, 1);
      var h1 := Redraw(h, c, 1);
      assert h1.view == Redraw(h0, c, 1).view;
      MoveInStep(h1, y, n, k, before);
      RedrawAgain(Move(h1, y, n, k), c, 1);
    } else {
      MoveInStep(h, y, n, k, before);
    }
  }

  lemma RowsInPicture(s: Screen, i: nat)
    requires i < |s.Rows()|
    ensures Picture(s)[|s.log| + i] == DrawnLine(s.Rows()[i])
  {
  }

  /** Rows that move on the screen move in the picture, below the log. */
  lemma RegionMoves(s: Screen, t: Screen, y: nat, n: nat, k: int)
    requires t.log == s.log && |t.Rows()| == |s.Rows()| && y + n <= |s.Rows()|
    requires forall i :: 0 <= i < |t.Rows()| && !(y <= i < y + n) ==> t.Rows()[i] == s.Rows()[i]
    requires forall i :: y <= i < y + n && y <= i - k < y + n ==> t.Rows()[i] == s.Rows()[i - k]
    ensures MovedRows(Picture(s), Picture(t), y + |s.log|, n, k)
  {
    hide Picture;
    var m := |s.log|;
    OutsideStays(s, t, y, n);
    LogInPicture(s);
    LogInPicture(t);
    forall i | y + m <= i < y + m + n && y + m <= i - k < y + m + n ensures Picture(t)[i] == Picture(s)[i - k] {
      RowsInPicture(s, i - m - k);
      RowsInPicture(t, i - m);
    }
  }

  lemma OutsideStays(s: Screen, t: Screen, y: nat, n: nat)
    requires t.log == s.log && |t.Rows()| == |s.Rows()|
    requires forall i :: 0 <= i < |t.Rows()| && !(y <= i < y + n) ==> t.Rows()[i] == s.Rows()[i]
    ensures SameOutside(Picture(s), Picture(t), y + |s.log|, n)
  {
    hide Picture;
    var m := |s.log|;
    LogInPicture(s);
    LogInPicture(t);
    forall i | 0 <= i < |Picture(s)| && !(y + m <= i < y + m + n) ensures Picture(s)[i] == Picture(t)[i] {
      if i >= m {
        RowsInPicture(s, i - m);
        RowsInPicture(t, i - m);
      }
    }
  }

  lemma LogInPicture(s: Screen)
    ensures |Picture(s)| == |s.log| + |s.Rows()|
    ensures forall i :: 0 <= i < |s.log| ==> Picture(s)[i] == DrawnLine(s.log[i])
  {
  }

  lemma ScrollUpInStep(h: Hosted, y: nat, n: nat, k: nat)
    requires InStep(h) && y + n <= |h.screen.Rows()|
    ensures InStep(ScrollUp(h, y, n, k))
  {
    hide Shows, MoveRegion, MovedRows, Picture, InStep;
    var d := Least(k, n);
    if d > 0 {
      var s := h.screen.WithRows(Up(h.screen.Rows(), y, n, d));
      var dy: int := d;
      RegionMoves(h.screen, s, y, n, -dy);
      MoveRegionInStep(h.(screen := s), y, n, -dy, h.screen);
    }
  }

  lemma ScrollDownInStep(h: Hosted, y: nat, n: nat, k: nat)
    requires InStep(h) && y + n <= |h.screen.Rows()|
    ensures InStep(ScrollDown(h, y, n, k))
  {
    hide Shows, MoveRegion, MovedRows, Picture, InStep;
    var d := Least(k, n);
    if d > 0 {
      var s := h.screen.WithRows(Down(h.screen.Rows(), y, n, d));
      RegionMoves(h.screen, s, y, n, d);
      MoveRegionInStep(h.(screen := s), y, n, d, h.screen);
    }
  }

  lemma EraseRowsInStep(h: Hosted, y: nat, n: nat)
    requires InStep(h) && y + n <= |h.screen.Rows()|
    ensures InStep(EraseRows(h, y, n))
  {
    hide Shows;
    RedrawInStep(h.(screen := h.screen.WithRows(Erased(h.screen.Rows(), y, n))), y, n, h.screen);
  }

  lemma EditInStep(h: Hosted, y: nat, line: Line)
    requires InStep(h) && y < |h.screen.Rows()|
    ensures InStep(Edit(h, y, line))
  {
    hide Shows;
    RedrawInStep(h.(screen := h.screen.WithRows(h.screen.Rows()[y := line])), y, 1, h.screen);
  }

  lemma WrapInStep(h: Hosted, y: nat)
    requires InStep(h) && y < |h.screen.Rows()|
    ensures InStep(Wrap(h, y))
  {
    assert Picture(Wrap(h, y).screen) == Picture(h.screen);
  }

  lemma AlternateInStep(h: Hosted, on: bool)
    requires InStep(h) && Sized(h.screen)
    ensures InStep(Alternate(h, on))
  {
    hide Shows;
    RedrawInStep(h.(screen := h.screen.(onAlternate := on)), 0, h.screen.height, h.screen);
  }

  lemma CursorInStep(h: Hosted)
    requires InStep(h)
    ensures InStep(SaveCursor(h)) && InStep(RestoreCursor(h))
  {
    assert Picture(SaveCursor(h).screen) == Picture(h.screen) == Picture(RestoreCursor(h).screen);
  }

  /** The step at the heart of scrolling back: log and screen together move up by one row. */
  lemma ScrollLogInStep(h: Hosted)
    requires InStep(h) && Sized(h.screen)
    ensures InStep(ScrollLog(h))
  {
    hide Shows, Scroll, Invalidate, Picture, Sized;
    SizedRows(h.screen);
    RedrawAgain(h, h.screen.y, 1);
    var h1 := Redraw(h, h.screen.y, 1);
    var s := PushLog(h.screen);
    var n := |s.log|;
    if |h.screen.log| < h.screen.capacity {
      var d := DrawnLine(EMPTY);
      var before := h.screen.(log := [EMPTY] + h.screen.log);
      LoggedShows(h1.view, Picture(h.screen), d);
      assert [d] + Picture(h.screen) == Picture(before) by { PictureOfLonger(h.screen); }
      assert (|h.screen.log| + 1) * h.view.unit == |h.screen.log| * h.view.unit + h.view.unit;
      assert h1.view.unit == h.view.unit by {
        ShowsIsProper(h.view, Picture(h.screen));
        RedrawIsProper(h, h.screen.y, 1);
      }
      PushMoves(h.screen, before);
      MoveInStep(Hosted(s, Logged(h1.view)), -n, n + h.screen.height, -1, before);
      RedrawAgain(Move(Hosted(s, Logged(h1.view)), -n, n + h.screen.height, -1), h.screen.y, 1);
    } else {
      PushMoves(h.screen, h.screen);
      MoveInStep(Hosted(s, h1.view), -n, n + h.screen.height, -1, h.screen);
      RedrawAgain(Move(Hosted(s, h1.view), -n, n + h.screen.height, -1), h.screen.y, 1);
    }
  }

  /** The row of the screen that line p of the window belongs to; those of the log are below zero. */
  function ScreenRow(v: View, log: nat, p: int): int
    requires v.unit > 0
  {
    RowAt(v, p) - log
  }

  /**
   Pushing a row into the log moves the lines that were valid up with their rows, whether the log grows
   and the view moves with it or not: only the row of the cursor and the new one are to be drawn.
   */
  lemma ScrollLogAre(h: Hosted, p: int)
    requires InStep(h) && Sized(h.screen) && 0 <= p < h.view.height
    ensures Proper(h.view) && h.screen.Rows() != []
    ensures var v, y := h.view, ScreenRow(h.view, |h.screen.log|, p);
            p in ScrollLog(h).view.valid <==>
              && y != h.screen.y
              && if y >= h.screen.height then p in v.valid
                 else y + 1 < h.screen.height && y + 1 != h.screen.y && p + v.unit < v.height && p + v.unit in v.valid
  {
    hide Shows, Scroll, Invalidate, Picture, Sized, RowAt, PushLog;
    SizedRows(h.screen);
    ShowsIsProper(h.view, Picture(h.screen));
    var log, c := |h.screen.log|, h.screen.y;
    RedrawIsProper(h, c, 1);
    var v, v1 := h.view, Redraw(h, c, 1).view;
    var grows := log < h.screen.capacity;
    var v2, n := if grows then Logged(v1) else v1, if grows then log + 1 else log;
    PushedLength(h.screen);
    var v3 := Scroll(v2, n, -n, n + h.screen.height, -1);
    InvalidateKeepsHeight(v, log, c, 1);
    MoveKeepsPlace(v2, n, -n, n + h.screen.height, -1);
    RowsFrom(v, v2, log, n, p, if grows then 1 else 0);
    RowsFrom(v, v3, log, n, p, if grows then 1 else 0);
    ScrollIsProper(v2, n, -n, n + h.screen.height, -1);
    ScrollAre(v2, n, -n, n + h.screen.height, -1, p);
    InvalidateAre(v, log, c, 1, p);
    InvalidateAre(v, log, c, 1, p + v.unit);
    InvalidateAre(v3, n, c, 1, p);
  }

  lemma PushedLength(s: Screen)
    requires s.Rows() != [] && s.capacity > 0
    ensures |PushLog(s).log| == if |s.log| < s.capacity then |s.log| + 1 else if s.log == [] then 1 else |s.log|
    ensures PushLog(s).height == s.height && PushLog(s).y == s.y
  {
  }

  lemma InvalidateKeepsHeight(v: View, log: nat, y: int, n: nat)
    ensures Invalidate(v, log, y, n).height == v.height
  {
    hide Reaches, Top, ClipTop, ClipBottom;
    if Reaches(v, log, y, n) {
      ClipFits(v, log, y, n);
    }
  }

  lemma ScrollIsProper(v: View, log: nat, y: int, n: nat, dy: int)
    requires Proper(v)
    ensures Proper(Scroll(v, log, y, n, dy))
  {
    hide Reaches, Top, ClipTop, ClipBottom, ScrollLines;
    if Reaches(v, log, y, n) {
      ClipFits(v, log, y, n);
      ScrollLinesProper(v, ClipTop(v, Top(v, log, y)), ClipBottom(v, Top(v, log, y + n)) - ClipTop(v, Top(v, log, y)),
        dy * v.unit);
    }
  }

  /** A view that has moved by k rows with a log that has grown by k has the same rows of the screen. */
  lemma RowsFrom(v: View, r: View, log: nat, n: nat, p: int, k: nat)
    requires v.unit > 0 && r.unit == v.unit && r.position == v.position + k * v.unit && n == log + k
    requires v.position >= 0 && p >= 0
    ensures RowAt(r, p) - n == RowAt(v, p) - log && RowAt(r, p) >= 0
    ensures RowAt(r, p + v.unit) == RowAt(r, p) + 1 && RowAt(v, p + v.unit) == RowAt(v, p) + 1
  {
    RowShift(v.unit, p + v.position, k);
    RowShift(v.unit, p + v.position, 1);
    RowShift(v.unit, p + r.position, 1);
    RowBelow(v.unit, p + r.position, 0);
  }

  lemma SizedRows(s: Screen)
    requires Sized(s)
    ensures |s.Rows()| == s.height > 0 && s.capacity > 0
  {
  }

  lemma PictureOfLonger(s: Screen)
    ensures Picture(s.(log := [EMPTY] + s.log)) == [DrawnLine(EMPTY)] + Picture(s)
  {
    assert s.(log := [EMPTY] + s.log).Content() == [EMPTY] + s.Content();
  }

  /** Pushing a row moves the whole content up by one, counted in the log it ends up with. */
  lemma PushMoves(s: Screen, before: Screen)
    requires Sized(s)
    requires before == if |s.log| < s.capacity then s.(log := [EMPTY] + s.log) else s
    ensures var s' := PushLog(s);
            && |s'.log| == |before.log|
            && MovedRows(Picture(before), Picture(s'), 0, |s'.log| + s.height, -1)
  {
    hide PushLog, MovedRows;
    PushContent(s);
    assert before.Content() == if |s.log| < s.capacity then [EMPTY] + s.Content() else s.Content();
    assert PushLog(s).Content() == before.Content()[1..] + [EMPTY];
    RowsMoveUp(before.Content());
  }

  lemma RowsMoveUp(lines: seq<Line>)
    requires lines != []
    ensures MovedRows(DrawnLines(lines), DrawnLines(lines[1..] + [EMPTY]), 0, |lines|, -1)
  {
  }

  lemma JoinedPush(log: seq<Line>, rows: seq<Line>, e: Line)
    requires rows != []
    ensures (log + [rows[0]]) + (rows[1..] + [e]) == (log + rows) + [e]
    ensures log != [] ==> (log[1..] + [rows[0]]) + (rows[1..] + [e]) == (log + rows)[1..] + [e]
  {
    assert [rows[0]] + rows[1..] == rows;
    if log != [] {
      assert (log + rows)[1..] == log[1..] + rows;
    }
  }

  lemma PushContent(s: Screen)
    requires Sized(s)
    ensures |PushLog(s).log| == if |s.log| < s.capacity then |s.log| + 1 else |s.log|
    ensures PushLog(s).Content() == (if |s.log| < s.capacity then s.Content() else s.Content()[1..]) + [EMPTY]
  {
    SizedRows(s);
    JoinedPush(s.log, s.Rows(), EMPTY);
    hide AllLed;
  }
}
