/**
 What every operation of the buffer keeps of its rows: their number and size, and that each is made
 of whole glyphs. The log holds the rows that were pushed last.
 */
module ScreenShape {
  import opened Rows
  import opened Damage
  import opened Screens

  /** Rows in good shape, with glyphs as wide as w says. */
  ghost predicate Sound(w: Widths, s: Screen) {
    Sized(s) && WholeRows(w, s)
  }

  ghost predicate SoundLine(w: Widths, line: Line, width: nat) {
    LineLed(line, width) && Whole(w, line.cells)
  }

  ghost predicate SoundLines(w: Widths, lines: seq<Line>, width: nat) {
    forall i :: 0 <= i < |lines| ==> SoundLine(w, lines[i], width)
  }

  lemma SoundIs(w: Widths, s: Screen)
    ensures Sound(w, s) <==>
              && s.width > 0 && s.height > 0 && s.capacity > 0 && |s.log| <= s.capacity
              && |s.normal| == s.height && |s.alternate| == s.height
              && SoundLines(w, s.log, s.width) && SoundLines(w, s.normal, s.width)
                && SoundLines(w, s.alternate, s.width)
  {
  }

  ghost predicate SameSize(s: Screen, t: Screen) {
    s.width == t.width && s.height == t.height && s.capacity == t.capacity
  }

  /** New rows for the screen in use. */
  lemma WithRowsIsSound(w: Widths, s: Screen, rows: seq<Line>)
    requires Sound(w, s) && |rows| == s.height && SoundLines(w, rows, s.width)
    ensures Sound(w, s.WithRows(rows)) && SameSize(s, s.WithRows(rows)) && s.WithRows(rows).Rows() == rows
  {
    hide SoundLines, Sound;
    SoundIs(w, s);
    SoundIs(w, s.WithRows(rows));
  }

  lemma RowsAreSound(w: Widths, s: Screen)
    requires Sound(w, s)
    ensures |s.Rows()| == s.height && SoundLines(w, s.Rows(), s.width)
  {
    SoundIs(w, s);
  }

  lemma EmptyIsSound(w: Widths, width: nat)
    ensures SoundLine(w, EMPTY, width)
  {
  }

  lemma FreshIsSound(w: Widths, capacity: nat, width: nat, height: nat, a: Saved, b: Saved)
    requires capacity > 0 && width > 0 && height > 0
    ensures Sound(w, Fresh(capacity, width, height, a, b))
  {
    EmptyIsSound(w, width);
    SoundIs(w, Fresh(capacity, width, height, a, b));
  }

  lemma PushLogIsSound(w: Widths, s: Screen)
    requires Sound(w, s)
    ensures s.Rows() != [] && s.capacity > 0 && Sound(w, PushLog(s)) && SameSize(s, PushLog(s))
  {
    hide SoundLine, Sound;
    SoundIs(w, s);
    RowsAreSound(w, s);
    EmptyIsSound(w, s.width);
    SoundIs(w, PushLog(s));
    assert SoundLines(w, s.Rows()[1..] + [EMPTY], s.width);
    assert SoundLines(w, PushLog(s).log, s.width);
  }

  lemma ScrollIsSound(w: Widths, s: Screen, y: nat, n: nat, k: nat)
    requires Sound(w, s) && y + n <= s.height && k <= n
    ensures var up := s.WithRows(Up(s.Rows(), y, n, k)); |s.Rows()| == s.height && Sound(w, up) && SameSize(s, up)
    ensures var down := s.WithRows(Down(s.Rows(), y, n, k)); Sound(w, down) && SameSize(s, down)
  {
    hide SoundLine, Sound;
    RowsAreSound(w, s);
    EmptyIsSound(w, s.width);
    WithRowsIsSound(w, s, Up(s.Rows(), y, n, k));
    WithRowsIsSound(w, s, Down(s.Rows(), y, n, k));
  }

  lemma EraseRowsIsSound(w: Widths, s: Screen, y: nat, n: nat)
    requires Sound(w, s) && y + n <= s.height
    ensures |s.Rows()| == s.height
    ensures var t := s.WithRows(Erased(s.Rows(), y, n)); Sound(w, t) && SameSize(s, t)
  {
    hide SoundLine, Sound;
    RowsAreSound(w, s);
    EmptyIsSound(w, s.width);
    WithRowsIsSound(w, s, Erased(s.Rows(), y, n));
  }

  lemma EditIsSound(w: Widths, s: Screen, y: nat, line: Line)
    requires Sound(w, s) && y < s.height && SoundLine(w, line, s.width)
    ensures |s.Rows()| == s.height
    ensures var t := s.WithRows(s.Rows()[y := line]); Sound(w, t) && SameSize(s, t)
  {
    hide SoundLine, Sound;
    RowsAreSound(w, s);
    WithRowsIsSound(w, s, s.Rows()[y := line]);
  }

  // The operations.

  lemma InsertCellsIsSound(w: Widths, h: Hosted, x: nat, y: nat, n: nat)
    requires WidthsOk(w) && Sound(w, h.screen) && y < h.screen.height
    ensures y < |h.screen.Rows()| && FitsRow(h.screen, y)
    ensures var t := InsertCells(h, x, y, n).screen; Sound(w, t) && SameSize(h.screen, t)
  {
    hide Sound, Whole;
    RowsAreSound(w, h.screen);
    var row := h.screen.Rows()[y];
    assert SoundLine(w, row, h.screen.width);
    if x < h.screen.width {
      InsertBlanksKeepsWhole(w, row.cells, x, n, h.screen.width);
      EditIsSound(w, h.screen, y, row.(cells := InsertBlanks(row.cells, x, n, h.screen.width)));
    }
  }

  lemma PutCellIsSound(w: Widths, h: Hosted, x: nat, y: nat, cell: Cell, shift: bool)
    requires WidthsOk(w) && Sound(w, h.screen) && y < h.screen.height && cell.c != NUL
    ensures y < |h.screen.Rows()| && FitsRow(h.screen, y)
    ensures var t := PutCell(h, x, y, cell, w(cell.c), shift).screen; Sound(w, t) && SameSize(h.screen, t)
  {
    hide Sound, Whole;
    RowsAreSound(w, h.screen);
    var row := h.screen.Rows()[y];
    assert SoundLine(w, row, h.screen.width);
    if x < h.screen.width && w(cell.c) > 0 {
      PutKeepsWhole(w, row.cells, x, cell, h.screen.width, shift);
      EditIsSound(w, h.screen, y, row.(cells := Put(row.cells, x, cell, w(cell.c), h.screen.width, shift)));
    }
  }

  lemma EraseCellsIsSound(w: Widths, h: Hosted, x: nat, y: nat, n: int, shift: bool)
    requires WidthsOk(w) && Sound(w, h.screen) && y < h.screen.height && (x < h.screen.width ==> n >= 0)
    ensures y < |h.screen.Rows()| && FitsRow(h.screen, y) && (x < |h.screen.Rows()[y].cells| ==> n >= 0)
    ensures var t := EraseCells(h, x, y, n, shift).screen; Sound(w, t) && SameSize(h.screen, t)
  {
    hide Sound, Whole;
    RowsAreSound(w, h.screen);
    var row := h.screen.Rows()[y];
    assert SoundLine(w, row, h.screen.width);
    if x < |row.cells| {
      EraseKeepsWhole(w, row.cells, x, n, shift);
      EditIsSound(w, h.screen, y, row.(cells := Erase(row.cells, x, n, shift)));
    }
  }

  lemma WrapIsSound(w: Widths, h: Hosted, y: nat)
    requires Sound(w, h.screen) && y < h.screen.height
    ensures y < |h.screen.Rows()|
    ensures var t := Wrap(h, y).screen; Sound(w, t) && SameSize(h.screen, t)
  {
    hide Sound, Whole;
    RowsAreSound(w, h.screen);
    assert SoundLine(w, h.screen.Rows()[y], h.screen.width);
    EditIsSound(w, h.screen, y, h.screen.Rows()[y].(wrapped := true));
  }

  // Resizing.

  lemma CutIsSound(w: Widths, line: Line, old_width: nat, width: nat)
    requires WidthsOk(w) && SoundLine(w, line, old_width)
    ensures SoundLine(w, Cut(line, width), width)
  {
    FittedIs(w, line.cells, width);
  }

  lemma ResizeIsSound(w: Widths, s: Screen, width: nat, height: nat)
    requires WidthsOk(w) && Sound(w, s)
    ensures AllLed(s) && Sound(w, Resize(s, width, height))
  {
    hide SoundLine, Whole;
    var n := AtLeastOne(width);
    SoundIs(w, s);
    SoundIs(w, Resize(s, width, height));
    EmptyIsSound(w, n);
    forall line | SoundLine(w, line, s.width) ensures LineLed(line, s.width) && SoundLine(w, Cut(line, n), n) {
      SoundLineIsLed(w, line, s.width);
      CutIsSound(w, line, s.width, n);
    }
  }

  lemma SoundLineIsLed(w: Widths, line: Line, width: nat)
    requires SoundLine(w, line, width)
    ensures LineLed(line, width)
  {
  }

  /** What is left of a row in another width: as much as fits, with a glyph across the edge blanked, and no mark. */
  predicate Narrowed(was: Line, now: Line, width: nat) {
    Led(was.cells) && now == Line(Kept(was.cells, width), false)
  }

  lemma CutNarrows(w: Widths, line: Line, width: nat)
    requires WidthsOk(w) && Whole(w, line.cells) && Led(line.cells)
    ensures Narrowed(line, Cut(line, width), width)
  {
    FittedIs(w, line.cells, width);
  }

  /** The first n rows, in another width. */
  ghost predicate AllNarrowed(was: seq<Line>, now: seq<Line>, n: nat, width: nat)
    requires n <= |was| && n <= |now|
  {
    forall i :: 0 <= i < n ==> Narrowed(was[i], now[i], width)
  }

  lemma CutAllNarrows(w: Widths, was: seq<Line>, now: seq<Line>, n: nat, old_width: nat, width: nat)
    requires WidthsOk(w) && SoundLines(w, was, old_width) && n <= |was| && n <= |now|
    requires forall i :: 0 <= i < n ==> Led(was[i].cells) && now[i] == Cut(was[i], width)
    ensures AllNarrowed(was, now, n, width)
    ensures width >= old_width ==> forall i :: 0 <= i < n ==> now[i].cells == was[i].cells
  {
    forall i | 0 <= i < n ensures Narrowed(was[i], now[i], width) {
      assert SoundLine(w, was[i], old_width);
      CutNarrows(w, was[i], width);
    }
    forall i | 0 <= i < n && width >= old_width ensures now[i].cells == was[i].cells {
      assert SoundLine(w, was[i], old_width);
    }
  }

  /**
   Resizing keeps the log in order and the first rows of both screens, each as far as it fits the new
   width; more rows are empty; the cursor stays where it is, or goes to the edge that has come nearer.
   Widening changes no cell.
   */
  lemma ResizeKeeps(w: Widths, s: Screen, width: nat, height: nat)
    requires WidthsOk(w) && Sound(w, s)
    requires AtLeastOne(width) != s.width || AtLeastOne(height) != s.height
    ensures AllLed(s)
    ensures var t, m := Resize(s, width, height), Least(s.height, AtLeastOne(height));
            && t.width == AtLeastOne(width) && t.height == AtLeastOne(height)
            && |t.log| == |s.log| && |s.normal| == |s.alternate| == s.height && |t.normal| == |t.alternate| == t.height
            && AllNarrowed(s.log, t.log, |s.log|, t.width)
            && AllNarrowed(s.normal, t.normal, m, t.width) && AllNarrowed(s.alternate, t.alternate, m, t.width)
            && (forall i :: m <= i < t.height ==> t.normal[i] == EMPTY && t.alternate[i] == EMPTY)
            && t.x == Least(s.x, t.width - 1) && t.y == Least(s.y, t.height - 1)
            && t == s.(width := t.width, height := t.height, log := t.log, normal := t.normal, alternate := t.alternate,
                       x := t.x, y := t.y)
    ensures var t, m := Resize(s, width, height), Least(s.height, AtLeastOne(height));
            width >= s.width ==>
              && (forall i :: 0 <= i < |s.log| ==> t.log[i].cells == s.log[i].cells)
              && (forall i :: 0 <= i < m ==> t.normal[i].cells == s.normal[i].cells)
              && (forall i :: 0 <= i < m ==> t.alternate[i].cells == s.alternate[i].cells)
  {
    SoundIs(w, s);
    var t, m := Resize(s, width, height), Least(s.height, AtLeastOne(height));
    hide SoundLines, AllNarrowed, Cut, Led;
    CutAllNarrows(w, s.log, t.log, |s.log|, s.width, t.width);
    CutAllNarrows(w, s.normal, t.normal, m, s.width, t.width);
    CutAllNarrows(w, s.alternate, t.alternate, m, s.width, t.width);
  }

  // The log.

  function Last(rows: seq<Line>, n: nat): seq<Line> {
    if |rows| <= n then rows else rows[|rows| - n..]
  }

  /** The log stays the last rows pushed, as many as it can hold. */
  lemma LogIsLastPushed(s: Screen, pushed: seq<Line>)
    requires s.Rows() != [] && s.capacity > 0 && s.log == Last(pushed, s.capacity)
    ensures PushLog(s).log == Last(pushed + [s.Rows()[0]], s.capacity)
  {
  }

  /** The log, and the screen that is not in use. */
  ghost predicate KeepsRest(s: Screen, t: Screen) {
    t.log == s.log && t.onAlternate == s.onAlternate
      && (if s.onAlternate then t.normal == s.normal else t.alternate == s.alternate)
  }

  /** No operation on the screen in use, other than scrolling into the log, changes a logged row or the other screen. */
  lemma EditsKeepRest(h: Hosted, x: nat, y: nat, n: nat, k: nat, cell: Cell, shift: bool)
    requires Proper(h.view) && y + n <= |h.screen.Rows()| && cell.c != NUL
    ensures KeepsRest(h.screen, ScrollUp(h, y, n, k).screen) && KeepsRest(h.screen, ScrollDown(h, y, n, k).screen)
    ensures KeepsRest(h.screen, EraseRows(h, y, n).screen)
    ensures n > 0 && FitsRow(h.screen, y) ==>
              && KeepsRest(h.screen, InsertCells(h, x, y, k).screen)
                && KeepsRest(h.screen, PutCell(h, x, y, cell, k, shift).screen)
              && KeepsRest(h.screen, EraseCells(h, x, y, k, shift).screen) && KeepsRest(h.screen, Wrap(h, y).screen)
  {
    hide Invalidate, Damage.Scroll, Up, Down, Erased, InsertBlanks, Put, Erase;
  }
}
