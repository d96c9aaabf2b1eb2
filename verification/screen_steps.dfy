/**
 The operations of the buffer as steps of a terminal whose rows are sound and whose window is in step
 with them: each keeps both.
 */
module ScreenSteps {
  import opened Rows
  import opened Damage
  import opened Screens
  import opened ScreenShape

  ghost predicate Steady(w: Widths, h: Hosted) {
    Sound(w, h.screen) && InStep(h)
  }

  /** The size and the cursor are as before. */
  ghost predicate SamePlace(h: Hosted, r: Hosted) {
    SameSize(h.screen, r.screen) && r.screen.x == h.screen.x && r.screen.y == h.screen.y
  }

  lemma SteadyIs(w: Widths, h: Hosted)
    requires Steady(w, h)
    ensures Proper(h.view) && Sized(h.screen) && |h.screen.Rows()| == h.screen.height > 0 && h.screen.width > 0
    ensures h.screen.capacity > 0
  {
  }

  function At(h: Hosted, x: nat, y: nat): Hosted {
    h.(screen := h.screen.(x := x, y := y))
  }

  lemma AtIsSteady(w: Widths, h: Hosted, x: nat, y: nat)
    requires Steady(w, h)
    ensures Steady(w, At(h, x, y)) && SameSize(h.screen, At(h, x, y).screen)
  {
    assert Picture(At(h, x, y).screen) == Picture(h.screen);
  }

  function WithAttribute(h: Hosted, a: Attribute): Hosted {
    h.(screen := h.screen.(attribute := a))
  }

  lemma AttributeIsSteady(w: Widths, h: Hosted, a: Attribute)
    requires Steady(w, h)
    ensures Steady(w, WithAttribute(h, a)) && SamePlace(h, WithAttribute(h, a))
  {
    assert Picture(WithAttribute(h, a).screen) == Picture(h.screen);
  }

  lemma ScrollLogIsSteady(w: Widths, h: Hosted)
    requires Steady(w, h)
    ensures Proper(h.view) && h.screen.Rows() != [] && h.screen.capacity > 0
    ensures Steady(w, ScrollLog(h)) && SamePlace(h, ScrollLog(h))
  {
    hide InStep, Sound, Invalidate, Scroll;
    SteadyIs(w, h);
    PushLogIsSound(w, h.screen);
    ScrollLogInStep(h);
  }

  lemma ScrollUpIsSteady(w: Widths, h: Hosted, y: nat, n: nat, k: nat)
    requires Steady(w, h) && y + n <= h.screen.height
    ensures Proper(h.view) && |h.screen.Rows()| == h.screen.height
    ensures Steady(w, ScrollUp(h, y, n, k)) && SamePlace(h, ScrollUp(h, y, n, k))
  {
    hide InStep, Sound, Invalidate, Scroll, Up;
    SteadyIs(w, h);
    ScrollIsSound(w, h.screen, y, n, Least(k, n));
    ScrollUpInStep(h, y, n, k);
  }

  lemma ScrollDownIsSteady(w: Widths, h: Hosted, y: nat, n: nat, k: nat)
    requires Steady(w, h) && y + n <= h.screen.height
    ensures Proper(h.view) && |h.screen.Rows()| == h.screen.height
    ensures Steady(w, ScrollDown(h, y, n, k)) && SamePlace(h, ScrollDown(h, y, n, k))
  {
    hide InStep, Sound, Invalidate, Scroll, Down;
    SteadyIs(w, h);
    ScrollIsSound(w, h.screen, y, n, Least(k, n));
    ScrollDownInStep(h, y, n, k);
  }

  lemma EraseRowsIsSteady(w: Widths, h: Hosted, y: nat, n: nat)
    requires Steady(w, h) && y + n <= h.screen.height
    ensures |h.screen.Rows()| == h.screen.height
    ensures Steady(w, EraseRows(h, y, n)) && SamePlace(h, EraseRows(h, y, n))
  {
    hide InStep, Sound, Invalidate;
    SteadyIs(w, h);
    EraseRowsIsSound(w, h.screen, y, n);
    EraseRowsInStep(h, y, n);
  }

  lemma InsertCellsIsSteady(w: Widths, h: Hosted, x: nat, y: nat, n: nat)
    requires WidthsOk(w) && Steady(w, h) && y < h.screen.height
    ensures y < |h.screen.Rows()| && FitsRow(h.screen, y)
    ensures Steady(w, InsertCells(h, x, y, n)) && SamePlace(h, InsertCells(h, x, y, n))
  {
    hide InStep, Sound, Invalidate, Edit;
    SteadyIs(w, h);
    InsertCellsIsSound(w, h, x, y, n);
    var row := h.screen.Rows()[y];
    if x < h.screen.width {
      EditInStep(h, y, row.(cells := InsertBlanks(row.cells, x, n, h.screen.width)));
      EditKeepsPlace(h, y, row.(cells := InsertBlanks(row.cells, x, n, h.screen.width)));
    }
  }

  lemma EditKeepsPlace(h: Hosted, y: nat, line: Line)
    requires y < |h.screen.Rows()|
    ensures SamePlace(h, Edit(h, y, line))
  {
  }

  lemma PutCellIsSteady(w: Widths, h: Hosted, x: nat, y: nat, cell: Cell, shift: bool)
    requires WidthsOk(w) && Steady(w, h) && y < h.screen.height && cell.c != NUL
    ensures y < |h.screen.Rows()| && FitsRow(h.screen, y)
    ensures var r := PutCell(h, x, y, cell, w(cell.c), shift); Steady(w, r) && SamePlace(h, r)
  {
    hide InStep, Sound, Invalidate, Edit;
    SteadyIs(w, h);
    PutCellIsSound(w, h, x, y, cell, shift);
    var row := h.screen.Rows()[y];
    if x < h.screen.width && w(cell.c) > 0 {
      EditInStep(h, y, row.(cells := Put(row.cells, x, cell, w(cell.c), h.screen.width, shift)));
      EditKeepsPlace(h, y, row.(cells := Put(row.cells, x, cell, w(cell.c), h.screen.width, shift)));
    }
  }

  lemma EraseCellsIsSteady(w: Widths, h: Hosted, x: nat, y: nat, n: int, shift: bool)
    requires WidthsOk(w) && Steady(w, h) && y < h.screen.height && (x < h.screen.width ==> n >= 0)
    ensures y < |h.screen.Rows()| && FitsRow(h.screen, y) && (x < |h.screen.Rows()[y].cells| ==> n >= 0)
    ensures var r := EraseCells(h, x, y, n, shift); Steady(w, r) && SamePlace(h, r)
  {
    hide InStep, Sound, Invalidate, Edit;
    SteadyIs(w, h);
    EraseCellsIsSound(w, h, x, y, n, shift);
    var row := h.screen.Rows()[y];
    if x < |row.cells| {
      EditInStep(h, y, row.(cells := Erase(row.cells, x, n, shift)));
      EditKeepsPlace(h, y, row.(cells := Erase(row.cells, x, n, shift)));
    }
  }

  lemma WrapIsSteady(w: Widths, h: Hosted, y: nat)
    requires Steady(w, h) && y < h.screen.height
    ensures y < |h.screen.Rows()| && Steady(w, Wrap(h, y)) && SamePlace(h, Wrap(h, y))
  {
    hide InStep, Sound;
    SteadyIs(w, h);
    WrapIsSound(w, h, y);
    WrapInStep(h, y);
  }

  lemma AlternateIsSteady(w: Widths, h: Hosted, on: bool)
    requires Steady(w, h)
    ensures Steady(w, Alternate(h, on)) && SamePlace(h, Alternate(h, on))
  {
    hide InStep, Invalidate, Whole;
    SteadyIs(w, h);
    AlternateInStep(h, on);
  }

  lemma SaveCursorIsSteady(w: Widths, h: Hosted)
    requires Steady(w, h)
    ensures Steady(w, SaveCursor(h)) && SamePlace(h, SaveCursor(h))
    ensures Steady(w, RestoreCursor(h)) && SameSize(h.screen, RestoreCursor(h).screen)
  {
    hide InStep, Whole;
    CursorInStep(h);
  }
}
