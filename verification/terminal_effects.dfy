/**
 What the operations of the terminal change and what they leave alone: which rows go to the log, how
 far the cursor can get to the right, and what becomes of the wraparound mode.
 */
module TerminalEffects {
  import opened Rows
  import opened Damage
  import opened Screens
  import opened ScreenShape
  import opened ScreenSteps
  import opened TerminalModel

  /** Log, size and mode are as before, and a cursor that is not beyond the width has not gone there. */
  ghost predicate Stays(t: Terminal, r: Terminal) {
    && r.wraparound == t.wraparound
    && r.hosted.screen.log == t.hosted.screen.log && SameSize(t.hosted.screen, r.hosted.screen)
    && (t.X() <= t.Width() ==> r.X() <= r.Width())
  }

  lemma StaysTwice(t: Terminal, r: Terminal, u: Terminal)
    requires Stays(t, r) && Stays(r, u)
    ensures Stays(t, u)
  {
  }

  // The log and the window apart.

  lemma ScrollsKeepLog(h: Hosted, y: nat, n: nat, k: nat)
    requires Proper(h.view) && y + n <= |h.screen.Rows()|
    ensures ScrollUp(h, y, n, k).screen.log == h.screen.log && ScrollDown(h, y, n, k).screen.log == h.screen.log
  {
    hide Invalidate, Damage.Scroll, Up, Down;
  }

  lemma ScrollLogPushes(h: Hosted)
    requires Proper(h.view) && h.screen.Rows() != [] && h.screen.capacity > 0
    ensures ScrollLog(h).screen == PushLog(h.screen)
  {
    hide Invalidate, Damage.Scroll, Proper, PushLog;
    RedrawIsProper(h, h.screen.y, 1);
  }

  // The log takes the rows that leave the screen at its top.

  /** The whole screen scrolls into the log: no margins, on the normal screen, from its last row. */
  predicate ScrollsOut(t: Terminal) {
    t.Y() + 1 == t.begin + t.size && !t.hosted.screen.onAlternate && t.begin == 0 && t.size >= t.Height()
  }

  function IndexPushes(t: Terminal): seq<Line>
    requires t.hosted.screen.normal != []
  {
    if ScrollsOut(t) then [t.hosted.screen.normal[0]] else []
  }

  /** Scrolling by one row, as it happens when the cursor is on the last row of the region. */
  lemma ScrollStepPushes(w: Widths, t: Terminal, y: nat)
    requires Ready(w, t) && t.Y() + 1 == t.begin + t.size
    ensures t.hosted.screen.normal != [] && t.hosted.screen.capacity > 0
    ensures var r := ScrollStep(w, t, y).screen;
            && r.log == Last(t.hosted.screen.log + IndexPushes(t), t.hosted.screen.capacity)
            && r.x == t.X()
  {
    hide InStep, Sound, Screens.ScrollUp, Screens.ScrollLog;
    SteadyIs(w, t.hosted);
    var h := At(t.hosted, t.X(), y);
    AtIsSteady(w, t.hosted, t.X(), y);
    SteadyIs(w, h);
    LogIsLastPushed(h.screen, h.screen.log);
    assert h.screen.log + [] == h.screen.log;
    ScrollsKeepLog(h, t.begin, t.size, 1);
    ScrollUpIsSteady(w, h, t.begin, t.size, 1);
    ScrollLogIsSteady(w, h);
    ScrollLogPushes(h);
  }

  lemma IndexIs(w: Widths, t: Terminal)
    requires Ready(w, t)
    ensures Index(w, t)
         == t.(hosted := if t.Y() + 1 == t.begin + t.size
                         then At(ScrollStep(w, t, t.Y() + 1), ScrollStep(w, t, t.Y() + 1).screen.x, t.Y())
                         else At(t.hosted, t.X(), Min(t.Y() + 1, t.Height() - 1)))
  {
    hide Steady, ScrollStep;
  }

  lemma IndexEffect(w: Widths, t: Terminal)
    requires Ready(w, t)
    ensures t.hosted.screen.normal != []
    ensures var r := Index(w, t);
            && r.hosted.screen.log == Last(t.hosted.screen.log + IndexPushes(t), t.hosted.screen.capacity)
            && SameSize(t.hosted.screen, r.hosted.screen) && r.X() == t.X() && r.(hosted := t.hosted) == t
  {
    hide Steady, ScrollStep;
    SteadyIs(w, t.hosted);
    if t.Y() + 1 == t.begin + t.size {
      ScrollStepPushes(w, t, t.Y() + 1);
    } else {
      assert t.hosted.screen.log + [] == t.hosted.screen.log;
    }
  }

  // Everything else leaves the log alone.

  lemma MotionStays(w: Widths, t: Terminal, x: nat, y: nat)
    requires x <= t.X() || x <= t.Width()
    ensures Stays(t, MoveCursor(t, x, y))
  {
  }

  lemma ReverseIndexStays(w: Widths, t: Terminal)
    requires Ready(w, t)
    ensures Stays(t, ReverseIndex(w, t))
  {
    hide Steady, Screens.ScrollDown;
    if t.Y() == t.begin {
      ScrollDownIsSteady(w, t.hosted, t.begin, t.size, 1);
      ScrollsKeepLog(t.hosted, t.begin, t.size, 1);
    }
  }

  lemma RegionStays(w: Widths, t: Terminal, y: nat, n: nat, k: nat)
    requires Ready(w, t) && y + n <= t.Height()
    ensures Stays(t, ScrollRegionUp(w, t, y, n, k)) && Stays(t, ScrollRegionDown(w, t, y, n, k))
  {
    hide Steady, Screens.ScrollDown, Screens.ScrollUp;
    ScrollUpIsSteady(w, t.hosted, y, n, k);
    ScrollDownIsSteady(w, t.hosted, y, n, k);
    ScrollsKeepLog(t.hosted, y, n, k);
  }

  lemma LinesStay(w: Widths, t: Terminal)
    requires Ready(w, t)
    ensures Stays(t, InsertLine(w, t)) && Stays(t, DeleteLine(w, t))
  {
    hide Steady, ScrollRegionUp, ScrollRegionDown, Stays;
    var bottom := t.begin + t.size;
    if t.begin <= t.Y() < bottom {
      var n := Parameter(t, 0, 1);
      RegionStays(w, t, t.Y(), bottom - t.Y(), n);
      var down, up := ScrollRegionDown(w, t, t.Y(), bottom - t.Y(), n), ScrollRegionUp(w, t, t.Y(), bottom - t.Y(), n);
      MotionStays(w, down, 0, down.Y());
      StaysTwice(t, down, MoveCursor(down, 0, down.Y()));
      MotionStays(w, up, 0, up.Y());
      StaysTwice(t, up, MoveCursor(up, 0, up.Y()));
    } else {
      NothingStays(t);
    }
  }

  lemma NothingStays(t: Terminal)
    ensures Stays(t, t)
  {
  }

  function Min(a: int, b: int): int {
    if a < b then a else b
  }

  function Max(a: int, b: int): int {
    if a < b then b else a
  }

  /** Only the cursor has moved, to this place. */
  ghost predicate Lands(t: Terminal, r: Terminal, x: int, y: int) {
    0 <= x && 0 <= y && r == MoveCursor(t, x, y)
  }

  /** Motions in a row stop at its first and last column. */
  lemma HorizontalMotionsLand(w: Widths, t: Terminal)
    requires Ready(w, t)
    ensures Lands(t, BackSpace(w, t), Max(Min(t.X(), t.Width() - 1) - 1, 0), t.Y())
    ensures Lands(t, CarriageReturn(w, t), 0, t.Y())
    ensures Lands(t, CursorForward(w, t), Min(t.X() + Parameter(t, 0, 1), t.Width() - 1), t.Y())
    ensures Lands(t, CursorBackward(w, t), Max(t.X() - Parameter(t, 0, 1), 0), t.Y())
  {
    hide Steady, MoveCursor;
  }

  lemma ColumnMotionsLand(w: Widths, t: Terminal)
    requires Ready(w, t)
    ensures Lands(t, CursorColumn(w, t, 0), Min(Parameter(t, 0, 1), t.Width()) - 1, t.Y())
    ensures Lands(t, CursorColumn(w, t, 1), Min(Parameter(t, 1, 1), t.Width()) - 1, t.Y())
    ensures Lands(t, TabForward(w, t), NextStop(t.tabs, t.X(), t.Width()), t.Y())
  {
    hide Steady, MoveCursor;
  }

  /** Motions between rows stop at the margins in origin mode, and at the edges of the screen without it. */
  lemma VerticalMotionsLand(w: Widths, t: Terminal)
    requires Ready(w, t)
    ensures var top := if t.origin then t.begin else 0;
            && Lands(t, CursorUp(w, t), t.X(), Max(t.Y() - Parameter(t, 0, 1), top))
            && Lands(t, CursorDown(w, t), t.X(), Min(t.Y() + Parameter(t, 0, 1), Bottom(t) - 1))
            && Lands(t, CursorRow(w, t), t.X(), Min(top + Parameter(t, 0, 1), Bottom(t)) - 1)
  {
    hide Steady, MoveCursor;
  }

  lemma LandingStays(w: Widths, t: Terminal, r: Terminal, x: int, y: int)
    requires Lands(t, r, x, y) && (x <= t.X() || x <= t.Width())
    ensures Stays(t, r)
  {
    MotionStays(w, t, x, y);
  }

  lemma HorizontalMotionsStay(w: Widths, t: Terminal)
    requires Ready(w, t)
    ensures Stays(t, BackSpace(w, t)) && Stays(t, CarriageReturn(w, t))
    ensures Stays(t, CursorForward(w, t)) && Stays(t, CursorBackward(w, t))
  {
    hide Ready, Stays, Lands, BackSpace, CarriageReturn, CursorForward, CursorBackward;
    HorizontalMotionsLand(w, t);
    LandingStays(w, t, BackSpace(w, t), Max(Min(t.X(), t.Width() - 1) - 1, 0), t.Y());
    LandingStays(w, t, CarriageReturn(w, t), 0, t.Y());
    LandingStays(w, t, CursorForward(w, t), Min(t.X() + Parameter(t, 0, 1), t.Width() - 1), t.Y());
    LandingStays(w, t, CursorBackward(w, t), Max(t.X() - Parameter(t, 0, 1), 0), t.Y());
  }

  lemma OtherMotionsStay(w: Widths, t: Terminal)
    requires Ready(w, t)
    ensures Stays(t, CursorColumn(w, t, 0)) && Stays(t, CursorColumn(w, t, 1)) && Stays(t, TabForward(w, t))
    ensures Stays(t, CursorUp(w, t)) && Stays(t, CursorDown(w, t)) && Stays(t, CursorRow(w, t))
  {
    hide Ready, Stays, Lands, CursorColumn, TabForward, CursorUp, CursorDown, CursorRow;
    var top, n := if t.origin then t.begin else 0, Parameter(t, 0, 1);
    ColumnMotionsLand(w, t);
    VerticalMotionsLand(w, t);
    assert t.Width() > 0 && |t.tabs| >= t.Width() by { ReadyHasWidth(w, t); }
    LandingStays(w, t, CursorColumn(w, t, 0), Min(n, t.Width()) - 1, t.Y());
    LandingStays(w, t, CursorColumn(w, t, 1), Min(Parameter(t, 1, 1), t.Width()) - 1, t.Y());
    LandingStays(w, t, TabForward(w, t), NextStop(t.tabs, t.X(), t.Width()), t.Y());
    LandingStays(w, t, CursorUp(w, t), t.X(), Max(t.Y() - n, top));
    LandingStays(w, t, CursorDown(w, t), t.X(), Min(t.Y() + n, Bottom(t) - 1));
    LandingStays(w, t, CursorRow(w, t), t.X(), Min(top + n, Bottom(t)) - 1);
  }

  lemma ReadyHasWidth(w: Widths, t: Terminal)
    requires Ready(w, t)
    ensures t.Width() > 0 && |t.tabs| >= t.Width()
  {
  }

  lemma RestoreSavedStays(w: Widths, t: Terminal)
    requires Ready(w, t)
    ensures Stays(t, RestoreSaved(w, t)) && Stays(t, Save(w, t))
  {
    hide Steady;
  }

  lemma EraseRangeStays(w: Widths, t: Terminal, x: nat, n: int, shift: bool)
    requires Ready(w, t) && (x < t.Width() ==> n >= 0)
    ensures Stays(t, EraseRange(w, t, x, n, shift))
  {
    hide Steady, Invalidate, Erase;
  }

  lemma EraseLinesStays(w: Widths, t: Terminal, y: nat, n: nat)
    requires Ready(w, t) && y + n <= t.Height()
    ensures Stays(t, EraseLines(w, t, y, n))
  {
    hide Steady, Invalidate, Erased;
  }

  lemma EraseDisplayStays(w: Widths, t: Terminal)
    requires Ready(w, t)
    ensures Stays(t, EraseDisplay(w, t))
  {
    hide Steady, EraseRange, EraseLines, Stays;
    var p := Parameter(t, 0, 0);
    NothingStays(t);
    if p == 0 {
      var r := EraseRange(w, t, t.X(), t.Width() - t.X(), false);
      EraseRangeStays(w, t, t.X(), t.Width() - t.X(), false);
      EraseLinesStays(w, r, t.Y() + 1, t.Height() - t.Y() - 1);
      StaysTwice(t, r, EraseDisplay(w, t));
    } else if p == 1 {
      var r := EraseLines(w, t, 0, t.Y());
      EraseLinesStays(w, t, 0, t.Y());
      EraseRangeStays(w, r, 0, t.X() + 1, false);
      StaysTwice(t, r, EraseDisplay(w, t));
    } else if p == 2 {
      EraseLinesStays(w, t, 0, t.Height());
    }
  }

  lemma EraseLineStays(w: Widths, t: Terminal)
    requires Ready(w, t)
    ensures Stays(t, EraseLine(w, t)) && Stays(t, EraseCharacter(w, t)) && Stays(t, DeleteCharacter(w, t))
  {
    hide Steady, EraseRange, EraseLines, Stays;
    var p := Parameter(t, 0, 1);
    NothingStays(t);
    EraseRangeStays(w, t, t.X(), t.Width() - t.X(), false);
    EraseRangeStays(w, t, 0, t.X() + 1, false);
    EraseLinesStays(w, t, t.Y(), 1);
    EraseRangeStays(w, t, t.X(), if t.X() + p > t.Width() then t.Width() - t.X() else p, false);
    EraseRangeStays(w, t, t.X(), p, true);
  }

  lemma InsertCharacterStays(w: Widths, t: Terminal)
    requires Ready(w, t)
    ensures Stays(t, InsertCharacter(w, t))
  {
    hide Steady, Invalidate, InsertBlanks;
    InsertCellsIsSteady(w, t.hosted, t.X(), t.Y(), Parameter(t, 0, 1));
  }

  lemma {:induction false} AlignStays(w: Widths, t: Terminal, x: nat, y: nat)
    requires Ready(w, t) && y <= t.Height()
    ensures Stays(t, Align(w, t, x, y))
    decreases t.Height() - y, t.Width() - x
  {
    hide Steady, Stays, Screens.PutCell;
    if y == t.Height() {
      NothingStays(t);
    } else if x >= t.Width() {
      AlignStays(w, t, 0, y + 1);
    } else {
      var cell := Cell('E', t.hosted.screen.attribute);
      PutCellIsSteady(w, t.hosted, x, y, cell, false);
      var r := t.(hosted := PutCell(t.hosted, x, y, cell, w('E'), false));
      CellStays(t, r, x, y, cell, w('E'), false);
      AlignStays(w, r, x + 1, y);
      StaysTwice(t, r, Align(w, r, x + 1, y));
    }
  }

  lemma CellStays(t: Terminal, r: Terminal, x: nat, y: nat, cell: Cell, n: nat, shift: bool)
    requires y < |t.hosted.screen.Rows()| && FitsRow(t.hosted.screen, y) && cell.c != NUL
    requires r == t.(hosted := PutCell(t.hosted, x, y, cell, n, shift))
    ensures Stays(t, r) && r.X() == t.X()
  {
    hide Invalidate, Put;
  }

  lemma SetRegionStays(w: Widths, t: Terminal)
    requires Ready(w, t) && RegionFits(t)
    ensures Stays(t, SetRegion(w, t))
  {
    hide Steady;
  }

  lemma AttributesStay(w: Widths, t: Terminal)
    requires Ready(w, t)
    ensures Stays(t, Attributes(w, t)) && Stays(t, TabClear(t))
  {
    hide Steady, SetAttributes;
  }

  // Modes. Only mode 7 changes the wraparound.

  ghost predicate StaysBut(t: Terminal, r: Terminal, wraparound: bool) {
    Stays(t, r.(wraparound := t.wraparound)) && r.wraparound == wraparound
  }

  lemma StaysButTwice(t: Terminal, r: Terminal, u: Terminal, a: bool, b: bool)
    requires StaysBut(t, r, a) && StaysBut(r, u, b)
    ensures StaysBut(t, u, b)
  {
  }

  lemma StayingIsBut(t: Terminal, r: Terminal)
    requires Stays(t, r)
    ensures StaysBut(t, r, t.wraparound)
  {
    assert r.(wraparound := t.wraparound) == r;
  }

  lemma EraseAllStays(w: Widths, t: Terminal)
    requires Ready(w, t)
    ensures Stays(t, EraseAll(w, t))
  {
    hide Ready, Stays;
    EraseLinesStays(w, t, 0, t.Height());
  }

  lemma HomeStays(w: Widths, t: Terminal)
    requires Ready(w, t)
    ensures Stays(t, Home(w, t)) && Stays(t, WholeRegion(t)) && Stays(t, OriginMode(w, t, true))
      && Stays(t, OriginMode(w, t, false))
  {
    hide Steady;
  }

  lemma SetAlternateStays(w: Widths, t: Terminal, on: bool)
    requires Ready(w, t)
    ensures Stays(t, SetAlternate(w, t, on))
  {
    hide Steady, Invalidate;
  }

  lemma SwitchScreenStays(w: Widths, t: Terminal, on: bool)
    requires Ready(w, t)
    ensures Stays(t, SwitchScreen(w, t, on))
  {
    hide Ready, Stays, Save, SetAlternate, EraseAll, Home, RestoreSaved, WholeRegion;
    if on {
      var t1 := Save(w, t);
      RestoreSavedStays(w, t);
      var t2 := SetAlternate(w, t1, true);
      SetAlternateStays(w, t1, true);
      StaysTwice(t, t1, t2);
      var t3 := EraseAll(w, t2);
      EraseAllStays(w, t2);
      StaysTwice(t, t2, t3);
      HomeStays(w, t3);
      StaysTwice(t, t3, Home(w, t3));
    } else {
      var t1 := SetAlternate(w, t, false);
      SetAlternateStays(w, t, false);
      var t2 := RestoreSaved(w, t1);
      RestoreSavedStays(w, t1);
      StaysTwice(t, t1, t2);
      HomeStays(w, t2);
      StaysTwice(t, t2, WholeRegion(t2));
    }
  }

  lemma PrivateModeStays(w: Widths, t: Terminal, p: int, on: bool)
    requires Ready(w, t)
    ensures StaysBut(t, PrivateMode(w, t, p, on), if p == 7 then on else t.wraparound)
  {
    if p == 1 || p == 7 {
      hide Ready;
    } else {
      hide Ready, Stays, StaysBut, EraseAll, Home, OriginMode, SwitchScreen;
      NothingStays(t);
      HomeStays(w, t);
      EraseAllStays(w, Home(w, t));
      StaysTwice(t, Home(w, t), EraseAll(w, Home(w, t)));
      SwitchScreenStays(w, t, on);
      StayingIsBut(t, PrivateMode(w, t, p, on));
    }
  }

  lemma {:induction false} ModesStay(w: Widths, t: Terminal, ps: seq<int>, on: bool)
    requires Ready(w, t)
    ensures StaysBut(t, Modes(w, t, ps, on), if t.kind == Private && 7 in ps then on else t.wraparound)
    decreases |ps|
  {
    if ps == [] {
    } else if t.kind == Private {
      hide Steady, StaysBut, PrivateMode;
      var r := PrivateMode(w, t, ps[0], on);
      PrivateModeStays(w, t, ps[0], on);
      ModesStay(w, r, ps[1..], on);
      var a, b := if ps[0] == 7 then on else t.wraparound, if 7 in ps then on else t.wraparound;
      assert r.wraparound == a by { ButIs(t, r, a); }
      StaysButTwice(t, r, Modes(w, r, ps[1..], on), a, b);
    } else if t.kind == Primary {
      hide Steady;
      var r := if ps[0] == 4 then t.(insert := on) else t;
      ModesStay(w, r, ps[1..], on);
    }
  }

  lemma ButIs(t: Terminal, r: Terminal, wraparound: bool)
    requires StaysBut(t, r, wraparound)
    ensures r.wraparound == wraparound
  {
  }

  // Which rows the editing operations change.

  /** Rows y to y + n, and no others, are as new ones say. */
  ghost predicate Changes(t: Terminal, r: Terminal, y: nat, n: nat) {
    && r == t.(hosted := r.hosted) && r.hosted.screen == t.hosted.screen.WithRows(r.hosted.screen.Rows())
    && |r.hosted.screen.Rows()| == |t.hosted.screen.Rows()|
    && forall i :: 0 <= i < |r.hosted.screen.Rows()| && !(y <= i < y + n) ==>
         r.hosted.screen.Rows()[i] == t.hosted.screen.Rows()[i]
  }

  lemma EraseLinesChanges(w: Widths, t: Terminal, y: nat, n: nat)
    requires Ready(w, t) && y + n <= t.Height()
    ensures var r := EraseLines(w, t, y, n);
            Changes(t, r, y, n) && forall i :: y <= i < y + n ==> r.hosted.screen.Rows()[i] == EMPTY
  {
    ReadyHasRows(w, t);
    hide Steady, Invalidate;
  }

  lemma EraseRangeChanges(w: Widths, t: Terminal, x: nat, n: int, shift: bool, r: Terminal)
    requires Ready(w, t) && (x < t.Width() ==> n >= 0) && r == EraseRange(w, t, x, n, shift)
    ensures t.Y() < |t.hosted.screen.Rows()| && LineLed(t.hosted.screen.Rows()[t.Y()], t.Width())
    ensures var row := t.hosted.screen.Rows()[t.Y()];
            Changes(t, r, t.Y(), 1) && r.hosted.screen.Rows()[t.Y()] == row.(cells := Erase(row.cells, x, n, shift))
  {
    ReadyHasRows(w, t);
    EraseCellsIsSteady(w, t.hosted, x, t.Y(), n, shift);
    hide Steady, Invalidate, Erase, Led;
    var row := t.hosted.screen.Rows()[t.Y()];
    if x >= |row.cells| {
      EraseNothing(row.cells, x, n, shift);
    } else {
      assert r.hosted.screen.Rows() == t.hosted.screen.Rows()[t.Y() := row.(cells := Erase(row.cells, x, n, shift))];
    }
  }

  lemma EraseNothing(s: seq<Cell>, x: nat, n: int, shift: bool)
    requires Led(s) && x >= |s|
    ensures Erase(s, x, n, shift) == s
  {
  }

  /** Erasing to the end of a row keeps what is before the column. */
  lemma ErasedTailIsFitted(s: seq<Cell>, x: nat, width: nat)
    requires Led(s) && |s| <= width
    ensures Erase(s, x, width - x, false) == Fitted(s, x)
  {
  }

  /** From the cursor on: its row up to it is kept, and all rows below are empty. */
  lemma EraseBelowKeeps(w: Widths, t: Terminal)
    requires Ready(w, t)
    ensures t.Y() < |t.hosted.screen.Rows()| && Led(t.hosted.screen.Rows()[t.Y()].cells)
    ensures var r, rows := EraseBelow(w, t), t.hosted.screen.Rows();
            && Changes(t, r, t.Y(), t.Height() - t.Y())
            && r.hosted.screen.Rows()[t.Y()] == rows[t.Y()].(cells := Fitted(rows[t.Y()].cells, t.X()))
            && forall i :: t.Y() < i < t.Height() ==> r.hosted.screen.Rows()[i] == EMPTY
  {
    hide Ready, EraseRange, EraseLines, Erase, Fitted;
    ReadyHasRows(w, t);
    var r := EraseRange(w, t, t.X(), t.Width() - t.X(), false);
    EraseRangeChanges(w, t, t.X(), t.Width() - t.X(), false, r);
    ErasedTailIsFitted(t.hosted.screen.Rows()[t.Y()].cells, t.X(), t.Width());
    EraseLinesChanges(w, r, t.Y() + 1, t.Height() - t.Y() - 1);
  }

  /** Up to the cursor: all rows above are empty, its row up to it is blank, and what is behind is kept. */
  lemma EraseAboveKeeps(w: Widths, t: Terminal)
    requires Ready(w, t)
    ensures t.Y() < |t.hosted.screen.Rows()| && LineLed(t.hosted.screen.Rows()[t.Y()], t.Width())
    ensures var r, rows := EraseAbove(w, t), t.hosted.screen.Rows();
            && Changes(t, r, 0, t.Y() + 1)
            && r.hosted.screen.Rows()[t.Y()] == rows[t.Y()].(cells := Erase(rows[t.Y()].cells, 0, t.X() + 1, false))
            && forall i :: 0 <= i < t.Y() ==> r.hosted.screen.Rows()[i] == EMPTY
  {
    hide Ready, EraseRange, EraseLines, Erase;
    ReadyHasRows(w, t);
    EraseLinesChanges(w, t, 0, t.Y());
    EraseRangeChanges(w, EraseLines(w, t, 0, t.Y()), 0, t.X() + 1, false, EraseAbove(w, t));
  }

  ghost predicate InRegion(t: Terminal) {
    t.begin <= t.Y() < t.begin + t.size
  }

  lemma RegionScrolls(h: Hosted, y: nat, n: nat, k: nat)
    requires Proper(h.view) && y + n <= |h.screen.Rows()| && k > 0
    ensures ScrollDown(h, y, n, k).screen == h.screen.WithRows(Down(h.screen.Rows(), y, n, Least(k, n)))
    ensures ScrollUp(h, y, n, k).screen == h.screen.WithRows(Up(h.screen.Rows(), y, n, Least(k, n)))
  {
    hide Invalidate, Damage.Scroll;
    if n == 0 {
      assert Down(h.screen.Rows(), y, n, 0) == h.screen.Rows() == Up(h.screen.Rows(), y, n, 0);
    }
  }

  /** The rows of the region from the cursor on scroll, and the cursor goes to the margin. */
  ghost predicate ScrollsBelow(t: Terminal, r: Terminal, rows: seq<Line>) {
    r == t.(hosted := r.hosted) && r.hosted.screen == t.hosted.screen.WithRows(rows).(x := 0)
  }

  lemma MovedBelow(t: Terminal, u: Terminal, r: Terminal, rows: seq<Line>)
    requires u == t.(hosted := u.hosted) && u.hosted.screen == t.hosted.screen.WithRows(rows)
    requires r == MoveCursor(u, 0, t.Y())
    ensures ScrollsBelow(t, r, rows)
  {
  }

  lemma RegionMoves(w: Widths, t: Terminal, y: nat, n: nat, k: nat)
    requires Ready(w, t) && y + n <= t.Height() && k > 0
    ensures |t.hosted.screen.Rows()| == t.Height()
    ensures ScrollRegionDown(w, t, y, n, k).hosted.screen
         == t.hosted.screen.WithRows(Down(t.hosted.screen.Rows(), y, n, Least(k, n)))
    ensures ScrollRegionUp(w, t, y, n, k).hosted.screen
         == t.hosted.screen.WithRows(Up(t.hosted.screen.Rows(), y, n, Least(k, n)))
  {
    ReadyHasRows(w, t);
    hide Steady, ScrollDown, ScrollUp, Down, Up;
    ScrollDownIsSteady(w, t.hosted, y, n, k);
    RegionScrolls(t.hosted, y, n, k);
  }

  lemma LineMotions(w: Widths, t: Terminal)
    requires Ready(w, t)
    ensures t.begin + t.size <= t.Height()
    ensures InRegion(t) ==>
              var n, k := t.begin + t.size - t.Y(), Parameter(t, 0, 1);
              && InsertLine(w, t) == MoveCursor(ScrollRegionDown(w, t, t.Y(), n, k), 0, t.Y())
              && DeleteLine(w, t) == MoveCursor(ScrollRegionUp(w, t, t.Y(), n, k), 0, t.Y())
    ensures !InRegion(t) ==> InsertLine(w, t) == t && DeleteLine(w, t) == t
  {
    hide Steady, ScrollRegionDown, ScrollRegionUp;
  }

  /** Of n rows from the cursor to the end of the region, d move away. */
  ghost predicate Asked(t: Terminal, n: int, d: int) {
    InRegion(t) && n == t.begin + t.size - t.Y() && d == Min(Parameter(t, 0, 1), n) && t.begin + t.size <= t.Height()
  }

  lemma InsertLineMoves(w: Widths, t: Terminal, r: Terminal, n: nat, d: nat)
    requires Ready(w, t) && Asked(t, n, d) && r == InsertLine(w, t)
    ensures d <= n && t.Y() + n <= |t.hosted.screen.Rows()|
    ensures ScrollsBelow(t, r, Down(t.hosted.screen.Rows(), t.Y(), n, d))
  {
    hide Ready, InsertLine, DeleteLine, ScrollRegionDown, ScrollRegionUp, Down, Up, MoveCursor, ScrollsBelow;
    LineMotions(w, t);
    var k := Parameter(t, 0, 1);
    var u := ScrollRegionDown(w, t, t.Y(), n, k);
    RegionMoves(w, t, t.Y(), n, k);
    LeastIsMin(k, n);
    MovedBelow(t, u, r, Down(t.hosted.screen.Rows(), t.Y(), n, d));
  }

  lemma DeleteLineMoves(w: Widths, t: Terminal, r: Terminal, n: nat, d: nat)
    requires Ready(w, t) && Asked(t, n, d) && r == DeleteLine(w, t)
    ensures d <= n && t.Y() + n <= |t.hosted.screen.Rows()|
    ensures ScrollsBelow(t, r, Up(t.hosted.screen.Rows(), t.Y(), n, d))
  {
    hide Ready, InsertLine, DeleteLine, ScrollRegionDown, ScrollRegionUp, Down, Up, MoveCursor, ScrollsBelow;
    LineMotions(w, t);
    var k := Parameter(t, 0, 1);
    var u := ScrollRegionUp(w, t, t.Y(), n, k);
    RegionMoves(w, t, t.Y(), n, k);
    LeastIsMin(k, n);
    MovedBelow(t, u, r, Up(t.hosted.screen.Rows(), t.Y(), n, d));
  }

  lemma LeastIsMin(k: nat, n: nat)
    ensures Least(k, n) == Min(k, n)
  {
  }

  lemma UpUndoesDown(rows: seq<Line>, y: nat, n: nat, d: nat)
    requires y + n <= |rows| && d <= n
    ensures var r := Up(Down(rows, y, n, d), y, n, d);
            |r| == |rows| && forall i :: 0 <= i < |rows| ==> r[i] == if y + n - d <= i < y + n then EMPTY else rows[i]
  {
    var down := Down(rows, y, n, d);
    forall i | 0 <= i < |rows|
      ensures Up(down, y, n, d)[i] == if y + n - d <= i < y + n then EMPTY else rows[i]
    {
      UpAt(down, y, n, d, i);
      DownAt(rows, y, n, d, if y <= i < y + n - d then i + d else i);
    }
  }

  lemma UpAt(rows: seq<Line>, y: nat, n: nat, d: nat, i: nat)
    requires y + n <= |rows| && d <= n && i < |rows|
    ensures Up(rows, y, n, d)[i]
         == if y <= i < y + n - d then rows[i + d] else if y <= i < y + n then EMPTY else rows[i]
  {
  }

  lemma DownAt(rows: seq<Line>, y: nat, n: nat, d: nat, i: nat)
    requires y + n <= |rows| && d <= n && i < |rows|
    ensures Down(rows, y, n, d)[i]
         == if y + d <= i < y + n then rows[i - d] else if y <= i < y + n then EMPTY else rows[i]
  {
  }

  /** Deleting as many lines as were inserted brings back all rows but the last ones of the region, pushed out. */
  lemma DeleteLineUndoesInsert(w: Widths, t: Terminal, u: Terminal, r: Terminal, n: nat, d: nat)
    requires Ready(w, t) && Asked(t, n, d)
    requires u == InsertLine(w, t) && r == DeleteLine(w, u)
    ensures var rows, rows' := t.hosted.screen.Rows(), r.hosted.screen.Rows();
            && |rows'| == |rows|
            && forall i :: 0 <= i < |rows| ==>
                 rows'[i] == if t.Y() + n - d <= i < t.Y() + n then EMPTY else rows[i]
  {
    hide Ready, InsertLine, DeleteLine, Up, Down;
    InsertLineMoves(w, t, u, n, d);
    DeleteLineMoves(w, u, r, n, d);
    UpUndoesDown(t.hosted.screen.Rows(), t.Y(), n, d);
  }

  // Characters that are printed.

  /** The row of the cursor marked as wrapped, and the cursor at its start. */
  function Marked(t: Terminal): Terminal
    requires t.Y() < |t.hosted.screen.Rows()|
  {
    MoveCursor(t.(hosted := Wrap(t.hosted, t.Y())), 0, t.Y())
  }

  /** The rows that printing a character pushes: one at most, when it wraps on the last row. */
  function PutPushes(w: Widths, t: Terminal, c: char): seq<Line>
    requires t.Y() < |t.hosted.screen.Rows()| && t.hosted.screen.normal != []
  {
    if t.wraparound && t.X() + w(c) > t.Width() then IndexPushes(Marked(t)) else []
  }

  lemma ReadyHasRows(w: Widths, t: Terminal)
    requires Ready(w, t)
    ensures t.Y() < |t.hosted.screen.Rows()| == t.Height() && t.hosted.screen.normal != []
      && t.hosted.screen.capacity > 0
    ensures |t.hosted.screen.log| <= t.hosted.screen.capacity
  {
    hide InStep, Whole;
  }

  lemma WrapLinePushes(w: Widths, t: Terminal)
    requires Ready(w, t)
    ensures t.Y() < |t.hosted.screen.Rows()| && Marked(t).hosted.screen.normal != []
    ensures var r := WrapLine(w, t);
            && r.hosted.screen.log == Last(t.hosted.screen.log + IndexPushes(Marked(t)), t.hosted.screen.capacity)
            && SameSize(t.hosted.screen, r.hosted.screen) && r.X() == 0 && r.wraparound == t.wraparound
  {
    ReadyHasRows(w, t);
    hide Steady, Index;
    WrapIsSteady(w, t.hosted, t.Y());
    CursorIsReady(w, t.(hosted := Wrap(t.hosted, t.Y())), 0, t.Y());
    IndexEffect(w, Marked(t));
  }

  lemma PutHereStays(w: Widths, t: Terminal, c: char)
    requires Ready(w, t) && c != NUL
    ensures var r := PutHere(w, t, c);
            && r.hosted.screen.log == t.hosted.screen.log && SameSize(t.hosted.screen, r.hosted.screen)
            && r.X() == t.X() + w(c) && r.wraparound == t.wraparound
  {
    hide Steady, Screens.PutCell;
    var cell := Cell(c, t.hosted.screen.attribute);
    PutCellIsSteady(w, t.hosted, t.X(), t.Y(), cell, t.insert);
    CellStays(t, t.(hosted := PutCell(t.hosted, t.X(), t.Y(), cell, w(c), t.insert)), t.X(), t.Y(), cell, w(c),
      t.insert);
  }

  /** The character has room in a row, and with wraparound off in this one. */
  predicate HasRoom(w: Widths, t: Terminal, c: char) {
    w(c) <= t.Width() && (t.wraparound || t.X() + w(c) <= t.Width())
  }

  /** Printing leaves the cursor within the width exactly for a character that has room. */
  lemma PutCharacterEffect(w: Widths, t: Terminal, c: char)
    requires Ready(w, t) && c != NUL
    ensures t.Y() < |t.hosted.screen.Rows()| && t.hosted.screen.normal != []
    ensures var r := PutCharacter(w, t, c);
            && r.hosted.screen.log == Last(t.hosted.screen.log + PutPushes(w, t, c), t.hosted.screen.capacity)
            && SameSize(t.hosted.screen, r.hosted.screen) && r.wraparound == t.wraparound
            && (t.X() <= t.Width() ==> (r.X() <= r.Width() <==> HasRoom(w, t, c)))
  {
    ReadyHasRows(w, t);
    hide Ready, WrapLine, PutHere;
    if t.wraparound && t.X() + w(c) > t.Width() {
      WrapLinePushes(w, t);
      PutHereStays(w, WrapLine(w, t), c);
    } else {
      PutHereStays(w, t, c);
      assert t.hosted.screen.log + [] == t.hosted.screen.log;
    }
  }

  /** Without wraparound a character at the right edge takes the cursor beyond the width. */
  lemma CursorBeyondWidth(w: Widths, t: Terminal)
    requires Ready(w, t) && !t.wraparound && t.X() == t.Width()
    ensures PutCharacter(w, t, ' ').X() == t.Width() + 1
  {
    hide Steady, PutHere;
    assert w(' ') == 1;
    PutHereStays(w, t, ' ');
  }

  /** With it, so does a character of two cells on a screen of one column. */
  lemma WideOnOneColumn(w: Widths, t: Terminal, c: char)
    requires Ready(w, t) && t.wraparound && t.Width() == 1 && w(c) == 2 && c != NUL
    ensures PutCharacter(w, t, c).X() == t.Width() + 1
  {
    hide Ready, PutHere, WrapLine;
    WrapLinePushes(w, t);
    PutHereStays(w, WrapLine(w, t), c);
  }

  // Every character.

  predicate IsLineFeed(c: char) {
    c == LF || c == VT || c == FF
  }

  lemma OtherControlsStay(w: Widths, t: Terminal, c: char, r: Terminal)
    requires Ready(w, t) && !IsLineFeed(c) && r == Control(w, t, c)
    ensures Stays(t, r)
  {
    NothingStays(t);
    HorizontalMotionsStay(w, t);
    OtherMotionsStay(w, t);
    if c == BS || c == HT || c == CR {
      hide Ready, BackSpace, TabForward, CarriageReturn, Stays;
    } else {
      hide Ready;
    }
  }

  lemma LineFeedIndexes(w: Widths, t: Terminal, c: char)
    requires Ready(w, t) && IsLineFeed(c)
    ensures Control(w, t, c) == Index(w, t)
  {
    hide Ready, Index;
  }

  function ControlPushes(t: Terminal, c: char): seq<Line>
    requires t.hosted.screen.normal != []
  {
    if IsLineFeed(c) then IndexPushes(t) else []
  }

  lemma SequenceStays(w: Widths, t: Terminal, c: char)
    requires Ready(w, t) && (c == 'r' ==> RegionFits(t))
    ensures StaysBut(t, Sequence(w, t, c),
                     if (c == 'h' || c == 'l') && t.kind == Private && 7 in t.parameters then c == 'h'
                       else t.wraparound)
  {
    hide Ready, Stays, StaysBut, Sequence, RegionFits;
    if c == 'h' || c == 'l' {
      ModesStay(w, t, t.parameters, c == 'h');
      ModeSequence(w, t, c);
    } else {
      if c in MOTIONS {
        MotionSequencesStay(w, t, c);
      } else if c in EDITS {
        EditSequencesStay(w, t, c);
      } else if c in REGIONS {
        RegionSequencesStay(w, t, c);
      } else {
        OtherSequencesStay(w, t, c);
      }
      StayingIsBut(t, Sequence(w, t, c));
    }
  }

  lemma ModeSequence(w: Widths, t: Terminal, c: char)
    requires Ready(w, t) && (c == 'h' || c == 'l')
    ensures Sequence(w, t, c) == Modes(w, t, t.parameters, c == 'h')
  {
    hide Ready, Modes;
  }

  const MOTIONS := "ABCDEFGHdf"

  const EDITS := "@JKPX"

  const REGIONS := "LMST"

  lemma MotionSequencesStay(w: Widths, t: Terminal, c: char)
    requires Ready(w, t) && c in MOTIONS
    ensures Stays(t, Sequence(w, t, c))
  {
    hide Ready, Stays, CursorUp, CursorDown, CursorForward, CursorBackward, CarriageReturn, CursorColumn, CursorRow;
    HorizontalMotionsStay(w, t);
    OtherMotionsStay(w, t);
    RowMotionsStay(w, t);
  }

  lemma EditSequencesStay(w: Widths, t: Terminal, c: char)
    requires Ready(w, t) && c in EDITS
    ensures Stays(t, Sequence(w, t, c))
  {
    hide Ready, Stays, InsertCharacter, EraseDisplay, EraseLine, DeleteCharacter, EraseCharacter;
    InsertCharacterStays(w, t);
    EraseDisplayStays(w, t);
    EraseLineStays(w, t);
  }

  lemma RegionSequencesStay(w: Widths, t: Terminal, c: char)
    requires Ready(w, t) && c in REGIONS
    ensures Stays(t, Sequence(w, t, c))
  {
    LinesStay(w, t);
    MarginsAreIn(w, t);
    hide Ready, Stays, Sequence, InsertLine, DeleteLine, ScrollRegionUp, ScrollRegionDown;
    RegionStays(w, t, t.begin, t.size, Parameter(t, 0, 1));
    RegionSequence(w, t, c);
  }

  lemma RegionSequence(w: Widths, t: Terminal, c: char)
    requires Ready(w, t)
    ensures t.begin + t.size <= t.Height()
    ensures var n := Parameter(t, 0, 1);
            && (c == 'S' ==> Sequence(w, t, c) == ScrollRegionUp(w, t, t.begin, t.size, n))
            && (c == 'T' ==> Sequence(w, t, c) == ScrollRegionDown(w, t, t.begin, t.size, n))
            && (c == 'L' ==> Sequence(w, t, c) == InsertLine(w, t))
            && (c == 'M' ==> Sequence(w, t, c) == DeleteLine(w, t))
  {
    hide Steady, ScrollRegionUp, ScrollRegionDown, InsertLine, DeleteLine;
  }

  lemma OtherSequencesStay(w: Widths, t: Terminal, c: char)
    requires Ready(w, t) && (c == 'r' ==> RegionFits(t)) && c != 'h' && c != 'l' && c !in MOTIONS + EDITS + REGIONS
    ensures Stays(t, Sequence(w, t, c))
  {
    NothingStays(t);
    AttributesStay(w, t);
    if c == 'r' {
      SetRegionStays(w, t);
    }
    hide Ready, Stays, TabClear, Attributes, SetRegion, RegionFits;
    OtherSequence(w, t, c);
  }

  lemma OtherSequence(w: Widths, t: Terminal, c: char)
    requires Ready(w, t) && (c == 'r' ==> RegionFits(t)) && c != 'h' && c != 'l' && c !in MOTIONS + EDITS + REGIONS
    ensures Sequence(w, t, c)
         == if c == 'g' then TabClear(t)
            else if c == 'm' && t.kind == Primary then Attributes(w, t)
            else if c == 'r' then SetRegion(w, t)
            else t
  {
    hide Ready, TabClear, Attributes, SetRegion;
  }

  lemma MarginsAreIn(w: Widths, t: Terminal)
    requires Ready(w, t)
    ensures t.begin + t.size <= t.Height()
  {
  }

  /** The motions made of two. */
  lemma RowMotionsStay(w: Widths, t: Terminal)
    requires Ready(w, t)
    ensures Stays(t, CarriageReturn(w, CursorDown(w, t))) && Stays(t, CarriageReturn(w, CursorUp(w, t)))
    ensures Stays(t, CursorColumn(w, CursorRow(w, t), 1))
  {
    hide Ready, Stays, CarriageReturn, CursorDown, CursorUp, CursorColumn, CursorRow;
    OtherMotionsStay(w, t);
    HorizontalMotionsStay(w, CursorDown(w, t));
    StaysTwice(t, CursorDown(w, t), CarriageReturn(w, CursorDown(w, t)));
    HorizontalMotionsStay(w, CursorUp(w, t));
    StaysTwice(t, CursorUp(w, t), CarriageReturn(w, CursorUp(w, t)));
    OtherMotionsStay(w, CursorRow(w, t));
    StaysTwice(t, CursorRow(w, t), CursorColumn(w, CursorRow(w, t), 1));
  }

  /** The rows a character pushes from the screen into the log. */
  function Pushes(cfg: Config, t: Terminal, c: char): seq<Line>
    requires t.Y() < |t.hosted.screen.Rows()| && t.hosted.screen.normal != []
  {
    if Skips(t) then []
    else if cfg.isControl(c) then ControlPushes(t, c)
    else if t.parser == Default then PutPushes(cfg.w, t, c)
    else if t.parser == Escape && (c == 'D' || c == 'E') then IndexPushes(t)
    else []
  }

  predicate Prints(cfg: Config, t: Terminal, c: char) {
    t.parser == Default && !cfg.isControl(c)
  }

  /** The wraparound mode behind a character: set or reset by the final one of CSI ? ... 7 ... h or l. */
  predicate WrapModeAfter(cfg: Config, t: Terminal, c: char) {
    if IsFinal(cfg, t, c) && (c == 'h' || c == 'l') && t.kind == Private && 7 in Delivered(t).parameters then c == 'h'
    else t.wraparound
  }

  /** Everything but printing, by what it pushes. */
  ghost predicate Effect(t: Terminal, r: Terminal, pushes: seq<Line>, wraparound: bool) {
    && r.hosted.screen.log == Last(t.hosted.screen.log + pushes, t.hosted.screen.capacity)
    && SameSize(t.hosted.screen, r.hosted.screen)
    && (t.X() <= t.Width() ==> r.X() <= r.Width())
    && r.wraparound == wraparound
  }

  lemma StayingHasNoEffect(w: Widths, t: Terminal, u: Terminal, r: Terminal, wraparound: bool)
    requires Ready(w, t) && StaysBut(u, r, wraparound) && u.hosted == t.hosted
    ensures Effect(t, r, [], wraparound)
  {
    ReadyHasRows(w, t);
    assert t.hosted.screen.log + [] == t.hosted.screen.log;
  }

  lemma Unaffected(w: Widths, t: Terminal, r: Terminal)
    requires Ready(w, t) && r.hosted == t.hosted && r.wraparound == t.wraparound
    ensures Effect(t, r, [], t.wraparound)
  {
    ReadyHasRows(w, t);
    assert t.hosted.screen.log + [] == t.hosted.screen.log;
  }

  lemma ParserHasNoEffect(t: Terminal, r: Terminal, pushes: seq<Line>, wraparound: bool, p: Parser)
    requires Effect(t, r, pushes, wraparound)
    ensures Effect(t, r.(parser := p), pushes, wraparound)
  {
  }

  lemma IndexHasEffect(w: Widths, t: Terminal, x: nat, u: Terminal, r: Terminal)
    requires Ready(w, t) && x <= t.X() && u == MoveCursor(t, x, t.Y()) && Ready(w, u) && r == Index(w, u)
    ensures t.hosted.screen.normal != [] && Effect(t, r, IndexPushes(t), t.wraparound)
  {
    ReadyHasRows(w, t);
    hide Ready, Index;
    IndexEffect(w, u);
  }

  lemma EscapeKeyIs(w: Widths, t: Terminal, c: char)
    requires Ready(w, t)
    ensures var r := EscapeKey(w, t, c);
            && (c == 'D' ==> r == Index(w, t).(parser := Default))
            && (c == 'E' ==> r == NextLine(w, t).(parser := Default))
            && (c == '7' ==> r == Save(w, t).(parser := Default))
            && (c == '8' ==> r == RestoreSaved(w, t).(parser := Default))
            && (c == 'M' ==> r == ReverseIndex(w, t).(parser := Default))
  {
    ReadyHasWidth(w, t);
    hide Ready, Save, RestoreSaved, ReverseIndex, Index, NextLine, TabSet;
  }

  lemma OtherEscapeKeys(w: Widths, t: Terminal, c: char)
    requires Ready(w, t) && c != 'D' && c != 'E' && c != '7' && c != '8' && c != 'M'
    ensures EscapeKey(w, t, c).hosted == t.hosted && EscapeKey(w, t, c).wraparound == t.wraparound
  {
    ReadyHasWidth(w, t);
    hide Ready, Index, NextLine, Save, RestoreSaved, ReverseIndex;
    match c
    case '#' =>
    case '(' =>
    case 'P' =>
    case '[' =>
    case ']' =>
    case '=' =>
    case '>' =>
    case 'H' =>
    case _ =>
  }

  lemma NextLineIs(w: Widths, t: Terminal)
    requires Ready(w, t)
    ensures Ready(w, MoveCursor(t, 0, t.Y())) && NextLine(w, t) == Index(w, MoveCursor(t, 0, t.Y()))
  {
    CursorIsReady(w, t, 0, t.Y());
    hide Ready, Index;
  }

  lemma IndexKeyEffect(w: Widths, t: Terminal, c: char)
    requires Ready(w, t) && (c == 'D' || c == 'E')
    ensures t.hosted.screen.normal != [] && Effect(t, EscapeKey(w, t, c), IndexPushes(t), t.wraparound)
  {
    ReadyHasRows(w, t);
    EscapeKeyIs(w, t, c);
    NextLineIs(w, t);
    hide Ready, Effect, EscapeKey, Index, NextLine;
    if c == 'D' {
      assert MoveCursor(t, t.X(), t.Y()) == t;
      IndexHasEffect(w, t, t.X(), t, Index(w, t));
      ParserHasNoEffect(t, Index(w, t), IndexPushes(t), t.wraparound, Default);
    } else {
      IndexHasEffect(w, t, 0, MoveCursor(t, 0, t.Y()), NextLine(w, t));
      ParserHasNoEffect(t, NextLine(w, t), IndexPushes(t), t.wraparound, Default);
    }
  }

  lemma CursorKeyEffect(w: Widths, t: Terminal, c: char)
    requires Ready(w, t) && (c == '7' || c == '8' || c == 'M')
    ensures Effect(t, EscapeKey(w, t, c), [], t.wraparound)
  {
    EscapeKeyIs(w, t, c);
    RestoreSavedStays(w, t);
    ReverseIndexStays(w, t);
    hide Ready, Stays, StaysBut, Effect, EscapeKey, Save, RestoreSaved, ReverseIndex;
    var u := if c == '7' then Save(w, t) else if c == '8' then RestoreSaved(w, t) else ReverseIndex(w, t);
    StayingIsBut(t, u);
    StayingHasNoEffect(w, t, t, u, t.wraparound);
    ParserHasNoEffect(t, u, [], t.wraparound, Default);
  }

  lemma EscapeKeyEffect(w: Widths, t: Terminal, c: char)
    requires Ready(w, t)
    ensures t.hosted.screen.normal != []
    ensures Effect(t, EscapeKey(w, t, c), if c == 'D' || c == 'E' then IndexPushes(t) else [], t.wraparound)
  {
    ReadyHasRows(w, t);
    hide Ready, Effect, EscapeKey;
    if c == 'D' || c == 'E' {
      IndexKeyEffect(w, t, c);
    } else if c == '7' || c == '8' || c == 'M' {
      CursorKeyEffect(w, t, c);
    } else {
      OtherEscapeKeys(w, t, c);
      Unaffected(w, t, EscapeKey(w, t, c));
    }
  }

  lemma FinalIs(cfg: Config, t: Terminal, c: char)
    requires Ready(cfg.w, t) && !cfg.isControl(c) && IsFinal(cfg, t, c) && (c == 'r' ==> RegionFits(Delivered(t)))
    requires t.parser == Csi || t.parser == CsiParameter || t.parser == CsiDigit
    ensures Ready(cfg.w, Delivered(t))
    ensures CsiKey(cfg, t, c) == Sequence(cfg.w, Delivered(t), c).(parser := Default)
  {
    assert Ready(cfg.w, Delivered(t)) by { hide Steady; }
    hide Ready, Sequence, RegionFits;
  }

  lemma NotFinalIs(cfg: Config, t: Terminal, c: char, r: Terminal)
    requires Ready(cfg.w, t) && !cfg.isControl(c) && !IsFinal(cfg, t, c)
    requires t.parser == Csi || t.parser == CsiParameter || t.parser == CsiDigit
    requires r == CsiKey(cfg, t, c)
    ensures r.hosted == t.hosted && r.wraparound == t.wraparound
  {
    hide Ready, Final;
  }

  lemma CsiKeyEffect(cfg: Config, t: Terminal, c: char)
    requires Ready(cfg.w, t) && !cfg.isControl(c) && (IsFinal(cfg, t, c) && c == 'r' ==> RegionFits(Delivered(t)))
    requires t.parser == Csi || t.parser == CsiParameter || t.parser == CsiDigit
    ensures Effect(t, CsiKey(cfg, t, c), [], WrapModeAfter(cfg, t, c))
  {
    hide Ready, Sequence, StaysBut, Effect, RegionFits, CsiKey;
    if IsFinal(cfg, t, c) {
      FinalIs(cfg, t, c);
      var d := Delivered(t);
      SequenceStays(cfg.w, d, c);
      StayingHasNoEffect(cfg.w, t, d, Sequence(cfg.w, d, c), WrapModeAfter(cfg, t, c));
      ParserHasNoEffect(t, Sequence(cfg.w, d, c), [], WrapModeAfter(cfg, t, c), Default);
    } else {
      NotFinalIs(cfg, t, c, CsiKey(cfg, t, c));
      Unaffected(cfg.w, t, CsiKey(cfg, t, c));
    }
  }

  lemma SharpKeyEffect(w: Widths, t: Terminal, c: char)
    requires Ready(w, t)
    ensures Effect(t, SharpKey(w, t, c), [], t.wraparound)
  {
    hide Ready, Align, Stays, StaysBut, Effect;
    AlignStays(w, t, 0, 0);
    NothingStays(t);
    var r := if c == '8' then Align(w, t, 0, 0) else t;
    StayingIsBut(t, r);
    StayingHasNoEffect(w, t, t, r, t.wraparound);
    ParserHasNoEffect(t, r, [], t.wraparound, Default);
  }

  lemma ControlHasEffect(w: Widths, t: Terminal, c: char)
    requires Ready(w, t)
    ensures t.hosted.screen.normal != [] && Effect(t, Control(w, t, c), ControlPushes(t, c), t.wraparound)
  {
    ReadyHasRows(w, t);
    if IsLineFeed(c) {
      LineFeedIndexes(w, t, c);
      hide Ready, Index, Control;
      IndexEffect(w, t);
    } else {
      hide Ready, Control, Stays, StaysBut, Effect;
      OtherControlsStay(w, t, c, Control(w, t, c));
      StayingIsBut(t, Control(w, t, c));
      StayingHasNoEffect(w, t, t, Control(w, t, c), t.wraparound);
    }
  }

  lemma TextIsSkipped(cfg: Config, t: Terminal, c: char, r: Terminal)
    requires ConfigOk(cfg) && Ready(cfg.w, t) && Accepts(cfg, t, c) && Skips(t) && r == Feed(cfg, t, c)
    ensures r.hosted == t.hosted && r.wraparound == t.wraparound
  {
    assert r == Skip(t, c) by { hide Ready, Accepts, Skip; }
    hide *;
    SkipKeeps(t, c);
  }

  lemma SkipKeeps(t: Terminal, c: char)
    ensures Skip(t, c).hosted == t.hosted && Skip(t, c).wraparound == t.wraparound
  {
  }

  lemma ControlIsFed(cfg: Config, t: Terminal, c: char)
    requires ConfigOk(cfg) && Ready(cfg.w, t) && Accepts(cfg, t, c) && !Skips(t) && cfg.isControl(c)
    ensures Feed(cfg, t, c) == Control(cfg.w, t, c)
  {
    hide Ready, Accepts, Control;
  }

  lemma KeyIsFed(cfg: Config, t: Terminal, c: char)
    requires ConfigOk(cfg) && Ready(cfg.w, t) && Accepts(cfg, t, c) && !Skips(t) && !cfg.isControl(c)
      && t.parser != Default
    ensures var r := Feed(cfg, t, c);
            && (t.parser == Escape ==> r == EscapeKey(cfg.w, t, c))
            && (t.parser == EscapeSharp ==> r == SharpKey(cfg.w, t, c))
            && (t.parser == DesignateG0 ==> r == t.(parser := Default))
            && (t.parser == Csi || t.parser == CsiParameter || t.parser == CsiDigit ==>
                  (IsFinal(cfg, t, c) && c == 'r' ==> RegionFits(Delivered(t))) && r == CsiKey(cfg, t, c))
  {
    hide Ready, EscapeKey, SharpKey, CsiKey, RegionFits;
  }

  lemma OthersFeed(cfg: Config, t: Terminal, c: char, r: Terminal)
    requires ConfigOk(cfg) && Ready(cfg.w, t) && Accepts(cfg, t, c) && !Prints(cfg, t, c) && r == Feed(cfg, t, c)
    ensures t.Y() < |t.hosted.screen.Rows()| && t.hosted.screen.normal != []
    ensures Effect(t, r, Pushes(cfg, t, c), WrapModeAfter(cfg, t, c))
  {
    ReadyHasRows(cfg.w, t);
    hide Ready, Accepts, Feed, Effect, Control, EscapeKey, SharpKey, CsiKey, ControlPushes, PutPushes, IndexPushes,
      RegionFits;
    if Skips(t) {
      TextIsSkipped(cfg, t, c, r);
      Unaffected(cfg.w, t, r);
    } else if cfg.isControl(c) {
      ControlIsFed(cfg, t, c);
      ControlHasEffect(cfg.w, t, c);
    } else {
      KeyIsFed(cfg, t, c);
      match t.parser
      case Escape => EscapeKeyEffect(cfg.w, t, c);
      case EscapeSharp => SharpKeyEffect(cfg.w, t, c);
      case DesignateG0 => Unaffected(cfg.w, t, r);
      case _ => CsiKeyEffect(cfg, t, c);
    }
  }

  /**
   After any character the log is the last rows of what it held and of what the character pushed; the
   size is the same; a cursor within the width is so afterwards exactly if the character was not one
   printed without room; and only mode 7 has changed the wraparound.
   */
  lemma FeedEffect(cfg: Config, t: Terminal, c: char)
    requires ConfigOk(cfg) && Ready(cfg.w, t) && Accepts(cfg, t, c)
    ensures t.Y() < |t.hosted.screen.Rows()| && t.hosted.screen.normal != []
    ensures var r := Feed(cfg, t, c);
            && r.hosted.screen.log == Last(t.hosted.screen.log + Pushes(cfg, t, c), t.hosted.screen.capacity)
            && SameSize(t.hosted.screen, r.hosted.screen)
            && (t.X() <= t.Width() ==> (r.X() <= r.Width() <==> (Prints(cfg, t, c) ==> HasRoom(cfg.w, t, c))))
            && r.wraparound == WrapModeAfter(cfg, t, c)
  {
    hide Ready, PutCharacter, PutPushes, HasRoom;
    if Prints(cfg, t, c) {
      PutCharacterEffect(cfg.w, t, c);
    } else {
      hide Feed, Accepts, Pushes, WrapModeAfter;
      OthersFeed(cfg, t, c, Feed(cfg, t, c));
    }
  }
}
