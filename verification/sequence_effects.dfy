/**
 What the control sequences do as they are written (section 8.3 of ECMA-48): for each final character
 and any parameters, where the cursor lands, which columns and rows change and how, and that all
 else is as before.
 */
module SequenceEffects {
  import opened Rows
  import opened RowEffects
  import opened Damage
  import opened Screens
  import opened ScreenShape
  import opened ScreenSteps
  import opened TerminalModel
  import opened TerminalRuns
  import opened TerminalEffects
  import opened ControlSequences

  /** A parameter as it is meant: one that is omitted or too small stands for its default. */
  function Value(ps: seq<int>, i: nat, default: int): int {
    if i < |ps| then Max(ps[i], default) else default
  }

  /** A sequence that the terminal can take. */
  ghost predicate Can(cfg: Config, t: Terminal, kind: Kind, ps: seq<int>, c: char) {
    && ConfigOk(cfg) && Ready(cfg.w, t) && t.parser == Default
    && Writable(ps) && |ps| <= PARAMETERS && IsFinalCharacter(c)
    && (c == 'r' ==> t.Height() >= 2 && Value(ps, 1, -1) <= t.Height())
  }

  lemma ValueIs(t: Terminal, kind: Kind, ps: seq<int>, i: nat, default: int)
    ensures Parameter(Reads(t, kind, ps), i, default) == Value(ps, i, default)
  {
  }

  lemma CanIs(cfg: Config, t: Terminal, kind: Kind, ps: seq<int>, c: char)
    requires Can(cfg, t, kind, ps, c)
    ensures Ready(cfg.w, t) && Ready(cfg.w, Reads(t, kind, ps)) && (c == 'r' ==> RegionFits(Reads(t, kind, ps)))
    ensures AcceptsAll(cfg, t, Written(kind, ps, c))
    ensures FeedAll(cfg, t, Written(kind, ps, c)) == Sequence(cfg.w, Reads(t, kind, ps), c).(parser := Default)
  {
    ValueIs(t, kind, ps, 1, -1);
    hide Ready, Parameter, AcceptsAll, FeedAll, Sequence, Value;
    SequenceIsDelivered(cfg, t, kind, ps, c);
  }

  /** But for what the parser keeps of a sequence that is over. */
  function Forget(r: Terminal, t: Terminal): Terminal {
    r.(parser := t.parser, kind := t.kind, parameters := t.parameters, digits := t.digits)
  }

  /** The terminal behind a sequence. */
  ghost function Outcome(cfg: Config, t: Terminal, kind: Kind, ps: seq<int>, c: char): Terminal
    requires Can(cfg, t, kind, ps, c)
  {
    CanIs(cfg, t, kind, ps, c);
    Forget(FeedAll(cfg, t, Written(kind, ps, c)), t)
  }

  lemma OutcomeIs(cfg: Config, t: Terminal, kind: Kind, ps: seq<int>, c: char, u: Terminal)
    requires Can(cfg, t, kind, ps, c) && u == Reads(t, kind, ps)
    ensures Ready(cfg.w, u) && (c == 'r' ==> RegionFits(u))
    ensures Outcome(cfg, t, kind, ps, c) == Forget(Sequence(cfg.w, u, c), t)
  {
    CanIs(cfg, t, kind, ps, c);
    hide Can, Ready, RegionFits, FeedAll, AcceptsAll, Sequence;
  }

  lemma LandsForgets(t: Terminal, u: Terminal, r: Terminal, x: int, y: int)
    requires Lands(u, r, x, y) && Forget(u, t) == t
    ensures Lands(t, Forget(r, t), x, y)
  {
  }

  // Motions.

  function TopOf(t: Terminal): nat {
    if t.origin then t.begin else 0
  }

  function BottomOf(t: Terminal): nat {
    if t.origin then t.begin + t.size else t.Height()
  }

  predicate IsMotion(c: char) {
    'A' <= c <= 'H' || c == 'd' || c == 'f'
  }

  lemma LandsTwice(t: Terminal, r: Terminal, u: Terminal, x: int, y: int, x': int, y': int)
    requires Lands(t, r, x, y) && Lands(r, u, x', y')
    ensures Lands(t, u, x', y')
  {
  }

  lemma LandedAt(t: Terminal, r: Terminal, x: int, y: int)
    requires Lands(t, r, x, y)
    ensures r.X() == x && r.Y() == y && r.Width() == t.Width() && r.parameters == t.parameters
  {
  }

  /** Where a motion goes: rows and columns are counted from one, and rows from the region in origin mode. */
  function Place(t: Terminal, ps: seq<int>, c: char): (int, int) {
    var n := Value(ps, 0, 1);
    var up, down := Max(t.Y() - n, TopOf(t)), Min(t.Y() + n, BottomOf(t) - 1);
    var row := Min(TopOf(t) + n, BottomOf(t)) - 1;
    match c
    case 'A' => (t.X(), up)
    case 'B' => (t.X(), down)
    case 'C' => (Min(t.X() + n, t.Width() - 1), t.Y())
    case 'D' => (Max(t.X() - n, 0), t.Y())
    case 'E' => (0, down)
    case 'F' => (0, up)
    case 'G' => (Min(n, t.Width()) - 1, t.Y())
    case 'd' => (t.X(), row)
    case _ => (Min(Value(ps, 1, 1), t.Width()) - 1, row)
  }

  /** The final character c moves the cursor, and nothing else, to its place. */
  ghost predicate LandsAs(w: Widths, t: Terminal, c: char)
    requires Ready(w, t) && IsMotion(c)
  {
    Lands(t, Sequence(w, t, c), Place(t, t.parameters, c).0, Place(t, t.parameters, c).1)
  }

  lemma FirstValue(t: Terminal)
    ensures Parameter(t, 0, 1) == Value(t.parameters, 0, 1) && Parameter(t, 1, 1) == Value(t.parameters, 1, 1)
  {
  }

  lemma UpLands(w: Widths, t: Terminal)
    requires Ready(w, t)
    ensures LandsAs(w, t, 'A')
  {
    hide Ready, CursorUp, CursorDown, CursorRow, MoveCursor;
    VerticalMotionsLand(w, t);
    FirstValue(t);
    assert Sequence(w, t, 'A') == CursorUp(w, t);
    hide Sequence, Lands, Value, Parameter;
  }

  lemma DownLands(w: Widths, t: Terminal)
    requires Ready(w, t)
    ensures LandsAs(w, t, 'B')
  {
    hide Ready, CursorUp, CursorDown, CursorRow, MoveCursor;
    VerticalMotionsLand(w, t);
    FirstValue(t);
    assert Sequence(w, t, 'B') == CursorDown(w, t);
    hide Sequence, Lands, Value, Parameter;
  }

  lemma RowLands(w: Widths, t: Terminal)
    requires Ready(w, t)
    ensures LandsAs(w, t, 'd')
  {
    hide Ready, CursorUp, CursorDown, CursorRow, MoveCursor;
    VerticalMotionsLand(w, t);
    FirstValue(t);
    assert Sequence(w, t, 'd') == CursorRow(w, t);
    hide Sequence, Lands, Value, Parameter;
  }

  lemma ForwardLands(w: Widths, t: Terminal)
    requires Ready(w, t)
    ensures LandsAs(w, t, 'C')
  {
    hide Ready, CursorForward, CursorBackward, BackSpace, CarriageReturn, MoveCursor;
    HorizontalMotionsLand(w, t);
    FirstValue(t);
    assert Sequence(w, t, 'C') == CursorForward(w, t);
    hide Sequence, Lands, Value, Parameter;
  }

  lemma BackwardLands(w: Widths, t: Terminal)
    requires Ready(w, t)
    ensures LandsAs(w, t, 'D')
  {
    hide Ready, CursorForward, CursorBackward, BackSpace, CarriageReturn, MoveCursor;
    HorizontalMotionsLand(w, t);
    FirstValue(t);
    assert Sequence(w, t, 'D') == CursorBackward(w, t);
    hide Sequence, Lands, Value, Parameter;
  }

  lemma ColumnLands(w: Widths, t: Terminal)
    requires Ready(w, t)
    ensures LandsAs(w, t, 'G')
  {
    hide Ready, CursorColumn, TabForward, MoveCursor;
    ReadyHasWidth(w, t);
    ColumnMotionsLand(w, t);
    FirstValue(t);
    assert Sequence(w, t, 'G') == CursorColumn(w, t, 0);
    hide Sequence, Lands, Value, Parameter;
  }

  lemma NextLineLands(w: Widths, t: Terminal)
    requires Ready(w, t)
    ensures LandsAs(w, t, 'E')
  {
    hide Ready, CursorUp, CursorDown, CursorRow, CursorForward, CursorBackward, BackSpace, CarriageReturn, MoveCursor;
    DownLands(w, t);
    var m := Sequence(w, t, 'B');
    var y := Place(t, t.parameters, 'B').1;
    HorizontalMotionsLand(w, m);
    assert Sequence(w, t, 'E') == CarriageReturn(w, m);
    LandedAt(t, m, t.X(), y);
    LandsTwice(t, m, CarriageReturn(w, m), t.X(), y, 0, y);
    hide Sequence, Lands, Value;
  }

  lemma PrecedingLineLands(w: Widths, t: Terminal)
    requires Ready(w, t)
    ensures LandsAs(w, t, 'F')
  {
    hide Ready, CursorUp, CursorDown, CursorRow, CursorForward, CursorBackward, BackSpace, CarriageReturn, MoveCursor;
    UpLands(w, t);
    var m := Sequence(w, t, 'A');
    var y := Place(t, t.parameters, 'A').1;
    HorizontalMotionsLand(w, m);
    assert Sequence(w, t, 'F') == CarriageReturn(w, m);
    LandedAt(t, m, t.X(), y);
    LandsTwice(t, m, CarriageReturn(w, m), t.X(), y, 0, y);
    hide Sequence, Lands, Value;
  }

  lemma PlaceLands(w: Widths, t: Terminal, c: char)
    requires Ready(w, t) && (c == 'H' || c == 'f')
    ensures LandsAs(w, t, c)
  {
    hide Ready, CursorUp, CursorDown, CursorRow, CursorColumn, TabForward, MoveCursor;
    RowLands(w, t);
    var m, y := Sequence(w, t, 'd'), Place(t, t.parameters, 'd').1;
    LandedAt(t, m, t.X(), y);
    ReadyHasWidth(w, m);
    ColumnMotionsLand(w, m);
    FirstValue(m);
    assert Sequence(w, t, c) == CursorColumn(w, m, 1);
    hide Sequence, Lands, Value, Parameter;
    LandsTwice(t, m, CursorColumn(w, m, 1), t.X(), y, Min(Value(t.parameters, 1, 1), t.Width()) - 1, y);
  }

  lemma AllLand(w: Widths, t: Terminal, c: char)
    requires Ready(w, t) && IsMotion(c)
    ensures LandsAs(w, t, c)
  {
    hide Ready, LandsAs;
    match c
    case 'A' => UpLands(w, t);
    case 'B' => DownLands(w, t);
    case 'C' => ForwardLands(w, t);
    case 'D' => BackwardLands(w, t);
    case 'E' => NextLineLands(w, t);
    case 'F' => PrecedingLineLands(w, t);
    case 'G' => ColumnLands(w, t);
    case 'd' => RowLands(w, t);
    case _ => PlaceLands(w, t, c);
  }

  lemma SamePlaces(t: Terminal, kind: Kind, ps: seq<int>, c: char)
    ensures Place(Reads(t, kind, ps), ps, c) == Place(t, ps, c) && Forget(Reads(t, kind, ps), t) == t
  {
    hide Value;
  }

  /** A motion moves the cursor, and nothing else, to its place. */
  lemma MotionsLand(cfg: Config, t: Terminal, kind: Kind, ps: seq<int>, c: char)
    requires Can(cfg, t, kind, ps, c) && IsMotion(c)
    ensures Lands(t, Outcome(cfg, t, kind, ps, c), Place(t, ps, c).0, Place(t, ps, c).1)
  {
    var w, u := cfg.w, Reads(t, kind, ps);
    SamePlaces(t, kind, ps, c);
    assert u.parameters == ps;
    OutcomeIs(cfg, t, kind, ps, c, u);
    hide Ready, Can, Sequence, Lands, Place, Reads, Forget, Outcome, IsMotion;
    AllLand(w, u, c);
    LandsForgets(t, u, Sequence(w, u, c), Place(t, ps, c).0, Place(t, ps, c).1);
  }

  // Erasing.

  /** Columns x to x + n of a row are blank, and of glyphs that lie across their ends only blanks are left. */
  ghost predicate RowErased(was: Line, now: Line, x: nat, n: nat) {
    && now.wrapped == was.wrapped
    && forall i: nat ::
         Shown(now.cells, i)
         == if x <= i < x + n then BLANK
            else if i < x then Halved(was.cells, x, i)
            else Halved(was.cells, x + n, i)
  }

  lemma RowIsWhole(w: Widths, t: Terminal, y: nat)
    requires Ready(w, t) && y < t.Height()
    ensures |t.hosted.screen.Rows()| == t.Height() && LineLed(t.hosted.screen.Rows()[y], t.Width())
    ensures WidthsOk(w) && Whole(w, t.hosted.screen.Rows()[y].cells)
  {
    hide InStep, Whole;
    RowsAreSound(w, t.hosted.screen);
    assert SoundLine(w, t.hosted.screen.Rows()[y], t.Width());
  }

  lemma RowErases(w: Widths, was: Line, now: Line, x: nat, n: nat)
    requires WidthsOk(w) && Whole(w, was.cells) && Led(was.cells) && now == was.(cells := Erase(was.cells, x, n, false))
    ensures RowErased(was, now, x, n)
  {
    hide Whole, Erase, Halved, Shown;
    forall i: nat
      ensures Shown(now.cells, i)
        == if x <= i < x + n then BLANK
           else if i < x then Halved(was.cells, x, i)
           else Halved(was.cells, x + n, i)
    {
      EraseShows(w, was.cells, x, n, i);
    }
  }

  lemma EraseRangeErases(w: Widths, t: Terminal, x: nat, n: int, r: Terminal)
    requires Ready(w, t) && (x < t.Width() ==> n >= 0) && r == EraseRange(w, t, x, n, false)
    ensures Changes(t, r, t.Y(), 1) && t.Y() < |t.hosted.screen.Rows()|
    ensures RowErased(t.hosted.screen.Rows()[t.Y()], r.hosted.screen.Rows()[t.Y()], x, Max(n, 0))
  {
    EraseRangeChanges(w, t, x, n, false, r);
    ReadyHasRows(w, t);
    RowIsWhole(w, t, t.Y());
    var row := t.hosted.screen.Rows()[t.Y()];
    if x >= t.Width() {
      EraseNothing(row.cells, x, n, false);
      EraseNothing(row.cells, x, Max(n, 0), false);
    }
    hide Ready, Erase, EraseRange, Changes, Led, Whole, RowErased;
    RowErases(w, row, row.(cells := Erase(row.cells, x, Max(n, 0), false)), x, Max(n, 0));
    assert r.hosted.screen.Rows()[t.Y()] == row.(cells := Erase(row.cells, x, Max(n, 0), false));
  }

  lemma ChangesForgets(t: Terminal, u: Terminal, r: Terminal, y: nat, n: nat)
    requires Changes(u, r, y, n) && Forget(u, t) == t
    ensures Changes(t, Forget(r, t), y, n) && u.hosted == t.hosted
    ensures Forget(r, t).hosted == r.hosted
  {
  }

  ghost predicate AreEmpty(r: Terminal, y: nat, n: nat) {
    y + n <= |r.hosted.screen.Rows()| && forall i :: y <= i < y + n ==> r.hosted.screen.Rows()[i] == EMPTY
  }

  /** Of the rows of the screen in use one is changed in columns x to x + n, and others are emptied. */
  ghost predicate Erases(t: Terminal, r: Terminal, x: nat, n: nat) {
    && t.Y() < |t.hosted.screen.Rows()| == |r.hosted.screen.Rows()|
    && RowErased(t.hosted.screen.Rows()[t.Y()], r.hosted.screen.Rows()[t.Y()], x, n)
  }

  lemma EraseBelowErases(w: Widths, t: Terminal, r: Terminal)
    requires Ready(w, t) && r == EraseBelow(w, t)
    ensures Changes(t, r, t.Y(), t.Height() - t.Y()) && Erases(t, r, t.X(), Max(t.Width() - t.X(), 0))
    ensures AreEmpty(r, t.Y() + 1, t.Height() - t.Y() - 1)
  {
    hide Ready, EraseRange, EraseLines, RowErased;
    ReadyHasRows(w, t);
    var m := EraseRange(w, t, t.X(), t.Width() - t.X(), false);
    EraseRangeErases(w, t, t.X(), t.Width() - t.X(), m);
    EraseLinesChanges(w, m, t.Y() + 1, t.Height() - t.Y() - 1);
  }

  lemma EraseAboveErases(w: Widths, t: Terminal, r: Terminal)
    requires Ready(w, t) && r == EraseAbove(w, t)
    ensures Changes(t, r, 0, t.Y() + 1) && Erases(t, r, 0, t.X() + 1) && AreEmpty(r, 0, t.Y())
  {
    hide Ready, EraseRange, EraseLines, RowErased;
    ReadyHasRows(w, t);
    EraseLinesChanges(w, t, 0, t.Y());
    EraseRangeErases(w, EraseLines(w, t, 0, t.Y()), 0, t.X() + 1, r);
  }

  lemma EraseDisplayIs(w: Widths, t: Terminal)
    requires Ready(w, t)
    ensures var r, p := Sequence(w, t, 'J'), Parameter(t, 0, 0);
            && (p == 0 ==> r == EraseBelow(w, t))
            && (p == 1 ==> r == EraseAbove(w, t))
            && (p == 2 ==> r == EraseLines(w, t, 0, t.Height()))
            && (p > 2 ==> r == t)
  {
    hide Ready, EraseBelow, EraseAbove, EraseLines;
  }

  /** From the cursor to the end, from the start to the cursor, or the whole screen. */
  ghost predicate DisplayErased(t: Terminal, r: Terminal, p: int) {
    && t.Y() < t.Height()
    && (p == 0 ==>
          && Changes(t, r, t.Y(), t.Height() - t.Y()) && Erases(t, r, t.X(), Max(t.Width() - t.X(), 0))
          && AreEmpty(r, t.Y() + 1, t.Height() - t.Y() - 1))
    && (p == 1 ==> Changes(t, r, 0, t.Y() + 1) && Erases(t, r, 0, t.X() + 1) && AreEmpty(r, 0, t.Y()))
    && (p == 2 ==> Changes(t, r, 0, t.Height()) && AreEmpty(r, 0, t.Height()))
    && (p > 2 ==> r == t)
  }

  lemma DisplaySequence(w: Widths, t: Terminal)
    requires Ready(w, t)
    ensures DisplayErased(t, Sequence(w, t, 'J'), Parameter(t, 0, 0))
  {
    hide Ready;
    ReadyHasRows(w, t);
    EraseDisplayIs(w, t);
    hide EraseBelow, EraseAbove, EraseLines, Sequence, Parameter, Erases, Changes, AreEmpty;
    var r, p := Sequence(w, t, 'J'), Parameter(t, 0, 0);
    if p == 0 {
      EraseBelowErases(w, t, r);
    } else if p == 1 {
      EraseAboveErases(w, t, r);
    } else if p == 2 {
      EraseAllErases(w, t, r);
    }
  }

  lemma EraseAllErases(w: Widths, t: Terminal, r: Terminal)
    requires Ready(w, t) && r == EraseLines(w, t, 0, t.Height())
    ensures Changes(t, r, 0, t.Height()) && AreEmpty(r, 0, t.Height())
  {
    ReadyHasRows(w, t);
    hide Ready, EraseLines;
    EraseLinesChanges(w, t, 0, t.Height());
  }

  lemma DisplayForgets(t: Terminal, u: Terminal, r: Terminal, p: int)
    requires DisplayErased(u, r, p) && Forget(u, t) == t
    ensures DisplayErased(t, Forget(r, t), p)
  {
    hide RowErased;
  }

  lemma DisplayIsErased(cfg: Config, t: Terminal, kind: Kind, ps: seq<int>)
    requires Can(cfg, t, kind, ps, 'J')
    ensures DisplayErased(t, Outcome(cfg, t, kind, ps, 'J'), Value(ps, 0, 0))
  {
    var u := Reads(t, kind, ps);
    SamePlaces(t, kind, ps, 'A');
    OutcomeIs(cfg, t, kind, ps, 'J', u);
    ValueIs(t, kind, ps, 0, 0);
    hide Can, Sequence, Value, Parameter, Outcome, DisplayErased, Ready, Reads, Forget;
    DisplaySequence(cfg.w, u);
    DisplayForgets(t, u, Sequence(cfg.w, u, 'J'), Value(ps, 0, 0));
  }

  /** The rest of the row, its start up to the cursor, or all of it. */
  ghost predicate LineErased(t: Terminal, r: Terminal, p: int) {
    && t.Y() < t.Height()
    && (p <= 2 ==> Changes(t, r, t.Y(), 1))
    && (p == 0 ==> Erases(t, r, t.X(), Max(t.Width() - t.X(), 0)))
    && (p == 1 ==> Erases(t, r, 0, t.X() + 1))
    && (p == 2 ==> AreEmpty(r, t.Y(), 1))
    && (p > 2 ==> r == t)
  }

  lemma LineSequence(w: Widths, t: Terminal)
    requires Ready(w, t)
    ensures LineErased(t, Sequence(w, t, 'K'), Parameter(t, 0, 0))
  {
    hide Ready, EraseRange, EraseLines, Sequence, Parameter, LineErased;
    EraseLineIs(w, t);
    var r, p := Sequence(w, t, 'K'), Parameter(t, 0, 0);
    if p == 0 {
      LineEndErases(w, t, r);
    } else if p == 1 {
      LineStartErases(w, t, r);
    } else if p == 2 {
      WholeLineErases(w, t, r);
    } else {
      NoLineErases(w, t, p);
    }
  }

  lemma LineEndErases(w: Widths, t: Terminal, r: Terminal)
    requires Ready(w, t) && r == EraseRange(w, t, t.X(), t.Width() - t.X(), false)
    ensures LineErased(t, r, 0)
  {
    hide Ready, EraseRange, Erases, Changes;
    ReadyHasRows(w, t);
    RangeErases(w, t, t.X(), t.Width() - t.X(), r);
  }

  lemma LineStartErases(w: Widths, t: Terminal, r: Terminal)
    requires Ready(w, t) && r == EraseRange(w, t, 0, t.X() + 1, false)
    ensures LineErased(t, r, 1)
  {
    hide Ready, EraseRange, Erases, Changes;
    ReadyHasRows(w, t);
    RangeErases(w, t, 0, t.X() + 1, r);
  }

  lemma WholeLineErases(w: Widths, t: Terminal, r: Terminal)
    requires Ready(w, t) && t.Y() + 1 <= t.Height() && r == EraseLines(w, t, t.Y(), 1)
    ensures LineErased(t, r, 2)
  {
    hide Ready, EraseLines, AreEmpty, Changes;
    RowEmpties(w, t, r);
  }

  lemma NoLineErases(w: Widths, t: Terminal, p: int)
    requires Ready(w, t) && p > 2
    ensures LineErased(t, t, p)
  {
    hide Ready;
    ReadyHasRows(w, t);
  }

  lemma RangeErases(w: Widths, t: Terminal, x: nat, n: int, r: Terminal)
    requires Ready(w, t) && (x < t.Width() ==> n >= 0) && r == EraseRange(w, t, x, n, false)
    ensures Changes(t, r, t.Y(), 1) && Erases(t, r, x, Max(n, 0))
  {
    hide Ready, EraseRange, RowErased;
    EraseRangeErases(w, t, x, n, r);
  }

  lemma RowEmpties(w: Widths, t: Terminal, r: Terminal)
    requires Ready(w, t) && t.Y() + 1 <= t.Height() && r == EraseLines(w, t, t.Y(), 1)
    ensures Changes(t, r, t.Y(), 1) && AreEmpty(r, t.Y(), 1)
  {
    hide Ready, EraseLines;
    ReadyHasRows(w, t);
    EraseLinesChanges(w, t, t.Y(), 1);
  }

  lemma EraseLineIs(w: Widths, t: Terminal)
    requires Ready(w, t)
    ensures t.Y() + 1 <= t.Height()
    ensures var r, p := Sequence(w, t, 'K'), Parameter(t, 0, 0);
            && (p == 0 ==> r == EraseRange(w, t, t.X(), t.Width() - t.X(), false))
            && (p == 1 ==> r == EraseRange(w, t, 0, t.X() + 1, false))
            && (p == 2 ==> r == EraseLines(w, t, t.Y(), 1))
            && (p > 2 ==> r == t)
  {
    hide Steady, EraseRange, EraseLines;
  }

  lemma LineForgets(t: Terminal, u: Terminal, r: Terminal, p: int)
    requires LineErased(u, r, p) && Forget(u, t) == t
    ensures LineErased(t, Forget(r, t), p)
  {
    hide RowErased;
  }

  lemma LineIsErased(cfg: Config, t: Terminal, kind: Kind, ps: seq<int>)
    requires Can(cfg, t, kind, ps, 'K')
    ensures LineErased(t, Outcome(cfg, t, kind, ps, 'K'), Value(ps, 0, 0))
  {
    var u := Reads(t, kind, ps);
    SamePlaces(t, kind, ps, 'A');
    OutcomeIs(cfg, t, kind, ps, 'K', u);
    ValueIs(t, kind, ps, 0, 0);
    hide Can, Sequence, Value, Parameter, Outcome, LineErased, Ready, Reads, Forget;
    LineSequence(cfg.w, u);
    LineForgets(t, u, Sequence(cfg.w, u, 'K'), Value(ps, 0, 0));
  }

  // The edits of a row.

  /** Columns from x on are moved n to the left. */
  ghost predicate RowDeleted(was: Line, now: Line, x: nat, n: nat) {
    && now.wrapped == was.wrapped
    && forall i: nat ::
         Shown(now.cells, i) == if i < x then Halved(was.cells, x, i) else Halved(was.cells, x + n, i + n)
  }

  /** Columns from x on are moved n to the right, behind blanks, as far as they fit. */
  ghost predicate RowInserted(was: Line, now: Line, x: nat, n: nat, width: nat) {
    && now.wrapped == was.wrapped && |now.cells| <= width
    && forall i: nat :: i < width ==>
         Shown(now.cells, i)
         == if i < x then Halved(was.cells, x, i)
            else if i < x + n then BLANK
            else Pushed(was.cells, x, width - n, i - n)
  }

  /** What a sequence does to the row of the cursor, before its end. */
  ghost predicate RowEdited(t: Terminal, r: Terminal, n: nat, c: char) {
    && Changes(t, r, t.Y(), 1) && t.Y() < |t.hosted.screen.Rows()|
    && var was, now := t.hosted.screen.Rows()[t.Y()], r.hosted.screen.Rows()[t.Y()];
       && (c == 'X' ==> RowErased(was, now, t.X(), Max(Min(n, t.Width() - t.X()), 0)))
       && (c == 'P' ==> RowDeleted(was, now, t.X(), n))
       && (c == '@' ==> if t.X() < t.Width() then RowInserted(was, now, t.X(), n, t.Width()) else now == was)
  }

  lemma RowDeletes(w: Widths, was: Line, now: Line, x: nat, n: nat)
    requires WidthsOk(w) && Whole(w, was.cells) && Led(was.cells) && now == was.(cells := Erase(was.cells, x, n, true))
    ensures RowDeleted(was, now, x, n)
  {
    hide Whole, Erase, Halved, Shown;
    forall i: nat
      ensures Shown(now.cells, i) == if i < x then Halved(was.cells, x, i) else Halved(was.cells, x + n, i + n)
    {
      DeleteShows(w, was.cells, x, n, i);
    }
  }

  lemma RowInserts(w: Widths, was: Line, now: Line, x: nat, n: nat, width: nat)
    requires WidthsOk(w) && Whole(w, was.cells) && LineLed(was, width) && x < width
    requires now == was.(cells := InsertBlanks(was.cells, x, n, width))
    ensures RowInserted(was, now, x, n, width)
  {
    hide Whole, InsertBlanks, Halved, Shown, Pushed;
    forall i: nat | i < width
      ensures Shown(now.cells, i)
        == if i < x then Halved(was.cells, x, i)
           else if i < x + n then BLANK
           else Pushed(was.cells, x, width - n, i - n)
    {
      InsertShows(w, was.cells, x, n, width, i);
    }
  }

  lemma EraseCharacterEdits(w: Widths, t: Terminal)
    requires Ready(w, t)
    ensures RowEdited(t, Sequence(w, t, 'X'), Parameter(t, 0, 1), 'X')
  {
    hide Ready, EraseRange, RowErased, Changes, Parameter;
    var n := Parameter(t, 0, 1);
    EraseRangeErases(w, t, t.X(), if t.X() + n > t.Width() then t.Width() - t.X() else n, Sequence(w, t, 'X'));
  }

  lemma DeleteCharacterEdits(w: Widths, t: Terminal)
    requires Ready(w, t)
    ensures RowEdited(t, Sequence(w, t, 'P'), Parameter(t, 0, 1), 'P')
  {
    hide Ready, EraseRange, RowDeleted, Changes, Parameter, Erase, Whole;
    ReadyHasRows(w, t);
    RowIsWhole(w, t, t.Y());
    var n, row := Parameter(t, 0, 1), t.hosted.screen.Rows()[t.Y()];
    EraseRangeChanges(w, t, t.X(), n, true, Sequence(w, t, 'P'));
    RowDeletes(w, row, row.(cells := Erase(row.cells, t.X(), n, true)), t.X(), n);
  }

  lemma InsertCharacterChanges(w: Widths, t: Terminal, n: nat, r: Terminal)
    requires Ready(w, t) && n == Parameter(t, 0, 1) && r == Sequence(w, t, '@')
    ensures Changes(t, r, t.Y(), 1) && t.Y() < |t.hosted.screen.Rows()|
      && LineLed(t.hosted.screen.Rows()[t.Y()], t.Width())
    ensures var row := t.hosted.screen.Rows()[t.Y()];
            r.hosted.screen.Rows()[t.Y()]
            == if t.X() < t.Width() then row.(cells := InsertBlanks(row.cells, t.X(), n, t.Width())) else row
  {
    ReadyHasRows(w, t);
    InsertCellsIsSteady(w, t.hosted, t.X(), t.Y(), n);
    hide Steady, Invalidate, InsertBlanks, Led;
  }

  lemma InsertCharacterEdits(w: Widths, t: Terminal)
    requires Ready(w, t)
    ensures RowEdited(t, Sequence(w, t, '@'), Parameter(t, 0, 1), '@')
  {
    var n := Parameter(t, 0, 1);
    ReadyHasRows(w, t);
    RowIsWhole(w, t, t.Y());
    InsertCharacterChanges(w, t, n, Sequence(w, t, '@'));
    hide Ready, Sequence, RowInserted, Changes, Parameter, InsertBlanks, Whole, Led;
    var row := t.hosted.screen.Rows()[t.Y()];
    if t.X() < t.Width() {
      RowInserts(w, row, row.(cells := InsertBlanks(row.cells, t.X(), n, t.Width())), t.X(), n, t.Width());
    }
  }

  lemma EditForgets(t: Terminal, u: Terminal, r: Terminal, n: nat, c: char)
    requires RowEdited(u, r, n, c) && Forget(u, t) == t
    ensures RowEdited(t, Forget(r, t), n, c)
  {
    hide RowErased, RowDeleted, RowInserted;
  }

  /** Erasing, deleting and inserting characters. */
  lemma RowIsEdited(cfg: Config, t: Terminal, kind: Kind, ps: seq<int>, c: char)
    requires Can(cfg, t, kind, ps, c) && (c == 'X' || c == 'P' || c == '@')
    ensures RowEdited(t, Outcome(cfg, t, kind, ps, c), Value(ps, 0, 1), c)
  {
    var u := Reads(t, kind, ps);
    SamePlaces(t, kind, ps, 'A');
    OutcomeIs(cfg, t, kind, ps, c, u);
    ValueIs(t, kind, ps, 0, 1);
    hide Can, Sequence, Value, Parameter, Outcome, RowEdited, Ready, Reads, Forget;
    match c {
      case 'X' => EraseCharacterEdits(cfg.w, u);
      case 'P' => DeleteCharacterEdits(cfg.w, u);
      case _ => InsertCharacterEdits(cfg.w, u);
    }
    EditForgets(t, u, Sequence(cfg.w, u, c), Value(ps, 0, 1), c);
  }
}
