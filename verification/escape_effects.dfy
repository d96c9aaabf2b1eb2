/**
 What single characters do: controls, the keys behind an escape, text that is skipped, and characters
 that are printed.
 */
module EscapeEffects {
  import opened Rows
  import opened RowEffects
  import opened Damage
  import opened Screens
  import opened ScreenShape
  import opened ScreenSteps
  import opened TerminalModel
  import opened TerminalRuns
  import opened TerminalEffects
  import opened ControlSequences
  import opened SequenceEffects
  import opened RegionEffects
  import opened ModeEffects

  // Down and up a row.

  /** The first row of the normal screen is in the log, and the others have moved up. */
  ghost predicate PushedOut(t: Terminal, r: Terminal) {
    var s := t.hosted.screen;
    && s.normal != [] && r == t.(hosted := r.hosted)
    && r.hosted.screen
       == s.(log := Last(s.log + [s.normal[0]], s.capacity), normal := s.normal[1..] + [EMPTY])
  }

  /** Down a row: at the end of the region its rows move up, those of the whole normal screen into the log. */
  ghost predicate GoesDown(t: Terminal, r: Terminal) {
    if ScrollsOut(t) then PushedOut(t, r)
    else if t.Y() + 1 == t.begin + t.size then RegionScrolled(t, r, t.begin, t.size, 1, t.X())
    else Lands(t, r, t.X(), Min(t.Y() + 1, t.Height() - 1))
  }

  /** Up a row: at the start of the region its rows move down. */
  ghost predicate GoesUp(t: Terminal, r: Terminal) {
    if t.Y() == t.begin then RegionScrolled(t, r, t.begin, t.size, -1, t.X())
    else Lands(t, r, t.X(), Max(t.Y() - 1, 0))
  }

  lemma PushLogIs(s: Screen)
    requires !s.onAlternate && s.normal != [] && 0 < s.capacity && |s.log| <= s.capacity
    ensures PushLog(s) == s.(log := Last(s.log + [s.normal[0]], s.capacity), normal := s.normal[1..] + [EMPTY])
  {
    assert Last(s.log, s.capacity) == s.log;
    LogIsLastPushed(s, s.log);
  }

  lemma ScrollStepIs(w: Widths, t: Terminal, r: Hosted)
    requires Ready(w, t) && t.Y() + 1 == t.begin + t.size && r == ScrollStep(w, t, t.Y() + 1)
    ensures |t.hosted.screen.Rows()| == t.Height() && t.begin + t.size <= t.Height() && t.size >= 1
    ensures t.hosted.screen.normal != [] && t.hosted.screen.capacity > 0
    ensures r.screen.(y := t.Y())
         == if ScrollsOut(t) then PushLog(t.hosted.screen)
            else t.hosted.screen.WithRows(Up(t.hosted.screen.Rows(), t.begin, t.size, 1))
  {
    hide InStep, Sound, Screens.ScrollUp, Screens.ScrollLog, Up;
    SteadyIs(w, t.hosted);
    var h := At(t.hosted, t.X(), t.Y() + 1);
    AtIsSteady(w, t.hosted, t.X(), t.Y() + 1);
    SteadyIs(w, h);
    RegionScrolls(h, t.begin, t.size, 1);
    ScrollLogPushes(h);
  }

  lemma BottomScrolls(w: Widths, t: Terminal)
    requires Ready(w, t) && t.Y() + 1 == t.begin + t.size
    ensures GoesDown(t, Index(w, t))
  {
    hide Ready, ScrollStep, Index, PushLog, Up, RegionScrolled, Scrolled;
    IndexIs(w, t);
    ReadyHasRows(w, t);
    var h := ScrollStep(w, t, t.Y() + 1);
    ScrollStepIs(w, t, h);
    var r, s := Index(w, t), t.hosted.screen;
    assert h.screen.x == t.X() by { ScrollStepPushes(w, t, t.Y() + 1); }
    assert r.hosted.screen == h.screen.(y := t.Y());
    if ScrollsOut(t) {
      PushLogIs(s);
    } else {
      UpScrolls(s.Rows(), t.begin, t.size, 1);
      WithRowsScrolls(t, r, Up(s.Rows(), t.begin, t.size, 1), t.begin, t.size, 1, t.X());
    }
  }

  lemma IndexGoesDown(w: Widths, t: Terminal)
    requires Ready(w, t)
    ensures GoesDown(t, Index(w, t))
  {
    hide Ready, Index, ScrollStep, RegionScrolled, PushedOut;
    if t.Y() + 1 == t.begin + t.size {
      BottomScrolls(w, t);
    } else {
      IndexIs(w, t);
      ReadyHasRows(w, t);
    }
  }

  lemma ReverseIndexGoesUp(w: Widths, t: Terminal)
    requires Ready(w, t)
    ensures GoesUp(t, ReverseIndex(w, t))
  {
    hide Ready, RegionScrolled, Scrolled, Down;
    MarginsAreIn(w, t);
    ReadyHasRows(w, t);
    ReverseIndexIs(w, t);
    if t.Y() == t.begin {
      var d: int := 1;
      assert Least(1, t.size) == 1;
      TerminalEffects.RegionMoves(w, t, t.begin, t.size, 1);
      DownScrolls(t.hosted.screen.Rows(), t.begin, t.size, 1);
      WithRowsScrolls(t, ReverseIndex(w, t), Down(t.hosted.screen.Rows(), t.begin, t.size, 1), t.begin, t.size, -d,
        t.X());
    }
  }

  lemma ReverseIndexIs(w: Widths, t: Terminal)
    requires Ready(w, t)
    ensures t.begin + t.size <= t.Height() && t.size >= 1
    ensures ReverseIndex(w, t)
         == if t.Y() == t.begin then ScrollRegionDown(w, t, t.begin, t.size, 1)
            else MoveCursor(t, t.X(), Max(t.Y() - 1, 0))
  {
    hide Steady, Screens.ScrollDown;
  }

  // Controls.

  /** To the next stop behind the cursor, with none in between, or to the last column. */
  ghost predicate GoesToStop(t: Terminal, r: Terminal) {
    && |t.tabs| >= t.Width() && r.X() < t.Width() && Lands(t, r, r.X(), t.Y())
    && (r.X() < t.Width() - 1 ==> t.X() < r.X() && t.tabs[r.X()])
    && (forall i :: t.X() < i < r.X() ==> !t.tabs[i])
  }

  ghost predicate Controls(t: Terminal, r: Terminal, c: char) {
    && (c == BS ==> Lands(t, r, Max(Min(t.X(), t.Width() - 1) - 1, 0), t.Y()))
    && (c == HT ==> GoesToStop(t, r))
    && (c == LF || c == VT || c == FF ==> GoesDown(t, r))
    && (c == CR ==> Lands(t, r, 0, t.Y()))
    && (c == ESC ==> r == t.(parser := Escape))
    && (!(BS <= c <= CR) && c != ESC ==> r == t)
  }

  lemma TabGoesToStop(w: Widths, t: Terminal)
    requires Ready(w, t)
    ensures GoesToStop(t, TabForward(w, t))
  {
    hide Ready, TabForward;
    ReadyHasWidth(w, t);
    ColumnMotionsLand(w, t);
  }

  /** A control, wherever it stands: inside a sequence it does the same. */
  lemma ControlDoes(cfg: Config, t: Terminal, c: char)
    requires ConfigOk(cfg) && Ready(cfg.w, t) && Accepts(cfg, t, c) && !Skips(t) && cfg.isControl(c)
    ensures Controls(t, Feed(cfg, t, c), c)
  {
    var w := cfg.w;
    hide Ready, Accepts, Feed, Index, TabForward, BackSpace, CarriageReturn, GoesDown, GoesToStop, Lands;
    ControlIsFed(cfg, t, c);
    if c == LF || c == VT || c == FF {
      IndexGoesDown(w, t);
    } else if c == HT {
      TabGoesToStop(w, t);
    } else if c == BS || c == CR {
      HorizontalMotionsLand(w, t);
    }
  }

  // Keys behind an escape.

  /** The cursor, with its attribute, is saved for the screen in use. */
  ghost predicate Saves(t: Terminal, r: Terminal) {
    var s := t.hosted.screen;
    && r == t.(hosted := t.hosted.(screen := r.hosted.screen))
    && r.hosted.screen
       == if s.onAlternate then s.(savedAlternate := Saved(s.attribute, s.x, s.y))
          else s.(savedNormal := Saved(s.attribute, s.x, s.y))
  }

  function SavedFor(s: Screen): Saved {
    if s.onAlternate then s.savedAlternate else s.savedNormal
  }

  /** The saved cursor again, kept on the screen, and in origin mode in the region. */
  ghost predicate Restores(t: Terminal, r: Terminal) {
    var s, saved := t.hosted.screen, SavedFor(t.hosted.screen);
    && 0 < t.Width() && r == t.(hosted := t.hosted.(screen := r.hosted.screen))
    && r.hosted.screen
       == s.(attribute := saved.attribute, x := Min(saved.x, t.Width() - 1),
             y := Max(Min(saved.y, BottomOf(t) - 1), TopOf(t)))
  }

  ghost predicate Escapes(t: Terminal, r: Terminal, c: char) {
    && (c == 'D' ==> GoesDown(t, r))
    && (c == 'E' ==> GoesDown(MoveCursor(t, 0, t.Y()), r))
    && (c == 'M' ==> GoesUp(t, r))
    && (c == 'H' ==> r == t.(tabs := r.tabs) && |r.tabs| == |t.tabs|
                     && forall i :: 0 <= i < |r.tabs| ==> r.tabs[i] == (t.tabs[i] || (i == t.X() && i < t.Width())))
    && (c == '7' ==> Saves(t, r))
    && (c == '8' ==> Restores(t, r))
    && (c == '=' ==> r == t.(applicationKeypad := true))
    && (c == '>' ==> r == t.(applicationKeypad := false))
  }

  /** A character behind an escape that needs no more. */
  predicate IsEscape(c: char) {
    c == 'D' || c == 'E' || c == 'M' || c == 'H' || c == '7' || c == '8' || c == '=' || c == '>'
  }

  lemma RowEscapes(w: Widths, t: Terminal, r: Terminal, c: char)
    requires Ready(w, t) && (c == 'D' || c == 'E' || c == 'M') && r == EscapeKey(w, t, c)
    ensures Escapes(t.(parser := Default), r, c)
  {
    hide Ready, EscapeKey, Index, NextLine, ReverseIndex, PushedOut, RegionScrolled;
    EscapeKeyIs(w, t, c);
    if c == 'D' {
      IndexGoesDown(w, t);
      DownForgets(t, Index(w, t), Default);
    } else if c == 'E' {
      NextLineIs(w, t);
      var u := MoveCursor(t, 0, t.Y());
      IndexGoesDown(w, u);
      DownForgets(u, Index(w, u), Default);
    } else {
      ReverseIndexGoesUp(w, t);
      UpForgets(t, ReverseIndex(w, t), Default);
    }
  }

  lemma DownForgets(t: Terminal, r: Terminal, p: Parser)
    requires GoesDown(t, r)
    ensures GoesDown(t.(parser := p), r.(parser := p))
  {
    hide PushedOut, RegionScrolled;
    PartsForget(t, r, p, t.begin, t.size, 1);
  }

  lemma PartsForget(t: Terminal, r: Terminal, p: Parser, y: nat, n: nat, d: int)
    ensures PushedOut(t, r) ==> PushedOut(t.(parser := p), r.(parser := p))
    ensures RegionScrolled(t, r, y, n, d, t.X()) ==> RegionScrolled(t.(parser := p), r.(parser := p), y, n, d, t.X())
  {
    hide Scrolled;
  }

  lemma UpForgets(t: Terminal, r: Terminal, p: Parser)
    requires GoesUp(t, r)
    ensures GoesUp(t.(parser := p), r.(parser := p))
  {
    hide RegionScrolled;
    PartsForget(t, r, p, t.begin, t.size, -1);
  }

  lemma SavingEscapes(w: Widths, t: Terminal, r: Terminal, c: char)
    requires Ready(w, t) && (c == '7' || c == '8') && r == EscapeKey(w, t, c)
    ensures Escapes(t.(parser := Default), r, c)
  {
    hide Ready, EscapeKey, Save, RestoreSaved;
    EscapeKeyIs(w, t, c);
    ReadyHasWidth(w, t);
    if c == '7' {
      SaveIs(w, t);
    } else {
      RestoreSavedIs(w, t);
    }
  }

  lemma OtherEscapes(w: Widths, t: Terminal, r: Terminal, c: char)
    requires Ready(w, t) && (c == 'H' || c == '=' || c == '>') && r == EscapeKey(w, t, c)
    ensures Escapes(t.(parser := Default), r, c)
  {
    hide Ready;
    ReadyHasWidth(w, t);
  }

  /** An escape and such a character. */
  lemma EscapeDoes(cfg: Config, t: Terminal, c: char)
    requires ConfigOk(cfg) && Ready(cfg.w, t) && t.parser == Default && IsEscape(c)
    ensures AcceptsAll(cfg, t, [ESC, c])
    ensures Escapes(t, FeedAll(cfg, t, [ESC, c]), c)
  {
    hide Ready, AcceptsAll, FeedAll, Feed, Escapes, EscapeKey;
    var u := Escaped(cfg, t, c);
    if c == 'D' || c == 'E' || c == 'M' {
      RowEscapes(cfg.w, u, EscapeKey(cfg.w, u, c), c);
    } else if c == '7' || c == '8' {
      SavingEscapes(cfg.w, u, EscapeKey(cfg.w, u, c), c);
    } else {
      OtherEscapes(cfg.w, u, EscapeKey(cfg.w, u, c), c);
    }
  }

  lemma Escaped(cfg: Config, t: Terminal, c: char) returns (u: Terminal)
    requires ConfigOk(cfg) && Ready(cfg.w, t) && t.parser == Default && ' ' <= c <= '~'
    ensures u == t.(parser := Escape) && Ready(cfg.w, u) && u.(parser := Default) == t
    ensures AcceptsAll(cfg, t, [ESC, c]) && FeedAll(cfg, t, [ESC, c]) == EscapeKey(cfg.w, u, c)
  {
    hide Ready, AcceptsAll, FeedAll, Feed, EscapeKey;
    u := t.(parser := Escape);
    assert Feed(cfg, t, ESC) == u by { ControlIsFed(cfg, t, ESC); }
    FeedOne(cfg, t, ESC);
    KeyIsFed(cfg, u, c);
    FeedOne(cfg, u, c);
    FeedTwo(cfg, t, [ESC], [c]);
    assert [ESC] + [c] == [ESC, c];
  }

  /** Any other such character does nothing, unless it begins something longer. */
  lemma OtherEscapesDoNothing(cfg: Config, t: Terminal, c: char)
    requires ConfigOk(cfg) && Ready(cfg.w, t) && t.parser == Default && ' ' <= c <= '~'
    requires !IsEscape(c) && c != '#' && c != '(' && c != 'P' && c != '[' && c != ']'
    ensures AcceptsAll(cfg, t, [ESC, c]) && FeedAll(cfg, t, [ESC, c]) == t
  {
    hide Ready, AcceptsAll, FeedAll, Feed;
    var u := Escaped(cfg, t, c);
  }

  /** The choice of a character set, and a number sign with anything but the alignment pattern, change nothing. */
  lemma DesignationDoesNothing(cfg: Config, t: Terminal, kind: char, c: char)
    requires ConfigOk(cfg) && Ready(cfg.w, t) && t.parser == Default && !cfg.isControl(c)
    requires kind == '(' || (kind == '#' && c != '8')
    ensures AcceptsAll(cfg, t, [ESC, kind, c]) && FeedAll(cfg, t, [ESC, kind, c]) == t
  {
    hide Ready, AcceptsAll, FeedAll, Feed;
    var u := Escaped(cfg, t, kind);
    var v := EscapeKey(cfg.w, u, kind);
    assert v == t.(parser := if kind == '(' then DesignateG0 else EscapeSharp);
    KeyIsFed(cfg, v, c);
    FeedOne(cfg, v, c);
    FeedTwo(cfg, t, [ESC, kind], [c]);
    assert [ESC, kind] + [c] == [ESC, kind, c];
  }

  /**
   A cursor saved by ESC 7 and restored by ESC 8, whatever was done in between on the same screen:
   its attribute, and its place as far as that is still on the screen and in the region.
   */
  lemma SavedIsRestored(t: Terminal, u: Terminal, v: Terminal, r: Terminal)
    requires Saves(t, u) && Restores(v, r) && SavedFor(v.hosted.screen) == SavedFor(u.hosted.screen)
    requires TopOf(v) < BottomOf(v)
    ensures r.hosted.screen.attribute == t.hosted.screen.attribute
    ensures r.X() == t.X() <==> t.X() < v.Width()
    ensures r.Y() == t.Y() <==> TopOf(v) <= t.Y() < BottomOf(v)
  {
  }

  /** One behind the other they change nothing but the saved cursor and a column beyond the width. */
  lemma SaveThenRestore(cfg: Config, t: Terminal)
    requires ConfigOk(cfg) && Ready(cfg.w, t) && t.parser == Default
    ensures AcceptsAll(cfg, t, [ESC, '7', ESC, '8'])
    ensures var r, s := FeedAll(cfg, t, [ESC, '7', ESC, '8']), t.hosted.screen;
            && Saves(t, MoveCursor(r, t.X(), t.Y())) && r.X() == Min(t.X(), t.Width() - 1) && r.Y() == t.Y()
  {
    hide Ready, AcceptsAll, FeedAll;
    EscapeDoes(cfg, t, '7');
    var u := FeedAll(cfg, t, [ESC, '7']);
    EscapeDoes(cfg, u, '8');
    FeedTwo(cfg, t, [ESC, '7'], [ESC, '8']);
    assert [ESC, '7'] + [ESC, '8'] == [ESC, '7', ESC, '8'];
    CursorIsIn(cfg.w, t);
  }

  lemma CursorIsIn(w: Widths, t: Terminal)
    requires Ready(w, t)
    ensures TopOf(t) <= t.Y() < BottomOf(t)
  {
    hide Steady;
  }

  // Text that is skipped.

  /** Text of a device or operating system control that does not hold its end. */
  predicate Skippable(kind: char, text: string)
    decreases |text|
  {
    if text == "" then true
    else if text[0] == ESC then |text| >= 2 && text[1] != '\\' && Skippable(kind, text[2..])
    else (kind == ']' ==> text[0] != BEL) && Skippable(kind, text[1..])
  }

  function SkipState(kind: char): Parser {
    if kind == ']' then OperatingSystem else DeviceControl
  }

  /** None of it is printed or obeyed. */
  lemma {:induction false} SkippedText(cfg: Config, t: Terminal, kind: char, text: string)
    requires ConfigOk(cfg) && Ready(cfg.w, t) && t.parser == SkipState(kind) && Skippable(kind, text)
    ensures AcceptsAll(cfg, t, text) && FeedAll(cfg, t, text) == t
    decreases |text|
  {
    hide Ready, Feed, AcceptsAll, FeedAll;
    if text == "" {
      FeedNone(cfg, t);
    } else if text[0] == ESC {
      SkipsOne(cfg, t, ESC);
      FeedOne(cfg, t, ESC);
      var u := Feed(cfg, t, ESC);
      SkipsOne(cfg, u, text[1]);
      FeedOne(cfg, u, text[1]);
      FeedTwo(cfg, t, [ESC], [text[1]]);
      SkippedText(cfg, t, kind, text[2..]);
      FeedTwo(cfg, t, [ESC] + [text[1]], text[2..]);
      assert [ESC] + [text[1]] + text[2..] == text;
    } else {
      SkipsOne(cfg, t, text[0]);
      FeedOne(cfg, t, text[0]);
      SkippedText(cfg, t, kind, text[1..]);
      FeedTwo(cfg, t, [text[0]], text[1..]);
      assert [text[0]] + text[1..] == text;
    }
  }

  lemma FeedNone(cfg: Config, t: Terminal)
    requires ConfigOk(cfg) && Ready(cfg.w, t)
    ensures AcceptsAll(cfg, t, "") && FeedAll(cfg, t, "") == t
  {
    hide Ready;
  }

  lemma SkipsOne(cfg: Config, t: Terminal, c: char)
    requires ConfigOk(cfg) && Ready(cfg.w, t) && Skips(t)
    ensures Accepts(cfg, t, c) && Feed(cfg, t, c) == Skip(t, c)
  {
    hide Ready, Skip;
  }

  /** The ends of a control: a string terminator, or a bell behind an operating system control. */
  ghost predicate Ends(kind: char, end: string) {
    end == [ESC, '\\'] || (kind == ']' && end == [BEL])
  }

  lemma EndIsSkipped(cfg: Config, t: Terminal, kind: char, end: string)
    requires ConfigOk(cfg) && Ready(cfg.w, t) && (kind == ']' || kind == 'P') && Ends(kind, end)
    requires t.parser == SkipState(kind)
    ensures AcceptsAll(cfg, t, end) && FeedAll(cfg, t, end) == t.(parser := Default)
  {
    hide Ready, Feed, AcceptsAll, FeedAll;
    SkipsOne(cfg, t, end[0]);
    FeedOne(cfg, t, end[0]);
    if end == [ESC, '\\'] {
      var u := Feed(cfg, t, ESC);
      SkipsOne(cfg, u, '\\');
      FeedOne(cfg, u, '\\');
      FeedTwo(cfg, t, [ESC], ['\\']);
      assert [ESC] + ['\\'] == end;
    } else {
      assert end == [BEL];
    }
  }

  /** So such a control changes nothing at all, whatever text it holds up to its end. */
  lemma ControlStringIsSkipped(cfg: Config, t: Terminal, kind: char, text: string, end: string)
    requires ConfigOk(cfg) && Ready(cfg.w, t) && t.parser == Default && (kind == ']' || kind == 'P') && Ends(kind, end)
    requires Skippable(kind, text)
    ensures AcceptsAll(cfg, t, [ESC, kind] + text + end) && FeedAll(cfg, t, [ESC, kind] + text + end) == t
  {
    hide Ready, Feed, AcceptsAll, FeedAll, Ends;
    var u := Escaped(cfg, t, kind);
    var v := EscapeKey(cfg.w, u, kind);
    assert v == t.(parser := SkipState(kind));
    SkippedText(cfg, v, kind, text);
    FeedTwo(cfg, t, [ESC, kind], text);
    EndIsSkipped(cfg, v, kind, end);
    FeedTwo(cfg, t, [ESC, kind] + text, end);
  }

  // Characters that are printed.

  /** The cell in column i of the row when cell, n columns wide, is printed at column x of it. */
  function Printed(was: seq<Cell>, x: nat, cell: Cell, n: nat, width: nat, insert: bool, i: nat): Cell
    requires n > 0
  {
    if i < x then Halved(was, x, i)
    else if x + n > width then cell.(c := ' ')
    else if i < x + n then Glyph(cell, n)[i - x]
    else if insert then Pushed(was, x, width - n, i - n)
    else Halved(was, x + n, i)
  }

  /** The character is printed at the cursor, which goes behind it; only its row is changed. */
  ghost predicate Prints(w: Widths, t: Terminal, r: Terminal, c: char) {
    var n, u := w(c), MoveCursor(r, t.X(), t.Y());
    && r.X() == t.X() + n && r.Y() == t.Y()
    && if n == 0 || t.X() >= t.Width() then u == t
       else
         && Changes(t, u, t.Y(), 1) && t.Y() < |t.hosted.screen.Rows()|
         && RowPrinted(t.hosted.screen.Rows()[t.Y()], u.hosted.screen.Rows()[t.Y()], t.X(),
              Cell(c, t.hosted.screen.attribute), n, t.Width(), t.insert)
  }

  ghost predicate RowPrinted(was: Line, now: Line, x: nat, cell: Cell, n: nat, width: nat, insert: bool)
    requires n > 0
  {
    && now.wrapped == was.wrapped && |now.cells| <= width
    && forall i: nat :: i < width ==> Shown(now.cells, i) == Printed(was.cells, x, cell, n, width, insert, i)
  }

  lemma RowPrints(w: Widths, was: Line, now: Line, x: nat, cell: Cell, width: nat, insert: bool)
    requires WidthsOk(w) && Whole(w, was.cells) && LineLed(was, width) && x < width && cell.c != NUL && w(cell.c) > 0
    requires now == was.(cells := Put(was.cells, x, cell, w(cell.c), width, insert))
    ensures RowPrinted(was, now, x, cell, w(cell.c), width, insert)
  {
    var n := w(cell.c);
    hide Whole, Put, Halved, Shown, Pushed, Glyph;
    GlyphLength(cell, n);
    forall i: nat | i < width ensures Shown(now.cells, i) == Printed(was.cells, x, cell, n, width, insert, i) {
      if x + n > width {
        NoRoomShows(w, was.cells, x, cell, width, insert, i);
      } else if insert {
        InsertedShows(w, was.cells, x, cell, width, i);
      } else {
        OverwriteShows(w, was.cells, x, cell, width, i);
      }
    }
  }

  lemma PutCellChanges(w: Widths, t: Terminal, x: nat, y: nat, cell: Cell, insert: bool, r: Terminal)
    requires Ready(w, t) && y < t.Height() && cell.c != NUL && x < t.Width() && w(cell.c) > 0
    requires y < |t.hosted.screen.Rows()| && FitsRow(t.hosted.screen, y)
    requires r == t.(hosted := PutCell(t.hosted, x, y, cell, w(cell.c), insert))
    ensures Changes(t, r, y, 1)
    ensures var row := t.hosted.screen.Rows()[y];
            r.hosted.screen.Rows()[y] == row.(cells := Put(row.cells, x, cell, w(cell.c), t.Width(), insert))
  {
    hide Ready, Invalidate, Put, Led;
  }

  lemma PutHereIs(w: Widths, t: Terminal, c: char)
    requires Ready(w, t) && c != NUL
    ensures t.Y() < |t.hosted.screen.Rows()| && FitsRow(t.hosted.screen, t.Y()) && t.Y() < t.Height()
    ensures var h := PutCell(t.hosted, t.X(), t.Y(), Cell(c, t.hosted.screen.attribute), w(c), t.insert);
            PutHere(w, t, c) == MoveCursor(t.(hosted := h), t.X() + w(c), t.Y())
  {
    hide Steady, PutCell;
    PutCellIsSteady(w, t.hosted, t.X(), t.Y(), Cell(c, t.hosted.screen.attribute), t.insert);
  }

  lemma PutHerePrints(w: Widths, t: Terminal, c: char)
    requires Ready(w, t) && c != NUL
    ensures Prints(w, t, PutHere(w, t, c), c)
  {
    hide Ready, PutHere, PutCell, Put, RowPrinted, Whole, Led;
    var cell, y := Cell(c, t.hosted.screen.attribute), t.Y();
    PutHereIs(w, t, c);
    var u := t.(hosted := PutCell(t.hosted, t.X(), y, cell, w(c), t.insert));
    if w(c) == 0 || t.X() >= t.Width() {
      NothingPut(t, t.X(), y, cell, w(c), t.insert);
    } else {
      PutCellChanges(w, t, t.X(), y, cell, t.insert, u);
      RowIsWhole(w, t, y);
      RowPrints(w, t.hosted.screen.Rows()[y], u.hosted.screen.Rows()[y], t.X(), cell, t.Width(), t.insert);
    }
  }

  lemma NothingPut(t: Terminal, x: nat, y: nat, cell: Cell, n: nat, insert: bool)
    requires y < |t.hosted.screen.Rows()| && FitsRow(t.hosted.screen, y) && cell.c != NUL
    requires n == 0 || x >= t.Width()
    ensures PutCell(t.hosted, x, y, cell, n, insert) == t.hosted
  {
  }

  /** The row of the cursor marked as wrapped, and the cursor at its start. */
  ghost predicate MarkedWrapped(t: Terminal, u: Terminal) {
    && t.Y() < |t.hosted.screen.Rows()| && Changes(t, MoveCursor(u, t.X(), t.Y()), t.Y(), 1)
    && u.hosted.screen.Rows()[t.Y()] == t.hosted.screen.Rows()[t.Y()].(wrapped := true)
    && u.X() == 0 && u.Y() == t.Y()
  }

  lemma WrapMarks(w: Widths, t: Terminal)
    requires Ready(w, t)
    ensures t.Y() < |t.hosted.screen.Rows()| && Ready(w, Marked(t)) && WrapLine(w, t) == Index(w, Marked(t))
    ensures MarkedWrapped(t, Marked(t))
  {
    hide Steady, Index;
    ReadyHasRows(w, t);
    WrapIsSteady(w, t.hosted, t.Y());
    CursorIsReady(w, t.(hosted := Wrap(t.hosted, t.Y())), 0, t.Y());
  }

  /**
   A character goes to the cursor, or, if it does not fit there and wraparound is on, to the start of
   the next row, when this one has been marked.
   */
  lemma CharacterIsPrinted(cfg: Config, t: Terminal, c: char) returns (u: Terminal, m: Terminal)
    requires ConfigOk(cfg) && Ready(cfg.w, t) && Accepts(cfg, t, c) && t.parser == Default && !cfg.isControl(c)
    ensures if t.wraparound && t.X() + cfg.w(c) > t.Width() then MarkedWrapped(t, u) && GoesDown(u, m) else m == t
    ensures TerminalEffects.Prints(cfg, t, c) && Prints(cfg.w, m, Feed(cfg, t, c), c)
  {
    var w := cfg.w;
    hide Ready, Accepts, MarkedWrapped, GoesDown, WrapLine, PutHere, Index, Prints, ConfigOk;
    assert c != NUL by { PrintableIsNoNul(cfg, c); }
    u, m := t, t;
    CharacterIsPut(cfg, t, c);
    if t.wraparound && t.X() + w(c) > t.Width() {
      WrapMarks(w, t);
      u, m := Marked(t), WrapLine(w, t);
      IndexGoesDown(w, u);
    }
    PutHerePrints(w, m, c);
  }

  lemma PrintableIsNoNul(cfg: Config, c: char)
    requires ConfigOk(cfg) && !cfg.isControl(c)
    ensures c != NUL
  {
  }

  lemma CharacterIsPut(cfg: Config, t: Terminal, c: char)
    requires ConfigOk(cfg) && Ready(cfg.w, t) && Accepts(cfg, t, c) && t.parser == Default
    requires !cfg.isControl(c) && c != NUL
    ensures Feed(cfg, t, c)
         == PutHere(cfg.w, if t.wraparound && t.X() + cfg.w(c) > t.Width() then WrapLine(cfg.w, t) else t, c)
  {
    hide Ready, Accepts, PutHere, WrapLine;
  }

  // The alignment pattern.

  /** Column i of row j shows cell. */
  ghost predicate ShowsAt(t: Terminal, i: nat, j: nat, cell: Cell) {
    j < |t.hosted.screen.Rows()| && Shown(t.hosted.screen.Rows()[j].cells, i) == cell
  }

  /** So do all columns before column x of row y, in the order of reading. */
  ghost predicate FilledTo(t: Terminal, x: nat, y: nat, cell: Cell) {
    forall i: nat, j: nat :: i < t.Width() && j < t.Height() && (j < y || (j == y && i < x)) ==> ShowsAt(t, i, j, cell)
  }

  /** One more character at column x of row y. */
  ghost predicate FillsOn(t: Terminal, r: Terminal, y: nat, now: Line) {
    && Changes(t, r, y, 1) && y < |r.hosted.screen.Rows()| && r.hosted.screen.Rows()[y] == now
  }

  lemma OneMoreFilled(w: Widths, t: Terminal, r: Terminal, x: nat, y: nat, cell: Cell, was: Line, now: Line)
    requires WidthsOk(w) && x < t.Width() && y < t.Height() == |t.hosted.screen.Rows()|
    requires FilledTo(t, x, y, cell) && FillsOn(t, r, y, now)
    requires was == t.hosted.screen.Rows()[y] && Whole(w, was.cells) && Led(was.cells)
    requires cell.c == 'E' && w('E') == 1 && RowPrinted(was, now, x, cell, 1, t.Width(), false)
    ensures FilledTo(r, x + 1, y, cell)
  {
    assert x > 0 ==> ShowsAt(t, x - 1, y, cell);
    NothingHalved(w, was.cells, x, cell);
    assert Glyph(cell, 1)[0] == cell;
    hide Whole, Glyph;
    forall i: nat, j: nat | i < r.Width() && j < r.Height() && (j < y || (j == y && i < x + 1))
      ensures ShowsAt(r, i, j, cell)
    {
      if j == y {
        assert Shown(now.cells, i) == Printed(was.cells, x, cell, 1, t.Width(), false, i);
        assert i < x ==> ShowsAt(t, i, y, cell);
      } else {
        assert ShowsAt(t, i, j, cell);
      }
    }
  }

  lemma NothingHalved(w: Widths, s: seq<Cell>, x: nat, cell: Cell)
    requires WidthsOk(w) && Whole(w, s) && Led(s) && cell.c == 'E' && w('E') == 1
    requires x > 0 ==> Shown(s, x - 1) == cell
    ensures !Continues(s, x)
  {
  }

  /** Nothing but rows of the screen in use has changed. */
  ghost predicate OnlyRows(t: Terminal, r: Terminal) {
    Changes(t, r, 0, |t.hosted.screen.Rows()|)
  }

  lemma OnlyRowsTwice(t: Terminal, r: Terminal, u: Terminal, y: nat)
    requires Changes(t, r, y, 1) && OnlyRows(r, u)
    ensures OnlyRows(t, u)
  {
  }

  lemma SameHasOnlyRows(t: Terminal)
    ensures OnlyRows(t, t)
  {
  }

  lemma {:induction false} AlignFills(w: Widths, t: Terminal, x: nat, y: nat, cell: Cell)
    requires Ready(w, t) && y <= t.Height() && w('E') == 1 && cell == Cell('E', t.hosted.screen.attribute)
    requires FilledTo(t, x, y, cell)
    ensures FilledTo(Align(w, t, x, y), 0, t.Height(), cell) && OnlyRows(t, Align(w, t, x, y))
    decreases t.Height() - y, t.Width() - x
  {
    hide Ready, PutCell, RowPrinted, Whole;
    if y == t.Height() {
      AlignsNothing(w, t, x);
      SameHasOnlyRows(t);
      assert forall i: nat, j: nat :: i < t.Width() && j < t.Height() ==> ShowsAt(t, i, j, cell);
    } else if x >= t.Width() {
      AlignsNext(w, t, x, y);
      assert FilledTo(t, 0, y + 1, cell);
      AlignFills(w, t, 0, y + 1, cell);
    } else {
      var r := AlignsOne(w, t, x, y, cell);
      RowIsWhole(w, t, y);
      OneMoreFilled(w, t, r, x, y, cell, t.hosted.screen.Rows()[y], r.hosted.screen.Rows()[y]);
      AlignFills(w, r, x + 1, y, cell);
      OnlyRowsTwice(t, r, Align(w, t, x, y), y);
    }
  }

  lemma AlignsNothing(w: Widths, t: Terminal, x: nat)
    requires Ready(w, t)
    ensures Align(w, t, x, t.Height()) == t
  {
    hide Steady;
  }

  lemma AlignsNext(w: Widths, t: Terminal, x: nat, y: nat)
    requires Ready(w, t) && y < t.Height() && x >= t.Width()
    ensures Align(w, t, x, y) == Align(w, t, 0, y + 1)
  {
    hide Steady, PutCell;
  }

  lemma AlignsOne(w: Widths, t: Terminal, x: nat, y: nat, cell: Cell) returns (r: Terminal)
    requires Ready(w, t) && y < t.Height() && x < t.Width()
    requires w('E') == 1 && cell == Cell('E', t.hosted.screen.attribute)
    ensures y < |t.hosted.screen.Rows()| && Ready(w, r) && r.Height() == t.Height()
    ensures Align(w, t, x, y) == Align(w, r, x + 1, y)
    ensures FillsOn(t, r, y, r.hosted.screen.Rows()[y])
    ensures RowPrinted(t.hosted.screen.Rows()[y], r.hosted.screen.Rows()[y], x, cell, 1, t.Width(), false)
  {
    hide Steady, PutCell, RowPrinted, Whole, Put;
    PutCellIsSteady(w, t.hosted, x, y, cell, false);
    r := t.(hosted := PutCell(t.hosted, x, y, cell, w('E'), false));
    assert Align(w, t, x, y) == Align(w, r, x + 1, y);
    hide Ready, Align;
    PutCellChanges(w, t, x, y, cell, false, r);
    RowIsWhole(w, t, y);
    RowPrints(w, t.hosted.screen.Rows()[y], r.hosted.screen.Rows()[y], x, cell, t.Width(), false);
  }

  /** ESC # 8 fills the screen with the letter E, in the attribute of the cursor, which stays where it is. */
  lemma ScreenIsFilled(cfg: Config, t: Terminal)
    requires ConfigOk(cfg) && Ready(cfg.w, t) && t.parser == Default && cfg.w('E') == 1
    ensures AcceptsAll(cfg, t, [ESC, '#', '8'])
    ensures var r := FeedAll(cfg, t, [ESC, '#', '8']);
            FilledTo(r, 0, t.Height(), Cell('E', t.hosted.screen.attribute)) && OnlyRows(t, r)
  {
    hide Ready, AcceptsAll, FeedAll, Feed, Align;
    var w, cell := cfg.w, Cell('E', t.hosted.screen.attribute);
    var u := Escaped(cfg, t, '#');
    var v := EscapeKey(w, u, '#');
    assert v == t.(parser := EscapeSharp);
    KeyIsFed(cfg, v, '8');
    FeedOne(cfg, v, '8');
    FeedTwo(cfg, t, [ESC, '#'], ['8']);
    assert [ESC, '#'] + ['8'] == [ESC, '#', '8'];
    assert FilledTo(v, 0, 0, cell);
    AlignFills(w, v, 0, 0, cell);
    var r := Align(w, v, 0, 0);
    assert Feed(cfg, v, '8') == r.(parser := Default);
    SameFilled(r, r.(parser := Default), t.Height(), cell);
  }

  lemma SameFilled(r: Terminal, r': Terminal, y: nat, cell: Cell)
    requires r'.hosted == r.hosted && FilledTo(r, 0, y, cell)
    ensures FilledTo(r', 0, y, cell)
  {
    forall i: nat, j: nat | i < r'.Width() && j < r'.Height() && j < y ensures ShowsAt(r', i, j, cell) {
      assert ShowsAt(r, i, j, cell);
    }
  }
}
