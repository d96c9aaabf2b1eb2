/**
 Printing and copying back: what is typed on a fresh terminal is what copying everything up to the
 cursor gives, as long as no row has left the log, and from the oldest row on after that
 (vt/terminal.h, vt/buffer.h and the copy in vt/window.cc).
 */
module RoundTrip {
  import opened Rows
  import opened Damage
  import opened Screens
  import opened ScreenShape
  import opened ScreenSteps
  import opened TerminalModel
  import opened TerminalRuns
  import opened TerminalEffects
  import opened TerminalHistory
  import opened ControlSequences
  import opened Selections

  datatype Piece = Glyph(c: char) | NewLine

  predicate Typeable(cfg: Config, p: Piece) {
    p.Glyph? ==> !cfg.isControl(p.c) && 1 <= cfg.w(p.c) <= 2
  }

  function Keys(p: Piece): string {
    if p.Glyph? then [p.c] else [CR, LF]
  }

  function Typed(ps: seq<Piece>): string {
    if ps == [] then "" else Keys(ps[0]) + Typed(ps[1..])
  }

  /** The text that is meant. */
  function Meant(ps: seq<Piece>): string {
    if ps == [] then "" else [if ps[0].Glyph? then ps[0].c else '\n'] + Meant(ps[1..])
  }

  /** All rows ever pushed off the screen are known; the log holds the last of them. */
  ghost predicate Flowing(w: Widths, t: Terminal, pushed: seq<Line>) {
    && Ready(w, t)
    && t.parser == Default && t.wraparound && !t.insert && !t.origin && t.begin == 0 && t.size == t.Height()
    && t.Width() >= 2
    && AtEnd(t.hosted.screen, pushed)
  }

  /** The cursor is at the end of what was written. */
  ghost predicate AtEnd(s: Screen, pushed: seq<Line>) {
    && !s.onAlternate && s.y < |s.normal|
    && s.log == Last(pushed, s.capacity)
    && (forall i :: s.y < i < |s.normal| ==> s.normal[i] == EMPTY)
    && !s.normal[s.y].wrapped && s.x == |s.normal[s.y].cells|
    && AllHaveText(pushed) && AllHaveText(s.normal[..s.y])
  }

  /** A row that was left has a newline or a glyph. */
  ghost predicate AllHaveText(lines: seq<Line>) {
    forall i :: 0 <= i < |lines| ==> !lines[i].wrapped || lines[i].cells != []
  }

  /** Everything written so far, with the row of the cursor still open. */
  function TextOf(s: Screen, pushed: seq<Line>): string
    requires s.y < |s.normal|
  {
    LinesText(pushed + s.normal[..s.y]) + GlyphText(s.normal[s.y].cells)
  }

  // Text of glyphs.

  lemma TextOfGlyph(cell: Cell, n: nat)
    requires 1 <= n <= 2 && cell.c != NUL
    ensures GlyphText(Rows.Glyph(cell, n)) == [cell.c]
  {
    var g := Rows.Glyph(cell, n);
    assert End(g, 1) == |g|;
    assert g[|g|..] == [];
  }

  /** Putting a glyph at the end of a row appends it. */
  lemma PutAppends(s: seq<Cell>, cell: Cell, n: nat, width: nat)
    requires Led(s) && |s| + n <= width && n > 0 && cell.c != NUL
    ensures Put(s, |s|, cell, n, width, false) == s + Rows.Glyph(cell, n)
  {
  }

  // One piece.

  /** A row is complete, and the cursor goes to the start of the next. */
  function Advanced(s: Screen): Screen
    requires s.normal != [] && !s.onAlternate && s.capacity > 0
  {
    if s.y + 1 < |s.normal| then s.(x := 0, y := s.y + 1) else PushLog(s).(x := 0)
  }

  /** The row that leaves the screen for it. */
  function RowOut(s: Screen): seq<Line>
    requires s.y < |s.normal|
  {
    if s.y + 1 < |s.normal| then [] else [s.normal[0]]
  }

  /** The row of the cursor ends where it is; nothing else is below it. */
  ghost predicate Complete(s: Screen, pushed: seq<Line>) {
    && !s.onAlternate && s.y < |s.normal| && s.capacity > 0
    && s.log == Last(pushed, s.capacity)
    && (forall i :: s.y < i < |s.normal| ==> s.normal[i] == EMPTY)
    && AllHaveText(pushed) && AllHaveText(s.normal[..s.y + 1])
  }

  /** The cursor is n rows further down; the screen is full before a row is pushed off it. */
  ghost predicate GoesOn(s: Screen, pushed: seq<Line>, r: Screen, all: seq<Line>, n: nat) {
    && |all| + r.y == |pushed| + s.y + n && r.y < |r.normal| == |s.normal|
    && (all != pushed ==> r.y + 1 == |r.normal|)
  }

  lemma GoesOnTwice(
    s: Screen, pushed: seq<Line>, r: Screen, next: seq<Line>, u: Screen, all: seq<Line>, n: nat, m: nat)
    requires GoesOn(s, pushed, r, next, n) && GoesOn(r, next, u, all, m)
    ensures GoesOn(s, pushed, u, all, n + m)
  {
  }

  lemma AdvanceWrites(s: Screen, pushed: seq<Line>)
    requires Complete(s, pushed)
    ensures var r, all := Advanced(s), pushed + RowOut(s);
            && AtEnd(r, all) && r.y < |r.normal|
            && TextOf(r, all) == LinesText(pushed + s.normal[..s.y + 1])
            && GoesOn(s, pushed, r, all, 1)
  {
    var r := Advanced(s);
    assert GlyphText(EMPTY.cells) == "";
    assert LinesText(pushed + s.normal[..s.y + 1]) + "" == LinesText(pushed + s.normal[..s.y + 1]);
    if s.y + 1 < |s.normal| {
      hide LinesText, GlyphText, Last;
      assert pushed + [] == pushed;
    } else {
      FullAdvances(s, pushed);
    }
  }

  lemma FullAdvances(s: Screen, pushed: seq<Line>)
    requires Complete(s, pushed) && s.y + 1 == |s.normal|
    ensures var r, all := Advanced(s), pushed + [s.normal[0]];
            && AtEnd(r, all) && GoesOn(s, pushed, r, all, 1)
            && r.normal[r.y] == EMPTY && all + r.normal[..r.y] == pushed + s.normal[..s.y + 1]
  {
    var r, all := Advanced(s), pushed + [s.normal[0]];
    LogIsLastPushed(s, pushed);
    hide Last;
    assert r.normal == s.normal[1..] + [EMPTY] && s.normal[..s.y + 1] == s.normal;
    assert r.normal[..r.y] == s.normal[1..];
    assert s.normal == [s.normal[0]] + s.normal[1..];
    assert AllHaveText(all) && AllHaveText(r.normal[..r.y]) by {
      assert forall i :: 0 <= i < |s.normal| ==> s.normal[..s.y + 1][i] == s.normal[i];
    }
  }

  /** Going down from the last row of the normal screen. */
  lemma LastRowPushes(w: Widths, t: Terminal, h: Hosted)
    requires Ready(w, t) && t.begin == 0 && t.size == t.Height() && !t.hosted.screen.onAlternate
    requires t.Y() + 1 == t.Height() && h == ScrollStep(w, t, t.Y() + 1)
    ensures t.hosted.screen.normal != [] && t.hosted.screen.capacity > 0
    ensures h.screen == PushLog(t.hosted.screen).(y := t.Y() + 1)
  {
    SteadyIs(w, t.hosted);
    var g := At(t.hosted, t.X(), t.Y() + 1);
    AtIsSteady(w, t.hosted, t.X(), t.Y() + 1);
    SteadyIs(w, g);
    hide Steady, ScrollLog;
    ScrollLogIsSteady(w, g);
    ScrollLogPushes(g);
  }

  lemma LastIsAdvanced(s: Screen, r: Screen)
    requires s.normal != [] && !s.onAlternate && s.capacity > 0 && s.y + 1 == |s.normal| && s.x == 0
    requires r == PushLog(s).(y := s.y + 1).(x := PushLog(s).x, y := s.y)
    ensures r == Advanced(s)
  {
  }

  lemma FromLastAdvances(w: Widths, t: Terminal, r: Terminal)
    requires Ready(w, t) && t.begin == 0 && t.size == t.Height() && !t.hosted.screen.onAlternate && t.X() == 0
    requires r == Index(w, t) && t.Y() + 1 == t.Height() == |t.hosted.screen.normal| && t.hosted.screen.capacity > 0
    ensures r.hosted.screen == Advanced(t.hosted.screen)
  {
    IndexIs(w, t);
    var h := ScrollStep(w, t, t.Y() + 1);
    LastRowPushes(w, t, h);
    hide *;
    LastIsAdvanced(t.hosted.screen, At(h, h.screen.x, t.Y()).screen) by { PlacedAt(h, h.screen.x, t.Y()); }
  }

  lemma PlacedAt(h: Hosted, x: nat, y: nat)
    ensures At(h, x, y).screen == h.screen.(x := x, y := y)
  {
  }

  lemma IndexAdvances(w: Widths, t: Terminal, r: Terminal)
    requires Ready(w, t) && t.begin == 0 && t.size == t.Height() && !t.hosted.screen.onAlternate && t.X() == 0
    requires r == Index(w, t)
    ensures t.hosted.screen.normal != [] && t.hosted.screen.capacity > 0
    ensures r.hosted.screen == Advanced(t.hosted.screen) && r.(hosted := t.hosted) == t
    ensures IndexPushes(t) == RowOut(t.hosted.screen)
  {
    ReadyHasRows(w, t);
    IndexIs(w, t);
    if t.Y() + 1 == t.Height() {
      FromLastAdvances(w, t, r);
      hide Ready, Index, ScrollStep, PushLog, Advanced;
    } else {
      hide Ready, Index, ScrollStep, PushLog;
    }
  }

  lemma CloseRow(pushed: seq<Line>, rows: seq<Line>, y: nat)
    requires y < |rows|
    ensures LinesText(pushed + rows[..y + 1]) == LinesText(pushed + rows[..y]) + LineText(rows[y])
  {
    assert pushed + rows[..y + 1] == (pushed + rows[..y]) + [rows[y]];
    LinesTextOfTwo(pushed + rows[..y], [rows[y]]);
    assert LinesText([rows[y]]) == LineText(rows[y]) + "";
  }

  /** Modes and margins as they are while plain text is written. */
  ghost predicate Plain(t: Terminal) {
    && t.parser == Default && t.wraparound && !t.insert && !t.origin && t.begin == 0 && t.size == t.Height()
      && t.Width() >= 2
  }

  lemma IndexWrites(w: Widths, t: Terminal, pushed: seq<Line>)
    requires Ready(w, t) && Plain(t) && t.X() == 0 && Complete(t.hosted.screen, pushed)
    ensures var r, all := Index(w, t), pushed + RowOut(t.hosted.screen);
            && Flowing(w, r, all) && r.X() == 0 && r.hosted.screen.normal[r.Y()].cells == []
            && TextOf(r.hosted.screen, all) == LinesText(pushed + t.hosted.screen.normal[..t.Y() + 1])
            && GoesOn(t.hosted.screen, pushed, r.hosted.screen, all, 1)
            && RowOut(t.hosted.screen) == IndexPushes(t)
  {
    hide Index, Ready, AtEnd, Complete, TextOf, RowOut;
    var s := t.hosted.screen;
    assert !s.onAlternate && s.y < |s.normal| && s.capacity > 0 by { CompleteIs(s, pushed); }
    IndexAdvances(w, t, Index(w, t));
    AdvanceWrites(s, pushed);
    AdvancedRowIsEmpty(s, pushed);
    AdvancedSize(s);
  }

  lemma CompleteIs(s: Screen, pushed: seq<Line>)
    requires Complete(s, pushed)
    ensures !s.onAlternate && s.y < |s.normal| && s.capacity > 0
  {
  }

  lemma AdvancedRowIsEmpty(s: Screen, pushed: seq<Line>)
    requires Complete(s, pushed)
    ensures var r := Advanced(s); r.y < |r.normal| && r.normal[r.y].cells == [] && r.x == 0
  {
  }

  lemma AdvancedSize(s: Screen)
    requires s.normal != [] && !s.onAlternate && s.capacity > 0
    ensures SameSize(s, Advanced(s))
  {
  }

  lemma NewLineWrites(cfg: Config, t: Terminal, pushed: seq<Line>) returns (all: seq<Line>)
    requires ConfigOk(cfg) && Flowing(cfg.w, t, pushed)
    ensures AcceptsAll(cfg, t, [CR, LF])
    ensures var r := FeedAll(cfg, t, [CR, LF]);
            && Flowing(cfg.w, r, all) && pushed <= all
            && TextOf(r.hosted.screen, all) == TextOf(t.hosted.screen, pushed) + "\n"
            && GoesOn(t.hosted.screen, pushed, r.hosted.screen, all, 1) && r.X() == 0
            && all == pushed + PushedBy(cfg, t, [CR, LF])
  {
    hide Ready, Index, Flowing, AcceptsAll, FeedAll, LinesText, GlyphText, Accepts, PushedBy, RowOut, IndexPushes;
    var w, s := cfg.w, t.hosted.screen;
    FlowingIs(w, t, pushed);
    var t1 := CarriageReturn(w, t);
    FeedControl(cfg, t, CR);
    FeedControl(cfg, t1, LF);
    FeedTwo(cfg, t, [CR], [LF]);
    assert [CR] + [LF] == [CR, LF];
    NewLinePushes(cfg, t, t1);
    IndexWrites(w, t1, pushed);
    all := pushed + RowOut(t1.hosted.screen);
    CloseRow(pushed, s.normal, s.y);
    Selections.Regroup(LinesText(pushed + s.normal[..s.y]), GlyphText(s.normal[s.y].cells), "\n");
  }

  lemma OnePushes(cfg: Config, t: Terminal, c: char)
    requires ConfigOk(cfg) && Ready(cfg.w, t) && Accepts(cfg, t, c) && AcceptsAll(cfg, t, [c])
    ensures t.Y() < |t.hosted.screen.Rows()| && t.hosted.screen.normal != []
    ensures PushedBy(cfg, t, [c]) == Pushes(cfg, t, c)
  {
    hide Ready, Accepts, Pushes, Feed;
    ReadyHasRows(cfg.w, t);
    assert [c][1..] == "" && Pushes(cfg, t, c) + [] == Pushes(cfg, t, c);
  }

  lemma NewLinePushes(cfg: Config, t: Terminal, t1: Terminal)
    requires ConfigOk(cfg) && Ready(cfg.w, t) && t.parser == Default && t1 == CarriageReturn(cfg.w, t)
    ensures AcceptsAll(cfg, t, [CR, LF]) && t1.hosted.screen.normal != []
    ensures PushedBy(cfg, t, [CR, LF]) == IndexPushes(t1)
  {
    hide Ready, AcceptsAll, FeedAll, PushedBy, CarriageReturn, IndexPushes;
    ReadyHasRows(cfg.w, t1);
    FeedControl(cfg, t, CR);
    FeedControl(cfg, t1, LF);
    FeedTwo(cfg, t, [CR], [LF]);
    assert [CR] + [LF] == [CR, LF];
    PushedByTwo(cfg, t, [CR], [LF]);
    OnePushes(cfg, t, CR);
    OnePushes(cfg, t1, LF);
    assert [] + IndexPushes(t1) == IndexPushes(t1);
  }

  lemma FlowingIs(w: Widths, t: Terminal, pushed: seq<Line>)
    requires Flowing(w, t, pushed)
    ensures Ready(w, t) && Plain(t) && AtEnd(t.hosted.screen, pushed)
    ensures |t.hosted.screen.normal| == t.Height() && t.hosted.screen.capacity > 0
    ensures var row := t.hosted.screen.normal[t.Y()]; Led(row.cells) && |row.cells| <= t.Width()
  {
    hide InStep, Whole;
    SteadyIs(w, t.hosted);
  }

  lemma FeedControl(cfg: Config, t: Terminal, c: char)
    requires ConfigOk(cfg) && Ready(cfg.w, t) && t.parser == Default && c < ' '
    ensures Accepts(cfg, t, c) && AcceptsAll(cfg, t, [c]) && FeedAll(cfg, t, [c]) == Control(cfg.w, t, c)
  {
    hide Ready, Control, AcceptsAll, FeedAll;
    FeedOne(cfg, t, c);
  }

  lemma FeedGlyph(cfg: Config, t: Terminal, c: char)
    requires ConfigOk(cfg) && Ready(cfg.w, t) && t.parser == Default && !cfg.isControl(c)
    ensures c != NUL && Accepts(cfg, t, c) && AcceptsAll(cfg, t, [c])
      && FeedAll(cfg, t, [c]) == PutCharacter(cfg.w, t, c)
  {
    hide Ready, PutCharacter, AcceptsAll, FeedAll;
    assert NUL < ' ';
    FeedOne(cfg, t, c);
  }

  /** A glyph that does not fit goes to the next row; the text is the same. */
  lemma WrapWrites(w: Widths, t: Terminal, pushed: seq<Line>) returns (all: seq<Line>)
    requires Flowing(w, t, pushed) && t.X() > 0
    ensures Ready(w, t)
    ensures var r := WrapLine(w, t);
            && Flowing(w, r, all) && pushed <= all && r.X() == 0
            && TextOf(r.hosted.screen, all) == TextOf(t.hosted.screen, pushed)
            && GoesOn(t.hosted.screen, pushed, r.hosted.screen, all, 1)
    ensures t.Y() < |t.hosted.screen.Rows()| && Marked(t).hosted.screen.normal != []
    ensures all == pushed + IndexPushes(Marked(t))
  {
    hide Ready, Index, Flowing, LinesText, GlyphText, IndexPushes, RowOut;
    FlowingIs(w, t, pushed);
    var s := t.hosted.screen;
    WrapIsReady(w, t);
    var t1 := t.(hosted := Wrap(t.hosted, t.Y()));
    var t2 := MoveCursor(t1, 0, t.Y());
    StartOfRowIsReady(w, t1);
    var s2 := t2.hosted.screen;
    assert s2.normal == s.normal[s.y := s.normal[s.y].(wrapped := true)];
    IndexWrites(w, t2, pushed);
    all := pushed + RowOut(s2);
    CloseRow(pushed, s2.normal, s2.y);
    assert s2.normal[..s.y] == s.normal[..s.y];
    assert GlyphText(s.normal[s.y].cells) + "" == GlyphText(s.normal[s.y].cells);
  }

  lemma WrapIsReady(w: Widths, t: Terminal)
    requires Ready(w, t)
    ensures t.Y() < |t.hosted.screen.Rows()| && Ready(w, t.(hosted := Wrap(t.hosted, t.Y())))
  {
    hide Steady;
    WrapIsSteady(w, t.hosted, t.Y());
  }

  lemma StartOfRowIsReady(w: Widths, t: Terminal)
    requires Ready(w, t)
    ensures Ready(w, MoveCursor(t, 0, t.Y()))
  {
    CursorIsReady(w, t, 0, t.Y());
  }

  /** A glyph that fits is appended to the row of the cursor. */
  lemma PutWrites(w: Widths, t: Terminal, pushed: seq<Line>, c: char)
    requires Flowing(w, t, pushed) && c != NUL && 1 <= w(c) <= 2 && t.X() + w(c) <= t.Width()
    ensures Ready(w, t)
    ensures var r := PutHere(w, t, c);
            && Flowing(w, r, pushed) && TextOf(r.hosted.screen, pushed) == TextOf(t.hosted.screen, pushed) + [c]
            && r.X() == t.X() + w(c) && GoesOn(t.hosted.screen, pushed, r.hosted.screen, pushed, 0)
  {
    hide Ready, Flowing, LinesText, GlyphText, Rows.Glyph, Put;
    FlowingIs(w, t, pushed);
    var s, r := t.hosted.screen, PutHere(w, t, c);
    var row, cell := s.normal[s.y], Cell(c, s.attribute);
    PutAppends(row.cells, cell, w(c), s.width);
    assert Put(row.cells, s.x, cell, w(c), s.width, t.insert) == row.cells + Rows.Glyph(cell, w(c));
    assert r.hosted.screen == s.(normal := s.normal[s.y := row.(cells := row.cells + Rows.Glyph(cell, w(c)))],
      x := s.x + w(c));
    TextOfGlyph(cell, w(c));
    GlyphTextOfTwo(row.cells, Rows.Glyph(cell, w(c)));
    assert r.hosted.screen.normal[..s.y] == s.normal[..s.y];
    Selections.Regroup(LinesText(pushed + s.normal[..s.y]), GlyphText(row.cells), [c]);
    assert Flowing(w, r, pushed) by { MakeFlowing(w, r, pushed); }
  }

  lemma MakeFlowing(w: Widths, t: Terminal, pushed: seq<Line>)
    requires Ready(w, t) && Plain(t) && AtEnd(t.hosted.screen, pushed)
    ensures Flowing(w, t, pushed)
  {
  }

  lemma GlyphWrites(cfg: Config, t: Terminal, pushed: seq<Line>, c: char) returns (all: seq<Line>)
    requires ConfigOk(cfg) && Flowing(cfg.w, t, pushed) && Typeable(cfg, Glyph(c))
    ensures AcceptsAll(cfg, t, [c])
    ensures var r := FeedAll(cfg, t, [c]);
            && Flowing(cfg.w, r, all) && pushed <= all
            && TextOf(r.hosted.screen, all) == TextOf(t.hosted.screen, pushed) + [c]
            && (if t.X() + cfg.w(c) > t.Width() then
                  GoesOn(t.hosted.screen, pushed, r.hosted.screen, all, 1) && r.X() == cfg.w(c)
                else
                  GoesOn(t.hosted.screen, pushed, r.hosted.screen, all, 0) && r.X() == t.X() + cfg.w(c))
            && all == pushed + PushedBy(cfg, t, [c])
  {
    hide Ready, Flowing, WrapLine, PutHere, AcceptsAll, FeedAll, TextOf, PushedBy, IndexPushes;
    var w := cfg.w;
    FlowingIs(w, t, pushed);
    FeedGlyph(cfg, t, c);
    OnePushes(cfg, t, c);
    if t.X() + w(c) > t.Width() {
      all := WrapWrites(w, t, pushed);
      var t1 := WrapLine(w, t);
      FlowingIs(w, t1, all);
      PutWrites(w, t1, all, c);
      GoesOnTwice(t.hosted.screen, pushed, t1.hosted.screen, all, PutHere(w, t1, c).hosted.screen, all, 1, 0);
    } else {
      all := pushed;
      PutWrites(w, t, pushed, c);
      assert pushed + [] == pushed;
    }
  }

  // Whole texts.

  /** How often the cursor goes on to another row while a text is typed from column x on. */
  function Breaks(w: Widths, ps: seq<Piece>, x: nat, width: nat): nat {
    if ps == [] then 0
    else
      match ps[0]
      case NewLine => 1 + Breaks(w, ps[1..], 0, width)
      case Glyph(c) =>
        if x + w(c) > width then 1 + Breaks(w, ps[1..], w(c), width) else Breaks(w, ps[1..], x + w(c), width)
  }

  /** The rows a text takes. */
  function RowsTaken(w: Widths, ps: seq<Piece>, width: nat): nat {
    Breaks(w, ps, 0, width) + 1
  }

  /** Whether a piece goes on to another row, and where it leaves the cursor. */
  function Break(w: Widths, p: Piece, x: nat, width: nat): nat {
    if p.NewLine? || x + w(p.c) > width then 1 else 0
  }

  function ColumnAfter(w: Widths, p: Piece, x: nat, width: nat): nat {
    if p.NewLine? then 0 else if x + w(p.c) > width then w(p.c) else x + w(p.c)
  }

  lemma BreaksStep(w: Widths, ps: seq<Piece>, x: nat, width: nat)
    requires ps != []
    ensures Breaks(w, ps, x, width)
         == Break(w, ps[0], x, width) + Breaks(w, ps[1..], ColumnAfter(w, ps[0], x, width), width)
  {
  }

  function CharOf(p: Piece): char {
    if p.Glyph? then p.c else '\n'
  }

  lemma PieceWrites(cfg: Config, t: Terminal, pushed: seq<Line>, p: Piece) returns (all: seq<Line>)
    requires ConfigOk(cfg) && Flowing(cfg.w, t, pushed) && Typeable(cfg, p)
    ensures Ready(cfg.w, t) && AcceptsAll(cfg, t, Keys(p))
    ensures var r := FeedAll(cfg, t, Keys(p));
            && Flowing(cfg.w, r, all) && pushed <= all && r.Width() == t.Width()
            && TextOf(r.hosted.screen, all) == TextOf(t.hosted.screen, pushed) + [CharOf(p)]
            && GoesOn(t.hosted.screen, pushed, r.hosted.screen, all, Break(cfg.w, p, t.X(), t.Width()))
            && r.X() == ColumnAfter(cfg.w, p, t.X(), t.Width())
            && all == pushed + PushedBy(cfg, t, Keys(p))
  {
    hide Ready, Flowing, AcceptsAll, FeedAll, TextOf, PushedBy, GoesOn, Last;
    FlowingIs(cfg.w, t, pushed);
    if p.Glyph? {
      all := GlyphWrites(cfg, t, pushed, p.c);
    } else {
      all := NewLineWrites(cfg, t, pushed);
    }
    TextIsLogged(cfg, t, Keys(p));
  }

  lemma {:induction false} TypedIsWritten(cfg: Config, t: Terminal, pushed: seq<Line>, ps: seq<Piece>)
    returns (all: seq<Line>)
    requires ConfigOk(cfg) && Flowing(cfg.w, t, pushed) && forall i :: 0 <= i < |ps| ==> Typeable(cfg, ps[i])
    ensures Ready(cfg.w, t) && AcceptsAll(cfg, t, Typed(ps))
    ensures var r := FeedAll(cfg, t, Typed(ps));
            && Flowing(cfg.w, r, all) && pushed <= all
            && TextOf(r.hosted.screen, all) == TextOf(t.hosted.screen, pushed) + Meant(ps)
            && GoesOn(t.hosted.screen, pushed, r.hosted.screen, all, Breaks(cfg.w, ps, t.X(), t.Width()))
            && all == pushed + PushedBy(cfg, t, Typed(ps))
    decreases |ps|
  {
    FlowingIs(cfg.w, t, pushed);
    if ps == [] {
      all := pushed;
      hide Ready, Flowing, AcceptsAll, FeedAll, TextOf, PushedBy;
      FeedNothing(cfg, t);
      assert TextOf(t.hosted.screen, pushed) + "" == TextOf(t.hosted.screen, pushed);
      assert pushed + [] == pushed;
    } else {
      hide Ready, Flowing, AcceptsAll, FeedAll, TextOf, Typeable, PushedBy, GoesOn, Breaks, Break, ColumnAfter, Keys,
        CharOf;
      var next := PieceWrites(cfg, t, pushed, ps[0]);
      var t1 := FeedAll(cfg, t, Keys(ps[0]));
      all := TypedIsWritten(cfg, t1, next, ps[1..]);
      FeedTwo(cfg, t, Keys(ps[0]), Typed(ps[1..]));
      PushedByTwo(cfg, t, Keys(ps[0]), Typed(ps[1..]));
      Append(pushed, PushedBy(cfg, t, Keys(ps[0])), PushedBy(cfg, t1, Typed(ps[1..])));
      Selections.Regroup(TextOf(t.hosted.screen, pushed), [CharOf(ps[0])], Meant(ps[1..]));
      MeantStep(ps);
      BreaksStep(cfg.w, ps, t.X(), t.Width());
      GoesOnTwice(t.hosted.screen, pushed, t1.hosted.screen, next, FeedAll(cfg, t1, Typed(ps[1..])).hosted.screen, all,
                  Break(cfg.w, ps[0], t.X(), t.Width()), Breaks(cfg.w, ps[1..], t1.X(), t1.Width()));
    }
    FlowingIs(cfg.w, FeedAll(cfg, t, Typed(ps)), all);
  }

  lemma MeantStep(ps: seq<Piece>)
    requires ps != []
    ensures Meant(ps) == [CharOf(ps[0])] + Meant(ps[1..])
  {
  }

  lemma Append(a: seq<Line>, b: seq<Line>, c: seq<Line>)
    ensures (a + b) + c == a + (b + c)
  {
  }

  lemma FeedNothing(cfg: Config, t: Terminal)
    requires ConfigOk(cfg) && Ready(cfg.w, t)
    ensures AcceptsAll(cfg, t, "") && FeedAll(cfg, t, "") == t && PushedBy(cfg, t, "") == []
  {
  }

  /** What copying from the start of the log up to the cursor gives. */
  lemma CopyToCursor(s: Screen)
    requires !s.onAlternate && s.y < |s.normal| && s.x == |s.normal[s.y].cells|
    ensures var lines, y := s.Content(), |s.log| + s.y;
            && IsPlace(lines, 0, 0) && IsPlace(lines, s.x, y) && Before(0, 0, s.x, y)
            && TextBetween(lines, 0, 0, s.x, y) == LinesText(s.log + s.normal[..s.y]) + GlyphText(s.normal[s.y].cells)
  {
    var lines, y := s.Content(), |s.log| + s.y;
    var before := s.log + s.normal[..s.y];
    assert lines[..y] == before && lines[y] == s.normal[s.y];
    assert lines[y].cells[..s.x] == lines[y].cells;
    if y > 0 {
      assert lines[0] == before[0] && lines[0].(cells := lines[0].cells[0..]) == lines[0];
      assert lines[1..y] == before[1..];
    } else {
      assert lines[0].cells[0..s.x] == lines[0].cells;
    }
  }

  lemma HasSomeText(lines: seq<Line>)
    requires AllHaveText(lines) && lines != []
    ensures LinesText(lines) != ""
  {
    if lines[0].wrapped {
      assert GlyphText(lines[0].cells) != "";
    }
  }

  /** The log follows the rows that have left it. */
  function Evicted(all: seq<Line>, capacity: nat): (r: seq<Line>)
    ensures r + Last(all, capacity) == all
  {
    all[..|all| - |Last(all, capacity)|]
  }

  /** All rows pushed, the log and the screen up to the cursor together are the text; the copy is it only if it fits. */
  ghost predicate CopiesBack(s: Screen, all: seq<Line>, text: string, fits: bool) {
    var lines, y := s.Content(), |s.log| + s.y;
    && s.log == Last(all, s.capacity)
    && IsPlace(lines, s.x, y) && IsPlace(lines, 0, 0) && Before(0, 0, s.x, y)
    && LinesText(Evicted(all, s.capacity)) + TextBetween(lines, 0, 0, s.x, y) == text
    && (TextBetween(lines, 0, 0, s.x, y) == text <==> fits)
  }

  /**
   Typing glyphs and new lines on a terminal just made, and copying everything up to the cursor, gives
   the text typed exactly if the rows the text takes have room in log and screen. Otherwise it gives
   the text from the oldest row kept on: before it were the first rows of those pushed off the screen,
   whose number is what the text takes beyond the height.
   */
  lemma PrintThenCopy(cfg: Config, t: Terminal, ps: seq<Piece>)
    requires ConfigOk(cfg) && Flowing(cfg.w, t, []) && t.X() == 0 && t.Y() == 0
    requires forall i :: 0 <= i < |ps| ==> Typeable(cfg, ps[i])
    ensures Ready(cfg.w, t) && AcceptsAll(cfg, t, Typed(ps))
    ensures var s, rows := FeedAll(cfg, t, Typed(ps)).hosted.screen, RowsTaken(cfg.w, ps, t.Width());
            var all := PushedBy(cfg, t, Typed(ps));
            && |all| == (if rows <= t.Height() then 0 else rows - t.Height())
            && CopiesBack(s, all, Meant(ps), rows <= t.hosted.screen.capacity + t.Height())
  {
    TypedFromTheStart(cfg, t, ps);
    var s, all := FeedAll(cfg, t, Typed(ps)).hosted.screen, PushedBy(cfg, t, Typed(ps));
    var n := Breaks(cfg.w, ps, 0, t.Width());
    hide *;
    RowsAre(t.hosted.screen, s, all, n);
    TypedIsCopied(s, all, Meant(ps), n + 1 <= t.hosted.screen.capacity + t.Height());
    assert RowsTaken(cfg.w, ps, t.Width()) == n + 1 by { RowsTakenIs(cfg.w, ps, t.Width()); }
  }

  lemma RowsTakenIs(w: Widths, ps: seq<Piece>, width: nat)
    ensures RowsTaken(w, ps, width) == Breaks(w, ps, 0, width) + 1
  {
  }

  lemma TypedFromTheStart(cfg: Config, t: Terminal, ps: seq<Piece>)
    requires ConfigOk(cfg) && Flowing(cfg.w, t, []) && t.X() == 0 && t.Y() == 0
    requires forall i :: 0 <= i < |ps| ==> Typeable(cfg, ps[i])
    ensures Ready(cfg.w, t) && AcceptsAll(cfg, t, Typed(ps))
    ensures var s, all := FeedAll(cfg, t, Typed(ps)).hosted.screen, PushedBy(cfg, t, Typed(ps));
            && AtEnd(s, all) && TextOf(s, all) == Meant(ps)
            && GoesOn(t.hosted.screen, [], s, all, Breaks(cfg.w, ps, 0, t.Width()))
            && |t.hosted.screen.normal| == t.Height() && s.capacity == t.hosted.screen.capacity
  {
    FlowingIs(cfg.w, t, []);
    StartsEmpty(t);
    hide Ready, AcceptsAll, FeedAll, Flowing, PushedBy, GoesOn, Breaks, AtEnd, TextOf, Typeable, Last;
    var all := TypedIsWritten(cfg, t, [], ps);
    assert [] + PushedBy(cfg, t, Typed(ps)) == PushedBy(cfg, t, Typed(ps));
    FlowingIs(cfg.w, FeedAll(cfg, t, Typed(ps)), all);
    TextIsLogged(cfg, t, Typed(ps));
    assert "" + Meant(ps) == Meant(ps);
  }

  lemma StartsEmpty(t: Terminal)
    requires AtEnd(t.hosted.screen, []) && t.X() == 0 && t.Y() == 0
    ensures TextOf(t.hosted.screen, []) == ""
  {
    assert [] + t.hosted.screen.normal[..0] == [];
  }

  /** How many rows there are in all, and whether all of them can be kept. */
  lemma RowsAre(s: Screen, r: Screen, all: seq<Line>, n: nat)
    requires GoesOn(s, [], r, all, n) && s.y == 0 && AtEnd(r, all)
    ensures var height := |s.normal|;
            && |all| == (if n + 1 <= height then 0 else n + 1 - height)
            && (|all| == |r.log| <==> n + 1 <= r.capacity + height)
  {
  }

  lemma TypedIsCopied(s: Screen, all: seq<Line>, text: string, fits: bool)
    requires AtEnd(s, all) && TextOf(s, all) == text && (fits <==> |all| == |s.log|)
    ensures CopiesBack(s, all, text, fits)
  {
    hide LinesText, GlyphText, TextBetween, Last, AllHaveText;
    CopyToCursor(s);
    var evicted, rest := Evicted(all, s.capacity), s.log + s.normal[..s.y];
    assert evicted + s.log == all;
    assert all + s.normal[..s.y] == evicted + rest;
    LinesTextOfTwo(evicted, rest);
    Selections.Regroup(LinesText(evicted), LinesText(rest), GlyphText(s.normal[s.y].cells));
    NoLines();
    if evicted != [] {
      assert AllHaveText(evicted) by { FirstHaveText(all, |evicted|); }
      HasSomeText(evicted);
    }
  }

  lemma FirstHaveText(lines: seq<Line>, n: nat)
    requires AllHaveText(lines) && n <= |lines|
    ensures AllHaveText(lines[..n])
  {
  }

  lemma NoLines()
    ensures LinesText([]) == "" && GlyphText([]) == ""
  {
  }

  /** A terminal just made is one to type on. */
  lemma FreshFlows(
    cfg: Config, capacity: nat, width: nat, height: nat, unit: nat, contents: seq<Strip>, a: Saved, b: Saved)
    requires ConfigOk(cfg) && capacity > 0 && width >= 2 && height > 0 && unit > 0
    ensures var t := Initial(capacity, width, height, unit, |contents|, contents, a, b);
            Flowing(cfg.w, t, []) && t.X() == 0 && t.Y() == 0
  {
    hide Sound, StripAt, Stops;
    FreshIsSound(cfg.w, capacity, width, height, a, b);
    NoLines();
    assert [] + Empties(height)[..0] == [];
  }
}
