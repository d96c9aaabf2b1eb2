/**
 What the control sequences do to the scroll region, to the tab stops, to the modes and to the
 attribute, as they are written.
 */
module RegionEffects {
  import opened Rows
  import opened Damage
  import opened Screens
  import opened ScreenShape
  import opened ScreenSteps
  import opened TerminalModel
  import opened TerminalRuns
  import opened TerminalEffects
  import opened ControlSequences
  import opened SequenceEffects

  // Scrolling.

  /** Rows y to y + n have moved up by d, or down by as much, and those moved in are empty. */
  ghost predicate Scrolled(was: seq<Line>, now: seq<Line>, y: nat, n: nat, d: int) {
    && |now| == |was| && y + n <= |was|
    && forall i :: 0 <= i < |was| ==>
         now[i] == if !(y <= i < y + n) then was[i] else if y <= i + d < y + n then was[i + d] else EMPTY
  }

  /** Of the screen in use rows y to y + n are scrolled, and the cursor is in column x; nothing else is changed. */
  ghost predicate RegionScrolled(t: Terminal, r: Terminal, y: nat, n: nat, d: int, x: nat) {
    && r == t.(hosted := r.hosted)
    && r.hosted.screen == t.hosted.screen.WithRows(r.hosted.screen.Rows()).(x := x)
    && Scrolled(t.hosted.screen.Rows(), r.hosted.screen.Rows(), y, n, d)
  }

  lemma UpScrolls(rows: seq<Line>, y: nat, n: nat, d: nat)
    requires y + n <= |rows| && d <= n
    ensures Scrolled(rows, Up(rows, y, n, d), y, n, d)
  {
  }

  lemma DownScrolls(rows: seq<Line>, y: nat, n: nat, d: nat)
    requires y + n <= |rows| && d <= n
    ensures Scrolled(rows, Down(rows, y, n, d), y, n, 0 - d)
  {
  }

  lemma WithRowsScrolls(t: Terminal, r: Terminal, rows: seq<Line>, y: nat, n: nat, d: int, x: nat)
    requires Scrolled(t.hosted.screen.Rows(), rows, y, n, d) && r == t.(hosted := r.hosted)
    requires r.hosted.screen == t.hosted.screen.WithRows(rows).(x := x)
    ensures RegionScrolled(t, r, y, n, d, x)
  {
  }

  /** The rows of the region from the cursor on, if it is in the region, are scrolled. */
  ghost predicate RestScrolled(t: Terminal, r: Terminal, n: nat, up: bool) {
    if !InRegion(t) then r == t
    else
      var rest := t.begin + t.size - t.Y();
      var d := Min(n, rest);
      RegionScrolled(t, r, t.Y(), rest, if up then d else -d, 0)
  }

  /** What S, T, L and M do with n: the region, or its rows from the cursor on. */
  ghost predicate ScrolledAs(t: Terminal, r: Terminal, n: nat, c: char) {
    && (c == 'S' ==> RegionScrolled(t, r, t.begin, t.size, Min(n, t.size), t.X()))
    && (c == 'T' ==> RegionScrolled(t, r, t.begin, t.size, 0 - Min(n, t.size), t.X()))
    && (c == 'L' ==> RestScrolled(t, r, n, false))
    && (c == 'M' ==> RestScrolled(t, r, n, true))
  }

  lemma ScrollSequence(w: Widths, t: Terminal, n: nat, c: char)
    requires Ready(w, t) && n == Parameter(t, 0, 1) && (c == 'S' || c == 'T')
    ensures ScrolledAs(t, Sequence(w, t, c), n, c)
  {
    MarginsAreIn(w, t);
    RegionSequence(w, t, c);
    ReadyHasRows(w, t);
    hide Ready, Sequence, Up, Down, ScrollRegionUp, ScrollRegionDown, RegionScrolled, Scrolled, Parameter;
    TerminalEffects.RegionMoves(w, t, t.begin, t.size, n);
    LeastIsMin(n, t.size);
    var rows, r := t.hosted.screen.Rows(), Sequence(w, t, c);
    var d: int := Least(n, t.size);
    assert t.hosted.screen.WithRows(Up(rows, t.begin, t.size, d)).x == t.X();
    assert t.hosted.screen.WithRows(Down(rows, t.begin, t.size, d)).x == t.X();
    if c == 'S' {
      UpScrolls(rows, t.begin, t.size, d);
      WithRowsScrolls(t, r, Up(rows, t.begin, t.size, d), t.begin, t.size, d, t.X());
    } else {
      DownScrolls(rows, t.begin, t.size, d);
      WithRowsScrolls(t, r, Down(rows, t.begin, t.size, d), t.begin, t.size, 0 - d, t.X());
    }
  }

  lemma InsertLineScrolls(w: Widths, t: Terminal, n: nat, d: int)
    requires Ready(w, t) && Asked(t, n, d)
    ensures RegionScrolled(t, InsertLine(w, t), t.Y(), n, -d, 0)
  {
    hide Ready, Down, InsertLine, RegionScrolled, Scrolled, ScrollsBelow;
    InsertLineMoves(w, t, InsertLine(w, t), n, d);
    DownScrolls(t.hosted.screen.Rows(), t.Y(), n, d);
    BelowScrolls(t, InsertLine(w, t), Down(t.hosted.screen.Rows(), t.Y(), n, d), n, -d);
  }

  lemma DeleteLineScrolls(w: Widths, t: Terminal, n: nat, d: int)
    requires Ready(w, t) && Asked(t, n, d)
    ensures RegionScrolled(t, DeleteLine(w, t), t.Y(), n, d, 0)
  {
    hide Ready, Up, DeleteLine, RegionScrolled, Scrolled, ScrollsBelow;
    DeleteLineMoves(w, t, DeleteLine(w, t), n, d);
    UpScrolls(t.hosted.screen.Rows(), t.Y(), n, d);
    BelowScrolls(t, DeleteLine(w, t), Up(t.hosted.screen.Rows(), t.Y(), n, d), n, d);
  }

  lemma OutsideStays(w: Widths, t: Terminal)
    requires Ready(w, t) && !InRegion(t)
    ensures InsertLine(w, t) == t && DeleteLine(w, t) == t
  {
    hide Ready, ScrollRegionUp, ScrollRegionDown;
  }

  lemma InsertLineIs(w: Widths, t: Terminal, n: nat)
    requires Ready(w, t) && n == Parameter(t, 0, 1)
    ensures RestScrolled(t, InsertLine(w, t), n, false)
  {
    hide Ready, InsertLine, RegionScrolled, Parameter;
    MarginsAreIn(w, t);
    if InRegion(t) {
      var rest := t.begin + t.size - t.Y();
      InsertLineScrolls(w, t, rest, Min(n, rest));
    } else {
      OutsideStays(w, t);
    }
  }

  lemma DeleteLineIs(w: Widths, t: Terminal, n: nat)
    requires Ready(w, t) && n == Parameter(t, 0, 1)
    ensures RestScrolled(t, DeleteLine(w, t), n, true)
  {
    hide Ready, DeleteLine, RegionScrolled, Parameter;
    MarginsAreIn(w, t);
    if InRegion(t) {
      var rest := t.begin + t.size - t.Y();
      DeleteLineScrolls(w, t, rest, Min(n, rest));
    } else {
      OutsideStays(w, t);
    }
  }

  lemma LineSequence(w: Widths, t: Terminal, n: nat, c: char)
    requires Ready(w, t) && n == Parameter(t, 0, 1) && (c == 'L' || c == 'M')
    ensures ScrolledAs(t, Sequence(w, t, c), n, c)
  {
    RegionSequence(w, t, c);
    hide Ready, Sequence, InsertLine, DeleteLine, RestScrolled, ScrollRegionUp, ScrollRegionDown, Parameter;
    if c == 'L' {
      InsertLineIs(w, t, n);
    } else {
      DeleteLineIs(w, t, n);
    }
  }

  lemma BelowScrolls(t: Terminal, r: Terminal, rows: seq<Line>, n: nat, d: int)
    requires ScrollsBelow(t, r, rows) && Scrolled(t.hosted.screen.Rows(), rows, t.Y(), n, d)
    ensures RegionScrolled(t, r, t.Y(), n, d, 0)
  {
    hide Scrolled;
    WithRowsScrolls(t, r, rows, t.Y(), n, d, 0);
  }

  lemma ScrollForgets(t: Terminal, u: Terminal, r: Terminal, n: nat, c: char)
    requires ScrolledAs(u, r, n, c) && Forget(u, t) == t
    ensures ScrolledAs(t, Forget(r, t), n, c)
  {
    hide Scrolled;
  }

  /** Scrolling the region by as many rows as asked for, up and down; inserting and deleting lines at the cursor. */
  lemma RegionIsScrolled(cfg: Config, t: Terminal, kind: Kind, ps: seq<int>, c: char)
    requires Can(cfg, t, kind, ps, c) && (c == 'S' || c == 'T' || c == 'L' || c == 'M')
    ensures ScrolledAs(t, Outcome(cfg, t, kind, ps, c), Value(ps, 0, 1), c)
  {
    var u := Reads(t, kind, ps);
    SamePlaces(t, kind, ps, 'A');
    OutcomeIs(cfg, t, kind, ps, c, u);
    ValueIs(t, kind, ps, 0, 1);
    hide Can, Sequence, Value, Parameter, Outcome, ScrolledAs, Ready, Reads, Forget;
    if c == 'S' || c == 'T' {
      ScrollSequence(cfg.w, u, Value(ps, 0, 1), c);
    } else {
      LineSequence(cfg.w, u, Value(ps, 0, 1), c);
    }
    ScrollForgets(t, u, Sequence(cfg.w, u, c), Value(ps, 0, 1), c);
  }

  // Margins and tab stops.

  /** The margins asked for: at least two rows, by default the whole screen; and the cursor at its top. */
  ghost predicate MarginsSet(t: Terminal, r: Terminal, p: int, q: int) {
    var first := Min(p, t.Height() - 1) - 1;
    var last := Max(if q < 0 then t.Height() else q, first + 2);
    && 0 <= first < last <= t.Height()
    && r == MoveCursor(t.(begin := first, size := last - first), 0, if t.origin then first else 0)
  }

  lemma RegionIsSet(w: Widths, t: Terminal)
    requires Ready(w, t) && RegionFits(t)
    ensures MarginsSet(t, Sequence(w, t, 'r'), Parameter(t, 0, 1), Parameter(t, 1, -1))
  {
    hide Ready, Parameter;
    SetRegionIs(w, t);
    ReadyHasRows(w, t);
    RegionIsInsideIff(t);
    hide Sequence, RegionFits;
  }

  lemma SetRegionIs(w: Widths, t: Terminal)
    requires Ready(w, t) && RegionFits(t)
    ensures RegionBegin(t) >= 0 && RegionEnd(t) >= RegionBegin(t)
    ensures Sequence(w, t, 'r')
         == MoveCursor(t.(begin := RegionBegin(t), size := RegionEnd(t) - RegionBegin(t)), 0,
              if t.origin then RegionBegin(t) else 0)
  {
    hide Ready, RegionFits, RegionBegin, RegionEnd;
    ReadyHasRows(w, t);
    RegionIsInsideIff(t);
  }

  lemma MarginsForget(t: Terminal, u: Terminal, r: Terminal, p: int, q: int)
    requires MarginsSet(u, r, p, q) && Forget(u, t) == t
    ensures MarginsSet(t, Forget(r, t), p, q)
  {
  }

  lemma MarginsAreSet(cfg: Config, t: Terminal, kind: Kind, ps: seq<int>)
    requires Can(cfg, t, kind, ps, 'r')
    ensures MarginsSet(t, Outcome(cfg, t, kind, ps, 'r'), Value(ps, 0, 1), Value(ps, 1, -1))
  {
    var u := Reads(t, kind, ps);
    hide Can, Ready, Sequence, Value, Parameter, Outcome, MarginsSet, RegionFits;
    SamePlaces(t, kind, ps, 'A');
    OutcomeIs(cfg, t, kind, ps, 'r', u);
    ValueIs(t, kind, ps, 0, 1);
    ValueIs(t, kind, ps, 1, -1);
    hide Reads, Forget;
    RegionIsSet(cfg.w, u);
    MarginsForget(t, u, Sequence(cfg.w, u, 'r'), Value(ps, 0, 1), Value(ps, 1, -1));
  }

  /** The stop at the cursor is cleared, or all of them. */
  ghost predicate StopsCleared(t: Terminal, r: Terminal, p: int) {
    && r == t.(tabs := r.tabs) && |r.tabs| == |t.tabs|
    && forall i :: 0 <= i < |r.tabs| ==>
         r.tabs[i] == (t.tabs[i] && p != 3 && !(p == 0 && i == t.X() && i < t.Width()))
  }

  lemma StopsAre(w: Widths, t: Terminal)
    requires Ready(w, t)
    ensures StopsCleared(t, Sequence(w, t, 'g'), Parameter(t, 0, 0))
  {
    hide Ready, Parameter;
    ReadyHasWidth(w, t);
    assert Sequence(w, t, 'g') == TabClear(t) by { hide TabClear; }
    hide Sequence;
  }

  lemma StopsForget(t: Terminal, u: Terminal, r: Terminal, p: int)
    requires StopsCleared(u, r, p) && Forget(u, t) == t
    ensures StopsCleared(t, Forget(r, t), p)
  {
  }

  lemma StopsAreCleared(cfg: Config, t: Terminal, kind: Kind, ps: seq<int>)
    requires Can(cfg, t, kind, ps, 'g')
    ensures StopsCleared(t, Outcome(cfg, t, kind, ps, 'g'), Value(ps, 0, 0))
  {
    var u := Reads(t, kind, ps);
    hide Can, Ready, Sequence, Value, Parameter, Outcome, StopsCleared;
    SamePlaces(t, kind, ps, 'A');
    OutcomeIs(cfg, t, kind, ps, 'g', u);
    ValueIs(t, kind, ps, 0, 0);
    hide Reads, Forget;
    StopsAre(cfg.w, u);
    StopsForget(t, u, Sequence(cfg.w, u, 'g'), Value(ps, 0, 0));
  }

  /** The final characters that stand for something else than a motion. */
  predicate IsOther(c: char) {
    || c == '@' || ('J' <= c <= 'M') || c == 'P' || c == 'S' || c == 'T' || c == 'X'
    || c == 'g' || c == 'h' || c == 'l' || c == 'm' || c == 'r'
  }

  lemma NothingIsDone(w: Widths, t: Terminal, c: char)
    requires Ready(w, t) && !IsMotion(c) && !IsOther(c)
    ensures Sequence(w, t, c) == t
  {
    hide Ready;
  }

  /** No other final character does anything. */
  lemma OthersDoNothing(cfg: Config, t: Terminal, kind: Kind, ps: seq<int>, c: char)
    requires Can(cfg, t, kind, ps, c) && !IsMotion(c) && !IsOther(c)
    ensures Outcome(cfg, t, kind, ps, c) == t
  {
    var u := Reads(t, kind, ps);
    hide Can, Ready, Outcome, Sequence;
    OutcomeIs(cfg, t, kind, ps, c, u);
    SamePlaces(t, kind, ps, 'A');
    NothingIsDone(cfg.w, u, c);
  }
}
