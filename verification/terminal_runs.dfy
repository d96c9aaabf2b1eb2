/**
 The terminal in its window over whole runs: text read from the program, redraws, scrolling back,
 focus changes and resizing, in any order (vt/window.cc).
 */
module TerminalRuns {
  import opened Rows
  import opened Damage
  import opened Screens
  import opened ScreenShape
  import opened ScreenSteps
  import opened Drawing
  import opened TerminalModel

  datatype Event =
    | Read(text: string)
    | Frame
    | MoveView(position: int)
    | Focus(on: bool)
    | Map(width: nat, height: nat, pixels: nat, contents: seq<Strip>)

  datatype System = System(t: Terminal, focused: bool)

  // Between events the window shows the cursor as well.

  ghost predicate ShowsCursor(s: System) {
    s.t.Y() < |s.t.hosted.screen.Rows()| && Shows(s.t.hosted.view, CursorPicture(s.t.hosted.screen, s.focused))
  }

  ghost predicate Placed(s: System) {
    0 <= s.t.hosted.view.position <= |s.t.hosted.screen.log| * s.t.hosted.view.unit
  }

  /** Rows sound, cursor and margins in place, and every valid line what a full redraw would put there. */
  ghost predicate Inv(cfg: Config, s: System) {
    && WidthsOk(cfg.w) && Sound(cfg.w, s.t.hosted.screen)
    && MarginsOk(s.t) && CursorOk(s.t) && |s.t.tabs| >= s.t.Width()
    && ShowsCursor(s) && Placed(s)
  }

  /** The row of the cursor is to be drawn again. */
  function Touch(t: Terminal): Terminal {
    t.(hosted := Redraw(t.hosted, t.Y(), 1))
  }

  /** With or without a cursor, the picture is the same but for the row of the cursor. */
  lemma CursorRowDiffers(s: Screen, focused: bool)
    requires s.y < |s.Rows()|
    ensures SameOutside(CursorPicture(s, focused), Picture(s), s.y + |s.log|, 1)
    ensures SameOutside(Picture(s), CursorPicture(s, focused), s.y + |s.log|, 1)
  {
  }

  lemma TouchLeavesCursor(cfg: Config, s: System)
    requires Inv(cfg, s)
    ensures Ready(cfg.w, Touch(s.t))
  {
    hide Shows, Sound, Picture, CursorPicture, Invalidate, SameOutside;
    var h := s.t.hosted;
    CursorRowDiffers(h.screen, s.focused);
    InvalidateShows(h.view, |h.screen.log|, s.t.Y(), 1, CursorPicture(h.screen, s.focused), Picture(h.screen));
    assert Proper(h.view) by { ShowsIsProper(h.view, CursorPicture(h.screen, s.focused)); }
    RedrawIsProper(h, s.t.Y(), 1);
    SoundHasWidth(cfg.w, h.screen);
  }

  lemma SoundHasWidth(w: Widths, s: Screen)
    requires Sound(w, s)
    ensures s.width > 0 && |s.Rows()| == s.height
  {
  }

  /** Whatever the focus has become. */
  lemma TouchShowsCursor(cfg: Config, t: Terminal, focused: bool)
    requires Ready(cfg.w, t)
    ensures Inv(cfg, System(Touch(t), focused))
  {
    hide Shows, Sound, Picture, CursorPicture, Invalidate, SameOutside;
    var h := t.hosted;
    SoundHasWidth(cfg.w, h.screen);
    CursorRowDiffers(h.screen, focused);
    InvalidateShows(h.view, |h.screen.log|, t.Y(), 1, Picture(h.screen), CursorPicture(h.screen, focused));
    assert Proper(h.view) by { ShowsIsProper(h.view, Picture(h.screen)); }
    RedrawIsProper(h, t.Y(), 1);
  }

  // Reading text.

  /** Every character is one the terminal can take. */
  ghost predicate AcceptsAll(cfg: Config, t: Terminal, text: string)
    requires ConfigOk(cfg) && Ready(cfg.w, t)
    decreases |text|
  {
    text == [] || (Accepts(cfg, t, text[0]) && AcceptsAll(cfg, Feed(cfg, t, text[0]), text[1..]))
  }

  function FeedAll(cfg: Config, t: Terminal, text: string): (r: Terminal)
    requires ConfigOk(cfg) && Ready(cfg.w, t) && AcceptsAll(cfg, t, text)
    ensures Ready(cfg.w, r)
    decreases |text|
  {
    if text == [] then t else FeedAll(cfg, Feed(cfg, t, text[0]), text[1..])
  }

  // Resizing.

  /** Tab stops are kept for a multiple of eight columns. */
  function TabColumns(width: nat): (r: nat)
    ensures r >= width
  {
    (width + 7) / 8 * 8
  }

  /** t_terminal::f_resize: new tab stops are at every eighth column, and the margins go. */
  function ResizeTerminal(t: Terminal, width: nat, height: nat): Terminal
    requires AllLed(t.hosted.screen)
  {
    var screen := Resize(t.hosted.screen, width, height);
    var m, n := TabColumns(t.Width()), TabColumns(screen.width);
    t.(hosted := t.hosted.(screen := screen), tabs := Stops(t.tabs, if m < n then m else n, n), begin := 0,
      size := screen.height)
  }

  /** The first kept stops, and then every eighth column. */
  function Stops(tabs: seq<bool>, kept: nat, n: nat): (r: seq<bool>)
    ensures |r| == n
  {
    seq(n, i requires 0 <= i < n => if i < kept && i < |tabs| then tabs[i] else i % 8 == 0)
  }

  /** Stops of columns that the old size had are kept, and the others are at every eighth column. */
  lemma ResizeKeepsStops(t: Terminal, width: nat, height: nat, i: nat)
    requires AllLed(t.hosted.screen) && |t.tabs| == TabColumns(t.Width())
    ensures var r := ResizeTerminal(t, width, height);
            && |r.tabs| == TabColumns(r.Width()) && r.begin == 0 && r.size == r.Height()
            && (i < |r.tabs| ==> r.tabs[i] == if i < |t.tabs| then t.tabs[i] else i % 8 == 0)
  {
    hide Resize, AllLed, TabColumns;
  }

  function MapWindow(t: Terminal, width: nat, height: nat, pixels: nat, contents: seq<Strip>): Terminal
    requires AllLed(t.hosted.screen)
  {
    var r := ResizeTerminal(t, width, height);
    r.(hosted := r.hosted.(view := r.hosted.view.(height := pixels, valid := {}, lines := contents)))
  }

  // One event, and runs of them.

  ghost predicate Allowed(cfg: Config, s: System, e: Event)
    requires ConfigOk(cfg) && Inv(cfg, s)
  {
    TouchLeavesCursor(cfg, s);
    match e
    case Read(text) => AcceptsAll(cfg, Touch(s.t), text)
    case Map(_, _, pixels, contents) => |contents| == pixels
    case _ => true
  }

  function WithView(s: System, v: View): System {
    s.(t := s.t.(hosted := s.t.hosted.(view := v)))
  }

  ghost function Step(cfg: Config, s: System, e: Event): System
    requires ConfigOk(cfg) && Inv(cfg, s) && Allowed(cfg, s, e)
  {
    TouchLeavesCursor(cfg, s);
    match e
    case Read(text) => s.(t := Touch(FeedAll(cfg, Touch(s.t), text)))
    case Frame => WithView(s, Redrawn(s.t.hosted.view, CursorPicture(s.t.hosted.screen, s.focused)))
    case MoveView(p) => WithView(s, MoveTo(s.t.hosted.view, |s.t.hosted.screen.log|, p))
    case Focus(on) => System(Touch(s.t), on)
    case Map(w, h, pixels, contents) => s.(t := MapWindow(s.t, w, h, pixels, contents))
  }

  lemma FrameKeepsInv(cfg: Config, s: System)
    requires ConfigOk(cfg) && Inv(cfg, s)
    ensures Allowed(cfg, s, Frame) && Inv(cfg, Step(cfg, s, Frame))
  {
    hide Sound, CursorPicture, StripAt;
  }

  lemma MoveViewKeepsInv(cfg: Config, s: System, position: int)
    requires ConfigOk(cfg) && Inv(cfg, s)
    ensures Allowed(cfg, s, MoveView(position)) && Inv(cfg, Step(cfg, s, MoveView(position)))
  {
    hide Sound, CursorPicture, StripAt, Shows, ScrollLines;
    var v, log := s.t.hosted.view, |s.t.hosted.screen.log|;
    assert |v.lines| == v.height by { ShowsIsProper(v, CursorPicture(s.t.hosted.screen, s.focused)); }
    MoveToShows(v, log, position, CursorPicture(s.t.hosted.screen, s.focused));
    MoveToKeepsUnit(v, log, position);
  }

  lemma MoveToKeepsUnit(v: View, log: nat, position: int)
    requires |v.lines| == v.height
    ensures MoveTo(v, log, position).unit == v.unit
  {
  }

  lemma MapKeepsInv(cfg: Config, s: System, w: nat, h: nat, pixels: nat, contents: seq<Strip>)
    requires ConfigOk(cfg) && Inv(cfg, s) && |contents| == pixels
    ensures Allowed(cfg, s, Map(w, h, pixels, contents)) && Inv(cfg, Step(cfg, s, Map(w, h, pixels, contents)))
  {
    hide Sound, CursorPicture, StripAt, Resize, Stops;
    var screen := s.t.hosted.screen;
    ResizeIsSound(cfg.w, screen, w, h);
    ResizedIs(cfg.w, screen, w, h);
    SoundHasWidth(cfg.w, Resize(screen, w, h));
  }

  lemma ResizedIs(w: Widths, s: Screen, width: nat, height: nat)
    requires WidthsOk(w) && Sound(w, s) && s.y < s.height
    ensures AllLed(s)
    ensures var r := Resize(s, width, height); |r.log| == |s.log| && r.y < r.height
  {
  }

  lemma FocusKeepsInv(cfg: Config, s: System, on: bool)
    requires ConfigOk(cfg) && Inv(cfg, s)
    ensures Allowed(cfg, s, Focus(on)) && Inv(cfg, Step(cfg, s, Focus(on)))
  {
    hide Shows, Sound, Picture, CursorPicture, Invalidate, SameOutside;
    var h := s.t.hosted;
    var was, now := CursorPicture(h.screen, s.focused), CursorPicture(h.screen, on);
    assert SameOutside(was, now, s.t.Y() + |h.screen.log|, 1) by { FocusRowDiffers(h.screen, s.focused, on); }
    InvalidateShows(h.view, |h.screen.log|, s.t.Y(), 1, was, now);
    assert Proper(h.view) by { ShowsIsProper(h.view, was); }
    RedrawIsProper(h, s.t.Y(), 1);
  }

  lemma FocusRowDiffers(s: Screen, was: bool, now: bool)
    requires s.y < |s.Rows()|
    ensures SameOutside(CursorPicture(s, was), CursorPicture(s, now), s.y + |s.log|, 1)
  {
  }

  /** Every event keeps the window right. */
  lemma StepKeepsInv(cfg: Config, s: System, e: Event)
    requires ConfigOk(cfg) && Inv(cfg, s) && Allowed(cfg, s, e)
    ensures Inv(cfg, Step(cfg, s, e))
  {
    hide Inv, Ready, Redrawn, MapWindow, MoveTo, AcceptsAll, FeedAll;
    match e {
      case Read(text) =>
        TouchLeavesCursor(cfg, s);
        TouchShowsCursor(cfg, FeedAll(cfg, Touch(s.t), text), s.focused);
      case Frame => FrameKeepsInv(cfg, s);
      case MoveView(p) => MoveViewKeepsInv(cfg, s, p);
      case Focus(on) => FocusKeepsInv(cfg, s, on);
      case Map(w, h, pixels, contents) => MapKeepsInv(cfg, s, w, h, pixels, contents);
    }
  }

  /** The events of a run, as far as each is allowed where it happens. */
  ghost predicate AllAllowed(cfg: Config, s: System, events: seq<Event>)
    requires ConfigOk(cfg) && Inv(cfg, s)
    decreases |events|
  {
    events == [] ||
    (Allowed(cfg, s, events[0]) &&
     (StepKeepsInv(cfg, s, events[0]); AllAllowed(cfg, Step(cfg, s, events[0]), events[1..])))
  }

  ghost function Run(cfg: Config, s: System, events: seq<Event>): System
    requires ConfigOk(cfg) && Inv(cfg, s) && AllAllowed(cfg, s, events)
    decreases |events|
  {
    if events == [] then s
    else
      StepKeepsInv(cfg, s, events[0]);
      Run(cfg, Step(cfg, s, events[0]), events[1..])
  }

  /** After any run at all the valid lines show what a full redraw would, and all rows and margins are sound. */
  lemma {:induction false} RunKeepsInv(cfg: Config, s: System, events: seq<Event>)
    requires ConfigOk(cfg) && Inv(cfg, s) && AllAllowed(cfg, s, events)
    ensures Inv(cfg, Run(cfg, s, events))
    decreases |events|
  {
    if events != [] {
      StepKeepsInv(cfg, s, events[0]);
      RunKeepsInv(cfg, Step(cfg, s, events[0]), events[1..]);
    }
  }

  /** A terminal just made, in a window just mapped; what was saved as the cursor may be anything. */
  function Initial(
    capacity: nat, width: nat, height: nat, unit: nat, pixels: nat, contents: seq<Strip>, a: Saved, b: Saved): Terminal
  {
    Terminal(
      Hosted(Fresh(capacity, width, height, a, b), View(pixels, unit, 0, {}, contents)),
      false, false, true, false, false, Stops([], 0, TabColumns(width)), 0, height, Default, Primary, [], 0)
  }

  lemma InitialIsOk(
    cfg: Config, capacity: nat, width: nat, height: nat, unit: nat, contents: seq<Strip>, a: Saved, b: Saved,
      focused: bool)
    requires ConfigOk(cfg) && capacity > 0 && width > 0 && height > 0 && unit > 0
    ensures Inv(cfg, System(Initial(capacity, width, height, unit, |contents|, contents, a, b), focused))
  {
    hide Sound, CursorPicture, StripAt, Stops;
    FreshIsSound(cfg.w, capacity, width, height, a, b);
  }
}
