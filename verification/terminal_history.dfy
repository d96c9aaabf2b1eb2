/**
 The log and the column of the cursor over whole runs: the log is, in order, the last rows that were
 ever pushed off the screen, as many as it can hold; and as long as the wraparound mode is not reset
 the cursor is never beyond the width.
 */
module TerminalHistory {
  import opened Rows
  import opened Damage
  import opened Screens
  import opened ScreenShape
  import opened ScreenSteps
  import opened TerminalModel
  import opened TerminalRuns
  import Drawing
  import opened TerminalEffects

  // Text.

  /** The rows that a text pushes into the log, oldest first. */
  ghost function PushedBy(cfg: Config, t: Terminal, text: string): (r: seq<Line>)
    requires ConfigOk(cfg) && Ready(cfg.w, t) && AcceptsAll(cfg, t, text)
    decreases |text|
  {
    if text == [] then []
    else
      ReadyHasRows(cfg.w, t);
      Pushes(cfg, t, text[0]) + PushedBy(cfg, Feed(cfg, t, text[0]), text[1..])
  }

  lemma LastOfLast(a: seq<Line>, b: seq<Line>, n: nat)
    ensures Last(Last(a, n) + b, n) == Last(a + b, n)
  {
  }

  lemma LogHasRoom(w: Widths, t: Terminal)
    requires Ready(w, t)
    ensures Last(t.hosted.screen.log, t.hosted.screen.capacity) == t.hosted.screen.log
  {
    ReadyHasRows(w, t);
  }

  /** After any text the log is the last rows of what it held and of what the text pushed. */
  lemma {:induction false} TextIsLogged(cfg: Config, t: Terminal, text: string)
    requires ConfigOk(cfg) && Ready(cfg.w, t) && AcceptsAll(cfg, t, text)
    ensures var r := FeedAll(cfg, t, text).hosted.screen;
            && r.log == Last(t.hosted.screen.log + PushedBy(cfg, t, text), t.hosted.screen.capacity)
            && SameSize(t.hosted.screen, r)
    decreases |text|
  {
    hide Ready, Feed, Accepts, Pushes, Last;
    var log, n := t.hosted.screen.log, t.hosted.screen.capacity;
    if text == [] {
      assert log + [] == log;
      LogHasRoom(cfg.w, t);
    } else {
      FeedEffect(cfg, t, text[0]);
      var u := Feed(cfg, t, text[0]);
      var a, b := Pushes(cfg, t, text[0]), PushedBy(cfg, u, text[1..]);
      TextIsLogged(cfg, u, text[1..]);
      LastOfLast(log + a, b, n);
      assert (log + a) + b == log + (a + b);
    }
  }

  lemma {:induction false} PushedByTwo(cfg: Config, t: Terminal, a: string, b: string)
    requires ConfigOk(cfg) && Ready(cfg.w, t) && AcceptsAll(cfg, t, a) && AcceptsAll(cfg, FeedAll(cfg, t, a), b)
    requires AcceptsAll(cfg, t, a + b)
    ensures PushedBy(cfg, t, a + b) == PushedBy(cfg, t, a) + PushedBy(cfg, FeedAll(cfg, t, a), b)
    decreases |a|
  {
    hide Ready, Accepts, Feed, Pushes;
    if a == [] {
      assert a + b == b;
      assert [] + PushedBy(cfg, t, b) == PushedBy(cfg, t, b);
    } else {
      assert (a + b)[0] == a[0] && (a + b)[1..] == a[1..] + b;
      PushedByTwo(cfg, Feed(cfg, t, a[0]), a[1..], b);
    }
  }

  /** No character of the text resets the wraparound mode. */
  ghost predicate KeepsWrapping(cfg: Config, t: Terminal, text: string)
    requires ConfigOk(cfg) && Ready(cfg.w, t) && AcceptsAll(cfg, t, text)
    decreases |text|
  {
    text == [] || (WrapModeAfter(cfg, t, text[0]) && KeepsWrapping(cfg, Feed(cfg, t, text[0]), text[1..]))
  }

  /** The cursor is in the width or just behind it, and will stay there. */
  predicate Within(t: Terminal) {
    t.wraparound && t.Width() >= 2 && t.X() <= t.Width()
  }

  lemma {:induction false} TextStaysWithin(cfg: Config, t: Terminal, text: string)
    requires ConfigOk(cfg) && Ready(cfg.w, t) && AcceptsAll(cfg, t, text)
    requires Within(t) && KeepsWrapping(cfg, t, text)
    ensures Within(FeedAll(cfg, t, text))
    decreases |text|
  {
    hide Ready, Feed, Accepts, Pushes, WrapModeAfter;
    if text != [] {
      FeedEffect(cfg, t, text[0]);
      assert cfg.w(text[0]) <= 2;
      TextStaysWithin(cfg, Feed(cfg, t, text[0]), text[1..]);
    }
  }

  // Events.

  ghost predicate AllStartWithGlyph(lines: seq<Line>) {
    forall i :: 0 <= i < |lines| ==> Led(lines[i].cells)
  }

  lemma PushesAreLed(cfg: Config, t: Terminal, c: char)
    requires Ready(cfg.w, t)
    ensures t.Y() < |t.hosted.screen.Rows()| && t.hosted.screen.normal != []
    ensures AllStartWithGlyph(Pushes(cfg, t, c))
  {
    hide InStep, Whole;
    ReadyHasRows(cfg.w, t);
    assert Led(t.hosted.screen.normal[0].cells);
  }

  lemma {:induction false} PushedAreLed(cfg: Config, t: Terminal, text: string)
    requires ConfigOk(cfg) && Ready(cfg.w, t) && AcceptsAll(cfg, t, text)
    ensures AllStartWithGlyph(PushedBy(cfg, t, text))
    decreases |text|
  {
    hide Ready, Feed, Accepts, Pushes, Led;
    if text != [] {
      PushesAreLed(cfg, t, text[0]);
      PushedAreLed(cfg, Feed(cfg, t, text[0]), text[1..]);
    }
  }

  /** The rows ever pushed, after an event: resizing cuts them all, those that have left the log too. */
  ghost function Logged(cfg: Config, s: System, e: Event, all: seq<Line>): (r: seq<Line>)
    requires ConfigOk(cfg) && Inv(cfg, s) && Allowed(cfg, s, e) && AllStartWithGlyph(all)
    ensures AllStartWithGlyph(r)
  {
    hide Inv, Ready, Led;
    TouchLeavesCursor(cfg, s);
    match e
    case Read(text) =>
      PushedAreLed(cfg, Touch(s.t), text);
      all + PushedBy(cfg, Touch(s.t), text)
    case Map(w, h, _, _) => Resized(s.t, all, w, h)
    case _ => all
  }

  ghost function Resized(t: Terminal, all: seq<Line>, w: nat, h: nat): (r: seq<Line>)
    requires AllStartWithGlyph(all)
    ensures AllStartWithGlyph(r)
  {
    if AtLeastOne(w) == t.Width() && AtLeastOne(h) == t.Height() then all else CutAll(all, AtLeastOne(w))
  }

  lemma CutLast(all: seq<Line>, n: nat, width: nat)
    requires AllStartWithGlyph(all)
    ensures AllStartWithGlyph(Last(all, n)) && CutAll(Last(all, n), width) == Last(CutAll(all, width), n)
  {
  }

  lemma MapIsLogged(cfg: Config, s: System, w: nat, h: nat, pixels: nat, contents: seq<Strip>, all: seq<Line>)
    requires ConfigOk(cfg) && Inv(cfg, s) && Allowed(cfg, s, Map(w, h, pixels, contents)) && AllStartWithGlyph(all)
    requires s.t.hosted.screen.log == Last(all, s.t.hosted.screen.capacity)
    ensures var r := Step(cfg, s, Map(w, h, pixels, contents)).t.hosted.screen;
            r.log == Last(Resized(s.t, all, w, h), r.capacity) && r.capacity == s.t.hosted.screen.capacity
  {
    hide Shows, Drawing.CursorPicture, Picture, Cut, Led, Last, Stops, Whole, CutScreen;
    CutLast(all, s.t.hosted.screen.capacity, AtLeastOne(w));
  }

  lemma ReadIsLogged(cfg: Config, s: System, text: string, all: seq<Line>)
    requires ConfigOk(cfg) && Inv(cfg, s) && Allowed(cfg, s, Event.Read(text))
    requires s.t.hosted.screen.log == Last(all, s.t.hosted.screen.capacity)
    ensures Ready(cfg.w, Touch(s.t)) && AcceptsAll(cfg, Touch(s.t), text)
    ensures var r := Step(cfg, s, Event.Read(text)).t.hosted.screen;
            && r.log == Last(all + PushedBy(cfg, Touch(s.t), text), r.capacity)
              && r.capacity == s.t.hosted.screen.capacity
  {
    hide Inv, Ready, AcceptsAll, FeedAll, PushedBy, Last, Invalidate;
    TouchLeavesCursor(cfg, s);
    TextIsLogged(cfg, Touch(s.t), text);
    LastOfLast(all, PushedBy(cfg, Touch(s.t), text), s.t.hosted.screen.capacity);
  }

  lemma StepIsLogged(cfg: Config, s: System, e: Event, all: seq<Line>)
    requires ConfigOk(cfg) && Inv(cfg, s) && Allowed(cfg, s, e) && AllStartWithGlyph(all)
    requires s.t.hosted.screen.log == Last(all, s.t.hosted.screen.capacity)
    ensures var r := Step(cfg, s, e).t.hosted.screen;
            r.log == Last(Logged(cfg, s, e, all), r.capacity) && r.capacity == s.t.hosted.screen.capacity
  {
    match e
    case Read(text) =>
      hide Inv, Ready, Step, PushedBy, Last, AcceptsAll, AllStartWithGlyph;
      ReadIsLogged(cfg, s, text, all);
    case Map(w, h, pixels, contents) =>
      hide Inv, Ready, Step, Last, AllStartWithGlyph, Resized;
      MapIsLogged(cfg, s, w, h, pixels, contents, all);
    case _ =>
      hide Inv, Ready, Invalidate, Last, AllStartWithGlyph, MoveTo;
  }

  /** The rows ever pushed after a run. */
  ghost function AllLogged(cfg: Config, s: System, events: seq<Event>, all: seq<Line>): (r: seq<Line>)
    requires ConfigOk(cfg) && Inv(cfg, s) && AllAllowed(cfg, s, events) && AllStartWithGlyph(all)
    decreases |events|
  {
    if events == [] then all
    else
      StepKeepsInv(cfg, s, events[0]);
      AllLogged(cfg, Step(cfg, s, events[0]), events[1..], Logged(cfg, s, events[0], all))
  }

  /** Over any run the log stays the last rows ever pushed, in order, as many as it can hold. */
  lemma {:induction false} RunIsLogged(cfg: Config, s: System, events: seq<Event>, all: seq<Line>)
    requires ConfigOk(cfg) && Inv(cfg, s) && AllAllowed(cfg, s, events) && AllStartWithGlyph(all)
    requires s.t.hosted.screen.log == Last(all, s.t.hosted.screen.capacity)
    ensures Run(cfg, s, events).t.hosted.screen.log
         == Last(AllLogged(cfg, s, events, all), s.t.hosted.screen.capacity)
    decreases |events|
  {
    hide Inv, Allowed, Step, Last, Logged, AllStartWithGlyph;
    if events != [] {
      StepKeepsInv(cfg, s, events[0]);
      StepIsLogged(cfg, s, events[0], all);
      RunIsLogged(cfg, Step(cfg, s, events[0]), events[1..], Logged(cfg, s, events[0], all));
    }
  }

  /** No text resets the wraparound mode, and no window is narrower than two columns. */
  ghost predicate KeepsWidth(cfg: Config, s: System, e: Event)
    requires ConfigOk(cfg) && Inv(cfg, s) && Allowed(cfg, s, e)
  {
    TouchLeavesCursor(cfg, s);
    match e
    case Read(text) => KeepsWrapping(cfg, Touch(s.t), text)
    case Map(w, _, _, _) => w >= 2
    case _ => true
  }

  ghost predicate AllKeepWidth(cfg: Config, s: System, events: seq<Event>)
    requires ConfigOk(cfg) && Inv(cfg, s) && AllAllowed(cfg, s, events)
    decreases |events|
  {
    events == [] ||
    (StepKeepsInv(cfg, s, events[0]);
     KeepsWidth(cfg, s, events[0]) && AllKeepWidth(cfg, Step(cfg, s, events[0]), events[1..]))
  }

  lemma StepStaysWithin(cfg: Config, s: System, e: Event)
    requires ConfigOk(cfg) && Inv(cfg, s) && Allowed(cfg, s, e) && KeepsWidth(cfg, s, e) && Within(s.t)
    ensures Within(Step(cfg, s, e).t)
  {
    TouchLeavesCursor(cfg, s);
    hide Inv, Ready, Invalidate, AcceptsAll, FeedAll, KeepsWrapping, MoveTo;
    match e
    case Read(text) => TextStaysWithin(cfg, Touch(s.t), text);
    case _ =>
  }

  /** Over any run that does not reset the wraparound mode the cursor is never beyond the width. */
  lemma {:induction false} RunStaysWithin(cfg: Config, s: System, events: seq<Event>)
    requires ConfigOk(cfg) && Inv(cfg, s) && AllAllowed(cfg, s, events) && AllKeepWidth(cfg, s, events) && Within(s.t)
    ensures Within(Run(cfg, s, events).t)
    decreases |events|
  {
    hide Inv, Allowed, Step, KeepsWidth, Within;
    if events != [] {
      StepKeepsInv(cfg, s, events[0]);
      StepStaysWithin(cfg, s, events[0]);
      RunStaysWithin(cfg, Step(cfg, s, events[0]), events[1..]);
    }
  }
}
