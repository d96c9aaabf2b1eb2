/**
 What the window does with the terminal (vt/window.cc), over the objects: reading the output of the
 program, redrawing, scrolling back, changes of focus and of size. Each handler carries out one event
 of TerminalRuns, so that objects can go through any run of them.
 */
module Sessions {
  import opened Rows
  import opened Damage
  import opened Screens
  import opened ScreenShape
  import opened Drawing
  import opened Windows
  import opened RowArrays
  import opened Buffers
  import opened TerminalModel
  import opened TerminalRuns
  import Terminals

  /** The object stands for a terminal that keeps the invariant, and can be used. */
  ghost predicate Sane(t: Terminals.Terminal, cfg: Config, focused: bool)
    reads t, t.parameters, t.buffer, t.buffer.host, t.buffer.Pool(), Arrays(t.buffer.Pool())
  {
    && t.Valid() && t.Reading() && ConfigOk(cfg) && cfg.w == t.w && cfg.isControl == t.isControl
    && Inv(cfg, System(t.AsTerminal(), focused))
  }

  /** The handler of the terminal's file: every character is fed, and the row of the cursor redrawn before and after. */
  method Read(t: Terminals.Terminal, ghost cfg: Config, text: string, ghost focused: bool)
    requires Sane(t, cfg, focused) && Allowed(cfg, System(t.AsTerminal(), focused), Event.Read(text))
    modifies t.Repr(), t.parameters
    ensures Sane(t, cfg, focused) && t.Repr() == old(t.Repr())
    ensures var s := System(old(t.AsTerminal()), focused);
            && Inv(cfg, s) && Allowed(cfg, s, Event.Read(text))
            && System(t.AsTerminal(), focused) == Step(cfg, s, Event.Read(text))
  {
    hide Inv, TerminalModel.Ready, Accepts, Feed, AcceptsAll, FeedAll, Terminals.Terminal.Valid,
      Terminals.Terminal.AsTerminal;
    ghost var s := System(t.AsTerminal(), focused);
    TouchLeavesCursor(cfg, s);
    Touch(t);
    ghost var touched := t.AsTerminal();
    var i := 0;
    assert text[0..] == text;
    while i < |text|
      invariant i <= |text| && t.Ready() && t.Reading() && t.Repr() == old(t.Repr())
      invariant AcceptsAll(cfg, t.AsTerminal(), text[i..])
      invariant FeedAll(cfg, t.AsTerminal(), text[i..]) == FeedAll(cfg, touched, text)
    {
      FeedsNext(cfg, t.AsTerminal(), text, i);
      t.Feed(cfg, text[i]);
      i := i + 1;
    }
    FeedsNothing(cfg, t.AsTerminal(), text[|text|..]);
    Touch(t);
    StepKeepsInv(cfg, s, Event.Read(text));
  }

  lemma FeedsNext(cfg: Config, t: Terminal, text: string, i: nat)
    requires ConfigOk(cfg) && Ready(cfg.w, t) && i < |text| && AcceptsAll(cfg, t, text[i..])
    ensures Accepts(cfg, t, text[i]) && AcceptsAll(cfg, Feed(cfg, t, text[i]), text[i + 1..])
    ensures FeedAll(cfg, t, text[i..]) == FeedAll(cfg, Feed(cfg, t, text[i]), text[i + 1..])
  {
    hide Ready, Accepts, Feed;
    assert text[i..][0] == text[i] && text[i..][1..] == text[i + 1..];
  }

  lemma FeedsNothing(cfg: Config, t: Terminal, text: string)
    requires ConfigOk(cfg) && Ready(cfg.w, t) && text == ""
    ensures AcceptsAll(cfg, t, text) && FeedAll(cfg, t, text) == t
  {
    hide Ready;
  }

  /** The row of the cursor is to be drawn again. */
  method Touch(t: Terminals.Terminal)
    requires t.Valid()
    modifies t.Repr()
    ensures t.Valid() && t.Reading() == old(t.Reading()) && t.Repr() == old(t.Repr())
    ensures t.AsTerminal() == TerminalRuns.Touch(old(t.AsTerminal()))
  {
    hide Buffer.Valid, Buffer.AsHosted, Screens.Redraw;
    t.Screen();
    t.buffer.Redraw(t.buffer.y, 1);
  }

  /** v_on_focus_enter and v_on_focus_leave. */
  method Focus(t: Terminals.Terminal, ghost cfg: Config, ghost focused: bool, ghost on: bool)
    requires Sane(t, cfg, focused)
    modifies t.Repr()
    ensures Sane(t, cfg, on) && t.Repr() == old(t.Repr())
    ensures var s := System(old(t.AsTerminal()), focused);
            && Inv(cfg, s) && Allowed(cfg, s, Event.Focus(on))
              && System(t.AsTerminal(), on) == Step(cfg, s, Event.Focus(on))
  {
    hide Inv, Terminals.Terminal.Valid, Terminals.Terminal.AsTerminal;
    FocusKeepsInv(cfg, System(t.AsTerminal(), focused), on);
    Touch(t);
  }

  /** f_position__, as the wheel, the bar and every key press call it. */
  method MoveView(t: Terminals.Terminal, ghost cfg: Config, position: int, ghost focused: bool)
    requires Sane(t, cfg, focused)
    modifies t.Repr()
    ensures Sane(t, cfg, focused) && t.Repr() == old(t.Repr())
    ensures var s := System(old(t.AsTerminal()), focused);
            && Inv(cfg, s) && Allowed(cfg, s, Event.MoveView(position))
            && System(t.AsTerminal(), focused) == Step(cfg, s, Event.MoveView(position))
  {
    hide Inv, Damage.MoveTo;
    MoveViewKeepsInv(cfg, System(t.AsTerminal(), focused), position);
    MoveHost(t, position);
  }

  method MoveHost(t: Terminals.Terminal, position: int)
    requires t.Valid()
    modifies t.buffer.host
    ensures t.Valid() && t.Reading() == old(t.Reading()) && t.Repr() == old(t.Repr())
    ensures var v := old(t.AsTerminal()).hosted.view;
            && |v.lines| == v.height
            && t.AsTerminal() == old(t.AsTerminal()).(hosted := old(t.AsTerminal()).hosted.(
                 view := Damage.MoveTo(v, |old(t.AsTerminal()).hosted.screen.log|, position)))
  {
    hide Damage.MoveTo, PoolOk;
    t.buffer.host.MoveTo(t.buffer.logSize, position);
  }

  /** v_on_frame: what is not valid is drawn, and then all is. */
  method Frame(t: Terminals.Terminal, ghost cfg: Config, focused: bool)
    requires Sane(t, cfg, focused)
    modifies t.Repr()
    ensures Sane(t, cfg, focused) && t.Repr() == old(t.Repr())
    ensures var s := System(old(t.AsTerminal()), focused);
            Inv(cfg, s) && Allowed(cfg, s, Event.Frame) && System(t.AsTerminal(), focused) == Step(cfg, s, Event.Frame)
    ensures ShowsAll(t.AsTerminal().hosted, focused)
  {
    hide Terminals.Terminal.AsTerminal, Terminals.Terminal.Valid, Shows, CursorPicture, ShowsAll;
    ghost var s := System(t.AsTerminal(), focused);
    FrameKeepsInv(cfg, s);
    FrameShowsAll(cfg, s);
    hide Inv;
    FrameHost(t, focused);
  }

  /** Every line of the window is that of the content with its cursor. */
  ghost predicate ShowsAll(h: Hosted, focused: bool) {
    && h.screen.y < |h.screen.Rows()| && h.view.unit > 0 && |h.view.lines| == h.view.height
    && forall p :: 0 <= p < h.view.height ==>
         h.view.lines[p] == StripAt(CursorPicture(h.screen, focused), h.view.unit, p + h.view.position)
  }

  lemma FrameShowsAll(cfg: Config, s: System)
    requires ConfigOk(cfg) && Inv(cfg, s) && Allowed(cfg, s, Event.Frame)
    ensures ShowsAll(Step(cfg, s, Event.Frame).t.hosted, s.focused)
  {
    hide CursorPicture, StripAt, Sound;
  }

  /** The window shows the content from line p on, where p is what was asked for, kept between top and bottom. */
  ghost predicate ShowsFrom(h: Hosted, focused: bool, position: int) {
    && h.screen.y < |h.screen.Rows()| && h.view.unit > 0 && |h.view.lines| == h.view.height
    && var end := |h.screen.log| * h.view.unit;
       var p := if position < 0 then 0 else if position > end then end else position;
       forall q :: 0 <= q < h.view.height ==>
         h.view.lines[q] == StripAt(CursorPicture(h.screen, focused), h.view.unit, q + p)
  }

  lemma MovedShowsFrom(v: View, log: nat, position: int, h: Hosted, focused: bool)
    requires |v.lines| == v.height && log == |h.screen.log| && ShowsAll(h, focused)
    requires h.view.position == MoveTo(v, log, position).position && h.view.unit == v.unit
    ensures ShowsFrom(h, focused, position)
  {
    hide CursorPicture, StripAt, MoveTo;
    MoveToLands(v, log, position);
  }

  /** Scrolling back to any place and drawing: the window then shows what lies there, the cursor included. */
  method Look(t: Terminals.Terminal, ghost cfg: Config, position: int, focused: bool)
    requires Sane(t, cfg, focused)
    modifies t.Repr()
    ensures Sane(t, cfg, focused) && t.Repr() == old(t.Repr())
    ensures t.AsTerminal().hosted.screen == old(t.AsTerminal()).hosted.screen
    ensures ShowsFrom(t.AsTerminal().hosted, focused, position)
  {
    hide Inv, Sane, Terminals.Terminal.AsTerminal, Terminals.Terminal.Valid, ShowsAll, ShowsFrom;
    SaneIs(t, cfg, focused);
    ghost var s := System(t.AsTerminal(), focused);
    MoveView(t, cfg, position, focused);
    SaneIs(t, cfg, focused);
    ghost var u := System(t.AsTerminal(), focused);
    Frame(t, cfg, focused);
    SaneIs(t, cfg, focused);
    LookedIs(cfg, s, u, System(t.AsTerminal(), focused), position);
  }

  lemma LookedIs(cfg: Config, s: System, u: System, r: System, position: int)
    requires ConfigOk(cfg) && Inv(cfg, s) && u == Step(cfg, s, Event.MoveView(position))
    requires Inv(cfg, u) && r == Step(cfg, u, Event.Frame) && ShowsAll(r.t.hosted, s.focused)
    ensures r.t.hosted.screen == s.t.hosted.screen && ShowsFrom(r.t.hosted, s.focused, position)
  {
    hide ShowsAll, CursorPicture, MoveTo, Sound, ShowsFrom;
    var v, log := s.t.hosted.view, |s.t.hosted.screen.log|;
    assert |v.lines| == v.height;
    MoveToKeepsUnit(v, log, position);
    MovedShowsFrom(v, log, position, r.t.hosted, s.focused);
  }

  method FrameHost(t: Terminals.Terminal, focused: bool)
    requires t.Valid()
    requires var h := t.AsTerminal().hosted;
             h.screen.y < |h.screen.Rows()| && Shows(h.view, CursorPicture(h.screen, focused)) && h.view.position >= 0
    modifies t.buffer.host
    ensures t.Valid() && t.Reading() == old(t.Reading()) && t.Repr() == old(t.Repr())
    ensures var h := old(t.AsTerminal()).hosted;
            && h.view.unit > 0
            && t.AsTerminal()
               == old(t.AsTerminal()).(hosted := h.(view := Redrawn(h.view, CursorPicture(h.screen, focused))))
  {
    hide Shows, CursorPicture, PoolOk, Redrawn;
    var s := t.buffer.Seen();
    t.buffer.host.Frame(s, focused);
  }

  /** v_on_map: the terminal in its new size, and nothing on the new surface can be relied on. */
  method Map(
    t: Terminals.Terminal, ghost cfg: Config, width: nat, height: nat, pixels: nat, contents: seq<Strip>,
      ghost focused: bool)
    requires Sane(t, cfg, focused) && pixels + t.buffer.host.bottomMargin <= |contents|
    modifies t.Repr()
    ensures Sane(t, cfg, focused) && fresh(t.Repr() - old(t.Repr()))
    ensures var s := System(old(t.AsTerminal()), focused);
            var e := Event.Map(width, height, pixels, FromTop(contents, pixels, t.buffer.host.bottomMargin));
            Inv(cfg, s) && Allowed(cfg, s, e) && System(t.AsTerminal(), focused) == Step(cfg, s, e)
  {
    hide Inv, Terminals.Terminal.AsTerminal, ResizeTerminal, Terminals.Terminal.Valid, FromTop;
    MapKeepsInv(cfg, System(t.AsTerminal(), focused), width, height, pixels,
                FromTop(contents, pixels, t.buffer.host.bottomMargin));
    t.Resize(width, height);
    MapHost(t, pixels, contents);
  }

  method MapHost(t: Terminals.Terminal, pixels: nat, contents: seq<Strip>)
    requires t.Valid() && pixels + t.buffer.host.bottomMargin <= |contents|
    modifies t.buffer.host
    ensures t.Valid() && t.Reading() == old(t.Reading()) && t.Repr() == old(t.Repr())
    ensures t.AsTerminal() == old(t.AsTerminal()).(hosted := old(t.AsTerminal()).hosted.(
              view := old(t.AsTerminal()).hosted.view.(
                height := pixels, valid := {}, lines := FromTop(contents, pixels, t.buffer.host.bottomMargin))))
  {
    hide PoolOk;
    t.buffer.host.Map(pixels, contents);
  }

  /** A surface whose content, from the top, is given. */
  function Surface(contents: seq<Strip>, margin: nat): (r: seq<Strip>)
    ensures |r| == |contents| + margin && FromTop(r, |contents|, margin) == contents
  {
    seq(|contents| + margin, g requires 0 <= g < |contents| + margin =>
      if g < margin then Background else contents[|contents| - 1 - (g - margin)])
  }

  /** One event. */
  method Handle(t: Terminals.Terminal, ghost cfg: Config, e: Event, focused: bool) returns (now: bool)
    requires Sane(t, cfg, focused) && Allowed(cfg, System(t.AsTerminal(), focused), e)
    modifies t.Repr(), t.parameters
    ensures Sane(t, cfg, now) && fresh(t.Repr() - old(t.Repr()))
    ensures var s := System(old(t.AsTerminal()), focused);
            Inv(cfg, s) && Allowed(cfg, s, e) && System(t.AsTerminal(), now) == Step(cfg, s, e)
  {
    hide Inv, Sane, Step, Terminals.Terminal.AsTerminal, Terminals.Terminal.Valid;
    now := focused;
    SaneIs(t, cfg, focused);
    match e
    case Read(text) => Read(t, cfg, text, focused);
    case Frame => Frame(t, cfg, focused);
    case MoveView(position) => MoveView(t, cfg, position, focused);
    case Focus(on) =>
      Focus(t, cfg, focused, on);
      now := on;
    case Map(width, height, pixels, contents) =>
      Map(t, cfg, width, height, pixels, Surface(contents, t.buffer.host.bottomMargin), focused);
  }

  lemma SaneIs(t: Terminals.Terminal, cfg: Config, focused: bool)
    requires Sane(t, cfg, focused)
    ensures ConfigOk(cfg) && t.Valid() && Inv(cfg, System(t.AsTerminal(), focused))
  {
  }

  /** The objects go through any run of events as the values do. */
  method Play(t: Terminals.Terminal, ghost cfg: Config, events: seq<Event>, focused: bool) returns (now: bool)
    requires Sane(t, cfg, focused) && AllAllowed(cfg, System(t.AsTerminal(), focused), events)
    modifies t.Repr(), t.parameters
    ensures Sane(t, cfg, now) && fresh(t.Repr() - old(t.Repr()))
    ensures var s := System(old(t.AsTerminal()), focused);
            Inv(cfg, s) && AllAllowed(cfg, s, events) && System(t.AsTerminal(), now) == Run(cfg, s, events)
  {
    hide Inv, Sane, Step, Run, AllAllowed, Allowed, Terminals.Terminal.AsTerminal, Terminals.Terminal.Valid;
    now := focused;
    SaneIs(t, cfg, focused);
    ghost var s := System(t.AsTerminal(), focused);
    var i := 0;
    assert events[0..] == events;
    while i < |events|
      invariant i <= |events| && Sane(t, cfg, now) && fresh(t.Repr() - old(t.Repr()))
      invariant ConfigOk(cfg) && t.Valid() && Inv(cfg, System(t.AsTerminal(), now))
      invariant AllAllowed(cfg, System(t.AsTerminal(), now), events[i..])
      invariant Run(cfg, System(t.AsTerminal(), now), events[i..]) == Run(cfg, s, events)
    {
      RunsNext(cfg, System(t.AsTerminal(), now), events, i);
      now := Handle(t, cfg, events[i], now);
      SaneIs(t, cfg, now);
      i := i + 1;
    }
    RunsNothing(cfg, System(t.AsTerminal(), now), events[|events|..]);
  }

  lemma RunsNext(cfg: Config, s: System, events: seq<Event>, i: nat)
    requires ConfigOk(cfg) && Inv(cfg, s) && i < |events| && AllAllowed(cfg, s, events[i..])
    ensures Allowed(cfg, s, events[i]) && Inv(cfg, Step(cfg, s, events[i]))
    ensures AllAllowed(cfg, Step(cfg, s, events[i]), events[i + 1..])
    ensures Run(cfg, s, events[i..]) == Run(cfg, Step(cfg, s, events[i]), events[i + 1..])
  {
    hide Inv, Allowed, Step;
    assert events[i..][0] == events[i] && events[i..][1..] == events[i + 1..];
    StepKeepsInv(cfg, s, events[i]);
  }

  lemma RunsNothing(cfg: Config, s: System, events: seq<Event>)
    requires ConfigOk(cfg) && Inv(cfg, s) && events == []
    ensures AllAllowed(cfg, s, events) && Run(cfg, s, events) == s
  {
    hide Inv;
  }
}
