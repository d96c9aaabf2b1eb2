/**
 What the control sequences do to the modes, to the choice of the screen and to the attribute, as
 they are written.
 */
module ModeEffects {
  import opened Wrappers
  import opened Rows
  import opened Damage
  import opened Screens
  import opened ScreenShape
  import opened ScreenSteps
  import opened TerminalModel
  import opened TerminalRuns
  import opened TerminalEffects
  import opened ControlSequences
  import opened SequenceEffects

  // Modes.

  /** To the alternate screen: the cursor is saved for the screen left, and that is not touched. */
  ghost predicate ToAlternate(t: Terminal, r: Terminal) {
    var s, u := t.hosted.screen, r.hosted.screen;
    var saved := Saved(s.attribute, s.x, s.y);
    && r == t.(hosted := r.hosted, begin := 0, size := t.Height())
    && u == s.(onAlternate := true, alternate := u.alternate, x := 0, y := 0,
               savedNormal := if s.onAlternate then s.savedNormal else saved,
               savedAlternate := if s.onAlternate then saved else s.savedAlternate)
    && |u.alternate| == t.Height() && forall i :: 0 <= i < |u.alternate| ==> u.alternate[i] == EMPTY
  }

  /** And back: the normal screen as it was, with the cursor that was saved for it. */
  ghost predicate ToNormal(t: Terminal, r: Terminal) {
    var s := t.hosted.screen;
    && t.Width() > 0 && r == t.(hosted := r.hosted, begin := 0, size := t.Height())
    && r.hosted.screen
       == s.(onAlternate := false, attribute := s.savedNormal.attribute,
             x := Min(s.savedNormal.x, t.Width() - 1),
             y := Max(Min(s.savedNormal.y, BottomOf(t) - 1), TopOf(t)))
  }

  /** All rows of the screen in use are empty, the margins go, and the cursor is in the corner. */
  ghost predicate Cleared(t: Terminal, r: Terminal) {
    var s := t.hosted.screen;
    && r == t.(hosted := r.hosted, begin := 0, size := t.Height())
    && r.hosted.screen == s.WithRows(r.hosted.screen.Rows()).(x := 0, y := 0)
    && |r.hosted.screen.Rows()| == t.Height() && AreEmpty(r, 0, t.Height())
  }

  /** What a private mode does when it is set or reset. */
  ghost predicate ModeSet(t: Terminal, r: Terminal, p: int, on: bool) {
    && (p == 1 ==> r == t.(applicationCursor := on))
    && (p == 3 ==> Cleared(t, r))
    && (p == 6 ==> r == MoveCursor(t.(origin := on), 0, if on then t.begin else 0))
    && (p == 7 ==> r == t.(wraparound := on))
    && (p == 1049 ==> if on then ToAlternate(t, r) else ToNormal(t, r))
    && (p != 1 && p != 3 && p != 6 && p != 7 && p != 1049 ==> r == t)
  }

  lemma EraseLinesIs(w: Widths, t: Terminal, y: nat, n: nat, r: Terminal)
    requires Ready(w, t) && y + n <= t.Height() && r == EraseLines(w, t, y, n)
    ensures |t.hosted.screen.Rows()| == t.Height()
    ensures r == t.(hosted := r.hosted)
    ensures r.hosted.screen == t.hosted.screen.WithRows(Erased(t.hosted.screen.Rows(), y, n))
  {
    hide Ready, Erased, EraseLines;
    ReadyHasRows(w, t);
    ErasedLines(w, t, y, n, r);
  }

  lemma ErasedLines(w: Widths, t: Terminal, y: nat, n: nat, r: Terminal)
    requires Ready(w, t) && y + n <= t.Height() == |t.hosted.screen.Rows()| && r == EraseLines(w, t, y, n)
    ensures r == t.(hosted := r.hosted)
    ensures r.hosted.screen == t.hosted.screen.WithRows(Erased(t.hosted.screen.Rows(), y, n))
  {
    hide Steady, Invalidate, Erased;
  }

  lemma HomeIs(w: Widths, t: Terminal)
    requires Ready(w, t)
    ensures Home(w, t) == MoveCursor(t.(begin := 0, size := t.Height()), 0, 0)
  {
    hide Ready;
    WholeRegionIsReady(w, t);
  }

  lemma ClearingIs(w: Widths, t: Terminal)
    requires Ready(w, t)
    ensures Cleared(t, EraseAll(w, Home(w, t)))
  {
    hide Ready, Home, EraseLines, EraseAll, Erased;
    HomeIs(w, t);
    var h := Home(w, t);
    var r := EraseAll(w, h);
    EraseLinesIs(w, h, 0, t.Height(), r);
    ErasedAll(h.hosted.screen.Rows());
  }

  lemma ErasedAll(rows: seq<Line>)
    ensures |Erased(rows, 0, |rows|)| == |rows|
    ensures forall i :: 0 <= i < |rows| ==> Erased(rows, 0, |rows|)[i] == EMPTY
  {
  }

  lemma SaveIs(w: Widths, t: Terminal)
    requires Ready(w, t)
    ensures var s, r := t.hosted.screen, Save(w, t);
            && r == t.(hosted := t.hosted.(screen := r.hosted.screen))
            && r.hosted.screen
               == if s.onAlternate then s.(savedAlternate := Saved(s.attribute, s.x, s.y))
                  else s.(savedNormal := Saved(s.attribute, s.x, s.y))
  {
    hide Steady;
  }

  lemma SetAlternateIs(w: Widths, t: Terminal, on: bool)
    requires Ready(w, t)
    ensures var r := SetAlternate(w, t, on);
            r == t.(hosted := r.hosted) && r.hosted.screen == t.hosted.screen.(onAlternate := on)
  {
    hide Steady, Invalidate;
  }

  lemma SwitchesOn(w: Widths, t: Terminal)
    requires Ready(w, t)
    ensures ToAlternate(t, SwitchScreen(w, t, true))
  {
    hide Ready, Save, SetAlternate, EraseAll, EraseLines, Home, Erased;
    SaveIs(w, t);
    var t1 := Save(w, t);
    SetAlternateIs(w, t1, true);
    var t2 := SetAlternate(w, t1, true);
    EraseLinesIs(w, t2, 0, t.Height(), EraseAll(w, t2));
    HomeIs(w, EraseAll(w, t2));
    ErasedAll(t2.hosted.screen.Rows());
  }

  /** The saved cursor, kept on the screen and in origin mode in the region; and its attribute. */
  lemma RestoreSavedIs(w: Widths, t: Terminal)
    requires Ready(w, t)
    ensures var s, r := t.hosted.screen, RestoreSaved(w, t);
            var saved := if s.onAlternate then s.savedAlternate else s.savedNormal;
            && r == t.(hosted := t.hosted.(screen := r.hosted.screen))
            && r.hosted.screen
               == s.(attribute := saved.attribute, x := Min(saved.x, t.Width() - 1),
                     y := Max(Min(saved.y, BottomOf(t) - 1), TopOf(t)))
  {
    hide Steady;
  }

  lemma SwitchesOff(w: Widths, t: Terminal)
    requires Ready(w, t)
    ensures ToNormal(t, SwitchScreen(w, t, false))
  {
    hide Ready, SetAlternate, RestoreSaved;
    SetAlternateIs(w, t, false);
    RestoreSavedIs(w, SetAlternate(w, t, false));
  }

  lemma PrivateModeIs(w: Widths, t: Terminal, p: int, on: bool)
    requires Ready(w, t)
    ensures ModeSet(t, PrivateMode(w, t, p, on), p, on)
  {
    hide Ready, Cleared, ToAlternate, ToNormal, SwitchScreen, EraseAll, Home;
    if p == 3 {
      ClearingIs(w, t);
    } else if p == 1049 && on {
      SwitchesOn(w, t);
    } else if p == 1049 {
      SwitchesOff(w, t);
    }
  }

  lemma ScreensForget(t: Terminal, u: Terminal, r: Terminal)
    ensures Cleared(u, r) ==> Cleared(Forget(u, t), Forget(r, t))
    ensures ToAlternate(u, r) ==> ToAlternate(Forget(u, t), Forget(r, t))
    ensures ToNormal(u, r) ==> ToNormal(Forget(u, t), Forget(r, t))
  {
  }

  lemma ModeForgets(t: Terminal, u: Terminal, r: Terminal, p: int, on: bool)
    requires ModeSet(u, r, p, on)
    ensures ModeSet(Forget(u, t), Forget(r, t), p, on)
  {
    ScreensForget(t, u, r);
    hide Cleared, ToAlternate, ToNormal;
    if p == 1 || p == 7 || p == 6 {
      FlagForgets(t, u, r, p, on);
    } else {
      hide Forget;
    }
  }

  lemma FlagForgets(t: Terminal, u: Terminal, r: Terminal, p: int, on: bool)
    requires ModeSet(u, r, p, on) && (p == 1 || p == 6 || p == 7)
    ensures ModeSet(Forget(u, t), Forget(r, t), p, on)
  {
    hide Cleared, ToAlternate, ToNormal;
  }

  /** Modes that are set or reset by one sequence, one after another. */
  ghost predicate ModesSet(t: Terminal, r: Terminal, ps: seq<int>, on: bool)
    decreases |ps|
  {
    if ps == [] then r == t else exists m :: ModeSet(t, m, ps[0], on) && ModesSet(m, r, ps[1..], on)
  }

  lemma {:induction false} PrivateModesAre(w: Widths, t: Terminal, u: Terminal, ps: seq<int>, on: bool)
    requires Ready(w, u) && u.kind == Private
    ensures ModesSet(Forget(u, t), Forget(Modes(w, u, ps, on), t), ps, on)
    decreases |ps|
  {
    hide Ready, ModeSet, PrivateMode, Forget;
    if ps != [] {
      var m := PrivateMode(w, u, ps[0], on);
      PrivateModeIs(w, u, ps[0], on);
      ModeForgets(t, u, m, ps[0], on);
      PrivateModesAre(w, t, m, ps[1..], on);
    }
  }

  /** Private modes are set by h and reset by l. */
  lemma PrivateModesAreSet(cfg: Config, t: Terminal, ps: seq<int>, c: char)
    requires Can(cfg, t, Private, ps, c) && (c == 'h' || c == 'l')
    ensures ModesSet(t, Outcome(cfg, t, Private, ps, c), ps, c == 'h')
  {
    var u := Reads(t, Private, ps);
    hide Can, Ready, Sequence, Outcome, Modes, ModesSet;
    SamePlaces(t, Private, ps, 'A');
    OutcomeIs(cfg, t, Private, ps, c, u);
    ModeSequence(cfg.w, u, c);
    PrivateModesAre(cfg.w, t, u, ps, c == 'h');
  }

  lemma {:induction false} InsertModes(w: Widths, t: Terminal, ps: seq<int>, on: bool)
    requires Ready(w, t) && t.kind != Private
    ensures Modes(w, t, ps, on) == if t.kind == Primary && 4 in ps then t.(insert := on) else t
    decreases |ps|
  {
    hide Steady, PrivateMode;
    if ps != [] && t.kind == Primary {
      var r := if ps[0] == 4 then t.(insert := on) else t;
      InsertModes(w, r, ps[1..], on);
    }
  }

  /** Without the mark of a private sequence 4 is the insert mode, and no other number is a mode. */
  lemma InsertModeIsSet(cfg: Config, t: Terminal, kind: Kind, ps: seq<int>, c: char)
    requires Can(cfg, t, kind, ps, c) && (c == 'h' || c == 'l') && kind != Private
    ensures Outcome(cfg, t, kind, ps, c) == if kind == Primary && 4 in ps then t.(insert := c == 'h') else t
  {
    var u := Reads(t, kind, ps);
    hide Can, Ready, Sequence, Outcome, Modes;
    OutcomeIs(cfg, t, kind, ps, c, u);
    ModeSequence(cfg.w, u, c);
    InsertModes(cfg.w, u, ps, c == 'h');
  }

  // Back from the alternate screen.

  /** Whatever is done on the alternate screen, as long as normal rows and saved cursor stay: back, all is as it was. */
  lemma AlternateIsLeft(t: Terminal, u: Terminal, v: Terminal, r: Terminal)
    requires !t.hosted.screen.onAlternate && ToAlternate(t, u) && ToNormal(v, r)
    requires v.hosted.screen.normal == u.hosted.screen.normal && v.hosted.screen.log == u.hosted.screen.log
    requires v.hosted.screen.savedNormal == u.hosted.screen.savedNormal && SameSize(u.hosted.screen, v.hosted.screen)
    requires !v.origin && t.Y() < t.Height()
    ensures var s, n := t.hosted.screen, r.hosted.screen;
            && !n.onAlternate && n.normal == s.normal && n.log == s.log && n.attribute == s.attribute
            && n.x == Min(s.x, s.width - 1) && n.y == s.y
  {
  }

  // The attribute.

  /** The last of the numbers that some part of the attribute depends on. */
  function Latest(ps: seq<int>, counts: int -> bool): Option<int> {
    if ps == [] then None
    else
      var later := Latest(ps[1..], counts);
      if later.Some? then later else if counts(ps[0]) then Some(ps[0]) else None
  }

  predicate Resets(p: int) {
    p == -1 || p == 0
  }

  predicate ForBold(p: int) {
    Resets(p) || p == 1 || p == 22
  }

  predicate ForFaint(p: int) {
    Resets(p) || p == 2 || p == 22
  }

  predicate ForUnderlined(p: int) {
    Resets(p) || p == 4 || p == 24
  }

  predicate ForBlink(p: int) {
    Resets(p) || p == 5 || p == 25
  }

  predicate ForInverse(p: int) {
    Resets(p) || p == 7 || p == 27
  }

  predicate ForForeground(p: int) {
    Resets(p) || 30 <= p <= 37 || p == 39
  }

  predicate ForBackground(p: int) {
    Resets(p) || 40 <= p <= 47 || p == 49
  }

  /** A switch is as the last number says that turns it on or off. */
  predicate Switched(was: bool, now: bool, last: Option<int>, on: int) {
    now == if last.Some? then last.value == on else was
  }

  /** A colour is the one of the last number that names one, and else the default. */
  predicate Coloured(was: nat, now: nat, last: Option<int>, first: int, default: nat) {
    now == if last.None? then was
           else if first <= last.value < first + 8 then last.value - first + 2
           else default
  }

  /** Each part of the attribute is decided by the last number that is about it, and kept if none is. */
  predicate AttributeSet(a: Attribute, b: Attribute, ps: seq<int>) {
    && Switched(a.bold, b.bold, Latest(ps, ForBold), 1)
    && Switched(a.faint, b.faint, Latest(ps, ForFaint), 2)
    && Switched(a.underlined, b.underlined, Latest(ps, ForUnderlined), 4)
    && Switched(a.blink, b.blink, Latest(ps, ForBlink), 5)
    && Switched(a.inverse, b.inverse, Latest(ps, ForInverse), 7)
    && Coloured(a.foreground, b.foreground, Latest(ps, ForForeground), 30, 0)
    && Coloured(a.background, b.background, Latest(ps, ForBackground), 40, 1)
  }

  lemma OneSwitch(a: Attribute, p: int)
    ensures var b := SetAttribute(a, p);
            && Switched(a.bold, b.bold, if ForBold(p) then Some(p) else None, 1)
            && Switched(a.faint, b.faint, if ForFaint(p) then Some(p) else None, 2)
            && Switched(a.underlined, b.underlined, if ForUnderlined(p) then Some(p) else None, 4)
  {
  }

  lemma OneMoreSwitch(a: Attribute, p: int)
    ensures var b := SetAttribute(a, p);
            && Switched(a.blink, b.blink, if ForBlink(p) then Some(p) else None, 5)
            && Switched(a.inverse, b.inverse, if ForInverse(p) then Some(p) else None, 7)
  {
  }

  lemma OneForeground(a: Attribute, p: int)
    ensures Coloured(a.foreground, SetAttribute(a, p).foreground, if ForForeground(p) then Some(p) else None, 30, 0)
  {
  }

  lemma OneBackground(a: Attribute, p: int)
    ensures Coloured(a.background, SetAttribute(a, p).background, if ForBackground(p) then Some(p) else None, 40, 1)
  {
  }

  lemma {:induction false} AttributesAre(a: Attribute, ps: seq<int>)
    ensures AttributeSet(a, SetAttributes(a, ps), ps)
    decreases |ps|
  {
    hide SetAttribute, ForBold, ForFaint, ForUnderlined, ForBlink, ForInverse, ForForeground, ForBackground;
    if ps != [] {
      OneSwitch(a, ps[0]);
      OneMoreSwitch(a, ps[0]);
      OneForeground(a, ps[0]);
      OneBackground(a, ps[0]);
      AttributesAre(SetAttribute(a, ps[0]), ps[1..]);
    }
  }

  lemma AttributeSequence(w: Widths, t: Terminal)
    requires Ready(w, t) && t.kind == Primary
    ensures var ps := if t.parameters == [] then [-1] else t.parameters;
            Sequence(w, t, 'm')
            == t.(hosted := WithAttribute(t.hosted, SetAttributes(t.hosted.screen.attribute, ps)), parameters := ps)
  {
    hide Ready, SetAttributes;
  }

  /** Only the attribute changes; without a number it is reset, and with a mark nothing happens. */
  lemma AttributeIsSet(cfg: Config, t: Terminal, kind: Kind, ps: seq<int>)
    requires Can(cfg, t, kind, ps, 'm')
    ensures var r := Outcome(cfg, t, kind, ps, 'm');
            && r == t.(hosted := WithAttribute(t.hosted, r.hosted.screen.attribute))
            && (kind == Primary ==>
                  AttributeSet(t.hosted.screen.attribute, r.hosted.screen.attribute, if ps == [] then [-1] else ps))
            && (kind != Primary ==> r == t)
  {
    var u := Reads(t, kind, ps);
    hide Can, Ready, Outcome, SetAttributes, AttributeSet;
    OutcomeIs(cfg, t, kind, ps, 'm', u);
    if kind == Primary {
      AttributeSequence(cfg.w, u);
      AttributesAre(t.hosted.screen.attribute, if ps == [] then [-1] else ps);
    } else {
      assert Sequence(cfg.w, u, 'm') == u;
    }
    hide Sequence;
  }
}
