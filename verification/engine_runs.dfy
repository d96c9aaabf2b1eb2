/**
 Registrations over whole runs. While one is open nothing that is typed, not even registrations
 opened inside it, changes the levels below; when it is left they are as they were, and the level
 that asked takes the new text or its entry back.
 */
module EngineRuns {
  import opened Wrappers
  import opened RomajiTable
  import opened Candidates
  import opened EngineModel
  import opened EngineInvariant

  /** One stack is a prefix of the other. */
  ghost predicate Nested(a: seq<Level>, b: seq<Level>) {
    a <= b || b <= a
  }

  lemma TextStepsNest(s: State, c: char)
    ensures Nested(s.lower, TextPush(s, c).lower) && Nested(s.lower, TextPop(s).lower)
      && Nested(s.lower, TextCommit(s).lower)
  {
  }

  lemma QueryNests(cfg: Config, s: State)
    ensures s.lower <= Query(cfg, s).lower
  {
  }

  lemma ReduceNests(s: State, kana: string)
    ensures RomanReduce(s, kana).lower == s.lower
  {
  }

  lemma PressNests(cfg: Config, s: State, a: Action)
    ensures s.lower <= Press(cfg, s, a).lower
  {
    hide RomanReduce, Query;
    match a
    case Push(_, _) =>
    case Reduce(_, hiragana, katakana, restart) =>
      var kana := if s.katakana then katakana else hiragana;
      ReduceNests(s, kana);
      QueryNests(cfg, RomanReduce(s, kana));
  }

  lemma OthersNest(cfg: Config, s: State, c: char)
    ensures RomanOther(s, c).lower == s.lower && s.lower <= KanjiOther(cfg, s, c).lower
  {
    hide Query;
    QueryNests(cfg, s);
  }

  lemma RomanPrintNests(cfg: Config, s: State, ascii: char)
    ensures s.lower <= RomanPrint(cfg, s, ascii).lower
  {
    hide Press, RomanOther;
    var key := ToLower(ascii);
    var t := if Find(s.node, key).None? then DropPending(cfg, s) else s;
    assert t.lower == s.lower;
    OthersNest(cfg, t, ascii);
    if Find(t.node, key).Some? {
      PressNests(cfg, if AtTop(cfg, t) && key != ascii then t.(mode := Kanji) else t, Find(t.node, key).value);
    }
  }

  lemma KanjiPrintNests(cfg: Config, s: State, ascii: char)
    ensures s.lower <= KanjiPrint(cfg, s, ascii).lower
  {
    hide Press, KanjiOther;
    var retry := Find(s.node, ToLower(ascii)).None? && !AtTop(cfg, s);
    var t, key := if retry then RomanReset(cfg, s) else s, if retry then ascii else ToLower(ascii);
    assert t.lower == s.lower;
    OthersNest(cfg, t, ascii);
    if Find(t.node, key).Some? {
      PressNests(cfg, WithHiddenKey(cfg, t, ascii), Find(t.node, key).value);
    }
  }

  lemma RomanNests(cfg: Config, s: State, sym: KeySym, ascii: char)
    ensures Nested(s.lower, RomanKey(cfg, s, sym, ascii).lower)
  {
    hide TextPop, TextCommit, RomanPrint, RomanReset, Nested;
    RomanPrintNests(cfg, s, ascii);
    ExtendingNests(s.lower, RomanPrint(cfg, s, ascii).lower);
    ExtendingNests(s.lower, s.lower);
    TextStepsNest(s, ascii);
    ResetKeepsLevels(cfg, s);
    TextStepsNest(RomanReset(cfg, s), ascii);
  }

  lemma ExtendingNests(a: seq<Level>, b: seq<Level>)
    requires a <= b
    ensures Nested(a, b)
  {
  }

  lemma ResetKeepsLevels(cfg: Config, s: State)
    ensures RomanReset(cfg, s).lower == s.lower
  {
  }

  lemma KanjiNests(cfg: Config, s: State, sym: KeySym, ascii: char)
    ensures s.lower <= KanjiKey(cfg, s, sym, ascii).lower
  {
    hide KanjiPrint;
    KanjiPrintNests(cfg, s, ascii);
  }

  lemma NotChoosing(cfg: Config, s: State)
    requires Inv(cfg, s)
    ensures s.mode == Choose <==> s.candidates != []
    ensures s.mode == Choose ==> s.chosen < |s.candidates|
  {
  }

  lemma StepNests(cfg: Config, s: State, e: Event)
    requires Inv(cfg, s)
    ensures Nested(s.lower, Step(cfg, s, e).lower)
  {
    if e.Reset? {
      EmptyNests(s.lower);
    } else {
      var t := Before(s, e);
      hide LatinKey, WordKey, RomanKey, KanjiKey, ChooseKey, Nested, Inv;
      NotChoosing(cfg, s);
      match t.mode
      case Latin => LatinNests(t, e.sym, e.ascii);
      case Word =>
        WordNests(cfg, t, e.sym, e.ascii);
        ExtendingNests(t.lower, WordKey(cfg, t, e.sym, e.ascii).lower);
      case Roman => RomanNests(cfg, t, e.sym, e.ascii);
      case Kanji =>
        KanjiNests(cfg, t, e.sym, e.ascii);
        ExtendingNests(t.lower, KanjiKey(cfg, t, e.sym, e.ascii).lower);
      case Choose => ChooseNests(cfg, t, e.sym, e.ascii);
    }
  }

  lemma EmptyNests(a: seq<Level>)
    ensures Nested(a, [])
  {
  }

  lemma LatinNests(s: State, sym: KeySym, ascii: char)
    ensures Nested(s.lower, LatinKey(s, sym, ascii).lower)
  {
    hide TextPush, TextPop, TextCommit, Nested;
    TextStepsNest(s, ascii);
    ExtendingNests(s.lower, s.lower);
  }

  lemma WordNests(cfg: Config, s: State, sym: KeySym, ascii: char)
    ensures s.lower <= WordKey(cfg, s, sym, ascii).lower
  {
    hide Query;
    QueryNests(cfg, s);
  }

  lemma ChooseNests(cfg: Config, s: State, sym: KeySym, ascii: char)
    requires s.chosen < |s.candidates|
    ensures Nested(s.lower, ChooseKey(cfg, s, sym, ascii).lower)
  {
    var t := Accept(s);
    assert t.lower == s.lower;
    hide RomanKey, Accept;
    RomanNests(cfg, t, sym, ascii);
  }

  /** Throughout the run at least d levels stay below the top. */
  ghost predicate StaysAbove(cfg: Config, s: State, events: seq<Event>, d: nat)
    requires TableOk(cfg) && Inv(cfg, s)
    decreases |events|
  {
    if events == [] then |s.lower| >= d
    else
      StepKeepsInv(cfg, s, events[0]);
      |s.lower| >= d && StaysAbove(cfg, Step(cfg, s, events[0]), events[1..], d)
  }

  /** Whatever is typed inside a registration leaves every level below it untouched. */
  lemma {:induction false} LevelsBelowAreKept(cfg: Config, s: State, events: seq<Event>, d: nat)
    requires TableOk(cfg) && Inv(cfg, s) && StaysAbove(cfg, s, events, d)
    ensures |Run(cfg, s, events).lower| >= d
    ensures Run(cfg, s, events).lower[..d] == s.lower[..d]
    decreases |events|
  {
    if events != [] {
      StepNests(cfg, s, events[0]);
      StepKeepsInv(cfg, s, events[0]);
      LevelsBelowAreKept(cfg, Step(cfg, s, events[0]), events[1..], d);
    }
  }

  predicate IsReturnKey(e: Event) {
    !e.Reset? && IsReturn(e.sym, e.ascii)
  }

  predicate IsBackSpaceKey(e: Event) {
    !e.Reset? && IsBackSpace(e.sym, e.ascii) && !IsReturn(e.sym, e.ascii) && !IsLinefeed(e.sym, e.ascii)
  }

  lemma BeforeChangesFlagOnly(s: State, e: Event)
    ensures Before(s, e) == s.(forwarded := Before(s, e).forwarded)
  {
  }

  /** In an open registration Return finishes it, whatever romaji was still pending. */
  lemma ReturnFinishes(cfg: Config, s: State, e: Event)
    requires Inv(cfg, s) && s.lower != [] && (s.mode == Roman || s.mode == Latin) && IsReturnKey(e)
    ensures Step(cfg, s, e) == Finish(Before(s, e).(pending := "", node := cfg.root))
  {
    hide Finish;
    var t := Before(s, e);
    AtTopIffIdle(cfg, t);
    if s.mode == Roman {
      DropPendingKeepsInv(cfg, t);
      assert DropPending(cfg, t) == t.(pending := "", node := cfg.root);
    }
  }

  lemma FinishSplices(s: State, below: seq<Level>, asking: Level)
    requires s.lower == below + [asking] && s.candidates == [] && s.pending == ""
    ensures var s', whole := Finish(s), asking.text + s.top.text + asking.Okurigana();
            && s'.lower == below && s'.mode == Roman && s'.pending == ""
            && (below != [] ==> s'.top == Level(whole, "", "") && s'.committed == s.committed && Display(s') == whole)
            && (below == [] ==> s'.top == EMPTY_LEVEL && s'.committed == s.committed + [whole] && Display(s') == "")
            && s'.registered == s.registered
               + (if s.top.text == "" then [] else [Registration(asking.entry, asking.okuri, s.top.text)])
  {
    assert s.lower[..|below|] == below && s.lower[|below|] == asking;
    var whole := Spliced(asking, s.top.text);
    assert Finish(s).lower == below;
    assert s.registered + [] == s.registered;
    TextOnlyDisplay(Finish(s), if below != [] then whole else "");
  }

  lemma TextOnlyDisplay(s: State, text: string)
    requires s.top == Level(text, "", "") && s.candidates == [] && s.pending == ""
    ensures Display(s) == text
  {
  }

  lemma BackSpaceCancels(cfg: Config, s: State, e: Event)
    requires Inv(cfg, s) && s.lower != [] && (s.mode == Roman || s.mode == Latin) && IsBackSpaceKey(e)
    requires s.top.text == s.pending == ""
    ensures Step(cfg, s, e) == Cancel(Before(s, e))
  {
    hide Cancel;
    AtTopIffIdle(cfg, Before(s, e));
  }

  lemma CancelRestores(s: State, below: seq<Level>, asking: Level)
    requires s.lower == below + [asking] && s.candidates == [] && s.pending == ""
    ensures var s' := Cancel(s);
            && s'.lower == below && s'.top == asking.(okuri := "") && s'.mode == Kanji && s'.pending == ""
            && Display(s') == asking.text + asking.entry
            && s'.committed == s.committed && s'.registered == s.registered
  {
    assert s.lower[..|below|] == below && s.lower[|below|] == asking;
  }

  /** The levels found when a run returns to the registration it started in. */
  lemma LevelsOnReturn(cfg: Config, start: State, below: seq<Level>, asking: Level, events: seq<Event>)
    requires TableOk(cfg) && Inv(cfg, start) && start.lower == below + [asking]
    requires StaysAbove(cfg, start, events, |below| + 1) && |Run(cfg, start, events).lower| == |below| + 1
    ensures Run(cfg, start, events).lower == below + [asking]
  {
    hide *;
    LevelsBelowAreKept(cfg, start, events, |below| + 1);
    var ls := Run(cfg, start, events).lower;
    assert ls[..|below| + 1] == ls && start.lower[..|below| + 1] == start.lower;
  }

  /**
   A registration opened by the level asking, over the levels below, at any depth. After any run
   inside it, Return leaves below as it was, gives asking's text, the new text and the okurigana
   without its hidden key to the level that asked, or to the client if there is none left to keep
   it, and teaches the dictionary the new text for asking's entry, unless it is empty.
   */
  lemma RegistrationIsSpliced(cfg: Config, start: State, below: seq<Level>, asking: Level, events: seq<Event>, e: Event)
    requires TableOk(cfg) && Inv(cfg, start) && start.lower == below + [asking]
    requires StaysAbove(cfg, start, events, |below| + 1)
    requires var s := Run(cfg, start, events); |s.lower| == |below| + 1 && (s.mode == Roman || s.mode == Latin)
    requires IsReturnKey(e)
    ensures var s := Run(cfg, start, events);
            var s' := Step(cfg, s, e);
            var whole := asking.text + s.top.text + asking.Okurigana();
            && s'.lower == below && s'.mode == Roman && s'.pending == ""
            && (below != [] ==> s'.top == Level(whole, "", "") && s'.committed == s.committed && Display(s') == whole)
            && (below == [] ==> s'.top == EMPTY_LEVEL && s'.committed == s.committed + [whole] && Display(s') == "")
            && s'.registered == s.registered
               + (if s.top.text == "" then [] else [Registration(asking.entry, asking.okuri, s.top.text)])
  {
    hide *;
    LevelsOnReturn(cfg, start, below, asking, events);
    var s := Run(cfg, start, events);
    ReturnFinishes(cfg, s, e);
    NotChoosing(cfg, s);
    BeforeChangesFlagOnly(s, e);
    FinishSplices(Before(s, e).(pending := "", node := cfg.root), below, asking);
  }

  /** BackSpace in an empty registration gives the level that asked its text and entry back. */
  lemma EmptyRegistrationIsCancelled(cfg: Config, start: State, below: seq<Level>, asking: Level, events: seq<Event>,
      e: Event)
    requires TableOk(cfg) && Inv(cfg, start) && start.lower == below + [asking]
    requires StaysAbove(cfg, start, events, |below| + 1)
    requires var s := Run(cfg, start, events);
             |s.lower| == |below| + 1 && (s.mode == Roman || s.mode == Latin) && s.top.text == s.pending == ""
    requires IsBackSpaceKey(e)
    ensures var s := Run(cfg, start, events);
            var s' := Step(cfg, s, e);
            && s'.lower == below && s'.top == asking.(okuri := "") && s'.mode == Kanji && s'.pending == ""
            && Display(s') == asking.text + asking.entry
            && s'.committed == s.committed && s'.registered == s.registered
  {
    hide *;
    LevelsOnReturn(cfg, start, below, asking, events);
    var s := Run(cfg, start, events);
    BackSpaceCancels(cfg, s, e);
    NotChoosing(cfg, s);
    BeforeChangesFlagOnly(s, e);
    CancelRestores(Before(s, e), below, asking);
  }
}
