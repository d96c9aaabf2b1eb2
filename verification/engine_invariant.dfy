/**
 What holds between key presses, for every run, table and dictionary: which levels a mode allows,
 that the pending keys spell the path to the current node of the table, and that candidates are
 offered exactly while choosing.
 */
module EngineInvariant {
  import opened Wrappers
  import opened RomajiTable
  import opened Candidates
  import opened EngineModel

  ghost predicate TableOk(cfg: Config) {
    RestartsBelow(cfg.root, cfg.root)
  }

  /** Text waits for nothing at the bottom: it is sent to the client at once. */
  ghost predicate BottomHasNoText(s: State) {
    if s.lower == [] then s.top.text == "" else s.lower[0].text == ""
  }

  ghost predicate Shaped(s: State) {
    && BottomHasNoText(s)
    && (s.mode == Choose <==> s.candidates != [])
    && (s.mode == Choose ==> s.chosen < |s.candidates|)
    && (s.mode != Roman && s.mode != Kanji ==> s.pending == "")
    && (s.mode == Roman || s.mode == Latin ==> s.top.entry == "" && s.top.okuri == "")
    && (s.mode == Word ==> s.top.okuri == "")
    && (s.mode == Kanji && s.top.okuri != "" ==> s.pending != "")
    && (s.top.okuri != "" ==> s.top.entry != "")
  }

  ghost predicate Spelled(cfg: Config, s: State) {
    MapAt(cfg.root, s.pending) == Some(s.node)
  }

  ghost predicate Inv(cfg: Config, s: State) {
    Shaped(s) && Spelled(cfg, s)
  }

  lemma AtTopIffIdle(cfg: Config, s: State)
    requires Inv(cfg, s)
    ensures AtTop(cfg, s) <==> s.pending == ""
  {
    AtTopIffNothingPending(cfg.root, s.pending);
  }

  lemma DropPendingKeepsInv(cfg: Config, s: State)
    requires Inv(cfg, s) && (s.mode == Kanji || s.mode == Roman)
    ensures var s' := DropPending(cfg, s);
            && Inv(cfg, s') && s'.pending == "" && s'.mode == s.mode && s'.top.okuri == "" && AtTop(cfg, s')
  {
    AtTopIffIdle(cfg, s);
  }

  // The steps, from states without pending keys.

  ghost predicate Idle(cfg: Config, s: State) {
    Inv(cfg, s) && s.pending == "" && s.top.okuri == "" && s.mode != Choose
  }

  lemma TextPushKeepsInv(cfg: Config, s: State, c: char)
    requires Idle(cfg, s) && (s.mode == Roman || s.mode == Latin)
    ensures Inv(cfg, TextPush(s, c))
  {
  }

  lemma TextPopKeepsInv(cfg: Config, s: State)
    requires Idle(cfg, s) && (s.mode == Roman || s.mode == Latin)
    ensures Inv(cfg, TextPop(s))
  {
  }

  /** Text that is done, in roman mode with nothing pending. */
  lemma SettleKeepsInv(cfg: Config, s: State, text: string)
    requires Spelled(cfg, s) && s.mode == Roman && s.candidates == [] && s.pending == ""
    requires s.lower != [] ==> s.lower[0].text == ""
    ensures Inv(cfg, Settle(s, text))
  {
    hide Spelled;
    SpelledIs(cfg, s, Settle(s, text));
  }

  lemma SpelledIs(cfg: Config, s: State, t: State)
    requires Spelled(cfg, s) && t.pending == s.pending && t.node == s.node
    ensures Spelled(cfg, t)
  {
  }

  lemma CloseKeepsInv(cfg: Config, s: State)
    requires Idle(cfg, s) && s.candidates == [] && s.lower != []
    ensures Inv(cfg, Close(s))
  {
    var n := |s.lower| - 1;
    var t := s.(mode := Roman, lower := s.lower[..n]);
    SpelledIs(cfg, s, t);
    hide Spelled, Spliced, Settle;
    SettleKeepsInv(cfg, t, Spliced(s.lower[n], s.top.text));
  }

  lemma TextCommitKeepsInv(cfg: Config, s: State)
    requires Idle(cfg, s) && (s.mode == Roman || s.mode == Latin)
    ensures Inv(cfg, TextCommit(s))
  {
    var t := s.(forwarded := true);
    SpelledIs(cfg, s, t);
    if s.lower != [] {
      var r := Remember(s, s.lower[|s.lower| - 1], s.top.text);
      SpelledIs(cfg, s, r);
      hide Close, Spelled;
      CloseKeepsInv(cfg, s);
      CloseKeepsInv(cfg, r);
    }
  }

  lemma TextStepsKeepInv(cfg: Config, s: State, c: char)
    requires Idle(cfg, s) && (s.mode == Roman || s.mode == Latin)
    ensures Inv(cfg, TextPush(s, c)) && Inv(cfg, TextPop(s)) && Inv(cfg, TextCommit(s))
  {
    TextPushKeepsInv(cfg, s, c);
    TextPopKeepsInv(cfg, s);
    TextCommitKeepsInv(cfg, s);
  }

  lemma EntryStepsKeepInv(cfg: Config, s: State, c: char)
    requires Idle(cfg, s) && (s.mode == Word || s.mode == Kanji)
    ensures Inv(cfg, EntryPush(s, c)) && Inv(cfg, EntryPop(s)) && Inv(cfg, EntryCommit(s))
  {
  }

  lemma QueryKeepsInv(cfg: Config, s: State)
    requires BottomHasNoText(s) && s.pending == "" && (s.top.okuri != "" ==> s.top.entry != "")
    ensures Shaped(Query(cfg, s)) && Query(cfg, s).pending == "" && Query(cfg, s).node == s.node
  {
  }

  // Pressing an action.

  /** Ready to press: the state before the action, where a hidden key may just have been stored. */
  ghost predicate Ready(cfg: Config, s: State) {
    && Spelled(cfg, s) && s.candidates == [] && BottomHasNoText(s)
    && (s.mode == Kanji || (s.mode == Roman && s.top.entry == s.top.okuri == ""))
    && (s.top.okuri != "" ==> s.top.entry != "")
  }

  /** An action found at the current node can be pressed: a restart it names is a push. */
  lemma FoundIsPressable(cfg: Config, s: State, key: char)
    requires TableOk(cfg) && Spelled(cfg, s) && Find(s.node, key).Some?
    ensures var a := Find(s.node, key).value;
            && a.key == key
            && (a.Push? ==> MapAt(cfg.root, s.pending + [key]) == Some(a.next))
            && (a.Reduce? && a.restart.Some? ==>
                  Descend(cfg.root, a.restart.value).Some?
                    && MapAt(cfg.root, [a.restart.value]) == Descend(cfg.root, a.restart.value))
  {
    var a := Find(s.node, key).value;
    RestartsBelowAt(cfg.root, s.pending, cfg.root);
    MapAtSnoc(cfg.root, s.pending, key);
    assert a in s.node.children;
    if a.Reduce? && a.restart.Some? {
      MapAtSnoc(cfg.root, "", a.restart.value);
      assert "" + [a.restart.value] == [a.restart.value];
    }
  }

  lemma ReduceKeepsReady(cfg: Config, s: State, kana: string)
    requires Ready(cfg, s)
    ensures var s' := RomanReduce(s, kana);
            && s'.mode == s.mode && s'.candidates == [] && s'.pending == "" && BottomHasNoText(s')
            && (s.mode == Roman ==> s'.top.entry == s'.top.okuri == "")
            && (s'.top.okuri != "" ==> s'.top.entry != "")
  {
  }

  lemma PressKeepsInv(cfg: Config, s: State, key: char)
    requires TableOk(cfg) && Ready(cfg, s) && Find(s.node, key).Some?
    ensures Inv(cfg, Press(cfg, s, Find(s.node, key).value))
  {
    hide RomanReduce, Query;
    FoundIsPressable(cfg, s, key);
    match Find(s.node, key).value
    case Push(_, next) =>
    case Reduce(_, hiragana, katakana, restart) =>
      var kana := if s.katakana then katakana else hiragana;
      ReduceKeepsReady(cfg, s, kana);
      var s' := RomanReduce(s, kana);
      if restart.Some? {
        assert s'.pending + [restart.value] == [restart.value];
      } else if s'.top.okuri != "" {
        QueryKeepsInv(cfg, s');
      }
  }

  // The modes.

  lemma LatinKeepsInv(cfg: Config, s: State, sym: KeySym, ascii: char)
    requires Inv(cfg, s) && s.mode == Latin
    ensures Inv(cfg, LatinKey(s, sym, ascii))
  {
    TextStepsKeepInv(cfg, s, ascii);
    SpelledIs(cfg, s, s.(mode := Roman));
    SpelledIs(cfg, s, Forward(s));
    hide TextPush, TextPop, TextCommit, Spelled, BufferEmpty;
  }

  lemma WordKeepsInv(cfg: Config, s: State, sym: KeySym, ascii: char)
    requires Inv(cfg, s) && s.mode == Word
    ensures Inv(cfg, WordKey(cfg, s, sym, ascii))
  {
    EntryStepsKeepInv(cfg, s, ascii);
    QueryKeepsInv(cfg, s);
    hide EntryPush, EntryPop, EntryCommit, Query;
  }

  lemma RomanKeepsInv(cfg: Config, s: State, sym: KeySym, ascii: char)
    requires TableOk(cfg) && Inv(cfg, s) && s.mode == Roman
    ensures Inv(cfg, RomanKey(cfg, s, sym, ascii))
  {
    AtTopIffIdle(cfg, s);
    DropPendingKeepsInv(cfg, s);
    TextStepsKeepInv(cfg, DropPending(cfg, s), ascii);
    RomanPrintKeepsInv(cfg, s, ascii);
    hide TextPush, TextPop, TextCommit, RomanPrint, Shaped, Spelled;
  }

  lemma RomanPrintKeepsInv(cfg: Config, s: State, ascii: char)
    requires TableOk(cfg) && Inv(cfg, s) && s.mode == Roman
    ensures Inv(cfg, RomanPrint(cfg, s, ascii))
  {
    hide Press, RomanOther;
    AtTopIffIdle(cfg, s);
    DropPendingKeepsInv(cfg, s);
    var key := ToLower(ascii);
    var s' := if Find(s.node, key).None? then DropPending(cfg, s) else s;
    if Find(s'.node, key).Some? {
      PressKeepsInv(cfg, if AtTop(cfg, s') && key != ascii then s'.(mode := Kanji) else s', key);
    } else {
      RomanOtherKeepsInv(cfg, s', ascii);
    }
  }

  lemma RomanOtherKeepsInv(cfg: Config, s: State, ascii: char)
    requires Idle(cfg, s) && s.mode == Roman
    ensures Inv(cfg, RomanOther(s, ascii))
  {
    TextPushKeepsInv(cfg, s, ascii);
  }

  lemma KanjiKeepsInv(cfg: Config, s: State, sym: KeySym, ascii: char)
    requires TableOk(cfg) && Inv(cfg, s) && s.mode == Kanji
    ensures Inv(cfg, KanjiKey(cfg, s, sym, ascii))
  {
    AtTopIffIdle(cfg, s);
    DropPendingKeepsInv(cfg, s);
    EntryStepsKeepInv(cfg, DropPending(cfg, s), ascii);
    KanjiPrintKeepsInv(cfg, s, ascii);
    hide EntryPush, EntryPop, EntryCommit, KanjiPrint;
  }

  lemma KanjiPrintKeepsInv(cfg: Config, s: State, ascii: char)
    requires TableOk(cfg) && Inv(cfg, s) && s.mode == Kanji
    ensures Inv(cfg, KanjiPrint(cfg, s, ascii))
  {
    hide Press, KanjiOther, WithHiddenKey;
    AtTopIffIdle(cfg, s);
    DropPendingKeepsInv(cfg, s);
    var retry := Find(s.node, ToLower(ascii)).None? && !AtTop(cfg, s);
    var s' := if retry then RomanReset(cfg, s) else s;
    var key := if retry then ascii else ToLower(ascii);
    if Find(s'.node, key).Some? {
      HiddenKeyIsReady(cfg, s', ascii);
      PressKeepsInv(cfg, WithHiddenKey(cfg, s', ascii), key);
    } else {
      KanjiOtherKeepsInv(cfg, s', ascii);
    }
  }

  lemma KanjiOtherKeepsInv(cfg: Config, s: State, ascii: char)
    requires Idle(cfg, s) && s.mode == Kanji
    ensures Inv(cfg, KanjiOther(cfg, s, ascii))
  {
    EntryStepsKeepInv(cfg, s, ascii);
    QueryKeepsInv(cfg, s);
    SpelledIs(cfg, s, Query(cfg, s));
    hide EntryPush, Query, Spelled;
    if ascii == '/' || ascii == 'l' {
      SpelledIs(cfg, s, s.(mode := Word));
    } else if ascii == 'q' {
      SpelledIs(cfg, s, s.(katakana := !s.katakana));
    }
  }

  lemma HiddenKeyIsReady(cfg: Config, s: State, ascii: char)
    requires Inv(cfg, s) && s.mode == Kanji
    ensures Ready(cfg, WithHiddenKey(cfg, s, ascii)) && WithHiddenKey(cfg, s, ascii).node == s.node
  {
  }

  lemma AcceptKeepsInv(cfg: Config, s: State)
    requires Inv(cfg, s) && s.mode == Choose
    ensures Inv(cfg, Accept(s)) && Accept(s).mode == Roman
  {
  }

  lemma ListKeepsInv(cfg: Config, s: State)
    requires Inv(cfg, s) && s.mode == Choose
    ensures Inv(cfg, Back(s)) && Inv(cfg, Next(s))
    ensures s.chosen > 0 ==> Inv(cfg, Previous(s))
  {
  }

  lemma ChooseKeepsInv(cfg: Config, s: State, sym: KeySym, ascii: char)
    requires TableOk(cfg) && Inv(cfg, s) && s.mode == Choose
    ensures Inv(cfg, ChooseKey(cfg, s, sym, ascii))
  {
    hide Accept, RomanKey, Next, Back;
    AcceptKeepsInv(cfg, s);
    RomanKeepsInv(cfg, Accept(s), sym, ascii);
    ListKeepsInv(cfg, s);
  }

  /** One key keeps the invariant, whatever the key, the table and the dictionary's answer. */
  lemma KeyKeepsInv(cfg: Config, s: State, sym: KeySym, ascii: char)
    requires TableOk(cfg) && Inv(cfg, s)
    ensures Inv(cfg, KeyPressed(cfg, s, sym, ascii))
  {
    match s.mode
    case Latin => LatinKeepsInv(cfg, s, sym, ascii);
    case Word => WordKeepsInv(cfg, s, sym, ascii);
    case Roman => RomanKeepsInv(cfg, s, sym, ascii);
    case Kanji => KanjiKeepsInv(cfg, s, sym, ascii);
    case Choose => ChooseKeepsInv(cfg, s, sym, ascii);
  }

  lemma StepKeepsInv(cfg: Config, s: State, e: Event)
    requires TableOk(cfg) && Inv(cfg, s)
    ensures Inv(cfg, Step(cfg, s, e))
  {
    if !e.Reset? {
      KeyKeepsInv(cfg, Before(s, e), e.sym, e.ascii);
    }
  }

  /** The state after a run of events; the invariant makes every step of it possible. */
  ghost function Run(cfg: Config, s: State, events: seq<Event>): (r: State)
    requires TableOk(cfg) && Inv(cfg, s)
    ensures Inv(cfg, r)
    decreases |events|
  {
    if events == [] then s
    else
      StepKeepsInv(cfg, s, events[0]);
      Run(cfg, Step(cfg, s, events[0]), events[1..])
  }

  lemma RunNone(cfg: Config, s: State)
    requires TableOk(cfg) && Inv(cfg, s)
    ensures Run(cfg, s, []) == s
  {
  }

  lemma {:induction false} RunSnoc(cfg: Config, s: State, events: seq<Event>, e: Event)
    requires TableOk(cfg) && Inv(cfg, s)
    ensures Run(cfg, s, events + [e]) == Step(cfg, Run(cfg, s, events), e)
    decreases |events|
  {
    if events == [] {
      assert ([e])[1..] == [];
    } else {
      StepKeepsInv(cfg, s, events[0]);
      assert (events + [e])[1..] == events[1..] + [e];
      RunSnoc(cfg, Step(cfg, s, events[0]), events[1..], e);
    }
  }
}
