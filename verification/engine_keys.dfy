/**
 What the keys do, as the user sees it: the kana that a spelling gives and where they go, what a
 choice sends and what it teaches the dictionary, and what every other key changes. Spellings are
 read along their whole path from the top of the table.
 */
module EngineKeys {
  import opened Wrappers
  import opened RomajiTable
  import opened Candidates
  import opened EngineModel
  import opened EngineInvariant
  import opened EngineRuns

  /** What keys of a spelling have given: the kana that are complete, and the keys still pending. */
  datatype Sounded = Sounded(kana: seq<string>, pending: string)

  function Concat(kana: seq<string>): string {
    if kana == [] then "" else kana[0] + Concat(kana[1..])
  }

  lemma {:induction false} ConcatOfTwo(a: seq<string>, b: seq<string>)
    ensures Concat(a + b) == Concat(a) + Concat(b)
  {
    if a == [] {
      assert a + b == b;
    } else {
      assert (a + b)[0] == a[0] && (a + b)[1..] == a[1..] + b;
      ConcatOfTwo(a[1..], b);
    }
  }

  lemma ConcatOfOne(kana: string)
    ensures Concat([kana]) == kana && Concat([]) == ""
  {
    assert [kana][1..] == [];
  }

  /** One more key behind the pending ones. */
  function Sound(root: Map, katakana: bool, pending: string, key: char): Option<Sounded> {
    match MapAt(root, pending)
    case None => None
    case Some(node) =>
      match Find(node, key)
      case None => None
      case Some(Push(_, _)) => Some(Sounded([], pending + [key]))
      case Some(Reduce(_, h, k, restart)) =>
        Some(Sounded([if katakana then k else h], if restart.Some? then [restart.value] else ""))
  }

  /** Keys that each go on with what is pending. */
  function Transcribe(root: Map, katakana: bool, pending: string, keys: string): Option<Sounded>
    decreases |keys|
  {
    if keys == "" then Some(Sounded([], pending))
    else
      match Sound(root, katakana, pending, keys[0])
      case None => None
      case Some(p) =>
        match Transcribe(root, katakana, p.pending, keys[1..])
        case None => None
        case Some(q) => Some(Sounded(p.kana + q.kana, q.pending))
  }

  // The keys.

  predicate IsPrinting(e: Event) {
    !e.Reset? && e.sym == OtherKey && IsPrint(e.ascii)
  }

  predicate IsCapital(c: char) {
    ToLower(c) != c
  }

  predicate IsLinefeedKey(e: Event) {
    && !e.Reset? && IsLinefeed(e.sym, e.ascii) && !IsReturn(e.sym, e.ascii) && !IsBackSpace(e.sym, e.ascii)
    && !IsPrint(e.ascii)
  }

  /** A key that stands for nothing the engine knows. */
  predicate IsUnknown(e: Event) {
    !e.Reset? && e.sym == OtherKey && !IsPrint(e.ascii) && e.ascii != CONTROL_M && e.ascii != CONTROL_J
    && e.ascii != CONTROL_H
  }

  // Kana: from the pending keys and one more.

  /** Keys pending, and the node they spell. */
  function Pending(cfg: Config, s: State, pending: string): State
    requires MapAt(cfg.root, pending).Some?
  {
    s.(pending := pending, node := MapAt(cfg.root, pending).value)
  }

  /** In roman mode kana go to the client, or to the text of a registration. */
  ghost predicate RomanGives(cfg: Config, s: State, t: State, p: Sounded) {
    && MapAt(cfg.root, p.pending).Some?
    && t == Pending(cfg, s, p.pending).(forwarded := t.forwarded, committed := t.committed, top := t.top)
    && (s.lower == [] ==> t.committed == s.committed + p.kana && t.top == s.top)
    && (s.lower != [] ==> t.committed == s.committed && t.top == s.top.(text := s.top.text + Concat(p.kana)))
  }

  /** In kanji mode they go to the entry. */
  ghost predicate KanjiGives(cfg: Config, s: State, t: State, p: Sounded) {
    && MapAt(cfg.root, p.pending).Some?
    && t == Pending(cfg, s, p.pending).(forwarded := t.forwarded, mode := Kanji, top := t.top)
    && t.top == s.top.(entry := s.top.entry + Concat(p.kana))
  }

  /** The dictionary is asked for the entry and okurigana at the top: candidates, or a registration above. */
  ghost predicate Asks(cfg: Config, s: State, t: State) {
    var found := cfg.lookup(s.registered, s.top.entry, s.top.okuri);
    && (found != [] ==>
          && t == s.(mode := Choose, candidates := found, chosen := 0, choosing := false)
          && Middle(t) == found[0].text)
    && (found == [] ==>
          t == s.(mode := Roman, candidates := [], lower := s.lower + [s.top], top := Level("", "", "")))
  }

  /** The okurigana with its hidden key; with nothing pending behind it, it is complete and the dictionary is asked. */
  ghost predicate OkuriGives(cfg: Config, s: State, t: State, okuri: string, p: Sounded) {
    && MapAt(cfg.root, p.pending).Some?
    && var u := Pending(cfg, s, p.pending).(forwarded := t.forwarded, top := s.top.(okuri := okuri + Concat(p.kana)));
       if p.pending == "" then Asks(cfg, u, t) else t == u
  }

  lemma ReduceIs(s: State, kana: string)
    ensures var t := RomanReduce(s, kana);
            && t == s.(pending := "", top := t.top, committed := t.committed)
            && (s.mode != Kanji && s.lower == [] ==> t.committed == s.committed + [kana] && t.top == Level("", "", ""))
            && (s.mode != Kanji && s.lower != [] ==>
                  t.committed == s.committed && t.top == s.top.(text := s.top.text + kana))
            && (s.mode == Kanji && s.top.okuri == "" ==>
                  t.committed == s.committed && t.top == s.top.(entry := s.top.entry + kana))
            && (s.mode == Kanji && s.top.okuri != "" ==>
                  t.committed == s.committed && t.top == s.top.(okuri := s.top.okuri + kana))
  {
  }

  lemma QueryAsks(cfg: Config, s: State)
    requires s.candidates == []
    ensures Asks(cfg, s, Query(cfg, s))
  {
  }

  lemma AskingKeepsNode(cfg: Config, s: State, t: State, node: Map)
    requires Asks(cfg, s, t)
    ensures Asks(cfg, s.(node := node), t.(node := node))
  {
  }

  /** Pressing what was found behind the pending keys. */
  lemma PressGives(cfg: Config, s: State, key: char)
    requires TableOk(cfg) && Ready(cfg, s) && Find(s.node, key).Some?
    ensures Sound(cfg.root, s.katakana, s.pending, key).Some?
    ensures var p := Sound(cfg.root, s.katakana, s.pending, key).value;
            var t := Press(cfg, s, Find(s.node, key).value);
            && t.forwarded == s.forwarded
            && (s.mode == Roman ==> RomanGives(cfg, s, t, p))
            && (s.mode == Kanji && s.top.okuri == "" ==> KanjiGives(cfg, s, t, p))
            && (s.mode == Kanji && s.top.okuri != "" ==> OkuriGives(cfg, s, t, s.top.okuri, p))
  {
    FoundIsPressable(cfg, s, key);
    var a := Find(s.node, key).value;
    ConcatOfOne("");
    if a.Push? {
      hide RomanReduce, Query, Asks;
      assert s.top.text + "" == s.top.text && s.top.entry + "" == s.top.entry && s.top.okuri + "" == s.top.okuri;
      assert s.committed + [] == s.committed;
    } else {
      var kana := if s.katakana then a.katakana else a.hiragana;
      ReducedGives(cfg, s, a, kana);
    }
  }

  lemma ReducedGives(cfg: Config, s: State, a: Action, kana: string)
    requires Ready(cfg, s) && a.Reduce? && kana == (if s.katakana then a.katakana else a.hiragana)
    requires a.restart.Some? ==>
               && Descend(cfg.root, a.restart.value).Some?
               && MapAt(cfg.root, [a.restart.value]) == Descend(cfg.root, a.restart.value)
    ensures var p := Sounded([kana], if a.restart.Some? then [a.restart.value] else "");
            var t := Press(cfg, s, a);
            && t.forwarded == s.forwarded
            && (s.mode == Roman ==> RomanGives(cfg, s, t, p))
            && (s.mode == Kanji && s.top.okuri == "" ==> KanjiGives(cfg, s, t, p))
            && (s.mode == Kanji && s.top.okuri != "" ==> OkuriGives(cfg, s, t, s.top.okuri, p))
  {
    ConcatOfOne(kana);
    ReduceIs(s, kana);
    var u := RomanReduce(s, kana);
    RestartIs(cfg, s, a, u);
    QueryAsks(cfg, u);
    AskingKeepsNode(cfg, u, Query(cfg, u), cfg.root);
    hide RomanReduce, Query, Asks, Concat, Press, Descend, Inv, Ready;
  }

  /** What is pending behind kana: the key that restarts the spelling, or nothing. */
  lemma RestartIs(cfg: Config, s: State, a: Action, u: State)
    requires a.Reduce? && u == RomanReduce(s, if s.katakana then a.katakana else a.hiragana) && u.pending == ""
    requires a.restart.Some? ==> Descend(cfg.root, a.restart.value).Some?
    ensures Press(cfg, s, a)
         == if a.restart.Some? then
              u.(pending := [a.restart.value], node := Descend(cfg.root, a.restart.value).value)
            else (if u.top.okuri != "" then Query(cfg, u) else u).(node := cfg.root)
  {
    hide RomanReduce, Query, Descend;
    if a.restart.Some? {
      assert u.pending + [a.restart.value] == [a.restart.value];
    }
  }

  /** What the next key of a spelling sounds. */
  function NextSound(cfg: Config, s: State, key: char): Option<Sounded> {
    Sound(cfg.root, s.katakana, s.pending, key)
  }

  lemma SoundIsFound(cfg: Config, s: State, key: char)
    requires Spelled(cfg, s) && NextSound(cfg, s, key).Some?
    ensures Find(s.node, key).Some?
  {
  }

  lemma FlagIsKept(cfg: Config, s: State, e: Event)
    requires Inv(cfg, s)
    ensures Inv(cfg, Before(s, e)) && Before(s, e) == s.(forwarded := Before(s, e).forwarded)
  {
  }

  lemma RomanPresses(cfg: Config, s: State, e: Event)
    requires Inv(cfg, s) && s.mode == Roman && IsPrinting(e) && Find(s.node, ToLower(e.ascii)).Some?
    ensures Step(cfg, s, e)
         == Press(cfg, if s.pending == "" && IsCapital(e.ascii) then Before(s, e).(mode := Kanji) else Before(s, e),
              Find(s.node, ToLower(e.ascii)).value)
  {
    AtTopIffIdle(cfg, s);
    hide Press, Inv, Find;
  }

  lemma KanjiPresses(cfg: Config, s: State, e: Event)
    requires Inv(cfg, s) && s.mode == Kanji && IsPrinting(e) && Find(s.node, ToLower(e.ascii)).Some?
    ensures Step(cfg, s, e)
         == Press(cfg, WithHiddenKey(cfg, Before(s, e), e.ascii), Find(s.node, ToLower(e.ascii)).value)
  {
    hide Press, Inv, Find, WithHiddenKey;
  }

  /** A lower-case key, or a capital that goes on with a spelling. */
  lemma RomanSounds(cfg: Config, s: State, e: Event)
    requires TableOk(cfg) && Inv(cfg, s) && s.mode == Roman && IsPrinting(e)
    requires s.pending != "" || !IsCapital(e.ascii)
    requires NextSound(cfg, s, ToLower(e.ascii)).Some?
    ensures RomanGives(cfg, s, Step(cfg, s, e), NextSound(cfg, s, ToLower(e.ascii)).value)
    ensures Step(cfg, s, e).forwarded == Before(s, e).forwarded
  {
    var u := Before(s, e);
    FlagIsKept(cfg, s, e);
    SoundIsFound(cfg, u, ToLower(e.ascii));
    RomanPresses(cfg, s, e);
    PressGives(cfg, u, ToLower(e.ascii));
    hide Press, Sound, Step;
  }

  /** A capital with nothing pending begins an entry. */
  lemma CapitalBeginsEntry(cfg: Config, s: State, e: Event)
    requires TableOk(cfg) && Inv(cfg, s) && s.mode == Roman && IsPrinting(e)
    requires s.pending == "" && IsCapital(e.ascii)
    requires NextSound(cfg, s, ToLower(e.ascii)).Some?
    ensures KanjiGives(cfg, s, Step(cfg, s, e), NextSound(cfg, s, ToLower(e.ascii)).value)
    ensures Step(cfg, s, e).forwarded == Before(s, e).forwarded
  {
    var u := Before(s, e);
    FlagIsKept(cfg, s, e);
    SoundIsFound(cfg, u, ToLower(e.ascii));
    RomanPresses(cfg, s, e);
    PressGives(cfg, u.(mode := Kanji), ToLower(e.ascii));
    hide Press, Sound, Step;
  }

  lemma KanjiSounds(cfg: Config, s: State, e: Event)
    requires TableOk(cfg) && Inv(cfg, s) && s.mode == Kanji && IsPrinting(e) && s.top.okuri == ""
    requires s.pending != "" || !IsCapital(e.ascii) || s.top.entry == ""
    requires NextSound(cfg, s, ToLower(e.ascii)).Some?
    ensures KanjiGives(cfg, s, Step(cfg, s, e), NextSound(cfg, s, ToLower(e.ascii)).value)
    ensures Step(cfg, s, e).forwarded == Before(s, e).forwarded
  {
    var u := Before(s, e);
    FlagIsKept(cfg, s, e);
    AtTopIffIdle(cfg, u);
    SoundIsFound(cfg, u, ToLower(e.ascii));
    KanjiPresses(cfg, s, e);
    PressGives(cfg, u, ToLower(e.ascii));
    hide Press, Sound, Step;
  }

  /** A capital with nothing pending behind an entry is the hidden key of the okurigana. */
  function OkuriFrom(s: State, e: Event): string
    requires IsPrinting(e)
  {
    if s.top.okuri == "" then [ToLower(e.ascii)] else s.top.okuri
  }

  lemma OkuriSounds(cfg: Config, s: State, e: Event)
    requires TableOk(cfg) && Inv(cfg, s) && s.mode == Kanji && IsPrinting(e)
    requires s.top.okuri != "" || (s.pending == "" && IsCapital(e.ascii) && s.top.entry != "")
    requires NextSound(cfg, s, ToLower(e.ascii)).Some?
    ensures OkuriGives(cfg, s, Step(cfg, s, e), OkuriFrom(s, e), NextSound(cfg, s, ToLower(e.ascii)).value)
    ensures Step(cfg, s, e).forwarded == Before(s, e).forwarded
  {
    var u := Before(s, e);
    FlagIsKept(cfg, s, e);
    AtTopIffIdle(cfg, u);
    SoundIsFound(cfg, u, ToLower(e.ascii));
    HiddenKeyIsReady(cfg, u, e.ascii);
    KanjiPresses(cfg, s, e);
    PressGives(cfg, WithHiddenKey(cfg, u, e.ascii), ToLower(e.ascii));
    hide Press, Sound, Concat, Step;
  }

  // Spellings over runs of keys.

  function Keys(keys: string): (r: seq<Event>)
    ensures |r| == |keys|
  {
    seq(|keys|, i requires 0 <= i < |keys| => Key(OtherKey, keys[i]))
  }

  /** Keys that can be printed, none of them a capital. */
  predicate ArePlain(keys: string) {
    forall i :: 0 <= i < |keys| ==> IsPrint(keys[i]) && !IsCapital(keys[i])
  }

  lemma KeysStep(keys: string)
    requires keys != ""
    ensures Keys(keys)[0] == Key(OtherKey, keys[0]) && Keys(keys)[1..] == Keys(keys[1..])
    ensures ArePlain(keys) ==> IsPrint(keys[0]) && ToLower(keys[0]) == keys[0] && ArePlain(keys[1..])
  {
  }

  lemma KeysOfTwo(a: string, b: string)
    ensures Keys(a + b) == Keys(a) + Keys(b)
  {
  }

  lemma RomanGivesTwice(cfg: Config, s: State, t: State, u: State, p: Sounded, q: Sounded)
    requires RomanGives(cfg, s, t, p) && RomanGives(cfg, t, u, q)
    ensures RomanGives(cfg, s, u, Sounded(p.kana + q.kana, q.pending))
  {
    ConcatOfTwo(p.kana, q.kana);
    Regroup(s.top.text, Concat(p.kana), Concat(q.kana));
    assert s.committed + p.kana + q.kana == s.committed + (p.kana + q.kana);
    hide Concat, MapAt;
  }

  lemma KanjiGivesTwice(cfg: Config, s: State, t: State, u: State, p: Sounded, q: Sounded)
    requires KanjiGives(cfg, s, t, p) && KanjiGives(cfg, t, u, q)
    ensures KanjiGives(cfg, s, u, Sounded(p.kana + q.kana, q.pending))
  {
    ConcatOfTwo(p.kana, q.kana);
    Regroup(s.top.entry, Concat(p.kana), Concat(q.kana));
    hide Concat, MapAt;
  }

  /** In roman mode any keys that spell give exactly their kana: sent one by one, or joined to a registration. */
  lemma {:induction false} RomanTranscribes(cfg: Config, s: State, keys: string)
    requires TableOk(cfg) && Inv(cfg, s) && s.mode == Roman && ArePlain(keys)
    requires Transcribe(cfg.root, s.katakana, s.pending, keys).Some?
    ensures RomanGives(cfg, s, Run(cfg, s, Keys(keys)), Transcribe(cfg.root, s.katakana, s.pending, keys).value)
    ensures keys != "" ==> !Run(cfg, s, Keys(keys)).forwarded
    decreases |keys|
  {
    hide Step, Inv, TableOk, Sound;
    if keys == "" {
      NothingGiven(cfg, s);
    } else {
      var e := Key(OtherKey, keys[0]);
      KeysStep(keys);
      RomanSounds(cfg, s, e);
      StepKeepsInv(cfg, s, e);
      var t, p := Step(cfg, s, e), NextSound(cfg, s, keys[0]).value;
      RomanTranscribes(cfg, t, keys[1..]);
      RomanGivesTwice(cfg, s, t, Run(cfg, t, Keys(keys[1..])), p,
        Transcribe(cfg.root, s.katakana, p.pending, keys[1..]).value);
    }
  }

  lemma NothingGiven(cfg: Config, s: State)
    requires Inv(cfg, s)
    ensures s.mode == Roman ==> RomanGives(cfg, s, s, Sounded([], s.pending))
    ensures s.mode == Kanji ==> KanjiGives(cfg, s, s, Sounded([], s.pending))
  {
    assert s.committed + [] == s.committed && s.top.text + "" == s.top.text && s.top.entry + "" == s.top.entry;
  }

  /** In kanji mode they join the entry. */
  lemma {:induction false} KanjiTranscribes(cfg: Config, s: State, keys: string)
    requires TableOk(cfg) && Inv(cfg, s) && s.mode == Kanji && s.top.okuri == "" && ArePlain(keys)
    requires Transcribe(cfg.root, s.katakana, s.pending, keys).Some?
    ensures KanjiGives(cfg, s, Run(cfg, s, Keys(keys)), Transcribe(cfg.root, s.katakana, s.pending, keys).value)
    ensures keys != "" ==> !Run(cfg, s, Keys(keys)).forwarded
    decreases |keys|
  {
    hide Step, Inv, TableOk, Sound;
    if keys == "" {
      NothingGiven(cfg, s);
    } else {
      var e := Key(OtherKey, keys[0]);
      KeysStep(keys);
      KanjiSounds(cfg, s, e);
      StepKeepsInv(cfg, s, e);
      var t, p := Step(cfg, s, e), NextSound(cfg, s, keys[0]).value;
      KanjiTranscribes(cfg, t, keys[1..]);
      KanjiGivesTwice(cfg, s, t, Run(cfg, t, Keys(keys[1..])), p,
        Transcribe(cfg.root, s.katakana, p.pending, keys[1..]).value);
    }
  }

  /** Every key but the last leaves something pending: as "tt" of "tta", where the restart still waits. */
  predicate GoesOn(root: Map, katakana: bool, pending: string, keys: string)
    decreases |keys|
  {
    |keys| <= 1 ||
    (var p := Sound(root, katakana, pending, keys[0]);
     p.Some? && p.value.pending != "" && GoesOn(root, katakana, p.value.pending, keys[1..]))
  }

  lemma Regroup(a: string, b: string, c: string)
    ensures (a + b) + c == a + (b + c)
  {
  }

  lemma OkuriGivesTwice(cfg: Config, s: State, t: State, u: State, okuri: string, p: Sounded, q: Sounded)
    requires OkuriGives(cfg, s, t, okuri, p) && p.pending != "" && OkuriGives(cfg, t, u, t.top.okuri, q)
    ensures OkuriGives(cfg, s, u, okuri, Sounded(p.kana + q.kana, q.pending))
  {
    ConcatOfTwo(p.kana, q.kana);
    Regroup(okuri, Concat(p.kana), Concat(q.kana));
    hide Asks, Concat, MapAt;
  }

  /**
   The keys of an okurigana, the first of them a capital that is also its hidden key, or the rest of
   one begun: they give the okurigana its kana, and the last asks the dictionary.
   */
  lemma {:induction false} OkuriTranscribes(cfg: Config, s: State, key: char, keys: string)
    requires TableOk(cfg) && Inv(cfg, s) && s.mode == Kanji && IsPrint(key) && ArePlain(keys)
    requires s.top.okuri != "" || (s.pending == "" && IsCapital(key) && s.top.entry != "")
    requires Transcribe(cfg.root, s.katakana, s.pending, [ToLower(key)] + keys).Some?
    requires GoesOn(cfg.root, s.katakana, s.pending, [ToLower(key)] + keys)
    ensures OkuriGives(cfg, s, Run(cfg, s, Keys([key] + keys)), OkuriFrom(s, Key(OtherKey, key)),
                       Transcribe(cfg.root, s.katakana, s.pending, [ToLower(key)] + keys).value)
    ensures !Run(cfg, s, Keys([key] + keys)).forwarded
    decreases |keys|
  {
    hide Step, Inv, TableOk, Sound, Asks, Concat;
    var e := Key(OtherKey, key);
    KeysStep([key] + keys);
    assert ([key] + keys)[1..] == keys && ([ToLower(key)] + keys)[1..] == keys;
    OkuriSounds(cfg, s, e);
    StepKeepsInv(cfg, s, e);
    var t, p := Step(cfg, s, e), NextSound(cfg, s, ToLower(key)).value;
    if keys == "" {
      assert p.kana + [] == p.kana;
    } else {
      KeysStep(keys);
      assert keys == [ToLower(keys[0])] + keys[1..] == [keys[0]] + keys[1..];
      OkuriTranscribes(cfg, t, keys[0], keys[1..]);
      OkuriGivesTwice(cfg, s, t, Run(cfg, t, Keys(keys)), OkuriFrom(s, e), p,
        Transcribe(cfg.root, s.katakana, p.pending, keys).value);
    }
  }

  lemma {:induction false} RunOfTwo(cfg: Config, s: State, a: seq<Event>, b: seq<Event>)
    requires TableOk(cfg) && Inv(cfg, s)
    ensures Run(cfg, s, a + b) == Run(cfg, Run(cfg, s, a), b)
    decreases |a|
  {
    hide Step, Inv, TableOk;
    if a == [] {
      assert a + b == b;
    } else {
      NotChoosing(cfg, s);
      StepKeepsInv(cfg, s, a[0]);
      assert (a + b)[0] == a[0] && (a + b)[1..] == a[1..] + b;
      RunOfTwo(cfg, Step(cfg, s, a[0]), a[1..], b);
    }
  }

  /** Ready for a new entry. */
  ghost predicate IsFree(cfg: Config, s: State) {
    TableOk(cfg) && Inv(cfg, s) && s.mode == Roman && s.pending == ""
  }

  /** A capital and more keys that spell the kana of an entry. */
  ghost predicate SpellsEntry(cfg: Config, s: State, key: char, keys: string, kana: seq<string>) {
    && IsPrint(key) && IsCapital(key) && ArePlain(keys)
    && Transcribe(cfg.root, s.katakana, "", [ToLower(key)] + keys) == Some(Sounded(kana, ""))
  }

  lemma EntryIsSpelled(cfg: Config, s: State, key: char, keys: string, kana: seq<string>)
    requires IsFree(cfg, s) && SpellsEntry(cfg, s, key, keys, kana)
    ensures KanjiGives(cfg, s, Run(cfg, s, Keys([key] + keys)), Sounded(kana, ""))
  {
    hide Step, Inv, TableOk, Sound, Concat;
    var e := Key(OtherKey, key);
    KeysStep([key] + keys);
    assert ([key] + keys)[1..] == keys && ([ToLower(key)] + keys)[1..] == keys;
    CapitalBeginsEntry(cfg, s, e);
    StepKeepsInv(cfg, s, e);
    var t, p := Step(cfg, s, e), NextSound(cfg, s, ToLower(key)).value;
    assert t.top.okuri == "" by { IdleHasNoOkuri(cfg, s); }
    KanjiTranscribes(cfg, t, keys);
    KanjiGivesTwice(cfg, s, t, Run(cfg, t, Keys(keys)), p,
      Transcribe(cfg.root, s.katakana, p.pending, keys).value);
  }

  lemma IdleHasNoOkuri(cfg: Config, s: State)
    requires Inv(cfg, s) && s.mode == Roman
    ensures s.top.entry == s.top.okuri == ""
  {
  }

  /** The state in which the dictionary is asked for an entry and okurigana. */
  function Asking(cfg: Config, s: State, entry: string, okuri: string): State {
    s.(mode := Kanji, pending := "", node := cfg.root, forwarded := false, top := Level(s.top.text, entry, okuri))
  }

  lemma EntryIs(cfg: Config, s: State, t: State, kana: seq<string>)
    requires KanjiGives(cfg, s, t, Sounded(kana, "")) && s.top.entry == s.top.okuri == ""
    ensures t.(forwarded := false) == Asking(cfg, s, Concat(kana), "")
  {
    assert "" + Concat(kana) == Concat(kana);
  }

  lemma OkuriIs(cfg: Config, s: State, t: State, r: State, kana: seq<string>, okuri: string, okurigana: seq<string>)
    requires t.(forwarded := false) == Asking(cfg, s, Concat(kana), "") && !r.forwarded
    requires OkuriGives(cfg, t, r, okuri, Sounded(okurigana, ""))
    ensures Asks(cfg, Asking(cfg, s, Concat(kana), okuri + Concat(okurigana)), r)
  {
    hide Asks;
  }

  /** An entry and its okurigana, each begun with a capital, ask the dictionary for exactly their kana. */
  lemma OkuriAriIsAsked(cfg: Config, s: State, key: char, keys: string, kana: seq<string>,
                        key': char, keys': string, okurigana: seq<string>)
    requires IsFree(cfg, s) && SpellsEntry(cfg, s, key, keys, kana) && Concat(kana) != ""
    requires SpellsEntry(cfg, s, key', keys', okurigana) && GoesOn(cfg.root, s.katakana, "", [ToLower(key')] + keys')
    ensures Asks(cfg, Asking(cfg, s, Concat(kana), [ToLower(key')] + Concat(okurigana)),
                 Run(cfg, s, Keys([key] + keys) + Keys([key'] + keys')))
  {
    hide Step, Inv, TableOk, Sound, Concat, Asks, Transcribe, KanjiGives, OkuriGives;
    IdleHasNoOkuri(cfg, s);
    EntryIsSpelled(cfg, s, key, keys, kana);
    var t := Run(cfg, s, Keys([key] + keys));
    EntryIs(cfg, s, t, kana);
    OkuriTranscribes(cfg, t, key', keys');
    RunOfTwo(cfg, s, Keys([key] + keys), Keys([key'] + keys'));
    OkuriIs(cfg, s, t, Run(cfg, t, Keys([key'] + keys')), kana, [ToLower(key')], okurigana);
  }

  /** An entry and a space ask it for the kana of the entry. */
  lemma OkuriNasiIsAsked(cfg: Config, s: State, key: char, keys: string, kana: seq<string>)
    requires IsFree(cfg, s) && SpellsEntry(cfg, s, key, keys, kana) && Find(cfg.root, ' ').None?
    ensures Asks(cfg, Asking(cfg, s, Concat(kana), ""), Run(cfg, s, Keys([key] + keys) + Keys(" ")))
  {
    hide Step, Inv, TableOk, Concat, Asks, Transcribe, KanjiGives;
    IdleHasNoOkuri(cfg, s);
    EntryIsSpelled(cfg, s, key, keys, kana);
    var t := Run(cfg, s, Keys([key] + keys));
    EntryIs(cfg, s, t, kana);
    RunOfTwo(cfg, s, Keys([key] + keys), Keys(" "));
    KeysStep(" ");
    NotChoosing(cfg, t);
    RunNone(cfg, Step(cfg, t, Key(OtherKey, ' ')));
    KanjiCommands(cfg, t, Key(OtherKey, ' '));
  }

  // A choice.

  /** The keys that accept a candidate. */
  predicate Accepting(e: Event) {
    !e.Reset? && (e.sym == Return || IsPrint(e.ascii)) && !IsBackSpace(e.sym, e.ascii)
    && e.ascii != ' ' && e.ascii != 'x'
  }

  /** What a level leaves when its entry has become a text. */
  function Converted(l: Level, text: string): string {
    l.text + text + if l.okuri == "" then "" else l.okuri[1..]
  }

  /** A whole text: the text of the level in a registration, and sent without one; nothing else is composed. */
  function Finished(s: State, whole: string): State {
    var t := s.(mode := Roman, candidates := [], top := Level(if s.lower == [] then "" else whole, "", ""));
    if s.lower == [] then t.(committed := s.committed + [whole]) else t
  }

  /** The chosen candidate replaces the entry, before its okurigana, and the dictionary has learned it. */
  function Chosen(s: State): State
    requires s.chosen < |s.candidates|
  {
    var text := s.candidates[s.chosen].text;
    Finished(s, Converted(s.top, text)).(registered := s.registered + [Registration(s.top.entry, s.top.okuri, text)])
  }

  lemma AcceptIsChosen(cfg: Config, s: State)
    requires Inv(cfg, s) && s.mode == Choose
    ensures Accept(s) == Chosen(s) && Inv(cfg, Chosen(s))
  {
    AcceptKeepsInv(cfg, s);
  }

  /** Return accepts the chosen candidate; any other key that does so then acts in roman mode. */
  lemma ChoiceIsTaught(cfg: Config, s: State, e: Event)
    requires TableOk(cfg) && Inv(cfg, s) && s.mode == Choose && Accepting(e)
    ensures Inv(cfg, Chosen(Before(s, e)))
    ensures Step(cfg, s, e)
         == if IsReturn(e.sym, e.ascii) then Chosen(Before(s, e)) else Step(cfg, Chosen(Before(s, e)), e)
  {
    FlagIsKept(cfg, s, e);
    AcceptIsChosen(cfg, Before(s, e));
    hide Accept, RomanKey;
  }

  /** What a key teaches the dictionary: a choice, or the text of a registration for the level that asked. */
  function Taught(s: State, e: Event): seq<Registration>
    requires s.mode == Choose ==> s.chosen < |s.candidates|
  {
    if s.mode == Choose && Accepting(e) then
      [Registration(s.top.entry, s.top.okuri, s.candidates[s.chosen].text)]
    else if (s.mode == Roman || s.mode == Latin) && IsReturnKey(e) && s.lower != [] && s.top.text != "" then
      var asking := s.lower[|s.lower| - 1];
      [Registration(asking.entry, asking.okuri, s.top.text)]
    else []
  }

  lemma QueryTeachesNothing(cfg: Config, s: State)
    ensures Query(cfg, s).registered == s.registered
  {
  }

  lemma PressTeachesNothing(cfg: Config, s: State, a: Action)
    ensures Press(cfg, s, a).registered == s.registered
  {
    hide Query;
    if a.Reduce? {
      QueryTeachesNothing(cfg, RomanReduce(s, if s.katakana then a.katakana else a.hiragana));
    }
  }

  lemma RomanPrintTeachesNothing(cfg: Config, s: State, ascii: char)
    ensures RomanPrint(cfg, s, ascii).registered == s.registered
  {
    hide Press;
    var key := ToLower(ascii);
    var t := if Find(s.node, key).None? then DropPending(cfg, s) else s;
    if Find(t.node, key).Some? {
      PressTeachesNothing(cfg, if AtTop(cfg, t) && key != ascii then t.(mode := Kanji) else t, Find(t.node, key).value);
    }
  }

  lemma KanjiPrintTeachesNothing(cfg: Config, s: State, ascii: char)
    ensures KanjiPrint(cfg, s, ascii).registered == s.registered
  {
    hide Press, Query;
    var retry := Find(s.node, ToLower(ascii)).None? && !AtTop(cfg, s);
    var t, key := if retry then RomanReset(cfg, s) else s, if retry then ascii else ToLower(ascii);
    QueryTeachesNothing(cfg, t);
    if Find(t.node, key).Some? {
      PressTeachesNothing(cfg, WithHiddenKey(cfg, t, ascii), Find(t.node, key).value);
    }
  }

  lemma TextCommitTeaches(s: State)
    ensures TextCommit(s).registered
         == s.registered + if s.lower == [] || s.top.text == "" then []
                           else [Registration(s.lower[|s.lower| - 1].entry, s.lower[|s.lower| - 1].okuri, s.top.text)]
  {
    assert s.registered + [] == s.registered;
  }

  lemma TextPopTeachesNothing(s: State)
    ensures TextPop(s).registered == s.registered
  {
  }

  lemma RomanKeyTeaches(cfg: Config, s: State, sym: KeySym, ascii: char)
    ensures IsReturn(sym, ascii) ==> RomanKey(cfg, s, sym, ascii).registered == TextCommit(s).registered
    ensures !IsReturn(sym, ascii) ==> RomanKey(cfg, s, sym, ascii).registered == s.registered
  {
    hide RomanPrint, TextCommit, TextPop, BufferEmpty;
    RomanPrintTeachesNothing(cfg, s, ascii);
    TextPopTeachesNothing(s);
    TextCommitTeaches(s);
    TextCommitTeaches(RomanReset(cfg, s));
  }

  lemma OthersTeachNothing(cfg: Config, s: State, sym: KeySym, ascii: char)
    ensures KanjiKey(cfg, s, sym, ascii).registered == s.registered
    ensures WordKey(cfg, s, sym, ascii).registered == s.registered
    ensures !IsReturn(sym, ascii) ==> LatinKey(s, sym, ascii).registered == s.registered
  {
    hide KanjiPrint, Query, BufferEmpty, EntryCommit, EntryPop, TextPop, TextPush, TextCommit;
    EntryTeachesNothing(s);
    EntryTeachesNothing(DropPending(cfg, s));
    TextPopTeachesNothing(s);
    TextPushTeachesNothing(s, ascii);
    KanjiPrintTeachesNothing(cfg, s, ascii);
    QueryTeachesNothing(cfg, s);
  }

  lemma EntryTeachesNothing(s: State)
    ensures EntryCommit(s).registered == EntryPop(s).registered == s.registered
  {
  }

  lemma TextPushTeachesNothing(s: State, c: char)
    ensures TextPush(s, c).registered == s.registered
  {
  }

  /** Every key teaches exactly that, and nothing is ever forgotten. */
  lemma KeyTeaches(cfg: Config, s: State, e: Event)
    requires Inv(cfg, s)
    ensures s.mode == Choose ==> s.chosen < |s.candidates|
    ensures Step(cfg, s, e).registered == s.registered + Taught(s, e)
  {
    NotChoosing(cfg, s);
    if !e.Reset? {
      FlagIsKept(cfg, s, e);
      var t := Before(s, e);
      hide Inv, Step, Before, Taught;
      if t.mode == Choose {
        ChoiceTeaches(cfg, t, e);
      } else {
        TypingTeaches(cfg, t, e);
      }
      TaughtIsKept(s, t, e);
      StepIs(cfg, s, e);
    } else {
      assert s.registered + [] == s.registered;
    }
  }

  lemma StepIs(cfg: Config, s: State, e: Event)
    requires !e.Reset? && (s.mode == Choose ==> s.chosen < |s.candidates|)
    ensures Step(cfg, s, e) == KeyPressed(cfg, Before(s, e), e.sym, e.ascii)
  {
  }

  lemma TaughtIsKept(s: State, t: State, e: Event)
    requires (s.mode == Choose ==> s.chosen < |s.candidates|) && t == s.(forwarded := t.forwarded)
    ensures Taught(t, e) == Taught(s, e)
  {
  }

  lemma TypingTeaches(cfg: Config, s: State, e: Event)
    requires s.mode != Choose && !e.Reset?
    ensures KeyPressed(cfg, s, e.sym, e.ascii).registered == s.registered + Taught(s, e)
  {
    assert s.registered + [] == s.registered;
    TextCommitTeaches(s);
    RomanKeyTeaches(cfg, s, e.sym, e.ascii);
    OthersTeachNothing(cfg, s, e.sym, e.ascii);
    if IsReturn(e.sym, e.ascii) { LatinReturns(s, e.sym, e.ascii); }
    hide RomanKey, KanjiKey, WordKey, LatinKey, TextCommit, IsReturn;
  }

  lemma LatinReturns(s: State, sym: KeySym, ascii: char)
    requires IsReturn(sym, ascii)
    ensures LatinKey(s, sym, ascii) == TextCommit(s)
  {
  }

  lemma ChoiceTeaches(cfg: Config, s: State, e: Event)
    requires Inv(cfg, s) && s.mode == Choose && !e.Reset?
    ensures s.chosen < |s.candidates|
    ensures KeyPressed(cfg, s, e.sym, e.ascii).registered == s.registered + Taught(s, e)
  {
    NotChoosing(cfg, s);
    hide Inv;
    assert s.registered + [] == s.registered;
    AcceptTeaches(s);
    ListTeachesNothing(s);
    RomanKeyTeaches(cfg, Accept(s), e.sym, e.ascii);
    hide RomanKey, Accept, Back, EngineModel.Next, Previous;
  }

  lemma AcceptTeaches(s: State)
    requires s.chosen < |s.candidates|
    ensures Accept(s).registered
         == s.registered + [Registration(s.top.entry, s.top.okuri, s.candidates[s.chosen].text)]
  {
  }

  lemma ListTeachesNothing(s: State)
    ensures Back(s).registered == s.registered && EngineModel.Next(s).registered == s.registered
    ensures s.chosen > 0 ==> Previous(s).registered == s.registered
  {
  }

  // Going through the candidates.

  /** Space shows the next candidate, and behind the last one opens a registration above the level that asked. */
  lemma SpaceIsNext(cfg: Config, s: State, e: Event)
    requires Inv(cfg, s) && s.mode == Choose && IsPrinting(e) && e.ascii == ' '
    ensures var t, u := Step(cfg, s, e), Before(s, e);
            && (s.chosen + 1 < |s.candidates| ==>
                  t == u.(chosen := s.chosen + 1, choosing := true) && Middle(t) == s.candidates[s.chosen + 1].text)
            && (s.chosen + 1 == |s.candidates| ==>
                  t == u.(mode := Roman, candidates := [], chosen := s.chosen + 1, lower := s.lower + [s.top],
                          top := Level("", "", "")))
  {
  }

  /** The key x shows the candidate before. */
  lemma XIsPrevious(cfg: Config, s: State, e: Event)
    requires Inv(cfg, s) && s.mode == Choose && IsPrinting(e) && e.ascii == 'x' && s.chosen > 0
    ensures var t := Step(cfg, s, e);
            t == Before(s, e).(chosen := s.chosen - 1) && Middle(t) == s.candidates[s.chosen - 1].text
  {
  }

  function Spaces(n: nat): string {
    seq(n, _ => ' ')
  }

  /** So n spaces show the candidate n places further on. */
  lemma {:induction false} SpacesChoose(cfg: Config, s: State, n: nat)
    requires TableOk(cfg) && Inv(cfg, s) && s.mode == Choose && s.chosen + n < |s.candidates|
    ensures var t := Run(cfg, s, Keys(Spaces(n)));
            && t == s.(chosen := s.chosen + n, choosing := t.choosing, forwarded := t.forwarded)
            && Middle(t) == s.candidates[s.chosen + n].text
    decreases n
  {
    hide Step, Inv, TableOk;
    if n > 0 {
      var e := Key(OtherKey, ' ');
      NotChoosing(cfg, s);
      SpaceIsNext(cfg, s, e);
      StepKeepsInv(cfg, s, e);
      KeysStep(Spaces(n));
      assert Spaces(n)[1..] == Spaces(n - 1);
      SpacesChoose(cfg, Step(cfg, s, e), n - 1);
    } else {
      NotChoosing(cfg, s);
    }
  }

  /** BackSpace, or x on the first candidate, shows the entry again, without okurigana. */
  lemma BackToEntry(cfg: Config, s: State, e: Event)
    requires Inv(cfg, s) && s.mode == Choose
    requires (!e.Reset? && IsBackSpace(e.sym, e.ascii)) || (IsPrinting(e) && e.ascii == 'x' && s.chosen == 0)
    ensures var t := Step(cfg, s, e);
            && t == Before(s, e).(mode := Kanji, candidates := [], top := s.top.(okuri := ""))
            && Display(t) == s.top.text + s.top.entry
  {
    var t := Step(cfg, s, e);
    assert t.pending == "";
    assert s.top.text + s.top.entry + "" + "" == s.top.text + s.top.entry;
  }

  lemma OthersLeaveChoice(cfg: Config, s: State, e: Event)
    requires Inv(cfg, s) && s.mode == Choose
    requires IsUnknown(e) || (!e.Reset? && e.sym == OtherKey && e.ascii == CONTROL_M)
    ensures Step(cfg, s, e) == Before(s, e)
  {
  }

  // The other keys. A text is sent, or joins the registration that is open.

  function Received(s: State, text: string): State {
    if s.lower == [] then s.(committed := s.committed + [text]) else s.(top := s.top.(text := s.top.text + text))
  }

  ghost predicate NothingComposed(s: State) {
    && (forall i :: 0 <= i < |s.lower| ==> s.lower[i] == Level("", "", ""))
    && s.top == Level("", "", "") && s.pending == ""
  }

  lemma {:induction false} FlatIsEmpty(ls: seq<Level>)
    ensures Flat(ls) == "" <==> forall i :: 0 <= i < |ls| ==> ls[i] == Level("", "", "")
  {
    if ls != [] {
      var n := |ls| - 1;
      FlatIsEmpty(ls[..n]);
      assert forall i :: 0 <= i < n ==> ls[..n][i] == ls[i];
      assert ls[n].Whole() == "" <==> ls[n] == Level("", "", "");
    }
  }

  lemma EmptyIsNothing(s: State)
    ensures BufferEmpty(s) <==> NothingComposed(s)
  {
    FlatIsEmpty(s.lower);
  }

  /** BackSpace takes the last character of a registration; without one it is for the client. */
  ghost predicate TakesBack(s: State, t: State) {
    && (s.top.text != "" ==> t == s.(top := Level(s.top.text[..|s.top.text| - 1], "", "")))
    && (s.top.text == "" && s.lower == [] ==> t == s.(forwarded := true))
  }

  lemma LatinKeys(cfg: Config, s: State, e: Event)
    requires Inv(cfg, s) && s.mode == Latin && !e.Reset?
    ensures var t, u := Step(cfg, s, e), Before(s, e);
            && (IsPrinting(e) ==> t == Received(u, [e.ascii]))
            && (IsReturnKey(e) && s.lower == [] ==> t == u.(forwarded := true))
            && (IsLinefeedKey(e) ==> t == u.(mode := Roman))
            && (IsBackSpaceKey(e) ==> TakesBack(u, t))
            && (IsUnknown(e) ==> t == u.(forwarded := u.forwarded || NothingComposed(u)))
  {
    EmptyIsNothing(Before(s, e));
    hide BufferEmpty, NothingComposed;
  }

  lemma WordKeys(cfg: Config, s: State, e: Event)
    requires Inv(cfg, s) && s.mode == Word && !e.Reset?
    ensures var t, u := Step(cfg, s, e), Before(s, e);
            && (IsPrinting(e) && e.ascii != ' ' ==> t == u.(top := s.top.(entry := s.top.entry + [e.ascii])))
            && (IsPrinting(e) && e.ascii == ' ' ==> if s.top.entry == "" then t == u else Asks(cfg, u, t))
            && (IsReturnKey(e) ==> t == Finished(u, s.top.text + s.top.entry))
            && (IsLinefeedKey(e) ==> t == u.(mode := if s.top.entry == "" then Roman else Kanji))
            && (IsBackSpaceKey(e) ==> EntryGivesUp(u, t))
            && (IsUnknown(e) ==> t == u)
  {
    QueryAsks(cfg, Before(s, e));
    EntryPops(Before(s, e));
    WordIs(cfg, s);
    EntryCommits(Before(s, e));
    hide Query, Asks, EntryPop, Inv, EntryGivesUp, EntryCommit, Finished;
  }

  lemma WordIs(cfg: Config, s: State)
    requires Inv(cfg, s) && s.mode == Word
    ensures s.top.okuri == "" && s.candidates == []
  {
  }

  lemma EntryCommits(s: State)
    requires s.candidates == []
    ensures EntryCommit(s) == Finished(s, s.top.text + s.top.entry)
  {
  }

  lemma EntryPops(s: State)
    ensures EntryGivesUp(s, EntryPop(s))
  {
  }

  /** BackSpace takes the last character of the entry; with the last, kanji mode ends. */
  ghost predicate EntryGivesUp(s: State, t: State) {
    var n := |s.top.entry|;
    && t == s.(mode := if n <= 1 then Roman else s.mode, top := t.top)
    && t.top == s.top.(entry := if n == 0 then "" else s.top.entry[..n - 1])
  }

  /** Nothing pending, and no okurigana waiting for it. */
  function Dropped(cfg: Config, s: State): State {
    s.(pending := "", node := cfg.root, top := s.top.(okuri := ""))
  }

  lemma DropPendingDrops(cfg: Config, s: State)
    requires Inv(cfg, s) && (s.mode == Roman || s.mode == Kanji)
    ensures DropPending(cfg, s) == Dropped(cfg, s)
    ensures s.mode == Roman || s.pending == "" ==> s.top.okuri == ""
  {
    AtTopIffIdle(cfg, s);
  }

  lemma RomanKeys(cfg: Config, s: State, e: Event)
    requires Inv(cfg, s) && s.mode == Roman && !e.Reset?
    ensures var t, u, v := Step(cfg, s, e), Before(s, e), Dropped(cfg, Before(s, e));
            && (IsReturnKey(e) && s.lower == [] ==> t == v.(forwarded := true))
            && (IsLinefeedKey(e) ==> t == v)
            && (IsBackSpaceKey(e) && s.pending != "" ==> t == v)
            && (IsBackSpaceKey(e) && s.pending == "" ==> TakesBack(u, t))
            && (IsUnknown(e) ==> t == v.(forwarded := v.forwarded || NothingComposed(v)))
  {
    var u := Before(s, e);
    FlagIsKept(cfg, s, e);
    AtTopIffIdle(cfg, u);
    DropPendingDrops(cfg, u);
    EmptyIsNothing(Dropped(cfg, u));
    hide BufferEmpty, NothingComposed, RomanPrint, DropPending, Spelled;
  }

  /** A key that does not go on with what is pending gives that up, and then acts as if nothing had been. */
  lemma RomanGivesUp(cfg: Config, s: State, e: Event)
    requires Inv(cfg, s) && s.mode == Roman && IsPrinting(e) && NextSound(cfg, s, ToLower(e.ascii)).None?
    ensures Step(cfg, s, e) == Step(cfg, Dropped(cfg, s), e)
  {
    var u := Before(s, e);
    FlagIsKept(cfg, s, e);
    DropPendingDrops(cfg, u);
    hide Press, RomanOther;
  }

  /** Keys that are no part of a spelling: two for other modes, one for the other kana, the rest for themselves. */
  lemma RomanCommands(cfg: Config, s: State, e: Event)
    requires Inv(cfg, s) && s.mode == Roman && s.pending == "" && IsPrinting(e)
    requires NextSound(cfg, s, ToLower(e.ascii)).None?
    ensures var t, u := Step(cfg, s, e), Before(s, e);
            t == if e.ascii == '/' then u.(mode := Word)
                 else if e.ascii == 'l' then u.(mode := Latin)
                 else if e.ascii == 'q' then u.(katakana := !s.katakana)
                 else Received(u, [e.ascii])
  {
    AtTopIffIdle(cfg, Before(s, e));
    hide Press;
  }

  lemma WithoutCandidates(cfg: Config, s: State)
    requires Inv(cfg, s) && s.mode != Choose
    ensures s.candidates == []
  {
  }

  lemma KanjiKeys(cfg: Config, s: State, e: Event)
    requires Inv(cfg, s) && s.mode == Kanji && !e.Reset?
    ensures var t, u, v := Step(cfg, s, e), Before(s, e), Dropped(cfg, Before(s, e));
            && (IsReturnKey(e) ==> t == Finished(v, s.top.text + s.top.entry))
            && (IsLinefeedKey(e) || IsUnknown(e) ==> t == v)
            && (IsBackSpaceKey(e) && s.pending != "" ==> t == v.(mode := if NothingComposed(v) then Roman else Kanji))
            && (IsBackSpaceKey(e) && s.pending == "" ==> EntryGivesUp(u, t))
  {
    var u := Before(s, e);
    FlagIsKept(cfg, s, e);
    AtTopIffIdle(cfg, u);
    DropPendingDrops(cfg, u);
    EmptyIsNothing(Dropped(cfg, u));
    EntryPops(u);
    WithoutCandidates(cfg, u);
    EntryCommits(Dropped(cfg, u));
    hide BufferEmpty, NothingComposed, KanjiPrint, DropPending, Inv, EntryPop, EntryCommit, EntryGivesUp, Finished;
  }

  /** In kanji mode as well, except that a capital is then looked up as it is. */
  lemma KanjiGivesUp(cfg: Config, s: State, e: Event)
    requires Inv(cfg, s) && s.mode == Kanji && IsPrinting(e) && NextSound(cfg, s, ToLower(e.ascii)).None?
    ensures !IsCapital(e.ascii) ==> Step(cfg, s, e) == Step(cfg, Dropped(cfg, s), e)
    ensures s.pending != "" && IsCapital(e.ascii) && Find(cfg.root, e.ascii).None? ==>
              var v := Dropped(cfg, Before(s, e));
              Step(cfg, s, e) == v.(top := v.top.(entry := s.top.entry + [e.ascii]))
  {
    var u := Before(s, e);
    FlagIsKept(cfg, s, e);
    AtTopIffIdle(cfg, u);
    DropPendingDrops(cfg, u);
    hide Press, Query;
  }

  lemma KanjiCommands(cfg: Config, s: State, e: Event)
    requires Inv(cfg, s) && s.mode == Kanji && s.pending == "" && IsPrinting(e)
    requires NextSound(cfg, s, ToLower(e.ascii)).None?
    ensures var t, u := Step(cfg, s, e), Before(s, e);
            && (e.ascii == ' ' ==> Asks(cfg, u, t))
            && (e.ascii == '/' || e.ascii == 'l' ==> t == u.(mode := Word))
            && (e.ascii == 'q' ==> t == u.(katakana := !s.katakana))
            && (e.ascii !in [' ', '/', 'l', 'q'] ==> t == u.(top := s.top.(entry := s.top.entry + [e.ascii])))
  {
    AtTopIffIdle(cfg, Before(s, e));
    QueryAsks(cfg, Before(s, e));
    hide Press, Query, Asks;
  }

  /** A reset drops all that is composed; what was sent and learned stays. */
  lemma ResetDropsAll(cfg: Config, s: State)
    requires Inv(cfg, s)
    ensures var t := Step(cfg, s, Reset);
            && NothingComposed(t) && Display(t) == "" && t.mode == Roman && !t.katakana && t.lower == []
            && t.candidates == [] && t.node == cfg.root && t.committed == s.committed && t.registered == s.registered
            && t.forwarded == s.forwarded
  {
  }

  /** A new engine is free for an entry, with hiragana; nothing is composed, sent or learned. */
  lemma NewEngineIsFree(cfg: Config)
    requires TableOk(cfg)
    ensures var s := Initial(cfg);
            && IsFree(cfg, s) && NothingComposed(s) && Display(s) == "" && !s.katakana && !s.forwarded
            && s.committed == [] && s.registered == []
  {
  }

  // The flag of a key that is not used.

  /** Set once, it stays set. */
  ghost predicate FlagStays(s: State, t: State) {
    s.forwarded ==> t.forwarded
  }

  lemma QueryFlag(cfg: Config, s: State)
    ensures FlagStays(s, Query(cfg, s))
  {
  }

  lemma PressFlag(cfg: Config, s: State, a: Action)
    ensures FlagStays(s, Press(cfg, s, a))
  {
    hide Query;
    if a.Reduce? {
      QueryFlag(cfg, RomanReduce(s, if s.katakana then a.katakana else a.hiragana));
    }
  }

  lemma PrintFlag(cfg: Config, s: State, ascii: char)
    ensures FlagStays(s, RomanPrint(cfg, s, ascii)) && FlagStays(s, KanjiPrint(cfg, s, ascii))
  {
    RomanPrintFlag(cfg, s, ascii);
    KanjiPrintFlag(cfg, s, ascii);
  }

  lemma RomanPrintFlag(cfg: Config, s: State, ascii: char)
    ensures FlagStays(s, RomanPrint(cfg, s, ascii))
  {
    hide Press;
    var key := ToLower(ascii);
    var t := if Find(s.node, key).None? then DropPending(cfg, s) else s;
    if Find(t.node, key).Some? {
      PressFlag(cfg, if AtTop(cfg, t) && key != ascii then t.(mode := Kanji) else t, Find(t.node, key).value);
    }
  }

  lemma KanjiPrintFlag(cfg: Config, s: State, ascii: char)
    ensures FlagStays(s, KanjiPrint(cfg, s, ascii))
  {
    hide Press, Query;
    var retry := Find(s.node, ToLower(ascii)).None? && !AtTop(cfg, s);
    var t, key := if retry then RomanReset(cfg, s) else s, if retry then ascii else ToLower(ascii);
    QueryFlag(cfg, t);
    if Find(t.node, key).Some? {
      PressFlag(cfg, WithHiddenKey(cfg, t, ascii), Find(t.node, key).value);
    }
  }

  lemma StepsFlag(s: State, c: char)
    ensures FlagStays(s, TextPush(s, c)) && FlagStays(s, TextPop(s)) && FlagStays(s, EntryPop(s))
    ensures FlagStays(s, EntryCommit(s))
  {
  }

  lemma CommitFlag(s: State)
    ensures FlagStays(s, TextCommit(s))
  {
  }

  lemma RomanFlag(cfg: Config, s: State, sym: KeySym, ascii: char)
    ensures FlagStays(s, RomanKey(cfg, s, sym, ascii))
  {
    hide RomanPrint, TextPop, TextCommit, BufferEmpty;
    PrintFlag(cfg, s, ascii);
    StepsFlag(s, ascii);
    CommitFlag(s);
    CommitFlag(RomanReset(cfg, s));
  }

  lemma OthersFlag(cfg: Config, s: State, sym: KeySym, ascii: char)
    ensures FlagStays(s, LatinKey(s, sym, ascii)) && FlagStays(s, WordKey(cfg, s, sym, ascii))
  {
    hide TextPush, TextPop, TextCommit, EntryCommit, EntryPop, Query, BufferEmpty;
    StepsFlag(s, ascii);
    CommitFlag(s);
    QueryFlag(cfg, s);
  }

  lemma KanjiFlag(cfg: Config, s: State, sym: KeySym, ascii: char)
    ensures FlagStays(s, KanjiKey(cfg, s, sym, ascii))
  {
    hide KanjiPrint, EntryCommit, EntryPop, BufferEmpty;
    PrintFlag(cfg, s, ascii);
    StepsFlag(s, ascii);
    StepsFlag(DropPending(cfg, s), ascii);
  }

  lemma ChooseFlag(cfg: Config, s: State, sym: KeySym, ascii: char)
    requires s.chosen < |s.candidates|
    ensures FlagStays(s, ChooseKey(cfg, s, sym, ascii))
  {
    assert Accept(s).forwarded == s.forwarded;
    hide RomanKey, Accept;
    RomanFlag(cfg, Accept(s), sym, ascii);
  }

  /** A repetition does what the key does, but leaves it to the last key whether one is forwarded. */
  lemma RepetitionKeepsFlag(cfg: Config, s: State, sym: KeySym, ascii: char)
    requires Inv(cfg, s)
    ensures s.mode == Choose ==> s.chosen < |s.candidates|
    ensures s.forwarded ==> Step(cfg, s, Repeat(sym, ascii)).forwarded
    ensures !s.forwarded ==> Step(cfg, s, Repeat(sym, ascii)) == Step(cfg, s, Key(sym, ascii))
  {
    NotChoosing(cfg, s);
    hide Inv, LatinKey, WordKey, RomanKey, KanjiKey, ChooseKey;
    match s.mode
    case Roman => RomanFlag(cfg, s, sym, ascii);
    case Kanji => KanjiFlag(cfg, s, sym, ascii);
    case Choose => ChooseFlag(cfg, s, sym, ascii);
    case _ => OthersFlag(cfg, s, sym, ascii);
  }
}
