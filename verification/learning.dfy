/**
 The input engine over the real dictionary: what the engine registers while the user types is what
 the dictionary answers with next time (im/engine.cc with im/basic_dictionary.cc).
 */
module Learning {
  import opened Wrappers
  import opened RomajiTable
  import opened Candidates
  import opened EngineModel
  import opened EngineInvariant
  import opened EngineKeys
  import opened Dictionaries
  import OrderedMaps
  import DictionaryStore
  import DictionaryRoundTrip

  /** The private file, whatever it holds, and the public files. */
  datatype Sources = Sources(data: string, shapes: seq<Shape>)

  /** The private dictionary after registrations. */
  function Learned(data: string, regs: seq<Registration>): DictionaryStore.Store {
    if regs == [] then DictionaryStore.LoadText(data)
    else
      var r := regs[|regs| - 1];
      DictionaryStore.Register(Learned(data, regs[..|regs| - 1]), r.entry, r.okuri, r.text)
  }

  /** What the dictionary finds after the registrations. */
  function Answer(src: Sources, regs: seq<Registration>, entry: string, okuri: string): seq<Candidate> {
    Merge(DictionaryStore.PlainItems(DictionaryStore.PrivateTexts(Learned(src.data, regs), entry, okuri))
          + PublicItems(src.shapes, DictionaryStore.KeyOf(entry, okuri), okuri != ""))
  }

  function Over(root: Map, src: Sources): Config {
    Config(root, (regs, entry, okuri) => Answer(src, regs, entry, okuri))
  }

  lemma {:induction false} LearnedIsOk(data: string, regs: seq<Registration>)
    ensures DictionaryStore.StoreOk(Learned(data, regs))
  {
    if regs == [] {
      DictionaryStore.LoadedIsOk(data);
    } else {
      var r, before := regs[|regs| - 1], regs[..|regs| - 1];
      LearnedIsOk(data, before);
      DictionaryStore.RegisterKeepsStoreOk(Learned(data, before), r.entry, r.okuri, r.text);
    }
  }

  /** Whatever was loaded, the text registered last is the first answer for its entry and okurigana. */
  lemma LastRegisteredIsFirst(src: Sources, regs: seq<Registration>)
    requires regs != [] && regs[|regs| - 1].text != ""
    ensures var r := regs[|regs| - 1];
            var found := Answer(src, regs, r.entry, r.okuri);
            found != [] && found[0].text == r.text
  {
    hide Merge, DictionaryStore.StoreOk, DictionaryStore.Register, DictionaryStore.PrivateTexts;
    var r, before := regs[|regs| - 1], regs[..|regs| - 1];
    LearnedIsOk(src.data, before);
    DictionaryStore.RegisteredComesFirst(Learned(src.data, before), r.entry, r.okuri, r.text);
    FirstOfferedIsFirst(
      DictionaryStore.PlainItems(DictionaryStore.PrivateTexts(Learned(src.data, regs), r.entry, r.okuri))
      + PublicItems(src.shapes, DictionaryStore.KeyOf(r.entry, r.okuri), r.okuri != ""));
  }

  lemma LearnedSnoc(data: string, regs: seq<Registration>, i: nat)
    requires i < |regs|
    ensures Learned(data, regs[..i + 1])
         == DictionaryStore.Register(Learned(data, regs[..i]), regs[i].entry, regs[i].okuri, regs[i].text)
  {
    assert regs[..i + 1][..i] == regs[..i] && regs[..i + 1][i] == regs[i];
  }

  /**
   The program's run over its dictionary: load the private file, register what the user chooses,
   search, and save on leaving.
   */
  method Serve(
    data: string, regs: seq<Registration>, entry: string, okuri: string, publics: seq<string>, ghost shapes: seq<Shape>)
    returns (cs: seq<Candidate>, saved: string)
    requires |shapes| == |publics| && forall i :: 0 <= i < |publics| ==> shapes[i].Fits(publics[i])
    ensures cs == Answer(Sources(data, shapes), regs, entry, okuri)
    ensures regs != [] ==>
              var r := regs[|regs| - 1];
              r.text != "" && r.entry == entry && r.okuri == okuri ==> cs != [] && cs[0].text == r.text
    ensures var d := Learned(data, regs);
            DictionaryStore.LoadText(saved) == d <==> DictionaryStore.Clean(d) && DictionaryStore.PlainOkuris(d)
  {
    hide Merge, DictionaryStore.StoreOk, DictionaryStore.Register, DictionaryStore.LoadText;
    var dictionary := new Dictionary();
    dictionary.Load(data);
    for i := 0 to |regs|
      invariant dictionary.Contents() == Learned(data, regs[..i]) && DictionaryStore.StoreOk(dictionary.Contents())
    {
      dictionary.Register(regs[i].entry, regs[i].okuri, regs[i].text);
      LearnedSnoc(data, regs, i);
    }
    assert regs[..|regs|] == regs;
    cs := dictionary.Search(entry, okuri, publics, shapes);
    if regs != [] && regs[|regs| - 1].text != "" {
      LastRegisteredIsFirst(Sources(data, shapes), regs);
    }
    saved := Saved(dictionary, Learned(data, regs));
  }

  method Saved(dictionary: Dictionary, ghost d: DictionaryStore.Store) returns (saved: string)
    requires dictionary.Contents() == d && DictionaryStore.StoreOk(d)
    ensures DictionaryStore.LoadText(saved) == d <==> DictionaryStore.Clean(d) && DictionaryStore.PlainOkuris(d)
  {
    hide DictionaryStore.LoadText, DictionaryStore.SaveText, DictionaryStore.Clean, DictionaryStore.PlainOkuris;
    saved := dictionary.Save();
    DictionaryRoundTrip.SaveThenLoad(d);
  }

  // The engine never registers an empty text.

  ghost predicate AnswersHaveText(cfg: Config) {
    forall regs, entry, okuri, k :: 0 <= k < |cfg.lookup(regs, entry, okuri)| ==>
      cfg.lookup(regs, entry, okuri)[k].text != ""
  }

  ghost predicate HasText(s: State) {
    && (forall k :: 0 <= k < |s.candidates| ==> s.candidates[k].text != "")
    && (forall k :: 0 <= k < |s.registered| ==> s.registered[k].text != "")
  }

  lemma CommitHasText(s: State)
    requires HasText(s)
    ensures HasText(TextCommit(s))
  {
  }

  lemma TextStepsHaveText(s: State, c: char)
    requires HasText(s)
    ensures HasText(TextPush(s, c)) && HasText(TextPop(s)) && HasText(TextCommit(s))
  {
    hide TextCommit;
    CommitHasText(s);
  }

  lemma QueryHasText(cfg: Config, s: State)
    requires AnswersHaveText(cfg) && HasText(s)
    ensures HasText(Query(cfg, s))
  {
  }

  lemma PressHasText(cfg: Config, s: State, a: Action)
    requires AnswersHaveText(cfg) && HasText(s)
    ensures HasText(Press(cfg, s, a))
  {
    hide Query, AnswersHaveText;
    if a.Reduce? {
      var kana := if s.katakana then a.katakana else a.hiragana;
      ReduceHasText(s, kana);
      hide RomanReduce;
      QueryHasText(cfg, RomanReduce(s, kana));
    }
  }

  lemma ReduceHasText(s: State, kana: string)
    requires HasText(s)
    ensures HasText(RomanReduce(s, kana))
  {
  }

  lemma OthersHaveText(cfg: Config, s: State, c: char)
    requires AnswersHaveText(cfg) && HasText(s)
    ensures HasText(RomanOther(s, c)) && HasText(KanjiOther(cfg, s, c))
  {
    hide Query, AnswersHaveText;
    QueryHasText(cfg, s);
  }

  lemma RomanPrintHasText(cfg: Config, s: State, ascii: char)
    requires AnswersHaveText(cfg) && HasText(s)
    ensures HasText(RomanPrint(cfg, s, ascii))
  {
    hide Press, RomanOther, AnswersHaveText;
    var key := ToLower(ascii);
    var t := if Find(s.node, key).None? then DropPending(cfg, s) else s;
    OthersHaveText(cfg, t, ascii);
    if Find(t.node, key).Some? {
      PressHasText(cfg, if AtTop(cfg, t) && key != ascii then t.(mode := Kanji) else t, Find(t.node, key).value);
    }
  }

  lemma KanjiPrintHasText(cfg: Config, s: State, ascii: char)
    requires AnswersHaveText(cfg) && HasText(s)
    ensures HasText(KanjiPrint(cfg, s, ascii))
  {
    hide Press, KanjiOther, AnswersHaveText;
    var retry := Find(s.node, ToLower(ascii)).None? && !AtTop(cfg, s);
    var t, key := if retry then RomanReset(cfg, s) else s, if retry then ascii else ToLower(ascii);
    OthersHaveText(cfg, t, ascii);
    if Find(t.node, key).Some? {
      PressHasText(cfg, WithHiddenKey(cfg, t, ascii), Find(t.node, key).value);
    }
  }

  lemma RomanKeyHasText(cfg: Config, s: State, sym: KeySym, ascii: char)
    requires AnswersHaveText(cfg) && HasText(s)
    ensures HasText(RomanKey(cfg, s, sym, ascii))
  {
    hide TextPop, TextCommit, RomanPrint, AnswersHaveText;
    RomanPrintHasText(cfg, s, ascii);
    TextStepsHaveText(s, ascii);
    TextStepsHaveText(RomanReset(cfg, s), ascii);
  }

  lemma KanjiKeyHasText(cfg: Config, s: State, sym: KeySym, ascii: char)
    requires AnswersHaveText(cfg) && HasText(s)
    ensures HasText(KanjiKey(cfg, s, sym, ascii))
  {
    KanjiPrintHasText(cfg, s, ascii);
    EntryStepsHaveText(s);
    EntryStepsHaveText(DropPending(cfg, s));
    hide KanjiPrint, EntryCommit, EntryPop, AnswersHaveText;
  }

  lemma EntryStepsHaveText(s: State)
    requires HasText(s)
    ensures HasText(EntryCommit(s)) && HasText(EntryPop(s))
  {
  }

  lemma WordKeyHasText(cfg: Config, s: State, sym: KeySym, ascii: char)
    requires AnswersHaveText(cfg) && HasText(s)
    ensures HasText(WordKey(cfg, s, sym, ascii))
  {
    QueryHasText(cfg, s);
    EntryStepsHaveText(s);
    hide Query, EntryCommit, EntryPop, AnswersHaveText;
  }

  lemma LatinKeyHasText(s: State, sym: KeySym, ascii: char)
    requires HasText(s)
    ensures HasText(LatinKey(s, sym, ascii))
  {
    hide TextPush, TextPop, TextCommit;
    TextStepsHaveText(s, ascii);
  }

  lemma ChooseKeyHasText(cfg: Config, s: State, sym: KeySym, ascii: char)
    requires AnswersHaveText(cfg) && HasText(s) && s.chosen < |s.candidates|
    ensures HasText(ChooseKey(cfg, s, sym, ascii))
  {
    hide RomanKey, AnswersHaveText;
    RomanKeyHasText(cfg, Accept(s), sym, ascii);
  }

  lemma StepHasText(cfg: Config, s: State, e: Event)
    requires AnswersHaveText(cfg) && HasText(s) && Inv(cfg, s)
    ensures HasText(Step(cfg, s, e))
  {
    hide LatinKey, WordKey, RomanKey, KanjiKey, ChooseKey, AnswersHaveText;
    if !e.Reset? {
      var t := Before(s, e);
      match t.mode {
        case Latin => LatinKeyHasText(t, e.sym, e.ascii);
        case Word => WordKeyHasText(cfg, t, e.sym, e.ascii);
        case Roman => RomanKeyHasText(cfg, t, e.sym, e.ascii);
        case Kanji => KanjiKeyHasText(cfg, t, e.sym, e.ascii);
        case Choose => ChooseKeyHasText(cfg, t, e.sym, e.ascii);
      }
    }
  }

  lemma {:induction false} RunHasText(cfg: Config, s: State, events: seq<Event>)
    requires AnswersHaveText(cfg) && HasText(s) && TableOk(cfg) && Inv(cfg, s)
    ensures HasText(Run(cfg, s, events))
    decreases |events|
  {
    if events != [] {
      StepHasText(cfg, s, events[0]);
      StepKeepsInv(cfg, s, events[0]);
      RunHasText(cfg, Step(cfg, s, events[0]), events[1..]);
    }
  }

  lemma InitialIsOk(cfg: Config)
    ensures Inv(cfg, Initial(cfg)) && HasText(Initial(cfg))
  {
  }

  lemma OverAnswersHaveText(root: Map, src: Sources)
    ensures AnswersHaveText(Over(root, src))
  {
    hide Merge;
    forall regs, entry, okuri, k | 0 <= k < |Over(root, src).lookup(regs, entry, okuri)|
      ensures Over(root, src).lookup(regs, entry, okuri)[k].text != ""
    {
      MergedHasNoEmptyText(
        DictionaryStore.PlainItems(DictionaryStore.PrivateTexts(Learned(src.data, regs), entry, okuri))
        + PublicItems(src.shapes, DictionaryStore.KeyOf(entry, okuri), okuri != ""), k);
    }
  }

  /**
   Whatever was loaded, after any keys at all, asking again for the entry and okurigana of the last registration offers
   the registered text as the chosen candidate instead of opening a registration.
   */
  lemma LastLearnedIsOfferedNext(root: Map, src: Sources, events: seq<Event>, s: State)
    requires TableOk(Over(root, src))
    requires var cfg := Over(root, src); s.registered == Run(cfg, Initial(cfg), events).registered && s.registered != []
    requires var r := s.registered[|s.registered| - 1]; s.top.entry == r.entry && s.top.okuri == r.okuri
    ensures var s', r := Query(Over(root, src), s), s.registered[|s.registered| - 1];
            s'.mode == Choose && s'.lower == s.lower && Middle(s') == r.text
  {
    hide Run, TableOk, Inv, Answer, AnswersHaveText;
    var cfg := Over(root, src);
    InitialIsOk(cfg);
    OverAnswersHaveText(root, src);
    RunHasText(cfg, Initial(cfg), events);
    LastRegisteredIsFirst(src, s.registered);
    assert cfg.lookup(s.registered, s.top.entry, s.top.okuri) == Answer(src, s.registered, s.top.entry, s.top.okuri);
  }

  // Later registrations, for other entries, do not matter.

  /** Registering r changes the texts that an entry and okurigana are answered with first. */
  predicate Touches(r: Registration, entry: string, okuri: string) {
    if okuri == "" then r.okuri == "" && r.entry == entry
    else
      && r.okuri != "" && DictionaryStore.KeyOf(r.entry, r.okuri) == DictionaryStore.KeyOf(entry, okuri)
      && (okuri[1..] == "" || r.okuri[1..] == okuri[1..])
  }

  /** The text registered last for them. */
  function Latest(regs: seq<Registration>, entry: string, okuri: string): Option<string> {
    if regs == [] then None
    else
      var r := regs[|regs| - 1];
      if Touches(r, entry, okuri) then Some(r.text) else Latest(regs[..|regs| - 1], entry, okuri)
  }

  /** The texts they are answered with first. */
  function FirstTexts(d: DictionaryStore.Store, entry: string, okuri: string): DictionaryStore.Texts {
    if okuri == "" then OrderedMaps.FindOr(d.nashis, entry, [])
    else DictionaryStore.AriTexts(d, DictionaryStore.KeyOf(entry, okuri), okuri[1..])
  }

  lemma RegisteringTouches(d: DictionaryStore.Store, r: Registration, entry: string, okuri: string)
    requires DictionaryStore.StoreOk(d)
    ensures var texts := FirstTexts(DictionaryStore.Register(d, r.entry, r.okuri, r.text), entry, okuri);
            if Touches(r, entry, okuri) then texts != [] && texts[0] == r.text else texts == FirstTexts(d, entry, okuri)
  {
    if r.okuri == "" {
      DictionaryStore.RegisterMovesToFront(d, r.entry, r.text, entry);
    } else {
      DictionaryStore.RegisterMovesBothToFront(d, r.entry, r.okuri, r.text, DictionaryStore.KeyOf(entry, okuri),
        if okuri == "" then "" else okuri[1..]);
    }
    hide DictionaryStore.Register, DictionaryStore.KeyOf, OrderedMaps.Find, DictionaryStore.StoreOk;
  }

  lemma FirstTextsComeFirst(d: DictionaryStore.Store, entry: string, okuri: string)
    requires FirstTexts(d, entry, okuri) != []
    ensures var texts := DictionaryStore.PrivateTexts(d, entry, okuri);
            texts != [] && texts[0] == FirstTexts(d, entry, okuri)[0]
  {
    hide OrderedMaps.LowerBound;
  }

  lemma {:induction false} LatestComesFirst(data: string, regs: seq<Registration>, entry: string, okuri: string)
    requires Latest(regs, entry, okuri).Some?
    ensures var texts := FirstTexts(Learned(data, regs), entry, okuri);
            texts != [] && texts[0] == Latest(regs, entry, okuri).value
  {
    hide FirstTexts, DictionaryStore.Register, DictionaryStore.StoreOk, Touches;
    var r, before := regs[|regs| - 1], regs[..|regs| - 1];
    LearnedIsOk(data, before);
    RegisteringTouches(Learned(data, before), r, entry, okuri);
    if !Touches(r, entry, okuri) {
      LatestComesFirst(data, before, entry, okuri);
    }
  }

  /** Whatever was loaded and whatever else registered, the first answer is the text registered last for the query. */
  lemma LatestIsFirst(src: Sources, regs: seq<Registration>, entry: string, okuri: string)
    requires Latest(regs, entry, okuri).Some? && Latest(regs, entry, okuri).value != ""
    ensures var found := Answer(src, regs, entry, okuri);
            found != [] && found[0].text == Latest(regs, entry, okuri).value
  {
    hide Merge, FirstTexts, DictionaryStore.PrivateTexts, Learned, Latest;
    var d := Learned(src.data, regs);
    LatestComesFirst(src.data, regs, entry, okuri);
    FirstTextsComeFirst(d, entry, okuri);
    FirstOfferedIsFirst(
      DictionaryStore.PlainItems(DictionaryStore.PrivateTexts(d, entry, okuri))
      + PublicItems(src.shapes, DictionaryStore.KeyOf(entry, okuri), okuri != ""));
  }

  /** None of these is for the entry and okurigana. */
  ghost predicate NoneTouches(regs: seq<Registration>, entry: string, okuri: string) {
    forall i :: 0 <= i < |regs| ==> !Touches(regs[i], entry, okuri)
  }

  lemma {:induction false} LatestStays(
    regs: seq<Registration>, r: Registration, later: seq<Registration>, entry: string, okuri: string)
    requires Touches(r, entry, okuri) && NoneTouches(later, entry, okuri)
    ensures Latest(regs + [r] + later, entry, okuri) == Some(r.text)
  {
    var all := regs + [r] + later;
    if later == [] {
      assert all == regs + [r];
    } else {
      var before := later[..|later| - 1];
      assert all[..|all| - 1] == regs + [r] + before;
      LatestStays(regs, r, before, entry, okuri);
    }
  }

  lemma OwnTouches(r: Registration)
    ensures Touches(r, r.entry, r.okuri)
  {
  }

  /** A state reached over the dictionary in which a candidate is chosen. */
  ghost predicate Chooses(root: Map, src: Sources, events: seq<Event>, s: State)
    requires TableOk(Over(root, src))
  {
    var cfg := Over(root, src);
    InitialIsOk(cfg);
    s == Run(cfg, Initial(cfg), events) && s.mode == Choose
  }

  lemma ChosenHasText(root: Map, src: Sources, events: seq<Event>, s: State)
    requires TableOk(Over(root, src)) && Chooses(root, src, events, s)
    ensures Inv(Over(root, src), s) && s.chosen < |s.candidates| && s.candidates[s.chosen].text != ""
  {
    var cfg := Over(root, src);
    InitialIsOk(cfg);
    OverAnswersHaveText(root, src);
    RunHasText(cfg, Initial(cfg), events);
    hide Over, TableOk, Spelled, Run;
  }

  /**
   After any run that ends in a choice, however much is registered for other entries after that,
   asking for the same entry and okurigana again offers the candidate that was chosen first.
   */
  lemma ChosenIsOfferedNext(root: Map, src: Sources, events: seq<Event>, s: State, e: Event, later: seq<Registration>,
                            q: State, t: State)
    requires TableOk(Over(root, src)) && Chooses(root, src, events, s) && Accepting(e)
    requires Inv(Over(root, src), s) && NoneTouches(later, s.top.entry, s.top.okuri)
    requires s.mode == Choose ==> s.chosen < |s.candidates|
    requires q.registered == Step(Over(root, src), s, e).registered + later
    requires q.top.entry == s.top.entry && q.top.okuri == s.top.okuri && Asks(Over(root, src), q, t)
    ensures t.mode == Choose && t.lower == q.lower && Middle(t) == s.candidates[s.chosen].text
  {
    var cfg := Over(root, src);
    var r := Registration(s.top.entry, s.top.okuri, s.candidates[s.chosen].text);
    ChosenHasText(root, src, events, s);
    KeyTeaches(cfg, s, e);
    OwnTouches(r);
    LatestStays(s.registered, r, later, s.top.entry, s.top.okuri);
    assert q.registered == s.registered + [r] + later by { hide Step, Inv, Chooses, TableOk; }
    LatestIsFirst(src, q.registered, s.top.entry, s.top.okuri);
    assert cfg.lookup(q.registered, s.top.entry, s.top.okuri) == Answer(src, q.registered, s.top.entry, s.top.okuri);
    hide Step, Inv, TableOk, Chooses, Latest, Touches, Answer, NoneTouches;
  }

  lemma AskedDisplay(cfg: Config, s: State, entry: string, okuri: string, t: State)
    requires Asks(cfg, Asking(cfg, s, entry, okuri), t) && t.mode == Choose
    ensures Display(t) == s.top.text + Middle(t) + if okuri == "" then "" else okuri[1..]
  {
    var shown := s.top.text + Middle(t) + if okuri == "" then "" else okuri[1..];
    assert shown + "" == shown;
    hide Middle;
  }

  /** So, whenever it is typed again, a word with okurigana shows the candidate chosen for it before. */
  lemma TypedAgainIsOffered(root: Map, src: Sources, events: seq<Event>, s: State, e: Event, later: seq<Registration>,
                            q: State, key: char, keys: string, kana: seq<string>,
                            key': char, keys': string, okurigana: seq<string>)
    requires TableOk(Over(root, src)) && Chooses(root, src, events, s) && Accepting(e)
    requires Inv(Over(root, src), s) && NoneTouches(later, s.top.entry, s.top.okuri)
    requires s.mode == Choose ==> s.chosen < |s.candidates|
    requires q.registered == Step(Over(root, src), s, e).registered + later && IsFree(Over(root, src), q)
    requires SpellsEntry(Over(root, src), q, key, keys, kana) && SpellsEntry(Over(root, src), q, key', keys', okurigana)
    requires GoesOn(root, q.katakana, "", [ToLower(key')] + keys')
    requires s.top.entry == Concat(kana) && s.top.okuri == [ToLower(key')] + Concat(okurigana)
    ensures var t := Run(Over(root, src), q, Keys([key] + keys) + Keys([key'] + keys'));
            && t.mode == Choose && t.lower == q.lower
            && Display(t) == q.top.text + s.candidates[s.chosen].text + Concat(okurigana)
  {
    var cfg := Over(root, src);
    assert Concat(kana) != "";
    OkuriAriIsAsked(cfg, q, key, keys, kana, key', keys', okurigana);
    var t, u := Run(cfg, q, Keys([key] + keys) + Keys([key'] + keys')), Asking(cfg, q, s.top.entry, s.top.okuri);
    hide Step, Inv, TableOk, Chooses, NoneTouches, Run, Asks, Over;
    ChosenIsOfferedNext(root, src, events, s, e, later, u, t);
    AskedDisplay(cfg, q, s.top.entry, s.top.okuri, t);
    assert s.top.okuri[1..] == Concat(okurigana);
  }

  /** And a word without okurigana, asked for by a space. */
  lemma SpacedAgainIsOffered(root: Map, src: Sources, events: seq<Event>, s: State, e: Event, later: seq<Registration>,
                             q: State, key: char, keys: string, kana: seq<string>)
    requires TableOk(Over(root, src)) && Chooses(root, src, events, s) && Accepting(e)
    requires Inv(Over(root, src), s) && NoneTouches(later, s.top.entry, s.top.okuri)
    requires s.mode == Choose ==> s.chosen < |s.candidates|
    requires q.registered == Step(Over(root, src), s, e).registered + later && IsFree(Over(root, src), q)
    requires SpellsEntry(Over(root, src), q, key, keys, kana) && Find(root, ' ').None?
    requires s.top.entry == Concat(kana) && s.top.okuri == ""
    ensures var t := Run(Over(root, src), q, Keys([key] + keys) + Keys(" "));
            && t.mode == Choose && t.lower == q.lower
            && Display(t) == q.top.text + s.candidates[s.chosen].text
  {
    var cfg := Over(root, src);
    OkuriNasiIsAsked(cfg, q, key, keys, kana);
    var t, u := Run(cfg, q, Keys([key] + keys) + Keys(" ")), Asking(cfg, q, s.top.entry, s.top.okuri);
    hide Step, Inv, TableOk, Chooses, NoneTouches, Run, Asks, Over;
    ChosenIsOfferedNext(root, src, events, s, e, later, u, t);
    AskedDisplay(cfg, q, s.top.entry, s.top.okuri, t);
    assert q.top.text + s.candidates[s.chosen].text + "" == q.top.text + s.candidates[s.chosen].text;
  }
}
