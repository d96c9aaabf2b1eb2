/**
 The kana-kanji engine on plain values: a stack of registration levels and the pending romaji.
 Nothing here knows the shared buffer, the offsets into it or the splice edits; those belong to
 the class Engine, which is proved to follow these functions step by step.
 */
module EngineModel {
  import opened Wrappers
  import opened RomajiTable
  import opened Candidates

  datatype KeySym = Return | Linefeed | BackSpace | OtherKey

  datatype Mode = Latin | Word | Roman | Kanji | Choose

  datatype Attribute = RomanKeys | Text | Entry | Okuri | CandidateText

  /** okuri is empty, or the hidden romaji key followed by the okurigana that is shown. */
  datatype Level = Level(text: string, entry: string, okuri: string) {
    function Whole(): string {
      text + entry + okuri
    }

    function Okurigana(): string {
      if okuri == "" then "" else okuri[1..]
    }
  }

  const EMPTY_LEVEL := Level("", "", "")

  datatype Registration = Registration(entry: string, okuri: string, text: string)

  /** The table, and a dictionary: an answer to each query, given what was registered before. */
  datatype Config = Config(root: Map, lookup: (seq<Registration>, string, string) -> seq<Candidate>)

  datatype State = State(
    mode: Mode,
    katakana: bool,
    lower: seq<Level>,
    top: Level,
    pending: string,
    node: Map,
    candidates: seq<Candidate>,
    chosen: nat,
    choosing: bool,
    registered: seq<Registration>,
    committed: seq<string>,
    forwarded: bool)

  datatype Preedit = Preedit(text: string, begin: int, end: int)

  /** A key is forwarded to the client if the engine does not use it, a repetition of one never is. */
  datatype Event = Key(sym: KeySym, ascii: char) | Repeat(sym: KeySym, ascii: char) | Reset

  function Initial(cfg: Config): State {
    State(Roman, false, [], EMPTY_LEVEL, "", cfg.root, [], 0, false, [], [], false)
  }

  // What the user sees: the top level only.

  function Middle(s: State): string {
    if s.candidates != [] && s.chosen < |s.candidates| then s.candidates[s.chosen].text else s.top.entry
  }

  function Display(s: State): string {
    s.top.text + Middle(s) + s.top.Okurigana() + s.pending
  }

  function Fill(n: nat, a: Attribute): (r: seq<Attribute>)
    ensures |r| == n && forall i :: 0 <= i < n ==> r[i] == a
  {
    seq(n, _ => a)
  }

  function Attributes(s: State): (r: seq<Attribute>)
    ensures |r| == |Display(s)|
  {
    Fill(|s.top.text|, Text) + Fill(|Middle(s)|, if s.candidates != [] then CandidateText else Entry)
    + Fill(|s.top.Okurigana()|, Okuri) + Fill(|s.pending|, RomanKeys)
  }

  /** The preedit a client shows: the caret range runs to the end, or marks the chosen candidate. */
  function Shown(s: State): Preedit {
    var n := |Display(s)|;
    if s.candidates == [] then Preedit(Display(s), |s.top.text|, n)
    else if Middle(s) == "" then Preedit(Display(s), n, n)
    else Preedit(Display(s), |s.top.text|, |s.top.text| + |Middle(s)|)
  }

  // Steps on the pending romaji.

  function RomanReset(cfg: Config, s: State): State {
    s.(top := s.top.(okuri := ""), pending := "", node := cfg.root)
  }

  function RomanPush(s: State, c: char, next: Map): State {
    s.(pending := s.pending + [c], node := next)
  }

  function RomanReduce(s: State, kana: string): State {
    var s' := s.(pending := "");
    if s.mode == Kanji && s.top.okuri != "" then s'.(top := s.top.(okuri := s.top.okuri + kana))
    else if s.mode == Kanji then s'.(top := s.top.(entry := s.top.entry + kana))
    else if s.lower != [] then s'.(top := s.top.(text := s.top.text + kana))
    else s'.(top := EMPTY_LEVEL, committed := s.committed + [kana])
  }

  function RomanCommit(cfg: Config, s: State): State {
    (if s.top.okuri != "" then Query(cfg, s) else s).(node := cfg.root)
  }

  function Press(cfg: Config, s: State, a: Action): State {
    match a
    case Push(key, next) => RomanPush(s, key, next)
    case Reduce(_, hiragana, katakana, restart) =>
      var s' := RomanReduce(s, if s.katakana then katakana else hiragana);
      if restart.Some? && Descend(cfg.root, restart.value).Some?
      then RomanPush(s', restart.value, Descend(cfg.root, restart.value).value)
      else RomanCommit(cfg, s')
  }

  // Steps on the levels.

  function TextPush(s: State, c: char): State {
    if s.lower != [] then s.(top := s.top.(text := s.top.text + [c]))
    else s.(committed := s.committed + [[c]])
  }

  function TextPop(s: State): State {
    if s.top.text != "" then s.(top := s.top.(text := s.top.text[..|s.top.text| - 1]))
    else if s.lower != [] then Cancel(s)
    else s.(forwarded := true)
  }

  /** Leave an empty registration: back to composing the entry it was opened for. */
  function Cancel(s: State): State
    requires s.lower != []
  {
    var n := |s.lower| - 1;
    s.(lower := s.lower[..n], top := s.lower[n].(okuri := ""), mode := Kanji)
  }

  function TextCommit(s: State): State {
    if s.lower != [] then Finish(s) else s.(forwarded := true)
  }

  /** The text a finished registration leaves in the level that asked for it. */
  function Spliced(asking: Level, text: string): string {
    asking.text + text + asking.Okurigana()
  }

  /** Teach the dictionary a text for the entry and okurigana of a level. */
  function Remember(s: State, l: Level, text: string): State {
    s.(registered := s.registered + [Registration(l.entry, l.okuri, text)])
  }

  function Close(s: State): State
    requires s.lower != []
  {
    var n := |s.lower| - 1;
    Settle(s.(mode := Roman, lower := s.lower[..n]), Spliced(s.lower[n], s.top.text))
  }

  function Finish(s: State): State
    requires s.lower != []
  {
    Close(if s.top.text != "" then Remember(s, s.lower[|s.lower| - 1], s.top.text) else s)
  }

  /** Text that is done: kept in a registration, sent to the client otherwise. */
  function Settle(s: State, text: string): State {
    if s.lower != [] then s.(top := Level(text, "", ""))
    else s.(top := EMPTY_LEVEL, committed := s.committed + [text])
  }

  function EntryPush(s: State, c: char): State {
    s.(top := s.top.(entry := s.top.entry + [c]))
  }

  function EntryDrop(s: State): State
    requires s.top.entry != ""
  {
    s.(top := s.top.(entry := s.top.entry[..|s.top.entry| - 1]))
  }

  function EntryPop(s: State): State {
    var s' := if s.top.entry != "" then EntryDrop(s) else s;
    if s'.top.entry == "" then s'.(mode := Roman) else s'
  }

  function EntryCommit(s: State): State {
    Settle(s.(mode := Roman), s.top.text + s.top.entry)
  }

  /** Ask the dictionary; without an answer a registration opens above the asking level. */
  function Query(cfg: Config, s: State): State {
    var found := cfg.lookup(s.registered, s.top.entry, s.top.okuri);
    if found == [] then OpenRegistration(s)
    else s.(mode := Choose, candidates := found, chosen := 0, choosing := false)
  }

  function OpenRegistration(s: State): State {
    s.(mode := Roman, lower := s.lower + [s.top], top := EMPTY_LEVEL, candidates := [])
  }

  /** Give up choosing: the entry again, without its okurigana. */
  function Back(s: State): State {
    s.(mode := Kanji, top := s.top.(okuri := ""), candidates := [])
  }

  /** The next candidate; past the last one a registration opens. */
  function Next(s: State): State {
    if s.chosen + 1 < |s.candidates| then s.(chosen := s.chosen + 1, choosing := true)
    else OpenRegistration(s.(chosen := s.chosen + 1))
  }

  function Previous(s: State): State
    requires s.chosen > 0
  {
    s.(chosen := s.chosen - 1)
  }

  function Take(s: State): State
    requires s.chosen < |s.candidates|
  {
    Settle(s.(mode := Roman, candidates := []), Spliced(s.top, s.candidates[s.chosen].text))
  }

  function Accept(s: State): State
    requires s.chosen < |s.candidates|
  {
    Take(Remember(s, s.top, s.candidates[s.chosen].text))
  }

  // The five modes.

  predicate IsPrint(c: char) {
    ' ' <= c <= '~'
  }

  function ToLower(c: char): char {
    if 'A' <= c <= 'Z' then c - 'A' + 'a' else c
  }

  const CONTROL_H: char := 8 as char
  const CONTROL_J: char := 10 as char
  const CONTROL_M: char := 13 as char

  predicate IsReturn(sym: KeySym, ascii: char) {
    sym == Return || ascii == CONTROL_M
  }

  predicate IsLinefeed(sym: KeySym, ascii: char) {
    sym == Linefeed || ascii == CONTROL_J
  }

  predicate IsBackSpace(sym: KeySym, ascii: char) {
    sym == BackSpace || ascii == CONTROL_H
  }

  predicate AtTop(cfg: Config, s: State) {
    s.node == cfg.root
  }

  /** The levels one after another, as they lie in the engine's buffer. */
  function Flat(ls: seq<Level>): string {
    if ls == [] then "" else Flat(ls[..|ls| - 1]) + ls[|ls| - 1].Whole()
  }

  predicate BufferEmpty(s: State) {
    Flat(s.lower) + s.top.Whole() + s.pending == ""
  }

  function Forward(s: State): State {
    s.(forwarded := true)
  }

  function LatinKey(s: State, sym: KeySym, ascii: char): State {
    if IsReturn(sym, ascii) then TextCommit(s)
    else if IsLinefeed(sym, ascii) then s.(mode := Roman)
    else if IsBackSpace(sym, ascii) then TextPop(s)
    else if IsPrint(ascii) then TextPush(s, ascii)
    else if BufferEmpty(s) then Forward(s)
    else s
  }

  function WordKey(cfg: Config, s: State, sym: KeySym, ascii: char): State {
    if IsReturn(sym, ascii) then EntryCommit(s)
    else if IsLinefeed(sym, ascii) then s.(mode := if s.top.entry != "" then Kanji else Roman)
    else if IsBackSpace(sym, ascii) then EntryPop(s)
    else if ascii == ' ' then (if s.top.entry != "" then Query(cfg, s) else s)
    else if IsPrint(ascii) then EntryPush(s, ascii)
    else s
  }

  /** Drop a pending spelling, if there is one. */
  function DropPending(cfg: Config, s: State): State {
    if AtTop(cfg, s) then s else RomanReset(cfg, s)
  }

  function RomanKey(cfg: Config, s: State, sym: KeySym, ascii: char): State {
    if IsReturn(sym, ascii) then TextCommit(DropPending(cfg, s))
    else if IsBackSpace(sym, ascii) then (if AtTop(cfg, s) then TextPop(s) else RomanReset(cfg, s))
    else if IsLinefeed(sym, ascii) then DropPending(cfg, s)
    else if IsPrint(ascii) then RomanPrint(cfg, s, ascii)
    else
      var s' := DropPending(cfg, s);
      if BufferEmpty(s') then Forward(s') else s'
  }

  function RomanPrint(cfg: Config, s: State, ascii: char): State {
    var key := ToLower(ascii);
    var s' := if Find(s.node, key).None? then DropPending(cfg, s) else s;
    match Find(s'.node, key)
    case Some(a) => Press(cfg, if AtTop(cfg, s') && key != ascii then s'.(mode := Kanji) else s', a)
    case None => RomanOther(s', ascii)
  }

  function RomanOther(s: State, ascii: char): State {
    if ascii == '/' then s.(mode := Word)
    else if ascii == 'l' then s.(mode := Latin)
    else if ascii == 'q' then s.(katakana := !s.katakana)
    else TextPush(s, ascii)
  }

  function KanjiKey(cfg: Config, s: State, sym: KeySym, ascii: char): State {
    if IsReturn(sym, ascii) then EntryCommit(DropPending(cfg, s))
    else if IsBackSpace(sym, ascii) then
      if AtTop(cfg, s) then EntryPop(s)
      else
        var s' := RomanReset(cfg, s);
        if BufferEmpty(s') then s'.(mode := Roman) else s'
    else if IsPrint(ascii) then KanjiPrint(cfg, s, ascii)
    else DropPending(cfg, s)
  }

  /** A capital that starts a spelling after an entry becomes the hidden key of the okurigana. */
  function WithHiddenKey(cfg: Config, s: State, ascii: char): State {
    if AtTop(cfg, s) && ToLower(ascii) != ascii && s.top.entry != "" then
      s.(top := s.top.(okuri := [ToLower(ascii)]))
    else s
  }

  /** After a spelling is given up the key is looked up again without lower-casing it. */
  function KanjiPrint(cfg: Config, s: State, ascii: char): State {
    var key := ToLower(ascii);
    var retry := Find(s.node, key).None? && !AtTop(cfg, s);
    var s' := if retry then RomanReset(cfg, s) else s;
    match Find(s'.node, if retry then ascii else key)
    case Some(a) => Press(cfg, WithHiddenKey(cfg, s', ascii), a)
    case None => KanjiOther(cfg, s', ascii)
  }

  function KanjiOther(cfg: Config, s: State, ascii: char): State {
    if ascii == ' ' then Query(cfg, s)
    else if ascii == '/' || ascii == 'l' then s.(mode := Word)
    else if ascii == 'q' then s.(katakana := !s.katakana)
    else EntryPush(s, ascii)
  }

  function ChooseKey(cfg: Config, s: State, sym: KeySym, ascii: char): State
    requires s.chosen < |s.candidates|
  {
    if IsBackSpace(sym, ascii) || (ascii == 'x' && s.chosen == 0) then
      Back(s)
    else if ascii == ' ' then Next(s)
    else if ascii == 'x' then Previous(s)
    else if sym == Return || IsPrint(ascii) then
      var s' := Accept(s);
      if IsReturn(sym, ascii) then s' else RomanKey(cfg, s', sym, ascii)
    else s
  }

  function KeyPressed(cfg: Config, s: State, sym: KeySym, ascii: char): State
    requires s.mode == Choose ==> s.chosen < |s.candidates|
  {
    match s.mode
    case Latin => LatinKey(s, sym, ascii)
    case Word => WordKey(cfg, s, sym, ascii)
    case Roman => RomanKey(cfg, s, sym, ascii)
    case Kanji => KanjiKey(cfg, s, sym, ascii)
    case Choose => ChooseKey(cfg, s, sym, ascii)
  }

  /** f_reset: everything composed is dropped; what was registered and sent stays. */
  function ResetAll(cfg: Config, s: State): State {
    s.(mode := Roman, katakana := false, lower := [], top := EMPTY_LEVEL, pending := "", node := cfg.root,
      candidates := [])
  }

  /** The flag is cleared before a key, and stays before a repetition. */
  function Before(s: State, e: Event): State {
    if e.Key? then s.(forwarded := false) else s
  }

  function Step(cfg: Config, s: State, e: Event): State
    requires s.mode == Choose ==> s.chosen < |s.candidates|
  {
    if e.Reset? then ResetAll(cfg, s) else KeyPressed(cfg, Before(s, e), e.sym, e.ascii)
  }
}
