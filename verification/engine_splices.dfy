/**
 The arithmetic behind the engine: where the levels lie in the shared buffer, and which range of
 the host's copy each step replaces by what. The lemmas say that the edited buffer and offsets
 encode the next state, and that the edited copy is its display; the class Engine only has to do
 those edits.
 */
module EngineSplices {
  import opened Wrappers
  import opened RomajiTable
  import opened Candidates
  import opened EngineModel

  datatype Offsets = Offsets(base: nat, text: nat, entry: nat, okuri: nat) {
    /** The okurigana that is shown: all but the hidden key. */
    function Tail(): nat {
      if okuri > 0 then okuri - 1 else 0
    }
  }

  function OffsetsOf(base: nat, l: Level): Offsets {
    Offsets(base, |l.text|, |l.entry|, |l.okuri|)
  }

  ghost function Layout(ls: seq<Level>): (r: seq<Offsets>)
    ensures |r| == |ls|
  {
    if ls == [] then [] else Layout(ls[..|ls| - 1]) + [OffsetsOf(|Flat(ls[..|ls| - 1])|, ls[|ls| - 1])]
  }

  lemma LayoutSnoc(ls: seq<Level>, l: Level)
    ensures Flat(ls + [l]) == Flat(ls) + l.Whole()
    ensures Layout(ls + [l]) == Layout(ls) + [OffsetsOf(|Flat(ls)|, l)]
  {
    assert (ls + [l])[..|ls|] == ls;
  }

  function BufferOf(s: State): string {
    Flat(s.lower) + s.top.Whole() + s.pending
  }

  ghost function LayoutOf(s: State): seq<Offsets> {
    Layout(s.lower) + [TopOffsets(s)]
  }

  ghost function TopOffsets(s: State): Offsets {
    OffsetsOf(|Flat(s.lower)|, s.top)
  }

  /** Everything the engine, the dictionary and the client hold, apart from the host's copy. */
  datatype Members = Members(
    mode: Mode, buffer: string, katakana: bool, node: Map, states: seq<Offsets>,
    candidates: seq<Candidate>, chosen: nat, choosing: bool,
    registered: seq<Registration>, committed: seq<string>, forwarded: bool)

  ghost function Encode(s: State): Members {
    Members(s.mode, BufferOf(s), s.katakana, s.node, LayoutOf(s), s.candidates, s.chosen, s.choosing,
            s.registered, s.committed, s.forwarded)
  }

  lemma Sizes(s: State)
    ensures var e, o := Encode(s), TopOffsets(s);
            && |e.states| == |s.lower| + 1 && e.states[|s.lower|] == o
            && |e.buffer| == o.base + o.text + o.entry + o.okuri + |s.pending|
            && |Display(s)| == |Attributes(s)| == o.text + |Middle(s)| + o.Tail() + |s.pending|
            && o.text == |s.top.text|
  {
  }

  /** What lies behind the offsets: the top level, and behind it nothing but the pending spelling. */
  lemma TopIsAtEnd(s: State)
    ensures var e, o := Encode(s), TopOffsets(s);
            && e.buffer[o.base..] == s.top.text + s.top.entry + s.top.okuri + s.pending
            && e.buffer[o.base + o.text + o.entry + o.okuri..] == s.pending
  {
    assert BufferOf(s)[|Flat(s.lower)|..] == s.top.Whole() + s.pending;
  }

  /** The range [begin, end) is the first run of candidate characters, or empty at the end. */
  ghost predicate Marks(attrs: seq<Attribute>, begin: int, end: int) {
    && 0 <= begin <= end <= |attrs|
    && (forall k :: 0 <= k < begin ==> attrs[k] != CandidateText)
    && (forall k :: begin <= k < end ==> attrs[k] == CandidateText)
    && (end < |attrs| ==> attrs[end] != CandidateText)
    && (begin == end ==> end == |attrs|)
  }

  lemma MarkedIsShown(s: State, begin: int, end: int)
    requires s.candidates != [] && Marks(Attributes(s), begin, end)
    ensures Shown(s) == Preedit(Display(s), begin, end)
  {
    var t, m := |s.top.text|, |Middle(s)|;
    var a := Attributes(s);
    assert forall k :: 0 <= k < |a| ==> (a[k] == CandidateText <==> t <= k < t + m);
    if m > 0 {
      assert a[t] == CandidateText && a[t + m - 1] == CandidateText;
    }
    assert begin < |a| ==> a[begin] == CandidateText;
    assert t + m < |a| ==> a[t + m] != CandidateText;
  }

  lemma CaretIsShown(s: State)
    requires s.candidates == []
    ensures |s.top.text| <= |Display(s)| && Shown(s) == Preedit(Display(s), |s.top.text|, |Display(s)|)
  {
  }

  /** Replacing [i, i + m) of the display of s by c, painted a, gives the display of s'. */
  ghost predicate Leads(s: State, i: int, m: int, c: string, a: seq<Attribute>, s': State) {
    && 0 <= i && 0 <= m && i + m <= |Display(s)| && |a| == |c|
    && Display(s)[..i] + c + Display(s)[i + m..] == Display(s')
    && Attributes(s)[..i] + a + Attributes(s)[i + m..] == Attributes(s')
  }

  lemma Splice<T>(s: seq<T>, before: seq<T>, gone: seq<T>, after: seq<T>, come: seq<T>)
    requires s == before + gone + after
    ensures s[..|before|] + come + s[|before| + |gone|..] == before + come + after
  {
    assert s[..|before|] == before;
    assert s[|before| + |gone|..] == after;
  }

  lemma Piece<T>(s: seq<T>, before: seq<T>, piece: seq<T>, after: seq<T>)
    requires s == before + piece + after
    ensures s[|before|..|before| + |piece|] == piece
  {
  }

  lemma LeadsBy(
    s: State, s': State, b: string, g: string, t: string, c: string,
    ba: seq<Attribute>, ga: seq<Attribute>, ta: seq<Attribute>, ca: seq<Attribute>)
    requires |b| == |ba| && |g| == |ga| && |c| == |ca|
    requires Display(s) == b + g + t && Display(s') == b + c + t
    requires Attributes(s) == ba + ga + ta && Attributes(s') == ba + ca + ta
    ensures Leads(s, |b|, |g|, c, ca, s')
  {
    Splice(Display(s), b, g, t, c);
    Splice(Attributes(s), ba, ga, ta, ca);
  }

  lemma BlankEncodes(s: State)
    requires s.lower == [] && s.top == EMPTY_LEVEL && s.pending == "" && s.candidates == []
    ensures Display(s) == "" && Attributes(s) == [] && Shown(s) == Preedit("", 0, 0)
    ensures Encode(s).buffer == "" && Encode(s).states == [Offsets(0, 0, 0, 0)]
  {
  }

  /** A change of the top level alone changes the last entry of the offsets. */
  lemma Relaid(s: State, s': State)
    requires s'.lower == s.lower
    ensures LayoutOf(s)[|s.lower| := TopOffsets(s')] == LayoutOf(s')
  {
  }

  // The romaji.

  lemma ResetLeads(cfg: Config, s: State)
    requires s.candidates == []
    ensures var o := TopOffsets(s); Leads(s, o.text + o.entry, o.Tail() + |s.pending|, "", [], RomanReset(cfg, s))
  {
    var t := s.top;
    LeadsBy(s, RomanReset(cfg, s), t.text + t.entry, t.Okurigana() + s.pending, "", "",
            Fill(|t.text|, Text) + Fill(|t.entry|, Entry),
              Fill(|t.Okurigana()|, Okuri) + Fill(|s.pending|, RomanKeys), [], []);
  }

  lemma ResetEncodes(cfg: Config, s: State)
    ensures var e, o, s' := Encode(s), TopOffsets(s), RomanReset(cfg, s);
            Encode(s') == e.(buffer := e.buffer[..o.base + o.text + o.entry],
                             states := e.states[|s.lower| := o.(okuri := 0)], node := cfg.root)
  {
    Relaid(s, RomanReset(cfg, s));
  }

  lemma PushLeads(s: State, c: char, next: Map)
    requires s.candidates == []
    ensures var e, o, s' := Encode(s), TopOffsets(s), RomanPush(s, c, next);
            && Leads(s, o.text + o.entry + o.Tail() + |s.pending|, 0, [c], [RomanKeys], s')
            && Encode(s') == e.(buffer := e.buffer + [c], node := next)
  {
    LeadsBy(s, RomanPush(s, c, next), Display(s), "", "", [c], Attributes(s), [], [], [RomanKeys]);
  }

  /** The kana replaces the pending keys and goes to the okurigana, to the entry or to the text. */
  lemma ReduceOkuriLeads(s: State, kana: string)
    requires s.candidates == [] && s.mode == Kanji && s.top.okuri != ""
    ensures var o := TopOffsets(s);
            Leads(s, o.text + o.entry + o.okuri - 1, |s.pending|, kana, Fill(|kana|, Okuri), RomanReduce(s, kana))
    ensures TopOffsets(RomanReduce(s, kana)) == TopOffsets(s).(okuri := |s.top.okuri| + |kana|)
  {
    var t := s.top;
    LeadsBy(s, RomanReduce(s, kana), t.text + t.entry + t.Okurigana(), s.pending, "", kana,
            Fill(|t.text|, Text) + Fill(|t.entry|, Entry) + Fill(|t.Okurigana()|, Okuri),
              Fill(|s.pending|, RomanKeys), [], Fill(|kana|, Okuri));
  }

  lemma ReduceEntryLeads(s: State, kana: string)
    requires s.candidates == [] && s.mode == Kanji && s.top.okuri == ""
    ensures var o := TopOffsets(s);
            Leads(s, o.text + o.entry, |s.pending|, kana, Fill(|kana|, Entry), RomanReduce(s, kana))
    ensures TopOffsets(RomanReduce(s, kana)) == TopOffsets(s).(entry := |s.top.entry| + |kana|)
  {
    LeadsBy(s, RomanReduce(s, kana), s.top.text + s.top.entry, s.pending, "", kana,
            Fill(|s.top.text|, Text) + Fill(|s.top.entry|, Entry), Fill(|s.pending|, RomanKeys), [],
              Fill(|kana|, Entry));
  }

  lemma ReduceTextLeads(s: State, kana: string)
    requires s.candidates == [] && s.mode != Kanji && s.lower != [] && s.top.entry == s.top.okuri == ""
    ensures var o := TopOffsets(s);
            Leads(s, o.text, |s.pending|, kana, Fill(|kana|, Text), RomanReduce(s, kana))
    ensures TopOffsets(RomanReduce(s, kana)) == TopOffsets(s).(text := |s.top.text| + |kana|)
  {
    LeadsBy(s, RomanReduce(s, kana), s.top.text, s.pending, "", kana,
            Fill(|s.top.text|, Text), Fill(|s.pending|, RomanKeys), [], Fill(|kana|, Text));
  }

  lemma ReduceEncodes(s: State, kana: string)
    requires s.mode == Kanji || (s.top.entry == s.top.okuri == "" && s.lower != [])
    ensures var e, s' := Encode(s), RomanReduce(s, kana);
            Encode(s') == e.(buffer := e.buffer[..|e.buffer| - |s.pending|] + kana,
                             states := e.states[|s.lower| := TopOffsets(s')])
  {
    var s' := RomanReduce(s, kana);
    Relaid(s, s');
    assert s'.top.Whole() == s.top.Whole() + kana;
    ReplaceEnd(Flat(s.lower), s.top.Whole(), s.pending, kana);
  }

  lemma ReplaceEnd(f: string, whole: string, gone: string, come: string)
    ensures var b := f + whole + gone; b[..|b| - |gone|] + come == f + (whole + come) + ""
  {
  }

  lemma ReduceCommits(s: State, kana: string)
    requires s.candidates == [] && s.mode != Kanji && s.lower == [] && s.top == EMPTY_LEVEL
    ensures var e, s' := Encode(s), RomanReduce(s, kana);
            && e.buffer[..|e.buffer| - |s.pending|] + kana == kana
            && Encode(s') == e.(buffer := "", states := [Offsets(0, 0, 0, 0)], committed := e.committed + [kana])
            && Display(s') == "" && Attributes(s') == [] && Shown(s') == Preedit("", 0, 0)
  {
    BlankEncodes(RomanReduce(s, kana));
  }

  // The levels.

  lemma TextPushLeads(s: State, c: char)
    requires s.candidates == [] && s.lower != [] && s.top.entry == s.top.okuri == s.pending == ""
    ensures var e, o, s' := Encode(s), TopOffsets(s), TextPush(s, c);
            && Leads(s, o.text, 0, [c], [Text], s')
            && Encode(s') == e.(buffer := e.buffer + [c], states := e.states[|s.lower| := o.(text := o.text + 1)])
  {
    Relaid(s, TextPush(s, c));
    LeadsBy(s, TextPush(s, c), s.top.text, "", "", [c], Fill(|s.top.text|, Text), [], [], [Text]);
  }

  lemma TextPopLeads(s: State)
    requires s.candidates == [] && s.top.text != "" && s.top.entry == s.top.okuri == s.pending == ""
    ensures var e, o, s' := Encode(s), TopOffsets(s), TextPop(s);
            && Leads(s, o.text - 1, 1, "", [], s')
            && Encode(s') == e.(buffer := e.buffer[..|e.buffer| - 1],
              states := e.states[|s.lower| := o.(text := o.text - 1)])
  {
    var t, k := s.top.text, |s.top.text| - 1;
    Relaid(s, TextPop(s));
    LeadsBy(s, TextPop(s), t[..k], t[k..], "", "", Fill(k, Text), Fill(1, Text), [], []);
  }

  /** The offsets below the level that is asked or cancelled do not move. */
  lemma LayoutPrefix(s: State)
    requires s.lower != []
    ensures var n := |s.lower| - 1;
            && Encode(s).states[..n] == Layout(s.lower[..n])
            && Encode(s).states[n] == OffsetsOf(|Flat(s.lower[..n])|, s.lower[n])
            && |Flat(s.lower)| == |Flat(s.lower[..n])| + |s.lower[n].Whole()|
  {
    var n := |s.lower| - 1;
    assert Layout(s.lower)[..n] == Layout(s.lower[..n]);
    assert Encode(s).states[..n] == Layout(s.lower)[..n];
  }

  lemma CutParts(f: string, t: string, e: string, k: string)
    ensures var b := f + (t + e + k); b[..|f| + |t| + |e|] == f + (t + e) && b[|f|..|f| + |t| + |e|] == t + e
  {
  }

  lemma CancelEncodes(s: State)
    requires s.candidates == [] && s.lower != [] && s.top == EMPTY_LEVEL && s.pending == ""
    ensures var e, n := Encode(s), |s.lower| - 1;
            var l, o := s.lower[n], e.states[n];
            var i := o.base + o.text + o.entry;
            && o == OffsetsOf(|Flat(s.lower[..n])|, l) && i + o.okuri == |e.buffer|
            && e.buffer[o.base..i] == l.text + l.entry
            && Encode(Cancel(s)) == e.(mode := Kanji, buffer := e.buffer[..i],
              states := e.states[..n] + [o.(okuri := 0)])
  {
    var n := |s.lower| - 1;
    var l := s.lower[n];
    LayoutPrefix(s);
    CutParts(Flat(s.lower[..n]), l.text, l.entry, l.okuri);
    assert Encode(s).buffer == Flat(s.lower[..n]) + l.Whole();
    assert Cancel(s).top.Whole() == l.text + l.entry;
  }

  lemma CancelLeads(s: State)
    requires s.candidates == [] && s.lower != [] && s.top == EMPTY_LEVEL && s.pending == ""
    ensures var l := s.lower[|s.lower| - 1];
            Leads(s, 0, 0, l.text + l.entry, Fill(|l.text|, Text) + Fill(|l.entry|, Entry), Cancel(s))
  {
    var l := s.lower[|s.lower| - 1];
    LeadsBy(s, Cancel(s), "", "", "", l.text + l.entry, [], [], [], Fill(|l.text|, Text) + Fill(|l.entry|, Entry));
  }

  /** std::rotate(i, k, end) of the buffer from which [i, j) was erased. */
  function EraseRotate(buffer: string, i: int, j: int, k: int): string
    requires 0 <= i <= j <= |buffer| && i <= k <= i + |buffer| - j
  {
    var erased := buffer[..i] + buffer[j..];
    erased[..i] + erased[k..] + erased[i..k]
  }

  /** Erasing entry and hidden key, then rotating, puts the okurigana behind the new text. */
  lemma EraseRotateMoves(buffer: string, head: string, gone: string, tail: string, text: string)
    requires buffer == head + gone + tail + text
    ensures EraseRotate(buffer, |head|, |head| + |gone|, |head| + |tail|) == head + text + tail
  {
    var i, j, k := |head|, |head| + |gone|, |head| + |tail|;
    assert buffer[..i] == head;
    assert buffer[j..] == tail + text;
    var erased := head + tail + text;
    assert erased[k..] == text;
    assert erased[i..k] == tail;
  }

  function Hidden(l: Level): (r: string)
    ensures r + l.Okurigana() == l.okuri && |r| == if |l.okuri| > 0 then 1 else 0
  {
    if l.okuri == "" then "" else l.okuri[..1]
  }

  lemma WholeParts(l: Level)
    ensures l.Whole() == l.text + (l.entry + Hidden(l)) + l.Okurigana()
  {
    assert l.entry + l.okuri == (l.entry + Hidden(l)) + l.Okurigana();
  }

  lemma Tail(a: string, b: string)
    ensures (a + b)[|a|..] == b
  {
  }

  lemma Regroup(a: string, b: string, c: string, d: string)
    ensures a + (b + c + d) == (a + b) + c + d
  {
  }

  /** Where the level that asked lies below an open registration. */
  lemma CloseOffsets(s: State)
    requires s.lower != [] && s.pending == "" && s.top.entry == s.top.okuri == ""
    ensures var e, n := Encode(s), |s.lower| - 1;
            && |e.states| == n + 2 && e.states[n] == OffsetsOf(|Flat(s.lower[..n])|, s.lower[n])
            && e.states[n + 1] == Offsets(|Flat(s.lower)|, |s.top.text|, 0, 0)
            && |Flat(s.lower)| == |Flat(s.lower[..n])| + |s.lower[n].Whole()|
            && |e.buffer| == |Flat(s.lower)| + |s.top.text|
  {
  }

  /** The buffer below an open registration, in the grouping in which it was built. */
  lemma CloseParts(s: State)
    requires s.lower != [] && s.top.entry == s.top.okuri == s.pending == ""
    ensures var n := |s.lower| - 1;
            Encode(s).buffer == (Flat(s.lower[..n]) + s.lower[n].Whole()) + s.top.text
  {
    assert s.top.Whole() == s.top.text;
  }

  lemma ReadParts(f: string, t: string, e: string, k: string, x: string)
    ensures var b, i, j := (f + (t + e + k)) + x, |f| + |t|, |f| + |t| + |e| + |k|;
            b[i..i + |e|] == e && b[i + |e|..i + |e| + |k|] == k && b[j..j + |x|] == x
  {
  }

  lemma CloseReads(s: State)
    requires s.lower != [] && s.top.entry == s.top.okuri == s.pending == ""
    ensures var e, l := Encode(s), s.lower[|s.lower| - 1];
            var i, j := |Flat(s.lower[..|s.lower| - 1])| + |l.text|, |Flat(s.lower)|;
            && e.buffer[i..i + |l.entry|] == l.entry && e.buffer[i + |l.entry|..i + |l.entry| + |l.okuri|] == l.okuri
            && e.buffer[j..j + |s.top.text|] == s.top.text
  {
    var n := |s.lower| - 1;
    var l := s.lower[n];
    CloseParts(s);
    ReadParts(Flat(s.lower[..n]), l.text, l.entry, l.okuri, s.top.text);
  }

  lemma EraseRotateParts(f: string, t: string, gone: string, tail: string, x: string)
    ensures var b, i := (f + (t + gone + tail)) + x, |f| + |t|;
            EraseRotate(b, i, i + |gone|, i + |tail|) == f + (t + x + tail)
  {
    var b := (f + (t + gone + tail)) + x;
    assert b == (f + t) + gone + tail + x;
    EraseRotateMoves(b, f + t, gone, tail, x);
    assert (f + t) + x + tail == f + (t + x + tail);
  }

  lemma CloseBuffer(s: State)
    requires s.lower != [] && s.top.entry == s.top.okuri == s.pending == ""
    ensures var buffer, l := Encode(s).buffer, s.lower[|s.lower| - 1];
            var i := |Flat(s.lower[..|s.lower| - 1])| + |l.text|;
            var j, k := i + |l.entry| + |Hidden(l)|, i + |l.Okurigana()|;
            && j <= |buffer| && k <= i + |buffer| - j
            && EraseRotate(buffer, i, j, k) == Flat(s.lower[..|s.lower| - 1]) + Spliced(l, s.top.text)
  {
    hide EraseRotate;
    var n := |s.lower| - 1;
    var l := s.lower[n];
    CloseParts(s);
    WholeParts(l);
    EraseRotateParts(Flat(s.lower[..n]), l.text, l.entry + Hidden(l), l.Okurigana(), s.top.text);
  }

  lemma CloseLeads(s: State)
    requires s.candidates == [] && |s.lower| > 1 && s.top.entry == s.top.okuri == s.pending == ""
    ensures var whole := Spliced(s.lower[|s.lower| - 1], s.top.text);
            Leads(s, 0, |s.top.text|, whole, Fill(|whole|, Text), Close(s))
  {
    var whole := Spliced(s.lower[|s.lower| - 1], s.top.text);
    LeadsBy(s, Close(s), "", s.top.text, "", whole, [], Fill(|s.top.text|, Text), [], Fill(|whole|, Text));
  }

  lemma CloseEncodes(s: State)
    requires s.candidates == [] && s.lower != [] && s.pending == ""
    ensures var e, n := Encode(s), |s.lower| - 1;
            var f := Flat(s.lower[..n]);
            var b := f + Spliced(s.lower[n], s.top.text);
            Encode(Close(s)) == if n > 0
              then e.(mode := Roman, buffer := b, states := e.states[..n] + [Offsets(|f|, |b| - |f|, 0, 0)],
                candidates := [])
              else e.(mode := Roman, buffer := "", states := [Offsets(0, 0, 0, 0)], candidates := [],
                committed := e.committed + [b])
  {
    hide Spliced, Encode;
    if |s.lower| == 1 {
      CloseLast(s);
    } else {
      CloseInner(s);
    }
  }

  lemma CloseLast(s: State)
    requires s.candidates == [] && |s.lower| == 1 && s.pending == ""
    ensures var e, b := Encode(s), Flat(s.lower[..0]) + Spliced(s.lower[0], s.top.text);
            Encode(Close(s)) == e.(mode := Roman, buffer := "", states := [Offsets(0, 0, 0, 0)], candidates := [],
              committed := e.committed + [b])
  {
    hide Spliced;
    var whole := Spliced(s.lower[0], s.top.text);
    assert "" + whole == whole;
  }

  lemma CloseInner(s: State)
    requires s.candidates == [] && |s.lower| > 1 && s.pending == ""
    ensures var e, n := Encode(s), |s.lower| - 1;
            var f := Flat(s.lower[..n]);
            var b := f + Spliced(s.lower[n], s.top.text);
            Encode(Close(s)) == e.(mode := Roman, buffer := b,
              states := e.states[..n] + [Offsets(|f|, |b| - |f|, 0, 0)], candidates := [])
  {
    hide Spliced;
    var n := |s.lower| - 1;
    assert Close(s).top.Whole() == Spliced(s.lower[n], s.top.text);
    LayoutPrefix(s);
  }

  /** The parts that closing erases and rotates lie in the buffer. */
  lemma CloseFits(s: State)
    requires s.lower != [] && s.top.entry == s.top.okuri == s.pending == ""
    ensures var e, n := Encode(s), |s.lower| - 1;
            && |e.states| == n + 2
            && var o := e.states[n];
            var j := o.base + o.text + o.entry + if o.okuri > 0 then 1 else 0;
            j <= |e.buffer| && o.Tail() <= |e.buffer| - j
  {
    CloseOffsets(s);
  }

  lemma ClosedBuffer(s: State, o: Offsets, i: nat, j: nat, b: string)
    requires s.lower != [] && s.top.entry == s.top.okuri == s.pending == ""
    requires o == OffsetsOf(|Flat(s.lower[..|s.lower| - 1])|, s.lower[|s.lower| - 1])
    requires i == o.base + o.text && j == i + o.entry + if o.okuri > 0 then 1 else 0
    requires j <= |Encode(s).buffer| && o.Tail() <= |Encode(s).buffer| - j
    requires b == EraseRotate(Encode(s).buffer, i, j, i + o.Tail())
    ensures b == Flat(s.lower[..|s.lower| - 1]) + Spliced(s.lower[|s.lower| - 1], s.top.text)
  {
    hide EraseRotate, Flat, Spliced, Encode;
    CloseBuffer(s);
  }

  lemma CloseInnerEdits(s: State, o: Offsets, b: string)
    requires s.candidates == [] && |s.lower| > 1 && s.top.entry == s.top.okuri == s.pending == ""
    requires o == OffsetsOf(|Flat(s.lower[..|s.lower| - 1])|, s.lower[|s.lower| - 1])
    requires b == Flat(s.lower[..|s.lower| - 1]) + Spliced(s.lower[|s.lower| - 1], s.top.text)
    ensures var e, n := Encode(s), |s.lower| - 1;
            && |e.states| == n + 2 && o.base <= |b|
            && Encode(Close(s)) == e.(mode := Roman, buffer := b,
                 states := e.states[..n] + [Offsets(o.base, |b| - o.base, 0, 0)], candidates := [])
            && Leads(s, 0, e.states[n + 1].text, b[o.base..], Fill(|b| - o.base, Text), Close(s))
  {
    CloseOffsets(s);
    hide Encode, Leads, Flat, Spliced, Close;
    CloseEncodes(s);
    CloseLeads(s);
    Tail(Flat(s.lower[..|s.lower| - 1]), Spliced(s.lower[|s.lower| - 1], s.top.text));
  }

  /** All that closing does to buffer, offsets and display, in terms of the offsets alone. */
  lemma CloseEdits(s: State, o: Offsets, i: nat, j: nat, b: string)
    requires s.candidates == [] && s.lower != [] && s.top.entry == s.top.okuri == s.pending == ""
    requires |Encode(s).states| == |s.lower| + 1 && o == Encode(s).states[|s.lower| - 1]
    requires i == o.base + o.text && j == i + o.entry + if o.okuri > 0 then 1 else 0
    requires j <= |Encode(s).buffer| && o.Tail() <= |Encode(s).buffer| - j
    requires b == EraseRotate(Encode(s).buffer, i, j, i + o.Tail())
    ensures o.base <= |b|
    ensures var e, n := Encode(s), |s.lower| - 1;
            n > 0 ==>
              && Encode(Close(s)) == e.(mode := Roman, buffer := b,
                   states := e.states[..n] + [Offsets(o.base, |b| - o.base, 0, 0)], candidates := [])
              && Leads(s, 0, e.states[n + 1].text, b[o.base..], Fill(|b| - o.base, Text), Close(s))
    ensures |s.lower| == 1 ==>
              && Encode(Close(s)) == Encode(s).(mode := Roman, buffer := "", states := [Offsets(0, 0, 0, 0)],
                   candidates := [], committed := Encode(s).committed + [b])
              && Display(Close(s)) == "" && Attributes(Close(s)) == [] && Shown(Close(s)) == Preedit("", 0, 0)
  {
    CloseOffsets(s);
    hide Encode, Leads, EraseRotate, Display, Attributes, Shown, Flat, Spliced, Close;
    ClosedBuffer(s, o, i, j, b);
    if |s.lower| > 1 {
      CloseInnerEdits(s, o, b);
    } else {
      CloseEncodes(s);
      BlankEncodes(Close(s));
    }
  }

  lemma EntryPushLeads(s: State, c: char)
    requires s.candidates == [] && s.top.okuri == s.pending == ""
    ensures var e, o, s' := Encode(s), TopOffsets(s), EntryPush(s, c);
            && Leads(s, o.text + o.entry, 0, [c], [Entry], s')
            && Encode(s') == e.(buffer := e.buffer + [c], states := e.states[|s.lower| := o.(entry := o.entry + 1)])
  {
    var t := s.top;
    Relaid(s, EntryPush(s, c));
    LeadsBy(s, EntryPush(s, c), t.text + t.entry, "", "", [c], Fill(|t.text|, Text) + Fill(|t.entry|, Entry), [], [],
      [Entry]);
  }

  lemma EntryDropEncodes(s: State)
    requires s.candidates == [] && s.top.entry != "" && s.top.okuri == s.pending == ""
    ensures var e, o, s' := Encode(s), TopOffsets(s), EntryDrop(s);
            Encode(s') == e.(buffer := e.buffer[..|e.buffer| - 1],
              states := e.states[|s.lower| := o.(entry := o.entry - 1)])
  {
    Relaid(s, EntryDrop(s));
  }

  lemma EntryDropLeads(s: State)
    requires s.candidates == [] && s.top.entry != "" && s.top.okuri == s.pending == ""
    ensures var o := TopOffsets(s); Leads(s, o.text + o.entry - 1, 1, "", [], EntryDrop(s))
  {
    var t, k := s.top, |s.top.entry| - 1;
    LeadsBy(s, EntryDrop(s), t.text + t.entry[..k], t.entry[k..], "", "",
            Fill(|t.text|, Text) + Fill(k, Entry), Fill(1, Entry), [], []);
  }

  lemma EntryCommitLeads(s: State)
    requires s.candidates == [] && s.lower != [] && s.top.okuri == s.pending == ""
    ensures var e, o, s' := Encode(s), TopOffsets(s), EntryCommit(s);
            && Leads(s, o.text, o.entry, s.top.entry, Fill(o.entry, Text), s')
            && e.buffer[o.base + o.text..o.base + o.text + o.entry] == s.top.entry
            && Encode(s') == e.(mode := Roman,
                 states := e.states[|s.lower| := o.(text := o.text + o.entry, entry := 0)])
  {
    var t := s.top;
    Relaid(s, EntryCommit(s));
    LeadsBy(s, EntryCommit(s), t.text, t.entry, "", t.entry, Fill(|t.text|, Text), Fill(|t.entry|, Entry), [],
      Fill(|t.entry|, Text));
  }

  lemma EntryCommitWhole(s: State)
    requires s.lower == [] && s.top.text == s.top.okuri == s.pending == ""
    ensures Encode(s).buffer == s.top.text + s.top.entry
  {
  }

  // The candidates. Middle is the entry before the query and the chosen candidate after it.

  lemma ClearLeads(s: State, s': State)
    requires Display(s') == "" && Attributes(s') == []
    ensures Leads(s, 0, |Display(s)|, "", [], s')
  {
  }

  lemma OpenEncodes(s: State, chosen: nat)
    requires s.pending == ""
    ensures var e, s' := Encode(s), OpenRegistration(s.(chosen := chosen));
            Encode(s') == e.(mode := Roman, states := e.states + [Offsets(|e.buffer|, 0, 0, 0)], candidates := [],
              chosen := chosen)
  {
    LayoutSnoc(s.lower, s.top);
  }

  lemma OpenLeads(s: State, chosen: nat)
    requires s.pending == ""
    ensures var o, s' := TopOffsets(s), OpenRegistration(s.(chosen := chosen));
            Leads(s, 0, o.text + |Middle(s)| + o.Tail(), "", [], s')
  {
    Sizes(s);
    ClearLeads(s, OpenRegistration(s.(chosen := chosen)));
  }

  /** From the entry or one candidate to another one: only the middle of the display changes. */
  lemma MiddleLeads(s: State, s': State)
    requires s'.lower == s.lower && s'.top == s.top && s'.pending == s.pending
    ensures Leads(s, |s.top.text|, |Middle(s)|, Middle(s'),
                  Fill(|Middle(s')|, if s'.candidates != [] then CandidateText else Entry), s')
    ensures Encode(s').buffer == Encode(s).buffer && Encode(s').states == Encode(s).states
  {
    var t := s.top;
    var k := if s.candidates != [] then CandidateText else Entry;
    var k' := if s'.candidates != [] then CandidateText else Entry;
    LeadsBy(s, s', t.text, Middle(s), t.Okurigana() + s.pending, Middle(s'),
            Fill(|t.text|, Text), Fill(|Middle(s)|, k), Fill(|t.Okurigana()|, Okuri) + Fill(|s.pending|, RomanKeys),
              Fill(|Middle(s')|, k'));
  }

  lemma QueryReads(s: State)
    ensures var e, o := Encode(s), TopOffsets(s);
            var i := o.base + o.text;
            && e.buffer[i..i + o.entry] == s.top.entry && e.buffer[i + o.entry..i + o.entry + o.okuri] == s.top.okuri
  {
    assert Encode(s).buffer == (Flat(s.lower) + s.top.text) + s.top.entry + s.top.okuri + s.pending;
    hide Flat;
    ReadMiddle(Flat(s.lower) + s.top.text, s.top.entry, s.top.okuri, s.pending);
  }

  lemma ReadMiddle(a: string, b: string, c: string, d: string)
    ensures var s, i := a + b + c + d, |a|; s[i..i + |b|] == b && s[i + |b|..i + |b| + |c|] == c
  {
  }

  lemma BackEncodes(s: State)
    requires s.pending == "" && s.candidates != []
    ensures var e, o, s' := Encode(s), TopOffsets(s), Back(s);
            && e.buffer[o.base + o.text..o.base + o.text + o.entry] == s.top.entry
            && Encode(s') == e.(mode := Kanji, buffer := e.buffer[..o.base + o.text + o.entry],
                                states := e.states[|s.lower| := o.(okuri := 0)], candidates := [])
  {
    Relaid(s, Back(s));
    QueryReads(s);
  }

  lemma BackLeads(s: State)
    requires s.pending == "" && s.candidates != []
    ensures var o := TopOffsets(s); Leads(s, o.text, |Middle(s)| + o.Tail(), s.top.entry, Fill(o.entry, Entry), Back(s))
  {
    var t := s.top;
    LeadsBy(s, Back(s), t.text, Middle(s) + t.Okurigana(), "", t.entry,
            Fill(|t.text|, Text), Fill(|Middle(s)|, CandidateText) + Fill(|t.Okurigana()|, Okuri), [],
              Fill(|t.entry|, Entry));
  }

  /** Erase the entry and the hidden key, then insert the candidate where they were. */
  lemma TakeBuffer(s: State)
    requires s.pending == "" && s.chosen < |s.candidates|
    ensures var buffer, text := Encode(s).buffer, s.candidates[s.chosen].text;
            var i := |Flat(s.lower)| + |s.top.text|;
            var j := i + |s.top.entry| + |Hidden(s.top)|;
            && j <= |buffer|
            && buffer[..i] + text + buffer[j..] == Flat(s.lower) + Spliced(s.top, text)
            && (buffer[..i] + text + buffer[j..])[i..] == text + s.top.Okurigana()
  {
    hide Flat;
    var text, head := s.candidates[s.chosen].text, Flat(s.lower) + s.top.text;
    var b := Encode(s).buffer;
    var gone := s.top.entry + Hidden(s.top);
    assert b == head + gone + s.top.Okurigana() by {
      WholeParts(s.top);
      Regroup(Flat(s.lower), s.top.text, gone, s.top.Okurigana());
    }
    Splice(b, head, gone, s.top.Okurigana(), text);
    Regroup(Flat(s.lower), s.top.text, text, s.top.Okurigana());
    Regroup(head, "", text, s.top.Okurigana());
  }

  lemma TakeLeads(s: State)
    requires s.chosen < |s.candidates| && s.pending == "" && s.lower != []
    ensures var o, text := TopOffsets(s), s.candidates[s.chosen].text + s.top.Okurigana();
            Leads(s, o.text, |Middle(s)| + o.Tail(), text, Fill(|text|, Text), Take(s))
  {
    var t, text := s.top, s.candidates[s.chosen].text + s.top.Okurigana();
    LeadsBy(s, Take(s), t.text, Middle(s) + t.Okurigana(), "", text,
            Fill(|t.text|, Text), Fill(|Middle(s)|, CandidateText) + Fill(|t.Okurigana()|, Okuri), [],
              Fill(|text|, Text));
  }

  lemma TakeEncodes(s: State)
    requires s.chosen < |s.candidates| && s.pending == "" && (s.lower == [] ==> s.top.text == "")
    ensures var e, f := Encode(s), Flat(s.lower);
            var b := f + Spliced(s.top, s.candidates[s.chosen].text);
            Encode(Take(s)) == if s.lower != []
              then e.(mode := Roman, buffer := b, states := e.states[..|s.lower|] + [Offsets(|f|, |b| - |f|, 0, 0)],
                candidates := [])
              else e.(mode := Roman, buffer := "", states := [Offsets(0, 0, 0, 0)], candidates := [],
                committed := e.committed + [b])
  {
    var whole := Spliced(s.top, s.candidates[s.chosen].text);
    assert s.lower == [] ==> "" + whole == whole;
  }

  lemma TakeEdits(s: State)
    requires s.chosen < |s.candidates| && s.pending == "" && (s.lower == [] ==> s.top.text == "")
    ensures var e, o, n := Encode(s), TopOffsets(s), |s.lower|;
            var i := o.base + o.text;
            var j := i + o.entry + if o.okuri > 0 then 1 else 0;
            && j <= |e.buffer|
            && var b := e.buffer[..i] + s.candidates[s.chosen].text + e.buffer[j..];
            && (n > 0 ==>
                  && Encode(Take(s)) == e.(mode := Roman, buffer := b,
                    states := e.states[..n] + [Offsets(o.base, |b| - o.base, 0, 0)], candidates := [])
                  && Leads(s, o.text, |Middle(s)| + o.Tail(), b[i..], Fill(|b| - i, Text), Take(s)))
            && (n == 0 ==>
                  && Encode(Take(s)) == e.(mode := Roman, buffer := "", states := [Offsets(0, 0, 0, 0)],
                    candidates := [], committed := e.committed + [b])
                  && Display(Take(s)) == "" && Attributes(Take(s)) == [] && Shown(Take(s)) == Preedit("", 0, 0))
  {
    hide Encode, Leads, Display, Attributes, Shown, Take, Flat, Hidden, Spliced;
    TakePlace(s);
    if s.lower != [] {
      TakeInside(s);
    } else {
      TakeOutside(s);
    }
  }

  lemma TakePlace(s: State)
    requires s.chosen < |s.candidates| && s.pending == ""
    ensures var o := TopOffsets(s);
            var i := o.base + o.text;
            var j := i + o.entry + if o.okuri > 0 then 1 else 0;
            && o.base == |Flat(s.lower)| && i == |Flat(s.lower)| + |s.top.text|
            && j == i + |s.top.entry| + |Hidden(s.top)| && j <= |Encode(s).buffer|
            && |Encode(s).states| == |s.lower| + 1
  {
    TopOffsetsAre(s);
    StatesBelow(s);
    hide Encode, Flat, TopOffsets, Hidden;
    TakeBuffer(s);
  }

  lemma TakeInside(s: State)
    requires s.chosen < |s.candidates| && s.pending == "" && s.lower != []
    ensures var e, n, text := Encode(s), |s.lower|, s.candidates[s.chosen].text;
            var base := |Flat(s.lower)|;
            var i := base + |s.top.text|;
            var j := i + |s.top.entry| + |Hidden(s.top)|;
            && j <= |e.buffer| && n < |e.states|
            && var b := e.buffer[..i] + text + e.buffer[j..];
            && |b| >= i
            && Encode(Take(s)) == e.(mode := Roman, buffer := b,
                 states := e.states[..n] + [Offsets(base, |b| - base, 0, 0)], candidates := [])
            && Leads(s, |s.top.text|, |Middle(s)| + TopOffsets(s).Tail(), b[i..], Fill(|b| - i, Text), Take(s))
  {
    StatesBelow(s);
    TopOffsetsAre(s);
    hide Encode, Leads, Take, Flat, Hidden, Spliced, TopOffsets;
    TakeBuffer(s);
    TakeEncodes(s);
    TakeLeads(s);
  }

  lemma TakeOutside(s: State)
    requires s.chosen < |s.candidates| && s.pending == "" && s.lower == [] && s.top.text == ""
    ensures var e, text := Encode(s), s.candidates[s.chosen].text;
            var i := |Flat(s.lower)| + |s.top.text|;
            var j := i + |s.top.entry| + |Hidden(s.top)|;
            && j <= |e.buffer|
            && var b := e.buffer[..i] + text + e.buffer[j..];
            && Encode(Take(s)) == e.(mode := Roman, buffer := "", states := [Offsets(0, 0, 0, 0)], candidates := [],
                 committed := e.committed + [b])
            && Display(Take(s)) == "" && Attributes(Take(s)) == [] && Shown(Take(s)) == Preedit("", 0, 0)
  {
    TakeIsBlank(s);
    hide Encode, Display, Attributes, Shown, Take, Flat, Hidden, Spliced;
    TakeBuffer(s);
    TakeEncodes(s);
  }

  lemma TakeIsBlank(s: State)
    requires s.chosen < |s.candidates| && s.pending == "" && s.lower == []
    ensures Display(Take(s)) == "" && Attributes(Take(s)) == [] && Shown(Take(s)) == Preedit("", 0, 0)
  {
    hide Display, Attributes, Shown;
    BlankEncodes(Take(s));
  }

  lemma StatesBelow(s: State)
    ensures |Encode(s).states| == |s.lower| + 1
  {
  }

  lemma TopOffsetsAre(s: State)
    ensures var o := TopOffsets(s);
            && o.base == |Flat(s.lower)| && o.text == |s.top.text| && o.entry == |s.top.entry|
            && (if o.okuri > 0 then 1 else 0) == |Hidden(s.top)|
  {
  }

  /** The hidden key enters the buffer but not the display. */
  lemma HiddenKeyEncodes(s: State, key: char)
    requires s.candidates == [] && s.pending == s.top.okuri == ""
    ensures var e, s' := Encode(s), s.(top := s.top.(okuri := [key]));
            && Encode(s') == e.(buffer := e.buffer + [key], states := e.states[|s.lower| := TopOffsets(s).(okuri := 1)])
            && Display(s') == Display(s) && Attributes(s') == Attributes(s) && Shown(s') == Shown(s)
  {
    Relaid(s, s.(top := s.top.(okuri := [key])));
  }

  lemma ResetAllLeads(cfg: Config, s: State)
    requires s.candidates != [] ==> s.chosen < |s.candidates|
    ensures var e, o := Encode(s), TopOffsets(s);
            && Encode(ResetAll(cfg, s)) == e.(mode := Roman, buffer := "", katakana := false, node := cfg.root,
                                              states := [Offsets(0, 0, 0, 0)], candidates := [])
            && Leads(s, 0, o.text + |Middle(s)| + o.Tail() + |s.pending|, "", [], ResetAll(cfg, s))
  {
    Sizes(s);
    BlankEncodes(ResetAll(cfg, s));
    ClearLeads(s, ResetAll(cfg, s));
  }
}
