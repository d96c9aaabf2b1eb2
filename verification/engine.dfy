/**
 The engine as the sources write it (im/engine.cc): one shared character buffer, a stack of
 offsets into it, and splice edits sent to a host that keeps its own copy of the preedit
 (im/main.cc, t_context). Every method is proved to do to the value model what EngineModel says,
 and to keep the host's copy equal to the display of that model.
 */
module EngineClass {
  import opened Wrappers
  import opened RomajiTable
  import opened Candidates
  import opened EngineModel
  import opened EngineSplices
  import opened EngineInvariant


  class Engine {
    const cfg: Config

    // t_engine
    var mode: Mode
    var buffer: string
    var katakana: bool
    var node: Map
    var states: seq<Offsets>
    var candidates: seq<Candidate>
    var chosen: nat
    var choosing: bool

    // what the dictionary was told
    var registered: seq<Registration>

    // t_context, the host, and the client behind it
    var cs: string
    var attrs: seq<Attribute>
    var shown: Preedit
    var committed: seq<string>
    var forwarded: bool

    /** The value the fields stand for; Synced says how. */
    ghost var model: State

    ghost function Fields(): Members
      reads this
    {
      Members(mode, buffer, katakana, node, states, candidates, chosen, choosing, registered, committed, forwarded)
    }

    ghost predicate Encoded()
      reads this
    {
      Fields() == Encode(model)
    }

    ghost predicate Mirrored()
      reads this
    {
      cs == Display(model) && attrs == Attributes(model) && shown == Shown(model)
    }

    ghost predicate Synced()
      reads this
    {
      Encoded() && Mirrored()
    }

    constructor (cfg: Config)
      ensures this.cfg == cfg && Synced() && model == Initial(cfg)
    {
      this.cfg := cfg;
      mode, buffer, katakana, node, states := Roman, "", false, cfg.root, [Offsets(0, 0, 0, 0)];
      candidates, chosen, choosing, registered := [], 0, false, [];
      cs, attrs, shown, committed, forwarded := "", [], Preedit("", 0, 0), [], false;
      model := Initial(cfg);
    }

    // The host.

    method SendPreedit()
      requires |attrs| == |cs|
      requires candidates == [] ==> |states| > 0 && states[|states| - 1].text <= |cs|
      modifies this`shown
      ensures candidates == [] ==> shown == Preedit(cs, states[|states| - 1].text, |cs|)
      ensures candidates != [] ==> shown.text == cs && Marks(attrs, shown.begin, shown.end)
    {
      if candidates == [] {
        var i := states[|states| - 1].text;
        shown := Preedit(cs[..i] + cs[i..], i, |cs|);
      } else {
        var i := 0;
        while i < |attrs| && attrs[i] != CandidateText
          invariant 0 <= i <= |attrs|
          invariant forall k :: 0 <= k < i ==> attrs[k] != CandidateText
        {
          i := i + 1;
        }
        var j := i;
        while i < |attrs| && attrs[i] == CandidateText
          invariant j <= i <= |attrs|
          invariant forall k :: j <= k < i ==> attrs[k] == CandidateText
        {
          i := i + 1;
        }
        shown := Preedit(cs[..j] + cs[j..i] + cs[i..], j, i);
      }
    }

    /**
     f_on_compose. The precondition says that the range lies in the host's copy and that the splice
     leads from what the host shows, the display of the value before, to the display of the model.
     */
    method OnCompose(i: int, m: int, c: string, a: seq<Attribute>, ghost before: State)
      requires Encoded()
      requires cs == Display(before) && attrs == Attributes(before)
      requires Leads(before, i, m, c, a, model)
      modifies this`cs, this`attrs, this`shown
      ensures Synced()
    {
      Sizes(model);
      cs := cs[..i] + c + cs[i + m..];
      attrs := attrs[..i] + a + attrs[i + m..];
      SendPreedit();
      if candidates == [] {
        CaretIsShown(model);
      } else {
        MarkedIsShown(model, shown.begin, shown.end);
      }
    }

    /** f_on_commit: the commit request carries no preedit, which empties the client's. */
    method OnCommit(text: string)
      modifies this`cs, this`attrs, this`shown, this`committed
      ensures cs == "" && attrs == [] && shown == Preedit("", 0, 0)
      ensures committed == old(committed) + [text]
    {
      cs, attrs := "", [];
      committed := committed + [text];
      shown := Preedit("", 0, 0);
    }

    // The romaji.

    method RomanReset()
      requires Synced() && candidates == []
      modifies this
      ensures Synced() && model == EngineModel.RomanReset(cfg, old(model))
    {
      hide Display, Attributes, Shown, Leads, BufferOf, LayoutOf, Flat, Layout;
      Sizes(model);
      ResetLeads(cfg, model);
      ResetEncodes(cfg, model);
      var state := states[|states| - 1];
      var i := state.text + state.entry;
      var n := |buffer| - state.base - i;
      if state.okuri > 0 {
        n := n - 1;
        state := state.(okuri := 0);
      }
      states, buffer, node, model :=
        states[|states| - 1 := state], buffer[..state.base + i], cfg.root, EngineModel.RomanReset(cfg, model);
      OnCompose(i, n, "", [], old(model));
    }

    method RomanPush(c: char, next: Map)
      requires Synced() && candidates == []
      modifies this
      ensures Synced() && model == EngineModel.RomanPush(old(model), c, next)
    {
      hide Display, Attributes, Shown, Leads, BufferOf, LayoutOf, Flat, Layout;
      Sizes(model);
      PushLeads(model, c, next);
      var state := states[|states| - 1];
      var i := |buffer| - state.base;
      if state.okuri > 0 { i := i - 1; }
      buffer, node, model := buffer + [c], next, EngineModel.RomanPush(model, c, next);
      OnCompose(i, 0, [c], [RomanKeys], old(model));
    }

    method RomanReduce(kana: string)
      requires Synced() && candidates == []
      requires mode != Kanji ==> model.top.entry == model.top.okuri == ""
      requires mode != Kanji && model.lower == [] ==> model.top.text == ""
      modifies this
      ensures Synced() && model == EngineModel.RomanReduce(old(model), kana)
    {
      hide Display, Attributes, Shown, Leads, BufferOf, LayoutOf, Flat, Layout;
      Sizes(model);
      var state := states[|states| - 1];
      var i := state.text + state.entry + state.okuri;
      var n := |buffer| - state.base - i;
      if mode == Kanji || |states| > 1 {
        ReduceEncodes(model, kana);
        var kind;
        if mode == Kanji {
          if state.okuri > 0 {
            ReduceOkuriLeads(model, kana);
            state, i, kind := state.(okuri := state.okuri + |kana|), i - 1, Okuri;
          } else {
            ReduceEntryLeads(model, kana);
            state, kind := state.(entry := state.entry + |kana|), Entry;
          }
        } else {
          ReduceTextLeads(model, kana);
          state, kind := state.(text := state.text + |kana|), Text;
        }
        EditTop(state, buffer[..|buffer| - n] + kana, i, n, kana, Fill(|kana|, kind),
          EngineModel.RomanReduce(model, kana));
      } else {
        ReduceCommits(model, kana);
        CommitBuffer(mode, buffer[..|buffer| - n] + kana, EngineModel.RomanReduce(model, kana));
      }
    }

    /** Change the top level and the buffer, then tell the host. */
    method EditTop(state: Offsets, text: string, i: int, m: int, c: string, a: seq<Attribute>, ghost next: State)
      requires Synced() && |states| > 0
      requires Encode(next) == Encode(model).(buffer := text, states := states[|states| - 1 := state])
      requires Leads(model, i, m, c, a, next)
      modifies this
      ensures Synced() && model == next
    {
      hide Display, Attributes, Shown, Leads, BufferOf, LayoutOf, Flat, Layout;
      states, buffer, model := states[|states| - 1 := state], text, next;
      OnCompose(i, m, c, a, old(model));
    }

    method RomanCommit()
      requires Synced() && candidates == [] && model.pending == ""
      modifies this
      ensures Synced() && model == EngineModel.RomanCommit(cfg, old(model))
    {
      if states[|states| - 1].okuri > 0 {
        Query();
      }
      SetNode(cfg.root);
    }

    method SetNode(next: Map)
      requires Synced()
      modifies this
      ensures Synced() && model == old(model).(node := next)
    {
      node, model := next, model.(node := next);
    }

    /** t_action_push::f_key_pressed and t_action_reduce::f_key_pressed. */
    method Press(a: Action)
      requires Synced() && candidates == []
      requires mode != Kanji ==> model.top.entry == model.top.okuri == ""
      requires mode != Kanji && model.lower == [] ==> model.top.text == ""
      requires a.Reduce? && a.restart.Some? ==> Descend(cfg.root, a.restart.value).Some?
      modifies this
      ensures Synced() && model == EngineModel.Press(cfg, old(model), a)
    {
      match a
      case Push(key, next) =>
        RomanPush(key, next);
      case Reduce(_, hiragana, katakana', restart) =>
        RomanReduce(if katakana then katakana' else hiragana);
        if restart.Some? {
          RomanPush(restart.value, Find(cfg.root, restart.value).value.next);
        } else {
          RomanCommit();
        }
    }

    // The text of the top level.

    method TextPush(c: char)
      requires Synced() && candidates == []
      requires model.top.entry == model.top.okuri == model.pending == ""
      requires model.lower == [] ==> model.top.text == ""
      modifies this
      ensures Synced() && model == EngineModel.TextPush(old(model), c)
    {
      hide Display, Attributes, Shown, Leads, BufferOf, LayoutOf, Flat, Layout;
      Sizes(model);
      if |states| > 1 {
        TextPushLeads(model, c);
        var state := states[|states| - 1];
        var i := state.text;
        states, buffer, model :=
          states[|states| - 1 := state.(text := state.text + 1)], buffer + [c], EngineModel.TextPush(model, c);
        OnCompose(i, 0, [c], [Text], old(model));
      } else {
        BlankEncodes(model);
        BlankEncodes(EngineModel.TextPush(model, c));
        OnCommit([c]);
        model := EngineModel.TextPush(model, c);
      }
    }

    method TextPop()
      requires Synced() && candidates == []
      requires model.top.entry == model.top.okuri == model.pending == ""
      modifies this
      ensures Synced() && model == EngineModel.TextPop(old(model))
    {
      hide Display, Attributes, Shown, Leads, BufferOf, LayoutOf, Flat, Layout;
      Sizes(model);
      var state := states[|states| - 1];
      if state.text > 0 {
        TextPopLeads(model);
        states, buffer, model :=
          states[|states| - 1 := state.(text := state.text - 1)], buffer[..|buffer| - 1], EngineModel.TextPop(model);
        OnCompose(state.text - 1, 1, "", [], old(model));
      } else if |states| > 1 {
        Cancel();
      } else {
        OnForward();
      }
    }

    /** BackSpace in an empty registration: back to the entry it was opened for. */
    method Cancel()
      requires Synced() && candidates == [] && model.lower != []
      requires model.top == EMPTY_LEVEL && model.pending == ""
      modifies this
      ensures Synced() && model == EngineModel.Cancel(old(model))
    {
      hide Display, Attributes, Shown, Leads, BufferOf, LayoutOf, Flat, Layout;
      Sizes(model);
      CancelEncodes(model);
      CancelLeads(model);
      var n := |states| - 2;
      var state := states[n];
      var i := state.base + state.text + state.entry;
      mode, states, buffer, model :=
        Kanji, states[..n] + [state.(okuri := 0)], buffer[..i], EngineModel.Cancel(model);
      OnCompose(0, 0, buffer[state.base..], Fill(state.text, Text) + Fill(state.entry, Entry), old(model));
    }

    method OnForward()
      requires Synced()
      modifies this
      ensures Synced() && model == EngineModel.Forward(old(model))
    {
      forwarded, model := true, EngineModel.Forward(model);
    }

    /** Return in an open registration closes it and gives its text to the level below. */
    method TextCommit()
      requires Synced() && candidates == []
      requires model.top.entry == model.top.okuri == model.pending == ""
      modifies this
      ensures Synced() && model == EngineModel.TextCommit(old(model))
    {
      if |states| > 1 {
        if states[|states| - 1].text > 0 {
          RegisterBelow();
        }
        Close();
      } else {
        OnForward();
      }
    }

    method RegisterBelow()
      requires Synced() && model.lower != []
      requires model.top.entry == model.top.okuri == model.pending == ""
      modifies this
      ensures Synced() && model == EngineModel.Remember(old(model), old(model.lower[|model.lower| - 1]),
          old(model.top.text))
    {
      hide Display, Attributes, Shown, Leads, BufferOf, LayoutOf, Flat, Layout;
      Sizes(model);
      CloseOffsets(model);
      CloseReads(model);
      var base, text := states[|states| - 1].base, states[|states| - 1].text;
      var state := states[|states| - 2];
      var i := state.base + state.text;
      Register(buffer[i..i + state.entry], buffer[i + state.entry..i + state.entry + state.okuri],
        buffer[base..base + text],
               model.lower[|model.lower| - 1]);
    }

    method Register(entry: string, okuri: string, text: string, ghost l: Level)
      requires Synced() && entry == l.entry && okuri == l.okuri
      modifies this
      ensures Synced() && model == EngineModel.Remember(old(model), l, text)
    {
      registered, model := registered + [Registration(entry, okuri, text)], EngineModel.Remember(model, l, text);
    }

    method Close()
      requires Synced() && candidates == [] && model.lower != []
      requires model.top.entry == model.top.okuri == model.pending == ""
      modifies this
      ensures Synced() && model == EngineModel.Close(old(model))
    {
      hide Display, Attributes, Shown, Leads, BufferOf, LayoutOf, Flat, Layout;
      hide EraseRotate, Spliced, EngineModel.Close;
      CloseFits(model);
      var text := states[|states| - 1].text;
      var n := |states| - 2;
      var state := states[n];
      var i := state.base + state.text;
      var j := i + state.entry;
      ghost var asking := state;
      if state.okuri > 0 {
        j, state := j + 1, state.(okuri := state.okuri - 1);
      }
      var edited := EraseRotate(buffer, i, j, i + state.okuri);
      CloseEdits(model, asking, i, j, edited);
      if n > 0 {
        Settle(state.base, edited, n, 0, text, EngineModel.Close(model));
      } else {
        CommitBuffer(Roman, edited, EngineModel.Close(model));
      }
    }

    /** The buffer, edited to text, goes to the client and is cleared: state = t_state(), f_on_commit. */
    method CommitBuffer(m: Mode, text: string, ghost next: State)
      requires Encode(next) == Fields().(mode := m, buffer := "", states := [Offsets(0, 0, 0, 0)],
                                         candidates := [], committed := committed + [text])
      requires Display(next) == "" && Attributes(next) == [] && Shown(next) == Preedit("", 0, 0)
      modifies this
      ensures Synced() && model == next
    {
      OnCommit(text);
      mode, states, buffer, candidates, model := m, [Offsets(0, 0, 0, 0)], "", [], next;
    }

    // The entry of the top level.

    method EntryPush(c: char)
      requires Synced() && candidates == []
      requires model.top.okuri == model.pending == ""
      modifies this
      ensures Synced() && model == EngineModel.EntryPush(old(model), c)
    {
      hide Display, Attributes, Shown, Leads, BufferOf, LayoutOf, Flat, Layout;
      Sizes(model);
      EntryPushLeads(model, c);
      var state := states[|states| - 1];
      states, buffer, model :=
        states[|states| - 1 := state.(entry := state.entry + 1)], buffer + [c], EngineModel.EntryPush(model, c);
      OnCompose(state.text + state.entry, 0, [c], [Entry], old(model));
    }

    method EntryPop()
      requires Synced() && candidates == []
      requires model.top.okuri == model.pending == ""
      modifies this
      ensures Synced() && model == EngineModel.EntryPop(old(model))
    {
      var state := states[|states| - 1];
      if state.entry > 0 {
        EntryDrop();
      }
      if states[|states| - 1].entry <= 0 {
        SetMode(Roman);
      }
    }

    method EntryDrop()
      requires Synced() && candidates == []
      requires model.top.entry != "" && model.top.okuri == model.pending == ""
      modifies this
      ensures Synced() && model == EngineModel.EntryDrop(old(model))
    {
      hide Display, Attributes, Shown, Leads, BufferOf, LayoutOf, Flat, Layout;
      Sizes(model);
      EntryDropLeads(model);
      EntryDropEncodes(model);
      var state := states[|states| - 1];
      states, buffer, model := states[|states| - 1 := state.(entry := state.entry - 1)],
        buffer[..|buffer| - 1], EngineModel.EntryDrop(model);
      OnCompose(state.text + state.entry - 1, 1, "", [], old(model));
    }

    method SetMode(m: Mode)
      requires Synced()
      modifies this
      ensures Synced() && model == old(model).(mode := m)
    {
      mode, model := m, model.(mode := m);
    }

    method EntryCommit()
      requires Synced() && candidates == []
      requires model.top.okuri == model.pending == ""
      requires model.lower == [] ==> model.top.text == ""
      modifies this
      ensures Synced() && model == EngineModel.EntryCommit(old(model))
    {
      hide Display, Attributes, Shown, Leads, BufferOf, LayoutOf, Flat, Layout;
      Sizes(model);
      if |states| > 1 {
        EntryCommitLeads(model);
        var state := states[|states| - 1];
        var i, n := state.text, state.entry;
        mode, states, model :=
          Roman, states[|states| - 1 := Offsets(state.base, state.text + n, 0, 0)], EngineModel.EntryCommit(model);
        OnCompose(i, n, buffer[state.base + i..state.base + i + n], Fill(n, Text), old(model));
      } else {
        BlankEncodes(EngineModel.EntryCommit(model));
        EntryCommitWhole(model);
        CommitBuffer(Roman, buffer, EngineModel.EntryCommit(model));
      }
    }

    // The candidates.

    method Query()
      requires Synced() && candidates == [] && model.pending == ""
      modifies this
      ensures Synced() && model == EngineModel.Query(cfg, old(model))
    {
      hide Display, Attributes, Shown, Leads, BufferOf, LayoutOf, Flat, Layout;
      Sizes(model);
      QueryReads(model);
      var state := states[|states| - 1];
      var at := state.base + state.text;
      var found := cfg.lookup(registered, buffer[at..at + state.entry],
        buffer[at + state.entry..at + state.entry + state.okuri]);
      if found == [] {
        var n := state.text + state.entry;
        if state.okuri > 0 { n := n + state.okuri - 1; }
        OpenRegistration(n, chosen);
      } else {
        Choose(found, 0, false, state.entry, EngineModel.Query(cfg, model));
      }
    }

    /** Hide the whole level, which is n characters of the display, below a new empty one. */
    method OpenRegistration(n: int, at: nat)
      requires Synced() && model.pending == "" && n == |model.top.text| + |Middle(model)| + |model.top.Okurigana()|
      modifies this
      ensures Synced() && model == EngineModel.OpenRegistration(old(model).(chosen := at))
    {
      hide Display, Attributes, Shown, Leads, BufferOf, LayoutOf, Flat, Layout;
      Sizes(model);
      OpenLeads(model, at);
      OpenEncodes(model, at);
      mode, states, candidates, chosen, model :=
        Roman, states + [Offsets(|buffer|, 0, 0, 0)], [], at, EngineModel.OpenRegistration(model.(chosen := at));
      OnCompose(0, n, "", [], old(model));
    }

    /** Show one candidate in place of the n characters shown for the entry so far. */
    method Choose(found: seq<Candidate>, at: nat, listing: bool, n: int, ghost next: State)
      requires Synced() && n == |Middle(model)|
      requires at < |found| && next == model.(mode := EngineModel.Mode.Choose, candidates := found, chosen := at,
          choosing := listing)
      modifies this
      ensures Synced() && model == next
    {
      hide Display, Attributes, Shown, Leads, BufferOf, LayoutOf, Flat, Layout;
      Sizes(model);
      MiddleLeads(model, next);
      mode, candidates, chosen, choosing, model := EngineModel.Mode.Choose, found, at, listing, next;
      OnCompose(states[|states| - 1].text, n, found[at].text, Fill(|found[at].text|, CandidateText), old(model));
    }

    method Back()
      requires Synced() && model.pending == "" && chosen < |candidates|
      modifies this
      ensures Synced() && model == EngineModel.Back(old(model))
    {
      hide Display, Attributes, Shown, Leads, BufferOf, LayoutOf, Flat, Layout;
      Sizes(model);
      BackLeads(model);
      BackEncodes(model);
      var state := states[|states| - 1];
      var n := |candidates[chosen].text|;
      if state.okuri > 0 { n := n + state.okuri - 1; }
      mode, buffer, states, candidates, model := Kanji, buffer[..state.base + state.text + state.entry],
        states[|states| - 1 := state.(okuri := 0)], [], EngineModel.Back(model);
      OnCompose(state.text, n, buffer[state.base + state.text..], Fill(state.entry, Entry), old(model));
    }

    method Next()
      requires Synced() && model.pending == "" && mode == EngineModel.Mode.Choose && chosen < |candidates|
      modifies this
      ensures Synced() && model == EngineModel.Next(old(model))
    {
      hide Display, Attributes, Shown, Leads, BufferOf, LayoutOf, Flat, Layout;
      Sizes(model);
      var n := |candidates[chosen].text|;
      if chosen + 1 < |candidates| {
        Choose(candidates, chosen + 1, true, n, EngineModel.Next(model));
      } else {
        var state := states[|states| - 1];
        n := n + state.text;
        if state.okuri > 0 { n := n + state.okuri - 1; }
        OpenRegistration(n, chosen + 1);
      }
    }

    method Previous()
      requires Synced() && mode == EngineModel.Mode.Choose && 0 < chosen < |candidates|
      modifies this
      ensures Synced() && model == EngineModel.Previous(old(model))
    {
      Choose(candidates, chosen - 1, choosing, |candidates[chosen].text|, EngineModel.Previous(model));
    }

    method Settle(base: nat, text: string, below: nat, i: int, n: int, ghost next: State)
      requires below < |states| && base <= |text| && 0 <= i <= |text| - base
      requires cs == Display(model) && attrs == Attributes(model)
      requires Encode(next) == Fields().(mode := Roman, buffer := text,
          states := states[..below] + [Offsets(base, |text| - base, 0, 0)], candidates := [])
      requires Leads(model, i, n, text[base + i..], Fill(|text| - base - i, Text), next)
      modifies this
      ensures Synced() && model == next
    {
      hide Display, Attributes, Shown, Leads, BufferOf, LayoutOf, Flat, Layout;
      mode, buffer, states, candidates, model := Roman, text, states[..below] + [Offsets(base, |text| - base, 0, 0)],
        [], next;
      OnCompose(i, n, text[base + i..], Fill(|text| - base - i, Text), old(model));
    }

    method Accept()
      requires Synced() && model.pending == "" && chosen < |candidates|
      requires model.lower == [] ==> model.top.text == ""
      modifies this
      ensures Synced() && model == EngineModel.Accept(old(model))
    {
      RegisterChosen();
      Take();
    }

    method RegisterChosen()
      requires Synced() && model.pending == "" && chosen < |candidates|
      modifies this
      ensures Synced() && model == EngineModel.Remember(old(model), old(model.top), old(candidates[chosen].text))
    {
      hide Display, Attributes, Shown, Leads, BufferOf, LayoutOf, Flat, Layout;
      Sizes(model);
      QueryReads(model);
      var state := states[|states| - 1];
      var i := state.base + state.text;
      Register(buffer[i..i + state.entry], buffer[i + state.entry..i + state.entry + state.okuri],
        candidates[chosen].text, model.top);
    }

    method Take()
      requires Synced() && model.pending == "" && chosen < |candidates|
      requires model.lower == [] ==> model.top.text == ""
      modifies this
      ensures Synced() && model == EngineModel.Take(old(model))
    {
      hide Display, Attributes, Shown, Leads, BufferOf, LayoutOf, Flat, Layout;
      hide Spliced, EngineModel.Take;
      Sizes(model);
      TakeEdits(model);
      var state := states[|states| - 1];
      var n := |candidates[chosen].text|;
      var i := state.base + state.text;
      var j := i + state.entry;
      if state.okuri > 0 { j, n := j + 1, n + state.okuri - 1; }
      var edited := buffer[..i] + candidates[chosen].text + buffer[j..];
      if |states| > 1 {
        Settle(state.base, edited, |states| - 1, state.text, n, EngineModel.Take(model));
      } else {
        CommitBuffer(Roman, edited, EngineModel.Take(model));
      }
    }

    // The modes.

    method LatinKey(sym: KeySym, ascii: char)
      requires Synced() && Inv(cfg, model) && mode == Latin
      modifies this
      ensures Synced() && model == EngineModel.LatinKey(old(model), sym, ascii)
    {
      hide Display, Attributes, Shown, Layout, EngineModel.TextCommit, EngineModel.TextPop, EngineModel.TextPush,
        EngineModel.EntryCommit, EngineModel.EntryPop, EngineModel.EntryPush, EngineModel.Query, EngineModel.Press;
      if IsReturn(sym, ascii) {
        TextCommit();
      } else if IsLinefeed(sym, ascii) {
        SetMode(Roman);
      } else if IsBackSpace(sym, ascii) {
        TextPop();
      } else if IsPrint(ascii) {
        TextPush(ascii);
      } else if buffer == "" {
        OnForward();
      }
    }

    method WordKey(sym: KeySym, ascii: char)
      requires Synced() && Inv(cfg, model) && mode == Word
      modifies this
      ensures Synced() && model == EngineModel.WordKey(cfg, old(model), sym, ascii)
    {
      hide Display, Attributes, Shown, Layout, EngineModel.TextCommit, EngineModel.TextPop, EngineModel.TextPush,
        EngineModel.EntryCommit, EngineModel.EntryPop, EngineModel.EntryPush, EngineModel.Query, EngineModel.Press;
      Sizes(model);
      if IsReturn(sym, ascii) {
        EntryCommit();
      } else if IsLinefeed(sym, ascii) {
        SetMode(if states[|states| - 1].entry > 0 then Kanji else Roman);
      } else if IsBackSpace(sym, ascii) {
        EntryPop();
      } else if ascii == ' ' {
        if states[|states| - 1].entry > 0 {
          Query();
        }
      } else if IsPrint(ascii) {
        EntryPush(ascii);
      }
    }

    method DropPending()
      requires Synced() && Inv(cfg, model) && (mode == Roman || mode == Kanji)
      modifies this
      ensures Synced() && model == EngineModel.DropPending(cfg, old(model))
      ensures Inv(cfg, model) && model.pending == "" && model.top.okuri == "" && mode == old(mode) && AtTop(cfg, model)
    {
      DropPendingKeepsInv(cfg, model);
      if node != cfg.root {
        RomanReset();
      }
    }

    method RomanKey(sym: KeySym, ascii: char)
      requires Synced() && TableOk(cfg) && Inv(cfg, model) && mode == Roman
      modifies this
      ensures Synced() && model == EngineModel.RomanKey(cfg, old(model), sym, ascii)
    {
      hide Display, Attributes, Shown, Layout, EngineModel.TextCommit, EngineModel.TextPop, EngineModel.TextPush,
        EngineModel.EntryCommit, EngineModel.EntryPop, EngineModel.EntryPush, EngineModel.Query, EngineModel.Press;
      AtTopIffIdle(cfg, model);
      if IsReturn(sym, ascii) {
        DropPending();
        TextCommit();
      } else if IsBackSpace(sym, ascii) {
        if node != cfg.root {
          RomanReset();
        } else {
          TextPop();
        }
      } else if IsLinefeed(sym, ascii) {
        DropPending();
      } else if IsPrint(ascii) {
        RomanPrint(ascii);
      } else {
        DropPending();
        if buffer == "" {
          OnForward();
        }
      }
    }

    method RomanPrint(ascii: char)
      requires Synced() && TableOk(cfg) && Inv(cfg, model) && mode == Roman
      modifies this
      ensures Synced() && model == EngineModel.RomanPrint(cfg, old(model), ascii)
    {
      hide Display, Attributes, Shown, Layout, EngineModel.TextCommit, EngineModel.TextPop, EngineModel.TextPush,
        EngineModel.EntryCommit, EngineModel.EntryPop, EngineModel.EntryPush, EngineModel.Query, EngineModel.Press;
      AtTopIffIdle(cfg, model);
      var key := ToLower(ascii);
      var action := Find(node, key);
      if action == None && node != cfg.root {
        DropPending();
        action := Find(node, key);
      }
      if action != None {
        FoundIsPressable(cfg, model, key);
        if node == cfg.root && key != ascii {
          SetMode(Kanji);
        }
        Press(action.value);
      } else {
        RomanOther(ascii);
      }
    }

    method RomanOther(ascii: char)
      requires Synced() && Idle(cfg, model) && mode == Roman
      modifies this
      ensures Synced() && model == EngineModel.RomanOther(old(model), ascii)
    {
      hide Display, Attributes, Shown, Layout, EngineModel.TextCommit, EngineModel.TextPop, EngineModel.TextPush,
        EngineModel.EntryCommit, EngineModel.EntryPop, EngineModel.EntryPush, EngineModel.Query, EngineModel.Press;
      if ascii == '/' {
        SetMode(Word);
      } else if ascii == 'l' {
        SetMode(Latin);
      } else if ascii == 'q' {
        SetKatakana();
      } else {
        TextPush(ascii);
      }
    }

    method SetKatakana()
      requires Synced()
      modifies this
      ensures Synced() && model == old(model).(katakana := !old(katakana))
    {
      katakana, model := !katakana, model.(katakana := !katakana);
    }

    method KanjiKey(sym: KeySym, ascii: char)
      requires Synced() && TableOk(cfg) && Inv(cfg, model) && mode == Kanji
      modifies this
      ensures Synced() && model == EngineModel.KanjiKey(cfg, old(model), sym, ascii)
    {
      hide Display, Attributes, Shown, Layout, EngineModel.TextCommit, EngineModel.TextPop, EngineModel.TextPush,
        EngineModel.EntryCommit, EngineModel.EntryPop, EngineModel.EntryPush, EngineModel.Query, EngineModel.Press;
      AtTopIffIdle(cfg, model);
      if IsReturn(sym, ascii) {
        DropPending();
        EntryCommit();
      } else if IsBackSpace(sym, ascii) {
        if node != cfg.root {
          RomanReset();
          if buffer == "" {
            SetMode(Roman);
          }
        } else {
          EntryPop();
        }
      } else if IsPrint(ascii) {
        KanjiPrint(ascii);
      } else {
        DropPending();
      }
    }

    method KanjiPrint(ascii: char)
      requires Synced() && TableOk(cfg) && Inv(cfg, model) && mode == Kanji
      modifies this
      ensures Synced() && model == EngineModel.KanjiPrint(cfg, old(model), ascii)
    {
      hide Display, Attributes, Shown, Layout, EngineModel.TextCommit, EngineModel.TextPop, EngineModel.TextPush,
        EngineModel.EntryCommit, EngineModel.EntryPop, EngineModel.EntryPush, EngineModel.Query, EngineModel.Press;
      AtTopIffIdle(cfg, model);
      var key := ToLower(ascii);
      var action := Find(node, key);
      ghost var spelled := key;
      if action == None && node != cfg.root {
        DropPending();
        action := Find(node, ascii);
        spelled := ascii;
      }
      if action != None {
        FoundIsPressable(cfg, model, spelled);
        PushHiddenKey(ascii);
        Press(action.value);
      } else {
        KanjiOther(ascii);
      }
    }

    method PushHiddenKey(ascii: char)
      requires Synced() && Inv(cfg, model) && mode == Kanji
      modifies this
      ensures Synced() && model == WithHiddenKey(cfg, old(model), ascii)
    {
      hide Display, Attributes, Shown, Leads, BufferOf, LayoutOf, Flat, Layout;
      Sizes(model);
      AtTopIffIdle(cfg, model);
      var key, state := ToLower(ascii), states[|states| - 1];
      if node == cfg.root && key != ascii && state.entry > 0 {
        HiddenKeyEncodes(model, key);
        buffer, states, model :=
          buffer + [key], states[|states| - 1 := state.(okuri := 1)], model.(top := model.top.(okuri := [key]));
      }
    }

    method KanjiOther(ascii: char)
      requires Synced() && Idle(cfg, model) && mode == Kanji
      modifies this
      ensures Synced() && model == EngineModel.KanjiOther(cfg, old(model), ascii)
    {
      hide Display, Attributes, Shown, Layout, EngineModel.TextCommit, EngineModel.TextPop, EngineModel.TextPush,
        EngineModel.EntryCommit, EngineModel.EntryPop, EngineModel.EntryPush, EngineModel.Query, EngineModel.Press;
      if ascii == ' ' {
        Query();
      } else if ascii == '/' || ascii == 'l' {
        SetMode(Word);
      } else if ascii == 'q' {
        SetKatakana();
      } else {
        EntryPush(ascii);
      }
    }

    method ChooseKey(sym: KeySym, ascii: char)
      requires Synced() && TableOk(cfg) && Inv(cfg, model) && mode == EngineModel.Mode.Choose
      modifies this
      ensures Synced() && model == EngineModel.ChooseKey(cfg, old(model), sym, ascii)
      decreases 1
    {
      hide Display, Attributes, Shown, Layout, EngineModel.TextCommit, EngineModel.TextPop, EngineModel.TextPush,
        EngineModel.EntryCommit, EngineModel.EntryPop, EngineModel.EntryPush, EngineModel.Query, EngineModel.Press;
      if IsBackSpace(sym, ascii) || (ascii == 'x' && chosen <= 0) {
        Back();
      } else if ascii == ' ' {
        Next();
      } else if ascii == 'x' {
        Previous();
      } else if sym == Return || IsPrint(ascii) {
        AcceptKeepsInv(cfg, model);
        Accept();
        if IsReturn(sym, ascii) { return; }
        KeyPressed(sym, ascii);
      }
    }

    /** f_key_pressed: from any reachable state the next state is the model's, and the host follows. */
    method KeyPressed(sym: KeySym, ascii: char)
      requires Synced() && TableOk(cfg) && Inv(cfg, model)
      modifies this
      ensures Synced() && Inv(cfg, model) && model == EngineModel.KeyPressed(cfg, old(model), sym, ascii)
      decreases if mode == EngineModel.Mode.Choose then 2 else 0
    {
      KeyKeepsInv(cfg, model, sym, ascii);
      hide Display, Attributes, Shown, Layout, EngineModel.TextCommit, EngineModel.TextPop, EngineModel.TextPush,
        EngineModel.EntryCommit, EngineModel.EntryPop, EngineModel.EntryPush, EngineModel.Query, EngineModel.Press;
      match mode
      case Latin => LatinKey(sym, ascii);
      case Word => WordKey(sym, ascii);
      case Roman => RomanKey(sym, ascii);
      case Kanji => KanjiKey(sym, ascii);
      case Choose => ChooseKey(sym, ascii);
    }

    method ResetAll()
      requires Synced() && Inv(cfg, model)
      modifies this
      ensures Synced() && model == EngineModel.ResetAll(cfg, old(model))
    {
      hide Display, Attributes, Shown, Leads, BufferOf, LayoutOf, Flat, Layout;
      hide EngineModel.ResetAll;
      Sizes(model);
      ResetAllLeads(cfg, model);
      var state := states[|states| - 1];
      var n := |buffer| - state.base;
      if state.okuri > 0 { n := n - 1; }
      if candidates != [] { n := n - state.entry + |candidates[chosen].text|; }
      Clear(n, EngineModel.ResetAll(cfg, model));
    }

    method Clear(n: int, ghost next: State)
      requires Synced() && Leads(model, 0, n, "", [], next)
      requires Encode(next) == Encode(model).(mode := Roman, buffer := "", katakana := false, node := cfg.root,
                                              states := [Offsets(0, 0, 0, 0)], candidates := [])
      modifies this
      ensures Synced() && model == next
    {
      hide Display, Attributes, Shown, Leads, BufferOf, LayoutOf, Flat, Layout;
      mode, buffer, katakana, node, states, candidates, model :=
        Roman, "", false, cfg.root, [Offsets(0, 0, 0, 0)], [], next;
      OnCompose(0, n, "", [], old(model));
    }

    /** A key event, its repetition or a reset; a forwarded key sends the preedit again. */
    method Handle(e: Event)
      requires Synced() && TableOk(cfg) && Inv(cfg, model)
      modifies this
      ensures Synced() && Inv(cfg, model) && model == Step(cfg, old(model), e)
    {
      StepKeepsInv(cfg, model, e);
      match e
      case Key(sym, ascii) =>
        forwarded, model := false, model.(forwarded := false);
        KeyPressed(sym, ascii);
        if forwarded {
          Resend();
        }
      case Repeat(sym, ascii) =>
        KeyPressed(sym, ascii);
      case Reset =>
        ResetAll();
    }

    method Resend()
      requires Synced()
      modifies this`shown
      ensures Synced()
    {
      Sizes(model);
      SendPreedit();
      if candidates == [] {
        CaretIsShown(model);
      } else {
        MarkedIsShown(model, shown.begin, shown.end);
      }
    }

    /** Over every run of events the host shows exactly the display of the model's state. */
    method HandleAll(events: seq<Event>)
      requires Synced() && TableOk(cfg) && Inv(cfg, model)
      modifies this
      ensures Synced() && Inv(cfg, model) && model == Run(cfg, old(model), events)
    {
      hide *;
      assert events[..0] == [];
      RunNone(cfg, model);
      for i := 0 to |events|
        invariant Synced() && Inv(cfg, model) && model == Run(cfg, old(model), events[..i])
      {
        RunSnoc(cfg, old(model), events[..i], events[i]);
        assert events[..i + 1] == events[..i] + [events[i]];
        Handle(events[i]);
      }
      assert events[..|events|] == events;
    }
  }
}
