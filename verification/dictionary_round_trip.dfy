/**
 Saving the private dictionary and loading it again (im/basic_dictionary.cc, f_save and f_load): the
 stores that come back are exactly the clean ones with plain okurigana. An okurigana is written
 without escapes, so one that is not plain is read as something else, and may swallow the text
 behind it or leave texts of its own; but what is read weighs less than what was written.
 */
module DictionaryRoundTrip {
  import opened Lexicographic
  import opened OrderedMaps
  import opened DictionaryText
  import opened DictionaryStore
  import opened Wrappers
  import DictionaryFile

  // Weights. A backslash weighs more than the slash and the bracket it can turn into characters.

  function CharWeight(c: char): nat {
    if c == '\\' then 3 else 1
  }

  function Weight(s: string): nat {
    if s == "" then 0 else CharWeight(s[0]) + Weight(s[1..])
  }

  function TextsWeight(texts: Texts): nat {
    if texts == [] then 0 else Weight(texts[0]) + TextsWeight(texts[1..])
  }

  function Total<V>(m: seq<(string, V)>, weight: ((string, V)) -> nat): nat {
    if m == [] then 0 else weight(m[0]) + Total(m[1..], weight)
  }

  function GroupWeight(g: (string, Texts)): nat {
    Weight(g.0) + TextsWeight(g.1)
  }

  function EntryWeight(e: (string, Groups)): nat {
    Total(e.1, GroupWeight)
  }

  lemma {:induction false} WeightSnoc(texts: Texts, text: string)
    ensures TextsWeight(texts + [text]) == TextsWeight(texts) + Weight(text)
  {
    if texts == [] {
      assert texts + [text] == [text];
    } else {
      assert (texts + [text])[1..] == texts[1..] + [text];
      WeightSnoc(texts[1..], text);
    }
  }

  lemma {:induction false} TotalOfUpdate<V>(m: seq<(string, V)>, key: string, v: V, weight: ((string, V)) -> nat)
    ensures Total(Update(m, key, v), weight) + (match Find(m, key) case Some(v0) => weight((key, v0)) case None => 0)
         == Total(m, weight) + weight((key, v))
  {
    if m == [] {
      assert Update(m, key, v) == [(key, v)];
    } else if !Less(m[0].0, key) {
      hide Less;
      if m[0].0 == key {
        assert m[0] == (key, m[0].1) && Update(m, key, v) == [(key, v)] + m[1..];
      } else {
        assert Update(m, key, v) == [(key, v)] + m;
        assert ([(key, v)] + m)[1..] == m;
      }
    } else {
      UpdateBehind(m, key, v);
      hide Less, Update, Find;
      TotalOfUpdate(m[1..], key, v, weight);
      assert ([m[0]] + Update(m[1..], key, v))[1..] == Update(m[1..], key, v);
    }
  }

  lemma UpdateBehind<V>(m: seq<(string, V)>, key: string, v: V)
    requires m != [] && Less(m[0].0, key)
    ensures Update(m, key, v) == [m[0]] + Update(m[1..], key, v) && Find(m, key) == Find(m[1..], key)
  {
    hide Less;
  }

  lemma FoundAfterUpdate<V>(m: seq<(string, V)>, key: string, v: V)
    ensures Find(Update(m, key, v), key) == Some(v)
  {
    var r, u := LowerBound(m, key), Update(m, key, v);
    Trichotomy(key, key);
    assert u[r] == (key, v) && forall i :: 0 <= i < r ==> u[i] == m[i];
  }

  // What is read weighs no more than what the lexer delivers.

  /** The weight of the texts and okurigana lexed from here, and what is left behind them. */
  function Lexed(s: string): (nat, string)
    decreases |s|
  {
    var l := Lex(s);
    match l.token
    case NoToken => (0, l.rest)
    case EndToken => Lexed(l.rest)
    case _ => Plus(Weight(l.text), Lexed(l.rest))
  }

  function Plus(n: nat, r: (nat, string)): (nat, string) {
    (n + r.0, r.1)
  }

  lemma EmplaceWeighs(gs: Groups, okuri: string)
    ensures Find(Emplace(gs, okuri), okuri).Some?
    ensures Total(Emplace(gs, okuri), GroupWeight) <= Total(gs, GroupWeight) + Weight(okuri)
  {
    TotalOfUpdate(gs, okuri, [], GroupWeight);
    FoundAfterUpdate(gs, okuri, []);
  }

  lemma TextWeighs(gs: Groups, okuri: string, text: string)
    requires Find(gs, okuri).Some?
    ensures var u := Update(gs, okuri, FindOr(gs, okuri, []) + [text]);
            Find(u, okuri).Some? && Total(u, GroupWeight) == Total(gs, GroupWeight) + Weight(text)
  {
    var texts := FindOr(gs, okuri, []);
    TotalOfUpdate(gs, okuri, texts + [text], GroupWeight);
    FoundAfterUpdate(gs, okuri, texts + [text]);
    WeightSnoc(texts, text);
  }

  lemma {:induction false} GroupsReadWeigh(s: string, gs: Groups, okuri: string)
    requires Find(gs, okuri).Some?
    ensures var r := ReadGroups(s, gs, okuri);
            Total(r.0, GroupWeight) <= Total(gs, GroupWeight) + Lexed(s).0 && r.1 == Lexed(s).1
    decreases |s|
  {
    hide Lex, Find, Update, Total;
    var l := Lex(s);
    match l.token
    case NoToken =>
    case TextToken =>
      TextWeighs(gs, okuri, l.text);
      GroupsReadWeigh(l.rest, Update(gs, okuri, FindOr(gs, okuri, []) + [l.text]), okuri);
    case BeginToken =>
      EmplaceWeighs(gs, l.text);
      GroupsReadWeigh(l.rest, Emplace(gs, l.text), l.text);
    case EndToken =>
      EmplaceWeighs(gs, "");
      GroupsReadWeigh(l.rest, Emplace(gs, ""), "");
  }

  // Reading a field that was not meant to be one.

  /** Lexing from inside a field, and from inside an annotation. */
  function InField(s: string): (nat, string) {
    var l := LexFields(TextToken, s);
    Plus(Weight(l.text), Lexed(l.rest))
  }

  function InNote(s: string): (nat, string) {
    Lexed(ReadField(s, false).1)
  }

  /** At a slash. */
  lemma AtSlash(s: string)
    requires s != "" && s[0] == '/'
    ensures InField(s) == Lexed(s) && InNote(s) == Lexed(s)
  {
    hide Lexed;
    ReadNothing(s, true);
    ReadNothing(s, false);
  }

  lemma TakesOne(c: char, s: string)
    requires c != '/' && c != '\\' && c != '\n'
    ensures c != ';' ==> InField([c] + s) == Plus(CharWeight(c), InField(s))
    ensures InField(";" + s) == InNote(s)
    ensures InNote([c] + s) == InNote(s)
  {
    hide Lexed;
    assert ([c] + s)[1..] == s && (";" + s)[1..] == s;
    var r := ReadField(s, true);
    assert ([c] + r.0)[1..] == r.0;
  }

  lemma TakesEscaped(c: char, s: string)
    requires c != '\n'
    ensures InField(['\\', c] + s) == Plus(CharWeight(c), InField(s))
    ensures InNote(['\\', c] + s) == InNote(s)
  {
    hide Lexed, ReadField;
    ReadEscaped(c, s, true);
    ReadEscaped(c, s, false);
    var r := ReadField(s, true);
    assert ([c] + r.0)[1..] == r.0;
  }

  /** Behind a slash a token begins. */
  lemma BehindSlash(s: string)
    requires s != "" && s[0] != '\n'
    ensures var inside := InField(if s[0] == '[' || s[0] == ']' then s[1..] else s);
            Lexed("/" + s).0 <= inside.0 && Lexed("/" + s).1 == inside.1
    ensures s[0] == '[' ==> Lexed("/" + s) == InField(s[1..])
  {
    hide ReadField;
    assert ("/" + s)[1..] == s && ("/" + s)[2..] == s[1..];
  }

  /** What stands behind the okurigana in the file. */
  function Behind(texts: Texts, u: string): string {
    Build(texts) + ("/]" + u)
  }

  lemma BehindIs(texts: Texts, u: string)
    ensures Behind(texts, u) != "" && Behind(texts, u)[0] == '/'
    ensures texts != [] ==> Behind(texts, u) == "/" + Escape(texts[0]) + Behind(texts[1..], u)
  {
    if texts == [] { assert Behind(texts, u) == "/]" + u; }
  }

  lemma {:induction false} TextsAreLexed(texts: Texts, u: string)
    requires CleanTexts(texts) && u != "" && u[0] == '/'
    ensures Lexed(Behind(texts, u)) == Plus(TextsWeight(texts), Lexed(u))
  {
    hide Lex, Escape;
    BehindIs(texts, u);
    if texts == [] {
      assert Behind(texts, u) == "/]" + u;
      LexEnd(u);
    } else {
      BehindIs(texts[1..], u);
      LexText(texts[0], Behind(texts[1..], u));
      TextsAreLexed(texts[1..], u);
    }
  }

  /** A backslash that ends an okurigana takes the slash behind it, and with it the text or the bracket. */
  lemma SlashIsTaken(texts: Texts, u: string)
    requires CleanTexts(texts) && u != "" && u[0] == '/'
    ensures var y := Behind(texts, u);
            && y != "" && y[0] == '/'
            && InField(y[1..]).0 <= Lexed(y).0 + 1 && InField(y[1..]).1 == Lexed(y).1
            && InNote(y[1..]).0 <= Lexed(y).0 && InNote(y[1..]).1 == Lexed(y).1
  {
    hide Lex, Escape, Lexed, ReadField;
    var y := Behind(texts, u);
    BehindIs(texts, u);
    TextsAreLexed(texts, u);
    if texts == [] {
      assert y[1..] == "]" + u;
      TakesOne(']', u);
      AtSlash(u);
    } else {
      var z := Behind(texts[1..], u);
      BehindIs(texts[1..], u);
      TextsAreLexed(texts[1..], u);
      assert y[1..] == Escape(texts[0]) + z;
      ReadUndoesEscape(texts[0], z, true);
      ReadUndoesEscape(texts[0], z, false);
    }
  }

  /** However an okurigana is read, it is not more than was written, and less if it is not plain. */
  lemma {:induction false} NameLoses(name: string, texts: Texts, u: string)
    requires '\n' !in name && CleanTexts(texts) && u != "" && u[0] == '/'
    ensures var r, y := InField(name + Behind(texts, u)), Lexed(Behind(texts, u));
            r.1 == y.1 && r.0 + (if IsPlain(name) then 0 else 1) <= Weight(name) + y.0
    ensures var r, y := InNote(name + Behind(texts, u)), Lexed(Behind(texts, u));
            r.1 == y.1 && r.0 <= Weight(name) + y.0
    decreases |name|, 0
  {
    hide InField, InNote, Lexed, Behind;
    var y := Behind(texts, u);
    BehindIs(texts, u);
    if name == "" {
      assert name + y == y;
      AtSlash(y);
    } else {
      var c, rest := name[0], name[1..];
      assert name + y == [c] + (rest + y);
      NameLoses(rest, texts, u);
      if c == '/' {
        SlashLoses(rest, texts, u);
        AtSlash(name + y);
      } else if c == '\\' {
        if rest == "" {
          assert [c] + (rest + y) == ['\\', '/'] + y[1..];
          SlashIsTaken(texts, u);
          TakesEscaped('/', y[1..]);
        } else {
          assert [c] + (rest + y) == ['\\', rest[0]] + (rest[1..] + y);
          NameLoses(rest[1..], texts, u);
          TakesEscaped(rest[0], rest[1..] + y);
        }
      } else {
        TakesOne(c, rest + y);
        assert IsPlain(name) <==> c != ';' && IsPlain(rest);
      }
    }
  }

  lemma SlashLoses(rest: string, texts: Texts, u: string)
    requires '\n' !in rest && CleanTexts(texts) && u != "" && u[0] == '/'
    ensures var r, y := Lexed("/" + (rest + Behind(texts, u))), Lexed(Behind(texts, u));
            r.1 == y.1 && r.0 <= Weight(rest) + y.0
    decreases |rest|, 1
  {
    hide InField, InNote, Lexed, Behind;
    var y := Behind(texts, u);
    BehindIs(texts, u);
    BehindSlash(rest + y);
    if rest != "" && (rest[0] == '[' || rest[0] == ']') {
      assert (rest + y)[1..] == rest[1..] + y;
      NameLoses(rest[1..], texts, u);
    } else {
      NameLoses(rest, texts, u);
    }
  }

  // A line, and all okuri-ari lines.

  lemma PlainGroupsAre(gs: Groups)
    requires gs != []
    ensures PlainGroups(gs) <==> IsPlain(gs[0].0) && PlainGroups(gs[1..])
  {
    hide IsPlain;
    assert forall i :: 0 <= i < |gs| - 1 ==> gs[1..][i] == gs[i + 1];
    if IsPlain(gs[0].0) && PlainGroups(gs[1..]) {
      forall i | 0 <= i < |gs| ensures IsPlain(gs[i].0) {
        if i > 0 { assert gs[i] == gs[1..][i - 1]; }
      }
    }
  }

  lemma GroupLoses(g: (string, Texts), u: string)
    requires '\n' !in g.0 && CleanTexts(g.1) && u != "" && u[0] == '/'
    ensures var r := Lexed("/[" + g.0 + Build(g.1) + "/]" + u);
            r.1 == Lexed(u).1 && r.0 + (if IsPlain(g.0) then 0 else 1) <= GroupWeight(g) + Lexed(u).0
  {
    hide Lexed, InField, Weight, TextsWeight, Build;
    var s := "[" + (g.0 + Behind(g.1, u));
    assert "/[" + g.0 + Build(g.1) + "/]" + u == "/" + s && s[1..] == g.0 + Behind(g.1, u);
    BehindSlash(s);
    NameLoses(g.0, g.1, u);
    TextsAreLexed(g.1, u);
  }

  lemma {:induction false} GroupsLose(gs: Groups, t: string)
    requires CleanGroups(gs)
    ensures var r := Lexed(BuildGroups(gs) + ("/\n" + t));
            r.1 == "\n" + t && r.0 + (if PlainGroups(gs) then 0 else 1) <= Total(gs, GroupWeight)
    decreases |gs|
  {
    hide IsPlain, Build, GroupWeight;
    if gs == [] {
      assert BuildGroups(gs) + ("/\n" + t) == "/\n" + t;
      LexLineEnd(t);
    } else {
      hide Lexed;
      var u := BuildGroups(gs[1..]) + ("/\n" + t);
      assert BuildGroups(gs) + ("/\n" + t) == "/[" + gs[0].0 + Build(gs[0].1) + "/]" + u;
      BuildGroupsStartsWithSlash(gs[1..], "/\n" + t);
      GroupLoses(gs[0], u);
      GroupsLose(gs[1..], t);
      PlainGroupsAre(gs);
    }
  }

  lemma {:induction false} GeneralTextsAreLexed(texts: Texts, u: string)
    requires CleanTexts(texts) && u != "" && u[0] == '/'
    ensures Lexed(Build(texts) + u) == Plus(TextsWeight(texts), Lexed(u))
  {
    hide Lex, Escape;
    if texts == [] {
      assert Build(texts) + u == u;
    } else {
      var t := Build(texts[1..]) + u;
      BuildStartsWithSlash(texts[1..], u);
      assert Build(texts) + u == "/" + Escape(texts[0]) + t;
      LexText(texts[0], t);
      GeneralTextsAreLexed(texts[1..], u);
    }
  }

  /** The groups of an entry, read back into the groups there are for its key. */
  lemma EntryLoses(gs: Groups, t: string, gs0: Groups)
    requires GroupsOk(gs) && CleanGroups(gs)
    ensures var r := ReadGroups(Build(gs[0].1) + BuildGroups(gs[1..]) + "/\n" + t, Emplace(gs0, ""), "");
            && r.1 == "\n" + t
            && Total(r.0, GroupWeight) + (if PlainGroups(gs) then 0 else 1)
               <= Total(gs0, GroupWeight) + Total(gs, GroupWeight)
  {
    var u := BuildGroups(gs[1..]) + ("/\n" + t);
    var s := Build(gs[0].1) + BuildGroups(gs[1..]) + "/\n" + t;
    assert IsPlain(gs[0].0) && Weight(gs[0].0) == 0;
    PlainGroupsAre(gs);
    assert CleanGroups(gs[1..]);
    hide Lexed, ReadGroups, Build, BuildGroups, Emplace, GroupsOk, PlainGroups, IsPlain, Weight;
    assert s == Build(gs[0].1) + u;
    BuildGroupsStartsWithSlash(gs[1..], "/\n" + t);
    GeneralTextsAreLexed(gs[0].1, u);
    GroupsLose(gs[1..], t);
    EmplaceWeighs(gs0, "");
    assert Weight("") == 0;
    GroupsReadWeigh(s, Emplace(gs0, ""), "");
  }

  lemma {:induction false} TotalSnoc<V>(m: seq<(string, V)>, p: (string, V), weight: ((string, V)) -> nat)
    ensures Total(m + [p], weight) == Total(m, weight) + weight(p)
  {
    if m == [] {
      assert m + [p] == [p];
    } else {
      assert (m + [p])[1..] == m[1..] + [p];
      TotalSnoc(m[1..], p, weight);
    }
  }

  lemma LineLoses(key: string, gs: Groups, t: string, acc: Aris) returns (acc': Aris)
    requires CleanKey(key) && (key != "" ==> key[0] != ';') && GroupsOk(gs) && CleanGroups(gs)
    ensures ReadAris(AriLine(key, gs) + t, acc) == ReadAris(t, acc')
    ensures Total(acc', EntryWeight) + (if PlainGroups(gs) then 0 else 1)
         <= Total(acc, EntryWeight) + Total(gs, GroupWeight)
  {
    hide ReadGroups, Update, Find, Total, PlainGroups, CleanGroups, Build, BuildGroups, GroupsOk;
    assert gs != [] by { NotEmpty(gs); }
    var texts := Build(gs[0].1) + BuildGroups(gs[1..]) + "/\n" + t;
    var s := AriLine(key, gs) + t;
    assert s == key + " " + texts;
    KeyReadsBack(key, texts);
    var gs0 := FindOr(acc, key, []);
    EntryLoses(gs, t, gs0);
    assert s != "" && s[0] != ';' by { if key != "" { assert s[0] == key[0]; } }
    assert Drop1("\n" + t) == t;
    var gs' := ReadGroups(texts, Emplace(gs0, ""), "").0;
    acc' := Update(acc, key, gs');
    TotalOfUpdate(acc, key, gs', EntryWeight);
    EntryWeightIs(key, gs0);
  }

  lemma NotEmpty(gs: Groups)
    requires GroupsOk(gs)
    ensures gs != []
  {
  }

  lemma EntryWeightIs(key: string, gs: Groups)
    ensures EntryWeight((key, gs)) == Total(gs, GroupWeight)
    ensures Total([], GroupWeight) == 0
  {
  }

  lemma {:induction false} ArisLose(aris: Aris, t: string, acc: Aris)
    requires NoEmptyGroups(aris) && CleanAris(aris) && forall i :: 0 <= i < |aris| ==> GroupsOk(aris[i].1)
    ensures Total(ReadAris(AriText(aris) + (SEPARATOR_LINE + t), acc).0, EntryWeight)
            + (if forall i :: 0 <= i < |aris| ==> PlainGroups(aris[i].1) then 0 else 1)
         <= Total(aris, EntryWeight) + Total(acc, EntryWeight)
    decreases |aris|
  {
    hide ReadAris, AriLine, GroupsOk, PlainGroups, CleanGroups, CleanKey, Total;
    if aris == [] {
      assert AriText(aris) + (SEPARATOR_LINE + t) == SEPARATOR_LINE + t;
      SeparatorEndsAris(t, acc);
    } else {
      var n := |aris| - 1;
      var u := AriText(aris[..n]) + (SEPARATOR_LINE + t);
      AriTextIs(aris, t);
      hide AriText;
      var acc' := LineLoses(aris[n].0, aris[n].1, u, acc);
      ArisLose(aris[..n], t, acc');
      assert aris == aris[..n] + [aris[n]];
      TotalSnoc(aris[..n], aris[n], EntryWeight);
      EntryWeightIs(aris[n].0, aris[n].1);
    }
  }

  lemma AriTextIs(aris: Aris, t: string)
    requires NoEmptyGroups(aris) && aris != []
    ensures var n := |aris| - 1;
            AriText(aris) + (SEPARATOR_LINE + t)
            == AriLine(aris[n].0, aris[n].1) + (AriText(aris[..n]) + (SEPARATOR_LINE + t))
  {
    var n := |aris| - 1;
    assert AriText(aris) == AriLine(aris[n].0, aris[n].1) + AriText(aris[..n]);
    hide *;
    Joined(AriLine(aris[n].0, aris[n].1), AriText(aris[..n]), SEPARATOR_LINE + t);
  }

  lemma Joined(a: string, b: string, c: string)
    ensures (a + b) + c == a + (b + c)
  {
  }

  // The round trip.

  lemma UnplainIsLost(d: Store)
    requires StoreOk(d) && Clean(d) && !PlainOkuris(d)
    ensures LoadText(SaveText(d)) != d
  {
    assert NoEmptyGroups(d.aris);
    hide ReadAris, ReadNashis, AriText, NashiText, DictionaryFile.HeaderEnd, CleanAris, GroupsOk, PlainGroups;
    var rest := AriText(d.aris) + (SEPARATOR_LINE + NashiText(d.nashis));
    Regroup(DictionaryFile.HEADER + "\n", AriText(d.aris), SEPARATOR_LINE, NashiText(d.nashis));
    HeaderReadsBack(rest);
    ArisLose(d.aris, NashiText(d.nashis), []);
  }

  /**
   Saving and then loading gives the same two maps back exactly for the clean ones with plain
   okurigana. Lost are a key with a space or a newline, a text with a newline, an okuri-ari key that
   starts with a semicolon, which is taken for the separator, and an okurigana with a slash,
   semicolon, backslash or newline, which is written as it is.
   */
  lemma SaveThenLoad(d: Store)
    requires StoreOk(d)
    ensures LoadText(SaveText(d)) == d <==> Clean(d) && PlainOkuris(d)
  {
    LoadedIsClean(SaveText(d));
    if Clean(d) {
      if PlainOkuris(d) {
        CleanReadsBack(d);
      } else {
        UnplainIsLost(d);
      }
    }
  }

  lemma PutBehind(gs: Groups, okuri: string, text: string)
    requires forall i :: 0 <= i < |gs| ==> Less(gs[i].0, okuri)
    ensures Put(gs, okuri, text) == gs + [(okuri, [text])]
  {
    UpdateAtEnds(gs, okuri, [text]);
    assert [text] + [] == [text];
  }

  lemma SemicolonIsLearned()
    ensures Register(Store([], []), ";", "kか", "x") == Store([], [(";k", [("", ["x"]), ("か", ["x"])])])
  {
    hide Find, Update, Put, Less;
    var none: Groups, aris: Aris := [], [];
    var general, gs := [("", ["x"])], [("", ["x"]), ("か", ["x"])];
    assert KeyOf(";", "kか") == ";k" && "kか"[1..] == "か";
    PutBehind(none, "", "x");
    assert none + general == general;
    assert Less("", "か") by { IsLessThanAny("か"); }
    PutBehind(general, "か", "x");
    assert general + [("か", ["x"])] == gs;
    UpdateAtEnds(aris, ";k", gs);
    assert aris + [(";k", gs)] == [(";k", gs)];
  }

  lemma IsLessThanAny(s: string)
    requires s != ""
    ensures Less("", s)
  {
  }

  /** The loss is real: what is learned for an entry that is a semicolon does not come back. */
  lemma SemicolonEntryIsLost()
    ensures var d := Register(Store([], []), ";", "kか", "x");
            StoreOk(d) && PlainOkuris(d) && LoadText(SaveText(d)) != d
  {
    RegisterKeepsStoreOk(Store([], []), ";", "kか", "x");
    hide Find, Update, Put, Less, Register;
    SemicolonIsLearned();
    var d := Register(Store([], []), ";", "kか", "x");
    assert !CleanAris(d.aris) by {
      assert d.aris[0].0[0] == ';';
    }
    SaveThenLoad(d);
  }

  /** An okurigana that is a slash can be loaded, from an escaped name, and is lost when saved again. */
  lemma SlashOkuriIsLost()
    ensures var d := Store([], [("あk", [("", ["あ"]), ("/", ["x"])])]);
            && LoadText(DictionaryFile.HEADER + "\n" + "あk /あ/[\\//x/]/\n") == d
            && StoreOk(d) && Clean(d) && LoadText(SaveText(d)) != d
  {
    hide ReadGroups, ReadAris, DictionaryFile.HeaderEnd, Find, Update;
    var line := "あk /あ/[\\//x/]/\n";
    var d := Store([], [("あk", [("", ["あ"]), ("/", ["x"])])]);
    HeaderReadsBack(line);
    SlashLineIsLoaded();
    assert LoadText(DictionaryFile.HEADER + "\n" + line) == d;
    LoadedIsOk(DictionaryFile.HEADER + "\n" + line);
    LoadedIsClean(DictionaryFile.HEADER + "\n" + line);
    assert !PlainOkuris(d) by {
      assert !IsPlain(d.aris[0].1[1].0) by { assert d.aris[0].1[1].0[0] == '/'; }
      assert !PlainGroups(d.aris[0].1);
    }
    SaveThenLoad(d);
  }

  lemma SlashLineIsLoaded()
    ensures ReadAris("あk /あ/[\\//x/]/\n", []) == ([("あk", [("", ["あ"]), ("/", ["x"])])], "")
  {
    hide ReadGroups, ReadAris, Find, Update, Lex;
    var none: Groups, aris: Aris := [], [];
    var gs := [("", ["あ"]), ("/", ["x"])];
    var groups := "/あ/[\\//x/]/\n";
    assert "あk" + " " + groups == "あk /あ/[\\//x/]/\n";
    UpdateAtEnds(none, "", []);
    assert Emplace(none, "") == none + [("", [])] == [("", [])];
    SlashGroupsAreLoaded();
    UpdateAtEnds(aris, "あk", gs);
    assert aris + [("あk", gs)] == [("あk", gs)];
    LineIsLoaded(aris, "あk", groups, gs);
  }

  lemma LineIsLoaded(aris: Aris, key: string, groups: string, gs: Groups)
    requires key != "" && key[0] != ';' && CleanKey(key) && Find(aris, key) == None
    requires ReadGroups(groups, Emplace([], ""), "") == (gs, "\n")
    ensures ReadAris(key + " " + groups, aris) == (Update(aris, key, gs), "")
  {
    KeyReadsBack(key, groups);
  }

  lemma SlashGroupsAreLoaded()
    ensures ReadGroups("/あ/[\\//x/]/\n", [("", [])], "") == ([("", ["あ"]), ("/", ["x"])], "\n")
  {
    hide ReadGroups, Find, Update, Lex, ReadField;
    var none: Groups := [];
    var u, v := "/[\\//x/]/\n", "/x/]/\n";
    GroupTextsReadBack(["あ"], u, none, "", []);
    assert Build(["あ"]) + u == "/あ/[\\//x/]/\n" && none + [("", [])] == [("", [])];
    var general := [("", ["あ"])];
    assert [] + ["あ"] == ["あ"] && none + general == general;
    NameIsUnescaped(v);
    assert "/[\\/" + v == u;
    GroupBegins(u, v, general, "/");
    var w := "/]/\n";
    GroupTextsReadBack(["x"], w, general, "/", []);
    assert Build(["x"]) + w == v && [] + ["x"] == ["x"];
    var gs := [("", ["あ"]), ("/", ["x"])];
    assert general + [("/", ["x"])] == gs;
    GroupCloses("/\n", gs, "/");
    assert "/]" + "/\n" == w && "/\n" + "" == "/\n" && "\n" + "" == "\n";
    GroupsEnd("", gs, "");
  }

  lemma NameIsUnescaped(v: string)
    requires v != "" && v[0] == '/'
    ensures Lex("/[\\/" + v) == Lexeme(BeginToken, "/", "", v)
  {
    hide ReadField;
    var s := "/[\\/" + v;
    assert s[2..] == ['\\', '/'] + v;
    ReadNothing(v, true);
    ReadEscaped('/', v, true);
  }

  lemma GroupBegins(u: string, v: string, gs: Groups, okuri: string)
    requires Lex(u) == Lexeme(BeginToken, okuri, "", v) && forall i :: 0 <= i < |gs| ==> Less(gs[i].0, okuri)
    ensures ReadGroups(u, gs, "") == ReadGroups(v, gs + [(okuri, [])], okuri)
  {
    UpdateAtEnds(gs, okuri, []);
  }

  lemma GroupCloses(u: string, gs: Groups, okuri: string)
    requires u != "" && u[0] == '/' && gs != [] && gs[0].0 == ""
    ensures ReadGroups("/]" + u, gs, okuri) == ReadGroups(u, gs, "")
  {
    LexEnd(u);
    GeneralGroupIsFound(gs);
  }
}
