/**
 The private dictionary as a file (im/basic_dictionary.cc, f_save and f_load): what is written for
 the two maps, what is read from any text, and when reading gives back what was written.
 Characters stand for their encoded bytes.
 */
module DictionaryStore {
  import opened Wrappers
  import opened Lexicographic
  import opened OrderedMaps
  import opened DictionaryText
  import opened Candidates
  import DictionaryFile

  type Texts = seq<string>
  type Groups = seq<(string, Texts)>
  type Nashis = seq<(string, Texts)>
  type Aris = seq<(string, Groups)>

  /** okuri-nasi entries to their texts, and okuri-ari entries to their texts for each okurigana. */
  datatype Store = Store(nashis: Nashis, aris: Aris)

  // Writing.

  function BuildGroups(gs: Groups): string {
    if gs == [] then "" else "/[" + gs[0].0 + Build(gs[0].1) + "/]" + BuildGroups(gs[1..])
  }

  function AriLine(key: string, gs: Groups): string
    requires gs != []
  {
    key + " " + Build(gs[0].1) + BuildGroups(gs[1..]) + "/\n"
  }

  predicate NoEmptyGroups(aris: Aris) {
    forall i :: 0 <= i < |aris| ==> aris[i].1 != []
  }

  /** In descending order of the keys. */
  function AriText(aris: Aris): string
    requires NoEmptyGroups(aris)
  {
    if aris == [] then ""
    else
      var n := |aris| - 1;
      AriLine(aris[n].0, aris[n].1) + AriText(aris[..n])
  }

  function NashiLine(key: string, texts: Texts): string {
    key + " " + Build(texts) + "/\n"
  }

  function NashiText(nashis: Nashis): string {
    if nashis == [] then "" else NashiLine(nashis[0].0, nashis[0].1) + NashiText(nashis[1..])
  }

  const SEPARATOR_LINE := ";; okuri-nasi entries.\n"

  function SaveText(d: Store): string
    requires NoEmptyGroups(d.aris)
  {
    DictionaryFile.HEADER + "\n" + AriText(d.aris) + SEPARATOR_LINE + NashiText(d.nashis)
  }

  // Reading.

  /** A key up to a space; a line or file end instead is reported, and eaten. */
  function ReadKey(s: string): (r: (string, string, bool))
    ensures |r.1| <= |s| && (s != "" ==> |r.1| < |s|)
    ensures ' ' !in r.0 && '\n' !in r.0
    ensures r.2 && r.0 != "" ==> s != "" && r.0[0] == s[0]
  {
    if s == "" then ("", "", false)
    else if s[0] == ' ' then ("", s[1..], true)
    else if s[0] == '\n' then ("", s[1..], false)
    else
      var (key, rest, ended) := ReadKey(s[1..]);
      ([s[0]] + key, rest, ended)
  }

  function Emplace(gs: Groups, okuri: string): Groups {
    if Find(gs, okuri).Some? then gs else Update(gs, okuri, [])
  }

  function ReadGroups(s: string, gs: Groups, okuri: string): (r: (Groups, string))
    ensures |r.1| <= |s|
    decreases |s|
  {
    var l := Lex(s);
    match l.token
    case NoToken => (gs, l.rest)
    case TextToken => ReadGroups(l.rest, Update(gs, okuri, FindOr(gs, okuri, []) + [l.text]), okuri)
    case BeginToken => ReadGroups(l.rest, Emplace(gs, l.text), l.text)
    case EndToken => ReadGroups(l.rest, Emplace(gs, ""), "")
  }

  function ReadTexts(s: string, texts: Texts): (r: (Texts, string))
    ensures |r.1| <= |s|
    decreases |s|
  {
    var l := Lex(s);
    if l.token == TextToken then ReadTexts(l.rest, texts + [l.text]) else (texts, l.rest)
  }

  /** The lexer has looked one character ahead, and that character is lost to the next line. */
  function Drop1(s: string): string {
    if s == "" then "" else s[1..]
  }

  function SkipLine(s: string): string {
    if s == "" then "" else if s[0] == '\n' then s[1..] else SkipLine(s[1..])
  }

  /** okuri-ari lines until one that starts with a semicolon. */
  function ReadAris(s: string, aris: Aris): (Aris, string)
    decreases |s|
  {
    if s == "" then (aris, "")
    else if s[0] == ';' then (aris, SkipLine(s[1..]))
    else
      var (key, rest, found) := ReadKey(s);
      if !found then ReadAris(rest, aris)
      else
        var (gs, rest') := ReadGroups(rest, Emplace(FindOr(aris, key, []), ""), "");
        ReadAris(Drop1(rest'), Update(aris, key, gs))
  }

  function ReadNashis(s: string, nashis: Nashis): Nashis
    decreases |s|
  {
    if s == "" then nashis
    else
      var (key, rest, found) := ReadKey(s);
      if !found then ReadNashis(rest, nashis)
      else
        var (texts, rest') := ReadTexts(rest, FindOr(nashis, key, []));
        ReadNashis(Drop1(rest'), Update(nashis, key, texts))
  }

  function LoadText(data: string): Store {
    match DictionaryFile.HeaderEnd(data, DictionaryFile.HEADER, 0)
    case None => Store([], [])
    case Some(h) =>
      var (aris, rest) := ReadAris(if h <= |data| then data[h..] else "", []);
      Store(ReadNashis(rest, []), aris)
  }

  // What a store looks like, and what survives a file.

  /** The texts for one entry: sorted by okurigana, the general ones, for none, first. */
  ghost predicate GroupsOk(gs: Groups) {
    gs != [] && gs[0].0 == "" && Sorted(gs)
  }

  ghost predicate ArisOk(aris: Aris) {
    Sorted(aris) && forall i :: 0 <= i < |aris| ==> GroupsOk(aris[i].1)
  }

  /** Sorted maps, and a general group in every okuri-ari entry: so after loading, and after registering. */
  ghost predicate StoreOk(d: Store) {
    Sorted(d.nashis) && ArisOk(d.aris)
  }

  ghost predicate PlainGroups(gs: Groups) {
    forall i :: 0 <= i < |gs| ==> IsPlain(gs[i].0)
  }

  /** Okurigana are written without escapes. */
  ghost predicate PlainOkuris(d: Store) {
    forall i :: 0 <= i < |d.aris| ==> PlainGroups(d.aris[i].1)
  }

  ghost predicate CleanTexts(texts: Texts) {
    forall i :: 0 <= i < |texts| ==> '\n' !in texts[i]
  }

  ghost predicate CleanKey(key: string) {
    ' ' !in key && '\n' !in key
  }

  ghost predicate CleanGroups(gs: Groups) {
    forall i :: 0 <= i < |gs| ==> '\n' !in gs[i].0 && CleanTexts(gs[i].1)
  }

  ghost predicate CleanNashis(nashis: Nashis) {
    forall i :: 0 <= i < |nashis| ==> CleanKey(nashis[i].0) && CleanTexts(nashis[i].1)
  }

  ghost predicate CleanAris(aris: Aris) {
    forall i :: 0 <= i < |aris| ==>
      CleanKey(aris[i].0) && (aris[i].0 != "" ==> aris[i].0[0] != ';') && CleanGroups(aris[i].1)
  }

  /** No key with a space, no okuri-ari key starting with a semicolon, and no newline anywhere. */
  ghost predicate Clean(d: Store) {
    CleanNashis(d.nashis) && CleanAris(d.aris)
  }

  // Everything that can be read is clean.

  lemma UpdateElements<V>(m: seq<(string, V)>, key: string, v: V)
    ensures forall p :: p in Update(m, key, v) ==> p in m || p == (key, v)
  {
  }

  lemma FindElements<V>(m: seq<(string, V)>, key: string)
    ensures Find(m, key).Some? ==> (key, Find(m, key).value) in m
  {
  }

  lemma EmplaceIsClean(gs: Groups, okuri: string)
    requires CleanGroups(gs) && '\n' !in okuri
    ensures CleanGroups(Emplace(gs, okuri)) && CleanTexts(FindOr(gs, okuri, []))
  {
    UpdateElements(gs, okuri, []);
    FindElements(gs, okuri);
    var e := Emplace(gs, okuri);
    forall i | 0 <= i < |e| ensures '\n' !in e[i].0 && CleanTexts(e[i].1) {
      assert e[i] in e;
    }
  }

  lemma {:induction false} GroupsReadAreClean(s: string, gs: Groups, okuri: string)
    requires CleanGroups(gs) && '\n' !in okuri
    ensures CleanGroups(ReadGroups(s, gs, okuri).0)
    decreases |s|
  {
    var l := Lex(s);
    match l.token
    case NoToken =>
    case TextToken =>
      EmplaceIsClean(gs, okuri);
      var texts := FindOr(gs, okuri, []) + [l.text];
      var u := Update(gs, okuri, texts);
      UpdateElements(gs, okuri, texts);
      forall i | 0 <= i < |u| ensures '\n' !in u[i].0 && CleanTexts(u[i].1) {
        assert u[i] in u;
      }
      GroupsReadAreClean(l.rest, u, okuri);
    case BeginToken =>
      EmplaceIsClean(gs, l.text);
      GroupsReadAreClean(l.rest, Emplace(gs, l.text), l.text);
    case EndToken =>
      EmplaceIsClean(gs, "");
      GroupsReadAreClean(l.rest, Emplace(gs, ""), "");
  }

  lemma {:induction false} TextsReadAreClean(s: string, texts: Texts)
    requires CleanTexts(texts)
    ensures CleanTexts(ReadTexts(s, texts).0)
    decreases |s|
  {
    var l := Lex(s);
    if l.token == TextToken {
      TextsReadAreClean(l.rest, texts + [l.text]);
    }
  }

  lemma {:induction false} ArisReadAreClean(s: string, aris: Aris)
    requires CleanAris(aris)
    ensures CleanAris(ReadAris(s, aris).0)
    decreases |s|
  {
    if s != "" && s[0] != ';' {
      var (key, rest, found) := ReadKey(s);
      if !found {
        ArisReadAreClean(rest, aris);
      } else {
        FindElements(aris, key);
        var gs0 := FindOr(aris, key, []);
        EmplaceIsClean(gs0, "");
        GroupsReadAreClean(rest, Emplace(gs0, ""), "");
        var (gs, rest') := ReadGroups(rest, Emplace(gs0, ""), "");
        UpdateElements(aris, key, gs);
        var u := Update(aris, key, gs);
        assert CleanAris(u) by {
          forall i | 0 <= i < |u|
            ensures CleanKey(u[i].0) && (u[i].0 != "" ==> u[i].0[0] != ';') && CleanGroups(u[i].1)
          {
            assert u[i] in u;
          }
        }
        ArisReadAreClean(Drop1(rest'), u);
      }
    }
  }

  lemma {:induction false} NashisReadAreClean(s: string, nashis: Nashis)
    requires CleanNashis(nashis)
    ensures CleanNashis(ReadNashis(s, nashis))
    decreases |s|
  {
    if s != "" {
      var (key, rest, found) := ReadKey(s);
      if !found {
        NashisReadAreClean(rest, nashis);
      } else {
        FindElements(nashis, key);
        TextsReadAreClean(rest, FindOr(nashis, key, []));
        var (texts, rest') := ReadTexts(rest, FindOr(nashis, key, []));
        UpdateElements(nashis, key, texts);
        var u := Update(nashis, key, texts);
        assert CleanNashis(u) by {
          forall i | 0 <= i < |u| ensures CleanKey(u[i].0) && CleanTexts(u[i].1) {
            assert u[i] in u;
          }
        }
        NashisReadAreClean(Drop1(rest'), u);
      }
    }
  }

  /** Whatever a file holds, what is loaded from it is clean. */
  lemma LoadedIsClean(data: string)
    ensures Clean(LoadText(data))
  {
    var h := DictionaryFile.HeaderEnd(data, DictionaryFile.HEADER, 0);
    if h.Some? {
      var s := if h.value <= |data| then data[h.value..] else "";
      ArisReadAreClean(s, []);
      NashisReadAreClean(ReadAris(s, []).1, []);
    }
  }

  // Everything that can be read is in order.

  lemma UpdateKeepsGroupsOk(gs: Groups, okuri: string, texts: Texts)
    requires gs == [] || GroupsOk(gs)
    requires gs == [] ==> okuri == ""
    ensures GroupsOk(Update(gs, okuri, texts))
  {
    UpdateKeepsSorted(gs, okuri, texts);
    if gs != [] && okuri != "" {
      assert Less(gs[0].0, okuri);
    }
  }

  lemma EmplaceKeepsGroupsOk(gs: Groups, okuri: string)
    requires gs == [] || GroupsOk(gs)
    requires gs == [] ==> okuri == ""
    ensures GroupsOk(Emplace(gs, okuri))
  {
    UpdateKeepsGroupsOk(gs, okuri, []);
  }

  lemma {:induction false} GroupsReadAreOk(s: string, gs: Groups, okuri: string)
    requires GroupsOk(gs)
    ensures GroupsOk(ReadGroups(s, gs, okuri).0)
    decreases |s|
  {
    assert gs != [];
    hide GroupsOk;
    var l := Lex(s);
    match l.token
    case NoToken =>
    case TextToken =>
      var texts := FindOr(gs, okuri, []) + [l.text];
      UpdateKeepsGroupsOk(gs, okuri, texts);
      GroupsReadAreOk(l.rest, Update(gs, okuri, texts), okuri);
    case BeginToken =>
      EmplaceKeepsGroupsOk(gs, l.text);
      GroupsReadAreOk(l.rest, Emplace(gs, l.text), l.text);
    case EndToken =>
      EmplaceKeepsGroupsOk(gs, "");
      GroupsReadAreOk(l.rest, Emplace(gs, ""), "");
  }

  lemma GroupsFoundAreOk(aris: Aris, key: string)
    requires ArisOk(aris)
    ensures FindOr(aris, key, []) == [] || GroupsOk(FindOr(aris, key, []))
  {
    FindElements(aris, key);
  }

  lemma UpdateKeepsArisOk(aris: Aris, key: string, gs: Groups)
    requires ArisOk(aris) && GroupsOk(gs)
    ensures ArisOk(Update(aris, key, gs))
  {
    hide GroupsOk;
    UpdateKeepsSorted(aris, key, gs);
    UpdateElements(aris, key, gs);
    var u := Update(aris, key, gs);
    forall i | 0 <= i < |u| ensures GroupsOk(u[i].1) {
      assert u[i] in u;
    }
  }

  lemma {:induction false} ArisReadAreOk(s: string, aris: Aris)
    requires ArisOk(aris)
    ensures ArisOk(ReadAris(s, aris).0)
    decreases |s|
  {
    hide ArisOk, GroupsOk;
    if s != "" && s[0] != ';' {
      var (key, rest, found) := ReadKey(s);
      if !found {
        ArisReadAreOk(rest, aris);
      } else {
        var gs0 := FindOr(aris, key, []);
        GroupsFoundAreOk(aris, key);
        EmplaceKeepsGroupsOk(gs0, "");
        GroupsReadAreOk(rest, Emplace(gs0, ""), "");
        var (gs, rest') := ReadGroups(rest, Emplace(gs0, ""), "");
        UpdateKeepsArisOk(aris, key, gs);
        ArisReadAreOk(Drop1(rest'), Update(aris, key, gs));
      }
    }
  }

  lemma {:induction false} NashisReadAreSorted(s: string, nashis: Nashis)
    requires Sorted(nashis)
    ensures Sorted(ReadNashis(s, nashis))
    decreases |s|
  {
    hide Sorted;
    if s != "" {
      var (key, rest, found) := ReadKey(s);
      if !found {
        NashisReadAreSorted(rest, nashis);
      } else {
        var (texts, rest') := ReadTexts(rest, FindOr(nashis, key, []));
        UpdateKeepsSorted(nashis, key, texts);
        NashisReadAreSorted(Drop1(rest'), Update(nashis, key, texts));
      }
    }
  }

  /**
   Whatever a file holds, the maps loaded from it are sorted and every okuri-ari entry has a general
   group, which searching and saving take for granted.
   */
  lemma LoadedIsOk(data: string)
    ensures StoreOk(LoadText(data))
  {
    var h := DictionaryFile.HeaderEnd(data, DictionaryFile.HEADER, 0);
    if h.Some? {
      var s := if h.value <= |data| then data[h.value..] else "";
      ArisReadAreOk(s, []);
      NashisReadAreSorted(ReadAris(s, []).1, []);
    }
  }

  // What was written is read back.

  lemma BuildStartsWithSlash(texts: Texts, t: string)
    requires t != "" && t[0] == '/'
    ensures Build(texts) + t != "" && (Build(texts) + t)[0] == '/'
  {
    if texts == [] { assert Build(texts) + t == t; }
  }

  lemma OneTextReadsBack(text: string, u: string, acc: Texts)
    requires '\n' !in text && u != "" && u[0] == '/'
    ensures ReadTexts("/" + Escape(text) + u, acc) == ReadTexts(u, acc + [text])
  {
    hide Lex, Escape;
    LexText(text, u);
  }

  lemma {:induction false} TextsReadBack(texts: Texts, t: string, acc: Texts)
    requires CleanTexts(texts) && t != "" && t[0] == '/'
    ensures ReadTexts(Build(texts) + t, acc) == ReadTexts(t, acc + texts)
  {
    hide ReadTexts, Escape;
    if texts == [] {
      assert Build(texts) + t == t && acc + texts == acc;
    } else {
      var u := Build(texts[1..]) + t;
      assert Build(texts) + t == "/" + Escape(texts[0]) + u;
      BuildStartsWithSlash(texts[1..], t);
      OneTextReadsBack(texts[0], u, acc);
      TextsReadBack(texts[1..], t, acc + [texts[0]]);
      assert acc + [texts[0]] + texts[1..] == acc + texts;
    }
  }

  lemma OneGroupTextReadsBack(text: string, u: string, gs: Groups, okuri: string, acc: Texts)
    requires '\n' !in text && u != "" && u[0] == '/'
    requires forall i :: 0 <= i < |gs| ==> Less(gs[i].0, okuri)
    ensures ReadGroups("/" + Escape(text) + u, gs + [(okuri, acc)], okuri)
      == ReadGroups(u, gs + [(okuri, acc + [text])], okuri)
  {
    hide Lex, Escape, Update, Find;
    LexText(text, u);
    UpdateLast(gs, okuri, acc, acc + [text]);
  }

  /** Texts are added to the current group, the last one so far. */
  lemma {:induction false} GroupTextsReadBack(texts: Texts, t: string, gs: Groups, okuri: string, acc: Texts)
    requires CleanTexts(texts) && t != "" && t[0] == '/'
    requires forall i :: 0 <= i < |gs| ==> Less(gs[i].0, okuri)
    ensures ReadGroups(Build(texts) + t, gs + [(okuri, acc)], okuri)
      == ReadGroups(t, gs + [(okuri, acc + texts)], okuri)
    decreases |texts|
  {
    hide ReadGroups, Escape, Less;
    if texts == [] {
      assert Build(texts) + t == t && acc + texts == acc;
    } else {
      var u := Build(texts[1..]) + t;
      assert Build(texts) + t == "/" + Escape(texts[0]) + u;
      BuildStartsWithSlash(texts[1..], t);
      OneGroupTextReadsBack(texts[0], u, gs, okuri, acc);
      GroupTextsReadBack(texts[1..], t, gs, okuri, acc + [texts[0]]);
      assert acc + [texts[0]] + texts[1..] == acc + texts;
    }
  }

  lemma GeneralGroupIsFound(gs: Groups)
    requires gs != [] && gs[0].0 == ""
    ensures Find(gs, "") == Some(gs[0].1) && Emplace(gs, "") == gs
  {
  }

  lemma BuildGroupsStartsWithSlash(gs: Groups, t: string)
    requires t != "" && t[0] == '/'
    ensures BuildGroups(gs) + t != "" && (BuildGroups(gs) + t)[0] == '/'
  {
    if gs == [] { assert BuildGroups(gs) + t == t; }
  }

  /** A bracketed group opens, takes its texts and closes again. */
  lemma OneGroupReadsBack(g: (string, Texts), u: string, acc: Groups, okuri: string)
    requires acc != [] && acc[0].0 == "" && IsPlain(g.0) && CleanTexts(g.1) && u != "" && u[0] == '/'
    requires forall i :: 0 <= i < |acc| ==> Less(acc[i].0, g.0)
    ensures ReadGroups("/[" + g.0 + Build(g.1) + "/]" + u, acc, okuri) == ReadGroups(u, acc + [g], "")
  {
    var close := "/]" + u;
    var s := "/[" + g.0 + (Build(g.1) + close);
    assert "/[" + g.0 + Build(g.1) + "/]" + u == s;
    BuildStartsWithSlash(g.1, close);
    LexBegin(g.0, Build(g.1) + close);
    UpdateAtEnds(acc, g.0, []);
    GroupTextsReadBack(g.1, close, acc, g.0, []);
    assert [] + g.1 == g.1;
    LexEnd(u);
    GeneralGroupIsFound(acc + [g]);
    assert acc + [(g.0, g.1)] == acc + [g];
  }

  lemma GroupsEnd(t: string, acc: Groups, okuri: string)
    ensures ReadGroups("/\n" + t, acc, okuri) == (acc, "\n" + t)
  {
    LexLineEnd(t);
  }

  lemma {:induction false} GroupsReadBack(gs: Groups, t: string, acc: Groups, okuri: string)
    requires acc != [] && acc[0].0 == "" && Sorted(acc + gs) && CleanGroups(gs)
    requires forall i :: 0 <= i < |gs| ==> IsPlain(gs[i].0)
    ensures ReadGroups(BuildGroups(gs) + ("/\n" + t), acc, okuri) == (acc + gs, "\n" + t)
    decreases |gs|
  {
    hide ReadGroups, IsPlain, Less, Build;
    if gs == [] {
      assert BuildGroups(gs) + ("/\n" + t) == "/\n" + t && acc + gs == acc;
      GroupsEnd(t, acc, okuri);
    } else {
      var u := BuildGroups(gs[1..]) + ("/\n" + t);
      assert BuildGroups(gs) + ("/\n" + t) == "/[" + gs[0].0 + Build(gs[0].1) + "/]" + u;
      BuildGroupsStartsWithSlash(gs[1..], "/\n" + t);
      FirstIsAbove(acc, gs);
      OneGroupReadsBack(gs[0], u, acc, okuri);
      assert acc + [gs[0]] + gs[1..] == acc + gs;
      GroupsReadBack(gs[1..], t, acc + [gs[0]], "");
    }
  }

  lemma FirstIsAbove<V>(acc: seq<(string, V)>, gs: seq<(string, V)>)
    requires Sorted(acc + gs) && gs != []
    ensures forall i :: 0 <= i < |acc| ==> Less(acc[i].0, gs[0].0)
  {
    forall i | 0 <= i < |acc| ensures Less(acc[i].0, gs[0].0) {
      assert (acc + gs)[i] == acc[i] && (acc + gs)[|acc|] == gs[0];
    }
  }

  lemma LastIsBelow<V>(aris: seq<(string, V)>, acc: seq<(string, V)>)
    requires Sorted(aris + acc) && aris != []
    ensures forall i :: 0 <= i < |acc| ==> Less(aris[|aris| - 1].0, acc[i].0)
  {
    forall i | 0 <= i < |acc| ensures Less(aris[|aris| - 1].0, acc[i].0) {
      assert (aris + acc)[|aris| - 1] == aris[|aris| - 1] && (aris + acc)[|aris| + i] == acc[i];
    }
  }

  lemma {:induction false} KeyReadsBack(key: string, t: string)
    requires CleanKey(key)
    ensures ReadKey(key + " " + t) == (key, t, true)
  {
    if key == "" {
      assert key + " " + t == " " + t;
    } else {
      KeyReadsBack(key[1..], t);
      assert key + " " + t == [key[0]] + (key[1..] + " " + t);
      assert [key[0]] + key[1..] == key;
    }
  }

  /** The texts of one okuri-ari entry, behind its key. */
  lemma EntryReadsBack(gs: Groups, t: string)
    requires GroupsOk(gs) && PlainGroups(gs) && CleanGroups(gs)
    ensures ReadGroups(Build(gs[0].1) + BuildGroups(gs[1..]) + "/\n" + t, Emplace([], ""), "") == (gs, "\n" + t)
  {
    hide ReadGroups, Build, BuildGroups;
    var u := BuildGroups(gs[1..]) + ("/\n" + t);
    assert Build(gs[0].1) + BuildGroups(gs[1..]) + "/\n" + t == Build(gs[0].1) + u;
    BuildGroupsStartsWithSlash(gs[1..], "/\n" + t);
    var none: Groups := [];
    UpdateAtEnds(none, "", []);
    assert Emplace([], "") == none + [("", [])];
    GroupTextsReadBack(gs[0].1, u, none, "", []);
    assert [] + gs[0].1 == gs[0].1;
    assert none + [("", gs[0].1)] == [gs[0]];
    assert [gs[0]] + gs[1..] == gs;
    GroupsReadBack(gs[1..], t, [gs[0]], "");
  }

  lemma AriLineReadsBack(key: string, gs: Groups, t: string, aris: Aris)
    requires CleanKey(key) && (key != "" ==> key[0] != ';') && GroupsOk(gs) && PlainGroups(gs) && CleanGroups(gs)
    requires Find(aris, key) == None
    ensures ReadAris(AriLine(key, gs) + t, aris) == ReadAris(t, Update(aris, key, gs))
  {
    var texts := Build(gs[0].1) + BuildGroups(gs[1..]) + "/\n" + t;
    var s := AriLine(key, gs) + t;
    assert s == key + " " + texts;
    KeyReadsBack(key, texts);
    EntryReadsBack(gs, t);
    assert s != "" && s[0] != ';' by { if key != "" { assert s[0] == key[0]; } }
    assert Drop1("\n" + t) == t;
  }

  lemma SeparatorEndsAris(t: string, acc: Aris)
    ensures ReadAris(SEPARATOR_LINE + t, acc) == (acc, t)
  {
    SeparatorSkips(t);
  }

  /** The descending lines are inserted one by one in front of the larger keys read before. */
  lemma {:induction false} ArisReadBack(aris: Aris, t: string, acc: Aris)
    requires NoEmptyGroups(aris) && Sorted(aris + acc) && CleanAris(aris)
    requires forall i :: 0 <= i < |aris| ==> GroupsOk(aris[i].1) && PlainGroups(aris[i].1)
    ensures ReadAris(AriText(aris) + (SEPARATOR_LINE + t), acc) == (aris + acc, t)
    decreases |aris|
  {
    hide ReadAris, AriLine, Less, GroupsOk, PlainGroups, CleanGroups;
    if aris == [] {
      assert AriText(aris) + (SEPARATOR_LINE + t) == SEPARATOR_LINE + t && aris + acc == acc;
      SeparatorEndsAris(t, acc);
    } else {
      var n := |aris| - 1;
      var u := AriText(aris[..n]) + (SEPARATOR_LINE + t);
      assert AriText(aris) + (SEPARATOR_LINE + t) == AriLine(aris[n].0, aris[n].1) + u;
      LastIsBelow(aris, acc);
      UpdateAtEnds(acc, aris[n].0, aris[n].1);
      AriLineReadsBack(aris[n].0, aris[n].1, u, acc);
      assert aris[..n] + ([(aris[n].0, aris[n].1)] + acc) == aris + acc;
      ArisReadBack(aris[..n], t, [(aris[n].0, aris[n].1)] + acc);
    }
  }

  lemma SeparatorSkips(t: string)
    ensures (SEPARATOR_LINE + t)[0] == ';' && SkipLine((SEPARATOR_LINE + t)[1..]) == t
  {
    hide SkipLine;
    var line := SEPARATOR_LINE[1..|SEPARATOR_LINE| - 1];
    assert '\n' !in line;
    SkipLineIs(line, t);
    assert (SEPARATOR_LINE + t)[1..] == line + "\n" + t;
  }

  lemma {:induction false} SkipLineIs(line: string, t: string)
    requires '\n' !in line
    ensures SkipLine(line + "\n" + t) == t
  {
    if line == "" {
      assert line + "\n" + t == "\n" + t;
    } else {
      assert (line + "\n" + t)[1..] == line[1..] + "\n" + t;
      SkipLineIs(line[1..], t);
    }
  }

  lemma NashiLineReadsBack(key: string, texts: Texts, t: string, nashis: Nashis)
    requires CleanKey(key) && CleanTexts(texts) && Find(nashis, key) == None
    ensures ReadNashis(NashiLine(key, texts) + t, nashis) == ReadNashis(t, Update(nashis, key, texts))
  {
    var line := Build(texts) + ("/\n" + t);
    assert NashiLine(key, texts) + t == key + " " + line;
    KeyReadsBack(key, line);
    TextsReadBack(texts, "/\n" + t, []);
    LexLineEnd(t);
    assert [] + texts == texts;
    assert Drop1("\n" + t) == t;
  }

  lemma {:induction false} NashisReadBack(nashis: Nashis, acc: Nashis)
    requires Sorted(acc + nashis) && CleanNashis(nashis)
    ensures ReadNashis(NashiText(nashis), acc) == acc + nashis
    decreases |nashis|
  {
    if nashis == [] {
      assert acc + nashis == acc;
    } else {
      var key, texts := nashis[0].0, nashis[0].1;
      FirstIsAbove(acc, nashis);
      UpdateAtEnds(acc, key, texts);
      NashiLineReadsBack(key, texts, NashiText(nashis[1..]), acc);
      assert NashiText(nashis) == NashiLine(key, texts) + NashiText(nashis[1..]);
      assert acc + [(key, texts)] + nashis[1..] == acc + nashis;
      hide ReadNashis, NashiLine, NashiText, Less, Update, Find;
      NashisReadBack(nashis[1..], acc + [(key, texts)]);
    }
  }

  lemma CleanReadsBack(d: Store)
    requires StoreOk(d) && PlainOkuris(d) && Clean(d)
    ensures LoadText(SaveText(d)) == d
  {
    hide ReadAris, ReadNashis, AriText, NashiText, DictionaryFile.HeaderEnd, Clean;
    var rest := AriText(d.aris) + (SEPARATOR_LINE + NashiText(d.nashis));
    Regroup(DictionaryFile.HEADER + "\n", AriText(d.aris), SEPARATOR_LINE, NashiText(d.nashis));
    HeaderReadsBack(rest);
    PartsReadBack(d);
  }

  lemma PartsReadBack(d: Store)
    requires StoreOk(d) && PlainOkuris(d) && Clean(d)
    ensures ReadAris(AriText(d.aris) + (SEPARATOR_LINE + NashiText(d.nashis)), []) == (d.aris, NashiText(d.nashis))
    ensures ReadNashis(NashiText(d.nashis), []) == d.nashis
  {
    hide ReadAris, ReadNashis, AriText, NashiText;
    assert d.aris + [] == d.aris && [] + d.nashis == d.nashis;
    ArisReadBack(d.aris, NashiText(d.nashis), []);
    NashisReadBack(d.nashis, []);
  }

  lemma Regroup(a: string, b: string, c: string, e: string)
    ensures a + b + c + e == a + (b + (c + e))
  {
  }

  lemma HeaderReadsBack(rest: string)
    ensures var s, h := DictionaryFile.HEADER + "\n" + rest, |DictionaryFile.HEADER| + 1;
            DictionaryFile.HeaderEnd(s, DictionaryFile.HEADER, 0) == Some(h) && s[h..] == rest
  {
    assert DictionaryFile.HeaderHere(DictionaryFile.HEADER + "\n" + rest, DictionaryFile.HEADER, 0);
  }

  // Registering and looking up.

  /** The key of a query: the entry, with the hidden key when okurigana are given. */
  function KeyOf(entry: string, okuri: string): string {
    if okuri == "" then entry else entry + okuri[..1]
  }

  /** f_put: move the text to the front of the list under the key. */
  function Put(m: seq<(string, Texts)>, key: string, text: string): seq<(string, Texts)> {
    Update(m, key, [text] + Without(FindOr(m, key, []), text))
  }

  function Register(d: Store, entry: string, okuri: string, text: string): Store {
    if okuri == "" then d.(nashis := Put(d.nashis, entry, text))
    else
      var key := KeyOf(entry, okuri);
      var gs := Put(Put(FindOr(d.aris, key, []), "", text), okuri[1..], text);
      d.(aris := Update(d.aris, key, gs))
  }

  /** The texts of the private dictionary: those for the okurigana, then the general ones. */
  function PrivateTexts(d: Store, entry: string, okuri: string): Texts {
    if okuri == "" then FindOr(d.nashis, entry, [])
    else
      match Find(d.aris, KeyOf(entry, okuri))
      case None => []
      case Some(gs) => FindOr(gs, okuri[1..], []) + FindOr(gs, "", [])
  }

  lemma PutGroupsOk(gs: Groups, okuri: string, text: string)
    requires gs == [] || GroupsOk(gs)
    requires gs == [] ==> okuri == ""
    ensures GroupsOk(Put(gs, okuri, text))
  {
    var texts := [text] + Without(FindOr(gs, okuri, []), text);
    UpdateKeepsSorted(gs, okuri, texts);
    var r := LowerBound(gs, okuri);
    if gs != [] && okuri != "" {
      assert Less(gs[0].0, okuri);
      assert r > 0;
    }
  }

  /** Registering keeps the maps sorted and a general group in every okuri-ari entry. */
  lemma RegisterKeepsStoreOk(d: Store, entry: string, okuri: string, text: string)
    requires StoreOk(d)
    ensures StoreOk(Register(d, entry, okuri, text))
  {
    if okuri == "" {
      UpdateKeepsSorted(d.nashis, entry, [text] + Without(FindOr(d.nashis, entry, []), text));
    } else {
      var key := KeyOf(entry, okuri);
      var gs0 := FindOr(d.aris, key, []);
      FindElements(d.aris, key);
      assert gs0 == [] || GroupsOk(gs0);
      PutGroupsOk(gs0, "", text);
      PutGroupsOk(Put(gs0, "", text), okuri[1..], text);
      var gs := Put(Put(gs0, "", text), okuri[1..], text);
      UpdateKeepsSorted(d.aris, key, gs);
      UpdateElements(d.aris, key, gs);
      var u := Update(d.aris, key, gs);
      forall i | 0 <= i < |u| ensures GroupsOk(u[i].1) {
        assert u[i] in u;
      }
    }
  }

  /** What was registered last for an entry and its okurigana comes first. */
  lemma RegisteredComesFirst(d: Store, entry: string, okuri: string, text: string)
    requires StoreOk(d)
    ensures var texts := PrivateTexts(Register(d, entry, okuri, text), entry, okuri);
            texts != [] && texts[0] == text
  {
    if okuri == "" {
      FindAfterUpdate(d.nashis, entry, [text] + Without(FindOr(d.nashis, entry, []), text), entry);
    } else {
      var key := KeyOf(entry, okuri);
      var gs0 := FindOr(d.aris, key, []);
      FindElements(d.aris, key);
      assert gs0 == [] || GroupsOk(gs0);
      PutGroupsOk(gs0, "", text);
      var gs1 := Put(gs0, "", text);
      var gs := Put(gs1, okuri[1..], text);
      FindAfterUpdate(gs1, okuri[1..], [text] + Without(FindOr(gs1, okuri[1..], []), text), okuri[1..]);
      FindAfterUpdate(d.aris, key, gs, key);
    }
  }

  /** Registering without okurigana changes no other key, and keeps the order of the other texts of its own. */
  lemma RegisterMovesToFront(d: Store, entry: string, text: string, other: string)
    requires Sorted(d.nashis)
    ensures var r := Register(d, entry, "", text);
            && r.aris == d.aris
            && FindOr(r.nashis, other, [])
               == if other == entry then [text] + Without(FindOr(d.nashis, entry, []), text)
                 else FindOr(d.nashis, other, [])
  {
    FindAfterUpdate(d.nashis, entry, [text] + Without(FindOr(d.nashis, entry, []), text), other);
  }

  /** The texts of an okuri-ari entry for one okurigana, the general ones for none. */
  function AriTexts(d: Store, key: string, name: string): Texts {
    FindOr(FindOr(d.aris, key, []), name, [])
  }

  lemma PutMovesToFront(gs: Groups, okuri: string, text: string, name: string)
    requires Sorted(gs)
    ensures FindOr(Put(gs, okuri, text), name, [])
         == if name == okuri then [text] + Without(FindOr(gs, okuri, []), text) else FindOr(gs, name, [])
  {
    FindAfterUpdate(gs, okuri, [text] + Without(FindOr(gs, okuri, []), text), name);
  }

  lemma {:induction false} WithoutTwice(texts: Texts, text: string)
    ensures Without(Without(texts, text), text) == Without(texts, text)
    ensures Without([text] + Without(texts, text), text) == Without(texts, text)
  {
    if texts != [] {
      WithoutTwice(texts[1..], text);
      var rest := Without(texts[1..], text);
      if texts[0] != text {
        assert ([texts[0]] + rest)[1..] == rest;
      } else {
        assert [] + rest == rest;
      }
    }
    var less := Without(texts, text);
    assert ([text] + less)[1..] == less && [] + Without(less, text) == Without(less, text);
  }

  /**
   Registering with okurigana moves the text to the front twice, among the general texts of the entry
   and among those for its okurigana, and leaves every other list of texts as it is.
   */
  lemma RegisterMovesBothToFront(d: Store, entry: string, okuri: string, text: string, key: string, name: string)
    requires StoreOk(d) && okuri != ""
    ensures var r := Register(d, entry, okuri, text);
            && r.nashis == d.nashis
            && AriTexts(r, key, name)
               == if key == KeyOf(entry, okuri) && (name == "" || name == okuri[1..])
                  then [text] + Without(AriTexts(d, key, name), text)
                  else AriTexts(d, key, name)
  {
    var own := KeyOf(entry, okuri);
    var gs0 := FindOr(d.aris, own, []);
    GroupsFoundAreOk(d.aris, own);
    PutGroupsOk(gs0, "", text);
    var gs1 := Put(gs0, "", text);
    var gs := Put(gs1, okuri[1..], text);
    FindAfterUpdate(d.aris, own, gs, key);
    if key == own {
      hide Put, Without, Find;
      PutMovesToFront(gs0, "", text, name);
      PutMovesToFront(gs0, "", text, okuri[1..]);
      PutMovesToFront(gs1, okuri[1..], text, name);
      WithoutTwice(FindOr(gs0, "", []), text);
    }
  }

  // The public dictionaries: files with annotations, only searched.

  /** The candidates of one line, as far as they are plain texts. */
  function ItemsAt(s: string): seq<Item>
    decreases |s|
  {
    var l := Lex(s);
    if l.token == TextToken then [Item(l.text, l.annotation)] + ItemsAt(l.rest) else []
  }

  /** A line of a public file: each text behind a slash, its annotation behind a semicolon. */
  function BuildItems(items: seq<Item>): string {
    if items == [] then ""
    else
      var note := if items[0].annotation == "" then "" else ";" + Escape(items[0].annotation);
      "/" + Escape(items[0].text) + note + BuildItems(items[1..])
  }

  lemma ItemReadsBack(item: Item, u: string)
    requires '\n' !in item.text && '\n' !in item.annotation && u != "" && u[0] == '/'
    ensures var note := if item.annotation == "" then "" else ";" + Escape(item.annotation);
            ItemsAt("/" + Escape(item.text) + note + u) == [item] + ItemsAt(u)
  {
    hide Lex, Escape;
    if item.annotation == "" {
      LexText(item.text, u);
      assert "/" + Escape(item.text) + "" + u == "/" + Escape(item.text) + u;
    } else {
      LexAnnotated(item.text, item.annotation, u);
      assert "/" + Escape(item.text) + (";" + Escape(item.annotation)) + u
        == "/" + Escape(item.text) + ";" + Escape(item.annotation) + u;
    }
  }

  /** Such a line is read as exactly its texts, each with its annotation. */
  lemma {:induction false} ItemsReadBack(items: seq<Item>)
    requires forall i :: 0 <= i < |items| ==> '\n' !in items[i].text && '\n' !in items[i].annotation
    ensures ItemsAt(BuildItems(items) + "/\n") == items
  {
    hide ItemsAt, Escape;
    if items == [] {
      assert "" + "/\n" == "/\n" + "";
      LexLineEnd("");
      NoItemsAt("/\n" + "");
    } else {
      ItemsReadBack(items[1..]);
      var u := BuildItems(items[1..]) + "/\n";
      var note := if items[0].annotation == "" then "" else ";" + Escape(items[0].annotation);
      assert BuildItems(items) + "/\n" == "/" + Escape(items[0].text) + note + u;
      ItemReadsBack(items[0], u);
    }
  }

  lemma NoItemsAt(s: string)
    requires Lex(s).token == NoToken
    ensures ItemsAt(s) == []
  {
  }

  function LineItems(lines: seq<DictionaryFile.Line>, key: string): seq<Item> {
    if lines == [] then []
    else if lines[0].key == key then ItemsAt(lines[0].rest + "\n")
    else LineItems(lines[1..], key)
  }

  function PlainItems(texts: Texts): seq<Item> {
    seq(|texts|, i requires 0 <= i < |texts| => Item(texts[i], ""))
  }

  lemma {:induction false} FieldStopsAtLineEnd(a: string, b: string, semicolon: bool) returns (rest: string)
    requires '\n' !in a
    ensures '\n' !in rest && |rest| <= |a|
    ensures var r := ReadField(a + "\n", semicolon);
            r.1 == rest + "\n" && ReadField(a + "\n" + b, semicolon) == (r.0, r.1 + b, r.2)
    ensures var r := ReadField(a + "\n", semicolon); r.2 ==> rest != "" && rest[0] == r.1[0]
  {
    var s, t := a + "\n", a + "\n" + b;
    if a == "" {
      rest := "";
      assert s == "\n" && t == "\n" + b;
    } else if a[0] == '/' || (semicolon && a[0] == ';') {
      rest := a;
    } else {
      var u := if a[0] == '\\' then a[1..] else a;
      assert Unescaped(s) == u + "\n" && Unescaped(t) == u + "\n" + b;
      if u == "" {
        rest := "";
        assert Unescaped(t) == "\n" + b;
        FieldStops(s, semicolon);
        FieldStops(t, semicolon);
      } else {
        assert u[0] in a;
        rest := FieldStopsAtLineEnd(u[1..], b, semicolon);
        assert (u + "\n")[1..] == u[1..] + "\n" && (u + "\n" + b)[1..] == u[1..] + "\n" + b;
        FieldTakes(s, semicolon);
        FieldTakes(t, semicolon);
      }
    }
  }

  lemma FieldsStopAtLineEnd(token: Token, a: string, b: string) returns (rest: string)
    requires '\n' !in a
    ensures '\n' !in rest && |rest| <= |a|
    ensures var l := LexFields(token, a + "\n");
            l.rest == rest + "\n" && LexFields(token, a + "\n" + b) == l.(rest := l.rest + b)
  {
    hide ReadField;
    rest := FieldStopsAtLineEnd(a, b, true);
    var r := ReadField(a + "\n", true);
    if r.2 && r.1[0] == ';' {
      var a' := rest[1..];
      assert r.1[1..] == a' + "\n" && (r.1 + b)[1..] == a' + "\n" + b;
      rest := FieldStopsAtLineEnd(a', b, false);
    }
  }

  /** The lexer never reads past the end of a line. */
  lemma LexStopsAtLineEnd(a: string, b: string) returns (rest: string)
    requires '\n' !in a
    ensures '\n' !in rest && |rest| <= |a| && (Lex(a + "\n").token != NoToken ==> |rest| < |a|)
    ensures var l := Lex(a + "\n"); l.rest == rest + "\n" && Lex(a + "\n" + b) == l.(rest := l.rest + b)
  {
    hide LexFields;
    var s, t := a + "\n", a + "\n" + b;
    if a == "" {
      rest := "";
      assert s == "\n" && t == "\n" + b;
    } else if a[0] != '/' {
      rest := a;
    } else {
      assert s[1..] == a[1..] + "\n" && t[1..] == a[1..] + "\n" + b;
      if a[1..] == "" {
        rest := "";
        assert t[1..] == "\n" + b;
      } else if a[1] == '[' || a[1] == ']' {
        assert s[2..] == a[2..] + "\n" && t[2..] == a[2..] + "\n" + b;
        rest := FieldsStopAtLineEnd(if a[1] == '[' then BeginToken else EndToken, a[2..], b);
      } else {
        rest := FieldsStopAtLineEnd(TextToken, a[1..], b);
      }
    }
  }

  lemma {:induction false} ItemsStopAtLineEnd(a: string, b: string)
    requires '\n' !in a
    ensures ItemsAt(a + "\n" + b) == ItemsAt(a + "\n")
    decreases |a|
  {
    hide Lex;
    var rest := LexStopsAtLineEnd(a, b);
    if Lex(a + "\n").token == TextToken {
      ItemsStopAtLineEnd(rest, b);
    }
  }

  lemma {:induction false} LineItemsOf(lines: seq<DictionaryFile.Line>, key: string, k: nat)
    requires k < |lines| && lines[k].key == key
    requires forall i, j :: 0 <= i < j < |lines| ==> lines[i].key != lines[j].key
    ensures LineItems(lines, key) == ItemsAt(lines[k].rest + "\n")
  {
    if k > 0 {
      assert forall i :: 0 <= i < |lines| - 1 ==> lines[1..][i] == lines[i + 1];
      LineItemsOf(lines[1..], key, k - 1);
    }
  }

  lemma {:induction false} NoLineItems(lines: seq<DictionaryFile.Line>, key: string)
    requires !DictionaryFile.HasKey(lines, key)
    ensures LineItems(lines, key) == []
  {
    if lines != [] {
      assert lines[0].key != key;
      assert forall i :: 0 <= i < |lines| - 1 ==> lines[1..][i] == lines[i + 1];
      NoLineItems(lines[1..], key);
    }
  }
}
