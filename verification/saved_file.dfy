/**
 The private dictionary as it was saved is itself a dictionary file (im/basic_dictionary.cc, f_save
 and f_search): its lines lie in the order the search relies on, and the texts are found in it.
 */
module SavedFile {
  import opened Wrappers
  import opened Lexicographic
  import opened OrderedMaps
  import opened DictionaryText
  import opened DictionaryStore
  import opened Candidates
  import opened Dictionaries
  import DictionaryFile

  type Line = DictionaryFile.Line

  function AriRest(gs: Groups): string
    requires gs != []
  {
    Build(gs[0].1) + BuildGroups(gs[1..]) + "/"
  }

  /** The lines of the two halves, as f_save goes through the maps: backwards, and then forwards. */
  function AriLines(aris: Aris): (r: seq<Line>)
    requires NoEmptyGroups(aris)
    ensures |r| == |aris|
    ensures forall i :: 0 <= i < |r| ==>
              var a := aris[|aris| - 1 - i]; r[i] == DictionaryFile.Line(a.0, AriRest(a.1))
  {
    seq(|aris|, i requires 0 <= i < |aris| =>
      DictionaryFile.Line(aris[|aris| - 1 - i].0, AriRest(aris[|aris| - 1 - i].1)))
  }

  function NashiLines(nashis: Nashis): (r: seq<Line>)
    ensures |r| == |nashis|
    ensures forall i :: 0 <= i < |r| ==> r[i] == DictionaryFile.Line(nashis[i].0, Build(nashis[i].1) + "/")
  {
    seq(|nashis|, i requires 0 <= i < |nashis| => DictionaryFile.Line(nashis[i].0, Build(nashis[i].1) + "/"))
  }

  function SavedShape(d: Store): Shape
    requires NoEmptyGroups(d.aris)
  {
    Shape(|DictionaryFile.HEADER| + 1, AriLines(d.aris), NashiLines(d.nashis))
  }

  // The text is those lines.

  function TextOf(lines: seq<Line>): string {
    if lines == [] then "" else lines[0].Text() + TextOf(lines[1..])
  }

  lemma {:induction false} TextOfTwo(a: seq<Line>, b: seq<Line>)
    ensures TextOf(a + b) == TextOf(a) + TextOf(b)
  {
    if a == [] {
      assert a + b == b;
    } else {
      assert (a + b)[0] == a[0] && (a + b)[1..] == a[1..] + b;
      TextOfTwo(a[1..], b);
    }
  }

  lemma {:induction false} AriTextIs(aris: Aris)
    requires NoEmptyGroups(aris)
    ensures AriText(aris) == TextOf(AriLines(aris))
  {
    if aris != [] {
      var n := |aris| - 1;
      AriTextIs(aris[..n]);
      assert AriLines(aris)[1..] == AriLines(aris[..n]);
      AriLineIs(aris[n].0, aris[n].1);
    }
  }

  lemma AriLineIs(key: string, gs: Groups)
    requires gs != []
    ensures AriLine(key, gs) == DictionaryFile.Line(key, AriRest(gs)).Text()
  {
    hide Build, BuildGroups;
    var a, b := Build(gs[0].1), BuildGroups(gs[1..]);
    assert key + " " + a + b + "/\n" == key + " " + (a + b + "/") + "\n";
  }

  lemma {:induction false} NashiTextIs(nashis: Nashis)
    ensures NashiText(nashis) == TextOf(NashiLines(nashis))
  {
    if nashis != [] {
      NashiTextIs(nashis[1..]);
      assert NashiLines(nashis)[1..] == NashiLines(nashis[1..]);
      NashiLineIs(nashis[0].0, nashis[0].1);
    }
  }

  lemma NashiLineIs(key: string, texts: Texts)
    ensures NashiLine(key, texts) == DictionaryFile.Line(key, Build(texts) + "/").Text()
  {
    hide Build;
    assert key + " " + Build(texts) + "/\n" == key + " " + (Build(texts) + "/") + "\n";
  }

  ghost predicate AllOk(lines: seq<Line>) {
    forall i :: 0 <= i < |lines| ==> lines[i].Ok()
  }

  lemma {:induction false} LinesAreLaid(a: string, lines: seq<Line>)
    requires AllOk(lines)
    ensures DictionaryFile.Laid(a + TextOf(lines), |a|, lines, |a + TextOf(lines)|)
    decreases |lines|
  {
    if lines == [] {
      assert a + "" == a;
    } else {
      var line := lines[0].Text();
      LinesAreLaid(a + line, lines[1..]);
      assert (a + line) + TextOf(lines[1..]) == a + (line + TextOf(lines[1..]));
      assert (a + TextOf(lines))[|a|..|a| + |line|] == line;
    }
  }

  lemma {:induction false} LaidAreOk(s: string, f: nat, lines: seq<Line>, e: nat)
    requires DictionaryFile.Laid(s, f, lines, e)
    ensures AllOk(lines)
    decreases |lines|
  {
    if lines != [] {
      LaidAreOk(s, f + |lines[0].Text()|, lines[1..], e);
    }
  }

  // Lines without newlines.

  lemma {:induction false} EscapeAddsNoNewline(text: string)
    ensures '\n' in Escape(text) <==> '\n' in text
  {
    if text != "" {
      EscapeAddsNoNewline(text[1..]);
      assert text == [text[0]] + text[1..];
    }
  }

  lemma {:induction false} BuildAddsNoNewline(texts: Texts)
    ensures '\n' !in Build(texts) <==> CleanTexts(texts)
  {
    if texts != [] {
      EscapeAddsNoNewline(texts[0]);
      BuildAddsNoNewline(texts[1..]);
      assert CleanTexts(texts) <==> '\n' !in texts[0] && CleanTexts(texts[1..]) by {
        assert forall i :: 1 <= i < |texts| ==> texts[i] == texts[1..][i - 1];
      }
    }
  }

  lemma {:induction false} GroupsAddNoNewline(gs: Groups)
    ensures '\n' !in BuildGroups(gs) <==> CleanGroups(gs)
  {
    if gs != [] {
      BuildAddsNoNewline(gs[0].1);
      GroupsAddNoNewline(gs[1..]);
      assert CleanGroups(gs) <==> '\n' !in gs[0].0 && CleanTexts(gs[0].1) && CleanGroups(gs[1..]) by {
        assert forall i :: 1 <= i < |gs| ==> gs[i] == gs[1..][i - 1];
      }
    }
  }

  /** Keys without spaces, no newline anywhere, and the okuri-ari keys above the separator. */
  ghost predicate Fileable(d: Store) {
    && CleanNashis(d.nashis)
    && forall i :: 0 <= i < |d.aris| ==>
         CleanKey(d.aris[i].0) && CleanGroups(d.aris[i].1) && Less(DictionaryFile.SEPARATOR.key, d.aris[i].0)
  }

  lemma AriRestIsOk(gs: Groups)
    requires GroupsOk(gs)
    ensures AriRest(gs) != "" && AriRest(gs)[0] == '/' && ('\n' !in AriRest(gs) <==> CleanGroups(gs))
  {
    BuildAddsNoNewline(gs[0].1);
    GroupsAddNoNewline(gs[1..]);
    BuildGroupsStartsWithSlash(gs[1..], "/");
    BuildStartsWithSlash(gs[0].1, BuildGroups(gs[1..]) + "/");
    var a, b := Build(gs[0].1), BuildGroups(gs[1..]);
    assert AriRest(gs) == a + (b + "/");
    assert CleanGroups(gs) <==> '\n' !in gs[0].0 && CleanTexts(gs[0].1) && CleanGroups(gs[1..]) by {
      assert forall i :: 1 <= i < |gs| ==> gs[i] == gs[1..][i - 1];
    }
  }

  lemma NashiRestIsOk(texts: Texts)
    ensures var rest := Build(texts) + "/"; rest != "" && rest[0] == '/' && ('\n' !in rest <==> CleanTexts(texts))
  {
    BuildAddsNoNewline(texts);
    BuildStartsWithSlash(texts, "/");
  }

  lemma LinesAreOkIff(d: Store)
    requires StoreOk(d)
    ensures AllOk(AriLines(d.aris)) <==>
              forall i :: 0 <= i < |d.aris| ==> CleanKey(d.aris[i].0) && CleanGroups(d.aris[i].1)
    ensures AllOk(NashiLines(d.nashis)) <==> CleanNashis(d.nashis)
    ensures forall i :: 0 <= i < |d.aris| ==> AriLines(d.aris)[i].IsEntry()
    ensures forall i :: 0 <= i < |d.nashis| ==> NashiLines(d.nashis)[i].IsEntry()
  {
    hide Build, AriRest, CleanGroups, CleanTexts;
    var n := |d.aris|;
    forall i | 0 <= i < n
      ensures AriLines(d.aris)[n - 1 - i].Ok() <==> CleanKey(d.aris[i].0) && CleanGroups(d.aris[i].1)
      ensures AriLines(d.aris)[n - 1 - i].IsEntry()
    {
      AriRestIsOk(d.aris[i].1);
    }
    forall i | 0 <= i < |d.nashis|
      ensures NashiLines(d.nashis)[i].Ok() <==> CleanKey(d.nashis[i].0) && CleanTexts(d.nashis[i].1)
      ensures NashiLines(d.nashis)[i].IsEntry()
    {
      NashiRestIsOk(d.nashis[i].1);
    }
    if AllOk(AriLines(d.aris)) {
      forall i | 0 <= i < n ensures CleanKey(d.aris[i].0) && CleanGroups(d.aris[i].1) {
        assert AriLines(d.aris)[n - 1 - i].Ok();
      }
    }
  }

  lemma SeparatorText()
    ensures TextOf([DictionaryFile.SEPARATOR]) == SEPARATOR_LINE
  {
    assert DictionaryFile.SEPARATOR.Text() + "" == SEPARATOR_LINE;
  }

  lemma SavedTextIs(d: Store)
    requires StoreOk(d)
    ensures SaveText(d)
         == (DictionaryFile.HEADER + "\n")
            + TextOf(AriLines(d.aris) + [DictionaryFile.SEPARATOR] + NashiLines(d.nashis))
  {
    var a, b, c := AriLines(d.aris), [DictionaryFile.SEPARATOR], NashiLines(d.nashis);
    SeparatorText();
    hide AriLines, NashiLines, AriText, NashiText, TextOf, GroupsOk;
    AriTextIs(d.aris);
    NashiTextIs(d.nashis);
    TextOfTwo(a + b, c);
    TextOfTwo(a, b);
    Regroup(DictionaryFile.HEADER + "\n", AriText(d.aris), SEPARATOR_LINE, NashiText(d.nashis));
    assert TextOf(a) + SEPARATOR_LINE + TextOf(c) == TextOf(a) + (SEPARATOR_LINE + TextOf(c));
  }

  lemma OrderIsKept(d: Store)
    requires StoreOk(d)
    ensures forall i, j :: 0 <= i < j < |d.aris| ==> Less(AriLines(d.aris)[j].key, AriLines(d.aris)[i].key)
    ensures forall i, j :: 0 <= i < j < |d.nashis| ==> Less(NashiLines(d.nashis)[i].key, NashiLines(d.nashis)[j].key)
  {
    hide Build, AriRest;
  }

  lemma PartsAreOk(a: seq<Line>, b: seq<Line>)
    ensures AllOk(a + [DictionaryFile.SEPARATOR] + b) <==> AllOk(a) && AllOk(b)
  {
    var c := a + [DictionaryFile.SEPARATOR] + b;
    if AllOk(c) {
      assert forall i :: 0 <= i < |a| ==> a[i] == c[i];
      assert forall i :: 0 <= i < |b| ==> b[i] == c[|a| + 1 + i];
    }
  }

  lemma AboveSeparatorIff(d: Store)
    requires StoreOk(d)
    ensures (forall i :: 0 <= i < |d.aris| ==> Less(DictionaryFile.SEPARATOR.key, AriLines(d.aris)[i].key)) <==>
            (forall i :: 0 <= i < |d.aris| ==> Less(DictionaryFile.SEPARATOR.key, d.aris[i].0))
  {
    hide Build, AriRest, Less;
    var n := |d.aris|;
    assert forall i :: 0 <= i < n ==> AriLines(d.aris)[n - 1 - i].key == d.aris[i].0;
    forall i | 0 <= i < n ensures d.aris[n - 1 - i].0 == AriLines(d.aris)[i].key {
    }
  }

  /** What is saved is a dictionary file in the order the search relies on, exactly if the store can be one. */
  lemma SavedIsWellFormed(d: Store)
    requires StoreOk(d)
    ensures SavedShape(d).Fits(SaveText(d)) <==> Fileable(d)
  {
    var a, c, h := AriLines(d.aris), NashiLines(d.nashis), DictionaryFile.HEADER + "\n";
    var lines := a + [DictionaryFile.SEPARATOR] + c;
    SavedTextIs(d);
    HeaderReadsBack(TextOf(lines));
    OrderIsKept(d);
    LinesAreOkIff(d);
    AboveSeparatorIff(d);
    PartsAreOk(a, c);
    hide Less, AllOk, DictionaryFile.Laid, AriLines, NashiLines, CleanNashis, CleanGroups, StoreOk,
      DictionaryFile.HeaderEnd, TextOf, SaveText, Line.Ok, Line.IsEntry;
    if AllOk(lines) {
      LinesAreLaid(h, lines);
    } else if SavedShape(d).Fits(SaveText(d)) {
      LaidAreOk(SaveText(d), |h|, lines, |SaveText(d)|);
    }
  }

  // And the texts are found in it.

  lemma {:induction false} TextsAreItems(texts: Texts, u: string)
    requires CleanTexts(texts) && u != "" && u[0] == '/' && Lex(u).token != TextToken
    ensures ItemsAt(Build(texts) + u) == PlainItems(texts)
  {
    hide Lex, Escape;
    if texts == [] {
      assert Build(texts) + u == u;
    } else {
      var v := Build(texts[1..]) + u;
      BuildStartsWithSlash(texts[1..], u);
      assert Build(texts) + u == "/" + Escape(texts[0]) + v;
      LexText(texts[0], v);
      TextsAreItems(texts[1..], u);
      assert PlainItems(texts) == [Item(texts[0], "")] + PlainItems(texts[1..]);
    }
  }

  lemma GroupsAreNoText(gs: Groups)
    ensures var u := BuildGroups(gs) + "/" + "\n"; u != "" && u[0] == '/' && Lex(u).token != TextToken
  {
    hide Build;
    if gs == [] {
      LexLineEnd("");
      assert "/" + "\n" == "/\n" + "";
    } else {
      var rest := gs[0].0 + Build(gs[0].1) + "/]" + BuildGroups(gs[1..]) + "/" + "\n";
      var u := BuildGroups(gs) + "/" + "\n";
      assert u == "/[" + rest;
      assert u[0] == '/' && u[1] == '[';
    }
  }

  /** Searching a saved file gives the texts of an entry, for a key with a hidden key the general ones. */
  lemma SavedIsSearched(d: Store, key: string)
    requires StoreOk(d) && Fileable(d)
    ensures SavedShape(d).Items(key, false) == PlainItems(FindOr(d.nashis, key, []))
    ensures SavedShape(d).Items(key, true) == PlainItems(AriTexts(d, key, ""))
  {
    SavedIsWellFormed(d);
    NashiIsSearched(d, key);
    AriIsSearched(d, key);
  }

  lemma NothingPlain()
    ensures PlainItems([]) == []
  {
  }

  lemma NashiRestIsItems(texts: Texts)
    requires CleanTexts(texts)
    ensures ItemsAt(Build(texts) + "/" + "\n") == PlainItems(texts)
  {
    hide Build, ItemsAt, PlainItems, Lex, CleanTexts;
    GroupsAreNoText([]);
    assert BuildGroups([]) + "/" + "\n" == "/" + "\n";
    TextsAreItems(texts, "/" + "\n");
    assert Build(texts) + "/" + "\n" == Build(texts) + ("/" + "\n");
  }

  lemma NashiIsSearched(d: Store, key: string)
    requires StoreOk(d) && Fileable(d) && SavedShape(d).Fits(SaveText(d))
    ensures SavedShape(d).Items(key, false) == PlainItems(FindOr(d.nashis, key, []))
  {
    assert NoEmptyGroups(d.aris);
    hide Shape.Fits, Less, Build, ItemsAt, LineItems, StoreOk, CleanTexts, CleanGroups, PlainItems, NoEmptyGroups;
    SavedShape(d).ItemsAreTheLine(SaveText(d), key, false);
    assert Sorted(d.nashis) by { StoreIs(d); }
    FindIsExact(d.nashis, key);
    if i :| 0 <= i < |d.nashis| && d.nashis[i].0 == key {
      assert SavedShape(d).Own(false)[i].key == key;
      NashiRestIsItems(d.nashis[i].1);
    } else {
      NothingPlain();
    }
  }

  lemma StoreIs(d: Store)
    requires StoreOk(d)
    ensures Sorted(d.nashis) && Sorted(d.aris) && forall i :: 0 <= i < |d.aris| ==> GroupsOk(d.aris[i].1)
  {
  }

  lemma GeneralTexts(gs: Groups)
    requires GroupsOk(gs)
    ensures gs != [] && FindOr(gs, "", []) == gs[0].1
  {
    FindIsExact(gs, "");
  }

  lemma AriRestIsItems(gs: Groups)
    requires GroupsOk(gs) && CleanGroups(gs)
    ensures gs != [] && ItemsAt(AriRest(gs) + "\n") == PlainItems(gs[0].1)
  {
    hide Build, BuildGroups, ItemsAt, PlainItems, Lex;
    GroupsAreNoText(gs[1..]);
    TextsAreItems(gs[0].1, BuildGroups(gs[1..]) + "/" + "\n");
    assert AriRest(gs) + "\n" == Build(gs[0].1) + (BuildGroups(gs[1..]) + "/" + "\n");
  }

  lemma AriLineAt(d: Store, i: nat)
    requires NoEmptyGroups(d.aris) && i < |d.aris|
    ensures |SavedShape(d).Own(true)| == |d.aris|
    ensures SavedShape(d).Own(true)[|d.aris| - 1 - i] == DictionaryFile.Line(d.aris[i].0, AriRest(d.aris[i].1))
  {
    hide AriRest;
  }

  lemma NoAriLine(d: Store, key: string)
    requires NoEmptyGroups(d.aris) && forall i :: 0 <= i < |d.aris| ==> d.aris[i].0 != key
    ensures !DictionaryFile.HasKey(SavedShape(d).Own(true), key)
  {
    hide AriRest;
  }

  lemma AriIsSearched(d: Store, key: string)
    requires StoreOk(d) && Fileable(d) && SavedShape(d).Fits(SaveText(d))
    ensures SavedShape(d).Items(key, true) == PlainItems(AriTexts(d, key, ""))
  {
    assert NoEmptyGroups(d.aris);
    StoreIs(d);
    hide Shape.Fits, Less, AriRest, ItemsAt, LineItems, StoreOk, PlainItems, GroupsOk, CleanGroups, NoEmptyGroups,
      SavedShape, Shape.Items, Shape.Own, SaveText;
    SavedShape(d).ItemsAreTheLine(SaveText(d), key, true);
    FindIsExact(d.aris, key);
    if i :| 0 <= i < |d.aris| && d.aris[i].0 == key {
      GeneralTexts(d.aris[i].1);
      AriLineAt(d, i);
      AriRestIsItems(d.aris[i].1);
    } else {
      NoAriLine(d, key);
      NothingPlain();
      NothingFound(key);
    }
  }

  lemma NothingFound(key: string)
    ensures FindOr<Texts>([], key, []) == []
  {
  }

  /** What is learned for an entry that begins with a digit keeps the saved file from being one. */
  lemma DigitEntryIsOutOfOrder()
    ensures var d := Register(Store([], []), "1", "kx", "y"); StoreOk(d) && Clean(d) && !Fileable(d)
  {
    var d := Register(Store([], []), "1", "kx", "y");
    RegisterKeepsStoreOk(Store([], []), "1", "kx", "y");
    assert KeyOf("1", "kx") == "1k";
    assert d.nashis == [] && d.aris == [("1k", [("", ["y"]), ("x", ["y"])])] by { OneRegistered(); }
    assert !Less(";;", "1k");
    assert !Less(DictionaryFile.SEPARATOR.key, d.aris[0].0);
  }

  lemma OneRegistered()
    ensures Register(Store([], []), "1", "kx", "y") == Store([], [("1k", [("", ["y"]), ("x", ["y"])])])
  {
    var none: Groups := [];
    UpdateAtEnds(none, "", ["y"]);
    assert ["y"] + Without([], "y") == ["y"];
    assert none + [("", ["y"])] == [("", ["y"])];
    assert Put(none, "", "y") == [("", ["y"])];
    UpdateAtEnds([("", ["y"])], "x", ["y"]);
    assert Put([("", ["y"])], "x", "y") == [("", ["y"]), ("x", ["y"])];
    assert "kx"[1..] == "x" && "kx"[..1] == "k" && "1" + "k" == "1k";
  }
}
