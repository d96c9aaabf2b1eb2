/**
 The dictionary as the sources run it (im/basic_dictionary.cc): the lexer over a character source,
 loading and saving the private file, registering a choice and searching for candidates.
 */
module Dictionaries {
  import opened Wrappers
  import opened Lexicographic
  import opened OrderedMaps
  import opened DictionaryText
  import opened DictionaryStore
  import opened Candidates
  import DictionaryFile

  const EOF := DictionaryFile.EOF

  /** What was taken and what reading on would give make up what reading the whole gives. */
  ghost predicate Completes(whole: (string, string, bool), taken: string, r: (string, string, bool)) {
    whole.0 == taken + r.0 && whole.1 == r.1 && whole.2 == r.2
  }

  lemma AssocOne(a: string, c: char, b: string)
    ensures a + ([c] + b) == (a + [c]) + b
  {
  }

  /** How a public file is made up. */
  datatype Shape = Shape(header: nat, aris: seq<DictionaryFile.Line>, nashis: seq<DictionaryFile.Line>) {
    ghost predicate Fits(data: string) {
      DictionaryFile.WellFormed(data, header, aris, nashis)
    }

    function Items(key: string, ari: bool): seq<Item> {
      LineItems(if ari then aris else nashis, key)
    }

    /** What lexing from the place that was found gives are the items of the line for the key. */
    lemma ItemsFound(data: string, pos: nat, key: string, ari: bool, found: bool)
      requires Fits(data) && pos <= |data|
      requires found == DictionaryFile.HasKey(Searched(ari), key)
      requires found ==> DictionaryFile.FoundAt(data, pos, Searched(ari), key)
      ensures Items(key, ari) == if found then ItemsAt(data[pos..]) else []
    {
      hide Fits, ItemsAt, LineItems;
      var own := if ari then aris else nashis;
      if found {
        var k :| 0 <= k < |Searched(ari)| && Searched(ari)[k].key == key
          && pos + |Searched(ari)[k].rest| + 1 <= |data|
          && data[pos..pos + |Searched(ari)[k].rest| + 1] == Searched(ari)[k].rest + "\n";
        SearchedIsOk(data, ari, k);
        LineIsLexed(data, pos, Searched(ari)[k].rest);
        if k < |own| {
          assert Searched(ari)[k] == own[k];
          KeysDiffer(data);
          LineItemsOf(own, key, k);
        } else {
          SeparatorHasNoItems();
          SeparatorKeyIsUnused(data);
          NoLineItems(own, key);
        }
      } else {
        assert forall k :: 0 <= k < |own| ==> Searched(ari)[k] == own[k];
        NoLineItems(own, key);
      }
    }

    function Own(ari: bool): seq<DictionaryFile.Line> {
      if ari then aris else nashis
    }

    /** The file has a line for the key, and this text on it. */
    ghost predicate Offers(key: string, ari: bool, text: string) {
      exists k :: 0 <= k < |Own(ari)| && Own(ari)[k].key == key && LineOffers(Own(ari)[k], text)
    }

    static predicate LineOffers(line: DictionaryFile.Line, text: string) {
      Candidates.Offers(ItemsAt(line.rest + "\n"), text)
    }

    /** The annotations the file gives a text, in order. */
    function Notes(key: string, ari: bool, text: string): seq<string> {
      AnnotationsOf(Items(key, ari), text)
    }

    /** The items of the file are those of its line for the key, if there is one. */
    lemma ItemsAreTheLine(data: string, key: string, ari: bool)
      requires Fits(data)
      ensures forall k :: 0 <= k < |Own(ari)| && Own(ari)[k].key == key ==>
                Items(key, ari) == ItemsAt(Own(ari)[k].rest + "\n")
      ensures !DictionaryFile.HasKey(Own(ari), key) ==> Items(key, ari) == []
    {
      KeysDiffer(data);
      forall k | 0 <= k < |Own(ari)| && Own(ari)[k].key == key
        ensures Items(key, ari) == ItemsAt(Own(ari)[k].rest + "\n")
      {
        LineItemsOf(Own(ari), key, k);
      }
      if !DictionaryFile.HasKey(Own(ari), key) {
        NoLineItems(Own(ari), key);
      }
    }

    lemma OffersIs(data: string, key: string, ari: bool, text: string)
      requires Fits(data)
      ensures Offers(key, ari, text) <==> Candidates.Offers(Items(key, ari), text)
    {
      hide Fits, ItemsAt, LineItems;
      ItemsAreTheLine(data, key, ari);
      if Candidates.Offers(Items(key, ari), text) {
        var k :| 0 <= k < |Own(ari)| && Own(ari)[k].key == key;
        assert LineOffers(Own(ari)[k], text);
      }
    }

    function Searched(ari: bool): seq<DictionaryFile.Line> {
      if ari then aris + [DictionaryFile.SEPARATOR] else nashis
    }

    lemma SearchedIsOk(data: string, ari: bool, k: nat)
      requires Fits(data) && k < |Searched(ari)|
      ensures '\n' !in Searched(ari)[k].rest
    {
      var lines := aris + [DictionaryFile.SEPARATOR] + nashis;
      var i := if ari then k else |aris| + 1 + k;
      assert lines[i] == Searched(ari)[k];
      DictionaryFile.LineAt(data, header, lines, |data|, i);
    }

    lemma SeparatorKeyIsUnused(data: string)
      requires Fits(data)
      ensures !DictionaryFile.HasKey(aris, DictionaryFile.SEPARATOR.key)
    {
      var key := DictionaryFile.SEPARATOR.key;
      Trichotomy(key, key);
    }

    static lemma SeparatorHasNoItems()
      ensures ItemsAt(DictionaryFile.SEPARATOR.rest + "\n") == []
    {
      var s := DictionaryFile.SEPARATOR.rest + "\n";
      assert s[0] == 'o';
    }

    static lemma Resume(data: string, pos: nat, line: string)
      requires pos + |line| <= |data| && data[pos..pos + |line|] == line
      ensures data[pos..] == line + data[pos + |line|..]
    {
    }

    static lemma LineIsLexed(data: string, pos: nat, rest: string)
      requires pos + |rest| + 1 <= |data| && data[pos..pos + |rest| + 1] == rest + "\n" && '\n' !in rest
      ensures ItemsAt(data[pos..]) == ItemsAt(rest + "\n")
    {
      hide ItemsAt;
      var b := data[pos + |rest| + 1..];
      Resume(data, pos, rest + "\n");
      assert data[pos..] == rest + "\n" + b;
      hide *;
      ItemsStopAtLineEnd(rest, b);
    }

    lemma KeysDiffer(data: string)
      requires Fits(data)
      ensures forall i, j :: 0 <= i < j < |aris| ==> aris[i].key != aris[j].key
      ensures forall i, j :: 0 <= i < j < |nashis| ==> nashis[i].key != nashis[j].key
    {
      forall i, j | 0 <= i < j < |aris| ensures aris[i].key != aris[j].key {
        Trichotomy(aris[i].key, aris[j].key);
      }
      forall i, j | 0 <= i < j < |nashis| ensures nashis[i].key != nashis[j].key {
        Trichotomy(nashis[i].key, nashis[j].key);
      }
    }
  }

  function PublicItems(shapes: seq<Shape>, key: string, ari: bool): seq<Item> {
    if shapes == [] then [] else shapes[0].Items(key, ari) + PublicItems(shapes[1..], key, ari)
  }

  /** Where a text comes from first: the private texts, and then the public files in turn. */
  ghost function Source(private: Texts, shapes: seq<Shape>, key: string, ari: bool, text: string): nat {
    if text in private then 0 else 1 + FirstFile(shapes, key, ari, text)
  }

  ghost function FirstFile(shapes: seq<Shape>, key: string, ari: bool, text: string): nat {
    if shapes == [] || shapes[0].Offers(key, ari, text) then 0 else 1 + FirstFile(shapes[1..], key, ari, text)
  }

  /** The annotations of all files that offer a text. */
  function AllNotes(shapes: seq<Shape>, key: string, ari: bool, text: string): seq<string> {
    if shapes == [] then [] else shapes[0].Notes(key, ari, text) + AllNotes(shapes[1..], key, ari, text)
  }

  ghost predicate SomeFileOffers(shapes: seq<Shape>, key: string, ari: bool, text: string) {
    exists i :: 0 <= i < |shapes| && shapes[i].Offers(key, ari, text)
  }

  /**
   The candidates of a search: each text that the private dictionary or some file has, those of an
   earlier source first, with the annotations of all files.
   */
  ghost predicate Answers(private: Texts, shapes: seq<Shape>, key: string, ari: bool, cs: seq<Candidate>) {
    && (forall text :: HasCandidate(cs, text) <==>
          text != "" && (text in private || SomeFileOffers(shapes, key, ari, text)))
    && (forall j, k :: 0 <= j < |cs| && 0 <= k < |cs| ==>
          (Source(private, shapes, key, ari, cs[j].text) < Source(private, shapes, key, ari, cs[k].text) ==> j < k))
    && (forall k :: 0 <= k < |cs| ==> cs[k].annotations == AllNotes(shapes, key, ari, cs[k].text))
  }

  ghost predicate AllFit(shapes: seq<Shape>, publics: seq<string>) {
    |shapes| == |publics| && forall i :: 0 <= i < |publics| ==> shapes[i].Fits(publics[i])
  }

  lemma OffersOfTwo(a: seq<Item>, b: seq<Item>, text: string)
    ensures Candidates.Offers(a + b, text) <==> Candidates.Offers(a, text) || Candidates.Offers(b, text)
  {
    var c := a + b;
    if Candidates.Offers(a, text) {
      var i :| 0 <= i < |a| && a[i].text == text;
      assert c[i].text == text;
    }
    if Candidates.Offers(b, text) {
      var i :| 0 <= i < |b| && b[i].text == text;
      assert c[|a| + i].text == text;
    }
  }

  lemma PlainOffers(texts: Texts, text: string)
    ensures Candidates.Offers(PlainItems(texts), text) <==> text in texts
  {
    if text in texts {
      var i :| 0 <= i < |texts| && texts[i] == text;
      assert PlainItems(texts)[i].text == text;
    }
  }

  lemma {:induction false} PlainHasNoNotes(items: seq<Item>, text: string)
    requires forall i :: 0 <= i < |items| ==> items[i].annotation == ""
    ensures AnnotationsOf(items, text) == []
  {
    if items != [] {
      PlainHasNoNotes(items[1..], text);
    }
  }

  lemma {:induction false} PublicOffers(
    shapes: seq<Shape>, publics: seq<string>, key: string, ari: bool, text: string)
    requires AllFit(shapes, publics)
    ensures Candidates.Offers(PublicItems(shapes, key, ari), text) <==> SomeFileOffers(shapes, key, ari, text)
    ensures FirstFile(shapes, key, ari, text) < |shapes| <==> SomeFileOffers(shapes, key, ari, text)
    ensures AnnotationsOf(PublicItems(shapes, key, ari), text) == AllNotes(shapes, key, ari, text)
  {
    hide Shape.Offers, Shape.Items, Shape.Fits, Candidates.Offers;
    if shapes == [] {
      assert !Candidates.Offers([], text) by { NothingOffered(text); }
    } else {
      shapes[0].OffersIs(publics[0], key, ari, text);
      OffersOfTwo(shapes[0].Items(key, ari), PublicItems(shapes[1..], key, ari), text);
      AnnotationsOfTwo(shapes[0].Items(key, ari), PublicItems(shapes[1..], key, ari), text);
      PublicOffers(shapes[1..], publics[1..], key, ari, text);
      SomeFileStep(shapes, key, ari, text);
    }
  }

  lemma NothingOffered(text: string)
    ensures !Candidates.Offers([], text)
  {
  }

  lemma SomeFileStep(shapes: seq<Shape>, key: string, ari: bool, text: string)
    requires shapes != []
    ensures SomeFileOffers(shapes, key, ari, text)
       <==> shapes[0].Offers(key, ari, text) || SomeFileOffers(shapes[1..], key, ari, text)
  {
    hide Shape.Offers;
    if SomeFileOffers(shapes[1..], key, ari, text) {
      var i :| 0 <= i < |shapes[1..]| && shapes[1..][i].Offers(key, ari, text);
      assert shapes[i + 1].Offers(key, ari, text);
    }
    if SomeFileOffers(shapes, key, ari, text) {
      var i :| 0 <= i < |shapes| && shapes[i].Offers(key, ari, text);
      assert i > 0 ==> shapes[1..][i - 1].Offers(key, ari, text);
    }
  }

  lemma {:induction false} PublicOfTwo(a: seq<Shape>, b: seq<Shape>, key: string, ari: bool)
    ensures PublicItems(a + b, key, ari) == PublicItems(a, key, ari) + PublicItems(b, key, ari)
  {
    if a == [] {
      assert a + b == b;
    } else {
      assert (a + b)[0] == a[0] && (a + b)[1..] == a[1..] + b;
      PublicOfTwo(a[1..], b, key, ari);
    }
  }

  /** The first n files offer a text exactly if the first file that does is among them. */
  lemma {:induction false} FirstFileIs(shapes: seq<Shape>, key: string, ari: bool, text: string, n: nat)
    requires n <= |shapes|
    ensures SomeFileOffers(shapes[..n], key, ari, text) <==> FirstFile(shapes, key, ari, text) < n
  {
    hide Shape.Offers;
    if n > 0 {
      SomeFileStep(shapes[..n], key, ari, text);
      assert shapes[..n][1..] == shapes[1..][..n - 1];
      FirstFileIs(shapes[1..], key, ari, text, n - 1);
    }
  }

  lemma EarlierSourceFirst(
    private: Texts, shapes: seq<Shape>, publics: seq<string>, key: string, ari: bool, j: nat, k: nat)
    requires AllFit(shapes, publics)
    requires var cs := Merge(PlainItems(private) + PublicItems(shapes, key, ari));
             && j < |cs| && k < |cs|
             && Source(private, shapes, key, ari, cs[j].text) < Source(private, shapes, key, ari, cs[k].text)
    ensures j < k
  {
    hide Merge, Shape.Fits, Candidates.Offers, SomeFileOffers, PlainItems;
    var cs := Merge(PlainItems(private) + PublicItems(shapes, key, ari));
    var first, other := cs[j].text, cs[k].text;
    var n := Source(private, shapes, key, ari, first);
    MergeFindsPublic(private, shapes, publics, key, ari, j);
    var a, b := PlainItems(private) + PublicItems(shapes[..n], key, ari), PublicItems(shapes[n..], key, ari);
    assert shapes == shapes[..n] + shapes[n..];
    PublicOfTwo(shapes[..n], shapes[n..], key, ari);
    RegroupItems(PlainItems(private), PublicItems(shapes[..n], key, ari), b);
    assert AllFit(shapes[..n], publics[..n]) by { FirstFit(shapes, publics, n); }
    BothOffer(private, shapes[..n], publics[..n], key, ari, first);
    BothOffer(private, shapes[..n], publics[..n], key, ari, other);
    FirstFileIs(shapes, key, ari, first, n);
    FirstFileIs(shapes, key, ari, other, n);
    FirstItemsComeFirst(a, b, j, k);
  }

  lemma FirstFit(shapes: seq<Shape>, publics: seq<string>, n: nat)
    requires AllFit(shapes, publics) && n <= |shapes|
    ensures AllFit(shapes[..n], publics[..n])
  {
    hide Shape.Fits;
  }

  lemma BothOffer(private: Texts, shapes: seq<Shape>, publics: seq<string>, key: string, ari: bool, text: string)
    requires AllFit(shapes, publics)
    ensures Candidates.Offers(PlainItems(private) + PublicItems(shapes, key, ari), text)
       <==> text in private || SomeFileOffers(shapes, key, ari, text)
  {
    OffersOfTwo(PlainItems(private), PublicItems(shapes, key, ari), text);
    PlainOffers(private, text);
    PublicOffers(shapes, publics, key, ari, text);
  }

  lemma MergeFindsPublic(
    private: Texts, shapes: seq<Shape>, publics: seq<string>, key: string, ari: bool, j: nat)
    requires AllFit(shapes, publics) && j < |Merge(PlainItems(private) + PublicItems(shapes, key, ari))|
    ensures Source(private, shapes, key, ari, Merge(PlainItems(private) + PublicItems(shapes, key, ari))[j].text)
         <= |shapes|
  {
    hide Merge, AllFit, Candidates.Offers, SomeFileOffers, PlainItems, PublicItems, FirstFile;
    var items := PlainItems(private) + PublicItems(shapes, key, ari);
    var text := Merge(items)[j].text;
    MergeFinds(items, text);
    assert HasCandidate(Merge(items), text);
    BothOffer(private, shapes, publics, key, ari, text);
    PublicOffers(shapes, publics, key, ari, text);
  }

  /** What merging the items of all sources gives. */
  lemma MergeAnswers(private: Texts, shapes: seq<Shape>, publics: seq<string>, key: string, ari: bool)
    requires AllFit(shapes, publics)
    ensures Answers(private, shapes, key, ari, Merge(PlainItems(private) + PublicItems(shapes, key, ari)))
  {
    var items := PlainItems(private) + PublicItems(shapes, key, ari);
    var cs := Merge(items);
    hide Merge, AllFit, Candidates.Offers, SomeFileOffers, PlainItems, PublicItems, Source, HasCandidate, AllNotes;
    forall text ensures HasCandidate(cs, text) <==>
              text != "" && (text in private || SomeFileOffers(shapes, key, ari, text))
    {
      MergeFinds(items, text);
      BothOffer(private, shapes, publics, key, ari, text);
    }
    forall j, k | 0 <= j < |cs| && 0 <= k < |cs|
        && Source(private, shapes, key, ari, cs[j].text) < Source(private, shapes, key, ari, cs[k].text)
      ensures j < k
    {
      EarlierSourceFirst(private, shapes, publics, key, ari, j, k);
    }
    forall k | 0 <= k < |cs| ensures cs[k].annotations == AllNotes(shapes, key, ari, cs[k].text) {
      MergeAnnotates(items, k);
      AnnotationsOfTwo(PlainItems(private), PublicItems(shapes, key, ari), cs[k].text);
      PlainNotes(private, cs[k].text);
      PublicOffers(shapes, publics, key, ari, cs[k].text);
    }
  }

  lemma PlainNotes(texts: Texts, text: string)
    ensures AnnotationsOf(PlainItems(texts), text) == []
  {
    PlainHasNoNotes(PlainItems(texts), text);
  }

  /** The index holds exactly the texts of the candidates, each with its place. */
  ghost predicate Indexed(cs: seq<Candidate>, index: map<string, nat>) {
    && (forall t :: t in index ==> index[t] < |cs| && cs[index[t]].text == t)
    && (forall i :: 0 <= i < |cs| ==> cs[i].text in index && index[cs[i].text] == i)
  }

  /** The candidates found before keep their texts and their places. */
  ghost predicate KeepPlaces(cs: seq<Candidate>, r: seq<Candidate>) {
    |cs| <= |r| && forall k :: 0 <= k < |cs| ==> r[k].text == cs[k].text
  }

  lemma AddKeepsPlaces(cs: seq<Candidate>, r: seq<Candidate>, item: Item)
    requires KeepPlaces(cs, r)
    ensures KeepPlaces(cs, Add(r, item))
  {
  }

  lemma MergeSnoc(items: seq<Item>, item: Item)
    ensures Merge(items + [item]) == Add(Merge(items), item)
  {
    assert (items + [item])[..|items|] == items;
  }

  lemma OneMorePlainItem(items: seq<Item>, texts: Texts, i: nat)
    requires i < |texts|
    ensures items + PlainItems(texts[..i]) + [Item(texts[i], "")] == items + PlainItems(texts[..i + 1])
  {
    assert PlainItems(texts[..i]) + [Item(texts[i], "")] == PlainItems(texts[..i + 1]);
  }

  lemma RegroupItems(a: seq<Item>, b: seq<Item>, c: seq<Item>)
    ensures (a + b) + c == a + (b + c)
  {
  }

  lemma GeneralIsThere(d: Store, key: string)
    requires StoreOk(d) && Find(d.aris, key).Some?
    ensures Find(Find(d.aris, key).value, "").Some?
  {
    FindElements(d.aris, key);
    GeneralGroupIsFound(Find(d.aris, key).value);
  }

  lemma PrivateItemsAre(d: Store, entry: string, okuri: string)
    ensures okuri == "" ==>
              PlainItems(PrivateTexts(d, entry, okuri)) == [] + PlainItems(FindOr(d.nashis, entry, []))
    ensures okuri != "" ==>
              var gs := Find(d.aris, entry + okuri[..1]);
              PlainItems(PrivateTexts(d, entry, okuri))
              == if gs.None? then []
                 else PlainItems(FindOr(gs.value, okuri[1..], [])) + PlainItems(FindOr(gs.value, "", []))
  {
  }

  lemma NothingMerged()
    ensures Merge([]) == [] && PlainItems([]) == [] && [] + PlainItems([]) == []
    ensures forall items: seq<Item> {:trigger [] + items} :: [] + items == items
  {
  }

  // Regrouping what was written so far, piece by piece.

  lemma RegroupBuild(start: string, text: string, rest: string)
    ensures (start + text) + rest == start + (text + rest)
  {
  }

  lemma SaveStep(before: string, line: string, rest: string)
    ensures (before + line) + rest == before + (line + rest)
  {
  }

  lemma NashiStep(before: string, key: string, texts: Texts)
    ensures before + key + " " + Build(texts) + "/\n" == before + NashiLine(key, texts)
  {
  }

  lemma GroupStep(before: string, g: (string, Texts), rest: string)
    ensures before + "/[" + g.0 + Build(g.1) + "/]" + rest == before + ("/[" + g.0 + Build(g.1) + "/]" + rest)
  {
  }

  lemma EntryParts(out: string, key: string, gs: Groups)
    requires gs != []
    ensures out + key + " " + Build(gs[0].1) + BuildGroups(gs[1..]) + "/\n" == out + AriLine(key, gs)
  {
  }

  /** t_decoder and t_lexer: c is the character looked at, the last one taken from the source. */
  class Lexer {
    const data: string
    var pos: nat
    var c: int
    var token: Token
    var text: string
    var annotation: string

    constructor (data: string, pos: nat)
      requires pos <= |data|
      ensures this.data == data && this.pos == pos
    {
      this.data, this.pos, c := data, pos, EOF;
      token, text, annotation := NoToken, "", "";
    }

    ghost predicate Valid()
      reads this`pos, this`c
    {
      pos <= |data| && if c == EOF then pos == |data| else 0 < pos && c == data[pos - 1] as int
    }

    /** The character looked at and everything behind it. */
    ghost function Rest(): string
      requires Valid()
      reads this`pos, this`c
    {
      if c == EOF then "" else data[pos - 1..]
    }

    method Source() returns (r: int)
      requires pos <= |data|
      modifies this`pos
      ensures if old(pos) < |data| then r == data[old(pos)] as int && pos == old(pos) + 1
              else r == EOF && pos == old(pos)
    {
      if pos < |data| {
        r := data[pos] as int;
        pos := pos + 1;
      } else {
        r := EOF;
      }
    }

    method Advance()
      requires Valid()
      modifies this`pos, this`c
      ensures Valid() && Rest() == Drop1(old(Rest()))
      ensures pos >= old(pos)
    {
      c := Source();
    }

    /** Take one field; false if the line or the file ended inside it. */
    method TakeField(semicolon: bool) returns (field: string, ended: bool)
      requires Valid()
      modifies this`pos, this`c
      ensures Valid() && pos >= old(pos)
      ensures var r := ReadField(old(Rest()), semicolon); field == r.0 && Rest() == r.1 && ended == r.2
    {
      hide ReadField;
      field := "";
      ghost var whole := ReadField(Rest(), semicolon);
      assert "" + whole.0 == whole.0;
      while c != '/' as int && !(semicolon && c == ';' as int)
        invariant Valid() && pos >= old(pos)
        invariant Completes(whole, field, ReadField(Rest(), semicolon))
        decreases |Rest()|
      {
        ghost var s := Rest();
        if c == '\\' as int {
          Advance();
        }
        if c == EOF || c == '\n' as int {
          FieldStops(s, semicolon);
          assert field + "" == field;
          return field, false;
        }
        FieldTakes(s, semicolon);
        AssocOne(field, c as char, ReadField(Rest()[1..], semicolon).0);
        field := field + [c as char];
        Advance();
      }
      FieldEnds(Rest(), semicolon);
      assert field + "" == field;
      return field, true;
    }

    method Next()
      requires Valid()
      modifies this`pos, this`c, this`token, this`text, this`annotation
      ensures Valid() && pos >= old(pos)
      ensures Holds(Lex(old(Rest())))
    {
      hide Lex, LexFields, ReadField;
      LexCases(Rest());
      token := NoToken;
      if c != '/' as int { return; }
      Advance();
      if c == EOF || c == '\n' as int { return; }
      if c == '[' as int {
        Advance();
        TakeFields(BeginToken);
      } else if c == ']' as int {
        Advance();
        TakeFields(EndToken);
      } else {
        TakeFields(TextToken);
      }
    }

    ghost predicate Holds(l: Lexeme)
      requires Valid()
      reads this
    {
      token == l.token && Rest() == l.rest && (token != NoToken ==> text == l.text && annotation == l.annotation)
    }

    method TakeFields(t: Token)
      requires Valid()
      modifies this`pos, this`c, this`token, this`text, this`annotation
      ensures Valid() && pos >= old(pos)
      ensures token == t && Holds(LexFields(t, old(Rest())))
    {
      hide ReadField, Rest;
      FieldRest(Rest(), true);
      var field, ended := TakeField(true);
      RestStartsHere();
      var note := "";
      if ended && c == ';' as int {
        note := TakeNote();
      }
      token, text, annotation := t, field, note;
    }

    method TakeNote() returns (note: string)
      requires Valid() && c != EOF
      modifies this`pos, this`c
      ensures Valid() && pos >= old(pos)
      ensures note == ReadField(old(Rest())[1..], false).0 && Rest() == ReadField(old(Rest())[1..], false).1
    {
      hide ReadField;
      var ended;
      Advance();
      note, ended := TakeField(false);
    }

    /** The lexer's constructor: look at the next character and lex the first token. */
    method Open()
      requires pos <= |data|
      modifies this
      ensures Valid() && pos >= old(pos)
      ensures Holds(Lex(data[old(pos)..]))
    {
      c := Source();
      Next();
    }

    lemma RestStartsHere()
      requires Valid()
      ensures if c == EOF then Rest() == "" else Rest() != "" && Rest()[0] as int == c
    {
    }

    lemma RestIsBehind()
      requires Valid()
      ensures data[pos..] == Drop1(Rest())
    {
    }

    /** Read a key up to a space, from the character first, which was just taken. */
    method TakeKey(first: int) returns (key: string, found: bool)
      requires 0 < pos <= |data| && first == data[pos - 1] as int
      modifies this`pos
      ensures old(pos) <= pos <= |data|
      ensures var r := ReadKey(old(data[pos - 1..])); key == r.0 && data[pos..] == r.1 && found == r.2
    {
      var w := first;
      key := "";
      ghost var whole := ReadKey(data[pos - 1..]);
      assert "" + whole.0 == whole.0;
      while w != EOF && w != '\n' as int && w != ' ' as int
        invariant old(pos) <= pos <= |data| && if w == EOF then pos == |data| else w == data[pos - 1] as int
        invariant Completes(whole, key, ReadKey(if w == EOF then "" else data[pos - 1..]))
        decreases |data| - pos, if w == EOF then 0 else 1
      {
        ghost var s := data[pos - 1..];
        assert s[0] == w as char && s[1..] == data[pos..];
        ghost var r := ReadKey(s[1..]);
        AssocOne(key, w as char, r.0);
        key := key + [w as char];
        w := Source();
        assert w == EOF ==> data[pos..] == "";
      }
      found := w == ' ' as int;
      assert w != EOF ==> data[pos - 1..][1..] == data[pos..];
      assert w == EOF ==> data[pos..] == "";
      assert key + "" == key;
    }
  }

  class Dictionary {
    var nashis: Nashis
    var aris: Aris

    ghost function Contents(): Store
      reads this
    {
      Store(nashis, aris)
    }

    constructor ()
      ensures Contents() == Store([], [])
    {
      nashis, aris := [], [];
    }

    method Load(data: string)
      modifies this
      ensures Contents() == LoadText(data) && StoreOk(Contents())
    {
      LoadedIsOk(data);
      nashis, aris := [], [];
      var file := new DictionaryFile.File(data);
      var ok := file.SeekHeader(DictionaryFile.HEADER);
      if !ok { return; }
      var lexer := new Lexer(data, file.pos);
      LoadAris(lexer);
      LoadNashis(lexer);
    }

    method LoadAris(lexer: Lexer)
      requires lexer.pos <= |lexer.data|
      modifies this`aris, lexer
      ensures lexer.pos <= |lexer.data|
      ensures (aris, lexer.data[lexer.pos..]) == ReadAris(old(lexer.data[lexer.pos..]), old(aris))
    {
      hide ReadKey, ReadGroups, Update, Find;
      while true
        invariant lexer.pos <= |lexer.data|
        invariant ReadAris(lexer.data[lexer.pos..], aris) == ReadAris(old(lexer.data[lexer.pos..]), old(aris))
        decreases |lexer.data| - lexer.pos
      {
        ghost var s := lexer.data[lexer.pos..];
        var c := lexer.Source();
        if c == EOF { break; }
        if c == ';' as int {
          SkipRest(lexer);
          break;
        }
        assert lexer.data[lexer.pos - 1..] == s;
        var key, found := lexer.TakeKey(c);
        if found {
          var gs := LoadGroups(lexer, Emplace(FindOr(aris, key, []), ""));
          aris := Update(aris, key, gs);
        }
      }
    }

    method SkipRest(lexer: Lexer)
      requires lexer.pos <= |lexer.data|
      modifies lexer`pos
      ensures lexer.pos <= |lexer.data| && lexer.data[lexer.pos..] == SkipLine(old(lexer.data[lexer.pos..]))
    {
      var c := lexer.Source();
      while c != EOF && c != '\n' as int
        invariant lexer.pos <= |lexer.data|
        invariant if c == EOF then lexer.pos == |lexer.data|
                  else 0 < lexer.pos && c == lexer.data[lexer.pos - 1] as int
        invariant SkipLine(if c == EOF then "" else lexer.data[lexer.pos - 1..])
          == SkipLine(old(lexer.data[lexer.pos..]))
        decreases |lexer.data| - lexer.pos, if c == EOF then 0 else 1
      {
        assert lexer.data[lexer.pos - 1..][1..] == lexer.data[lexer.pos..];
        c := lexer.Source();
        assert c == EOF ==> lexer.data[lexer.pos..] == "";
      }
      assert c != EOF ==> lexer.data[lexer.pos - 1..][1..] == lexer.data[lexer.pos..];
    }

    method LoadGroups(lexer: Lexer, gs0: Groups) returns (gs: Groups)
      requires lexer.pos <= |lexer.data|
      modifies lexer
      ensures old(lexer.pos) <= lexer.pos <= |lexer.data|
      ensures var r := ReadGroups(old(lexer.data[lexer.pos..]), gs0, "");
              gs == r.0 && lexer.data[lexer.pos..] == Drop1(r.1)
    {
      hide Lex, Update, Find;
      ghost var s := lexer.data[lexer.pos..];
      gs := gs0;
      var okuri := "";
      lexer.Open();
      while lexer.token != NoToken
        invariant lexer.Valid() && lexer.Holds(Lex(s)) && old(lexer.pos) <= lexer.pos
        invariant ReadGroups(old(lexer.data[lexer.pos..]), gs0, "") == ReadGroups(s, gs, okuri)
        decreases |s|
      {
        s := lexer.Rest();
        match lexer.token {
          case TextToken =>
            gs := Update(gs, okuri, FindOr(gs, okuri, []) + [lexer.text]);
          case BeginToken =>
            okuri := lexer.text;
            gs := Emplace(gs, okuri);
          case EndToken =>
            okuri := "";
            gs := Emplace(gs, okuri);
        }
        lexer.Next();
      }
      lexer.RestIsBehind();
    }

    method LoadTexts(lexer: Lexer, texts0: Texts) returns (texts: Texts)
      requires lexer.pos <= |lexer.data|
      modifies lexer
      ensures old(lexer.pos) <= lexer.pos <= |lexer.data|
      ensures var r := ReadTexts(old(lexer.data[lexer.pos..]), texts0);
              texts == r.0 && lexer.data[lexer.pos..] == Drop1(r.1)
    {
      hide Lex;
      ghost var s := lexer.data[lexer.pos..];
      texts := texts0;
      lexer.Open();
      while lexer.token == TextToken
        invariant lexer.Valid() && lexer.Holds(Lex(s)) && old(lexer.pos) <= lexer.pos
        invariant ReadTexts(old(lexer.data[lexer.pos..]), texts0) == ReadTexts(s, texts)
        decreases |s|
      {
        s := lexer.Rest();
        texts := texts + [lexer.text];
        lexer.Next();
      }
      lexer.RestIsBehind();
    }

    method LoadNashis(lexer: Lexer)
      requires lexer.pos <= |lexer.data|
      modifies this`nashis, lexer
      ensures nashis == ReadNashis(old(lexer.data[lexer.pos..]), old(nashis))
    {
      hide ReadKey, ReadTexts, Update, Find;
      while true
        invariant lexer.pos <= |lexer.data|
        invariant ReadNashis(lexer.data[lexer.pos..], nashis) == ReadNashis(old(lexer.data[lexer.pos..]), old(nashis))
        decreases |lexer.data| - lexer.pos
      {
        ghost var s := lexer.data[lexer.pos..];
        var c := lexer.Source();
        if c == EOF { break; }
        assert lexer.data[lexer.pos - 1..] == s;
        var key, found := lexer.TakeKey(c);
        if found {
          var texts := LoadTexts(lexer, FindOr(nashis, key, []));
          nashis := Update(nashis, key, texts);
        }
      }
    }

    /** f_build: write each text behind a slash, escaping what the lexer would take for syntax. */
    method BuildTexts(out0: string, texts: Texts) returns (out: string)
      ensures out == out0 + Build(texts)
    {
      out := out0;
      for i := 0 to |texts|
        invariant out + Build(texts[i..]) == out0 + Build(texts)
      {
        var x := texts[i];
        assert Build(texts[i..]) == "/" + Escape(x) + Build(texts[i + 1..]) by {
          assert texts[i..][1..] == texts[i + 1..];
        }
        ghost var start := out + "/";
        out := out + "/";
        for j := 0 to |x|
          invariant out + Escape(x[j..]) == start + Escape(x)
        {
          assert x[j..][1..] == x[j + 1..];
          if IsSpecial(x[j]) {
            assert out + Escape(x[j..]) == out + "\\" + [x[j]] + Escape(x[j + 1..]);
            out := out + "\\";
          } else {
            assert out + Escape(x[j..]) == out + [x[j]] + Escape(x[j + 1..]);
          }
          out := out + [x[j]];
        }
        assert x[|x|..] == "" && out + "" == out;
        RegroupBuild(start, Escape(x), Build(texts[i + 1..]));
      }
      assert texts[|texts|..] == [] && out + "" == out;
    }

    method Save() returns (file: string)
      requires NoEmptyGroups(aris)
      ensures file == SaveText(Contents())
    {
      hide AriLine, NashiLine;
      file := DictionaryFile.HEADER + "\n";
      ghost var header := file;
      assert aris[..|aris|] == aris;
      for i := |aris| downto 0
        invariant file + AriText(aris[..i]) == header + AriText(aris)
      {
        ghost var before := file;
        file := SaveEntry(file, aris[i].0, aris[i].1);
        assert aris[..i + 1][..i] == aris[..i];
        SaveStep(before, AriLine(aris[i].0, aris[i].1), AriText(aris[..i]));
      }
      assert file + "" == file;
      file := file + SEPARATOR_LINE;
      ghost var half := file;
      for i := 0 to |nashis|
        invariant file + NashiText(nashis[i..]) == half + NashiText(nashis)
      {
        ghost var before := file;
        file := file + nashis[i].0 + " ";
        file := BuildTexts(file, nashis[i].1);
        file := file + "/\n";
        NashiStep(before, nashis[i].0, nashis[i].1);
        assert nashis[i..][1..] == nashis[i + 1..];
        SaveStep(before, NashiLine(nashis[i].0, nashis[i].1), NashiText(nashis[i + 1..]));
      }
      assert nashis[|nashis|..] == [] && file + "" == file;
    }

    /** One okuri-ari line: the general texts, then each group in brackets. */
    method SaveEntry(out0: string, key: string, gs: Groups) returns (out: string)
      requires gs != []
      ensures out == out0 + AriLine(key, gs)
    {
      out := BuildTexts(out0 + key + " ", gs[0].1);
      ghost var start := out;
      for j := 1 to |gs|
        invariant out + BuildGroups(gs[j..]) == start + BuildGroups(gs[1..])
      {
        ghost var before := out;
        out := BuildTexts(out + "/[" + gs[j].0, gs[j].1);
        out := out + "/]";
        assert gs[j..][1..] == gs[j + 1..];
        GroupStep(before, gs[j], BuildGroups(gs[j + 1..]));
      }
      assert gs[|gs|..] == [] && out + "" == out;
      out := out + "/\n";
      EntryParts(out0, key, gs);
    }

    method Register(entry: string, okuri: string, text: string)
      modifies this
      ensures Contents() == DictionaryStore.Register(old(Contents()), entry, okuri, text)
      ensures old(StoreOk(Contents())) ==> StoreOk(Contents())
    {
      ghost var before := Contents();
      if StoreOk(before) {
        RegisterKeepsStoreOk(before, entry, okuri, text);
      }
      if okuri != "" {
        var key := entry + okuri[..1];
        var gs := FindOr(aris, key, []);
        gs := Put(gs, "", text);
        gs := Put(gs, okuri[1..], text);
        aris := Update(aris, key, gs);
      } else {
        nashis := Put(nashis, entry, text);
      }
    }

    /** Candidates for an entry: the private texts first, then those of each public file in turn. */
    method Search(entry: string, okuri: string, publics: seq<string>, ghost shapes: seq<Shape>)
      returns (cs: seq<Candidate>)
      requires StoreOk(Contents()) && |shapes| == |publics|
      requires forall i :: 0 <= i < |publics| ==> shapes[i].Fits(publics[i])
      ensures cs == Merge(PlainItems(PrivateTexts(Contents(), entry, okuri))
          + PublicItems(shapes, KeyOf(entry, okuri), okuri != ""))
      ensures Answers(PrivateTexts(Contents(), entry, okuri), shapes, KeyOf(entry, okuri), okuri != "", cs)
    {
      MergeAnswers(PrivateTexts(Contents(), entry, okuri), shapes, publics, KeyOf(entry, okuri), okuri != "");
      hide Merge, PrivateTexts, PlainItems, Indexed, StoreOk, Answers;
      var index;
      cs, index := SearchPrivate(entry, okuri);
      ghost var private := PlainItems(PrivateTexts(Contents(), entry, okuri));
      ghost var items := private;
      var key, ari := if okuri == "" then entry else entry + okuri[..1], okuri != "";
      for i := 0 to |publics|
        invariant Indexed(cs, index) && cs == Merge(items)
        invariant items + PublicItems(shapes[i..], key, ari) == private + PublicItems(shapes, key, ari)
      {
        assert shapes[i..][1..] == shapes[i + 1..];
        cs, index := SearchPublic(publics[i], key, ari, shapes[i], cs, index, items);
        RegroupItems(items, shapes[i].Items(key, ari), PublicItems(shapes[i + 1..], key, ari));
        items := items + shapes[i].Items(key, ari);
      }
      assert shapes[|publics|..] == [] && items + [] == items;
    }

    method SearchPrivate(entry: string, okuri: string) returns (cs: seq<Candidate>, index: map<string, nat>)
      requires StoreOk(Contents())
      ensures Indexed(cs, index) && cs == Merge(PlainItems(PrivateTexts(Contents(), entry, okuri)))
    {
      hide Merge, PrivateTexts, PlainItems, StoreOk;
      cs, index := [], map[];
      NothingMerged();
      PrivateItemsAre(Contents(), entry, okuri);
      if okuri != "" {
        var gs := Find(aris, entry + okuri[..1]);
        if gs.Some? {
          var specific := Find(gs.value, okuri[1..]);
          if specific.Some? {
            cs, index := AddTexts(cs, index, specific.value, []);
          }
          GeneralIsThere(Contents(), entry + okuri[..1]);
          cs, index := AddTexts(cs, index, Find(gs.value, "").value, PlainItems(FindOr(gs.value, okuri[1..], [])));
        }
      } else {
        var texts := Find(nashis, entry);
        if texts.Some? {
          cs, index := AddTexts(cs, index, texts.value, []);
        }
      }
    }

    /** f_search on one file: every text of the line that was found, with its annotation. */
    static method SearchPublic(
      data: string, key: string, ari: bool, ghost shape: Shape, cs0: seq<Candidate>, index0: map<string, nat>,
      ghost items0: seq<Item>)
      returns (cs: seq<Candidate>, index: map<string, nat>)
      requires shape.Fits(data) && Indexed(cs0, index0) && cs0 == Merge(items0)
      ensures Indexed(cs, index) && cs == Merge(items0 + shape.Items(key, ari))
      ensures KeepPlaces(cs0, cs)
    {
      hide Lex;
      cs, index := cs0, index0;
      ghost var items := items0;
      var file := new DictionaryFile.File(data);
      var found := file.SeekKey(key, ari, shape.header, shape.aris, shape.nashis);
      shape.ItemsFound(data, file.pos, key, ari, found);
      if !found {
        assert items0 + [] == items0;
        return;
      }
      var lexer := new Lexer(data, file.pos);
      ghost var s := data[file.pos..];
      lexer.Open();
      while lexer.token == TextToken
        invariant lexer.Valid() && lexer.Holds(Lex(s))
        invariant Indexed(cs, index) && cs == Merge(items) && KeepPlaces(cs0, cs)
        invariant items + ItemsAt(s) == items0 + shape.Items(key, ari)
        decreases |s|
      {
        ghost var item := Item(lexer.text, lexer.annotation);
        s := lexer.Rest();
        AddKeepsPlaces(cs0, cs, item);
        cs, index := AddItem(cs, index, lexer.text, lexer.annotation);
        MergeSnoc(items, item);
        RegroupItems(items, [item], ItemsAt(s));
        items := items + [item];
        lexer.Next();
      }
      assert items + [] == items;
    }

    static method AddTexts(cs0: seq<Candidate>, index0: map<string, nat>, texts: Texts, ghost items: seq<Item>)
      returns (cs: seq<Candidate>, index: map<string, nat>)
      requires Indexed(cs0, index0) && cs0 == Merge(items)
      ensures Indexed(cs, index) && cs == Merge(items + PlainItems(texts))
    {
      hide Merge, Add, Indexed;
      cs, index := cs0, index0;
      assert items + PlainItems(texts[..0]) == items;
      for i := 0 to |texts|
        invariant Indexed(cs, index) && cs == Merge(items + PlainItems(texts[..i]))
      {
        cs, index := AddItem(cs, index, texts[i], "");
        MergeSnoc(items + PlainItems(texts[..i]), Item(texts[i], ""));
        OneMorePlainItem(items, texts, i);
      }
      assert texts[..|texts|] == texts;
    }

    /** f_add: the index leads from a text to the place of its candidate. */
    static method AddItem(cs0: seq<Candidate>, index0: map<string, nat>, text: string, annotation: string)
      returns (cs: seq<Candidate>, index: map<string, nat>)
      requires Indexed(cs0, index0)
      ensures Indexed(cs, index) && cs == Add(cs0, Item(text, annotation))
    {
      cs, index := cs0, index0;
      if text == "" { return; }
      if text !in index {
        cs := cs + [Candidate(text, [])];
        index := index[text := |cs| - 1];
      }
      if annotation != "" {
        var i := index[text];
        cs := cs[i := cs[i].(annotations := cs[i].annotations + [annotation])];
      }
    }
  }
}
