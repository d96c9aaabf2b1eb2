/**
 The list of candidates (im/dictionary.h and f_add in im/basic_dictionary.cc): texts offered by
 several sources are merged, each text once, with the annotations of all that offered it.
 */
module Candidates {
  datatype Candidate = Candidate(text: string, annotations: seq<string>)

  datatype Item = Item(text: string, annotation: string)

  function IndexOf(cs: seq<Candidate>, text: string): (i: nat)
    ensures i <= |cs|
    ensures i < |cs| ==> cs[i].text == text
    ensures forall j :: 0 <= j < i ==> cs[j].text != text
  {
    if cs == [] || cs[0].text == text then 0 else 1 + IndexOf(cs[1..], text)
  }

  /** f_add: empty texts are skipped, and a known text only gains an annotation. */
  function Add(cs: seq<Candidate>, item: Item): seq<Candidate> {
    if item.text == "" then cs
    else
      var i := IndexOf(cs, item.text);
      var known := if i < |cs| then cs else cs + [Candidate(item.text, [])];
      if item.annotation == "" then known
      else known[i := known[i].(annotations := known[i].annotations + [item.annotation])]
  }

  function Merge(items: seq<Item>): seq<Candidate> {
    if items == [] then [] else Add(Merge(items[..|items| - 1]), items[|items| - 1])
  }

  // What merging means.

  function Without(xs: seq<string>, x: string): seq<string> {
    if xs == [] then []
    else (if xs[0] == x then [] else [xs[0]]) + Without(xs[1..], x)
  }

  /** The first occurrences, in order. */
  function Dedup(xs: seq<string>): seq<string> {
    if xs == [] then [] else [xs[0]] + Without(Dedup(xs[1..]), xs[0])
  }

  function Offered(items: seq<Item>): seq<string> {
    if items == [] then []
    else (if items[0].text == "" then [] else [items[0].text]) + Offered(items[1..])
  }

  /** The annotations given to a text, in order. */
  function AnnotationsOf(items: seq<Item>, text: string): seq<string> {
    if items == [] then []
    else
      var head := if items[0].text == text && items[0].annotation != "" then [items[0].annotation] else [];
      head + AnnotationsOf(items[1..], text)
  }

  function Texts(cs: seq<Candidate>): seq<string> {
    seq(|cs|, i requires 0 <= i < |cs| => cs[i].text)
  }

  lemma {:induction false} WithoutSnoc(xs: seq<string>, y: string, x: string)
    ensures Without(xs + [y], x) == Without(xs, x) + if y == x then [] else [y]
  {
    if xs == [] {
      assert xs + [y] == [y];
    } else {
      assert (xs + [y])[1..] == xs[1..] + [y];
      WithoutSnoc(xs[1..], y, x);
    }
  }

  lemma {:induction false} WithoutElements(xs: seq<string>, x: string)
    ensures forall y :: y in Without(xs, x) <==> y in xs && y != x
  {
    if xs != [] {
      WithoutElements(xs[1..], x);
    }
  }

  lemma {:induction false} DedupElements(xs: seq<string>)
    ensures forall y :: y in Dedup(xs) <==> y in xs
  {
    if xs != [] {
      DedupElements(xs[1..]);
      WithoutElements(Dedup(xs[1..]), xs[0]);
    }
  }

  lemma {:induction false} DedupSnoc(xs: seq<string>, x: string)
    ensures Dedup(xs + [x]) == if x in xs then Dedup(xs) else Dedup(xs) + [x]
  {
    if xs == [] {
      assert xs + [x] == [x];
    } else {
      assert (xs + [x])[1..] == xs[1..] + [x];
      DedupSnoc(xs[1..], x);
      DedupElements(xs[1..]);
      WithoutElements(Dedup(xs[1..]), xs[0]);
      WithoutSnoc(Dedup(xs[1..]), x, xs[0]);
    }
  }

  lemma {:induction false} OfferedSnoc(items: seq<Item>, item: Item)
    ensures Offered(items + [item]) == Offered(items) + if item.text == "" then [] else [item.text]
  {
    if items == [] {
      assert items + [item] == [item];
    } else {
      assert (items + [item])[1..] == items[1..] + [item];
      OfferedSnoc(items[1..], item);
    }
  }

  lemma {:induction false} AnnotationsSnoc(items: seq<Item>, item: Item, text: string)
    ensures AnnotationsOf(items + [item], text)
         == AnnotationsOf(items, text) + if item.text == text && item.annotation != "" then [item.annotation] else []
  {
    if items == [] {
      assert items + [item] == [item];
    } else {
      assert (items + [item])[1..] == items[1..] + [item];
      AnnotationsSnoc(items[1..], item, text);
    }
  }

  lemma {:induction false} UnofferedHasNoAnnotations(items: seq<Item>, text: string)
    requires text != "" && text !in Offered(items)
    ensures AnnotationsOf(items, text) == []
  {
    if items != [] {
      UnofferedHasNoAnnotations(items[1..], text);
    }
  }

  lemma AddTexts(cs: seq<Candidate>, item: Item)
    ensures Texts(Add(cs, item)) == Texts(cs) + if item.text == "" || item.text in Texts(cs) then [] else [item.text]
  {
    var i := IndexOf(cs, item.text);
    if i < |cs| {
      assert Texts(cs)[i] == item.text;
    } else {
      assert forall j :: 0 <= j < |cs| ==> Texts(cs)[j] == cs[j].text;
    }
    assert forall j :: 0 <= j < |cs| ==> Add(cs, item)[j].text == cs[j].text;
  }

  /** Merging is first-occurrence deduplication of the non-empty texts. */
  lemma {:induction false} MergeDedups(items: seq<Item>)
    ensures Texts(Merge(items)) == Dedup(Offered(items))
  {
    if items != [] {
      var n := |items| - 1;
      MergeDedups(items[..n]);
      AddTexts(Merge(items[..n]), items[n]);
      OfferedSnoc(items[..n], items[n]);
      assert items[..n] + [items[n]] == items;
      DedupElements(Offered(items[..n]));
      if items[n].text != "" {
        DedupSnoc(Offered(items[..n]), items[n].text);
      } else {
        assert Offered(items) == Offered(items[..n]);
      }
    }
  }

  lemma {:induction false} OfferedHasNoEmptyText(items: seq<Item>)
    ensures "" !in Offered(items)
  {
    if items != [] {
      OfferedHasNoEmptyText(items[1..]);
    }
  }

  lemma MergedHasNoEmptyText(items: seq<Item>, k: nat)
    requires k < |Merge(items)|
    ensures Merge(items)[k].text != ""
  {
    MergeDedups(items);
    DedupElements(Offered(items));
    OfferedHasNoEmptyText(items);
    assert Texts(Merge(items))[k] == Merge(items)[k].text;
  }

  /** One more item adds its annotation to the candidate with its text, which may be a new one. */
  lemma AddAnnotates(cs: seq<Candidate>, item: Item, k: nat)
    requires k < |Add(cs, item)|
    requires k < |cs| ==> cs[k].text != "" && (cs[k].text == item.text ==> k == IndexOf(cs, item.text))
    ensures var c, note := Add(cs, item)[k], if item.annotation == "" then [] else [item.annotation];
            if k < |cs| then
              && c.text == cs[k].text
              && c.annotations == cs[k].annotations + if item.text == c.text then note else []
            else c == Candidate(item.text, note) && item.text != "" && IndexOf(cs, item.text) == |cs|
  {
    if k < |cs| {
      assert cs[k].annotations + [] == cs[k].annotations;
    } else {
      assert [] + [item.annotation] == [item.annotation];
    }
  }

  lemma NotFound(cs: seq<Candidate>, text: string)
    requires IndexOf(cs, text) == |cs|
    ensures text !in Texts(cs)
  {
  }

  /** Each candidate carries the annotations of every item that offered its text, in order. */
  lemma {:induction false} MergeAnnotates(items: seq<Item>, k: nat)
    requires k < |Merge(items)|
    ensures var c := Merge(items)[k]; c.annotations == AnnotationsOf(items, c.text)
  {
    if items != [] {
      var n := |items| - 1;
      var cs, item := Merge(items[..n]), items[n];
      assert items[..n] + [item] == items;
      AnnotationsSnoc(items[..n], item, Merge(items)[k].text);
      assert Merge(items) == Add(cs, item);
      hide Add, Merge, IndexOf, AnnotationsOf, Texts, Offered, Dedup;
      if k < |cs| {
        MergeAnnotates(items[..n], k);
        MergedHasNoEmptyText(items[..n], k);
        TextsDiffer(items[..n], k, IndexOf(cs, item.text));
        AddAnnotates(cs, item, k);
      } else {
        AddAnnotates(cs, item, k);
        NotFound(cs, item.text);
        MergeDedups(items[..n]);
        DedupElements(Offered(items[..n]));
        UnofferedHasNoAnnotations(items[..n], item.text);
      }
    }
  }

  lemma {:induction false} DedupDistinct(xs: seq<string>, i: nat, j: nat)
    requires i < j < |Dedup(xs)|
    ensures Dedup(xs)[i] != Dedup(xs)[j]
  {
    var rest := Dedup(xs[1..]);
    WithoutElements(rest, xs[0]);
    if i == 0 {
      assert Dedup(xs)[j] in Without(rest, xs[0]);
    } else {
      WithoutDistinct(rest, xs[0], i - 1, j - 1);
      forall a, b | 0 <= a < b < |rest| ensures rest[a] != rest[b] {
        DedupDistinct(xs[1..], a, b);
      }
    }
  }

  lemma {:induction false} WithoutDistinct(xs: seq<string>, x: string, i: nat, j: nat)
    requires i < j < |Without(xs, x)|
    ensures (forall a, b :: 0 <= a < b < |xs| ==> xs[a] != xs[b]) ==> Without(xs, x)[i] != Without(xs, x)[j]
  {
    if forall a, b :: 0 <= a < b < |xs| ==> xs[a] != xs[b] {
      WithoutElements(xs[1..], x);
      assert forall a, b :: 0 <= a < b < |xs[1..]| ==> xs[1..][a] == xs[a + 1] && xs[1..][b] == xs[b + 1];
      if xs[0] == x {
        WithoutDistinct(xs[1..], x, i, j);
      } else if i == 0 {
        assert Without(xs, x)[j] in Without(xs[1..], x);
      } else {
        WithoutDistinct(xs[1..], x, i - 1, j - 1);
      }
    }
  }

  lemma TextsDiffer(items: seq<Item>, i: nat, j: nat)
    requires i < |Merge(items)|
    ensures j < |Merge(items)| && i != j ==> Merge(items)[i].text != Merge(items)[j].text
  {
    MergeDedups(items);
    var ts := Texts(Merge(items));
    if j < |ts| && i != j {
      DedupDistinct(Offered(items), if i < j then i else j, if i < j then j else i);
      assert ts[i] == Merge(items)[i].text && ts[j] == Merge(items)[j].text;
    }
  }

  /** What is offered first comes first. */
  lemma {:induction false} FirstOfferedIsFirst(items: seq<Item>)
    requires items != [] && items[0].text != ""
    ensures Merge(items) != [] && Merge(items)[0].text == items[0].text
  {
    MergeDedups(items);
    assert Texts(Merge(items))[0] == items[0].text;
  }

  // Items of several sources, one after another.

  lemma {:induction false} OfferedOfTwo(a: seq<Item>, b: seq<Item>)
    ensures Offered(a + b) == Offered(a) + Offered(b)
  {
    if a == [] {
      assert a + b == b;
    } else {
      assert (a + b)[0] == a[0] && (a + b)[1..] == a[1..] + b;
      OfferedOfTwo(a[1..], b);
    }
  }

  lemma {:induction false} AnnotationsOfTwo(a: seq<Item>, b: seq<Item>, text: string)
    ensures AnnotationsOf(a + b, text) == AnnotationsOf(a, text) + AnnotationsOf(b, text)
  {
    if a == [] {
      assert a + b == b;
    } else {
      assert (a + b)[0] == a[0] && (a + b)[1..] == a[1..] + b;
      AnnotationsOfTwo(a[1..], b, text);
    }
  }

  predicate Offers(items: seq<Item>, text: string) {
    exists i :: 0 <= i < |items| && items[i].text == text
  }

  lemma {:induction false} OfferedIs(items: seq<Item>, text: string)
    ensures text in Offered(items) <==> text != "" && Offers(items, text)
  {
    if items != [] {
      OfferedIs(items[1..], text);
      if Offers(items, text) {
        var i :| 0 <= i < |items| && items[i].text == text;
        assert i > 0 ==> items[1..][i - 1].text == text;
      }
      if Offers(items[1..], text) {
        var i :| 0 <= i < |items[1..]| && items[1..][i].text == text;
        assert items[i + 1].text == text;
      }
    }
  }

  predicate HasCandidate(cs: seq<Candidate>, text: string) {
    exists k :: 0 <= k < |cs| && cs[k].text == text
  }

  /** The candidates are exactly the texts offered. */
  lemma MergeFinds(items: seq<Item>, text: string)
    ensures HasCandidate(Merge(items), text) <==> text != "" && Offers(items, text)
  {
    MergeDedups(items);
    DedupElements(Offered(items));
    OfferedIs(items, text);
    var cs := Merge(items);
    assert forall k :: 0 <= k < |cs| ==> Texts(cs)[k] == cs[k].text;
    assert text in Texts(cs) <==> HasCandidate(cs, text);
  }

  lemma {:induction false} DedupOfTwo(a: seq<string>, b: seq<string>)
    ensures Dedup(a) <= Dedup(a + b)
  {
    if b == [] {
      assert a + b == a;
    } else {
      var n := |b| - 1;
      DedupOfTwo(a, b[..n]);
      assert a + b[..n] + [b[n]] == a + b;
      DedupSnoc(a + b[..n], b[n]);
    }
  }

  /** A text that the first items offer comes before one that they do not. */
  lemma FirstItemsComeFirst(a: seq<Item>, b: seq<Item>, j: nat, k: nat)
    requires j < |Merge(a + b)| && k < |Merge(a + b)|
    requires Offers(a, Merge(a + b)[j].text) && !Offers(a, Merge(a + b)[k].text)
    ensures j < k
  {
    var cs := Merge(a + b);
    MergeDedups(a + b);
    OfferedOfTwo(a, b);
    DedupOfTwo(Offered(a), Offered(b));
    var d := Dedup(Offered(a));
    DedupElements(Offered(a));
    OfferedIs(a, cs[j].text);
    OfferedIs(a, cs[k].text);
    MergedHasNoEmptyText(a + b, j);
    assert forall i :: 0 <= i < |cs| ==> Texts(cs)[i] == cs[i].text;
    var i :| 0 <= i < |d| && d[i] == cs[j].text;
    assert cs[i].text == Texts(cs)[i] == d[i];
    TextsDiffer(a + b, i, j);
    assert cs[k].text !in d && Texts(cs)[k] == cs[k].text;
  }
}
