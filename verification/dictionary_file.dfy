/**
 Looking up a key in a dictionary file by byte offset (im/basic_dictionary.cc, t_file::f_seek).
 The file is a header, the okuri-ari lines in descending order, one separator line, and the
 okuri-nasi lines in ascending order. Lines have any length, so the search halves the offset
 interval and skips to the next line start.
 */
module DictionaryFile {
  import opened Wrappers
  import opened Lexicographic

  const EOF := -1

  const HEADER := ";; okuri-ari entries."

  /** A line is its key, a space, the rest and a newline. */
  datatype Line = Line(key: string, rest: string) {
    function Text(): string {
      key + " " + rest + "\n"
    }

    predicate Ok() {
      ' ' !in key && '\n' !in key && '\n' !in rest && rest != ""
    }

    predicate IsEntry() {
      rest != "" && rest[0] == '/'
    }
  }

  const SEPARATOR := Line(";;", "okuri-nasi entries.")

  /** Where the line after the one that holds offset p begins. */
  function NextLine(d: string, p: nat): (r: nat)
    ensures p <= |d| ==> p <= r <= |d|
    ensures p < |d| ==> p < r
    decreases |d| - p
  {
    if p >= |d| then |d| else if d[p] == '\n' then p + 1 else NextLine(d, p + 1)
  }

  lemma {:induction false} NextLineIs(d: string, p: nat, e: nat)
    requires p < e <= |d| && d[e - 1] == '\n' && forall i :: p <= i < e - 1 ==> d[i] != '\n'
    ensures NextLine(d, p) == e
    decreases e - p
  {
    if p < e - 1 {
      NextLineIs(d, p + 1, e);
    }
  }

  /** The lines lie one after another in d from f to e. */
  ghost predicate Laid(d: string, f: nat, lines: seq<Line>, e: nat)
    decreases |lines|
  {
    if lines == [] then f == e <= |d|
    else
      var n := |lines[0].Text()|;
      lines[0].Ok() && f + n <= |d| && d[f..f + n] == lines[0].Text() && Laid(d, f + n, lines[1..], e)
  }

  /** The offset at which line k begins, for k up to the number of lines. */
  ghost function At(f: nat, lines: seq<Line>, k: nat): nat
    requires k <= |lines|
    decreases |lines|
  {
    if k == 0 then f else At(f + |lines[0].Text()|, lines[1..], k - 1)
  }

  lemma {:induction false} LineAt(d: string, f: nat, lines: seq<Line>, e: nat, k: nat)
    requires Laid(d, f, lines, e) && k < |lines|
    ensures lines[k].Ok()
    ensures At(f, lines, k + 1) == At(f, lines, k) + |lines[k].Text()| <= |d|
    ensures d[At(f, lines, k)..At(f, lines, k + 1)] == lines[k].Text()
    decreases |lines|
  {
    if k > 0 {
      LineAt(d, f + |lines[0].Text()|, lines[1..], e, k - 1);
    }
  }

  lemma {:induction false} LastAt(d: string, f: nat, lines: seq<Line>, e: nat)
    requires Laid(d, f, lines, e)
    ensures At(f, lines, |lines|) == e && f <= e <= |d|
    decreases |lines|
  {
    if lines != [] {
      LastAt(d, f + |lines[0].Text()|, lines[1..], e);
    }
  }

  lemma {:induction false} AtIncreases(f: nat, lines: seq<Line>, i: nat, k: nat)
    requires i <= k <= |lines|
    ensures At(f, lines, i) <= At(f, lines, k)
    ensures i < k ==> At(f, lines, i) < At(f, lines, k)
    decreases |lines|
  {
    if i > 0 {
      AtIncreases(f + |lines[0].Text()|, lines[1..], i - 1, k - 1);
    } else if k > 0 {
      AtIncreases(f + |lines[0].Text()|, lines[1..], 0, k - 1);
    }
  }

  /** From anywhere inside line k the next line start is that of line k + 1. */
  lemma NextLineFrom(d: string, f: nat, lines: seq<Line>, e: nat, k: nat, p: nat)
    requires Laid(d, f, lines, e) && k < |lines|
    requires At(f, lines, k) <= p < At(f, lines, k + 1)
    ensures At(f, lines, k + 1) <= |d| && NextLine(d, p) == At(f, lines, k + 1)
  {
    LineAt(d, f, lines, e, k);
    var s, t, l := At(f, lines, k), At(f, lines, k + 1), lines[k];
    assert forall i :: 0 <= i < t - s ==> d[s + i] == l.Text()[i] by {
      assert forall i :: 0 <= i < t - s ==> d[s..t][i] == d[s + i];
    }
    assert forall i :: s <= i < t ==> d[i] == l.Text()[i - s];
    NextLineIs(d, p, t);
  }

  /** The line that holds offset p. */
  lemma {:induction false} FindLine(d: string, f: nat, lines: seq<Line>, e: nat, p: nat) returns (k: nat)
    requires Laid(d, f, lines, e) && f <= p < e
    ensures k < |lines| && At(f, lines, k) <= p < At(f, lines, k + 1)
    decreases |lines|
  {
    var n := |lines[0].Text()|;
    if p < f + n {
      k := 0;
      assert At(f + n, lines[1..], 0) == f + n;
    } else {
      k := FindLine(d, f + n, lines[1..], e, p);
      k := k + 1;
    }
  }

  // What the two questions asked about a line mean.

  datatype Compare = ForSeparator | ForNashi(key: string) | ForAri(key: string)

  ghost predicate IsEqual(cmp: Compare, lines: seq<Line>, k: nat)
    requires k < |lines|
  {
    if cmp.ForSeparator? then !lines[k].IsEntry() else lines[k].key == cmp.key
  }

  ghost predicate IsGreater(cmp: Compare, lines: seq<Line>, k: nat)
    requires k < |lines|
  {
    match cmp
    case ForSeparator =>
      lines[k].IsEntry() && (k + 1 == |lines| || (lines[k + 1].IsEntry() && Less(lines[k].key, lines[k + 1].key)))
    case ForNashi(key) => Less(key, lines[k].key)
    case ForAri(key) => Less(lines[k].key, key)
  }

  /** Enough for a search by halves: from the match on, and only there, lines are greater. */
  ghost predicate Searchable(cmp: Compare, lines: seq<Line>) {
    && (forall i, j :: 0 <= i < j < |lines| && IsGreater(cmp, lines, i) ==> IsGreater(cmp, lines, j))
    && (forall i, j :: 0 <= i < j < |lines| && IsEqual(cmp, lines, i) ==> IsGreater(cmp, lines, j))
    && (forall i :: 0 <= i < |lines| && IsEqual(cmp, lines, i) ==> !IsGreater(cmp, lines, i))
  }

  /** Where a successful comparison leaves the file: past the space, and past one more character. */
  ghost function After(cmp: Compare, f: nat, lines: seq<Line>, k: nat): nat
    requires k < |lines|
  {
    At(f, lines, k) + |lines[k].key| + if cmp.ForSeparator? then 2 else 1
  }

  /** Line k of the laid lines, character by character. */
  lemma LineChars(d: string, f: nat, lines: seq<Line>, e: nat, k: nat)
    requires Laid(d, f, lines, e) && k < |lines|
    ensures lines[k].Ok()
    ensures var s, l := At(f, lines, k), lines[k];
            && At(f, lines, k + 1) == s + |l.key| + |l.rest| + 2 <= |d|
            && (forall i :: 0 <= i < |l.key| ==> d[s + i] == l.key[i])
            && d[s + |l.key|] == ' ' && d[s + |l.key| + 1] == l.rest[0]
  {
    LineAt(d, f, lines, e, k);
    var s, t, l := At(f, lines, k), At(f, lines, k + 1), lines[k];
    assert forall i :: 0 <= i < t - s ==> d[s..t][i] == d[s + i];
    assert l.Text()[|l.key|] == ' ' && l.Text()[|l.key| + 1] == l.rest[0];
    assert forall i :: 0 <= i < |l.key| ==> l.Text()[i] == l.key[i];
  }

  function KeyEnd(d: string, p: nat): (r: nat)
    ensures p <= |d| ==> p <= r <= |d|
    decreases |d| - p
  {
    if p >= |d| then |d| else if d[p] == ' ' || d[p] == '\n' then p else KeyEnd(d, p + 1)
  }

  lemma {:induction false} KeyEndIs(d: string, p: nat, q: nat)
    requires p <= q < |d| && d[q] == ' ' && forall i :: p <= i < q ==> d[i] != ' ' && d[i] != '\n'
    ensures KeyEnd(d, p) == q
    decreases q - p
  {
    if p < q {
      KeyEndIs(d, p + 1, q);
    }
  }

  /** Reading a key at the start of line k reads its key. */
  lemma KeyOfLine(d: string, f: nat, lines: seq<Line>, e: nat, k: nat)
    requires Laid(d, f, lines, e) && k < |lines|
    ensures var s, q := At(f, lines, k), At(f, lines, k) + |lines[k].key|;
            q < |d| && KeyEnd(d, s) == q && d[q] == ' ' && d[s..q] == lines[k].key
  {
    LineChars(d, f, lines, e, k);
    var s, q := At(f, lines, k), At(f, lines, k) + |lines[k].key|;
    assert forall i :: s <= i < q ==> d[i] == lines[k].key[i - s];
    KeyEndIs(d, s, q);
  }

  /** The end of the search interval when line j is the first one known to be too far. */
  ghost function Limit(f: nat, lines: seq<Line>, to: nat, j: nat): nat
    requires j <= |lines|
  {
    if j == |lines| then to else At(f, lines, j)
  }

  /** An offset between line start i and the limit lies in a line m from i on and before j. */
  lemma LineInside(d: string, f: nat, lines: seq<Line>, e: nat, to: nat, i: nat, j: nat, p: nat) returns (m: nat)
    requires Laid(d, f, lines, e) && e <= |d| && to <= e
    requires |lines| > 0 ==> At(f, lines, |lines| - 1) < to
    requires i <= j <= |lines| && At(f, lines, i) <= p < Limit(f, lines, to, j)
    ensures i <= m < j && NextLine(d, p) == At(f, lines, m + 1) && p < At(f, lines, m + 1) <= |d|
    ensures At(f, lines, m + 1) >= Limit(f, lines, to, j) <==> m + 1 == j
  {
    LastAt(d, f, lines, e);
    AtIncreases(f, lines, 0, i);
    if j < |lines| { AtIncreases(f, lines, j, |lines|); }
    m := FindLine(d, f, lines, e, p);
    NextLineFrom(d, f, lines, e, m, p);
    if m < i { AtIncreases(f, lines, m + 1, i); }
    if m >= j { AtIncreases(f, lines, j, m); }
    if m + 1 < j {
      AtIncreases(f, lines, m + 1, j);
      if j == |lines| { AtIncreases(f, lines, m + 1, j - 1); }
    }
  }

  lemma Exhausted(d: string, f: nat, lines: seq<Line>, e: nat, to: nat, i: nat, j: nat)
    requires Laid(d, f, lines, e) && to <= e && i <= |lines| && j <= |lines|
    requires |lines| > 0 ==> At(f, lines, |lines| - 1) < to
    ensures i < j <==> At(f, lines, i) < Limit(f, lines, to, j)
  {
    LastAt(d, f, lines, e);
    if i < j {
      AtIncreases(f, lines, i, |lines| - 1);
      AtIncreases(f, lines, i, j);
    } else {
      AtIncreases(f, lines, j, i);
    }
  }

  // Whole files.

  predicate HeaderHere(d: string, header: string, p: nat) {
    && p + |header| < |d| && d[p + |header|] == '\n'
    && forall i :: 0 <= i < |header| ==> d[p + i] == header[i]
  }

  /** The offset behind the first line that is the header, looking at line starts from p on. */
  function HeaderEnd(d: string, header: string, p: nat): Option<nat>
    requires p <= |d|
    decreases |d| - p
  {
    if HeaderHere(d, header, p) then Some(p + |header| + 1)
    else
      var q := NextLine(d, p);
      if q > p && d[q - 1] == '\n' then HeaderEnd(d, header, q) else None
  }

  ghost predicate WellFormed(d: string, h: nat, aris: seq<Line>, nashis: seq<Line>) {
    && HeaderEnd(d, HEADER, 0) == Some(h)
    && Laid(d, h, aris + [SEPARATOR] + nashis, |d|)
    && (forall i :: 0 <= i < |aris| ==> aris[i].IsEntry() && Less(SEPARATOR.key, aris[i].key))
    && (forall i :: 0 <= i < |nashis| ==> nashis[i].IsEntry())
    && (forall i, j :: 0 <= i < j < |aris| ==> Less(aris[j].key, aris[i].key))
    && (forall i, j :: 0 <= i < j < |nashis| ==> Less(nashis[i].key, nashis[j].key))
  }

  /** Comparisons of neighbours alone tell on which side of the separator a line is. */
  lemma SeparatorIsSearchable(d: string, h: nat, aris: seq<Line>, nashis: seq<Line>)
    requires WellFormed(d, h, aris, nashis)
    ensures var lines := aris + [SEPARATOR] + nashis;
            && Searchable(ForSeparator, lines)
            && (forall k :: 0 <= k < |lines| ==> (IsEqual(ForSeparator, lines, k) <==> k == |aris|))
            && (forall k :: 0 <= k < |lines| ==> (IsGreater(ForSeparator, lines, k) <==> k > |aris|))
  {
    var lines := aris + [SEPARATOR] + nashis;
    forall k | 0 <= k < |lines|
      ensures IsGreater(ForSeparator, lines, k) <==> k > |aris|
      ensures IsEqual(ForSeparator, lines, k) <==> k == |aris|
    {
      if k < |aris| {
        assert lines[k] == aris[k];
        if k + 1 < |aris| {
          assert lines[k + 1] == aris[k + 1];
          Trichotomy(aris[k].key, aris[k + 1].key);
        }
      } else if k > |aris| {
        assert lines[k] == nashis[k - |aris| - 1];
        if k + 1 < |lines| { assert lines[k + 1] == nashis[k - |aris|]; }
      }
    }
  }

  lemma NashisAreSearchable(d: string, h: nat, aris: seq<Line>, nashis: seq<Line>, key: string)
    requires WellFormed(d, h, aris, nashis)
    ensures Searchable(ForNashi(key), nashis)
  {
    forall i, j | 0 <= i < j < |nashis| && Less(key, nashis[i].key) ensures Less(key, nashis[j].key) {
      Transitivity(key, nashis[i].key, nashis[j].key);
    }
    Trichotomy(key, key);
  }

  lemma ArisAreSearchable(d: string, h: nat, aris: seq<Line>, nashis: seq<Line>, key: string)
    requires WellFormed(d, h, aris, nashis)
    ensures Searchable(ForAri(key), aris + [SEPARATOR])
  {
    var lines := aris + [SEPARATOR];
    assert forall i, j :: 0 <= i < j < |lines| ==> Less(lines[j].key, lines[i].key);
    forall i, j | 0 <= i < j < |lines| && Less(lines[i].key, key) ensures Less(lines[j].key, key) {
      Transitivity(lines[j].key, lines[i].key, key);
    }
    Trichotomy(key, key);
  }

  lemma {:induction false} AtPrefix(f: nat, a: seq<Line>, b: seq<Line>, k: nat)
    requires k <= |a|
    ensures At(f, a + b, k) == At(f, a, k)
    decreases |a|
  {
    if k > 0 {
      assert (a + b)[1..] == a[1..] + b;
      AtPrefix(f + |a[0].Text()|, a[1..], b, k - 1);
    }
  }

  lemma {:induction false} LaidSplits(d: string, f: nat, a: seq<Line>, b: seq<Line>, e: nat)
    requires Laid(d, f, a + b, e)
    ensures Laid(d, f, a, At(f, a, |a|)) && Laid(d, At(f, a, |a|), b, e)
    decreases |a|
  {
    if a == [] {
      assert a + b == b;
      LastAt(d, f, b, e);
    } else {
      assert (a + b)[1..] == a[1..] + b && (a + b)[0] == a[0];
      LaidSplits(d, f + |a[0].Text()|, a[1..], b, e);
      assert At(f, a, |a|) == At(f + |a[0].Text()|, a[1..], |a[1..]|);
    }
  }

  lemma LaidHalves(d: string, h: nat, aris: seq<Line>, nashis: seq<Line>)
    requires Laid(d, h, aris + [SEPARATOR] + nashis, |d|)
    ensures var lines, s := aris + [SEPARATOR] + nashis, At(h, aris + [SEPARATOR] + nashis, |aris|);
            && h <= s && At(h, lines, |aris| + 1) == s + |SEPARATOR.Text()| <= |d|
            && Laid(d, h, aris + [SEPARATOR], At(h, lines, |aris| + 1))
            && Laid(d, At(h, lines, |aris| + 1), nashis, |d|)
            && At(h, aris + [SEPARATOR], |aris|) == s
  {
    var lines := aris + [SEPARATOR] + nashis;
    LaidSplits(d, h, aris + [SEPARATOR], nashis, |d|);
    AtPrefix(h, aris + [SEPARATOR], nashis, |aris|);
    AtPrefix(h, aris + [SEPARATOR], nashis, |aris| + 1);
    AtIncreases(h, lines, 0, |aris|);
    LineAt(d, h, lines, |d|, |aris|);
    assert lines[|aris|] == SEPARATOR;
  }

  /** Past the key and the space of line k the file goes on with the rest of that line. */
  lemma RestOfLine(d: string, f: nat, lines: seq<Line>, e: nat, k: nat)
    requires Laid(d, f, lines, e) && k < |lines|
    ensures var p := At(f, lines, k) + |lines[k].key| + 1;
            p + |lines[k].rest| + 1 <= |d| && d[p..p + |lines[k].rest| + 1] == lines[k].rest + "\n"
  {
    LineAt(d, f, lines, e, k);
    var s, t, l := At(f, lines, k), At(f, lines, k + 1), lines[k];
    assert l.Text()[|l.key| + 1..] == l.rest + "\n";
    assert d[s..t][|l.key| + 1..] == d[s + |l.key| + 1..t];
  }

  /** Reading from p on finds the rest of the line of lines that carries the key. */
  ghost predicate FoundAt(d: string, p: nat, lines: seq<Line>, key: string) {
    exists k :: 0 <= k < |lines| && lines[k].key == key
      && p + |lines[k].rest| + 1 <= |d| && d[p..p + |lines[k].rest| + 1] == lines[k].rest + "\n"
  }

  ghost predicate HasKey(lines: seq<Line>, key: string) {
    exists k :: 0 <= k < |lines| && lines[k].key == key
  }

  lemma {:induction false} NextLineEnds(d: string, p: nat, q: nat)
    requires p <= q <= |d| && forall i :: p <= i < q - 1 ==> d[i] != '\n'
    requires q == |d| || (p < q && d[q - 1] == '\n')
    ensures NextLine(d, p) == q
    decreases q - p
  {
    if p < q && d[p] != '\n' {
      NextLineEnds(d, p + 1, q);
    }
  }

  class File {
    const data: string
    var pos: nat

    constructor (data: string)
      ensures this.data == data && pos == 0
    {
      this.data := data;
      pos := 0;
    }

    method Getc() returns (c: int)
      requires pos <= |data|
      modifies this
      ensures old(pos) < |data| ==> c == data[old(pos)] as int && pos == old(pos) + 1
      ensures old(pos) == |data| ==> c == EOF && pos == old(pos)
    {
      if pos < |data| {
        c := data[pos] as int;
        pos := pos + 1;
      } else {
        c := EOF;
      }
    }

    method Skip()
      requires pos <= |data|
      modifies this
      ensures pos == NextLine(data, old(pos)) <= |data|
    {
      while true
        invariant old(pos) <= pos <= |data| && NextLine(data, pos) == NextLine(data, old(pos))
        decreases |data| - pos
      {
        var c := Getc();
        if c == EOF || c == '\n' as int { return; }
      }
    }

    /** Read up to a space; a line or a file that ends before one is reported as false. */
    method ReadKey() returns (ok: bool, key: string)
      requires pos <= |data|
      modifies this
      ensures var q := KeyEnd(data, old(pos));
              && key == data[old(pos)..q] && ok == (q < |data| && data[q] == ' ')
              && pos == if q < |data| then q + 1 else q
    {
      key := "";
      while true
        invariant old(pos) <= pos <= |data| && KeyEnd(data, pos) == KeyEnd(data, old(pos))
        invariant data[old(pos)..pos] == key
        decreases |data| - pos
      {
        var c := Getc();
        if c == EOF || c == '\n' as int { return false, key; }
        if c == ' ' as int { return true, key; }
        key := key + [c as char];
      }
    }

    /** The sign of the key of line k against the wanted key, as by memcmp with a space as the end. */
    method CompareKey(key: string, ghost f: nat, ghost lines: seq<Line>, ghost e: nat, ghost k: nat) returns (r: int)
      requires Laid(data, f, lines, e) && k < |lines| && pos == At(f, lines, k) && pos <= |data|
      modifies this
      ensures r == 0 <==> lines[k].key == key
      ensures r > 0 <==> Less(key, lines[k].key)
      ensures r < 0 <==> Less(lines[k].key, key)
      ensures At(f, lines, k) <= pos < At(f, lines, k + 1) <= |data|
      ensures r == 0 ==> pos == At(f, lines, k) + |key| + 1
    {
      LineChars(data, f, lines, e, k);
      hide Laid, At, Less;
      ghost var line, s := lines[k].key, pos;
      var i := 0;
      while i < |key|
        invariant 0 <= i <= |key| && i <= |line| && pos == s + i
        invariant forall t :: 0 <= t < i ==> line[t] == key[t]
      {
        var a := Getc();
        if a == EOF { return 1; }
        if a == ' ' as int {
          FirstDifference(line, key, i);
          return -1;
        }
        var b := key[i] as int;
        if a != b {
          FirstDifference(line, key, i);
          return a - b;
        }
        i := i + 1;
      }
      FirstDifference(line, key, i);
      var a := Getc();
      return if a == ' ' as int then 0 else 1;
    }

    method Equal(cmp: Compare, ghost f: nat, ghost lines: seq<Line>, ghost e: nat, ghost k: nat) returns (r: bool)
      requires Laid(data, f, lines, e) && k < |lines| && pos == At(f, lines, k) && pos <= |data|
      modifies this
      ensures r == IsEqual(cmp, lines, k)
      ensures At(f, lines, k) <= pos < At(f, lines, k + 1) <= |data|
      ensures r ==> pos == After(cmp, f, lines, k)
    {
      if cmp.ForSeparator? {
        LineChars(data, f, lines, e, k);
        KeyOfLine(data, f, lines, e, k);
        var ok, _ := ReadKey();
        if !ok { return false; }
        var c := Getc();
        return c != '/' as int;
      } else {
        LineChars(data, f, lines, e, k);
        var c := CompareKey(cmp.key, f, lines, e, k);
        return c == 0;
      }
    }

    method Greater(cmp: Compare, ghost f: nat, ghost lines: seq<Line>, ghost e: nat, ghost k: nat) returns (r: bool)
      requires Laid(data, f, lines, e) && k < |lines| && pos == At(f, lines, k) && pos <= |data|
      requires cmp.ForSeparator? ==> e == |data|
      modifies this
      ensures pos <= |data|
      ensures r == IsGreater(cmp, lines, k)
    {
      match cmp
      case ForSeparator =>
        r := AscendsHere(f, lines, e, k);
      case ForNashi(key) =>
        var c := CompareKey(key, f, lines, e, k);
        r := c > 0;
      case ForAri(key) =>
        var c := CompareKey(key, f, lines, e, k);
        r := c < 0;
    }

    /** Whether this line and the next one are entries in ascending order. */
    method AscendsHere(ghost f: nat, ghost lines: seq<Line>, ghost e: nat, ghost k: nat) returns (r: bool)
      requires Laid(data, f, lines, e) && k < |lines| && pos == At(f, lines, k) && pos <= |data| && e == |data|
      modifies this
      ensures pos <= |data|
      ensures r == IsGreater(ForSeparator, lines, k)
    {
      hide Laid, At, Less;
      LineChars(data, f, lines, e, k);
      KeyOfLine(data, f, lines, e, k);
      var ok, a := ReadKey();
      if !ok { return true; }
      var c := Getc();
      if c != '/' as int { return false; }
      NextLineFrom(data, f, lines, e, k, pos);
      Skip();
      if k + 1 == |lines| {
        LastAt(data, f, lines, e);
      } else {
        LineChars(data, f, lines, e, k + 1);
        KeyOfLine(data, f, lines, e, k + 1);
      }
      var ok', b := ReadKey();
      if !ok' { return true; }
      c := Getc();
      if c != '/' as int { return false; }
      return Less(a, b);
    }

    /**
     The search by halves from line start f up to l, which ends the last line or lies inside it.
     It succeeds exactly when some line matches, and leaves the file just behind what was compared.
     */
    method Seek(from: nat, to: nat, cmp: Compare, ghost lines: seq<Line>, ghost e: nat) returns (r: bool)
      requires Laid(data, from, lines, e) && e <= |data| && from <= to <= e && pos <= |data|
      requires |lines| > 0 ==> At(from, lines, |lines| - 1) < to
      requires Searchable(cmp, lines)
      requires cmp.ForSeparator? ==> e == |data|
      modifies this
      ensures pos <= |data|
      ensures r <==> exists k :: 0 <= k < |lines| && IsEqual(cmp, lines, k)
      ensures r ==> exists k :: 0 <= k < |lines| && IsEqual(cmp, lines, k) && pos == After(cmp, from, lines, k)
    {
      LastAt(data, from, lines, e);
      var f: int, l: int := from, to;
      ghost var i: nat, j: nat := 0, |lines|;
      while f < l
        invariant 0 <= i <= j <= |lines| && pos <= |data|
        invariant f == At(from, lines, i) <= |data|
        invariant 0 <= l == Limit(from, lines, to, j)
        invariant forall k :: 0 <= k < |lines| && IsEqual(cmp, lines, k) ==> i <= k < j
        decreases l - f
      {
        pos := (f + l) / 2;
        ghost var m := LineInside(data, from, lines, e, to, i, j, pos);
        Skip();
        var next := pos;
        if next >= l {
          r := Scan(f, l, cmp, from, lines, e, i, j, to);
          return;
        }
        var greater := Greater(cmp, from, lines, e, m + 1);
        if greater {
          l := next;
          j := m + 1;
        } else {
          f := next;
          i := m + 1;
        }
      }
      Exhausted(data, from, lines, e, to, i, j);
      return false;
    }

    method Scan(f0: nat, l: nat, cmp: Compare, ghost from: nat, ghost lines: seq<Line>, ghost e: nat, ghost i0: nat,
        ghost j: nat, ghost to: nat)
      returns (r: bool)
      requires Laid(data, from, lines, e) && e <= |data| && pos <= |data|
      requires i0 <= j <= |lines| && f0 == At(from, lines, i0) <= |data|
      requires to <= e && (|lines| > 0 ==> At(from, lines, |lines| - 1) < to)
      requires l == Limit(from, lines, to, j)
      requires forall k :: 0 <= k < |lines| && IsEqual(cmp, lines, k) ==> i0 <= k < j
      modifies this
      ensures pos <= |data|
      ensures r <==> exists k :: 0 <= k < |lines| && IsEqual(cmp, lines, k)
      ensures r ==> exists k :: 0 <= k < |lines| && IsEqual(cmp, lines, k) && pos == After(cmp, from, lines, k)
    {
      var f := f0;
      ghost var i := i0;
      pos := f;
      while f < l
        invariant i0 <= i <= |lines| && f == pos == At(from, lines, i) <= |data|
        invariant forall k :: 0 <= k < |lines| && IsEqual(cmp, lines, k) ==> i <= k < j
        decreases |lines| - i
      {
        Exhausted(data, from, lines, e, to, i, j);
        var equal := Equal(cmp, from, lines, e, i);
        if equal { return true; }
        NextLineFrom(data, from, lines, e, i, pos);
        Skip();
        f := pos;
        i := i + 1;
      }
      Exhausted(data, from, lines, e, to, i, j);
      return false;
    }

    /** Read on while the header is matched; c is the character that stopped it, or the end. */
    method MatchHeader(header: string) returns (matched: bool, c: int)
      requires pos <= |data| && header != "" && '\n' !in header
      modifies this
      ensures old(pos) <= pos <= |data|
      ensures matched == HeaderHere(data, header, old(pos))
      ensures matched ==> pos == old(pos) + |header| + 1
      ensures if c == EOF then pos == |data| else old(pos) < pos && c == data[pos - 1] as int
      ensures forall i :: old(pos) <= i < (if c == EOF then pos else pos - 1) ==> data[i] != '\n'
    {
      var p := 0;
      c := Getc();
      while c == header[p] as int
        invariant 0 <= p < |header| && old(pos) + p <= |data|
        invariant forall i :: 0 <= i < p ==> data[old(pos) + i] == header[i]
        invariant if old(pos) + p < |data| then c == data[old(pos) + p] as int && pos == old(pos) + p + 1
                  else c == EOF && pos == |data|
        decreases |header| - p
      {
        c := Getc();
        p := p + 1;
        if p == |header| { break; }
      }
      assert forall i :: old(pos) <= i < old(pos) + p ==> data[i] == header[i - old(pos)];
      matched := c == '\n' as int && p == |header|;
    }

    /** f_seek(): to the line after the first header line. */
    method SeekHeader(header: string) returns (r: bool)
      requires header != "" && '\n' !in header
      modifies this
      ensures pos <= |data|
      ensures r == HeaderEnd(data, header, 0).Some?
      ensures r ==> Some(pos) == HeaderEnd(data, header, 0)
    {
      pos := 0;
      while true
        invariant pos <= |data| && HeaderEnd(data, header, pos) == HeaderEnd(data, header, 0)
        decreases |data| - pos
      {
        ghost var start := pos;
        var matched, c := MatchHeader(header);
        if matched { return true; }
        while c != EOF && c != '\n' as int
          invariant start <= pos <= |data|
          invariant if c == EOF then pos == |data| else start < pos && c == data[pos - 1] as int
          invariant forall i :: start <= i < (if c == EOF then pos else pos - 1) ==> data[i] != '\n'
          decreases |data| - pos, if c == EOF then 0 else 1
        {
          c := Getc();
        }
        NextLineEnds(data, start, pos);
        if c == EOF { return false; }
      }
    }

    /**
     f_seek(entry, n, ari) on a well-formed file: the key is found exactly when its half of the file
     has a line for it. The okuri-ari half is searched up to an offset inside the separator line, so
     the key of that line, ";;", is found as well.
     */
    method SeekKey(key: string, ari: bool, ghost h: nat, ghost aris: seq<Line>, ghost nashis: seq<Line>)
      returns (r: bool)
      requires WellFormed(data, h, aris, nashis)
      modifies this
      ensures pos <= |data|
      ensures r == HasKey(if ari then aris + [SEPARATOR] else nashis, key)
      ensures r ==> FoundAt(data, pos, if ari then aris + [SEPARATOR] else nashis, key)
    {
      hide Laid, At, Searchable, Less, FoundAt, HasKey, HeaderEnd;
      var ok := SeekHeader(HEADER);
      if !ok { return false; }
      var f, l := pos, |data|;
      ok := SeekSeparator(f, aris, nashis);
      if !ok { return false; }
      LaidHalves(data, h, aris, nashis);
      ghost var e := At(h, aris + [SEPARATOR] + nashis, |aris| + 1);
      if ari {
        ArisAreSearchable(data, h, aris, nashis, key);
        r := SeekHalf(f, pos - 1, ForAri(key), aris + [SEPARATOR], e);
      } else {
        NashisAreSearchable(data, h, aris, nashis, key);
        NextLineFrom(data, h, aris + [SEPARATOR] + nashis, |data|, |aris|, pos);
        Skip();
        if nashis != [] {
          LastAt(data, e, nashis, |data|);
          AtIncreases(e, nashis, |nashis| - 1, |nashis|);
        }
        r := SeekHalf(pos, l, ForNashi(key), nashis, |data|);
      }
    }

    /** The separator is found, and the file is left behind the first character of its text. */
    method SeekSeparator(h: nat, ghost aris: seq<Line>, ghost nashis: seq<Line>) returns (r: bool)
      requires WellFormed(data, h, aris, nashis) && pos <= |data|
      modifies this
      ensures r && h < pos <= |data| && pos == At(h, aris + [SEPARATOR] + nashis, |aris|) + 4
      ensures pos < At(h, aris + [SEPARATOR] + nashis, |aris| + 1) <= |data|
    {
      hide Laid, At, Less, Searchable;
      ghost var lines := aris + [SEPARATOR] + nashis;
      SeparatorIsSearchable(data, h, aris, nashis);
      LaidHalves(data, h, aris, nashis);
      LastAt(data, h, lines, |data|);
      AtIncreases(h, lines, |lines| - 1, |lines|);
      r := Seek(h, |data|, ForSeparator, lines, |data|);
      assert IsEqual(ForSeparator, lines, |aris|);
      assert pos == After(ForSeparator, h, lines, |aris|) && lines[|aris|] == SEPARATOR;
    }

    method SeekHalf(f: nat, l: nat, cmp: Compare, ghost lines: seq<Line>, ghost e: nat) returns (r: bool)
      requires Laid(data, f, lines, e) && e <= |data| && f <= l <= e && pos <= |data|
      requires |lines| > 0 ==> At(f, lines, |lines| - 1) < l
      requires Searchable(cmp, lines) && !cmp.ForSeparator?
      modifies this
      ensures pos <= |data|
      ensures r == HasKey(lines, cmp.key)
      ensures r ==> FoundAt(data, pos, lines, cmp.key)
    {
      hide Laid, At, Less, Searchable;
      r := Seek(f, l, cmp, lines, e);
      if r {
        ghost var k :| 0 <= k < |lines| && IsEqual(cmp, lines, k) && pos == After(cmp, f, lines, k);
        RestOfLine(data, f, lines, e, k);
        assert lines[k].key == cmp.key;
      } else {
        assert forall k :: 0 <= k < |lines| && lines[k].key == cmp.key ==> IsEqual(cmp, lines, k);
      }
    }
  }
}
