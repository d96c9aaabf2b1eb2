/**
 Rows of terminal cells (vt/buffer.h, t_row and the cell edits of t_buffer). A wide glyph takes two
 cells, the second of which holds the character NUL. The edits are given as functions on sequences
 of cells; class Row carries them out in place in an array.
 */
module Rows {
  datatype Attribute = Attribute(
    bold: bool, faint: bool, underlined: bool, blink: bool, inverse: bool, foreground: nat, background: nat)

  datatype Cell = Cell(c: char, a: Attribute)

  const NUL: char := 0 as char

  const PLAIN := Attribute(false, false, false, false, false, 0, 1)

  const BLANK := Cell(' ', PLAIN)

  /** How many cells a character takes. */
  type Widths = char -> nat

  ghost predicate WidthsOk(w: Widths) {
    w(' ') == 1 && forall c :: w(c) <= 2
  }

  /** The cells are a sequence of whole glyphs: a continuation behind each wide one, and nowhere else. */
  ghost predicate Whole(w: Widths, s: seq<Cell>) {
    forall i {:trigger s[i]} :: 0 <= i < |s| ==>
      if s[i].c == NUL then i > 0 && s[i - 1].c != NUL && w(s[i - 1].c) == 2
      else w(s[i].c) == 1 || (w(s[i].c) == 2 && i + 1 < |s| && s[i + 1].c == NUL)
  }

  predicate Led(s: seq<Cell>) {
    s == [] || s[0].c != NUL
  }

  predicate Continues(s: seq<Cell>, x: nat) {
    x < |s| && s[x].c == NUL
  }

  function Fill(n: nat, cell: Cell): (r: seq<Cell>)
    ensures |r| == n && forall i :: 0 <= i < n ==> r[i] == cell
  {
    seq(n, _ => cell)
  }

  /** The first cell of the glyph that x continues. */
  function Start(s: seq<Cell>, x: nat): (r: nat)
    requires Led(s) && x < |s|
    ensures r <= x && s[r].c != NUL && forall i :: r < i <= x ==> s[i].c == NUL
  {
    if s[x].c != NUL then x else Start(s, x - 1)
  }

  /** The first cell from x on that is not a continuation. */
  function End(s: seq<Cell>, x: nat): (r: nat)
    requires x <= |s|
    ensures x <= r <= |s| && (forall i :: x <= i < r ==> s[i].c == NUL) && (r < |s| ==> s[r].c != NUL)
    decreases |s| - x
  {
    if x < |s| && s[x].c == NUL then End(s, x + 1) else x
  }

  function Blanked(s: seq<Cell>, i: nat, j: nat): (r: seq<Cell>)
    ensures |r| == |s|
    ensures forall k :: 0 <= k < |s| ==> r[k] == if i <= k < j then s[k].(c := ' ') else s[k]
  {
    seq(|s|, k requires 0 <= k < |s| => if i <= k < j then s[k].(c := ' ') else s[k])
  }

  /** Blank the glyph that lies across the left edge of column x. */
  function Split(s: seq<Cell>, x: nat): (r: seq<Cell>)
    requires Led(s)
    ensures |r| == |s| && Led(r) && !Continues(r, x)
  {
    if !Continues(s, x) then s else Blanked(s, Start(s, x), End(s, x))
  }

  function Expand(s: seq<Cell>, n: nat): (r: seq<Cell>)
    requires Led(s)
    ensures |r| == (if n <= |s| then |s| else n) && s <= r && Led(r)
  {
    if n <= |s| then s else s + Fill(n - |s|, BLANK)
  }

  /** At most n cells, a glyph across the edge blanked. */
  function Fitted(s: seq<Cell>, n: nat): (r: seq<Cell>)
    requires Led(s)
    ensures |r| == if n < |s| then n else |s|
    ensures Led(r)
  {
    if n < |s| then Split(s, n)[..n] else s
  }

  /** Room for an edit at column x: the row reaches it and no glyph lies across it. */
  function Opened(s: seq<Cell>, x: nat): (r: seq<Cell>)
    requires Led(s)
    ensures x <= |r| && |r| == (if x <= |s| then |s| else x) && Led(r) && !Continues(r, x)
  {
    Split(Expand(s, x), x)
  }

  function InsertBlanks(s: seq<Cell>, x: nat, n: nat, width: nat): (r: seq<Cell>)
    requires Led(s) && |s| <= width
    ensures |r| <= width && Led(r)
  {
    if x >= width then s
    else
      var t := Opened(s, x);
      if x + n >= width then t[..x] + Fill(width - x, BLANK)
      else
        var u := Fitted(t, width - n);
        u[..x] + Fill(n, BLANK) + u[x..]
  }

  function Glyph(cell: Cell, n: nat): (r: seq<Cell>)
    requires n > 0
    ensures |r| == n && r[0] == cell && forall i :: 1 <= i < n ==> r[i] == cell.(c := NUL)
  {
    [cell] + Fill(n - 1, cell.(c := NUL))
  }

  function Put(s: seq<Cell>, x: nat, cell: Cell, n: nat, width: nat, shift: bool): (r: seq<Cell>)
    requires Led(s) && |s| <= width && cell.c != NUL
    ensures |r| <= width && Led(r)
  {
    if n == 0 || x >= width then s
    else
      var t := Opened(s, x);
      if x + n > width then t[..x] + Fill(width - x, cell.(c := ' '))
      else if shift then
        var u := Fitted(t, width - n);
        u[..x] + Glyph(cell, n) + u[x..]
      else t[..x] + Glyph(cell, n) + Split(t, x + n)[if x + n < |t| then x + n else |t|..]
  }

  function Erase(s: seq<Cell>, x: nat, n: int, shift: bool): (r: seq<Cell>)
    requires Led(s) && (x < |s| ==> n >= 0)
    ensures |r| <= |s| && Led(r)
  {
    if x >= |s| then s
    else
      var t := Split(s, x);
      if x + n >= |s| then t[..x]
      else
        var u := Split(t, x + n);
        u[..x] + (if shift then [] else Fill(n, BLANK)) + u[x + n..]
  }

  // Rows stay sequences of whole glyphs.

  lemma SplitIs(w: Widths, s: seq<Cell>, x: nat)
    requires WidthsOk(w) && Whole(w, s)
    ensures Led(s)
    ensures Split(s, x) == if Continues(s, x) then Blanked(s, x - 1, x + 1) else s
  {
    if Continues(s, x) {
      assert End(s, x) == x + 1 by {
        if x + 1 < |s| { assert s[x + 1].c != NUL; }
      }
    }
  }

  lemma SplitKeepsWhole(w: Widths, s: seq<Cell>, x: nat)
    requires WidthsOk(w) && Whole(w, s) && Led(s)
    ensures Whole(w, Split(s, x))
  {
    SplitIs(w, s, x);
  }

  lemma PartsAreWhole(w: Widths, s: seq<Cell>, x: nat)
    requires Whole(w, s) && x <= |s| && !Continues(s, x)
    ensures Whole(w, s[..x]) && Whole(w, s[x..])
  {
  }

  lemma JoinIsWhole(w: Widths, s: seq<Cell>, t: seq<Cell>)
    requires Whole(w, s) && Whole(w, t)
    ensures Whole(w, s + t)
  {
  }

  lemma FillIsWhole(w: Widths, n: nat, cell: Cell)
    requires w(cell.c) == 1 && cell.c != NUL
    ensures Whole(w, Fill(n, cell))
  {
  }

  lemma OpenedIsWhole(w: Widths, s: seq<Cell>, x: nat)
    requires WidthsOk(w) && Whole(w, s) && Led(s)
    ensures Whole(w, Opened(s, x))
  {
    FillIsWhole(w, if x <= |s| then 0 else x - |s|, BLANK);
    JoinIsWhole(w, s, Fill(if x <= |s| then 0 else x - |s|, BLANK));
    SplitKeepsWhole(w, Expand(s, x), x);
  }

  /** The first n cells, with a glyph across the edge turned to a blank. */
  function Kept(s: seq<Cell>, n: nat): seq<Cell>
    requires Led(s)
  {
    if n >= |s| then s
    else if s[n].c != NUL then s[..n]
    else s[..n - 1] + [s[n - 1].(c := ' ')]
  }

  /** Fitting keeps what fits, except a glyph across the edge, which becomes a blank. */
  lemma FittedIs(w: Widths, s: seq<Cell>, n: nat)
    requires WidthsOk(w) && Whole(w, s) && Led(s)
    ensures Whole(w, Fitted(s, n))
    ensures Fitted(s, n) == Kept(s, n)
  {
    if n < |s| {
      SplitIs(w, s, n);
      SplitKeepsWhole(w, s, n);
      PartsAreWhole(w, Split(s, n), n);
    }
  }

  lemma InsertBlanksKeepsWhole(w: Widths, s: seq<Cell>, x: nat, n: nat, width: nat)
    requires WidthsOk(w) && Whole(w, s) && Led(s) && |s| <= width
    ensures Whole(w, InsertBlanks(s, x, n, width))
  {
    hide Whole, Opened, Fitted;
    if x < width {
      var t := Opened(s, x);
      OpenedIsWhole(w, s, x);
      if x + n >= width {
        PartsAreWhole(w, t, x);
        FillIsWhole(w, width - x, BLANK);
        JoinIsWhole(w, t[..x], Fill(width - x, BLANK));
      } else {
        InsertKeepsWhole(w, t, x, Fill(n, BLANK), width - n) by { FillIsWhole(w, n, BLANK); }
      }
    }
  }

  /** Whole glyphs pushed in between, with what no longer fits dropped. */
  lemma InsertKeepsWhole(w: Widths, t: seq<Cell>, x: nat, mid: seq<Cell>, n: nat)
    requires WidthsOk(w) && Whole(w, t) && Led(t) && x <= |t| && x <= n && !Continues(t, x) && Whole(w, mid)
    ensures var u := Fitted(t, n); Whole(w, u[..x] + mid + u[x..])
  {
    hide Whole;
    var u := Fitted(t, n);
    FittedIs(w, t, n);
    assert !Continues(u, x) by { FittedKeepsStart(w, t, n, x); }
    PartsAreWhole(w, u, x);
    JoinIsWhole(w, u[..x], mid);
    JoinIsWhole(w, u[..x] + mid, u[x..]);
  }

  lemma FittedKeepsStart(w: Widths, t: seq<Cell>, n: nat, x: nat)
    requires WidthsOk(w) && Whole(w, t) && Led(t) && x <= n && !Continues(t, x)
    ensures !Continues(Fitted(t, n), x)
  {
    FittedIs(w, t, n);
  }

  lemma GlyphIsWhole(w: Widths, cell: Cell)
    requires WidthsOk(w) && cell.c != NUL && w(cell.c) > 0
    ensures Whole(w, Glyph(cell, w(cell.c)))
  {
    assert w(cell.c) <= 2;
  }

  lemma PutKeepsWhole(w: Widths, s: seq<Cell>, x: nat, cell: Cell, width: nat, shift: bool)
    requires WidthsOk(w) && Whole(w, s) && Led(s) && |s| <= width && cell.c != NUL
    ensures Whole(w, Put(s, x, cell, w(cell.c), width, shift))
  {
    hide Whole, Opened, Fitted, Split, Glyph, Led, Fill;
    var n := w(cell.c);
    if n > 0 && x < width {
      var t := Opened(s, x);
      OpenedIsWhole(w, s, x);
      if x + n > width {
        PartsAreWhole(w, t, x);
        FillIsWhole(w, width - x, cell.(c := ' '));
        JoinIsWhole(w, t[..x], Fill(width - x, cell.(c := ' ')));
      } else {
        GlyphIsWhole(w, cell);
        if shift {
          InsertKeepsWhole(w, t, x, Glyph(cell, n), width - n);
        } else {
          var u, y := Split(t, x + n), if x + n < |t| then x + n else |t|;
          SplitKeepsWhole(w, t, x + n);
          PartsAreWhole(w, t, x);
          TailIsWhole(w, u, x + n);
          JoinIsWhole(w, t[..x], Glyph(cell, n));
          JoinIsWhole(w, t[..x] + Glyph(cell, n), u[y..]);
        }
      }
    }
  }

  lemma TailIsWhole(w: Widths, u: seq<Cell>, x: nat)
    requires Whole(w, u) && !Continues(u, x)
    ensures Whole(w, u[if x < |u| then x else |u|..])
  {
  }

  lemma EraseKeepsWhole(w: Widths, s: seq<Cell>, x: nat, n: int, shift: bool)
    requires WidthsOk(w) && Whole(w, s) && Led(s) && (x < |s| ==> n >= 0)
    ensures Whole(w, Erase(s, x, n, shift))
  {
    hide Whole, Led, Fill;
    if x < |s| {
      var t := Split(s, x);
      SplitKeepsWhole(w, s, x);
      if x + n >= |s| {
        PartsAreWhole(w, t, x);
      } else {
        var u := Split(t, x + n);
        SplitKeepsWhole(w, t, x + n);
        SplitKeepsStarts(w, t, x + n, x);
        PartsAreWhole(w, u, x);
        PartsAreWhole(w, u, x + n);
        var mid := if shift then [] else Fill(n, BLANK);
        assert Whole(w, mid) by { FillIsWhole(w, n, BLANK); FillIsWhole(w, 0, BLANK); assert Fill(0, BLANK) == []; }
        JoinIsWhole(w, u[..x], mid);
        JoinIsWhole(w, u[..x] + mid, u[x + n..]);
      }
    }
  }

  lemma SplitKeepsStarts(w: Widths, t: seq<Cell>, y: nat, x: nat)
    requires WidthsOk(w) && Whole(w, t) && Led(t) && !Continues(t, x)
    ensures !Continues(Split(t, y), x)
  {
    SplitIs(w, t, y);
  }

  // What the edits undo and leave alone.

  /** Deleting a gap of blanks. */
  lemma EraseGap(u: seq<Cell>, r: seq<Cell>, x: nat, n: nat)
    requires x <= |u| && !Continues(u, x) && r == u[..x] + Fill(n, BLANK) + u[x..] && Led(r)
    ensures Erase(r, x, n, true) == u
  {
    GapAt(u, r, x, n);
    assert u[..x] + u[x..] == u;
    if x < |r| {
      assert Split(r, x) == r;
      if x + n < |r| {
        assert Split(r, x + n) == r;
        assert r[..x] + [] == r[..x];
      }
    }
  }

  lemma GapAt(u: seq<Cell>, r: seq<Cell>, x: nat, n: nat)
    requires x <= |u| && r == u[..x] + Fill(n, BLANK) + u[x..]
    ensures |r| == |u| + n && r[..x] == u[..x] && r[x + n..] == u[x..]
    ensures x < |r| ==> r[x] == if n > 0 then BLANK else u[x]
    ensures x + n < |r| ==> r[x + n] == u[x]
  {
    var a, gap := u[..x], Fill(n, BLANK);
    assert r == a + (gap + u[x..]);
    assert r[..x] == a;
    assert (a + gap)[..x] == a && |a + gap| == x + n;
    assert r[x + n..] == u[x..];
  }

  /** Deleting blanks that fill the row. */
  lemma EraseTail(t: seq<Cell>, r: seq<Cell>, x: nat, n: nat, width: nat)
    requires x <= |t| && x < width <= x + n && r == t[..x] + Fill(width - x, BLANK) && Led(r)
    ensures Erase(r, x, n, true) == t[..x]
  {
    assert r[x] == BLANK;
    assert r[..x] == t[..x];
  }

  /** Inserting blanks and deleting as many characters leaves the row up to what was pushed out. */
  lemma DeleteUndoesInsert(s: seq<Cell>, x: nat, n: nat, width: nat)
    requires Led(s) && |s| <= width && x < width
    ensures Erase(InsertBlanks(s, x, n, width), x, n, true)
         == Fitted(Opened(s, x), if x + n >= width then x else width - n)
  {
    var t, r := Opened(s, x), InsertBlanks(s, x, n, width);
    if x + n >= width {
      assert r == t[..x] + Fill(width - x, BLANK);
      hide Opened, InsertBlanks, Erase;
      EraseTail(t, r, x, n, width);
    } else {
      var u := Fitted(t, width - n);
      assert r == u[..x] + Fill(n, BLANK) + u[x..];
      hide Opened, InsertBlanks, Erase, Fitted;
      StartIsKept(t, width - n, x);
      EraseGap(u, r, x, n);
    }
  }

  lemma StartIsKept(t: seq<Cell>, n: nat, x: nat)
    requires Led(t) && x <= |t| && x <= n && !Continues(t, x)
    ensures !Continues(Fitted(t, n), x)
  {
    if n < |t| && Continues(t, n) && x < n {
      assert x <= Start(t, n);
    }
  }

  /** At a glyph boundary inside the row the result is the row itself, up to what was pushed out. */
  lemma DeleteRestores(w: Widths, s: seq<Cell>, x: nat, n: nat, width: nat)
    requires WidthsOk(w) && Whole(w, s) && Led(s) && |s| <= width && x < width && x <= |s| && !Continues(s, x)
    ensures var k := if x + n >= width then x else width - n;
            Erase(InsertBlanks(s, x, n, width), x, n, true)
            == Kept(s, k)
  {
    hide Whole, Erase, InsertBlanks, Opened, Fitted, Kept;
    OpenedInside(s, x);
    DeleteUndoesInsert(s, x, n, width);
    FittedIs(w, s, if x + n >= width then x else width - n);
  }

  lemma OpenedInside(s: seq<Cell>, x: nat)
    requires Led(s) && x <= |s| && !Continues(s, x)
    ensures Opened(s, x) == s
  {
  }

  /** What putting a glyph that fits does, before, at and behind it. */
  lemma PutParts(s: seq<Cell>, x: nat, cell: Cell, n: nat, width: nat)
    requires Led(s) && |s| <= width && cell.c != NUL && 0 < n && x + n <= width
    ensures var t, r := Opened(s, x), Put(s, x, cell, n, width, false);
            && |t| == (if x <= |s| then |s| else x)
            && r == t[..x] + Glyph(cell, n) + Split(t, x + n)[if x + n < |t| then x + n else |t|..]
  {
  }

  lemma SplitLength(s: seq<Cell>, x: nat)
    requires Led(s)
    ensures |Split(s, x)| == |s|
  {
  }

  lemma PartsAt(r: seq<Cell>, t: seq<Cell>, g: seq<Cell>, u: seq<Cell>, x: nat, n: nat, i: nat)
    requires |g| == n && |u| == |t| && x <= |t|
    requires r == t[..x] + g + u[if x + n < |t| then x + n else |t|..]
    ensures |r| == if x + n < |t| then |t| else x + n
    ensures i < |r| ==> r[i] == if i < x then t[i] else if i < x + n then g[i - x] else u[i]
  {
  }

  lemma PutShowsAt(w: Widths, s: seq<Cell>, x: nat, cell: Cell, width: nat, i: nat)
    requires WidthsOk(w) && Whole(w, s) && Led(s) && |s| <= width && cell.c != NUL
    requires 0 < w(cell.c) && x + w(cell.c) <= width
    ensures var n, t, r := w(cell.c), Opened(s, x), Put(s, x, cell, w(cell.c), width, false);
            && |t| == (if x <= |s| then |s| else x) && |r| == (if x + n < |t| then |t| else x + n)
            && (i < |r| ==>
                  r[i] == if i < x then t[i] else if i < x + n then Glyph(cell, n)[i - x] else Split(t, x + n)[i])
  {
    hide Whole, WidthsOk, Put, Opened, Split, Glyph, Led;
    var n, t := w(cell.c), Opened(s, x);
    PutParts(s, x, cell, n, width);
    SplitLength(t, x + n);
    GlyphLength(cell, n);
    PartsAt(Put(s, x, cell, n, width, false), t, Glyph(cell, n), Split(t, x + n), x, n, i);
  }

  /** The cells before the glyph. */
  lemma OpenedAt(w: Widths, s: seq<Cell>, x: nat, i: nat)
    requires WidthsOk(w) && Whole(w, s) && Led(s) && i < |Opened(s, x)|
    ensures i < x && i < |s| ==> Opened(s, x)[i] == if i == x - 1 && Continues(s, x) then s[i].(c := ' ') else s[i]
    ensures |s| <= i < x ==> Opened(s, x)[i] == BLANK
    ensures x < i < |s| ==> Opened(s, x)[i] == s[i]
    ensures x == i < |s| && s[x].c != NUL ==> Opened(s, x)[i] == s[i]
  {
    OpenedIs(w, s, x);
  }

  /** The cells behind the glyph. */
  lemma BehindAt(w: Widths, s: seq<Cell>, x: nat, n: nat, i: nat)
    requires WidthsOk(w) && Whole(w, s) && Led(s) && 0 < n && x + n <= i < |s|
    ensures i < |Opened(s, x)|
    ensures Split(Opened(s, x), x + n)[i] == if s[i].c == NUL && i == x + n then s[i].(c := ' ') else s[i]
  {
    hide Whole;
    OpenedIsWhole(w, s, x);
    OpenedAt(w, s, x, i);
    OpenedAt(w, s, x, x + n);
    SplitIs(w, Opened(s, x), x + n);
  }

  /** A glyph that fits shows at its column; other cells change only where a glyph was cut in two. */
  lemma PutShows(w: Widths, s: seq<Cell>, x: nat, cell: Cell, width: nat)
    requires WidthsOk(w) && Whole(w, s) && Led(s) && |s| <= width && cell.c != NUL
    requires 0 < w(cell.c) && x + w(cell.c) <= width
    ensures var n, r := w(cell.c), Put(s, x, cell, w(cell.c), width, false);
            && |r| == (if x + n < |s| then |s| else x + n)
            && r[x..x + n] == Glyph(cell, n)
            && (forall i :: 0 <= i < x && i < |s| ==>
                  r[i] == if i == x - 1 && Continues(s, x) then s[i].(c := ' ') else s[i])
            && (forall i :: |s| <= i < x ==> r[i] == BLANK)
            && (forall i :: x + n <= i < |s| ==> r[i] == if s[i].c == NUL && i == x + n then s[i].(c := ' ') else s[i])
  {
    hide Whole, Put, Opened, Split, Glyph;
    var n, r := w(cell.c), Put(s, x, cell, w(cell.c), width, false);
    PutShowsAt(w, s, x, cell, width, 0);
    forall i | 0 <= i < n ensures r[x..x + n][i] == Glyph(cell, n)[i] {
      PutShowsAt(w, s, x, cell, width, x + i);
    }
    forall i | 0 <= i < x
      ensures i < |s| ==> r[i] == if i == x - 1 && Continues(s, x) then s[i].(c := ' ') else s[i]
      ensures |s| <= i ==> r[i] == BLANK
    {
      PutShowsAt(w, s, x, cell, width, i);
      OpenedAt(w, s, x, i);
    }
    forall i | x + n <= i < |s| ensures r[i] == if s[i].c == NUL && i == x + n then s[i].(c := ' ') else s[i] {
      PutShowsAt(w, s, x, cell, width, i);
      BehindAt(w, s, x, n, i);
    }
    assert |Glyph(cell, n)| == n by { GlyphLength(cell, n); }
  }

  lemma GlyphLength(cell: Cell, n: nat)
    requires n > 0
    ensures |Glyph(cell, n)| == n
  {
  }

  lemma OpenedIs(w: Widths, s: seq<Cell>, x: nat)
    requires WidthsOk(w) && Whole(w, s) && Led(s)
    ensures Opened(s, x) == if Continues(s, x) then Blanked(s, x - 1, x + 1) else Expand(s, x)
  {
    if x <= |s| {
      SplitIs(w, s, x);
    }
  }
}
