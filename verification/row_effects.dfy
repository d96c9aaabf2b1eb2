/**
 What each edit of a row shows, column by column: which cells are new, which are blank, which are as
 they were, and what becomes of a wide glyph that the edit cuts in two. Behind its last cell a row
 shows blanks.
 */
module RowEffects {
  import opened Rows

  function Shown(s: seq<Cell>, i: nat): Cell {
    if i < |s| then s[i] else BLANK
  }

  /** Column i of a row that is cut before column x: of a glyph that lies across it only blanks are left. */
  function Halved(s: seq<Cell>, x: nat, i: nat): Cell {
    if Continues(s, x) && (i == x || i + 1 == x) then Shown(s, i).(c := ' ') else Shown(s, i)
  }

  lemma SplitShows(w: Widths, s: seq<Cell>, x: nat, i: nat)
    requires WidthsOk(w) && Whole(w, s) && Led(s)
    ensures |Split(s, x)| == |s| && Shown(Split(s, x), i) == Halved(s, x, i)
  {
    SplitIs(w, s, x);
  }

  lemma OpenedShows(w: Widths, s: seq<Cell>, x: nat, i: nat)
    requires WidthsOk(w) && Whole(w, s) && Led(s)
    ensures |Opened(s, x)| == if x <= |s| then |s| else x
    ensures Shown(Opened(s, x), i) == Halved(s, x, i)
    ensures Continues(Opened(s, x), i) <==> Continues(s, i) && i != x
  {
    OpenedIs(w, s, x);
    if Continues(s, x) && i == x + 1 && i < |s| {
      assert s[i].c != NUL;
    }
  }

  lemma FittedShows(w: Widths, s: seq<Cell>, n: nat, i: nat)
    requires WidthsOk(w) && Whole(w, s) && Led(s) && i < n
    ensures Shown(Fitted(s, n), i) == Halved(s, n, i)
  {
    FittedIs(w, s, n);
  }

  /** A row put together of the first x cells of one, others, and the cells of it from y on. */
  lemma JoinShows(u: seq<Cell>, x: nat, mid: seq<Cell>, y: nat, r: seq<Cell>, i: nat)
    requires x <= |u| && y <= |u| && r == u[..x] + mid + u[y..]
    ensures Shown(r, i)
         == if i < x then Shown(u, i) else if i < x + |mid| then mid[i - x] else Shown(u, i - x - |mid| + y)
  {
    var v := u[..x] + mid;
    assert |v| == x + |mid|;
    assert i < x ==> v[i] == u[i];
    assert x <= i < |v| ==> v[i] == mid[i - x];
    if |v| <= i < |r| {
      assert r[i] == u[y..][i - |v|];
    }
  }

  /** Erasing blanks its columns, and both glyphs that lie across their ends. */
  lemma EraseShows(w: Widths, s: seq<Cell>, x: nat, n: nat, i: nat)
    requires WidthsOk(w) && Whole(w, s) && Led(s)
    ensures Shown(Erase(s, x, n, false), i)
         == if x <= i < x + n then BLANK else if i < x then Halved(s, x, i) else Halved(s, x + n, i)
  {
    if x < |s| {
      ErasedParts(w, s, x, n, i);
      if i < x || i >= x + n {
        CutTwice(w, s, x, n, i);
      }
    }
  }

  /** Row s with the glyph across x blanked, and then the one across y. */
  function Split2(s: seq<Cell>, x: nat, y: nat): (r: seq<Cell>)
    requires Led(s)
    ensures Led(r) && |r| == |s|
  {
    Split(Split(s, x), y)
  }

  lemma ErasedParts(w: Widths, s: seq<Cell>, x: nat, n: nat, i: nat)
    requires WidthsOk(w) && Whole(w, s) && Led(s) && x < |s|
    ensures Shown(Erase(s, x, n, false), i)
         == if x <= i < x + n || (i >= x && x + n >= |s|) then BLANK else Shown(Split2(s, x, x + n), i)
    ensures Shown(Erase(s, x, n, true), i)
         == if i < x then Shown(Split2(s, x, x + n), i)
            else if x + n >= |s| then BLANK
            else Shown(Split2(s, x, x + n), i + n)
  {
    hide Whole, Erase, Split;
    var t, u, gap := Split(s, x), Split2(s, x, x + n), Fill(n, BLANK);
    SplitKeepsWhole(w, s, x);
    SplitLength(s, x);
    SplitLength(t, x + n);
    EraseParts(s, x, n);
    if x + n >= |s| {
      NothingAcross(t, x + n);
    } else {
      JoinShows(u, x, [], x + n, Erase(s, x, n, true), i);
      JoinShows(u, x, gap, x + n, Erase(s, x, n, false), i);
    }
  }

  lemma NothingAcross(s: seq<Cell>, x: nat)
    requires Led(s) && x >= |s|
    ensures Split(s, x) == s
  {
  }

  lemma EraseParts(s: seq<Cell>, x: nat, n: nat)
    requires Led(s) && x < |s|
    ensures |Split(s, x)| == |Split2(s, x, x + n)| == |s|
    ensures x + n >= |s| ==> Erase(s, x, n, true) == Erase(s, x, n, false) == Split(s, x)[..x]
    ensures x + n < |s| ==>
              var u := Split2(s, x, x + n);
              && Erase(s, x, n, true) == u[..x] + [] + u[x + n..]
              && Erase(s, x, n, false) == u[..x] + Fill(n, BLANK) + u[x + n..]
  {
    hide Split;
  }

  lemma CutTwice(w: Widths, s: seq<Cell>, x: nat, n: nat, i: nat)
    requires WidthsOk(w) && Whole(w, s) && Led(s) && (i < x || i >= x + n)
    ensures Shown(Split2(s, x, x + n), i) == if i < x then Halved(s, x, i) else Halved(s, x + n, i)
  {
    var t := Split(s, x);
    SplitIs(w, s, x);
    SplitKeepsWhole(w, s, x);
    SplitIs(w, t, x + n);
    assert Continues(s, x) ==> !Continues(s, x + 1);
    hide Whole, Split;
  }

  /** Deleting moves what is behind to the left, with blanks behind that. */
  lemma DeleteShows(w: Widths, s: seq<Cell>, x: nat, n: nat, i: nat)
    requires WidthsOk(w) && Whole(w, s) && Led(s)
    ensures Shown(Erase(s, x, n, true), i) == if i < x then Halved(s, x, i) else Halved(s, x + n, i + n)
  {
    if x < |s| {
      ErasedParts(w, s, x, n, i);
      CutTwice(w, s, x, n, if i < x then i else i + n);
    }
  }

  /** Column i of a row opened at x and cut at the column m that is the last to stay. */
  function Pushed(s: seq<Cell>, x: nat, m: nat, i: nat): Cell {
    if Continues(s, m) && m > x && i + 1 == m then Shown(s, i).(c := ' ') else Halved(s, x, i)
  }

  /** Cells put in between push what is behind to the right, and out of the row at its end. */
  lemma PushShows(w: Widths, s: seq<Cell>, x: nat, mid: seq<Cell>, width: nat, i: nat)
    requires WidthsOk(w) && Whole(w, s) && Led(s) && x + |mid| <= width && i < width
    ensures var u := Fitted(Opened(s, x), width - |mid|);
            && x <= |u|
            && Shown(u[..x] + mid + u[x..], i)
               == if i < x then Halved(s, x, i)
                  else if i < x + |mid| then mid[i - x]
                  else Pushed(s, x, width - |mid|, i - |mid|)
  {
    hide Whole, Opened, Fitted;
    var t, m := Opened(s, x), width - |mid|;
    var u := Fitted(t, m);
    OpenedIsWhole(w, s, x);
    OpenedShows(w, s, x, m);
    OpenedShows(w, s, x, x);
    JoinShows(u, x, mid, x, u[..x] + mid + u[x..], i);
    if i < x || i >= x + |mid| {
      var j := if i < x then i else i - |mid|;
      OpenedShows(w, s, x, j);
      FittedShows(w, t, m, j);
    }
  }

  lemma InsertParts(s: seq<Cell>, x: nat, n: nat, width: nat)
    requires Led(s) && |s| <= width && x < width
    ensures x <= |Opened(s, x)|
    ensures x + n >= width ==> InsertBlanks(s, x, n, width) == Opened(s, x)[..x] + Fill(width - x, BLANK)
    ensures x + n < width ==>
              var u := Fitted(Opened(s, x), width - n);
              x <= |u| && InsertBlanks(s, x, n, width) == u[..x] + Fill(n, BLANK) + u[x..]
  {
    hide Opened, Fitted;
  }

  lemma InsertShows(w: Widths, s: seq<Cell>, x: nat, n: nat, width: nat, i: nat)
    requires WidthsOk(w) && Whole(w, s) && Led(s) && |s| <= width && x < width && i < width
    ensures Shown(InsertBlanks(s, x, n, width), i)
         == if i < x then Halved(s, x, i)
            else if i < x + n then BLANK
            else Pushed(s, x, width - n, i - n)
  {
    hide Whole, Opened, InsertBlanks, Fitted, Pushed, Halved;
    InsertParts(s, x, n, width);
    if x + n < width {
      PushShows(w, s, x, Fill(n, BLANK), width, i);
    } else {
      OpenedShows(w, s, x, i);
    }
  }

  /** A glyph put over others shows at its column, and blanks the glyphs that it covers in part. */
  lemma OverwriteShows(w: Widths, s: seq<Cell>, x: nat, cell: Cell, width: nat, i: nat)
    requires WidthsOk(w) && Whole(w, s) && Led(s) && |s| <= width && cell.c != NUL
    requires 0 < w(cell.c) && x + w(cell.c) <= width
    ensures var n := w(cell.c);
            Shown(Put(s, x, cell, n, width, false), i)
            == if i < x then Halved(s, x, i) else if i < x + n then Glyph(cell, n)[i - x] else Halved(s, x + n, i)
  {
    var n, t := w(cell.c), Opened(s, x);
    hide Put, Glyph, Whole, Opened, Split;
    PutShowsAt(w, s, x, cell, width, i);
    OpenedShows(w, s, x, i);
    if i >= x + n {
      OpenedIsWhole(w, s, x);
      OpenedShows(w, s, x, x + n);
      SplitShows(w, t, x + n, i);
    }
  }

  /** In insert mode it pushes the others to the right. */
  lemma InsertedShows(w: Widths, s: seq<Cell>, x: nat, cell: Cell, width: nat, i: nat)
    requires WidthsOk(w) && Whole(w, s) && Led(s) && |s| <= width && cell.c != NUL
    requires 0 < w(cell.c) && x + w(cell.c) <= width && i < width
    ensures var n := w(cell.c);
            Shown(Put(s, x, cell, n, width, true), i)
            == if i < x then Halved(s, x, i)
               else if i < x + n then Glyph(cell, n)[i - x]
               else Pushed(s, x, width - n, i - n)
  {
    hide Put, Glyph, Whole, Opened, Fitted, Halved, Pushed;
    InsertedParts(s, x, cell, w(cell.c), width);
    GlyphLength(cell, w(cell.c));
    PushShows(w, s, x, Glyph(cell, w(cell.c)), width, i);
  }

  lemma InsertedParts(s: seq<Cell>, x: nat, cell: Cell, n: nat, width: nat)
    requires Led(s) && |s| <= width && cell.c != NUL && 0 < n && x + n <= width
    ensures var u := Fitted(Opened(s, x), width - n);
            x <= |u| && Put(s, x, cell, n, width, true) == u[..x] + Glyph(cell, n) + u[x..]
  {
    hide Opened, Fitted, Glyph;
  }

  /** Without room for it, the rest of the row is blank, in its attribute. */
  lemma NoRoomShows(w: Widths, s: seq<Cell>, x: nat, cell: Cell, width: nat, shift: bool, i: nat)
    requires WidthsOk(w) && Whole(w, s) && Led(s) && |s| <= width && cell.c != NUL
    requires x < width < x + w(cell.c) && i < width
    ensures Shown(Put(s, x, cell, w(cell.c), width, shift), i)
         == if i < x then Halved(s, x, i) else cell.(c := ' ')
  {
    var r, t := Put(s, x, cell, w(cell.c), width, shift), Opened(s, x);
    assert r == t[..x] + Fill(width - x, cell.(c := ' '));
    hide Whole, Opened, Put;
    OpenedShows(w, s, x, i);
  }
}
