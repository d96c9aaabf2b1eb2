/** A row of the terminal (vt/buffer.h, t_row): an array of cells edited in place. */
module RowArrays {
  import opened Rows
  import opened Screens

  /** t_row: the first size cells of the array are the row. What they say is also kept as a value. */
  class Row {
    const cells: array<Cell>
    var size: nat
    var wrapped: bool
    ghost var line: Line

    constructor (capacity: nat)
      ensures Valid() && line == EMPTY && cells.Length == capacity && fresh(cells)
    {
      cells := new Cell[capacity](_ => BLANK);
      size, wrapped, line := 0, false, EMPTY;
    }

    /** A new row with a copy of the first cells of another. */
    constructor Copy(capacity: nat, n: nat, from: Row)
      requires from.Sized() && Led(from.Cells()) && n <= from.size && n <= capacity
      ensures Valid() && line == Line(from.Cells()[..n], false) && cells.Length == capacity && fresh(cells)
    {
      var source := from.cells;
      cells := new Cell[capacity](i requires 0 <= i < capacity reads source =>
        if i < source.Length then source[i] else BLANK);
      size, wrapped, line := n, false, Line(from.Cells()[..n], false);
    }

    /** A row never begins with a continuation. */
    ghost predicate Valid()
      reads this, cells
    {
      Sized() && line == Line(Cells(), wrapped) && Led(line.cells)
    }

    ghost predicate Sized()
      reads this`size
    {
      size <= cells.Length
    }

    ghost function Cells(): (r: seq<Cell>)
      requires Sized()
      reads this`size, cells
      ensures |r| == size
    {
      cells[..size]
    }

    method Split(x: nat)
      requires Sized() && Led(Cells())
      modifies cells
      ensures Cells() == Rows.Split(old(Cells()), x)
      ensures forall i :: size <= i < cells.Length ==> cells[i] == old(cells[i])
    {
      if x >= size || cells[x].c != NUL { return; }
      var i := x - 1;
      ghost var s := Cells();
      ghost var from := Start(s, x);
      while cells[i].c == NUL
        invariant from <= i < x
        decreases i
      {
        i := i - 1;
      }
      assert i == from;
      ghost var to := End(s, x);
      cells[i] := cells[i].(c := ' ');
      i := i + 1;
      while i < size && cells[i].c == NUL
        invariant from < i <= to
        invariant forall k :: 0 <= k < size ==> cells[k] == if from <= k < i then s[k].(c := ' ') else s[k]
        invariant forall k :: size <= k < cells.Length ==> cells[k] == old(cells[k])
        decreases size - i
      {
        cells[i] := cells[i].(c := ' ');
        i := i + 1;
      }
      assert i == to;
    }

    method Expand(n: nat)
      requires Sized() && Led(Cells()) && n <= cells.Length
      modifies cells, this`size
      ensures Sized() && Cells() == Rows.Expand(old(Cells()), n)
    {
      if n <= size { return; }
      Fill(size, n, BLANK);
      size := n;
    }

    method Fill(from: nat, to: nat, cell: Cell)
      requires from <= to <= cells.Length
      modifies cells
      ensures cells[..] == old(cells[..from]) + Rows.Fill(to - from, cell) + old(cells[to..])
    {
      for i := from to to
        invariant forall k :: 0 <= k < cells.Length ==> cells[k] == if from <= k < i then cell else old(cells[k])
      {
        cells[i] := cell;
      }
    }

    /** The same up to a new end of the row. */
    method FillToEnd(from: nat, width: nat, cell: Cell)
      requires Sized() && from <= size && from <= width <= cells.Length
      modifies cells, this`size
      ensures Sized() && Cells() == old(Cells()[..from]) + Rows.Fill(width - from, cell)
    {
      ghost var was := cells[..];
      assert was[..from] == Cells()[..from];
      Fill(from, width, cell);
      size := width;
      assert Cells() == cells[..][..width];
    }

    /** The same, said of the cells in use. */
    method FillInside(from: nat, to: nat, cell: Cell)
      requires Sized() && from <= to <= size
      modifies cells
      ensures Cells() == old(Cells()[..from]) + Rows.Fill(to - from, cell) + old(Cells()[to..])
    {
      ghost var was := cells[..];
      Fill(from, to, cell);
      assert Cells() == cells[..][..size] && was[..size] == old(Cells());
      assert was[..from] == was[..size][..from];
      assert (was[..from] + Rows.Fill(to - from, cell) + was[to..])[..size]
          == was[..size][..from] + Rows.Fill(to - from, cell) + was[..size][to..];
    }

    /** std::copy_backward of the cells from x to y, n to the right. */
    method MoveRight(x: nat, y: nat, n: nat)
      requires x <= y && y + n <= cells.Length
      modifies cells
      ensures cells[..x] == old(cells[..x]) && cells[x + n..y + n] == old(cells[x..y])
    {
      var i := y;
      ghost var s := cells[..];
      while i > x
        invariant x <= i <= y
        invariant forall k {:trigger cells[k]} :: 0 <= k < i ==> cells[k] == s[k]
        invariant forall k {:trigger cells[k]} :: i + n <= k < y + n ==> cells[k] == s[k - n]
      {
        i := i - 1;
        cells[i + n] := cells[i];
      }
    }

    /** Move the cells from x on to the right by n, after dropping what would leave the row. */
    method Insert(x: nat, n: nat, width: nat)
      requires Sized() && Led(Cells()) && x <= size && !Continues(Cells(), x) && x + n <= width <= cells.Length
      modifies cells, this`size
      ensures Sized()
      ensures var t := Fitted(old(Cells()), width - n);
              size == |t| + n && x <= |t| && Cells()[..x] == t[..x] && Cells()[x + n..] == t[x..]
    {
      if size + n > width {
        Split(width - n);
        size := width - n;
      }
      ghost var t, was, m := Cells(), cells[..], size;
      assert t == Fitted(old(Cells()), width - n);
      assert t == was[..m] && was[..x] == cells[..x] && was[x..m] == cells[x..m];
      MoveRight(x, size, n);
      size := size + n;
      Moved(was, cells[..], x, m, n);
      assert Cells() == cells[..][..m + n];
    }

    lemma Moved(was: seq<Cell>, now: seq<Cell>, x: nat, m: nat, n: nat)
      requires x <= m && m + n <= |was| == |now|
      requires now[..x] == was[..x] && now[x + n..m + n] == was[x..m]
      ensures now[..m + n][..x] == was[..m][..x] && now[..m + n][x + n..] == was[..m][x..]
    {
      assert now[..m + n][..x] == now[..x] && was[..m][..x] == was[..x];
      assert now[..m + n][x + n..] == now[x + n..m + n] && was[..m][x..] == was[x..m];
    }

    /** t_row::f_expand and f_split: room for an edit at column x. */
    method Open(x: nat)
      requires Sized() && Led(Cells()) && x <= cells.Length
      modifies cells, this`size
      ensures Sized() && Cells() == Opened(old(Cells()), x)
    {
      Expand(x);
      Split(x);
    }

    // The edits of t_buffer, on the row they are for.

    method InsertBlanks(x: nat, n: nat, width: nat)
      requires Valid() && size <= width && x < width <= cells.Length
      modifies cells, this`size, this`line
      ensures Valid() && line == old(line).(cells := Rows.InsertBlanks(old(line).cells, x, n, width))
    {
      InsertBlanksIs(Cells(), x, n, width);
      ghost var r := Rows.InsertBlanks(Cells(), x, n, width);
      hide Opened, Fitted, Continues, Led, Rows.InsertBlanks;
      Open(x);
      if x + n >= width {
        FillToEnd(x, width, BLANK);
      } else {
        Gap(x, n, width);
      }
      line := Line(Cells(), wrapped);
    }

    /** n blanks from column x on, with what no longer fits dropped. */
    method Gap(x: nat, n: nat, width: nat)
      requires Sized() && Led(Cells()) && x <= size && !Continues(Cells(), x) && x + n <= width <= cells.Length
      modifies cells, this`size
      ensures Sized()
      ensures var u := Fitted(old(Cells()), width - n); x <= |u| && Cells() == u[..x] + Rows.Fill(n, BLANK) + u[x..]
    {
      hide Fitted, Continues, Led;
      ghost var u := Fitted(Cells(), width - n);
      Insert(x, n, width);
      ghost var c := Cells();
      FillInside(x, x + n, BLANK);
      SameParts(Cells(), c, u, Rows.Fill(n, BLANK), x, n);
    }

    static lemma SameParts(r: seq<Cell>, c: seq<Cell>, u: seq<Cell>, gap: seq<Cell>, x: nat, n: nat)
      requires x + n <= |c| && x <= |u| && c[..x] == u[..x] && c[x + n..] == u[x..]
      requires r == c[..x] + gap + c[x + n..]
      ensures r == u[..x] + gap + u[x..]
    {
    }

    static lemma InsertBlanksIs(s: seq<Cell>, x: nat, n: nat, width: nat)
      requires Led(s) && |s| <= width && x < width
      ensures var t, r := Opened(s, x), Rows.InsertBlanks(s, x, n, width);
              && Led(r)
              && (x + n >= width ==> r == t[..x] + Rows.Fill(width - x, BLANK))
              && (x + n < width ==>
                    var u := Fitted(t, width - n);
                    x <= |u| && r == u[..x] + Rows.Fill(n, BLANK) + u[x..])
    {
    }

    method Put(x: nat, cell: Cell, n: nat, width: nat, shift: bool)
      requires Valid() && size <= width <= cells.Length && n > 0 && x < width && cell.c != NUL
      modifies cells, this`size, this`line
      ensures Valid() && line == old(line).(cells := Rows.Put(old(line).cells, x, cell, n, width, shift))
    {
      hide Opened, Fitted, Continues, Led, Rows.Split, Glyph;
      Open(x);
      if x + n > width {
        FillToEnd(x, width, cell.(c := ' '));
      } else if shift {
        Insert(x, n, width);
        PutGlyph(x, cell, n);
      } else {
        MakeRoom(x, n);
        PutGlyph(x, cell, n);
      }
      assert Cells() == Rows.Put(old(line).cells, x, cell, n, width, shift);
      line := Line(Cells(), wrapped);
    }

    /** Without shifting, a glyph behind the written cells is not left without its first half. */
    method MakeRoom(x: nat, n: nat)
      requires Sized() && Led(Cells()) && n > 0 && x + n <= cells.Length && x <= size && !Continues(Cells(), x)
      modifies cells, this`size
      ensures Sized() && size == if x + n < old(size) then old(size) else x + n
      ensures Cells()[..x] == old(Cells()[..x])
      ensures Cells()[x + n..] == var u := Rows.Split(old(Cells()), x + n); u[if x + n < |u| then x + n else |u|..]
    {
      if x + n < size {
        SplitBehind(Cells(), x, x + n);
        Split(x + n);
      } else {
        size := x + n;
      }
    }

    lemma SplitBehind(s: seq<Cell>, x: nat, y: nat)
      requires Led(s) && x < y && x <= |s| && !Continues(s, x)
      ensures Rows.Split(s, y)[..x] == s[..x]
    {
      if Continues(s, y) {
        assert x <= Start(s, y);
      }
    }

    method PutGlyph(x: nat, cell: Cell, n: nat)
      requires Sized() && n > 0 && x + n <= size
      modifies cells
      ensures Cells() == old(Cells()[..x]) + Glyph(cell, n) + old(Cells()[x + n..])
    {
      ghost var was := cells[..];
      cells[x] := cell;
      ghost var first := cells[..];
      Fill(x + 1, x + n, cell.(c := NUL));
      GlyphFilled(was, first, cells[..], x, cell, n);
      assert Cells() == cells[..][..size] && was[..size] == old(Cells());
      GlyphInside(was, size, x, Glyph(cell, n));
    }

    lemma GlyphFilled(was: seq<Cell>, first: seq<Cell>, now: seq<Cell>, x: nat, cell: Cell, n: nat)
      requires n > 0 && x + n <= |was| && first == was[x := cell]
      requires now == first[..x + 1] + Rows.Fill(x + n - (x + 1), cell.(c := NUL)) + first[x + n..]
      ensures now == was[..x] + Glyph(cell, n) + was[x + n..]
    {
      assert first[..x + 1] == was[..x] + [cell];
      assert first[x + n..] == was[x + n..];
    }

    lemma GlyphInside(was: seq<Cell>, size: nat, x: nat, g: seq<Cell>)
      requires x + |g| <= size <= |was|
      ensures (was[..x] + g + was[x + |g|..])[..size] == was[..size][..x] + g + was[..size][x + |g|..]
    {
    }

    method Erase(x: nat, n: int, shift: bool)
      requires Valid() && x < size && n >= 0
      modifies cells, this`size, this`line
      ensures Valid() && line == old(line).(cells := Rows.Erase(old(line).cells, x, n, shift))
    {
      hide Rows.Split, Continues, Led;
      Split(x);
      if x + n >= size {
        size := x;
      } else {
        Split(x + n);
        Close(x, n, shift);
      }
      assert Cells() == Rows.Erase(old(line).cells, x, n, shift);
      line := Line(Cells(), wrapped);
    }

    /** A row that is used again starts empty. */
    method Clear()
      modifies this`size, this`wrapped, this`line
      ensures Valid() && line == EMPTY
    {
      size, wrapped, line := 0, false, EMPTY;
    }

    method MarkWrapped()
      requires Valid()
      modifies this`wrapped, this`line
      ensures Valid() && line == old(line).(wrapped := true)
    {
      wrapped, line := true, line.(wrapped := true);
    }

    /** Remove or blank n cells. */
    method Close(x: nat, n: nat, shift: bool)
      requires Sized() && x + n < size
      modifies cells, this`size
      ensures Sized()
      ensures var u := old(Cells()); Cells() == u[..x] + (if shift then [] else Rows.Fill(n, BLANK)) + u[x + n..]
    {
      if shift {
        MoveLeft(x + n, size, x);
        size := size - n;
      } else {
        Fill(x, x + n, BLANK);
      }
    }

    /** std::copy of the cells from x to y, to the left. */
    method MoveLeft(x: nat, y: nat, to: nat)
      requires to <= x <= y <= cells.Length
      modifies cells
      ensures cells[..to] == old(cells[..to]) && cells[to..to + (y - x)] == old(cells[x..y])
    {
      var d := x - to;
      ghost var s := cells[..];
      for i := x to y
        invariant forall k {:trigger cells[k]} :: 0 <= k < to ==> cells[k] == s[k]
        invariant forall k {:trigger cells[k]} :: to <= k < i - d ==> cells[k] == s[k + d]
        invariant forall k {:trigger cells[k]} :: i <= k < y ==> cells[k] == s[k]
      {
        cells[i - d] := cells[i];
      }
      CopiedDown(s, cells[..], x, y, to);
    }

    lemma CopiedDown(s: seq<Cell>, r: seq<Cell>, x: nat, y: nat, to: nat)
      requires to <= x <= y <= |s| == |r|
      requires forall k {:trigger r[k]} :: 0 <= k < to ==> r[k] == s[k]
      requires forall k {:trigger r[k]} :: to <= k < to + (y - x) ==> r[k] == s[k + (x - to)]
      ensures r[..to] == s[..to] && r[to..to + (y - x)] == s[x..y]
    {
    }
  }
}
