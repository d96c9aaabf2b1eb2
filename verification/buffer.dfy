/**
 The buffer of the terminal (vt/buffer.h, t_buffer): a fixed pool of rows that circulate between a
 ring for the log and two screens. Each method is tied to the operation on values it carries out.
 */
module Buffers {
  import opened Rows
  import opened RowArrays
  import opened Damage
  import opened Screens
  import opened ScreenSteps
  import opened Windows
  import opened Pools

  function Arrays(rows: seq<Row>): set<object> {
    set r | r in rows :: r.cells
  }

  ghost predicate RowsValid(rows: seq<Row>)
    reads rows, Arrays(rows)
  {
    forall r :: r in rows ==> r.Valid()
  }

  ghost function LinesOf(rows: seq<Row>): (r: seq<Line>)
    reads rows
    ensures |r| == |rows| && forall i :: 0 <= i < |r| ==> r[i] == rows[i].line
  {
    seq(|rows|, i requires 0 <= i < |rows| reads rows => rows[i].line)
  }

  /** No row and no array of cells is used twice, and all are of the same width. */
  ghost predicate PoolOk(pool: seq<Row>, width: nat) {
    && Distinct(pool)
    && (forall r, s :: r in pool && s in pool && r != s ==> r.cells != s.cells)
    && (forall r :: r in pool ==> r.cells.Length == width)
  }

  lemma PermutedPoolIsOk(pool: seq<Row>, other: seq<Row>, width: nat)
    requires PoolOk(pool, width) && multiset(pool) == multiset(other)
    ensures PoolOk(other, width) && forall r :: r in other <==> r in pool
  {
    PermutedIsDistinct(pool, other);
  }

  method NewRows(n: nat, width: nat) returns (rows: seq<Row>)
    ensures |rows| == n && PoolOk(rows, width) && RowsValid(rows) && LinesOf(rows) == Empties(n)
    ensures forall r :: r in rows ==> fresh(r) && fresh(r.cells)
  {
    rows := [];
    for i := 0 to n
      invariant |rows| == i && PoolOk(rows, width) && RowsValid(rows)
      invariant forall r :: r in rows ==> fresh(r) && fresh(r.cells)
      invariant forall j :: 0 <= j < i ==> rows[j].line == EMPTY
    {
      var row := new Row(width);
      MorePoolIsOk(rows, row, width);
      rows := rows + [row];
    }
    assert LinesOf(rows) == Empties(n);
  }

  /** The same with other rows on the screen in use. */
  function OnScreen(h: Hosted, rows: seq<Line>): Hosted {
    h.(screen := h.screen.WithRows(rows))
  }

  lemma UpIsRotated(rows: seq<Line>, y: nat, h: nat, n: nat)
    requires y + h <= |rows| && n <= h
    ensures Erased(Rotated(rows, y, y + n, y + h), y + h - n, n) == Up(rows, y, h, n)
  {
  }

  lemma DownIsRotated(rows: seq<Line>, y: nat, h: nat, n: nat)
    requires y + h <= |rows| && n <= h
    ensures Erased(Rotated(rows, y, y + h - n, y + h), y, n) == Down(rows, y, h, n)
  {
  }

  lemma ScrollUpIs(h: Hosted, y: nat, n: nat, k: nat)
    requires Proper(h.view) && y + n <= |h.screen.Rows()|
    ensures var d := Least(k, n);
            Screens.ScrollUp(h, y, n, k)
            == if d == 0 then h else Screens.MoveRegion(OnScreen(h, Up(h.screen.Rows(), y, n, d)), y, n, 0 - d)
  {
  }

  lemma ScrollDownIs(h: Hosted, y: nat, n: nat, k: nat)
    requires Proper(h.view) && y + n <= |h.screen.Rows()|
    ensures var d := Least(k, n);
            Screens.ScrollDown(h, y, n, k)
            == if d == 0 then h else Screens.MoveRegion(OnScreen(h, Down(h.screen.Rows(), y, n, d)), y, n, d)
  {
  }

  /** Rows turned and then erased. */
  lemma TurnedAndErased(h: Hosted, h1: Hosted, h2: Hosted, turned: seq<Line>, a: nat, n: nat, rows: seq<Line>)
    requires h1 == OnScreen(h, turned) && a + n <= |turned| && |h1.screen.Rows()| == |turned|
    requires h2 == OnScreen(h1, Erased(h1.screen.Rows(), a, n)) && rows == Erased(turned, a, n)
    ensures h2 == OnScreen(h, rows)
  {
    hide Erased;
  }

  lemma TurnedHas(h: Hosted, turned: seq<Line>)
    ensures OnScreen(h, turned).screen.Rows() == turned
  {
  }

  /** The first row pushed to the log, with the given line left at the end of the screen. */
  function Pushed(s: Screen, last: Line): Screen
    requires s.Rows() != []
  {
    s.WithRows(s.Rows()[1..] + [last]).(log :=
      if |s.log| < s.capacity || s.log == [] then s.log + [s.Rows()[0]] else s.log[1..] + [s.Rows()[0]])
  }

  /** A row has gone to the log, and the window knows whether the log has grown. */
  function WithLogged(h: Hosted): Hosted
    requires h.screen.Rows() != [] && h.screen.capacity > 0
  {
    Hosted(PushLog(h.screen), if |h.screen.log| < h.screen.capacity then Logged(h.view) else h.view)
  }

  lemma LoggedSteps(h: Hosted, h1: Hosted, h2: Hosted, last: Line)
    requires h.screen.Rows() != [] && h.screen.capacity > 0 && |h.screen.log| <= h.screen.capacity
    requires |h.screen.Rows()| == h.screen.height
    requires h1 == Hosted(Pushed(h.screen, last), if |h.screen.log| < h.screen.capacity then Logged(h.view) else h.view)
    requires |h1.screen.Rows()| == h.screen.height && h2 == OnScreen(h1, h1.screen.Rows()[h.screen.height - 1 := EMPTY])
    ensures h2 == WithLogged(h)
  {
    assert (h.screen.Rows()[1..] + [last])[h.screen.height - 1 := EMPTY] == h.screen.Rows()[1..] + [EMPTY];
  }

  lemma ScrollLogSteps(h: Hosted, h1: Hosted, h2: Hosted)
    requires Proper(h.view) && h.screen.Rows() != [] && h.screen.capacity > 0 && |h.screen.Rows()| == h.screen.height
    requires h1 == Redraw(h, h.screen.y, 1) && h1.screen.Rows() != [] && h1.screen.capacity > 0 && h2 == WithLogged(h1)
    ensures Proper(h2.view) && h2.screen.y == h.screen.y && h2.screen.height == h.screen.height
    ensures var n := |h2.screen.log|; ScrollLog(h) == Redraw(Move(h2, -n, n + h.screen.height, -1), h.screen.y, 1)
  {
    hide Move, Invalidate, Proper;
    RedrawIsProper(h, h.screen.y, 1);
    LoggedIsProper(h1.view);
  }

  lemma LoggedIsProper(v: View)
    requires Proper(v)
    ensures Proper(Logged(v))
  {
  }

  /** New rows in another width. */
  method CutRows(rows: seq<Row>, w: nat, ghost width: nat) returns (r: seq<Row>)
    requires RowsValid(rows) && PoolOk(rows, width)
    modifies Arrays(rows)
    ensures |r| == |rows| && PoolOk(r, w) && RowsValid(r)
    ensures forall s :: s in r ==> fresh(s) && fresh(s.cells)
    ensures forall i :: 0 <= i < |rows| ==> IsCut(r[i], rows[i], w)
  {
    r := [];
    for i := 0 to |rows|
      invariant |r| == i && PoolOk(r, w)
      invariant forall s :: s in r ==> fresh(s) && fresh(s.cells) && s.Valid()
      invariant forall j :: i <= j < |rows| ==> rows[j].Valid()
      invariant forall j :: 0 <= j < i ==> Led(rows[j].line.cells) && r[j].line == Cut(rows[j].line, w)
    {
      hide Led, Cut, PoolOk;
      ArraysDiffer(rows, width, i);
      var row := CutRow(rows[i], w);
      MorePoolIsOk(r, row, w);
      r := r + [row];
    }
  }

  ghost predicate IsCut(r: Row, row: Row, w: nat)
    reads r, row
  {
    Led(row.line.cells) && r.line == Cut(row.line, w)
  }

  lemma JoinedPoolIsOk(a: seq<Row>, b: seq<Row>, width: nat)
    requires PoolOk(a, width) && PoolOk(b, width) && forall r, s :: r in a && s in b ==> r != s && r.cells != s.cells
    ensures PoolOk(a + b, width)
  {
    var p := a + b;
    forall i, j | 0 <= i < j < |p| ensures p[i] != p[j] {
      if i < |a| <= j {
        assert p[i] in a && p[j] == b[j - |a|];
      }
    }
  }

  lemma JoinedRowsAreValid(a: seq<Row>, b: seq<Row>, rows: seq<Row>)
    requires RowsValid(a) && RowsValid(b) && multiset(rows) == multiset(a + b)
    ensures RowsValid(rows)
  {
    forall r | r in rows ensures r.Valid() {
      assert r in multiset(rows);
      assert r in a + b;
    }
  }

  /** Rows for a log, then half of the rest and half of the new ones for each screen. */
  ghost function Regrouped<T>(a: seq<T>, b: seq<T>, c: nat, n: nat, m: nat): seq<T>
    requires |a| == c + 2 * n && |b| == 2 * m
  {
    a[..c] + (a[c..c + n] + b[..m]) + (a[c + n..] + b[m..])
  }

  lemma RegroupedIsPermuted<T>(a: seq<T>, b: seq<T>, c: nat, n: nat, m: nat)
    requires |a| == c + 2 * n && |b| == 2 * m
    ensures multiset(Regrouped(a, b, c, n, m)) == multiset(a + b)
  {
    assert a == a[..c] + a[c..c + n] + a[c + n..];
    assert b == b[..m] + b[m..];
  }

  lemma ArraysDiffer(rows: seq<Row>, width: nat, i: nat)
    requires PoolOk(rows, width) && i < |rows|
    ensures forall j :: i < j < |rows| ==> rows[j].cells != rows[i].cells
  {
  }

  lemma MorePoolIsOk(rows: seq<Row>, row: Row, width: nat)
    requires PoolOk(rows, width) && (forall r :: r in rows ==> r != row && r.cells != row.cells)
      && row.cells.Length == width
    ensures PoolOk(rows + [row], width)
  {
  }

  method CutRow(row: Row, w: nat) returns (r: Row)
    requires row.Valid()
    modifies row.cells
    ensures Led(row.line.cells) && r.Valid() && r.line == Cut(row.line, w)
    ensures r.cells.Length == w && fresh(r) && fresh(r.cells)
  {
    if w < row.size {
      row.Split(w);
      r := new Row.Copy(w, w, row);
    } else {
      r := new Row.Copy(w, row.size, row);
    }
  }

  class Buffer {
    const host: Window
    const capacity: nat
    var width: nat
    var height: nat
    var log: seq<Row>
    var logBegin: nat
    var logSize: nat
    var normal: seq<Row>
    var alternate: seq<Row>
    var onAlternate: bool
    var attribute: Attribute
    var x: nat
    var y: nat
    var savedNormal: Saved
    var savedAlternate: Saved

    constructor (host: Window, capacity: nat, width: nat, height: nat, savedNormal: Saved, savedAlternate: Saved)
      requires host.Valid() && capacity > 0 && width > 0 && height > 0
      ensures Valid() && this.host == host && forall r :: r in Pool() ==> fresh(r) && fresh(r.cells)
      ensures AsScreen() == Fresh(capacity, width, height, savedNormal, savedAlternate)
    {
      hide PoolOk, Window.Valid;
      var rows := NewRows(capacity + 2 * height, width);
      this.host, this.capacity, this.width, this.height := host, capacity, width, height;
      logBegin, logSize, onAlternate, attribute, x, y := 0, 0, false, PLAIN, 0, 0;
      this.savedNormal, this.savedAlternate := savedNormal, savedAlternate;
      log, normal, alternate := rows[..capacity], rows[capacity..capacity + height], rows[capacity + height..];
      new;
      hide *;
      MadeAfresh(rows);
    }

    lemma MadeAfresh(rows: seq<Row>)
      requires capacity > 0 && width > 0 && height > 0 && |rows| == capacity + 2 * height
      requires log == rows[..capacity] && normal == rows[capacity..capacity + height]
        && alternate == rows[capacity + height..]
      requires logBegin == 0 && logSize == 0 && !onAlternate && attribute == PLAIN && x == 0 && y == 0
      requires PoolOk(rows, width) && RowsValid(rows) && LinesOf(rows) == Empties(|rows|) && host.Valid()
      ensures Valid() && Pool() == rows && AsScreen() == Fresh(capacity, width, height, savedNormal, savedAlternate)
    {
      assert Pool() == rows;
      assert forall i :: 0 <= i < |rows| ==> rows[i].line == LinesOf(rows)[i];
      assert LinesOf(normal) == Empties(height);
      assert LinesOf(alternate) == Empties(height);
      assert LogRows() == [];
    }

    function Pool(): seq<Row>
      reads this
    {
      log + normal + alternate
    }

    ghost predicate Shape()
      reads this
    {
      && capacity > 0 && width > 0 && height > 0
      && |log| == capacity && |normal| == |alternate| == height
      && logSize <= capacity && logBegin < capacity && (logSize < capacity ==> logBegin == 0)
      && PoolOk(Pool(), width)
    }

    ghost predicate Valid()
      reads this, host, Pool(), Arrays(Pool())
    {
      Shape() && RowsValid(Pool()) && host.Valid()
    }

    lemma Parts()
      ensures forall r :: r in log || r in normal || r in alternate <==> r in Pool()
      ensures forall i :: 0 <= i < |normal| ==> normal[i] in Pool()
      ensures forall i :: 0 <= i < |alternate| ==> alternate[i] in Pool()
    {
    }

    /** The rows of the log, oldest first. */
    ghost function LogRows(): (r: seq<Row>)
      requires Shape()
      reads this
      ensures |r| == logSize && forall i :: 0 <= i < |r| ==> r[i] in log && r[i] in Pool()
    {
      Ring(log, logBegin, logSize)
    }

    /** f_log: counted from the oldest row. */
    function LogAt(i: nat): (r: Row)
      requires Shape() && i < logSize
      reads this
      ensures r == LogRows()[i]
    {
      RingAt(log, logBegin, logSize, i);
      log[(logBegin + i) % capacity]
    }

    function Rows(): seq<Row>
      reads this
    {
      if onAlternate then alternate else normal
    }

    function RowSet(): set<Row>
      reads this
    {
      Elements(Rows())
    }

    ghost function AsScreen(): (s: Screen)
      requires Shape()
      reads this, Pool()
    {
      Parts();
      Screen(capacity, width, height, LinesOf(LogRows()), LinesOf(normal), LinesOf(alternate), onAlternate,
             attribute, x, y, savedNormal, savedAlternate)
    }

    ghost function AsHosted(): Hosted
      requires Valid()
      reads this, host, Pool(), Arrays(Pool())
    {
      Hosted(AsScreen(), host.AsView())
    }

    /** What f_log and f_at let the window read of rows. */
    method LinesRead(rows: seq<Row>) returns (lines: seq<Line>)
      requires RowsValid(rows)
      ensures lines == LinesOf(rows)
    {
      lines := [];
      for i := 0 to |rows|
        invariant |lines| == i && forall j :: 0 <= j < i ==> lines[j] == rows[j].line
      {
        assert rows[i].Valid();
        lines := lines + [Line(rows[i].cells[..rows[i].size], rows[i].wrapped)];
      }
    }

    /** The log from its oldest row on. */
    method LogRead() returns (rows: seq<Row>)
      requires Valid()
      ensures rows == LogRows()
    {
      hide PoolOk, Ring, Window.Valid, RowsValid;
      rows := [];
      for i := 0 to logSize
        invariant |rows| == i && forall j :: 0 <= j < i ==> rows[j] == LogRows()[j]
      {
        rows := rows + [LogAt(i)];
      }
    }

    /** All that is drawn. */
    method Seen() returns (s: Screen)
      requires Valid()
      ensures s == AsScreen()
    {
      Parts();
      hide PoolOk, Ring, Window.Valid, LinesOf;
      var rows := LogRead();
      var log1 := LinesRead(rows);
      var normal1 := LinesRead(normal);
      var alternate1 := LinesRead(alternate);
      s := Screen(capacity, width, height, log1, normal1, alternate1, onAlternate, attribute, x, y, savedNormal,
        savedAlternate);
    }

    // Editing one row.

    /** Row k of the screen in use is neither in the log nor anywhere else. */
    lemma RowIsApart(k: nat)
      requires Shape() && k < height
      ensures Rows()[k] in Pool() && Rows()[k].cells.Length == width
      ensures forall i :: 0 <= i < |LogRows()| ==> LogRows()[i] != Rows()[k]
      ensures forall i :: 0 <= i < height && (onAlternate || i != k) ==> normal[i] != Rows()[k]
      ensures forall i :: 0 <= i < height && (!onAlternate || i != k) ==> alternate[i] != Rows()[k]
      ensures forall r :: r in Pool() && r != Rows()[k] ==> r.cells != Rows()[k].cells
    {
      DistinctParts(log, normal, alternate);
      forall i | 0 <= i < |LogRows()| ensures LogRows()[i] in log {
        RingAt(log, logBegin, logSize, i);
      }
      assert Rows()[k] in normal || Rows()[k] in alternate;
    }

    /** No row but row k of the screen in use has changed. */
    twostate predicate OnlyRow(k: nat)
      requires Shape() && k < height
      reads this, Pool(), Arrays(Pool())
    {
      unchanged(this) && forall r :: r in Pool() && r != Rows()[k] ==> unchanged(r) && unchanged(r.cells)
    }

    twostate lemma RowEdited(k: nat)
      requires old(Valid()) && Shape() && k < height && OnlyRow(k) && Rows()[k].Valid()
      ensures RowsValid(Pool())
      ensures var s := old(AsScreen());
              |s.Rows()| == height && s.Rows()[k] == old(Rows()[k].line) &&
              AsScreen() == s.WithRows(s.Rows()[k := Rows()[k].line])
    {
      RowIsApart(k);
      Parts();
      assert LinesOf(LogRows()) == old(LinesOf(LogRows()));
      if onAlternate {
        assert LinesOf(normal) == old(LinesOf(normal));
        assert LinesOf(alternate) == old(LinesOf(alternate))[k := alternate[k].line];
      } else {
        assert LinesOf(alternate) == old(LinesOf(alternate));
        assert LinesOf(normal) == old(LinesOf(normal))[k := normal[k].line];
      }
    }

    lemma RowOfScreen(k: nat)
      requires Valid() && k < height
      ensures |AsScreen().Rows()| == height && AsScreen().Rows()[k] == Rows()[k].line
      ensures Rows()[k] in Pool() && Rows()[k].Valid() && Rows()[k].size == |Rows()[k].line.cells|
        && LineLed(Rows()[k].line, width)
    {
      RowIsApart(k);
      Parts();
    }

    lemma RowFits(k: nat)
      requires Valid() && k < height
      ensures Rows()[k].size <= width
    {
      RowOfScreen(k);
    }

    /** f_put of a cell. */
    method PutCell(x: nat, y: nat, cell: Cell, n: nat, shift: bool)
      requires Valid() && y < height && cell.c != NUL
      modifies host, Rows()[y], Rows()[y].cells
      ensures Valid() && y < |old(AsHosted()).screen.Rows()| && FitsRow(old(AsHosted()).screen, y)
      ensures AsHosted() == Screens.PutCell(old(AsHosted()), x, y, cell, n, shift)
    {
      hide Put, Invalidate, PoolOk, Ring, LinesOf, Proper;
      RowOfScreen(y);
      if n == 0 || x >= width { return; }
      var row := Rows()[y];
      RowIsApart(y);
      row.Put(x, cell, n, width, shift);
      host.Invalidate(logSize, y, 1);
      RowEdited(y);
    }

    method InsertCells(x: nat, y: nat, n: nat)
      requires Valid() && y < height
      modifies host, Rows()[y], Rows()[y].cells
      ensures Valid() && y < |old(AsHosted()).screen.Rows()| && FitsRow(old(AsHosted()).screen, y)
      ensures AsHosted() == Screens.InsertCells(old(AsHosted()), x, y, n)
    {
      hide InsertBlanks, Invalidate, PoolOk, Ring, LinesOf, Proper;
      RowOfScreen(y);
      if x >= width { return; }
      var row := Rows()[y];
      RowIsApart(y);
      row.InsertBlanks(x, n, width);
      host.Invalidate(logSize, y, 1);
      RowEdited(y);
    }

    /** f_erase of cells. */
    method EraseCells(x: nat, y: nat, n: int, shift: bool)
      requires Valid() && y < height && (x < Rows()[y].size ==> n >= 0)
      modifies host, Rows()[y], Rows()[y].cells
      ensures Valid() && y < |old(AsHosted()).screen.Rows()| && FitsRow(old(AsHosted()).screen, y)
      ensures x < |old(AsHosted()).screen.Rows()[y].cells| ==> n >= 0
      ensures AsHosted() == Screens.EraseCells(old(AsHosted()), x, y, n, shift)
    {
      hide Erase, Invalidate, PoolOk, Ring, LinesOf, Proper;
      RowOfScreen(y);
      var row := Rows()[y];
      if x >= row.size { return; }
      RowIsApart(y);
      row.Erase(x, n, shift);
      host.Invalidate(logSize, y, 1);
      RowEdited(y);
    }

    /** f_wrap. */
    method Wrap(y: nat)
      requires Valid() && y < height
      modifies Rows()[y]
      ensures Valid() && y < |old(AsHosted()).screen.Rows()| && AsHosted() == Screens.Wrap(old(AsHosted()), y)
    {
      hide PoolOk, Ring, LinesOf, Proper;
      RowOfScreen(y);
      RowIsApart(y);
      Rows()[y].MarkWrapped();
      RowEdited(y);
    }

    // Whole rows.

    /** Empty rows y to y + n of the screen in use. */
    method ClearRows(y: nat, n: nat)
      requires Valid() && y + n <= height
      modifies RowSet()
      ensures Valid() && |old(AsHosted()).screen.Rows()| == height
      ensures AsHosted() == OnScreen(old(AsHosted()), Erased(old(AsHosted()).screen.Rows(), y, n))
    {
      hide PoolOk, Ring, LinesOf, RowsValid, Erased, Window.Valid;
      ghost var was := AsScreen();
      var i := 0;
      NothingErased(was, y);
      while i < n
        invariant i <= n && Valid() && |was.Rows()| == height
        invariant AsHosted() == OnScreen(old(AsHosted()), Erased(was.Rows(), y, i))
        decreases n - i
      {
        ClearRow(y + i);
        OneMoreErased(was, y, i);
        i := i + 1;
      }
    }

    method ClearRow(k: nat)
      requires Valid() && k < height
      modifies Rows()[k]
      ensures Valid() && |old(AsHosted()).screen.Rows()| == height
      ensures AsHosted() == OnScreen(old(AsHosted()), old(AsHosted()).screen.Rows()[k := EMPTY])
    {
      hide PoolOk, Ring, LinesOf, Window.Valid;
      RowIsApart(k);
      Rows()[k].Clear();
      RowEdited(k);
    }

    lemma NothingErased(s: Screen, y: nat)
      requires y <= |s.Rows()|
      ensures s.WithRows(Erased(s.Rows(), y, 0)) == s
    {
      assert Erased(s.Rows(), y, 0) == s.Rows();
    }

    lemma OneMoreErased(s: Screen, y: nat, i: nat)
      requires y + i < |s.Rows()|
      ensures var t := s.WithRows(Erased(s.Rows(), y, i));
              |t.Rows()| == |s.Rows()| && t.WithRows(t.Rows()[y + i := EMPTY]) == s.WithRows(Erased(s.Rows(), y, i + 1))
    {
      assert Erased(s.Rows(), y, i)[y + i := EMPTY] == Erased(s.Rows(), y, i + 1);
    }

    /** f_erase of rows. */
    method EraseRows(y: nat, n: nat)
      requires Valid() && y + n <= height
      modifies host, RowSet()
      ensures Valid() && |old(AsHosted()).screen.Rows()| == height
      ensures AsHosted() == Screens.EraseRows(old(AsHosted()), y, n)
    {
      hide PoolOk, Ring, LinesOf, Invalidate, Proper;
      ClearRows(y, n);
      host.Invalidate(logSize, y, n);
    }

    // Scrolling.

    /** The rows of the pool in other places. */
    method Arrange(log1: seq<Row>, begin: nat, size: nat, normal1: seq<Row>, alternate1: seq<Row>)
      requires Valid() && multiset(log1 + normal1 + alternate1) == multiset(Pool())
      requires |log1| == capacity && |normal1| == |alternate1| == height
      requires size <= capacity && begin < capacity && (size < capacity ==> begin == 0)
      modifies this`log, this`logBegin, this`logSize, this`normal, this`alternate
      ensures Valid() && multiset(Pool()) == old(multiset(Pool()))
      ensures log == log1 && logBegin == begin && logSize == size && normal == normal1 && alternate == alternate1
      ensures AsHosted() == old(AsHosted()).(screen := old(AsScreen().(
        log := LinesOf(Ring(log1, begin, size)), normal := LinesOf(normal1), alternate := LinesOf(alternate1))))
    {
      ghost var pool := Pool();
      PermutedPoolIsOk(pool, log1 + normal1 + alternate1, width);
      assert RowsValid(log1 + normal1 + alternate1) by {
        forall r | r in log1 + normal1 + alternate1 ensures r.Valid() { assert r in pool; }
      }
      hide PoolOk, Ring, Window.Valid, LinesOf, RowsValid;
      Place(log1, begin, size, normal1, alternate1);
    }

    method Place(log1: seq<Row>, begin: nat, size: nat, normal1: seq<Row>, alternate1: seq<Row>)
      requires Valid() && PoolOk(log1 + normal1 + alternate1, width) && RowsValid(log1 + normal1 + alternate1)
      requires |log1| == capacity && |normal1| == |alternate1| == height
      requires size <= capacity && begin < capacity && (size < capacity ==> begin == 0)
      modifies this`log, this`logBegin, this`logSize, this`normal, this`alternate
      ensures Valid() && Pool() == log1 + normal1 + alternate1
      ensures log == log1 && logBegin == begin && logSize == size && normal == normal1 && alternate == alternate1
      ensures AsHosted() == old(AsHosted()).(screen := old(AsScreen().(
        log := LinesOf(Ring(log1, begin, size)), normal := LinesOf(normal1), alternate := LinesOf(alternate1))))
    {
      hide PoolOk, Ring, Window.Valid, LinesOf;
      log, logBegin, logSize, normal, alternate := log1, begin, size, normal1, alternate1;
      assert RowsValid(Pool());
      hide RowsValid;
      assert Shape();
      assert LinesOf(LogRows()) == old(LinesOf(Ring(log1, begin, size)));
    }

    /** The same rows in another order. */
    method SetRows(rows: seq<Row>)
      requires Valid() && |rows| == height && multiset(rows) == multiset(Rows())
      modifies this`log, this`logBegin, this`logSize, this`normal, this`alternate
      ensures Valid() && multiset(Pool()) == old(multiset(Pool()))
      ensures Rows() == rows && AsHosted() == OnScreen(old(AsHosted()), old(LinesOf(rows)))
    {
      hide PoolOk, Ring, Window.Valid, LinesOf, RowsValid;
      var n, a := if onAlternate then normal else rows, if onAlternate then rows else alternate;
      PartPermuted(log, normal, alternate, n, a);
      Arrange(log, logBegin, logSize, n, a);
    }

    /** std::rotate of rows y to e of the screen in use, so that row m comes first. */
    method Rotate(y: nat, m: nat, e: nat)
      requires Valid() && y <= m <= e <= height
      modifies this`log, this`logBegin, this`logSize, this`normal, this`alternate
      ensures Valid() && multiset(Pool()) == old(multiset(Pool())) && |old(AsHosted()).screen.Rows()| == height
      ensures AsHosted() == OnScreen(old(AsHosted()), Rotated(old(AsHosted()).screen.Rows(), y, m, e))
      ensures RowSet() == old(RowSet())
    {
      hide PoolOk, Ring, Window.Valid, LinesOf, Rotated, RowsValid, AsHosted, AsScreen, Shape;
      Heights();
      var was := Rows();
      RotatedIsPermuted(was, y, m, e);
      LinesRotated(was, y, m, e);
      SameElements(was, Rotated(was, y, m, e));
      SetRows(Rotated(was, y, m, e));
    }

    lemma Heights()
      requires Valid()
      ensures |AsHosted().screen.Rows()| == height && |Rows()| == height && Proper(AsHosted().view)
      ensures AsHosted().screen.Rows() == LinesOf(Rows()) && height > 0
      ensures var s := AsHosted().screen;
              height == s.height && width == s.width && y == s.y && logSize == |s.log| <= capacity == s.capacity
                && capacity > 0
    {
    }

    lemma LinesRotated(rows: seq<Row>, y: nat, m: nat, e: nat)
      requires y <= m <= e <= |rows|
      ensures LinesOf(Rotated(rows, y, m, e)) == Rotated(LinesOf(rows), y, m, e)
    {
    }

    /** The window follows rows that moved; the row of the cursor is drawn again. */
    method MoveRegion(y: nat, n: nat, dy: int)
      requires Valid()
      modifies host
      ensures Valid() && AsHosted() == Screens.MoveRegion(old(AsHosted()), y, n, dy)
    {
      hide PoolOk, Ring, LinesOf, Invalidate, Damage.Scroll, Proper;
      if y <= this.y < y + n {
        host.Invalidate(logSize, this.y, 1);
        host.Scroll(logSize, y, n, dy);
        host.Invalidate(logSize, this.y, 1);
      } else {
        host.Scroll(logSize, y, n, dy);
      }
    }

    /** f_scroll_up. */
    /** Rows y to y + h move up by n, and the rows they leave are emptied. */
    method ShiftUp(y: nat, h: nat, n: nat)
      requires Valid() && y + h <= height && n <= h
      modifies this`log, this`logBegin, this`logSize, this`normal, this`alternate, RowSet()
      ensures Valid() && multiset(Pool()) == old(multiset(Pool())) && |old(AsHosted()).screen.Rows()| == height
      ensures AsHosted() == OnScreen(old(AsHosted()), Up(old(AsHosted()).screen.Rows(), y, h, n))
    {
      hide PoolOk, Ring, LinesOf, Up, Rotated, Erased, RowsValid, Window.Valid, OnScreen, AsHosted, AsScreen, Valid;
      Heights();
      ghost var was := AsHosted();
      ghost var rows := was.screen.Rows();
      var first, end, freed := y + n, y + h, y + h - n;
      ghost var turned := Rotated(rows, y, first, end);
      ghost var target := Erased(turned, freed, n);
      assert target == Up(rows, y, h, n) by { UpIsRotated(rows, y, h, n); }
      TurnedHas(was, turned);
      Rotate(y, first, end);
      ghost var h1 := AsHosted();
      ClearRows(freed, n);
      TurnedAndErased(was, h1, AsHosted(), turned, freed, n, target);
    }

    method ScrollUp(y: nat, h: nat, k: nat)
      requires Valid() && y + h <= height
      modifies this`log, this`logBegin, this`logSize, this`normal, this`alternate, host, RowSet()
      ensures Valid() && multiset(Pool()) == old(multiset(Pool())) && |old(AsHosted()).screen.Rows()| == height
      ensures AsHosted() == Screens.ScrollUp(old(AsHosted()), y, h, k)
    {
      hide PoolOk, Ring, LinesOf, Up, RowsValid, Screens.MoveRegion, Window.Valid, Screens.ScrollUp,
        OnScreen, AsHosted, AsScreen, Shape, Least;
      var n := Least(k, h);
      Heights();
      ScrollUpIs(AsHosted(), y, h, k);
      if n == 0 { return; }
      ShiftUp(y, h, n);
      MoveRegion(y, h, 0 - n as int);
    }

    /** f_scroll_down. */
    method ShiftDown(y: nat, h: nat, n: nat)
      requires Valid() && y + h <= height && n <= h
      modifies this`log, this`logBegin, this`logSize, this`normal, this`alternate, RowSet()
      ensures Valid() && multiset(Pool()) == old(multiset(Pool())) && |old(AsHosted()).screen.Rows()| == height
      ensures AsHosted() == OnScreen(old(AsHosted()), Down(old(AsHosted()).screen.Rows(), y, h, n))
    {
      hide PoolOk, Ring, LinesOf, Down, Rotated, Erased, RowsValid, Window.Valid, OnScreen, AsHosted, AsScreen, Valid;
      Heights();
      ghost var was := AsHosted();
      ghost var rows := was.screen.Rows();
      var first, end, freed := y + h - n, y + h, y;
      ghost var turned := Rotated(rows, y, first, end);
      ghost var target := Erased(turned, freed, n);
      assert target == Down(rows, y, h, n) by { DownIsRotated(rows, y, h, n); }
      TurnedHas(was, turned);
      Rotate(y, first, end);
      ghost var h1 := AsHosted();
      ClearRows(freed, n);
      TurnedAndErased(was, h1, AsHosted(), turned, freed, n, target);
    }

    method ScrollDown(y: nat, h: nat, k: nat)
      requires Valid() && y + h <= height
      modifies this`log, this`logBegin, this`logSize, this`normal, this`alternate, host, RowSet()
      ensures Valid() && multiset(Pool()) == old(multiset(Pool())) && |old(AsHosted()).screen.Rows()| == height
      ensures AsHosted() == Screens.ScrollDown(old(AsHosted()), y, h, k)
    {
      hide PoolOk, Ring, LinesOf, Down, RowsValid, Screens.MoveRegion, Window.Valid, Screens.ScrollDown,
        OnScreen, AsHosted, AsScreen, Shape, Least;
      var n := Least(k, h);
      Heights();
      ScrollDownIs(AsHosted(), y, h, k);
      if n == 0 { return; }
      ShiftDown(y, h, n);
      MoveRegion(y, h, n);
    }

    /** The slot of the log that is filled next. */
    function Slot(): (r: nat)
      requires Shape()
      reads this
      ensures r == if logSize < capacity then logSize else logBegin
      ensures r < |log| == capacity && |Rows()| == height > 0
    {
      if logSize < capacity then logSize else logBegin
    }

    lemma LogLinesPushed()
      requires Shape()
      ensures logSize < capacity ==>
                LinesOf(Ring(log[Slot() := Rows()[0]], 0, logSize + 1)) == LinesOf(LogRows()) + [Rows()[0].line]
      ensures logSize == capacity ==>
                LinesOf(Ring(log[Slot() := Rows()[0]], (logBegin + 1) % capacity, logSize))
                  == LinesOf(LogRows())[1..] + [Rows()[0].line]
    {
      hide PoolOk, Ring, LinesOf;
      if logSize < capacity {
        RingGrows(log, logSize, Rows()[0]);
        LinesSnoc(LogRows(), Rows()[0]);
      } else {
        RingTurns(log, logBegin, Rows()[0]);
        LinesShift(LogRows(), Rows()[0]);
      }
    }

    lemma SlotConserves(slots: seq<Row>, n: seq<Row>, a: seq<Row>)
      requires Shape() && slots == log[Slot() := Rows()[0]]
      requires n == if onAlternate then normal else Rows()[1..] + [log[Slot()]]
      requires a == if onAlternate then Rows()[1..] + [log[Slot()]] else alternate
      ensures multiset(slots + n + a) == multiset(Pool()) && Elements(slots + n + a) == Elements(Pool())
    {
      hide PoolOk, Ring, Elements;
      PushConserves(log, normal, alternate, Slot(), onAlternate);
      SameElements(Pool(), slots + n + a);
    }

    /** The rows of f_scroll_log, with what was at the slot at the end of the screen. */
    lemma PushIsRearranged(slots: seq<Row>, begin: nat, size: nat, n: seq<Row>, a: seq<Row>)
      requires Shape() && slots == log[Slot() := Rows()[0]]
      requires begin == if logSize < capacity then 0 else (logBegin + 1) % capacity
      requires size == if logSize < capacity then logSize + 1 else logSize
      requires n == if onAlternate then normal else Rows()[1..] + [log[Slot()]]
      requires a == if onAlternate then Rows()[1..] + [log[Slot()]] else alternate
      ensures size <= capacity && begin < capacity && (size < capacity ==> begin == 0)
      ensures |slots| == capacity && |n| == |a| == height && AsScreen().Rows() != []
      ensures Pushed(AsScreen(), log[Slot()].line)
           == AsScreen().(log := LinesOf(Ring(slots, begin, size)), normal := LinesOf(n), alternate := LinesOf(a))
    {
      hide PoolOk, Ring, LinesOf, Elements;
      LogLinesPushed();
      LinesShift(Rows(), log[Slot()]);
      assert AsScreen().Rows() == LinesOf(Rows());
    }

    /** The first row goes to the log, and the row it takes the place of to the end of the screen. */
    method PushRow() returns (ghost last: Line)
      requires Valid()
      modifies this`log, this`logBegin, this`logSize, this`normal, this`alternate
      ensures Valid() && multiset(Pool()) == old(multiset(Pool())) && Elements(Pool()) == old(Elements(Pool()))
      ensures old(AsHosted()).screen.Rows() != []
      ensures AsHosted() == old(AsHosted()).(screen := Pushed(old(AsHosted()).screen, last))
    {
      hide PoolOk, Ring, LinesOf, RowsValid, Pushed, Shape, Slot, AsScreen, Window.Valid, Elements;
      Heights();
      var rows, slot, grows := Rows(), Slot(), logSize < capacity;
      var row := log[slot];
      var slots, shifted := log[slot := rows[0]], rows[1..] + [row];
      var begin, size := if grows then 0 else (logBegin + 1) % capacity, if grows then logSize + 1 else logSize;
      var n, a := if onAlternate then normal else shifted, if onAlternate then shifted else alternate;
      last := row.line;
      SlotConserves(slots, n, a);
      PushIsRearranged(slots, begin, size, n, a);
      Arrange(slots, begin, size, n, a);
    }

    // Calls to the window.

    method Redraw(y: int, n: nat)
      requires Valid()
      modifies host
      ensures Valid() && AsHosted() == Screens.Redraw(old(AsHosted()), y, n)
    {
      hide PoolOk, Ring, LinesOf, Invalidate, Proper;
      host.Invalidate(logSize, y, n);
    }

    method Move(y: int, n: nat, dy: int)
      requires Valid()
      modifies host
      ensures Valid() && AsHosted() == Screens.Move(old(AsHosted()), y, n, dy)
    {
      hide PoolOk, Ring, LinesOf, Damage.Scroll, Proper;
      host.Scroll(logSize, y, n, dy);
    }

    method Logged()
      requires Valid()
      modifies host
      ensures Valid() && AsHosted() == old(AsHosted()).(view := Damage.Logged(old(AsHosted()).view))
    {
      hide PoolOk, Ring, LinesOf, Proper;
      host.Logged();
    }

    /** The first row of the screen to the log, and an empty row at the end. */
    method MoveToLog()
      requires Valid()
      modifies this`log, this`logBegin, this`logSize, this`normal, this`alternate, host, Elements(Pool())
      ensures Valid() && multiset(Pool()) == old(multiset(Pool()))
      ensures old(AsHosted()).screen.Rows() != [] && old(AsHosted()).screen.capacity > 0
      ensures AsHosted() == WithLogged(old(AsHosted()))
    {
      hide PoolOk, Ring, LinesOf, RowsValid, Pushed, Window.Valid, AsHosted, AsScreen, Shape, OnScreen, WithLogged;
      Heights();
      ghost var h := AsHosted();
      var grows := logSize < capacity;
      ghost var last := PushRow();
      if grows {
        Logged();
      }
      ghost var h1 := AsHosted();
      Heights();
      ClearRow(height - 1);
      LoggedSteps(h, h1, AsHosted(), last);
    }

    /** f_scroll_log. */
    method ScrollLog()
      requires Valid()
      modifies this`log, this`logBegin, this`logSize, this`normal, this`alternate, host, Elements(Pool())
      ensures Valid() && multiset(Pool()) == old(multiset(Pool()))
      ensures var h := old(AsHosted()); h.screen.Rows() != [] && h.screen.capacity > 0 && Proper(h.view)
      ensures AsHosted() == Screens.ScrollLog(old(AsHosted()))
    {
      hide PoolOk, Ring, LinesOf, RowsValid, Window.Valid, Screens.Redraw, Screens.Move, Screens.ScrollLog, AsHosted,
        AsScreen, Shape, WithLogged;
      Heights();
      ghost var h := AsHosted();
      Redraw(this.y, 1);
      ghost var h1 := AsHosted();
      MoveToLog();
      ScrollLogSteps(h, h1, AsHosted());
      Heights();
      Move(0 - logSize as int, logSize + height, -1);
      Redraw(this.y, 1);
    }

    lemma LinesSnoc(rows: seq<Row>, row: Row)
      ensures LinesOf(rows + [row]) == LinesOf(rows) + [row.line]
    {
    }

    lemma LinesShift(rows: seq<Row>, row: Row)
      requires rows != []
      ensures LinesOf(rows[1..] + [row]) == LinesOf(rows)[1..] + [row.line]
    {
    }

    // The cursor and the screen in use.

    method SetCursor(x: nat, y: nat)
      requires Valid()
      modifies this`x, this`y
      ensures Valid() && AsHosted() == At(old(AsHosted()), x, y)
    {
      hide PoolOk, Ring, LinesOf, Window.Valid;
      this.x, this.y := x, y;
    }

    method SetAttribute(a: Attribute)
      requires Valid()
      modifies this`attribute
      ensures Valid() && AsHosted() == WithAttribute(old(AsHosted()), a)
    {
      hide PoolOk, Ring, LinesOf, Window.Valid;
      attribute := a;
    }

    /** f_alternate__. */
    method Alternate(on: bool)
      requires Valid()
      modifies this`onAlternate, host
      ensures Valid() && AsHosted() == Screens.Alternate(old(AsHosted()), on)
    {
      hide PoolOk, Ring, LinesOf, Window.Valid, Invalidate;
      UseScreen(on);
      Redraw(0, height);
    }

    method UseScreen(on: bool)
      requires Valid()
      modifies this`onAlternate
      ensures Valid() && AsHosted() == old(AsHosted()).(screen := old(AsHosted()).screen.(onAlternate := on))
    {
      hide PoolOk, Ring, LinesOf, Window.Valid;
      onAlternate := on;
    }

    /** f_save_cursor. */
    method SaveCursor()
      requires Valid()
      modifies this`savedNormal, this`savedAlternate
      ensures Valid() && AsHosted() == Screens.SaveCursor(old(AsHosted()))
    {
      hide PoolOk, Ring, LinesOf, Window.Valid;
      var saved := Saved(attribute, x, y);
      if onAlternate {
        savedAlternate := saved;
      } else {
        savedNormal := saved;
      }
    }

    /** f_restore_cursor. */
    method RestoreCursor()
      requires Valid()
      modifies this`attribute, this`x, this`y
      ensures Valid() && AsHosted() == Screens.RestoreCursor(old(AsHosted()))
    {
      hide PoolOk, Ring, LinesOf, Window.Valid;
      var saved := if onAlternate then savedAlternate else savedNormal;
      attribute, x, y := saved.attribute, saved.x, saved.y;
    }

    // Resizing.

    /** Another pool of rows, for another size. */
    method Replace(w: nat, h: nat, log1: seq<Row>, normal1: seq<Row>, alternate1: seq<Row>)
      requires Shape() && host.Valid() && w > 0 && h > 0
      requires |log1| == capacity && |normal1| == |alternate1| == h
      requires PoolOk(log1 + normal1 + alternate1, w) && RowsValid(log1 + normal1 + alternate1)
      modifies this`width, this`height, this`log, this`normal, this`alternate
      ensures Valid() && Pool() == log1 + normal1 + alternate1 && width == w && height == h
      ensures AsHosted() == Hosted(
        old(AsScreen()).(width := w, height := h, log := old(LinesOf(Ring(log1, logBegin, logSize))),
          normal := old(LinesOf(normal1)), alternate := old(LinesOf(alternate1))),
        old(host.AsView()))
    {
      hide PoolOk, Ring, Window.Valid, LinesOf;
      width, height, log, normal, alternate := w, h, log1, normal1, alternate1;
      assert RowsValid(Pool());
      hide RowsValid;
      assert Shape();
      assert LinesOf(LogRows()) == old(LinesOf(Ring(log1, logBegin, logSize)));
    }

    /** New rows for everything: the log, and both screens as far as they are kept, and empty rows. */
    method NewPool(w: nat, h: nat) returns (log1: seq<Row>, normal1: seq<Row>, alternate1: seq<Row>)
      requires Valid()
      modifies Arrays(Pool())
      ensures |log1| == capacity == |log| && |normal1| == |alternate1| == h && |normal| == |alternate| == height
      ensures PoolOk(log1 + normal1 + alternate1, w) && RowsValid(log1 + normal1 + alternate1)
      ensures forall r :: r in log1 + normal1 + alternate1 ==> fresh(r) && fresh(r.cells)
      ensures forall i :: 0 <= i < capacity ==> IsCut(log1[i], log[i], w)
      ensures forall i :: 0 <= i < h ==> if i < height then IsCut(normal1[i], normal[i], w)
          else normal1[i].line == EMPTY
      ensures forall i :: 0 <= i < h ==> if i < height then IsCut(alternate1[i], alternate[i], w)
          else alternate1[i].line == EMPTY
    {
      hide PoolOk, Ring, Window.Valid, LinesOf, IsCut, Led, Cut;
      var n := Least(height, h);
      KeptIsPool(n);
      var rows := log + normal[..n] + alternate[..n];
      var kept := CutRows(rows, w, width);
      var extra := NewRows(2 * (h - n), w);
      log1 := kept[..capacity];
      normal1 := kept[capacity..capacity + n] + extra[..h - n];
      alternate1 := kept[capacity + n..] + extra[h - n..];
      PoolIsAssembled(n, h, w, kept, extra);
      PartsOfBoth(n, h, kept, extra);
      LinesAreCut(n, h, w, kept, extra);
    }

    lemma PartsOfBoth(n: nat, h: nat, kept: seq<Row>, extra: seq<Row>)
      requires |kept| == capacity + 2 * n && n <= h && |extra| == 2 * (h - n)
      ensures forall r :: r in Regrouped(kept, extra, capacity, n, h - n) ==> r in kept || r in extra
    {
    }

    lemma PoolIsAssembled(n: nat, h: nat, w: nat, kept: seq<Row>, extra: seq<Row>)
      requires |kept| == capacity + 2 * n && PoolOk(kept, w) && RowsValid(kept)
      requires n <= h && |extra| == 2 * (h - n) && PoolOk(extra, w) && RowsValid(extra)
      requires forall r, s :: r in kept && s in extra ==> r != s && r.cells != s.cells
      ensures var all := Regrouped(kept, extra, capacity, n, h - n); PoolOk(all, w) && RowsValid(all)
    {
      hide PoolOk, RowsValid, Regrouped;
      JoinedPoolIsOk(kept, extra, w);
      RegroupedIsPermuted(kept, extra, capacity, n, h - n);
      PermutedPoolIsOk(kept + extra, Regrouped(kept, extra, capacity, n, h - n), w);
      JoinedRowsAreValid(kept, extra, Regrouped(kept, extra, capacity, n, h - n));
    }

    lemma LinesAreCut(n: nat, h: nat, w: nat, kept: seq<Row>, extra: seq<Row>)
      requires |log| == capacity && |normal| == |alternate| == height && n == Least(height, h)
      requires |kept| == capacity + 2 * n && |extra| == 2 * (h - n) && LinesOf(extra) == Empties(2 * (h - n))
      requires forall i :: 0 <= i < |kept| ==> IsCut(kept[i], (log + normal[..n] + alternate[..n])[i], w)
      ensures forall i :: 0 <= i < capacity ==> IsCut(kept[..capacity][i], log[i], w)
      ensures forall i :: 0 <= i < n ==> IsCut(kept[capacity..capacity + n][i], normal[i], w)
      ensures forall i :: 0 <= i < n ==> IsCut(kept[capacity + n..][i], alternate[i], w)
      ensures forall i :: 0 <= i < |extra| ==> extra[i].line == EMPTY
    {
      hide IsCut;
      forall i | 0 <= i < |extra| ensures extra[i].line == EMPTY {
        assert LinesOf(extra)[i] == EMPTY;
      }
      forall i | 0 <= i < capacity ensures IsCut(kept[i], log[i], w) {
        assert (log + normal[..n] + alternate[..n])[i] == log[i];
      }
      forall i | 0 <= i < n ensures IsCut(kept[capacity + i], normal[i], w)
        && IsCut(kept[capacity + n + i], alternate[i], w) {
        assert (log + normal[..n] + alternate[..n])[capacity + i] == normal[i];
        assert (log + normal[..n] + alternate[..n])[capacity + n + i] == alternate[i];
      }
    }

    /** f_resize. */
    method Resize(w: nat, h: nat)
      requires Valid()
      modifies this, Arrays(Pool())
      ensures Valid() && AllLed(old(AsHosted()).screen)
      ensures Pool() == old(Pool()) || forall r :: r in Pool() ==> fresh(r) && fresh(r.cells)
      ensures AsHosted() == old(AsHosted()).(screen := Screens.Resize(old(AsHosted()).screen, w, h))
    {
      hide PoolOk, Ring, Window.Valid, LinesOf, RowsValid, Led, Cut, Fitted;
      AllRowsLed();
      ghost var was := AsHosted();
      var width1, height1 := AtLeastOne(w), AtLeastOne(h);
      if width1 == width && height1 == height { return; }
      var log1, normal1, alternate1 := NewPool(width1, height1);
      CutLines(was.screen, width1, height1, log1, normal1, alternate1);
      Replace(width1, height1, log1, normal1, alternate1);
      SetCursor(if x >= width then width - 1 else x, if y >= height then height - 1 else y);
    }

    lemma KeptIsPool(n: nat)
      requires Valid() && n <= height
      ensures |normal| == |alternate| == height && |log| == capacity
      ensures RowsValid(log + normal[..n] + alternate[..n]) && PoolOk(log + normal[..n] + alternate[..n], width)
      ensures Arrays(log + normal[..n] + alternate[..n]) <= Arrays(Pool())
    {
      Parts();
      DistinctParts(log, normal, alternate);
      assert forall r :: r in normal[..n] ==> r in normal;
      assert forall r :: r in alternate[..n] ==> r in alternate;
    }

    lemma AllRowsLed()
      requires Valid()
      ensures AllLed(AsHosted().screen)
    {
      Parts();
      forall r | r in Pool() ensures LineLed(r.line, width) {
        assert r.cells.Length == width;
      }
    }

    /** The lines of rows that were cut are the lines cut. */
    lemma CutLines(was: Screen, w: nat, h: nat, log1: seq<Row>, normal1: seq<Row>, alternate1: seq<Row>)
      requires Shape() && was == AsScreen() && AllLed(was) && w > 0 && h > 0
      requires |log1| == capacity && |normal1| == |alternate1| == h
      requires forall i :: 0 <= i < capacity ==> IsCut(log1[i], log[i], w)
      requires forall i :: 0 <= i < h ==>
          if i < height then IsCut(normal1[i], normal[i], w) else normal1[i].line == EMPTY
      requires forall i :: 0 <= i < h ==>
          if i < height then IsCut(alternate1[i], alternate[i], w) else alternate1[i].line == EMPTY
      ensures LinesOf(Ring(log1, logBegin, logSize)) == CutAll(was.log, w)
      ensures LinesOf(normal1) == CutScreen(was.normal, w, h) && LinesOf(alternate1) == CutScreen(was.alternate, w, h)
    {
      hide Led, Cut, PoolOk, Ring;
      forall i | 0 <= i < logSize ensures Ring(log1, logBegin, logSize)[i].line == Cut(was.log[i], w) {
        RingAt(log1, logBegin, logSize, i);
        RingAt(log, logBegin, logSize, i);
        assert IsCut(log1[(logBegin + i) % capacity], log[(logBegin + i) % capacity], w);
      }
    }
  }
}
