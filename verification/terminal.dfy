/**
 The terminal (vt/terminal.h, t_terminal) as an object over its buffer: every method is tied to the
 operation of TerminalModel it carries out, character by character.
 */
module Terminals {
  import opened Rows
  import opened RowArrays
  import opened Damage
  import opened Screens
  import opened ScreenShape
  import opened ScreenSteps
  import opened Pools
  import opened Buffers
  import Model = TerminalModel
  import Runs = TerminalRuns
  import Effects = TerminalEffects

  class Terminal {
    const w: Widths
    const isControl: char -> bool
    const buffer: Buffer
    const parameters: array<int>
    var insert: bool
    var origin: bool
    var wraparound: bool
    var applicationCursor: bool
    var applicationKeypad: bool
    var tabs: seq<bool>
    var begin: nat
    var size: nat
    var parser: Model.Parser
    var kind: Model.Kind
    var count: nat
    ghost var digits: int

    constructor (cfg: Model.Config, buffer: Buffer)
      requires buffer.Valid() && WidthsOk(cfg.w)
      ensures Reading() && this.buffer == buffer && fresh(parameters) && w == cfg.w && isControl == cfg.isControl
      ensures Valid() && AsTerminal() == Model.Terminal(
        old(buffer.AsHosted()), false, false, true, false, false, tabs, 0, old(buffer.height), Model.Default,
          Model.Primary, [], 0)
      ensures |tabs| == Runs.TabColumns(old(buffer.width)) && forall i :: 0 <= i < |tabs| ==> tabs[i] == (i % 8 == 0)
    {
      w, isControl, this.buffer := cfg.w, cfg.isControl, buffer;
      parameters := new int[Model.PARAMETERS];
      insert, origin, wraparound, applicationCursor, applicationKeypad := false, false, true, false, false;
      tabs := seq(Runs.TabColumns(buffer.width), i => i % 8 == 0);
      begin, size, parser, kind, count, digits := 0, buffer.height, Model.Default, Model.Primary, 0, 0;
    }

    ghost function Repr(): set<object>
      reads this, buffer
    {
      {this, buffer, buffer.host} + Elements(buffer.Pool()) + Arrays(buffer.Pool())
    }

    ghost predicate Valid()
      reads this, parameters, buffer, buffer.host, buffer.Pool(), Arrays(buffer.Pool())
    {
      buffer.Valid() && parameters.Length == Model.PARAMETERS && count <= Model.PARAMETERS && parameters !in Repr()
    }

    /** The parameter that is being read stands behind those that are complete. */
    ghost predicate Reading()
      reads this, parameters
    {
      parser == Model.CsiDigit ==> count < parameters.Length && parameters[count] == digits
    }

    ghost function AsTerminal(): Model.Terminal
      requires Valid()
      reads this, parameters, buffer, buffer.host, buffer.Pool(), Arrays(buffer.Pool())
    {
      Model.Terminal(buffer.AsHosted(), insert, origin, wraparound, applicationCursor, applicationKeypad,
                     tabs, begin, size, parser, kind, parameters[..count], digits)
    }

    ghost predicate Ready()
      reads this, parameters, buffer, buffer.host, buffer.Pool(), Arrays(buffer.Pool())
    {
      Valid() && Model.Ready(w, AsTerminal())
    }

    lemma Sizes()
      requires Ready()
      ensures var t := AsTerminal();
              && t.X() == buffer.x && t.Y() == buffer.y && t.Width() == buffer.width > 0
                && t.Height() == buffer.height > buffer.y
              && size >= 1 && begin + size <= buffer.height && |tabs| >= buffer.width
              && (origin ==> begin <= buffer.y < begin + size)
    {
      buffer.Heights();
    }

    function Parameter(i: nat, default: int): (r: int)
      requires count <= parameters.Length
      reads this, parameters
      ensures r >= default
    {
      if count < i + 1 || parameters[i] < default then default else parameters[i]
    }

    lemma ParameterIs(i: nat, default: int)
      requires Valid()
      ensures Parameter(i, default) == Model.Parameter(AsTerminal(), i, default)
    {
    }

    // Cursor motion.

    method SetCursor(x: nat, y: nat)
      requires Ready() && y < buffer.height && (origin ==> begin <= y < begin + size)
      modifies buffer
      ensures Ready() && Repr() == old(Repr()) && AsTerminal() == Model.MoveCursor(old(AsTerminal()), x, y)
    {
      hide Steady, Buffer.Valid, Buffer.AsHosted;
      Sizes();
      Model.CursorIsReady(w, AsTerminal(), x, y);
      buffer.SetCursor(x, y);
    }

    // The buffer's operations, with the rest of the terminal as it is.

    lemma RowIsInRepr(y: nat)
      requires Valid() && y < buffer.height
      ensures y < |buffer.Rows()| && buffer.Rows()[y] in Repr() && buffer.Rows()[y].cells in Repr()
      ensures var row: object, cells: object := buffer.Rows()[y], buffer.Rows()[y].cells;
              row != this && row != buffer && row != parameters && cells != this && cells != buffer
                && cells != parameters
    {
      hide Steady;
      buffer.RowIsApart(y);
    }

    lemma RowsAreInRepr()
      ensures forall r :: r in buffer.RowSet() ==> r in Repr()
    {
      buffer.Parts();
    }

    lemma PermutedIsSame(pool: seq<Row>)
      requires multiset(pool) == multiset(buffer.Pool())
      ensures Elements(pool) == Elements(buffer.Pool()) && Arrays(pool) == Arrays(buffer.Pool())
    {
      SameElements(pool, buffer.Pool());
      assert forall r :: r in pool <==> r in Elements(pool);
      assert forall r :: r in buffer.Pool() <==> r in Elements(buffer.Pool());
    }

    method BufferPut(x: nat, y: nat, cell: Cell, n: nat, shift: bool)
      requires Valid() && y < buffer.height && cell.c != NUL
      modifies Repr()
      ensures Valid() && Repr() == old(Repr())
      ensures var s := old(AsTerminal()).hosted.screen; y < |s.Rows()| && FitsRow(s, y)
      ensures AsTerminal() == old(AsTerminal()).(
        hosted := Screens.PutCell(old(AsTerminal()).hosted, x, y, cell, n, shift))
    {
      hide Steady, Buffer.Valid, Buffer.AsHosted;
      RowIsInRepr(y);
      buffer.PutCell(x, y, cell, n, shift);
    }

    method BufferInsert(x: nat, y: nat, n: nat)
      requires Valid() && y < buffer.height
      modifies Repr()
      ensures Valid() && Repr() == old(Repr())
      ensures var s := old(AsTerminal()).hosted.screen; y < |s.Rows()| && FitsRow(s, y)
      ensures AsTerminal() == old(AsTerminal()).(hosted := Screens.InsertCells(old(AsTerminal()).hosted, x, y, n))
    {
      hide Steady, Buffer.Valid, Buffer.AsHosted;
      RowIsInRepr(y);
      buffer.InsertCells(x, y, n);
    }

    method BufferErase(x: nat, y: nat, n: int, shift: bool)
      requires Valid() && y < buffer.height && (x < buffer.width ==> n >= 0)
      modifies Repr()
      ensures Valid() && Repr() == old(Repr())
      ensures var s := old(AsTerminal()).hosted.screen;
              y < |s.Rows()| && FitsRow(s, y) && (x < |s.Rows()[y].cells| ==> n >= 0)
      ensures AsTerminal() == old(AsTerminal()).(hosted := Screens.EraseCells(old(AsTerminal()).hosted, x, y, n, shift))
    {
      hide Steady, Buffer.Valid, Buffer.AsHosted;
      RowIsInRepr(y);
      buffer.RowFits(y);
      buffer.EraseCells(x, y, n, shift);
    }

    method BufferWrap(y: nat)
      requires Valid() && y < buffer.height
      modifies Repr()
      ensures Valid() && Repr() == old(Repr()) && y < |old(AsTerminal()).hosted.screen.Rows()|
      ensures AsTerminal() == old(AsTerminal()).(hosted := Screens.Wrap(old(AsTerminal()).hosted, y))
    {
      hide Steady, Buffer.Valid, Buffer.AsHosted;
      RowIsInRepr(y);
      buffer.Wrap(y);
    }

    method BufferEraseRows(y: nat, n: nat)
      requires Valid() && y + n <= buffer.height
      modifies Repr()
      ensures Valid() && Repr() == old(Repr()) && |old(AsTerminal()).hosted.screen.Rows()| == old(buffer.height)
      ensures AsTerminal() == old(AsTerminal()).(hosted := Screens.EraseRows(old(AsTerminal()).hosted, y, n))
    {
      hide Steady, Buffer.Valid, Buffer.AsHosted;
      RowsAreInRepr();
      buffer.EraseRows(y, n);
    }

    method BufferScrollUp(y: nat, n: nat, k: nat)
      requires Valid() && y + n <= buffer.height
      modifies Repr()
      ensures Valid() && Repr() == old(Repr()) && |old(AsTerminal()).hosted.screen.Rows()| == old(buffer.height)
      ensures AsTerminal() == old(AsTerminal()).(hosted := Screens.ScrollUp(old(AsTerminal()).hosted, y, n, k))
    {
      hide Steady, Buffer.Valid, Buffer.AsHosted;
      RowsAreInRepr();
      ghost var pool := buffer.Pool();
      buffer.ScrollUp(y, n, k);
      PermutedIsSame(pool);
    }

    method BufferScrollDown(y: nat, n: nat, k: nat)
      requires Valid() && y + n <= buffer.height
      modifies Repr()
      ensures Valid() && Repr() == old(Repr()) && |old(AsTerminal()).hosted.screen.Rows()| == old(buffer.height)
      ensures AsTerminal() == old(AsTerminal()).(hosted := Screens.ScrollDown(old(AsTerminal()).hosted, y, n, k))
    {
      hide Steady, Buffer.Valid, Buffer.AsHosted;
      RowsAreInRepr();
      ghost var pool := buffer.Pool();
      buffer.ScrollDown(y, n, k);
      PermutedIsSame(pool);
    }

    method BufferScrollLog()
      requires Valid()
      modifies Repr()
      ensures Valid() && Repr() == old(Repr())
      ensures var h := old(AsTerminal()).hosted; h.screen.Rows() != [] && h.screen.capacity > 0 && Proper(h.view)
      ensures AsTerminal() == old(AsTerminal()).(hosted := Screens.ScrollLog(old(AsTerminal()).hosted))
    {
      hide Steady, Buffer.Valid, Buffer.AsHosted;
      ghost var pool := buffer.Pool();
      buffer.ScrollLog();
      PermutedIsSame(pool);
    }

    method BufferCursor(x: nat, y: nat)
      requires Valid()
      modifies Repr()
      ensures Valid() && Repr() == old(Repr()) && AsTerminal() == Model.MoveCursor(old(AsTerminal()), x, y)
    {
      hide Steady, Buffer.Valid, Buffer.AsHosted;
      buffer.SetCursor(x, y);
    }

    // The operations.

    method BackSpace()
      requires Ready()
      modifies Repr()
      ensures Ready() && Repr() == old(Repr()) && Model.Ready(w, old(AsTerminal()))
      ensures AsTerminal() == Model.BackSpace(w, old(AsTerminal()))
    {
      hide Steady, Buffer.Valid, Buffer.AsHosted;
      Sizes();
      var x := if buffer.x >= buffer.width then buffer.width - 1 else buffer.x;
      SetCursor(if x > 0 then x - 1 else x, buffer.y);
    }

    method CarriageReturn()
      requires Ready()
      modifies Repr()
      ensures Ready() && Repr() == old(Repr()) && Model.Ready(w, old(AsTerminal()))
      ensures AsTerminal() == Model.CarriageReturn(w, old(AsTerminal()))
    {
      hide Steady, Buffer.Valid, Buffer.AsHosted;
      Sizes();
      SetCursor(0, buffer.y);
    }

    method CursorUp()
      requires Ready()
      modifies Repr()
      ensures Ready() && Repr() == old(Repr()) && Model.Ready(w, old(AsTerminal()))
      ensures AsTerminal() == Model.CursorUp(w, old(AsTerminal()))
    {
      hide Steady, Buffer.Valid, Buffer.AsHosted;
      Sizes();
      ParameterIs(0, 1);
      var p := Parameter(0, 1);
      var top := if origin then begin else 0;
      SetCursor(buffer.x, if p > buffer.y - top then top else buffer.y - p);
    }

    method CursorDown()
      requires Ready()
      modifies Repr()
      ensures Ready() && Repr() == old(Repr()) && Model.Ready(w, old(AsTerminal()))
      ensures AsTerminal() == Model.CursorDown(w, old(AsTerminal()))
    {
      hide Steady, Buffer.Valid, Buffer.AsHosted;
      Sizes();
      ParameterIs(0, 1);
      var y := buffer.y + Parameter(0, 1);
      var bottom := if origin then begin + size else buffer.height;
      SetCursor(buffer.x, if y >= bottom then bottom - 1 else y);
    }

    method CursorForward()
      requires Ready()
      modifies Repr()
      ensures Ready() && Repr() == old(Repr()) && Model.Ready(w, old(AsTerminal()))
      ensures AsTerminal() == Model.CursorForward(w, old(AsTerminal()))
    {
      hide Steady, Buffer.Valid, Buffer.AsHosted;
      Sizes();
      ParameterIs(0, 1);
      var x := buffer.x + Parameter(0, 1);
      SetCursor(if x >= buffer.width then buffer.width - 1 else x, buffer.y);
    }

    method CursorBackward()
      requires Ready()
      modifies Repr()
      ensures Ready() && Repr() == old(Repr()) && Model.Ready(w, old(AsTerminal()))
      ensures AsTerminal() == Model.CursorBackward(w, old(AsTerminal()))
    {
      hide Steady, Buffer.Valid, Buffer.AsHosted;
      Sizes();
      ParameterIs(0, 1);
      var p := Parameter(0, 1);
      SetCursor(if p > buffer.x then 0 else buffer.x - p, buffer.y);
    }

    method CursorColumn(i: nat)
      requires Ready()
      modifies Repr()
      ensures Ready() && Repr() == old(Repr()) && Model.Ready(w, old(AsTerminal()))
      ensures AsTerminal() == Model.CursorColumn(w, old(AsTerminal()), i)
    {
      hide Steady, Buffer.Valid, Buffer.AsHosted;
      Sizes();
      ParameterIs(i, 1);
      var x := Parameter(i, 1) - 1;
      SetCursor(if x >= buffer.width then buffer.width - 1 else x, buffer.y);
    }

    method CursorRow()
      requires Ready()
      modifies Repr()
      ensures Ready() && Repr() == old(Repr()) && Model.Ready(w, old(AsTerminal()))
      ensures AsTerminal() == Model.CursorRow(w, old(AsTerminal()))
    {
      hide Steady, Buffer.Valid, Buffer.AsHosted;
      Sizes();
      ParameterIs(0, 1);
      var y := Parameter(0, 1) - 1 + (if origin then begin else 0);
      var bottom := if origin then begin + size else buffer.height;
      SetCursor(buffer.x, if y >= bottom then bottom - 1 else y);
    }

    /** f_tab_stop_forward(1). */
    method TabForward()
      requires Ready()
      modifies Repr()
      ensures Ready() && Repr() == old(Repr()) && Model.Ready(w, old(AsTerminal()))
      ensures AsTerminal() == Model.TabForward(w, old(AsTerminal()))
    {
      hide Steady, Buffer.Valid, Buffer.AsHosted;
      Sizes();
      var x := buffer.x;
      while true
        invariant Model.NextStop(tabs, x, buffer.width) == Model.NextStop(tabs, buffer.x, buffer.width)
        decreases buffer.width - x
      {
        x := x + 1;
        if x >= buffer.width {
          x := buffer.width - 1;
          break;
        }
        if tabs[x] { break; }
      }
      SetCursor(x, buffer.y);
    }

    /** f_index: ++v_cursor_y, and f_scroll if that leaves the region. */
    method Index()
      requires Ready()
      modifies Repr()
      ensures Ready() && Repr() == old(Repr()) && Model.Ready(w, old(AsTerminal()))
      ensures AsTerminal() == Model.Index(w, old(AsTerminal()))
    {
      hide Steady, Buffer.Valid, Buffer.AsHosted;
      Sizes();
      var y := buffer.y;
      if y + 1 == begin + size {
        Scroll();
      } else if y + 1 >= buffer.height {
        SetCursor(buffer.x, buffer.height - 1);
      } else {
        SetCursor(buffer.x, y + 1);
      }
    }

    /** The cursor a row further down, f_scroll, and the cursor back up. */
    method Scroll()
      requires Ready() && buffer.y + 1 == begin + size
      modifies Repr()
      ensures Ready() && Repr() == old(Repr()) && Model.Ready(w, old(AsTerminal()))
      ensures AsTerminal() == Model.Index(w, old(AsTerminal()))
    {
      hide Screens.ScrollUp, Screens.ScrollLog, Model.Index, AsTerminal, Model.Ready, Steady, Buffer.Valid,
        Buffer.AsHosted;
      Sizes();
      Screen();
      ghost var t := AsTerminal();
      var x, y := buffer.x, buffer.y;
      var logs := !(buffer.onAlternate || begin > 0 || size < buffer.height);
      BufferCursor(x, y + 1);
      ghost var t1 := AsTerminal();
      Screen();
      if logs {
        BufferScrollLog();
      } else {
        BufferScrollUp(begin, size, 1);
      }
      ghost var t2 := AsTerminal();
      BufferCursor(x, y);
      ScrollSteps(t, t1, t2, AsTerminal(), logs);
    }

    /** What the steps of f_scroll come to. */
    lemma ScrollSteps(t: Model.Terminal, t1: Model.Terminal, t2: Model.Terminal, t3: Model.Terminal, logs: bool)
      requires Model.Ready(w, t) && t.Y() + 1 == t.begin + t.size
      requires logs == !(t.hosted.screen.onAlternate || t.begin > 0 || t.size < t.Height())
      requires t1 == Model.MoveCursor(t, t.X(), t.Y() + 1)
      requires var h := t1.hosted;
               && Proper(h.view) && h.screen.Rows() != [] && h.screen.capacity > 0
               && t.begin + t.size <= |h.screen.Rows()|
      requires t2 == t1.(hosted := if logs then ScrollLog(t1.hosted) else ScrollUp(t1.hosted, t.begin, t.size, 1))
      requires t3 == Model.MoveCursor(t2, t.X(), t.Y())
      ensures Model.Ready(w, t3) && t3 == Model.Index(w, t)
    {
      hide Steady, ScrollLog, ScrollUp;
      AtIsSteady(w, t.hosted, t.X(), t.Y() + 1);
      ScrollUpIsSteady(w, t1.hosted, t.begin, t.size, 1);
      ScrollLogIsSteady(w, t1.hosted);
      assert t2.hosted == Model.ScrollStep(w, t, t.Y() + 1);
      assert t2.hosted.screen.x == t.X();
      assert Model.Index(w, t) == t.(hosted := At(t2.hosted, t.X(), t.Y()));
      assert t3 == t.(hosted := At(t2.hosted, t.X(), t.Y()));
    }

    /** The fields are those of the value. */
    lemma Screen()
      requires Valid()
      ensures var s := AsTerminal().hosted.screen;
              && s.x == buffer.x && s.y == buffer.y && s.width == buffer.width && s.height == buffer.height
              && s.onAlternate == buffer.onAlternate && s.attribute == buffer.attribute
      ensures var t := AsTerminal();
              && t.begin == begin && t.size == size && t.origin == origin && t.insert == insert
                && t.wraparound == wraparound
              && t.parser == parser && t.kind == kind && t.parameters == parameters[..count] && t.digits == digits
              && t.tabs == tabs && t.hosted == buffer.AsHosted()
              && |t.hosted.screen.Rows()| == buffer.height && t.hosted.screen.capacity > 0 && Proper(t.hosted.view)
    {
      buffer.Heights();
    }

    // Scrolling and editing.

    method ReverseIndex()
      requires Ready()
      modifies Repr()
      ensures Ready() && Repr() == old(Repr()) && Model.Ready(w, old(AsTerminal()))
      ensures AsTerminal() == Model.ReverseIndex(w, old(AsTerminal()))
    {
      hide Steady, Buffer.Valid, Buffer.AsHosted, AsTerminal, Model.Ready, Screens.ScrollDown;
      Sizes();
      Screen();
      ghost var r := Model.ReverseIndex(w, AsTerminal());
      if buffer.y == begin {
        BufferScrollDown(begin, size, 1);
        assert AsTerminal() == r;
      } else if buffer.y > 0 {
        SetCursor(buffer.x, buffer.y - 1);
      }
    }

    method NextLine()
      requires Ready()
      modifies Repr()
      ensures Ready() && Repr() == old(Repr()) && Model.Ready(w, old(AsTerminal()))
      ensures AsTerminal() == Model.NextLine(w, old(AsTerminal()))
    {
      hide Steady, Buffer.Valid, Buffer.AsHosted, Model.Index;
      Sizes();
      SetCursor(0, buffer.y);
      Index();
    }

    method ScrollRegionUp(y: nat, n: nat, k: nat)
      requires Ready() && y + n <= buffer.height
      modifies Repr()
      ensures Ready() && Repr() == old(Repr()) && Model.Ready(w, old(AsTerminal()))
        && y + n <= old(AsTerminal()).Height()
      ensures AsTerminal() == Model.ScrollRegionUp(w, old(AsTerminal()), y, n, k)
    {
      hide Steady, Buffer.Valid, Buffer.AsHosted, AsTerminal, Model.Ready, Screens.ScrollUp;
      Sizes();
      ghost var r := Model.ScrollRegionUp(w, AsTerminal(), y, n, k);
      BufferScrollUp(y, n, k);
      assert AsTerminal() == r;
    }

    method ScrollRegionDown(y: nat, n: nat, k: nat)
      requires Ready() && y + n <= buffer.height
      modifies Repr()
      ensures Ready() && Repr() == old(Repr()) && Model.Ready(w, old(AsTerminal()))
        && y + n <= old(AsTerminal()).Height()
      ensures AsTerminal() == Model.ScrollRegionDown(w, old(AsTerminal()), y, n, k)
    {
      hide Steady, Buffer.Valid, Buffer.AsHosted, AsTerminal, Model.Ready, Screens.ScrollDown;
      Sizes();
      ghost var r := Model.ScrollRegionDown(w, AsTerminal(), y, n, k);
      BufferScrollDown(y, n, k);
      assert AsTerminal() == r;
    }

    /** To the first column of the same row. */
    method ToMargin()
      requires Ready()
      modifies buffer
      ensures Ready() && Repr() == old(Repr())
      ensures AsTerminal() == Model.MoveCursor(old(AsTerminal()), 0, old(AsTerminal()).Y())
    {
      hide Steady, Buffer.Valid, Buffer.AsHosted, Model.Ready, AsTerminal;
      Sizes();
      SetCursor(0, buffer.y);
    }

    method InsertLine()
      requires Ready()
      modifies Repr()
      ensures Ready() && Repr() == old(Repr()) && Model.Ready(w, old(AsTerminal()))
      ensures AsTerminal() == Model.InsertLine(w, old(AsTerminal()))
    {
      hide Steady, Buffer.Valid, Buffer.AsHosted, AsTerminal, Model.Ready, Model.ScrollRegionDown, Model.InsertLine;
      Sizes();
      ParameterIs(0, 1);
      Screen();
      ghost var t := AsTerminal();
      var n, k := begin + size - buffer.y, Parameter(0, 1);
      if buffer.y < begin || n <= 0 {
        InsertNothing(t);
        return;
      }
      ScrollRegionDown(buffer.y, n, k);
      ghost var u := AsTerminal();
      ToMargin();
      InsertSome(t, u, AsTerminal(), n, k);
    }

    lemma InsertNothing(t: Model.Terminal)
      requires Model.Ready(w, t) && !Effects.InRegion(t)
      ensures Model.InsertLine(w, t) == t
    {
      hide Model.Ready;
    }

    lemma InsertSome(t: Model.Terminal, u: Model.Terminal, r: Model.Terminal, n: nat, k: nat)
      requires Model.Ready(w, t) && Effects.InRegion(t)
      requires n == t.begin + t.size - t.Y() && k == Model.Parameter(t, 0, 1)
      requires t.Y() + n <= t.Height() && u == Model.ScrollRegionDown(w, t, t.Y(), n, k)
      requires r == Model.MoveCursor(u, 0, u.Y())
      ensures r == Model.InsertLine(w, t)
    {
      hide Steady, Model.ScrollRegionDown;
    }

    method DeleteLine()
      requires Ready()
      modifies Repr()
      ensures Ready() && Repr() == old(Repr()) && Model.Ready(w, old(AsTerminal()))
      ensures AsTerminal() == Model.DeleteLine(w, old(AsTerminal()))
    {
      hide Steady, Buffer.Valid, Buffer.AsHosted, AsTerminal, Model.Ready, Model.ScrollRegionUp, Model.DeleteLine;
      Sizes();
      ParameterIs(0, 1);
      Screen();
      ghost var t := AsTerminal();
      var n, k := begin + size - buffer.y, Parameter(0, 1);
      if buffer.y < begin || n <= 0 {
        DeleteNothing(t);
        return;
      }
      ScrollRegionUp(buffer.y, n, k);
      ghost var u := AsTerminal();
      ToMargin();
      DeleteSome(t, u, AsTerminal(), n, k);
    }

    lemma DeleteNothing(t: Model.Terminal)
      requires Model.Ready(w, t) && !Effects.InRegion(t)
      ensures Model.DeleteLine(w, t) == t
    {
      hide Model.Ready;
    }

    lemma DeleteSome(t: Model.Terminal, u: Model.Terminal, r: Model.Terminal, n: nat, k: nat)
      requires Model.Ready(w, t) && Effects.InRegion(t)
      requires n == t.begin + t.size - t.Y() && k == Model.Parameter(t, 0, 1)
      requires t.Y() + n <= t.Height() && u == Model.ScrollRegionUp(w, t, t.Y(), n, k)
      requires r == Model.MoveCursor(u, 0, u.Y())
      ensures r == Model.DeleteLine(w, t)
    {
      hide Steady, Model.ScrollRegionUp;
    }

    method EraseRange(x: nat, n: int, shift: bool)
      requires Ready() && (x < buffer.width ==> n >= 0)
      modifies Repr()
      ensures Ready() && Repr() == old(Repr()) && Model.Ready(w, old(AsTerminal()))
        && (x < old(AsTerminal()).Width() ==> n >= 0)
      ensures AsTerminal() == Model.EraseRange(w, old(AsTerminal()), x, n, shift)
    {
      hide Steady, Buffer.Valid, Buffer.AsHosted, AsTerminal, Model.Ready, Screens.EraseCells;
      Sizes();
      Screen();
      ghost var r := Model.EraseRange(w, AsTerminal(), x, n, shift);
      BufferErase(x, buffer.y, n, shift);
      assert AsTerminal() == r;
    }

    method EraseLines(y: nat, n: nat)
      requires Ready() && y + n <= buffer.height
      modifies Repr()
      ensures Ready() && Repr() == old(Repr()) && Model.Ready(w, old(AsTerminal()))
        && y + n <= old(AsTerminal()).Height()
      ensures AsTerminal() == Model.EraseLines(w, old(AsTerminal()), y, n)
    {
      hide Steady, Buffer.Valid, Buffer.AsHosted, AsTerminal, Model.Ready, Screens.EraseRows;
      Sizes();
      ghost var r := Model.EraseLines(w, AsTerminal(), y, n);
      BufferEraseRows(y, n);
      assert AsTerminal() == r;
    }

    /** The display from the cursor on. */
    method EraseBelow()
      requires Ready()
      modifies Repr()
      ensures Ready() && Repr() == old(Repr()) && Model.Ready(w, old(AsTerminal()))
      ensures AsTerminal() == Model.EraseBelow(w, old(AsTerminal()))
    {
      hide Steady, Buffer.Valid, Buffer.AsHosted, Model.EraseRange, Model.EraseLines, Model.Ready, AsTerminal;
      Sizes();
      Screen();
      EraseRange(buffer.x, buffer.width - buffer.x, false);
      Screen();
      Sizes();
      EraseLines(buffer.y + 1, buffer.height - buffer.y - 1);
    }

    /** The display up to the cursor. */
    method EraseAbove()
      requires Ready()
      modifies Repr()
      ensures Ready() && Repr() == old(Repr()) && Model.Ready(w, old(AsTerminal()))
      ensures AsTerminal() == Model.EraseAbove(w, old(AsTerminal()))
    {
      hide Steady, Buffer.Valid, Buffer.AsHosted, Model.EraseRange, Model.EraseLines, Model.Ready, AsTerminal;
      Sizes();
      Screen();
      EraseLines(0, buffer.y);
      Screen();
      Sizes();
      EraseRange(0, buffer.x + 1, false);
    }

    method EraseDisplay()
      requires Ready()
      modifies Repr()
      ensures Ready() && Repr() == old(Repr()) && Model.Ready(w, old(AsTerminal()))
      ensures AsTerminal() == Model.EraseDisplay(w, old(AsTerminal()))
    {
      hide Steady, Buffer.Valid, Buffer.AsHosted, Model.EraseBelow, Model.EraseAbove, Model.EraseLines, Model.Ready,
        AsTerminal;
      Sizes();
      Screen();
      ParameterIs(0, 0);
      var p := Parameter(0, 0);
      if p == 0 {
        EraseBelow();
      } else if p == 1 {
        EraseAbove();
      } else if p == 2 {
        EraseLines(0, buffer.height);
      }
    }

    method EraseLine()
      requires Ready()
      modifies Repr()
      ensures Ready() && Repr() == old(Repr()) && Model.Ready(w, old(AsTerminal()))
      ensures AsTerminal() == Model.EraseLine(w, old(AsTerminal()))
    {
      hide Steady, Buffer.Valid, Buffer.AsHosted, Model.EraseRange, Model.EraseLines, Model.Ready;
      Sizes();
      ParameterIs(0, 0);
      var p := Parameter(0, 0);
      if p == 0 {
        EraseRange(buffer.x, buffer.width - buffer.x, false);
      } else if p == 1 {
        EraseRange(0, buffer.x + 1, false);
      } else if p == 2 {
        EraseLines(buffer.y, 1);
      }
    }

    method EraseCharacter()
      requires Ready()
      modifies Repr()
      ensures Ready() && Repr() == old(Repr()) && Model.Ready(w, old(AsTerminal()))
      ensures AsTerminal() == Model.EraseCharacter(w, old(AsTerminal()))
    {
      hide Steady, Buffer.Valid, Buffer.AsHosted, Model.EraseRange, Model.EraseLines, Model.Ready;
      Sizes();
      ParameterIs(0, 1);
      var p := Parameter(0, 1);
      EraseRange(buffer.x, if buffer.x + p > buffer.width then buffer.width - buffer.x else p, false);
    }

    method DeleteCharacter()
      requires Ready()
      modifies Repr()
      ensures Ready() && Repr() == old(Repr()) && Model.Ready(w, old(AsTerminal()))
      ensures AsTerminal() == Model.DeleteCharacter(w, old(AsTerminal()))
    {
      hide Steady, Buffer.Valid, Buffer.AsHosted, Model.EraseRange, Model.EraseLines, Model.Ready;
      Sizes();
      ParameterIs(0, 1);
      EraseRange(buffer.x, Parameter(0, 1), true);
    }

    method InsertCharacter()
      requires Ready()
      modifies Repr()
      ensures Ready() && Repr() == old(Repr()) && Model.Ready(w, old(AsTerminal()))
      ensures AsTerminal() == Model.InsertCharacter(w, old(AsTerminal()))
    {
      hide Steady, Buffer.Valid, Buffer.AsHosted, AsTerminal, Model.Ready, Screens.InsertCells;
      Sizes();
      ParameterIs(0, 1);
      Screen();
      ghost var r := Model.InsertCharacter(w, AsTerminal());
      BufferInsert(buffer.x, buffer.y, Parameter(0, 1));
      assert AsTerminal() == r;
    }

    method WrapLine()
      requires Ready()
      modifies Repr()
      ensures Ready() && Repr() == old(Repr()) && Model.Ready(w, old(AsTerminal()))
      ensures AsTerminal() == Model.WrapLine(w, old(AsTerminal()))
    {
      hide Steady, Buffer.Valid, Buffer.AsHosted, Model.NextLine;
      Sizes();
      WrapIsSteady(w, AsTerminal().hosted, buffer.y);
      BufferWrap(buffer.y);
      NextLine();
    }

    method PutHere(c: char)
      requires Ready() && c != NUL
      modifies Repr()
      ensures Ready() && Repr() == old(Repr()) && Model.Ready(w, old(AsTerminal()))
      ensures AsTerminal() == Model.PutHere(w, old(AsTerminal()), c)
    {
      hide Steady, Buffer.Valid, Buffer.AsHosted, AsTerminal, Model.Ready, Screens.PutCell;
      Sizes();
      Screen();
      ghost var r := Model.PutHere(w, AsTerminal(), c);
      var x, y := buffer.x, buffer.y;
      BufferPut(x, y, Cell(c, buffer.attribute), w(c), insert);
      BufferCursor(x + w(c), y);
      assert AsTerminal() == r;
    }

    /** f_put. */
    method PutCharacter(c: char)
      requires Ready() && c != NUL
      modifies Repr()
      ensures Ready() && Repr() == old(Repr()) && Model.Ready(w, old(AsTerminal()))
      ensures AsTerminal() == Model.PutCharacter(w, old(AsTerminal()), c)
    {
      hide Steady, Buffer.Valid, Buffer.AsHosted, Model.WrapLine, Model.PutHere;
      Sizes();
      Screen();
      if wraparound && buffer.x + w(c) > buffer.width {
        WrapLine();
      }
      PutHere(c);
    }

    // Modes, margins and the parser.

    method RestoreSaved()
      requires Ready()
      modifies Repr()
      ensures Ready() && Repr() == old(Repr()) && Model.Ready(w, old(AsTerminal()))
      ensures AsTerminal() == Model.RestoreSaved(w, old(AsTerminal()))
    {
      hide Steady, Valid, Buffer.Valid, Buffer.AsHosted, AsTerminal, Model.Ready, RestoreCursor, Model.RestoreSaved;
      Sizes();
      Screen();
      ghost var t := AsTerminal();
      ghost var r := Model.RestoreSaved(w, t);
      assert Model.Ready(w, r);
      BufferRestore();
      Screen();
      var bottom := if origin then begin + size else buffer.height;
      RestoredTo(t, AsTerminal());
      var y := if buffer.y >= bottom then bottom - 1 else buffer.y;
      var x := if buffer.x >= buffer.width then buffer.width - 1 else buffer.x;
      BufferCursor(x, if origin && y < begin then begin else y);
      assert AsTerminal() == r;
    }

    lemma RestoredTo(t: Model.Terminal, u: Model.Terminal)
      requires Model.Ready(w, t) && u == t.(hosted := RestoreCursor(t.hosted))
      ensures u.Width() > 0 && u.Height() == t.Height() && Model.Bottom(u) > 0
      ensures var y := if u.Y() >= Model.Bottom(u) then Model.Bottom(u) - 1 else u.Y();
              Model.RestoreSaved(w, t)
              == Model.MoveCursor(u, Model.InWidth(u, u.X()), if u.origin && y < u.begin then u.begin else y)
    {
      hide Steady;
    }

    method BufferRestore()
      requires Valid()
      modifies Repr()
      ensures Valid() && Repr() == old(Repr())
      ensures AsTerminal() == old(AsTerminal()).(hosted := RestoreCursor(old(AsTerminal()).hosted))
    {
      hide Buffer.Valid, Buffer.AsHosted;
      buffer.RestoreCursor();
    }

    method Save()
      requires Ready()
      modifies Repr()
      ensures Ready() && Repr() == old(Repr()) && Model.Ready(w, old(AsTerminal()))
      ensures AsTerminal() == Model.Save(w, old(AsTerminal()))
    {
      hide Steady, Buffer.Valid, Buffer.AsHosted;
      Sizes();
      ghost var r := Model.Save(w, AsTerminal());
      buffer.SaveCursor();
      assert AsTerminal() == r;
    }

    method SetAlternate(on: bool)
      requires Ready()
      modifies Repr()
      ensures Ready() && Repr() == old(Repr()) && Model.Ready(w, old(AsTerminal()))
      ensures AsTerminal() == Model.SetAlternate(w, old(AsTerminal()), on)
    {
      hide Steady, Buffer.Valid, Buffer.AsHosted;
      Sizes();
      ghost var r := Model.SetAlternate(w, AsTerminal(), on);
      buffer.Alternate(on);
      assert AsTerminal() == r;
    }

    method TabSet(on: bool)
      requires Ready()
      modifies Repr()
      ensures Ready() && Repr() == old(Repr()) && Model.Ready(w, old(AsTerminal()))
        && |old(AsTerminal()).tabs| >= old(AsTerminal()).Width()
      ensures AsTerminal() == Model.TabSet(old(AsTerminal()), on)
    {
      hide Steady, Buffer.Valid, Buffer.AsHosted;
      Sizes();
      if buffer.x < buffer.width {
        tabs := tabs[buffer.x := on];
      }
    }

    method TabClear()
      requires Ready()
      modifies Repr()
      ensures Ready() && Repr() == old(Repr()) && Model.Ready(w, old(AsTerminal()))
        && |old(AsTerminal()).tabs| >= old(AsTerminal()).Width()
      ensures AsTerminal() == Model.TabClear(old(AsTerminal()))
    {
      hide Steady, Buffer.Valid, Buffer.AsHosted;
      Sizes();
      ParameterIs(0, 0);
      var p := Parameter(0, 0);
      if p == 0 {
        TabSet(false);
      } else if p == 3 {
        tabs := seq(|tabs|, _ => false);
      }
    }

    /** f_scroll_region. */
    method SetRegion()
      requires Ready() && Model.RegionFits(AsTerminal())
      modifies Repr()
      ensures Ready() && Repr() == old(Repr()) && Model.Ready(w, old(AsTerminal()))
        && Model.RegionFits(old(AsTerminal()))
      ensures AsTerminal() == Model.SetRegion(w, old(AsTerminal()))
    {
      hide Steady, Buffer.Valid, Buffer.AsHosted;
      Sizes();
      ParameterIs(0, 1);
      ParameterIs(1, -1);
      ghost var r := Model.SetRegion(w, AsTerminal());
      var h: int := buffer.height;
      var p0 := if Parameter(0, 1) - 1 < h - 2 then Parameter(0, 1) - 1 else h - 2;
      var p1 := Parameter(1, -1);
      p1 := if p1 < 0 then h else p1;
      p1 := if p1 > p0 + 2 then p1 else p0 + 2;
      begin, size := p0, p1 - p0;
      BufferCursor(0, if origin then begin else 0);
      assert AsTerminal() == r;
    }

    method Home()
      requires Ready()
      modifies Repr()
      ensures Ready() && Repr() == old(Repr()) && Model.Ready(w, old(AsTerminal()))
      ensures AsTerminal() == Model.Home(w, old(AsTerminal()))
    {
      hide Steady, Buffer.Valid, Buffer.AsHosted;
      Sizes();
      ghost var r := Model.Home(w, AsTerminal());
      begin, size := 0, buffer.height;
      BufferCursor(0, 0);
      assert AsTerminal() == r;
    }

    method OriginMode(on: bool)
      requires Ready()
      modifies Repr()
      ensures Ready() && Repr() == old(Repr()) && Model.Ready(w, old(AsTerminal()))
      ensures AsTerminal() == Model.OriginMode(w, old(AsTerminal()), on)
    {
      hide Steady, Buffer.Valid, Buffer.AsHosted;
      Sizes();
      ghost var r := Model.OriginMode(w, AsTerminal(), on);
      origin := on;
      BufferCursor(0, if on then begin else 0);
      assert AsTerminal() == r;
    }

    method WholeRegion()
      requires Ready()
      modifies Repr()
      ensures Ready() && Repr() == old(Repr()) && Model.Ready(w, old(AsTerminal()))
      ensures AsTerminal() == Model.WholeRegion(old(AsTerminal()))
    {
      hide Steady, Buffer.Valid, Buffer.AsHosted;
      Sizes();
      Model.WholeRegionIsReady(w, AsTerminal());
      begin, size := 0, buffer.height;
    }

    method PrivateMode(p: int, on: bool)
      requires Ready()
      modifies Repr()
      ensures Ready() && Repr() == old(Repr()) && Model.Ready(w, old(AsTerminal()))
      ensures AsTerminal() == Model.PrivateMode(w, old(AsTerminal()), p, on)
    {
      hide Steady, Buffer.Valid, Buffer.AsHosted, Model.Home, Model.EraseAll, Model.OriginMode, Model.SwitchScreen;
      Sizes();
      Screen();
      if p == 1 {
        applicationCursor := on;
      } else if p == 3 {
        HomeAndErase();
      } else if p == 6 {
        OriginMode(on);
      } else if p == 7 {
        wraparound := on;
      } else if p == 1049 {
        SwitchScreen(on);
      }
    }

    method HomeAndErase()
      requires Ready()
      modifies Repr()
      ensures Ready() && Repr() == old(Repr()) && Model.Ready(w, old(AsTerminal()))
      ensures AsTerminal() == Model.EraseAll(w, Model.Home(w, old(AsTerminal())))
    {
      hide Steady, Buffer.Valid, Buffer.AsHosted, Model.Home, Model.EraseLines;
      Sizes();
      Home();
      Sizes();
      EraseLines(0, buffer.height);
    }

    method SwitchScreen(on: bool)
      requires Ready()
      modifies Repr()
      ensures Ready() && Repr() == old(Repr()) && Model.Ready(w, old(AsTerminal()))
      ensures AsTerminal() == Model.SwitchScreen(w, old(AsTerminal()), on)
    {
      hide Steady, Buffer.Valid, Buffer.AsHosted, Model.Save, Model.SetAlternate, Model.Home, Model.EraseLines,
        Model.RestoreSaved, Model.WholeRegion, Model.Ready;
      Sizes();
      if on {
        Save();
        SetAlternate(true);
        Sizes();
        EraseLines(0, buffer.height);
        Home();
      } else {
        SetAlternate(false);
        RestoreSaved();
        WholeRegion();
      }
    }

    method Modes(on: bool)
      requires Ready()
      modifies Repr()
      ensures Ready() && Repr() == old(Repr()) && Model.Ready(w, old(AsTerminal()))
      ensures AsTerminal() == Model.Modes(w, old(AsTerminal()), old(parameters[..count]), on)
    {
      hide Steady, Buffer.Valid, Buffer.AsHosted, Model.PrivateMode, Model.Ready, Model.Modes;
      ghost var t := AsTerminal();
      var i := 0;
      assert parameters[0..count] == parameters[..count];
      while i < count
        invariant i <= count && Ready() && Repr() == old(Repr())
        invariant AsTerminal().parameters == t.parameters && AsTerminal().kind == t.kind
        invariant Model.Modes(w, AsTerminal(), t.parameters[i..], on) == Model.Modes(w, t, t.parameters, on)
        decreases |t.parameters| - i
      {
        assert parameters[i] == t.parameters[i] && t.parameters[i..][1..] == t.parameters[i + 1..];
        ModeIs(AsTerminal(), t.parameters[i..], on);
        match kind {
          case Primary =>
            if parameters[i] == 4 {
              SetInsert(on);
            }
          case Secondary =>
          case Private =>
            PrivateMode(parameters[i], on);
        }
        i := i + 1;
      }
      NoModes(AsTerminal(), t.parameters[|t.parameters|..], on);
    }

    lemma NoModes(t: Model.Terminal, ps: seq<int>, on: bool)
      requires Model.Ready(w, t) && ps == []
      ensures Model.Modes(w, t, ps, on) == t
    {
    }

    method SetInsert(on: bool)
      requires Ready()
      modifies this`insert
      ensures Ready() && Repr() == old(Repr()) && AsTerminal() == old(AsTerminal()).(insert := on)
    {
      hide Steady, Buffer.Valid, Buffer.AsHosted;
      insert := on;
    }

    lemma ModeIs(t: Model.Terminal, ps: seq<int>, on: bool)
      requires Model.Ready(w, t) && ps != []
      ensures Model.Ready(w, t.(insert := on))
      ensures t.kind == Model.Secondary ==> Model.Modes(w, t, ps, on) == t == Model.Modes(w, t, ps[1..], on)
      ensures t.kind == Model.Primary ==>
                Model.Modes(w, t, ps, on) == Model.Modes(w, if ps[0] == 4 then t.(insert := on) else t, ps[1..], on)
      ensures t.kind == Model.Private ==>
                Model.Modes(w, t, ps, on) == Model.Modes(w, Model.PrivateMode(w, t, ps[0], on), ps[1..], on)
    {
      hide Steady, Model.PrivateMode;
    }

    // Attributes, the alignment pattern and the parser.

    /** f_attribute. */
    method Attributes()
      requires Ready()
      modifies Repr(), parameters
      ensures Ready() && Repr() == old(Repr()) && Model.Ready(w, old(AsTerminal()))
      ensures AsTerminal() == Model.Attributes(w, old(AsTerminal()))
    {
      hide Steady, Buffer.Valid, Buffer.AsHosted;
      ghost var r := Model.Attributes(w, AsTerminal());
      GiveParameter();
      SetAttributes();
      assert AsTerminal() == r;
    }

    /** Without parameters there is one all the same. */
    method GiveParameter()
      requires Ready()
      modifies this`count, parameters
      ensures Ready() && Repr() == old(Repr()) && count > 0
      ensures var t := old(AsTerminal());
              AsTerminal() == t.(parameters := if t.parameters == [] then [-1] else t.parameters)
    {
      hide Steady, Buffer.Valid, Buffer.AsHosted;
      if count < 1 {
        parameters[0], count := -1, 1;
        assert parameters[..count] == [-1];
      }
    }

    method SetAttributes()
      requires Valid() && count > 0
      modifies Repr()
      ensures Valid() && Repr() == old(Repr())
      ensures var t := old(AsTerminal());
              AsTerminal() == t.(hosted := WithAttribute(t.hosted,
                Model.SetAttributes(t.hosted.screen.attribute, t.parameters)))
    {
      hide Steady, Buffer.Valid, Buffer.AsHosted, Model.SetAttribute;
      Screen();
      var a := buffer.attribute;
      ghost var ps := parameters[..count];
      assert ps[0..] == ps;
      var i := 0;
      while i < count
        invariant i <= count && Model.SetAttributes(a, ps[i..]) == Model.SetAttributes(buffer.attribute, ps)
      {
        assert ps[i..][1..] == ps[i + 1..] && ps[i..][0] == parameters[i];
        a := Model.SetAttribute(a, parameters[i]);
        i := i + 1;
      }
      buffer.SetAttribute(a);
    }

    /** DECALN. */
    method Align()
      requires Ready()
      modifies Repr()
      ensures Ready() && Repr() == old(Repr()) && Model.Ready(w, old(AsTerminal()))
      ensures AsTerminal() == Model.Align(w, old(AsTerminal()), 0, 0)
    {
      hide Steady, Buffer.Valid, Buffer.AsHosted, Model.Ready, Model.Align, AsTerminal;
      Sizes();
      Screen();
      ghost var t := AsTerminal();
      var y := 0;
      while y < buffer.height
        invariant Ready() && Repr() == old(Repr()) && y <= buffer.height == t.Height() == AsTerminal().Height()
        invariant Model.Align(w, AsTerminal(), 0, y) == Model.Align(w, t, 0, 0)
        decreases t.Height() - y
      {
        Screen();
        AlignRow(y);
        Screen();
        y := y + 1;
      }
      AlignEnd(AsTerminal(), 0, y);
    }

    /** A row of the screen alignment pattern. */
    method AlignRow(y: nat)
      requires Ready() && y < buffer.height
      modifies Repr()
      ensures Ready() && Repr() == old(Repr()) && Model.Ready(w, old(AsTerminal())) && y < old(AsTerminal()).Height()
      ensures y < AsTerminal().Height() == old(AsTerminal()).Height() && buffer.height == old(buffer.height)
      ensures Model.Align(w, AsTerminal(), 0, y + 1) == Model.Align(w, old(AsTerminal()), 0, y)
    {
      hide Steady, Buffer.Valid, Buffer.AsHosted, Model.Ready, Model.Align, AsTerminal, Screens.PutCell;
      Sizes();
      Screen();
      ghost var t := AsTerminal();
      var x := 0;
      while x < buffer.width
        invariant Ready() && Repr() == old(Repr()) && x <= buffer.width && y < buffer.height
        invariant AsTerminal().Height() == t.Height() == buffer.height
          && AsTerminal().Width() == t.Width() == buffer.width
        invariant Model.Align(w, AsTerminal(), x, y) == Model.Align(w, t, 0, y)
        decreases t.Width() - x
      {
        Screen();
        AlignStep(AsTerminal(), x, y);
        BufferPut(x, y, Cell('E', buffer.attribute), w('E'), false);
        Screen();
        x := x + 1;
      }
      Screen();
      AlignEnd(AsTerminal(), x, y);
    }

    lemma AlignStep(t: Model.Terminal, x: nat, y: nat)
      requires Model.Ready(w, t) && y < t.Height() && x < t.Width()
      ensures y < |t.hosted.screen.Rows()| && FitsRow(t.hosted.screen, y)
      ensures var r := t.(hosted := Screens.PutCell(t.hosted, x, y, Cell('E', t.hosted.screen.attribute), w('E'),
          false));
              && Model.Ready(w, r) && r.Height() == t.Height() && r.Width() == t.Width()
              && Model.Align(w, r, x + 1, y) == Model.Align(w, t, x, y)
    {
      hide Steady, Screens.PutCell;
      PutCellIsSteady(w, t.hosted, x, y, Cell('E', t.hosted.screen.attribute), false);
    }

    lemma AlignEnd(t: Model.Terminal, x: nat, y: nat)
      requires Model.Ready(w, t) && y <= t.Height()
      ensures y < t.Height() && x >= t.Width() ==> Model.Align(w, t, x, y) == Model.Align(w, t, 0, y + 1)
      ensures y == t.Height() ==> Model.Align(w, t, x, y) == t
    {
    }

    // Characters.

    /** f_control_sequence. */
    method Sequence(c: char)
      requires Ready() && (c == 'r' ==> Model.RegionFits(AsTerminal()))
      modifies Repr(), parameters
      ensures Ready() && Repr() == old(Repr()) && Model.Ready(w, old(AsTerminal()))
        && (c == 'r' ==> Model.RegionFits(old(AsTerminal())))
      ensures AsTerminal() == Model.Sequence(w, old(AsTerminal()), c)
    {
      hide Steady, Buffer.Valid, Buffer.AsHosted, AsTerminal, Model.Ready, Model.RegionFits,
        Model.InsertCharacter, Model.CursorUp, Model.CursorDown, Model.CursorForward, Model.CursorBackward,
          Model.CarriageReturn, Model.CursorColumn, Model.CursorRow, Model.EraseDisplay, Model.EraseLine,
        Model.InsertLine, Model.DeleteLine, Model.DeleteCharacter, Model.ScrollRegionUp, Model.ScrollRegionDown,
          Model.EraseCharacter, Model.TabClear, Model.Modes, Model.Attributes, Model.SetRegion;
      Sizes();
      Screen();
      match c {
        case '@' => InsertCharacter();
        case 'A' => CursorUp();
        case 'B' => CursorDown();
        case 'C' => CursorForward();
        case 'D' => CursorBackward();
        case 'E' =>
          CursorDown();
          CarriageReturn();
        case 'F' =>
          CursorUp();
          CarriageReturn();
        case 'G' => CursorColumn(0);
        case 'H' => CursorPosition();
        case 'J' => EraseDisplay();
        case 'K' => EraseLine();
        case 'L' => InsertLine();
        case 'M' => DeleteLine();
        case 'P' => DeleteCharacter();
        case 'S' =>
          ParameterIs(0, 1);
          ScrollRegionUp(begin, size, Parameter(0, 1));
        case 'T' =>
          ParameterIs(0, 1);
          ScrollRegionDown(begin, size, Parameter(0, 1));
        case 'X' => EraseCharacter();
        case 'd' => CursorRow();
        case 'f' => CursorPosition();
        case 'g' => TabClear();
        case 'h' => Modes(true);
        case 'l' => Modes(false);
        case 'm' =>
          if kind == Model.Primary {
            Attributes();
          }
        case 'r' => SetRegion();
        case _ =>
      }
    }

    method CursorPosition()
      requires Ready()
      modifies Repr()
      ensures Ready() && Repr() == old(Repr()) && Model.Ready(w, old(AsTerminal()))
      ensures AsTerminal() == Model.CursorColumn(w, Model.CursorRow(w, old(AsTerminal())), 1)
    {
      hide Steady, Buffer.Valid, Buffer.AsHosted, AsTerminal, Model.Ready, Model.CursorRow, Model.CursorColumn;
      CursorRow();
      CursorColumn(1);
    }

    /** f_control_character. */
    method Control(c: char)
      requires Ready()
      modifies Repr()
      ensures Ready() && Repr() == old(Repr()) && Model.Ready(w, old(AsTerminal()))
      ensures AsTerminal() == Model.Control(w, old(AsTerminal()), c) && count == old(count)
    {
      hide Steady, Buffer.Valid, Buffer.AsHosted, Model.Ready, Model.BackSpace, Model.TabForward, Model.Index,
        Model.CarriageReturn;
      ControlKeepsParameters(AsTerminal(), c);
      if c == Model.BS {
        BackSpace();
      } else if c == Model.HT {
        TabForward();
      } else if c == Model.LF || c == Model.VT || c == Model.FF {
        Index();
      } else if c == Model.CR {
        CarriageReturn();
      } else if c == Model.ESC {
        parser := Model.Escape;
      }
    }

    lemma ControlKeepsParameters(t: Model.Terminal, c: char)
      requires Model.Ready(w, t)
      ensures var r := Model.Control(w, t, c);
              r.parameters == t.parameters && r.digits == t.digits && (r.parser == t.parser || r.parser == Model.Escape)
      ensures Model.Ready(w, t.(parser := Model.Escape))
    {
      hide Steady, Model.BackSpace, Model.CarriageReturn, Model.TabForward, Model.Index;
    }

    method EscapeKey(c: char)
      requires Ready()
      modifies Repr()
      ensures Ready() && Repr() == old(Repr()) && Model.Ready(w, old(AsTerminal()))
      ensures AsTerminal() == Model.EscapeKey(w, old(AsTerminal()), c)
    {
      hide Steady, Buffer.Valid, Buffer.AsHosted, AsTerminal, Model.Ready, Model.Save, Model.RestoreSaved, Model.Index,
        Model.NextLine, Model.TabSet, Model.ReverseIndex;
      ghost var r := Model.EscapeKey(w, AsTerminal(), c);
      if c == '#' || c == '(' || c == 'P' || c == '[' || c == ']' {
        Introduce(c);
        return;
      }
      match c {
        case '7' => Save();
        case '8' => RestoreSaved();
        case '=' => SetKeypad(true);
        case '>' => SetKeypad(false);
        case 'D' => Index();
        case 'E' => NextLine();
        case 'H' => TabSet(true);
        case 'M' => ReverseIndex();
        case _ =>
      }
      SetDefault();
      assert AsTerminal() == r;
    }

    method SetKeypad(on: bool)
      requires Valid()
      modifies this`applicationKeypad
      ensures Valid() && Repr() == old(Repr()) && AsTerminal() == old(AsTerminal()).(applicationKeypad := on)
    {
      hide Buffer.Valid, Buffer.AsHosted;
      applicationKeypad := on;
    }

    method SetDefault()
      requires Valid()
      modifies this`parser
      ensures Valid() && Repr() == old(Repr()) && AsTerminal() == old(AsTerminal()).(parser := Model.Default)
    {
      hide Buffer.Valid, Buffer.AsHosted;
      parser := Model.Default;
    }

    /** A character that opens a longer sequence. */
    method Introduce(c: char)
      requires Ready() && (c == '#' || c == '(' || c == 'P' || c == '[' || c == ']')
      modifies this
      ensures Ready() && Repr() == old(Repr()) && Model.Ready(w, old(AsTerminal()))
      ensures AsTerminal() == Model.EscapeKey(w, old(AsTerminal()), c)
    {
      hide Steady, Buffer.Valid, Buffer.AsHosted, Model.Ready;
      ghost var r := Model.EscapeKey(w, AsTerminal(), c);
      if c == '[' {
        kind, count := Model.Primary, 0;
      }
      parser :=
        if c == '#' then Model.EscapeSharp
        else if c == '(' then Model.DesignateG0
        else if c == 'P' then Model.DeviceControl
        else if c == '[' then Model.Csi
        else Model.OperatingSystem;
      assert AsTerminal() == r;
    }

    /** The final character, after the last parameter is complete. */
    method Final(c: char)
      requires Ready() && (c == 'r' ==> Model.RegionFits(AsTerminal()))
      modifies Repr(), parameters
      ensures Ready() && Repr() == old(Repr()) && Model.Ready(w, old(AsTerminal()))
        && (c == 'r' ==> Model.RegionFits(old(AsTerminal())))
      ensures AsTerminal() == Model.Final(w, old(AsTerminal()), c) && parser == Model.Default
    {
      hide Steady, Buffer.Valid, Buffer.AsHosted, Model.Ready, Model.Sequence, Model.RegionFits;
      ghost var r := Model.Final(w, AsTerminal(), c);
      Sequence(c);
      parser := Model.Default;
      assert AsTerminal() == r;
    }

    /** A character of a control sequence. */
    method CsiKey(ghost cfg: Model.Config, c: char)
      requires Ready() && Reading() && cfg.w == w && cfg.isControl == isControl && !isControl(c)
        && Model.Accepts(cfg, AsTerminal(), c)
      requires parser == Model.Csi || parser == Model.CsiParameter || parser == Model.CsiDigit
      modifies Repr(), parameters
      ensures Ready() && Reading() && Repr() == old(Repr())
      ensures var t := old(AsTerminal());
              Model.Ready(w, t) && (Model.IsFinal(cfg, t, c) && c == 'r' ==> Model.RegionFits(Model.Delivered(t)))
              && AsTerminal() == Model.CsiKey(cfg, t, c)
    {
      hide Steady, Buffer.Valid, Buffer.AsHosted, Model.Ready, Model.Final, Model.RegionFits;
      ghost var r := Model.CsiKey(cfg, AsTerminal(), c);
      if Model.IsDigit(c) {
        TakeDigit(c as int - '0' as int);
      } else if c == ';' {
        TakeSeparator();
      } else if parser == Model.Csi && (c == '>' || c == '?') {
        TakeMark(if c == '>' then Model.Secondary else Model.Private);
      } else {
        TakeFinal(c);
      }
      assert AsTerminal() == r;
    }

    method TakeMark(k: Model.Kind)
      requires Ready() && parser == Model.Csi
      modifies this
      ensures Ready() && Reading() && Repr() == old(Repr())
      ensures AsTerminal() == old(AsTerminal()).(kind := k, parser := Model.CsiParameter)
    {
      hide Steady, Buffer.Valid, Buffer.AsHosted;
      kind, parser := k, Model.CsiParameter;
    }

    method TakeDigit(d: int)
      requires Valid() && Reading() && (parser != Model.CsiDigit ==> count < Model.PARAMETERS)
      modifies this, parameters
      ensures Valid() && Reading() && Repr() == old(Repr())
      ensures var t := old(AsTerminal());
              AsTerminal()
              == t.(digits := if t.parser == Model.CsiDigit then t.digits * 10 + d else d, parser := Model.CsiDigit)
    {
      hide Buffer.Valid, Buffer.AsHosted;
      ghost var ps := parameters[..count];
      var n := if parser == Model.CsiDigit then parameters[count] * 10 + d else d;
      parameters[count], parser, digits := n, Model.CsiDigit, n;
      assert parameters[..count] == ps;
    }

    method TakeSeparator()
      requires Valid() && Reading() && (parser != Model.CsiDigit ==> count < Model.PARAMETERS)
      modifies this, parameters
      ensures Valid() && Reading() && Repr() == old(Repr())
      ensures var t := old(AsTerminal());
              AsTerminal() == t.(
                parameters := t.parameters + [if t.parser == Model.CsiDigit then t.digits else -1],
                  parser := Model.CsiParameter)
    {
      hide Buffer.Valid, Buffer.AsHosted;
      ghost var ps := parameters[..count];
      if parser != Model.CsiDigit {
        parameters[count] := -1;
      }
      count, parser := count + 1, Model.CsiParameter;
      assert parameters[..count] == ps + [parameters[count - 1]];
    }

    method TakeFinal(c: char)
      requires Ready() && Reading() && (c == 'r' ==> Model.RegionFits(Model.Delivered(AsTerminal())))
      modifies Repr(), parameters
      ensures Ready() && Repr() == old(Repr()) && parser == Model.Default
      ensures var t := Model.Delivered(old(AsTerminal()));
              Model.Ready(w, t) && (c == 'r' ==> Model.RegionFits(t)) && AsTerminal() == Model.Final(w, t, c)
    {
      hide Steady, Buffer.Valid, Buffer.AsHosted, Model.Ready, Model.Final, Model.RegionFits;
      ghost var t := AsTerminal();
      DeliveredIsReady(t);
      if parser == Model.CsiDigit {
        count := count + 1;
        assert parameters[..count] == t.parameters + [digits];
      }
      assert AsTerminal() == Model.Delivered(t);
      Final(c);
    }

    lemma DeliveredIsReady(t: Model.Terminal)
      requires Model.Ready(w, t)
      ensures Model.Ready(w, Model.Delivered(t))
    {
      hide Steady;
    }

    /** operator(): one character. */
    method Feed(ghost cfg: Model.Config, c: char)
      requires Ready() && Reading() && Model.ConfigOk(cfg) && cfg.w == w && cfg.isControl == isControl
      requires Model.Accepts(cfg, AsTerminal(), c)
      modifies Repr(), parameters
      ensures Ready() && Reading() && Repr() == old(Repr())
      ensures var t := old(AsTerminal());
              Model.Ready(w, t) && Model.Accepts(cfg, t, c) && AsTerminal() == Model.Feed(cfg, t, c)
    {
      hide Steady, Buffer.Valid, Buffer.AsHosted, Model.Ready, Model.Control, Model.PutCharacter, Model.EscapeKey,
        Model.CsiKey, Model.Align;
      ControlKeepsParameters(AsTerminal(), c);
      match parser {
        case Default =>
          if isControl(c) {
            Control(c);
          } else {
            PutCharacter(c);
          }
        case Escape =>
          if isControl(c) {
            Control(c);
          } else {
            EscapeKey(c);
          }
        case EscapeSharp | DesignateG0 =>
          if isControl(c) {
            Control(c);
          } else {
            Finish(c);
          }
        case DeviceControl | DeviceControlEscape | OperatingSystem | OperatingSystemEscape => Skip(c);
        case _ =>
          if isControl(c) {
            Control(c);
          } else {
            CsiKey(cfg, c);
          }
      }
    }

    /** Device and operating system controls are read to their end and dropped. */
    method Skip(c: char)
      requires Ready()
      modifies this
      ensures Ready() && Repr() == old(Repr())
      ensures AsTerminal() == Model.Skip(old(AsTerminal()), c)
        && (parser == Model.CsiDigit ==> old(parser) == Model.CsiDigit)
    {
      hide Steady, Buffer.Valid, Buffer.AsHosted, Model.Ready;
      SkippedIsReady(AsTerminal(), c);
      ghost var r := Model.Skip(AsTerminal(), c);
      match parser {
        case DeviceControl =>
          if c == Model.ESC { parser := Model.DeviceControlEscape; }
        case DeviceControlEscape => parser := if c == '\\' then Model.Default else Model.DeviceControl;
        case OperatingSystem =>
          if c == Model.BEL {
            parser := Model.Default;
          } else if c == Model.ESC {
            parser := Model.OperatingSystemEscape;
          }
        case OperatingSystemEscape => parser := if c == '\\' then Model.Default else Model.OperatingSystem;
        case _ =>
      }
      assert AsTerminal() == r;
    }

    lemma SkippedIsReady(t: Model.Terminal, c: char)
      requires Model.Ready(w, t)
      ensures Model.Ready(w, Model.Skip(t, c))
        && (Model.Skip(t, c).parser == Model.CsiDigit ==> t.parser == Model.CsiDigit)
    {
      SkipIs(t, c);
      hide *;
      ParserIsReady(t, Model.Skip(t, c).parser);
    }

    static lemma SkipIs(t: Model.Terminal, c: char)
      ensures Model.Skip(t, c) == t.(parser := Model.Skip(t, c).parser)
      ensures Model.Skip(t, c).parser == Model.CsiDigit ==> t.parser == Model.CsiDigit
    {
      match t.parser
      case DeviceControl =>
      case DeviceControlEscape =>
      case OperatingSystem =>
      case OperatingSystemEscape =>
      case _ =>
    }

    lemma ParserIsReady(t: Model.Terminal, p: Model.Parser)
      requires Model.Ready(w, t)
      ensures Model.Ready(w, t.(parser := p))
    {
      hide Steady;
    }

    /** The character behind ESC # or ESC (. */
    method Finish(c: char)
      requires Ready()
      modifies Repr()
      ensures Ready() && Repr() == old(Repr()) && Model.Ready(w, old(AsTerminal())) && parser == Model.Default
      ensures var t := old(AsTerminal());
              var r := if t.parser == Model.EscapeSharp && c == '8' then Model.Align(w, t, 0, 0) else t;
              AsTerminal() == r.(parser := Model.Default)
    {
      hide Steady, Buffer.Valid, Buffer.AsHosted, Model.Ready, Model.Align;
      if parser == Model.EscapeSharp && c == '8' {
        Align();
      }
      ParserIsReady(AsTerminal(), Model.Default);
      ghost var r := AsTerminal().(parser := Model.Default);
      parser := Model.Default;
      assert AsTerminal() == r;
    }

    // Resizing.

    /** f_resize: new tab stops at every eighth column, and no margins. */
    method Resize(width: nat, height: nat)
      requires Valid()
      modifies Repr()
      ensures Valid() && AllLed(old(AsTerminal()).hosted.screen)
      ensures fresh(Repr() - old(Repr())) && Reading() == old(Reading())
      ensures AsTerminal() == Runs.ResizeTerminal(old(AsTerminal()), width, height)
    {
      hide Valid, Buffer.Valid, Buffer.AsHosted, Screens.Resize, AllLed, AsTerminal, Runs.ResizeTerminal,
        Runs.TabColumns;
      Screen();
      ghost var t := AsTerminal();
      var m := Runs.TabColumns(buffer.width);
      ResizeBuffer(width, height);
      Screen();
      ghost var t1 := AsTerminal();
      var n := Runs.TabColumns(buffer.width);
      var kept := if m < n then m else n;
      var tabs0 := tabs;
      var stops := seq(n, i requires 0 <= i < n => if i < kept && i < |tabs0| then tabs0[i] else i % 8 == 0);
      assert stops == Runs.Stops(tabs0, kept, n);
      Restart(stops);
      ResizeSteps(t, t1, AsTerminal(), width, height);
    }

    lemma ResizeSteps(t: Model.Terminal, t1: Model.Terminal, t2: Model.Terminal, width: nat, height: nat)
      requires AllLed(t.hosted.screen)
      requires t1 == t.(hosted := t.hosted.(screen := Screens.Resize(t.hosted.screen, width, height)))
      requires var m, n := Runs.TabColumns(t.Width()), Runs.TabColumns(t1.Width());
               t2 == t1.(tabs := Runs.Stops(t.tabs, if m < n then m else n, n), begin := 0, size := t1.Height())
      ensures t2 == Runs.ResizeTerminal(t, width, height)
    {
    }

    method ResizeBuffer(width: nat, height: nat)
      requires Valid()
      modifies Repr()
      ensures Valid() && AllLed(old(AsTerminal()).hosted.screen)
      ensures fresh(Repr() - old(Repr())) && Reading() == old(Reading())
      ensures AsTerminal() == old(AsTerminal()).(hosted := old(AsTerminal()).hosted.(
        screen := Screens.Resize(old(AsTerminal()).hosted.screen, width, height)))
    {
      hide Buffer.Valid, Buffer.AsHosted, Screens.Resize, AllLed;
      buffer.Resize(width, height);
    }

    /** No margins, and other tab stops. */
    method Restart(stops: seq<bool>)
      requires Valid()
      modifies this
      ensures Repr() == old(Repr()) && Reading() == old(Reading())
      ensures Valid() && AsTerminal() == old(AsTerminal()).(tabs := stops, begin := 0, size := buffer.height)
    {
      hide Buffer.Valid, Buffer.AsHosted;
      tabs, begin, size := stops, 0, buffer.height;
    }
  }
}
