/**
 The terminal window (vt/window.cc): the framebuffer as GL holds it, from the bottom row up and with
 the margins of the frame around it, and the methods that scroll, invalidate and redraw it.
 */
module Windows {
  import opened Wrappers
  import opened Rows
  import opened Damage
  import opened Screens
  import opened Drawing

  /** glBlitFramebuffer over the whole width: rows s0 to s1 of one buffer to rows d0 to d1 of another. */
  function Blit(from: seq<Strip>, to: seq<Strip>, s0: int, s1: int, d0: int, d1: int): (r: seq<Strip>)
    requires 0 <= s0 <= s1 <= |from| && 0 <= d0 <= d1 <= |to| && s1 - s0 == d1 - d0
    ensures |r| == |to|
    ensures forall i {:trigger r[i]} :: 0 <= i < |r| ==> r[i] == if d0 <= i < d1 then from[i - d0 + s0] else to[i]
  {
    seq(|to|, i requires 0 <= i < |to| => if d0 <= i < d1 then from[i - d0 + s0] else to[i])
  }

  /** The lines of the content, from the top. */
  function FromTop(buffer: seq<Strip>, height: nat, margin: nat): (r: seq<Strip>)
    requires height + margin <= |buffer|
    ensures |r| == height && forall p :: 0 <= p < height ==> r[p] == buffer[height - 1 - p + margin]
  {
    seq(height, p requires 0 <= p < height => buffer[height - 1 - p + margin])
  }

  /** Copying lines to the other buffer and back copies them within the first. */
  lemma BlitTwice(back: seq<Strip>, front: seq<Strip>, s0: int, s1: int, d0: int, d1: int)
    requires 0 <= s0 <= s1 <= |back| == |front| && 0 <= d0 <= d1 <= |back| && s1 - s0 == d1 - d0
    ensures Blit(Blit(back, front, s0, s1, d0, d1), back, d0, d1, d0, d1) == Blit(back, back, s0, s1, d0, d1)
  {
    var f := Blit(back, front, s0, s1, d0, d1);
    forall i | 0 <= i < |back| ensures Blit(f, back, d0, d1, d0, d1)[i] == Blit(back, back, s0, s1, d0, d1)[i] {
      assert d0 <= i < d1 ==> Blit(f, back, d0, d1, d0, d1)[i] == f[i];
    }
  }

  lemma TopIs(buffer: seq<Strip>, height: nat, margin: nat, p: nat)
    requires height + margin <= |buffer| && p < height
    ensures FromTop(buffer, height, margin)[p] == buffer[height - 1 - p + margin]
  {
  }

  lemma MovedLineIs(lines: seq<Strip>, y: nat, n: nat, dy: int, p: nat)
    requires y + n <= |lines| && p < |lines|
    ensures MovedLines(lines, y, n, dy)[p]
         == if y <= p < y + n && y <= p - dy < y + n then lines[p - dy] else lines[p]
  {
  }

  lemma BlitIs(b: seq<Strip>, s0: int, s1: int, d0: int, d1: int, i: nat)
    requires 0 <= s0 <= s1 <= |b| && 0 <= d0 <= d1 <= |b| && s1 - s0 == d1 - d0 && i < |b|
    ensures Blit(b, b, s0, s1, d0, d1)[i] == if d0 <= i < d1 then b[i - d0 + s0] else b[i]
  {
  }

  /** Where the lines y to y + n of the content lie in a buffer, as far as they move by dy within it. */
  ghost predicate Framed(
    size: nat, height: nat, margin: nat, y: nat, n: nat, dy: int, s0: int, s1: int, d0: int, d1: int)
  {
    && height + margin <= size && y + n <= height && dy < n && n + dy > 0
    && d0 == height - y - n + margin - (if dy < 0 then dy else 0)
    && d1 == height - y + margin - (if dy < 0 then 0 else dy)
    && s0 == d0 + dy && s1 == d1 + dy
  }

  lemma BlitMovesAt(
    b: seq<Strip>, height: nat, margin: nat, y: nat, n: nat, dy: int, s0: int, s1: int, d0: int, d1: int, p: nat)
    requires Framed(|b|, height, margin, y, n, dy, s0, s1, d0, d1) && p < height
    ensures 0 <= s0 <= s1 <= |b| && 0 <= d0 <= d1 <= |b|
    ensures FromTop(Blit(b, b, s0, s1, d0, d1), height, margin)[p]
         == MovedLines(FromTop(b, height, margin), y, n, dy)[p]
  {
    TopIs(Blit(b, b, s0, s1, d0, d1), height, margin, p);
    TopIs(b, height, margin, p);
    MovedLineIs(FromTop(b, height, margin), y, n, dy, p);
    BlitIs(b, s0, s1, d0, d1, height - 1 - p + margin);
    if y <= p < y + n && y <= p - dy < y + n {
      TopIs(b, height, margin, p - dy);
    }
  }

  /** Rows of a GL buffer are lines from the bottom: copying rows moves lines. */
  lemma BlitMoves(
    b: seq<Strip>, height: nat, margin: nat, y: nat, n: nat, dy: int, s0: int, s1: int, d0: int, d1: int)
    requires Framed(|b|, height, margin, y, n, dy, s0, s1, d0, d1)
    ensures 0 <= s0 <= s1 <= |b| && 0 <= d0 <= d1 <= |b|
    ensures FromTop(Blit(b, b, s0, s1, d0, d1), height, margin) == MovedLines(FromTop(b, height, margin), y, n, dy)
  {
    forall p | 0 <= p < height
      ensures FromTop(Blit(b, b, s0, s1, d0, d1), height, margin)[p]
           == MovedLines(FromTop(b, height, margin), y, n, dy)[p]
    {
      BlitMovesAt(b, height, margin, y, n, dy, s0, s1, d0, d1, p);
    }
  }

  class Window {
    const unit: nat
    const bottomMargin: nat
    var height: nat
    var position: int
    var valid: set<int>
    var back: seq<Strip>
    var front: seq<Strip>

    ghost predicate Valid()
      reads this
    {
      unit > 0 && height + bottomMargin <= |back| == |front| && forall p :: p in valid ==> 0 <= p < height
    }

    /** The lines of the content, from the top. */
    ghost function Lines(): (r: seq<Strip>)
      requires Valid()
      reads this
      ensures |r| == height
    {
      FromTop(back, height, bottomMargin)
    }

    ghost function AsView(): (v: View)
      requires Valid()
      reads this
      ensures Proper(v)
    {
      View(height, unit, position, valid, Lines())
    }

    /** A window just mapped: nothing in its buffers can be relied on. */
    constructor (unit: nat, bottomMargin: nat, height: nat, contents: seq<Strip>)
      requires unit > 0 && height + bottomMargin <= |contents|
      ensures Valid() && valid == {} && position == 0 && this.unit == unit && this.height == height
    {
      this.unit, this.bottomMargin, this.height := unit, bottomMargin, height;
      position, valid, back, front := 0, {}, contents, contents;
    }

    /** v_on_map: new buffers of another size. */
    method Map(height: nat, contents: seq<Strip>)
      requires Valid() && height + bottomMargin <= |contents|
      modifies this
      ensures Valid() && AsView() == old(AsView()).(
        height := height, valid := {}, lines := FromTop(contents, height, bottomMargin))
    {
      this.height, valid, back, front := height, {}, contents, contents;
    }

    /** f__invalidate. */
    method InvalidateLines(y: nat, n: nat)
      requires Valid()
      modifies this`valid
      ensures Valid() && AsView() == Damage.InvalidateLines(old(AsView()), y, n)
    {
      valid := Outside(valid, y, n);
      assert Lines() == old(Lines());
    }

    /** f__scroll. */
    method ScrollLines(y: nat, n: nat, dy: int)
      requires Valid() && y + n <= height
      modifies this
      ensures Valid() && height == old(height) && AsView() == Damage.ScrollLines(old(AsView()), y, n, dy)
    {
      ScrollLinesProper(AsView(), y, n, dy);
      var region := Inside(valid, y, n);
      region := Inside(Shifted(region, dy), y, n);
      valid := Outside(valid, y, n) + region;
      if region == {} {
        assert Lines() == old(Lines());
        return;
      }
      RegionIsNear(old(valid), y, n, dy);
      Copy(y, n, dy);
    }

    lemma RegionIsNear(valid: set<int>, y: nat, n: nat, dy: int)
      requires Inside(Shifted(Inside(valid, y, n), dy), y, n) != {}
      ensures dy < n && n + dy > 0
    {
    }

    /** The two copies of f__scroll, by way of the other buffer. */
    method Copy(y: nat, n: nat, dy: int)
      requires Valid() && y + n <= height && dy < n && n + dy > 0
      modifies this`back, this`front
      ensures Valid() && Lines() == MovedLines(old(Lines()), y, n, dy)
    {
      var s1 := height - y + bottomMargin;
      var s0 := s1 - n;
      var d0, d1 := s0, s1;
      if dy < 0 {
        s1 := s1 + dy;
        d0 := d0 - dy;
      } else {
        s0 := s0 + dy;
        d1 := d1 - dy;
      }
      hide Blit, FromTop, MovedLines;
      BlitMoves(back, height, bottomMargin, y, n, dy, s0, s1, d0, d1);
      BlitTwice(back, front, s0, s1, d0, d1);
      front := Blit(back, front, s0, s1, d0, d1);
      back := Blit(front, back, d0, d1, d0, d1);
    }

    method Invalidate(log: nat, y: int, n: nat)
      requires Valid()
      modifies this`valid
      ensures Valid() && AsView() == Damage.Invalidate(old(AsView()), log, y, n)
    {
      if n == 0 { return; }
      var top := (y + log) * unit - position;
      var bottom := top + n * unit;
      ghost var v := AsView();
      assert bottom == Top(v, log, y + n) by { assert (y + n + log) * unit == (y + log) * unit + n * unit; }
      if bottom < 0 || top >= height { return; }
      ClipFits(v, log, y, n);
      if top < 0 { top := 0; }
      if bottom > height { bottom := height; }
      InvalidateLines(top, bottom - top);
    }

    method Scroll(log: nat, y: int, n: nat, dy: int)
      requires Valid()
      modifies this
      ensures Valid() && height == old(height) && AsView() == Damage.Scroll(old(AsView()), log, y, n, dy)
    {
      hide Damage.ScrollLines, Proper;
      var top := (y + log) * unit - position;
      var bottom := top + n * unit;
      ghost var v := AsView();
      assert bottom == Top(v, log, y + n) by { assert (y + n + log) * unit == (y + log) * unit + n * unit; }
      if bottom < 0 || top >= height { return; }
      ClipFits(v, log, y, n);
      if top < 0 { top := 0; }
      if bottom > height { bottom := height; }
      ScrollLines(top, bottom - top, dy * unit);
    }

    method Logged()
      requires Valid()
      modifies this`position
      ensures Valid() && AsView() == Damage.Logged(old(AsView()))
    {
      position := position + unit;
      assert Lines() == old(Lines());
    }

    /** f_position__. */
    method MoveTo(log: nat, to: int)
      requires Valid()
      modifies this
      ensures Valid() && AsView() == Damage.MoveTo(old(AsView()), log, to)
    {
      hide Damage.ScrollLines, Proper, FromTop;
      var content := log * unit + height;
      var p := to;
      if p < 0 {
        p := 0;
      } else if p > content - height {
        p := content - height;
      }
      if p == position { return; }
      ghost var v := AsView();
      ScrollLines(0, height, position - p);
      ScrollLinesFields(v, 0, height, position - p);
      position := p;
      assert Lines() == AsView().lines;
    }

    // Drawing.

    /** Draw the lines of a rectangle; what is outside the window is clipped. */
    method PaintRect(y: int, n: nat, row: Option<Drawn>)
      requires Valid()
      modifies this`back
      ensures Valid() && Lines() == Paint(old(Lines()), y, n, row)
    {
      var was, h, m := back, height, bottomMargin;
      back := seq(|was|, g requires 0 <= g < |was| =>
        var p := h - 1 - g + m;
        if 0 <= p < h && y <= p < y + n then (if row.Some? then Part(row.value, p - y) else Background) else was[g]);
      assert |back| == |was|;
    }

    method PaintCursorRect(y: int, n: nat, cursor: Cursor)
      requires Valid()
      modifies this`back
      ensures Valid() && Lines() == PaintCursor(old(Lines()), y, n, cursor)
    {
      var was, h, m := back, height, bottomMargin;
      back := seq(|was|, g requires 0 <= g < |was| =>
        var p := h - 1 - g + m;
        if 0 <= p < h && y <= p < y + n then Overlay(was[g], cursor) else was[g]);
      assert |back| == |was|;
    }

    /** f_draw_row of a whole row: nothing to do if its lines are all valid. */
    method DrawRow(y: int, row: Line)
      requires Valid()
      modifies this`back
      ensures Valid()
      ensures Lines() == if Contains(valid, y, unit) then old(Lines())
                         else Paint(old(Lines()), y, unit, Some(DrawnLine(row)))
    {
      if Contains(valid, y, unit) { return; }
      PaintRect(y, unit, Some(DrawnLine(row)));
    }

    /** The bounds of what is not valid. */
    method Bounds() returns (top: nat, bottom: nat)
      requires Valid() && !Contains(valid, 0, height)
      ensures top < bottom <= height && top !in valid && InvalidWithin(AsView(), top, bottom)
    {
      top, bottom := 0, height;
      while top in valid
        invariant top <= height && forall p :: 0 <= p < top ==> p in valid
        decreases height - top
      {
        top := top + 1;
      }
      assert top < height;
      while bottom - 1 in valid
        invariant top < bottom <= height && forall p :: bottom <= p < height ==> p in valid
        decreases bottom
      {
        bottom := bottom - 1;
      }
    }

    /** Draw the rows that reach into the bounds: those of the log, then those of the screen. */
    method DrawRows(s: Screen, top: nat, bottom: nat) returns (ghost start: int, ghost done: int)
      requires Valid() && top < bottom <= height && position >= 0
      modifies this`back
      ensures Valid()
      ensures RowTop(old(AsView()), start) <= top < RowTop(old(AsView()), start + 1)
      ensures RowsDrawn(old(AsView()), Lines(), s.Content(), start, done)
      ensures StopsAt(old(AsView()), |s.Content()|, bottom, start, done)
    {
      hide RowsDrawn, Paint, FromTop, RowValid, Contains;
      ghost var v := AsView();
      var i := (top + position) / unit;
      var y := i * unit - position;
      start, done := i, i;
      StartIs(v, top, i);
      NothingDrawn(v, s.Content(), i);
      while i < |s.log|
        invariant Valid() && 0 <= start <= i == done && y == RowTop(v, i) && (start < i ==> y < bottom)
        invariant RowsDrawn(v, Lines(), s.Content(), start, done)
        decreases |s.log| - i
      {
        assert s.Content()[i] == s.log[i];
        y := DrawNext(v, s.Content(), start, i, y, s.log[i]);
        done := i + 1;
        if y >= bottom { break; }
        i := i + 1;
      }
      if y < bottom {
        var rows := s.Rows();
        i := i - |s.log|;
        while i < |rows|
          invariant Valid() && 0 <= start <= |s.log| + i == done && y == RowTop(v, done)
            && (start < done ==> y < bottom) && 0 <= i
          invariant RowsDrawn(v, Lines(), s.Content(), start, done)
          decreases |rows| - i
        {
          assert s.Content()[|s.log| + i] == rows[i];
          y := DrawNext(v, s.Content(), start, |s.log| + i, y, rows[i]);
          done := |s.log| + i + 1;
          if y >= bottom { break; }
          i := i + 1;
        }
      }
    }

    method DrawNext(ghost v: View, ghost content: seq<Line>, ghost start: int, ghost i: nat, y: int, row: Line)
        returns (next: int)
      requires Valid() && v.unit == unit && v.valid == valid && y == RowTop(v, i)
      requires RowsDrawn(v, Lines(), content, start, i) && start <= i < |content| && content[i] == row
      modifies this`back
      ensures Valid() && RowsDrawn(v, Lines(), content, start, i + 1) && next == RowTop(v, i + 1)
    {
      hide RowsDrawn, Paint, FromTop, Contains;
      DrawOneRow(v, Lines(), content, start, i);
      LineOfRow(v, i, 0);
      DrawRow(y, row);
      next := y + unit;
    }

    lemma StartIs(v: View, top: nat, i: int)
      requires v.unit > 0 && v.position >= 0 && i == (top + v.position) / v.unit
      ensures 0 <= i && RowTop(v, i) <= top < RowTop(v, i + 1)
    {
      RowIsNatural(v, top);
      LineOfRow(v, i, top);
    }

    lemma NothingDrawn(v: View, content: seq<Line>, i: int)
      requires Proper(v)
      ensures RowsDrawn(v, v.lines, content, i, i)
    {
    }

    /** f_draw_content. */
    method DrawContent(s: Screen, focused: bool)
      requires Valid() && position >= 0 && s.y < |s.Rows()| && !Contains(valid, 0, height)
      requires Shows(AsView(), CursorPicture(s, focused))
      modifies this`back
      ensures Valid() && AsView().(lines := old(Lines())) == old(AsView())
      ensures forall p :: 0 <= p < height ==> Lines()[p] == StripAt(CursorPicture(s, focused), unit, p + position)
    {
      hide RowsDrawn, Paint, FromTop, Contains, Shows, Picture, StopsAt, PaintCursor;
      ghost var v := AsView();
      var top, bottom := Bounds();
      ghost var start, done := DrawRows(s, top, bottom);
      ghost var drawn := Lines();
      FinishedShowsAll(v, drawn, s, top, bottom, start, done, focused);
      DrawRest(v, s, top, bottom, focused);
    }

    /** The background below the content, and the cursor. */
    method DrawRest(ghost v: View, s: Screen, top: nat, bottom: nat, focused: bool)
      requires Valid() && v.unit == unit && v.position == position && v.valid == valid && v.height == height
        && bottom <= height
      modifies this`back
      ensures Valid() && Lines() == Finished(v, old(Lines()), s, top, bottom, focused)
    {
      hide Paint, FromTop, Contains, PaintCursor;
      var y := (|s.log| + |s.Rows()|) * unit - position;
      if y < bottom && !Contains(valid, y, height - y) {
        PaintRect(y, height - y, None);
      }
      y := (|s.log| + s.y) * unit - position;
      if y + unit > top && y < bottom && !Contains(valid, y, unit) {
        PaintCursorRect(y, unit, CursorAt(s.x, focused));
      }
    }

    /** v_on_frame: redraw if anything is not valid; then everything is. */
    method Frame(s: Screen, focused: bool)
      requires Valid() && position >= 0 && s.y < |s.Rows()|
      requires Shows(AsView(), CursorPicture(s, focused))
      modifies this
      ensures Valid() && position == old(position) && height == old(height)
      ensures AsView() == Redrawn(old(AsView()), CursorPicture(s, focused))
    {
      if !Contains(valid, 0, height) {
        DrawContent(s, focused);
        valid := AllLines(height);
      }
      front := Blit(back, front, 0, |back|, 0, |back|);
    }
  }
}
