/** The terminal model as the object the program updates in place; every method is tied to the value
    semantics of module Terminal. */
module TerminalModel {
  import opened Terminal

  class Model {
    var width: int
    var height: int
    var primary: Grid
    var alt: Grid
    var useAlt: bool
    var cursorX: int
    var cursorY: int
    var savedX: int
    var savedY: int
    var scrollTop: int
    var scrollBottom: int
    var showCursor: bool

    function Value(): Term
      reads this
    {
      Term(width, height, primary, alt, useAlt, cursorX, cursorY, savedX, savedY, scrollTop, scrollBottom, showCursor)
    }

    constructor (width: int, height: int)
      ensures Value() == New(width, height) && Legal(Value())
    {
      var w, h := Max(1, width), Max(1, height);
      this.width, this.height := w, h;
      primary, alt, useAlt := BlankGrid(w, h), BlankGrid(w, h), false;
      cursorX, cursorY, savedX, savedY := 0, 0, 0, 0;
      scrollTop, scrollBottom := 0, h - 1;
      showCursor := true;
      new;
      assert Value() == New(width, height);
    }

    // -------------------------------------------------------------- screen buffer access

    method SetActive(g: Grid)
      modifies this`primary, this`alt
      ensures Value() == WithActive(old(Value()), g)
    {
      if useAlt {
        alt := g;
      } else {
        primary := g;
      }
    }

    method ClearCell(x: int, y: int)
      requires Legal(Value()) && 0 <= x < width && 0 <= y < height
      modifies this`primary, this`alt
      ensures Value() == WithActive(old(Value()), EraseCells(Active(old(Value())), y, x, x + 1))
      ensures Legal(Value())
    {
      var g := Active(Value());
      SetActive(g[y := g[y][x := Blank]]);
      assert g[y][x := Blank] == g[y][..x] + BlankRow(1) + g[y][x + 1..];
    }

    // -------------------------------------------------------------- cursor

    method SetCursor(x: int, y: int)
      requires Legal(Value())
      modifies this`cursorX, this`cursorY
      ensures Value() == MoveCursor(old(Value()), x, y)
    {
      cursorX := Clamp(x, 0, width - 1);
      cursorY := Clamp(y, 0, height - 1);
    }

    method DoSaveCursor()
      modifies this`savedX, this`savedY
      ensures Legal(old(Value())) ==> Value() == SaveCursor(old(Value()))
    {
      savedX := cursorX;
      savedY := cursorY;
    }

    method DoRestoreCursor()
      requires Legal(Value())
      modifies this`cursorX, this`cursorY
      ensures Value() == RestoreCursor(old(Value()))
    {
      SetCursor(savedX, savedY);
    }

    method DoResize(width: int, height: int)
      requires Legal(Value())
      modifies this
      ensures Value() == ResizeTo(old(Value()), width, height)
    {
      var w, h := Max(1, width), Max(1, height);
      if w == this.width && h == this.height {
        return;
      }
      this.width, this.height := w, h;
      primary, alt := ResizeGrid(primary, w, h), ResizeGrid(alt, w, h);
      cursorX, cursorY := Clamp(cursorX, 0, w - 1), Clamp(cursorY, 0, h - 1);
      savedX, savedY := Clamp(savedX, 0, w - 1), Clamp(savedY, 0, h - 1);
      if scrollTop >= h {
        scrollTop := 0;
      }
      if scrollBottom >= h || scrollBottom < scrollTop {
        scrollBottom := h - 1;
      }
    }

    // -------------------------------------------------------------- scrolling and printing

    method DoScrollUp(count: int)
      requires Legal(Value())
      modifies this`primary, this`alt
      ensures Value() == ScrollUp(old(Value()), count)
    {
      var n := if count <= 0 then 1 else count;
      SetActive(DeleteLines(Active(Value()), scrollTop, n, scrollTop, scrollBottom, width));
    }

    method DoScrollDown(count: int)
      requires Legal(Value())
      modifies this`primary, this`alt
      ensures Value() == ScrollDown(old(Value()), count)
    {
      var n := if count <= 0 then 1 else count;
      SetActive(InsertLines(Active(Value()), scrollTop, n, scrollTop, scrollBottom, width));
    }

    method DoIndex()
      requires Legal(Value())
      modifies this
      ensures Value() == Index(old(Value()))
    {
      if cursorY == scrollBottom {
        DoScrollUp(1);
        return;
      }
      cursorY := Clamp(cursorY + 1, 0, height - 1);
    }

    method DoReverseIndex()
      requires Legal(Value())
      modifies this
      ensures Value() == ReverseIndex(old(Value()))
    {
      if cursorY == scrollTop {
        DoScrollDown(1);
        return;
      }
      cursorY := Clamp(cursorY - 1, 0, height - 1);
    }

    method DoNewLine()
      requires Legal(Value())
      modifies this
      ensures Value() == NewLine(old(Value()))
    {
      cursorX := 0;
      DoIndex();
    }

    method DoPrintRune(rune: char, cellWidth: nat)
      requires Legal(Value())
      modifies this
      ensures Value() == PrintRune(old(Value()), rune, cellWidth)
    {
      if cellWidth <= 0 {
        return;
      }
      if cursorX >= width {
        DoNewLine();
      }
      if cellWidth > width {
        return;
      }
      if cursorX + cellWidth > width {
        DoNewLine();
      }
      SetActive(WriteCell(Active(Value()), cursorX, cursorY, rune, cellWidth));
      cursorX := cursorX + Max(1, cellWidth);
      if cursorX >= width {
        cursorX := width;
      }
    }

    method DoPrintSpace()
      requires Legal(Value()) && cursorX < width
      modifies this
      ensures Value() == PrintRune(old(Value()), ' ', 1) && Legal(Value())
      ensures cursorX == old(cursorX) + 1 && width == old(width)
    {
      SpaceAdvances(Value());
      DoPrintRune(' ', 1);
    }

    method DoTab()
      requires Legal(Value())
      modifies this
      ensures Value() == Control(old(Value()), '\t')
      ensures cursorX == TabStop(old(Value()))
    {
      var next := (cursorX / TAB_WIDTH + 1) * TAB_WIDTH;
      DoSpaces(next);
    }

    method DoSpaces(next: int)
      requires Legal(Value()) && cursorX <= Min(next, width)
      modifies this
      ensures Value() == PrintSpaces(old(Value()), Min(next, old(width)) - old(cursorX))
      ensures cursorX == Min(next, old(width))
    {
      ghost var start := Value();
      ghost var printed := 0;
      while cursorX < Min(next, width)
        invariant printed >= 0 && Value() == PrintSpaces(start, printed)
        invariant width == start.width
        invariant cursorX == start.cursorX + printed <= Min(next, width)
        decreases Min(next, width) - cursorX
      {
        DoPrintSpace();
        printed := printed + 1;
      }
    }

    method DoExecute(control: char)
      requires Legal(Value())
      modifies this
      ensures Value() == Control(old(Value()), control)
    {
      if control == '\U{08}' {
        if cursorX > 0 {
          cursorX := cursorX - 1;
        }
      } else if control == '\t' {
        DoTab();
      } else if control == '\n' || control == '\U{0B}' || control == '\U{0C}' {
        DoNewLine();
      } else if control == '\r' {
        cursorX := 0;
      }
    }

    // -------------------------------------------------------------- alternate screen and modes

    method DoReset()
      requires Legal(Value())
      modifies this
      ensures Value() == New(old(width), old(height))
    {
      primary, alt, useAlt := BlankGrid(width, height), BlankGrid(width, height), false;
      cursorX, cursorY, savedX, savedY := 0, 0, 0, 0;
      scrollTop, scrollBottom := 0, height - 1;
      showCursor := true;
    }

    method DoEsc(final: char)
      requires Legal(Value())
      modifies this
      ensures Value() == Escape(old(Value()), final)
    {
      match final
      case '7' => DoSaveCursor();
      case '8' => DoRestoreCursor();
      case 'D' => DoIndex();
      case 'E' => cursorX := 0; DoIndex();
      case 'M' => DoReverseIndex();
      case 'c' => DoReset();
      case _ =>
    }

    method DoEnterAlt()
      requires Legal(Value())
      modifies this
      ensures Value() == EnterAlt(old(Value()))
    {
      if useAlt {
        return;
      }
      DoSaveCursor();
      useAlt := true;
      alt := BlankGrid(width, height);
      cursorX, cursorY := 0, 0;
      scrollTop, scrollBottom := 0, height - 1;
    }

    method DoLeaveAlt()
      requires Legal(Value())
      modifies this
      ensures Value() == LeaveAlt(old(Value()))
    {
      if !useAlt {
        return;
      }
      useAlt := false;
      DoRestoreCursor();
      scrollTop, scrollBottom := 0, height - 1;
    }

    method DoSetModes(params: Params, on: bool)
      requires Legal(Value())
      modifies this
      ensures Value() == SetModes(old(Value()), params, on)
    {
      var i := 0;
      assert params[..0] == [];
      while i < |params|
        invariant 0 <= i <= |params| && Legal(Value())
        invariant Value() == SetModes(old(Value()), params[..i], on)
      {
        assert params[..i + 1][..i] == params[..i];
        var raw := ParamOrDefault(params, i, 0);
        if raw == 25 {
          showCursor := on;
        } else if raw == 47 || raw == 1047 || raw == 1049 {
          if on {
            DoEnterAlt();
          } else {
            DoLeaveAlt();
          }
        }
        i := i + 1;
      }
      assert params[..i] == params;
    }

    method DoSetScrollRegion(params: Params)
      requires Legal(Value())
      modifies this
      ensures Value() == SetScrollRegion(old(Value()), params)
    {
      var top := ParamOrDefault(params, 0, 1) - 1;
      var bottom := ParamOrDefault(params, 1, height) - 1;
      if top < 0 || bottom < top || bottom >= height {
        scrollTop, scrollBottom := 0, height - 1;
        return;
      }
      scrollTop, scrollBottom := top, bottom;
      SetCursor(0, 0);
    }

    // -------------------------------------------------------------- erasing

    /** The erase loop all three commands run on one row: columns `from` up to `to`. */
    method ClearColumns(y: int, from: int, to: int)
      requires Legal(Value()) && 0 <= y < height && 0 <= from <= to <= width
      modifies this`primary, this`alt
      ensures Value() == WithActive(old(Value()), EraseCells(Active(old(Value())), y, from, to))
      ensures Legal(Value())
    {
      ghost var start := Value();
      ghost var g := Active(start);
      var x := from;
      EraseNone(g, y, from);
      assert WithActive(start, g) == start;
      while x < to
        invariant from <= x <= to && Legal(Value())
        invariant Value() == WithActive(start, EraseCells(g, y, from, x))
      {
        EraseOneMore(g, y, from, x);
        ClearCell(x, y);
        x := x + 1;
      }
    }

    method DoEraseCharacters(count: int)
      requires Legal(Value())
      modifies this`primary, this`alt
      ensures Value() == EraseCharacters(old(Value()), count)
    {
      var n := if count <= 0 then 1 else count;
      ClearColumns(cursorY, cursorX, Min(width, cursorX + n));
    }

    method DoEraseLine(mode: int)
      requires Legal(Value())
      modifies this`primary, this`alt
      ensures Value() == EraseLine(old(Value()), mode)
    {
      if mode == 1 {
        ClearColumns(cursorY, 0, Min(cursorX + 1, width));
      } else if mode == 2 {
        ClearColumns(cursorY, 0, width);
      } else {
        ClearColumns(cursorY, cursorX, width);
      }
    }

    method ClearRow(y: int)
      requires Legal(Value()) && 0 <= y < height
      modifies this`primary, this`alt
      ensures Value() == WithActive(old(Value()), Active(Value())) && Legal(Value())
      ensures Active(Value()) == Active(old(Value()))[y := BlankRow(width)]
    {
      ghost var row := Active(Value())[y];
      assert row[..0] + BlankRow(width) + row[width..] == BlankRow(width);
      ClearColumns(y, 0, width);
    }

    method ClearRows(from: int, to: int)
      requires Legal(Value()) && 0 <= from <= to <= height
      modifies this`primary, this`alt
      ensures Value() == WithActive(old(Value()), EraseRows(Active(old(Value())), from, to, width))
      ensures Legal(Value())
    {
      ghost var start := Value();
      EraseNoRows(start, from);
      var y := from;
      while y < to
        invariant from <= y <= to && Legal(Value())
        invariant Value() == RowsErased(start, from, y)
      {
        ClearRow(y);
        EraseRowMore(start, from, y, Value());
        y := y + 1;
      }
    }

    method DoEraseDisplay(mode: int)
      requires Legal(Value())
      modifies this
      ensures Value() == EraseDisplay(old(Value()), mode)
    {
      if mode == 1 {
        ClearRows(0, cursorY);
        DoEraseLine(1);
      } else if mode == 2 || mode == 3 {
        SetActive(BlankGrid(width, height));
        SetCursor(0, 0);
      } else {
        ClearRows(cursorY + 1, height);
        DoEraseLine(0);
      }
    }

    // -------------------------------------------------------------- control sequences

    method DoMotion(final: char, params: Params)
      requires Legal(Value()) && IsMotion(final)
      modifies this`cursorX, this`cursorY
      ensures Value() == Motion(old(Value()), final, params)
    {
      var n := ParamOrDefault(params, 0, 1);
      match final
      case 'A' => cursorY := Clamp(cursorY - n, 0, height - 1);
      case 'B' => cursorY := Clamp(cursorY + n, 0, height - 1);
      case 'C' => cursorX := Clamp(cursorX + n, 0, width - 1);
      case 'D' => cursorX := Clamp(cursorX - n, 0, width - 1);
      case 'E' => cursorY := Clamp(cursorY + n, 0, height - 1); cursorX := 0;
      case 'F' => cursorY := Clamp(cursorY - n, 0, height - 1); cursorX := 0;
      case 'G' => cursorX := Clamp(n - 1, 0, width - 1);
      case _ => SetCursor(ParamOrDefault(params, 1, 1) - 1, n - 1);
    }

    method DoCsi(prefix: char, final: char, params: Params)
      requires Legal(Value())
      modifies this
      ensures Value() == ControlSequence(old(Value()), prefix, final, params)
    {
      if IsMotion(final) {
        DoMotion(final, params);
        return;
      }
      if IsEdit(final) {
        SetActive(Active(Edit(Value(), final, ParamOrDefault(params, 0, 1))));
        return;
      }
      match final
      case 'J' => DoEraseDisplay(ParamOrDefault(params, 0, 0));
      case 'K' => DoEraseLine(ParamOrDefault(params, 0, 0));
      case 'X' => DoEraseCharacters(ParamOrDefault(params, 0, 1));
      case 'S' => DoScrollUp(ParamOrDefault(params, 0, 1));
      case 'T' => DoScrollDown(ParamOrDefault(params, 0, 1));
      case 's' => DoSaveCursor();
      case 'u' => DoRestoreCursor();
      case 'r' => DoSetScrollRegion(params);
      case 'h' => if prefix == '?' { DoSetModes(params, true); }
      case 'l' => if prefix == '?' { DoSetModes(params, false); }
      case _ =>
    }

    /** One decoded operation does to the object what `Step` does to the value, and keeps it legal. */
    method Dispatch(op: Op)
      requires Legal(Value())
      modifies this
      ensures Value() == Step(old(Value()), op) && Legal(Value())
    {
      match op
      case Print(rune, cellWidth) => DoPrintRune(rune, cellWidth);
      case Execute(control) => DoExecute(control);
      case Esc(final) => DoEsc(final);
      case Csi(prefix, final, params) => DoCsi(prefix, final, params);
      case Resize(w, h) => DoResize(w, h);
    }
  }

  // ---------------------------------------------------------------- the loops, one turn at a time

  lemma SpaceAdvances(t: Term)
    requires Legal(t) && t.cursorX < t.width
    ensures var r := PrintRune(t, ' ', 1); r.cursorX == t.cursorX + 1 && r.width == t.width
  {
  }

  lemma EraseNone(g: Grid, y: int, from: int)
    requires 0 <= y < |g| && 0 <= from <= |g[y]|
    ensures EraseCells(g, y, from, from) == g
  {
    assert g[y][..from] + BlankRow(0) + g[y][from..] == g[y];
  }

  lemma EraseOneMore(g: Grid, y: int, from: int, x: int)
    requires 0 <= y < |g| && 0 <= from <= x < |g[y]|
    ensures |EraseCells(g, y, from, x)| == |g| && |EraseCells(g, y, from, x)[y]| == |g[y]|
    ensures EraseCells(EraseCells(g, y, from, x), y, x, x + 1) == EraseCells(g, y, from, x + 1)
  {
    var row := EraseCells(g, y, from, x)[y];
    assert row[..x] + BlankRow(1) + row[x + 1..] == g[y][..from] + BlankRow(x + 1 - from) + g[y][x + 1..];
  }

  function RowsErased(t: Term, from: int, to: int): Term
    requires 0 <= from <= to <= |Active(t)|
  {
    WithActive(t, EraseRows(Active(t), from, to, if t.width < 0 then 0 else t.width))
  }

  lemma EraseNoRows(t: Term, from: int)
    requires Legal(t) && 0 <= from <= t.height
    ensures RowsErased(t, from, from) == t
  {
    assert EraseRows(Active(t), from, from, t.width) == Active(t);
  }

  /** Blanking one more row. */
  lemma EraseRowMore(t: Term, from: int, y: int, after: Term)
    requires Legal(t) && 0 <= from <= y < t.height
    requires var before := RowsErased(t, from, y);
             |Active(before)| == t.height && before.useAlt == t.useAlt && before.width == t.width
             && after == WithActive(before, Active(before)[y := BlankRow(t.width)])
    ensures after == RowsErased(t, from, y + 1)
  {
    assert EraseRows(Active(t), from, y, t.width)[y := BlankRow(t.width)] == EraseRows(Active(t), from, y + 1, t.width);
  }
}
