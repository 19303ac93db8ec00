/** What erasing and scrolling mean cell by cell and in pairs, independently of how the terminal
    computes them. */
module TerminalEdits {
  import opened Terminal

  // ---------------------------------------------------------------- erasing, in reading order

  predicate NotBefore(x: int, y: int, t: Term) {
    y > t.cursorY || (y == t.cursorY && x >= t.cursorX)
  }

  predicate NotAfter(x: int, y: int, t: Term) {
    y < t.cursorY || (y == t.cursorY && x <= t.cursorX)
  }

  lemma EraseLineExactly(t: Term, mode: int, x: int, y: int)
    requires Legal(t) && 0 <= x < t.width && 0 <= y < t.height
    ensures var r := EraseLine(t, mode);
            && r == WithActive(t, Active(r)) && |Active(r)| == t.height && |Active(r)[y]| == t.width
            && Active(r)[y][x] ==
               if y == t.cursorY && (if mode == 1 then NotAfter(x, y, t) else mode == 2 || NotBefore(x, y, t))
               then Blank else Active(t)[y][x]
  {
  }

  lemma RowsErasedExactly(g: Grid, from: int, to: int, width: nat, x: int, y: int)
    requires 0 <= from <= to <= |g| && IsGrid(g, width, |g|) && 0 <= x < width && 0 <= y < |g|
    ensures var r := EraseRows(g, from, to, width);
            IsGrid(r, width, |g|) && r[y][x] == if from <= y < to then Blank else g[y][x]
  {
    var r := EraseRows(g, from, to, width);
    assert r[y] == if from <= y < to then BlankRow(width) else g[y];
  }

  lemma EraseAbove(t: Term, x: int, y: int)
    requires Legal(t) && 0 <= x < t.width && 0 <= y < t.height
    ensures var r := EraseDisplay(t, 1);
            && r == WithActive(t, Active(r)) && |Active(r)| == t.height && |Active(r)[y]| == t.width
            && Active(r)[y][x] == if NotAfter(x, y, t) then Blank else Active(t)[y][x]
  {
    RowsErasedExactly(Active(t), 0, t.cursorY, t.width, x, y);
    EraseLineExactly(WithActive(t, EraseRows(Active(t), 0, t.cursorY, t.width)), 1, x, y);
  }

  lemma EraseBelow(t: Term, mode: int, x: int, y: int)
    requires Legal(t) && 0 <= x < t.width && 0 <= y < t.height && mode !in {1, 2, 3}
    ensures var r := EraseDisplay(t, mode);
            && r == WithActive(t, Active(r)) && |Active(r)| == t.height && |Active(r)[y]| == t.width
            && Active(r)[y][x] == if NotBefore(x, y, t) then Blank else Active(t)[y][x]
  {
    RowsErasedExactly(Active(t), t.cursorY + 1, t.height, t.width, x, y);
    EraseLineExactly(WithActive(t, EraseRows(Active(t), t.cursorY + 1, t.height, t.width)), 0, x, y);
  }

  /** Erasing the display blanks exactly the cells from the cursor on in reading order, or up to and
      including it, or all; with a wrap pending the cursor is past its row. Only erasing all moves it. */
  lemma EraseDisplayExactly(t: Term, mode: int, x: int, y: int)
    requires Legal(t) && 0 <= x < t.width && 0 <= y < t.height
    ensures var r := EraseDisplay(t, mode);
            && |Active(r)| == t.height && |Active(r)[y]| == t.width
            && Active(r)[y][x] ==
               (if (if mode == 1 then NotAfter(x, y, t) else mode in {2, 3} || NotBefore(x, y, t))
                then Blank else Active(t)[y][x])
            && (mode in {2, 3} ==> r.cursorX == 0 && r.cursorY == 0)
            && (mode !in {2, 3} ==> r.cursorX == t.cursorX && r.cursorY == t.cursorY)
  {
    if mode == 1 {
      EraseAbove(t, x, y);
    } else if mode !in {2, 3} {
      EraseBelow(t, mode, x, y);
    }
  }

  // ---------------------------------------------------------------- scrolling

  lemma DeletedRow(g: Grid, count: int, top: int, bottom: int, width: nat, y: int)
    requires 0 <= top <= bottom < |g| && count > 0 && 0 <= y < |g|
    ensures var n, r := Min(count, bottom + 1 - top), DeleteLines(g, top, count, top, bottom, width);
            && |r| == |g|
            && r[y] == if y < top || y > bottom then g[y]
                       else if y + n <= bottom then g[y + n] else BlankRow(width)
  {
    var n := Min(count, bottom + 1 - top);
    var kept, blank := g[top + n..bottom + 1], BlankGrid(width, n);
    assert |kept| == bottom + 1 - top - n && |blank| == n;
    if top <= y <= bottom {
      if y + n <= bottom {
        assert kept[y - top] == g[y + n];
      } else {
        assert blank[y - top - |kept|] == BlankRow(width);
      }
    }
  }

  lemma InsertedRow(g: Grid, count: int, top: int, bottom: int, width: nat, y: int)
    requires 0 <= top <= bottom < |g| && count > 0 && 0 <= y < |g|
    ensures var n, r := Min(count, bottom + 1 - top), InsertLines(g, top, count, top, bottom, width);
            && |r| == |g|
            && r[y] == if y < top || y > bottom then g[y]
                       else if y - n >= top then g[y - n] else BlankRow(width)
  {
    var n := Min(count, bottom + 1 - top);
    var kept, blank := g[top..bottom + 1 - n], BlankGrid(width, n);
    assert |kept| == bottom + 1 - top - n && |blank| == n;
    if top <= y <= bottom {
      if y - n >= top {
        assert kept[y - n - top] == g[y - n];
      } else {
        assert blank[y - top] == BlankRow(width);
      }
    }
  }

  lemma RowBack(g: Grid, count: int, top: int, bottom: int, width: nat, y: int)
    requires 0 <= top <= bottom < |g| && count > 0 && 0 <= y < |g|
    ensures var n, up := Min(count, bottom + 1 - top), DeleteLines(g, top, count, top, bottom, width);
            && |up| == |g|
            && var r := InsertLines(up, top, count, top, bottom, width);
            && |r| == |g|
            && r[y] == if top <= y < top + n then BlankRow(width) else g[y]
  {
    var n, up := Min(count, bottom + 1 - top), DeleteLines(g, top, count, top, bottom, width);
    DeletedRow(g, count, top, bottom, width, y);
    InsertedRow(up, count, top, bottom, width, y);
    if top + n <= y <= bottom {
      DeletedRow(g, count, top, bottom, width, y - n);
    }
  }

  /** How many rows a scroll by `count` moves. */
  function Moved(t: Term, count: int): int {
    Min(if count <= 0 then 1 else count, t.scrollBottom + 1 - t.scrollTop)
  }

  lemma ScrollBackIs(t: Term, count: int)
    requires Legal(t)
    ensures var amount := if count <= 0 then 1 else count;
            var up := DeleteLines(Active(t), t.scrollTop, amount, t.scrollTop, t.scrollBottom, t.width);
            && |up| == t.height
            && ScrollDown(ScrollUp(t, count), count) ==
               WithActive(t, InsertLines(up, t.scrollTop, amount, t.scrollTop, t.scrollBottom, t.width))
  {
  }

  /** Scrolling up and back down by as much restores every row but those that left at the top, which
      come back blank; nothing outside the region changes at any time. */
  lemma {:induction false} ScrollBack(t: Term, count: int, y: int)
    requires Legal(t) && 0 <= y < t.height
    ensures var r := ScrollDown(ScrollUp(t, count), count);
            && r == WithActive(t, Active(r)) && |Active(r)| == t.height
            && Active(r)[y] == if t.scrollTop <= y < t.scrollTop + Moved(t, count) then BlankRow(t.width)
                               else Active(t)[y]
  {
    ScrollBackIs(t, count);
    RowBack(Active(t), if count <= 0 then 1 else count, t.scrollTop, t.scrollBottom, t.width, y);
  }

  lemma OneRowBack(t: Term)
    requires Legal(t) && t.scrollTop == t.scrollBottom == t.cursorY
    ensures ScrollDown(ScrollUp(t, 1), 1) == t <==> Active(t)[t.cursorY] == BlankRow(t.width)
  {
    var r := ScrollDown(ScrollUp(t, 1), 1);
    ScrollBack(t, 1, t.cursorY);
    if Active(t)[t.cursorY] == BlankRow(t.width) {
      forall y | 0 <= y < t.height ensures Active(r)[y] == Active(t)[y] {
        ScrollBack(t, 1, y);
      }
      assert Active(r) == Active(t);
    }
  }

  /** A line feed and a reverse line feed undo each other exactly where neither scrolls nor stops at the
      bottom of the screen, or in a region of one blank row. */
  lemma {:induction false} IndexThenReverse(t: Term)
    requires Legal(t)
    ensures ReverseIndex(Index(t)) == t <==>
            || (t.cursorY != t.scrollBottom && t.cursorY < t.height - 1 && t.cursorY + 1 != t.scrollTop)
            || (t.scrollTop == t.scrollBottom == t.cursorY && Active(t)[t.cursorY] == BlankRow(t.width))
  {
    if t.cursorY != t.scrollBottom {
      IndexWithinScreen(t);
    } else if t.cursorY != t.scrollTop {
      IndexScrolls(t);
    } else {
      OneRowBack(t);
    }
  }

  lemma IndexWithinScreen(t: Term)
    requires Legal(t) && t.cursorY != t.scrollBottom
    ensures ReverseIndex(Index(t)) == t <==> t.cursorY < t.height - 1 && t.cursorY + 1 != t.scrollTop
  {
    if t.cursorY < t.height - 1 {
      assert Index(t) == t.(cursorY := t.cursorY + 1);
    }
  }

  lemma IndexScrolls(t: Term)
    requires Legal(t) && t.cursorY == t.scrollBottom && t.cursorY != t.scrollTop
    ensures ReverseIndex(Index(t)) != t
  {
    assert Index(t).cursorY == t.cursorY && Index(t).scrollTop == t.scrollTop;
    assert ReverseIndex(Index(t)).cursorY == t.cursorY - 1;
  }

  // ---------------------------------------------------------------- inserting and deleting

  /** Deleting as many cells as were inserted restores the row up to what was pushed off its end. */
  lemma DeleteUndoesInsertedCells(g: Grid, x: int, y: int, count: int)
    requires 0 <= y < |g| && 0 <= x < |g[y]| && count > 0
    ensures var n, r := Min(count, |g[y]| - x), DeleteCells(InsertCells(g, x, y, count), x, y, count);
            r == g[y := g[y][..|g[y]| - n] + BlankRow(n)]
  {
    var n := Min(count, |g[y]| - x);
    var inserted := g[y][..x] + BlankRow(n) + g[y][x..|g[y]| - n];
    assert inserted[..x] == g[y][..x] && inserted[x + n..] == g[y][x..|g[y]| - n];
    assert g[y][..x] + g[y][x..|g[y]| - n] == g[y][..|g[y]| - n];
  }

  /** The same for lines within a region. */
  lemma DeleteUndoesInsertedLines(g: Grid, y: int, count: int, top: int, bottom: int, width: nat)
    requires 0 <= top <= y <= bottom < |g| && count > 0
    ensures var n := Min(count, bottom + 1 - y);
            DeleteLines(InsertLines(g, y, count, top, bottom, width), y, count, top, bottom, width) ==
            g[..bottom + 1 - n] + BlankGrid(width, n) + g[bottom + 1..]
  {
    var n := Min(count, bottom + 1 - y);
    var inserted := g[..y] + BlankGrid(width, n) + g[y..bottom + 1 - n] + g[bottom + 1..];
    assert inserted[..y] == g[..y];
    assert inserted[y + n..bottom + 1] == g[y..bottom + 1 - n];
    assert inserted[bottom + 1..] == g[bottom + 1..];
    assert g[..y] + g[y..bottom + 1 - n] == g[..bottom + 1 - n];
  }
}
