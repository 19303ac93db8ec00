/** Text layout and the alternate screen. */
module TerminalTheorems {
  import opened Terminal

  // ---------------------------------------------------------------- row-major layout

  /** Printing text of width-1 runes on a fresh screen. */
  function PrintAll(width: int, height: int, text: string): (r: Term)
    ensures Legal(r) && r.width == Max(1, width) && r.height == Max(1, height)
    ensures !r.useAlt && r.scrollTop == 0 && r.scrollBottom == r.height - 1
  {
    if text == "" then New(width, height)
    else PrintRune(PrintAll(width, height, text[..|text| - 1]), text[|text| - 1], 1)
  }

  /** The position in the text of column `x` of text row `row`: `row * width + x`, by `AtIsProduct`. */
  function At(width: nat, row: nat, x: nat): nat {
    if row == 0 then x else width + At(width, row - 1, x)
  }

  lemma {:induction false} AtIsProduct(width: nat, row: nat, x: nat)
    ensures At(width, row, x) == row * width + x
  {
    if row > 0 {
      AtIsProduct(width, row - 1, x);
      assert row * width == (row - 1) * width + width;
    }
  }

  lemma {:induction false} AtShift(width: nat, row: nat, x: nat)
    ensures At(width, row, x) == At(width, row, 0) + x
  {
    if row > 0 {
      AtShift(width, row - 1, x);
    }
  }

  lemma {:induction false} AtGrows(width: nat, row: nat, x: nat, row': nat, x': nat)
    requires x < width && row < row'
    ensures At(width, row, x) < At(width, row', 0) <= At(width, row', x')
    decreases row'
  {
    AtShift(width, row, x);
    AtShift(width, row', x');
    if row < row' - 1 {
      AtGrows(width, row, x, row' - 1, 0);
    }
  }

  lemma AtIsUnique(width: nat, row: nat, x: nat, row': nat, x': nat)
    requires x < width && x' < width && At(width, row, x) == At(width, row', x')
    ensures row == row' && x == x'
  {
    if row < row' {
      AtGrows(width, row, x, row', x');
    } else if row' < row {
      AtGrows(width, row', x', row, x);
    }
    AtShift(width, row, x);
    AtShift(width, row', x');
  }

  lemma AtNextRow(width: nat, row: nat)
    ensures At(width, row, width) == At(width, row + 1, 0)
  {
    AtShift(width, row, width);
  }

  function TextCell(text: string, i: nat): Cell {
    if i < |text| then Glyph(text[i], 1) else Blank
  }

  /** The screen shows the text in reading order, from text row `k` on. */
  ghost predicate Shows(g: Grid, text: string, width: nat, height: nat, k: nat) {
    && IsGrid(g, width, height)
    && forall x, y :: 0 <= y < height && 0 <= x < width ==> g[y][x] == TextCell(text, At(width, y + k, x))
  }

  /** `lines` rows have been started; the last holds `cursorX` runes. */
  ghost predicate LaidOut(t: Term, text: string, lines: nat) {
    && lines >= 1 && 0 <= t.cursorX <= t.width && t.width >= 1 && t.height >= 1
    && |text| == At(t.width, lines - 1, t.cursorX)
    && (t.cursorX == 0 ==> lines == 1)
    && t.cursorY == Min(lines, t.height) - 1
    && Shows(t.primary, text, t.width, t.height, Max(0, lines - t.height))
  }

  lemma PlaceShows(g: Grid, text: string, width: nat, height: nat, k: nat, x: nat, y: nat, rune: char)
    requires Shows(g, text, width, height, k) && x < width && y < height
    requires |text| == At(width, y + k, x)
    ensures Shows(WriteCell(g, x, y, rune, 1), text + [rune], width, height, k)
  {
    var g' := WriteCell(g, x, y, rune, 1);
    forall i, j | 0 <= j < height && 0 <= i < width
      ensures g'[j][i] == TextCell(text + [rune], At(width, j + k, i))
    {
      if At(width, j + k, i) == |text| {
        AtIsUnique(width, j + k, i, y + k, x);
      }
    }
  }

  lemma PlaceLaysOut(t: Term, text: string, rune: char, lines: nat)
    requires LaidOut(t, text, lines) && Legal(t) && !t.useAlt && t.cursorX < t.width
    ensures LaidOut(PlaceGlyph(t, rune, 1), text + [rune], lines)
  {
    PlaceShows(t.primary, text, t.width, t.height, Max(0, lines - t.height), t.cursorX, t.cursorY, rune);
    AtShift(t.width, lines - 1, t.cursorX);
    AtShift(t.width, lines - 1, t.cursorX + 1);
  }

  lemma ScrollShows(g: Grid, text: string, width: nat, height: nat, k: nat)
    requires Shows(g, text, width, height, k) && height >= 1
    requires |text| == At(width, k + height, 0)
    ensures Shows(DeleteLines(g, 0, 1, 0, height - 1, width), text, width, height, k + 1)
  {
    var g' := DeleteLines(g, 0, 1, 0, height - 1, width);
    forall x, y | 0 <= y < height && 0 <= x < width
      ensures g'[y][x] == TextCell(text, At(width, y + k + 1, x))
    {
      if y == height - 1 {
        AtShift(width, k + height, x);
      } else {
        assert g'[y] == g[y + 1];
      }
    }
  }

  /** A deferred wrap starts a row: the cursor moves down, or a full screen scrolls up by one. */
  lemma WrapShows(t: Term, text: string, lines: nat)
    requires LaidOut(t, text, lines) && Legal(t) && !t.useAlt && t.cursorX == t.width
    requires t.scrollTop == 0 && t.scrollBottom == t.height - 1
    ensures var r := NewLine(t);
            && |text| == At(t.width, lines, 0)
            && r.cursorX == 0 && r.cursorY == Min(lines + 1, t.height) - 1 && !r.useAlt
            && Shows(r.primary, text, t.width, t.height, Max(0, lines + 1 - t.height))
  {
    AtNextRow(t.width, lines - 1);
    if lines >= t.height {
      ScrollShows(t.primary, text, t.width, t.height, lines - t.height);
    }
  }

  lemma WrapThenPlace(t: Term, text: string, rune: char, lines: nat)
    requires LaidOut(t, text, lines) && Legal(t) && !t.useAlt && t.cursorX == t.width
    requires t.scrollTop == 0 && t.scrollBottom == t.height - 1
    ensures LaidOut(PlaceGlyph(NewLine(t), rune, 1), text + [rune], lines + 1)
  {
    var s := NewLine(t);
    WrapShows(t, text, lines);
    PlaceShows(s.primary, text, t.width, t.height, Max(0, lines + 1 - t.height), 0, s.cursorY, rune);
    AtShift(t.width, lines, 1);
  }

  lemma PrintLaysOut(t: Term, text: string, rune: char, lines: nat) returns (more: nat)
    requires LaidOut(t, text, lines) && Legal(t) && !t.useAlt
    requires t.scrollTop == 0 && t.scrollBottom == t.height - 1
    ensures LaidOut(PrintRune(t, rune, 1), text + [rune], more)
  {
    more := lines;
    if t.cursorX < t.width {
      PlaceLaysOut(t, text, rune, lines);
      assert PrintRune(t, rune, 1) == PlaceGlyph(t, rune, 1);
    } else {
      WrapThenPlace(t, text, rune, lines);
      assert PrintRune(t, rune, 1) == PlaceGlyph(NewLine(t), rune, 1);
      more := lines + 1;
    }
  }

  lemma {:induction false} PrintAllLaysOut(width: int, height: int, text: string) returns (lines: nat)
    ensures LaidOut(PrintAll(width, height, text), text, lines)
    decreases |text|
  {
    if text == "" {
      lines := 1;
    } else {
      var init := text[..|text| - 1];
      var t := PrintAll(width, height, init);
      lines := PrintAllLaysOut(width, height, init);
      assert text == init + [text[|text| - 1]];
      lines := PrintLaysOut(t, init, text[|text| - 1], lines);
    }
  }

  /** How many rows of `width` the text needs. */
  function RowsNeeded(n: nat, width: nat): nat
    requires width > 0
  {
    if n == 0 then 0 else if n <= width then 1 else 1 + RowsNeeded(n - width, width)
  }

  /** `RowsNeeded` is division rounded up. */
  lemma {:induction false} RowsNeededIsCeiling(n: nat, width: nat)
    requires width > 0 && n > 0
    ensures (RowsNeeded(n, width) - 1) * width < n <= RowsNeeded(n, width) * width
    decreases n
  {
    if n > width {
      RowsNeededIsCeiling(n - width, width);
      var q := RowsNeeded(n - width, width);
      assert (q + 1) * width == q * width + width;
      assert q * width == (q - 1) * width + width;
    }
  }

  /** A row that holds between 1 and `width` runes is the last of the rows the text needs. */
  lemma {:induction false} LastRowIsNeeded(width: nat, lines: nat, x: nat)
    requires lines >= 1 && 1 <= x <= width
    ensures RowsNeeded(At(width, lines - 1, x), width) == lines
    decreases lines
  {
    if lines > 1 {
      LastRowIsNeeded(width, lines - 1, x);
      AtShift(width, lines - 2, x);
    }
  }

  lemma LinesAreNeeded(t: Term, text: string, lines: nat)
    requires LaidOut(t, text, lines)
    ensures Max(0, lines - t.height) == Max(0, RowsNeeded(|text|, t.width) - t.height)
    ensures text != "" ==> t.cursorX > 0
  {
    if t.cursorX > 0 {
      LastRowIsNeeded(t.width, lines, t.cursorX);
    }
  }

  /** With `k` text rows scrolled off, cell (x, y) holds rune (y + k) * width + x, and is blank past the
      text's end. */
  ghost predicate RowMajor(g: Grid, text: string, width: nat, height: nat, k: nat)
    requires IsGrid(g, width, height)
  {
    forall x, y :: 0 <= y < height && 0 <= x < width ==> g[y][x] == TextCell(text, (y + k) * width + x)
  }

  /** The cursor is just past the last rune, which may be past the last column (deferred wrap). */
  ghost predicate CursorAfter(text: string, width: nat, k: nat, x: int, y: int) {
    text != "" ==> 1 <= x <= width && |text| == (y + k) * width + x
  }

  lemma ShowsByProduct(g: Grid, text: string, width: nat, height: nat, k: nat)
    requires Shows(g, text, width, height, k)
    ensures RowMajor(g, text, width, height, k)
  {
    forall x, y | 0 <= y < height && 0 <= x < width ensures g[y][x] == TextCell(text, (y + k) * width + x) {
      AtIsProduct(width, y + k, x);
    }
  }

  lemma CursorByProduct(t: Term, text: string, lines: nat, k: nat)
    requires LaidOut(t, text, lines) && k == Max(0, lines - t.height)
    ensures CursorAfter(text, t.width, k, t.cursorX, t.cursorY)
  {
    LinesAreNeeded(t, text, lines);
    AtIsProduct(t.width, lines - 1, t.cursorX);
    assert t.cursorY + k == lines - 1;
  }

  /** After n width-1 runes on a fresh w-by-h screen, k = max(0, ceil(n / w) - h) rows have scrolled off,
      and the text stands in reading order. */
  lemma {:induction false} TextIsRowMajor(width: int, height: int, text: string)
    ensures var t := PrintAll(width, height, text);
            var k := Max(0, RowsNeeded(|text|, t.width) - t.height);
            && t.width == Max(1, width) && t.height == Max(1, height)
            && IsGrid(t.primary, t.width, t.height)
            && RowMajor(t.primary, text, t.width, t.height, k)
            && CursorAfter(text, t.width, k, t.cursorX, t.cursorY)
  {
    var t := PrintAll(width, height, text);
    var lines := PrintAllLaysOut(width, height, text);
    var k := Max(0, RowsNeeded(|text|, t.width) - t.height);
    assert k == Max(0, lines - t.height) by {
      LinesAreNeeded(t, text, lines);
    }
    ShowsByProduct(t.primary, text, t.width, t.height, k);
    CursorByProduct(t, text, lines, k);
  }

  // ---------------------------------------------------------------- tabs

  lemma {:induction false} SpacesAdvance(t: Term, count: nat)
    requires Legal(t) && t.cursorX + count <= t.width
    ensures var r := PrintSpaces(t, count);
            r.cursorX == t.cursorX + count && r.cursorY == t.cursorY && r.width == t.width
    decreases count
  {
    if count > 0 {
      SpacesAdvance(t, count - 1);
    }
  }

  lemma NextTab(x: int, width: int)
    requires 0 <= x <= width
    ensures var stop := Min((x / 8 + 1) * 8, width);
            x <= stop && (stop == width || (stop % 8 == 0 && x < stop <= x + 8))
  {
  }

  lemma TabAdvances(t: Term)
    requires Legal(t)
    ensures Control(t, '\t').cursorX == TabStop(t) && Control(t, '\t').cursorY == t.cursorY
  {
    SpacesAdvance(t, TabStop(t) - t.cursorX);
  }

  /** A tab moves the cursor on the same row to the next multiple of eight, or to the right margin. */
  lemma {:induction false} TabStopsAtMultipleOrMargin(t: Term)
    requires Legal(t)
    ensures var r := Control(t, '\t');
            && r.cursorY == t.cursorY
            && (r.cursorX == t.width || (r.cursorX % 8 == 0 && t.cursorX < r.cursorX <= t.cursorX + 8))
  {
    TabAdvances(t);
    NextTab(t.cursorX, t.width);
  }

  // ---------------------------------------------------------------- alternate screen

  predicate EntersAlt(params: Params) {
    exists i :: 0 <= i < |params| && ParamOrDefault(params, i, 0) in {47, 1047, 1049}
  }

  /** An operation that neither leaves the alternate screen, nor resets, resizes or saves the cursor. */
  predicate StaysInAlt(op: Op) {
    match op
    case Print(_, _) => true
    case Execute(_) => true
    case Esc(final) => final != '7' && final != 'c'
    case Csi(prefix, final, params) => final != 's' && (final == 'l' && prefix == '?' ==> !EntersAlt(params))
    case Resize(_, _) => false
  }

  /** What the alternate screen must not touch. */
  ghost predicate SameBehindAlt(t: Term, r: Term) {
    && r.useAlt
    && r.primary == t.primary
    && r.savedX == t.savedX && r.savedY == t.savedY
    && r.width == t.width && r.height == t.height
  }

  lemma IndexStaysBehind(t: Term)
    requires Legal(t) && t.useAlt
    ensures SameBehindAlt(t, Index(t)) && SameBehindAlt(t, ReverseIndex(t)) && SameBehindAlt(t, NewLine(t))
  {
  }

  lemma PrintStaysBehind(t: Term, rune: char, cellWidth: nat)
    requires Legal(t) && t.useAlt
    ensures SameBehindAlt(t, PrintRune(t, rune, cellWidth))
  {
  }

  lemma {:induction false} SpacesStayBehind(t: Term, count: nat)
    requires Legal(t) && t.useAlt
    ensures SameBehindAlt(t, PrintSpaces(t, count))
    decreases count
  {
    if count > 0 {
      SpacesStayBehind(t, count - 1);
      PrintStaysBehind(PrintSpaces(t, count - 1), ' ', 1);
    }
  }

  lemma {:induction false} ModesStayBehind(t: Term, params: Params, on: bool)
    requires Legal(t) && t.useAlt && (on || !EntersAlt(params))
    ensures SameBehindAlt(t, SetModes(t, params, on))
    decreases |params|
  {
    if params != [] {
      var init := params[..|params| - 1];
      assert !EntersAlt(params) ==> !EntersAlt(init) by {
        if EntersAlt(init) {
          var i :| 0 <= i < |init| && ParamOrDefault(init, i, 0) in {47, 1047, 1049};
          assert ParamOrDefault(params, i, 0) == ParamOrDefault(init, i, 0);
        }
      }
      ModesStayBehind(t, init, on);
    }
  }

  lemma SequenceStaysBehind(t: Term, prefix: char, final: char, params: Params)
    requires Legal(t) && t.useAlt && StaysInAlt(Csi(prefix, final, params))
    ensures SameBehindAlt(t, ControlSequence(t, prefix, final, params))
  {
    if prefix == '?' && (final == 'h' || final == 'l') {
      ModesStayBehind(t, params, final == 'h');
    } else if IsMotion(final) {
      assert SameBehindAlt(t, Motion(t, final, params));
    } else if IsEdit(final) {
      assert SameBehindAlt(t, Edit(t, final, ParamOrDefault(params, 0, 1)));
    } else {
      EraseStaysBehind(t, ParamOrDefault(params, 0, 0));
      ScrollStaysBehind(t, ParamOrDefault(params, 0, 1), params);
    }
  }

  lemma EraseStaysBehind(t: Term, mode: int)
    requires Legal(t) && t.useAlt
    ensures SameBehindAlt(t, EraseDisplay(t, mode)) && SameBehindAlt(t, EraseLine(t, mode))
  {
  }

  lemma ScrollStaysBehind(t: Term, n: int, params: Params)
    requires Legal(t) && t.useAlt
    ensures SameBehindAlt(t, EraseCharacters(t, n))
    ensures SameBehindAlt(t, ScrollUp(t, n)) && SameBehindAlt(t, ScrollDown(t, n))
    ensures SameBehindAlt(t, RestoreCursor(t)) && SameBehindAlt(t, SetScrollRegion(t, params))
  {
  }

  lemma ControlStaysBehind(t: Term, control: char)
    requires Legal(t) && t.useAlt
    ensures SameBehindAlt(t, Control(t, control))
  {
    if control == '\t' {
      SpacesStayBehind(t, Max(0, TabStop(t) - t.cursorX));
    } else {
      IndexStaysBehind(t);
    }
  }

  lemma EscapeStaysBehind(t: Term, final: char)
    requires Legal(t) && t.useAlt && final != '7' && final != 'c'
    ensures SameBehindAlt(t, Escape(t, final))
  {
    IndexStaysBehind(t);
    IndexStaysBehind(t.(cursorX := 0));
  }

  lemma StepStaysBehind(t: Term, op: Op)
    requires Legal(t) && t.useAlt && StaysInAlt(op)
    ensures SameBehindAlt(t, Step(t, op))
  {
    match op
    case Print(rune, cellWidth) => PrintStaysBehind(t, rune, cellWidth);
    case Execute(control) => ControlStaysBehind(t, control);
    case Esc(final) => EscapeStaysBehind(t, final);
    case Csi(prefix, final, params) => SequenceStaysBehind(t, prefix, final, params);
  }

  function StepAll(t: Term, ops: seq<Op>): (r: Term)
    requires Legal(t)
    ensures Legal(r)
    decreases |ops|
  {
    if ops == [] then t else Step(StepAll(t, ops[..|ops| - 1]), ops[|ops| - 1])
  }

  lemma {:induction false} RunStaysBehind(t: Term, ops: seq<Op>)
    requires Legal(t) && t.useAlt && forall i :: 0 <= i < |ops| ==> StaysInAlt(ops[i])
    ensures SameBehindAlt(t, StepAll(t, ops))
    decreases |ops|
  {
    if ops != [] {
      RunStaysBehind(t, ops[..|ops| - 1]);
      StepStaysBehind(StepAll(t, ops[..|ops| - 1]), ops[|ops| - 1]);
    }
  }

  /** Entering the alternate screen, doing anything that stays in it, and leaving it gives back the
      primary screen cell for cell and the cursor's row. The cursor's column comes back exactly if no
      wrap was pending, and the scroll region exactly if it was the whole screen. */
  lemma {:induction false} AltScreenRoundTrip(t: Term, ops: seq<Op>)
    requires Legal(t) && !t.useAlt && forall i :: 0 <= i < |ops| ==> StaysInAlt(ops[i])
    ensures var r := LeaveAlt(StepAll(EnterAlt(t), ops));
            && !r.useAlt && r.primary == t.primary && r.width == t.width && r.height == t.height
            && r.cursorY == t.cursorY && r.cursorX == Min(t.cursorX, t.width - 1)
            && (r.cursorX == t.cursorX <==> t.cursorX < t.width)
            && (r.scrollTop == t.scrollTop && r.scrollBottom == t.scrollBottom <==>
                t.scrollTop == 0 && t.scrollBottom == t.height - 1)
  {
    RunStaysBehind(EnterAlt(t), ops);
  }
}
