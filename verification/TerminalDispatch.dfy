/** Where each decoded operation takes the cursor, and which cells it changes, told from outside: from the
    screen before and the screen after. */
module TerminalDispatch {
  import opened Wrappers
  import opened Terminal
  import opened TerminalTheorems
  import opened TerminalEdits

  /** `v` is parameter `i` of the sequence, or the default where there is none. */
  ghost predicate Given(params: Params, i: nat, default: int, v: int) {
    && (i < |params| && params[i].Some? ==> v == params[i].value)
    && (i >= |params| || params[i].None? ==> v == default)
  }

  // ---------------------------------------------------------------- motions

  /** `to` is `n` steps before `from`, or the edge at zero when there are not as many. */
  predicate Back(from: int, n: int, to: int) {
    to == from - n >= 0 || (from - n < 0 && to == 0)
  }

  /** `to` is `n` steps after `from`, or the last position of `size` when there are not as many. */
  predicate Ahead(from: int, n: int, size: int, to: int) {
    to == from + n < size || (from + n >= size && to == size - 1)
  }

  /** `to` is position `v`, counted from one, or the nearest one on a screen of `size`. */
  predicate Addressed(v: int, size: int, to: int) {
    if v < 1 then to == 0 else if v > size then to == size - 1 else to == v - 1
  }

  /** Nothing but the cursor moved. */
  predicate OnlyCursor(t: Term, r: Term) {
    r == t.(cursorX := r.cursorX, cursorY := r.cursorY)
  }

  /** Where a motion ends, by its final byte, with `n` the first parameter and `c` the second, each one when
      absent: rows for A, B, E, F, columns for C, D, G, both for H and f, row first. */
  ghost predicate MotionEnds(t: Term, r: Term, final: char, n: int, c: int) {
    match final
    case 'A' => r.cursorX == t.cursorX && Back(t.cursorY, n, r.cursorY)
    case 'B' => r.cursorX == t.cursorX && Ahead(t.cursorY, n, t.height, r.cursorY)
    case 'C' => r.cursorY == t.cursorY && Ahead(t.cursorX, n, t.width, r.cursorX)
    case 'D' => r.cursorY == t.cursorY && (Back(t.cursorX, n, r.cursorX) || t.cursorX - n == t.width == r.cursorX + 1)
    case 'E' => r.cursorX == 0 && Ahead(t.cursorY, n, t.height, r.cursorY)
    case 'F' => r.cursorX == 0 && Back(t.cursorY, n, r.cursorY)
    case 'G' => r.cursorY == t.cursorY && Addressed(n, t.width, r.cursorX)
    case _ => Addressed(n, t.height, r.cursorY) && Addressed(c, t.width, r.cursorX)
  }

  /** The nine motions go where they should and change nothing else. Moving left by none from a pending wrap
      leaves the last column. */
  lemma {:induction false} MotionsGo(t: Term, prefix: char, final: char, params: Params, n: int, c: int)
    requires Legal(t) && final in {'A', 'B', 'C', 'D', 'E', 'F', 'G', 'H', 'f'}
    requires Given(params, 0, 1, n) && Given(params, 1, 1, c)
    ensures var r := Step(t, Csi(prefix, final, params)); OnlyCursor(t, r) && MotionEnds(t, r, final, n, c)
  {
    assert Step(t, Csi(prefix, final, params)) == Motion(t, final, params);
    match final
    case 'A' | 'B' | 'C' | 'D' | 'E' | 'F' | 'G' =>
    case _ =>
  }

  /** Backspace goes one column back within the row, carriage return to its start. */
  lemma ControlsMove(t: Term)
    requires Legal(t)
    ensures var r := Step(t, Execute('\U{08}')); r == t.(cursorX := r.cursorX) && Back(t.cursorX, 1, r.cursorX)
    ensures Step(t, Execute('\r')) == t.(cursorX := 0)
  {
  }

  // ---------------------------------------------------------------- rows that scroll

  /** Row `y` after rows `top` to `bottom` went up by `n`, blank rows following. */
  function RowUp(g: Grid, top: int, bottom: int, n: nat, width: nat, y: int): seq<Cell>
    requires 0 <= y < |g| && bottom < |g|
  {
    if y < top || y > bottom then g[y] else if y + n <= bottom then g[y + n] else BlankRow(width)
  }

  /** Row `y` after rows `top` to `bottom` went down by `n`, blank rows leading. */
  function RowDown(g: Grid, top: int, bottom: int, n: nat, width: nat, y: int): seq<Cell>
    requires 0 <= y < |g| && 0 <= top
  {
    if y < top || y > bottom then g[y] else if y - n >= top then g[y - n] else BlankRow(width)
  }

  ghost predicate WentUp(g: Grid, g': Grid, top: int, bottom: int, n: nat, width: nat)
    requires bottom < |g|
  {
    |g'| == |g| && forall y :: 0 <= y < |g| ==> g'[y] == RowUp(g, top, bottom, n, width, y)
  }

  ghost predicate WentDown(g: Grid, g': Grid, top: int, bottom: int, n: nat, width: nat)
    requires 0 <= top
  {
    |g'| == |g| && forall y :: 0 <= y < |g| ==> g'[y] == RowDown(g, top, bottom, n, width, y)
  }

  lemma DeleteAtTopGoesUp(g: Grid, n: nat, top: int, bottom: int, width: nat, y: int)
    requires 0 <= top <= bottom < |g| && 0 <= y < |g|
    ensures |DeleteLines(g, top, n, top, bottom, width)| == |g|
    ensures DeleteLines(g, top, n, top, bottom, width)[y] == RowUp(g, top, bottom, n, width, y)
  {
    if n > 0 {
      DeletedRow(g, n, top, bottom, width, y);
    }
  }

  lemma DeleteGoesUp(g: Grid, y: int, n: nat, top: int, bottom: int, width: nat)
    requires 0 <= top <= y <= bottom < |g|
    ensures WentUp(g, DeleteLines(g, y, n, top, bottom, width), y, bottom, n, width)
  {
    var r := DeleteLines(g, y, n, top, bottom, width);
    assert r == DeleteLines(g, y, n, y, bottom, width);
    forall i | 0 <= i < |g| ensures |r| == |g| && r[i] == RowUp(g, y, bottom, n, width, i) {
      DeleteAtTopGoesUp(g, n, y, bottom, width, i);
    }
  }

  lemma InsertAtTopGoesDown(g: Grid, n: nat, top: int, bottom: int, width: nat, y: int)
    requires 0 <= top <= bottom < |g| && 0 <= y < |g|
    ensures |InsertLines(g, top, n, top, bottom, width)| == |g|
    ensures InsertLines(g, top, n, top, bottom, width)[y] == RowDown(g, top, bottom, n, width, y)
  {
    if n > 0 {
      InsertedRow(g, n, top, bottom, width, y);
    }
  }

  lemma InsertGoesDown(g: Grid, y: int, n: nat, top: int, bottom: int, width: nat)
    requires 0 <= top <= y <= bottom < |g|
    ensures WentDown(g, InsertLines(g, y, n, top, bottom, width), y, bottom, n, width)
  {
    var r := InsertLines(g, y, n, top, bottom, width);
    assert r == InsertLines(g, y, n, y, bottom, width);
    forall i | 0 <= i < |g| ensures |r| == |g| && r[i] == RowDown(g, y, bottom, n, width, i) {
      InsertAtTopGoesDown(g, n, y, bottom, width, i);
    }
  }

  /** Nothing but the active screen changed. */
  predicate OnlyScreen(t: Term, r: Term) {
    r == WithActive(t, Active(r))
  }

  lemma ScrollUpGoes(t: Term, n: nat)
    requires Legal(t)
    ensures var r, count := ScrollUp(t, n), if n == 0 then 1 else n;
            OnlyScreen(t, r) && WentUp(Active(t), Active(r), t.scrollTop, t.scrollBottom, count, t.width)
  {
    DeleteGoesUp(Active(t), t.scrollTop, if n == 0 then 1 else n, t.scrollTop, t.scrollBottom, t.width);
  }

  lemma ScrollDownGoes(t: Term, n: nat)
    requires Legal(t)
    ensures var r, count := ScrollDown(t, n), if n == 0 then 1 else n;
            OnlyScreen(t, r) && WentDown(Active(t), Active(r), t.scrollTop, t.scrollBottom, count, t.width)
  {
    InsertGoesDown(Active(t), t.scrollTop, if n == 0 then 1 else n, t.scrollTop, t.scrollBottom, t.width);
  }

  /** A scroll of the whole region: `S` up, `T` down, by the count given, and by one when it is zero. */
  lemma ScrollsGo(t: Term, prefix: char, params: Params, n: nat)
    requires Legal(t) && Given(params, 0, 1, n)
    ensures var r, count := Step(t, Csi(prefix, 'S', params)), if n == 0 then 1 else n;
            OnlyScreen(t, r) && WentUp(Active(t), Active(r), t.scrollTop, t.scrollBottom, count, t.width)
    ensures var r, count := Step(t, Csi(prefix, 'T', params)), if n == 0 then 1 else n;
            OnlyScreen(t, r) && WentDown(Active(t), Active(r), t.scrollTop, t.scrollBottom, count, t.width)
  {
    assert Step(t, Csi(prefix, 'S', params)) == ScrollUp(t, n) && Step(t, Csi(prefix, 'T', params)) == ScrollDown(t, n);
    ScrollUpGoes(t, n);
    ScrollDownGoes(t, n);
  }

  /** Inserting lines (`L`) moves the cursor's row and those below it in the region down, deleting (`M`)
      moves them up; outside the region neither does anything. */
  lemma LinesGo(t: Term, prefix: char, params: Params, n: nat)
    requires Legal(t) && Given(params, 0, 1, n)
    ensures var r := Step(t, Csi(prefix, 'L', params));
            && OnlyScreen(t, r)
            && if t.scrollTop <= t.cursorY <= t.scrollBottom
               then WentDown(Active(t), Active(r), t.cursorY, t.scrollBottom, n, t.width) else r == t
    ensures var r := Step(t, Csi(prefix, 'M', params));
            && OnlyScreen(t, r)
            && if t.scrollTop <= t.cursorY <= t.scrollBottom
               then WentUp(Active(t), Active(r), t.cursorY, t.scrollBottom, n, t.width) else r == t
  {
    assert Step(t, Csi(prefix, 'L', params)) == Edit(t, 'L', n) && Step(t, Csi(prefix, 'M', params)) == Edit(t, 'M', n);
    if t.scrollTop <= t.cursorY <= t.scrollBottom {
      InsertGoesDown(Active(t), t.cursorY, n, t.scrollTop, t.scrollBottom, t.width);
      DeleteGoesUp(Active(t), t.cursorY, n, t.scrollTop, t.scrollBottom, t.width);
    }
  }

  /** A line feed goes one row down, or scrolls the region up when the cursor is on its last row; below the
      region it stops at the last row. All but `ESC D` also go to column zero. */
  lemma LineFeedGoes(t: Term, op: Op)
    requires Legal(t)
    requires op in {Execute('\n'), Execute('\U{0B}'), Execute('\U{0C}'), Esc('D'), Esc('E')}
    ensures var r := Step(t, op);
            && r == WithActive(t, Active(r)).(cursorX := r.cursorX, cursorY := r.cursorY)
            && r.cursorX == (if op == Esc('D') then t.cursorX else 0)
            && if t.cursorY == t.scrollBottom
               then r.cursorY == t.cursorY && WentUp(Active(t), Active(r), t.scrollTop, t.scrollBottom, 1, t.width)
               else Ahead(t.cursorY, 1, t.height, r.cursorY) && Active(r) == Active(t)
  {
    DeleteGoesUp(Active(t), t.scrollTop, 1, t.scrollTop, t.scrollBottom, t.width);
  }

  /** A reverse line feed goes one row up, or scrolls the region down when the cursor is on its first row. */
  lemma ReverseLineFeedGoes(t: Term)
    requires Legal(t)
    ensures var r := Step(t, Esc('M'));
            && r == WithActive(t, Active(r)).(cursorY := r.cursorY)
            && if t.cursorY == t.scrollTop
               then r.cursorY == t.cursorY && WentDown(Active(t), Active(r), t.scrollTop, t.scrollBottom, 1, t.width)
               else Back(t.cursorY, 1, r.cursorY) && Active(r) == Active(t)
  {
    InsertGoesDown(Active(t), t.scrollTop, 1, t.scrollTop, t.scrollBottom, t.width);
  }

  // ---------------------------------------------------------------- cells of one row

  lemma InsertedCell(g: Grid, x0: int, y0: int, n: nat, width: nat, x: int, y: int)
    requires IsGrid(g, width, |g|) && 0 <= x0 && 0 <= y0 < |g| && 0 <= x < width && 0 <= y < |g|
    ensures var r := InsertCells(g, x0, y0, n);
            && |r| == |g| && |r[y]| == width
            && r[y][x] == if y != y0 || x < x0 then g[y][x] else if x - n >= x0 then g[y][x - n] else Blank
  {
  }

  lemma DeletedCell(g: Grid, x0: int, y0: int, n: nat, width: nat, x: int, y: int)
    requires IsGrid(g, width, |g|) && 0 <= x0 && 0 <= y0 < |g| && 0 <= x < width && 0 <= y < |g|
    ensures var r := DeleteCells(g, x0, y0, n);
            && |r| == |g| && |r[y]| == width
            && r[y][x] == if y != y0 || x < x0 then g[y][x] else if x + n < width then g[y][x + n] else Blank
  {
  }

  /** Inserting cells (`@`) moves those from the cursor on to the right, deleting (`P`) moves them to the
      left; blanks come in, and no other row changes. */
  lemma CellsGo(t: Term, prefix: char, params: Params, n: nat, x: int, y: int)
    requires Legal(t) && Given(params, 0, 1, n) && 0 <= x < t.width && 0 <= y < t.height
    ensures var r := Step(t, Csi(prefix, '@', params));
            && OnlyScreen(t, r) && |Active(r)| == t.height && |Active(r)[y]| == t.width
            && Active(r)[y][x] == if y != t.cursorY || x < t.cursorX then Active(t)[y][x]
                                  else if x - n >= t.cursorX then Active(t)[y][x - n] else Blank
    ensures var r := Step(t, Csi(prefix, 'P', params));
            && OnlyScreen(t, r) && |Active(r)| == t.height && |Active(r)[y]| == t.width
            && Active(r)[y][x] == if y != t.cursorY || x < t.cursorX then Active(t)[y][x]
                                  else if x + n < t.width then Active(t)[y][x + n] else Blank
  {
    InsertedCell(Active(t), t.cursorX, t.cursorY, n, t.width, x, y);
    DeletedCell(Active(t), t.cursorX, t.cursorY, n, t.width, x, y);
    assert Step(t, Csi(prefix, '@', params)) == WithActive(t, InsertCells(Active(t), t.cursorX, t.cursorY, n));
    assert Step(t, Csi(prefix, 'P', params)) == WithActive(t, DeleteCells(Active(t), t.cursorX, t.cursorY, n));
  }

  /** What the three erase commands blank: `K` part of the cursor's row, `X` so many cells from the cursor on
      but at least one, `J` part of the screen. */
  ghost predicate Erases(t: Term, final: char, n: int, x: int, y: int) {
    match final
    case 'K' => y == t.cursorY && (if n == 1 then x <= t.cursorX else n == 2 || x >= t.cursorX)
    case 'X' => y == t.cursorY && (x == t.cursorX || t.cursorX <= x < t.cursorX + n)
    case _ => if n == 1 then NotAfter(x, y, t) else n == 2 || n == 3 || NotBefore(x, y, t)
  }

  /** Erasing blanks exactly those cells; only erasing the whole screen moves the cursor, to the origin. */
  lemma {:induction false} ErasesExactly(t: Term, prefix: char, final: char, params: Params, n: int, x: int, y: int)
    requires Legal(t) && final in {'J', 'K', 'X'} && Given(params, 0, if final == 'X' then 1 else 0, n)
    requires 0 <= x < t.width && 0 <= y < t.height
    ensures var r := Step(t, Csi(prefix, final, params));
            && r == WithActive(t, Active(r)).(cursorX := r.cursorX, cursorY := r.cursorY)
            && (if final == 'J' && (n == 2 || n == 3) then r.cursorX == 0 && r.cursorY == 0
                else r.cursorX == t.cursorX && r.cursorY == t.cursorY)
            && |Active(r)| == t.height && |Active(r)[y]| == t.width
            && Active(r)[y][x] == if Erases(t, final, n, x, y) then Blank else Active(t)[y][x]
  {
    match final
    case 'K' =>
      assert Step(t, Csi(prefix, final, params)) == EraseLine(t, n);
      EraseLineExactly(t, n, x, y);
    case 'J' =>
      assert Step(t, Csi(prefix, final, params)) == EraseDisplay(t, n);
      EraseDisplayExactly(t, n, x, y);
      EraseDisplayTouches(t, n);
    case _ =>
      assert Step(t, Csi(prefix, final, params)) == EraseCharacters(t, n);
      EraseCharactersExactly(t, n, x, y);
  }

  lemma EraseDisplayTouches(t: Term, mode: int)
    requires Legal(t)
    ensures var r := EraseDisplay(t, mode); r == WithActive(t, Active(r)).(cursorX := r.cursorX, cursorY := r.cursorY)
  {
  }

  lemma EraseCharactersExactly(t: Term, n: int, x: int, y: int)
    requires Legal(t) && 0 <= x < t.width && 0 <= y < t.height
    ensures var r := EraseCharacters(t, n);
            && OnlyScreen(t, r) && |Active(r)| == t.height && |Active(r)[y]| == t.width
            && Active(r)[y][x] ==
               if y == t.cursorY && (x == t.cursorX || t.cursorX <= x < t.cursorX + n) then Blank
               else Active(t)[y][x]
  {
  }

  // ---------------------------------------------------------------- printing

  /** A glyph that fits stands at the cursor with its tails, and nothing else changes but the column. */
  lemma PrintStands(t: Term, rune: char, cellWidth: nat, x: int, y: int)
    requires Legal(t) && cellWidth >= 1 && t.cursorX + cellWidth <= t.width
    requires 0 <= x < t.width && 0 <= y < t.height
    ensures var r := Step(t, Print(rune, cellWidth));
            && r == WithActive(t, Active(r)).(cursorX := t.cursorX + cellWidth)
            && |Active(r)| == t.height && |Active(r)[y]| == t.width
            && Active(r)[y][x] == if y != t.cursorY || x < t.cursorX || x >= t.cursorX + cellWidth then Active(t)[y][x]
                                  else if x == t.cursorX then Glyph(rune, cellWidth) else Tail
  {
  }

  /** One that does not fit in the rest of the row is printed after a line feed; one wider than the screen is
      not printed, and only resolves a pending wrap; one of no width does nothing. */
  lemma PrintWraps(t: Term, rune: char, cellWidth: nat)
    requires Legal(t) && t.cursorX + cellWidth > t.width
    ensures var r, wrapped := Step(t, Print(rune, cellWidth)), Step(t, Execute('\n'));
            if cellWidth == 0 then r == t
            else if cellWidth <= t.width then r == Step(wrapped, Print(rune, cellWidth))
            else r == if t.cursorX == t.width then wrapped else t
  {
  }

  // ---------------------------------------------------------------- region, modes, reset

  /** A region of rows counted from one is taken with the cursor at the origin, whatever it was; one that is
      empty or off the screen gives the whole screen and leaves the cursor. */
  lemma RegionIsSet(t: Term, prefix: char, params: Params, top: int, bottom: int)
    requires Legal(t) && Given(params, 0, 1, top) && Given(params, 1, t.height, bottom)
    ensures var r := Step(t, Csi(prefix, 'r', params));
            if 1 <= top <= bottom <= t.height
            then r == t.(scrollTop := top - 1, scrollBottom := bottom - 1, cursorX := 0, cursorY := 0)
            else r == t.(scrollTop := 0, scrollBottom := t.height - 1)
  {
  }

  predicate Names(params: Params, modes: set<nat>) {
    exists i :: 0 <= i < |params| && params[i].Some? && params[i].value in modes
  }

  lemma NamesSnoc(params: Params, modes: set<nat>)
    requires params != []
    ensures var last := params[|params| - 1];
            Names(params, modes) <==> Names(params[..|params| - 1], modes) || (last.Some? && last.value in modes)
  {
    var init, last := params[..|params| - 1], params[|params| - 1];
    if Names(init, modes) {
      var i :| 0 <= i < |init| && init[i].Some? && init[i].value in modes;
      assert params[i].Some?;
    }
    if last.Some? && last.value in modes {
      assert params[|params| - 1].Some?;
    }
    if Names(params, modes) {
      var i :| 0 <= i < |params| && params[i].Some? && params[i].value in modes;
      assert i < |init| ==> init[i].Some?;
    }
  }

  lemma {:induction false} ModesAreSet(t: Term, params: Params, on: bool)
    requires Legal(t)
    ensures var r := SetModes(t, params, on);
            && r.showCursor == (if Names(params, {25}) then on else t.showCursor)
            && r.useAlt == (if Names(params, {47, 1047, 1049}) then on else t.useAlt)
    decreases |params|
  {
    if params != [] {
      ModesAreSet(t, params[..|params| - 1], on);
      NamesSnoc(params, {25});
      NamesSnoc(params, {47, 1047, 1049});
    }
  }

  /** Each mode of a list is set (`h`) or reset (`l`), whatever stands beside it: 25 shows the cursor, and 47,
      1047 and 1049 show the alternate screen. Without the prefix nothing happens. */
  lemma {:induction false} ModesGo(t: Term, prefix: char, final: char, params: Params)
    requires Legal(t) && final in {'h', 'l'}
    ensures var r := Step(t, Csi(prefix, final, params));
            if prefix != '?' then r == t
            else
              && r.showCursor == (if Names(params, {25}) then final == 'h' else t.showCursor)
              && r.useAlt == (if Names(params, {47, 1047, 1049}) then final == 'h' else t.useAlt)
  {
    ModesAreSet(t, params, final == 'h');
    assert prefix == '?' ==> Step(t, Csi(prefix, final, params)) == SetModes(t, params, final == 'h');
  }

  lemma SetOneMode(t: Term, mode: nat, on: bool)
    requires Legal(t)
    ensures SetModes(t, [Some(mode)], on) == SetMode(t, mode, on)
  {
    assert [Some(mode)][..0] == [];
  }

  /** Entering the alternate screen shows it blank with the cursor at its origin, and keeps the primary one
      with the cursor saved; leaving it goes back to the saved cursor. Both make the whole screen the region. */
  lemma AltScreenGoes(t: Term, mode: nat)
    requires Legal(t) && mode in {47, 1047, 1049}
    ensures var r := Step(t, Csi('?', 'h', [Some(mode)]));
            if t.useAlt then r == t
            else
              && r.useAlt && r.primary == t.primary && r.savedX == t.cursorX && r.savedY == t.cursorY
              && r.cursorX == 0 && r.cursorY == 0 && r.scrollTop == 0 && r.scrollBottom == t.height - 1
              && forall x, y :: 0 <= y < t.height && 0 <= x < t.width ==>
                   |r.alt| == t.height && |r.alt[y]| == t.width && r.alt[y][x] == Blank
    ensures var r := Step(t, Csi('?', 'l', [Some(mode)]));
            if !t.useAlt then r == t
            else
              && !r.useAlt && r.primary == t.primary && r.cursorY == t.savedY
              && r.cursorX == (if t.savedX == t.width then t.width - 1 else t.savedX)
              && r.scrollTop == 0 && r.scrollBottom == t.height - 1
  {
    SetOneMode(t, mode, true);
    SetOneMode(t, mode, false);
  }

  /** A reset leaves a blank screen of the same size, and nothing of what was. */
  lemma ResetIsFresh(t: Term, x: int, y: int)
    requires Legal(t) && 0 <= x < t.width && 0 <= y < t.height
    ensures var r := Step(t, Esc('c'));
            && r.width == t.width && r.height == t.height && !r.useAlt && r.showCursor
            && r.cursorX == 0 && r.cursorY == 0 && r.savedX == 0 && r.savedY == 0
            && r.scrollTop == 0 && r.scrollBottom == t.height - 1
            && |r.primary| == t.height && |r.primary[y]| == t.width && r.primary[y][x] == Blank
            && |r.alt| == t.height && |r.alt[y]| == t.width && r.alt[y][x] == Blank
  {
  }

  // ---------------------------------------------------------------- saving the cursor

  predicate Saves(op: Op) {
    op == Esc('7') || (op.Csi? && op.final == 's')
  }

  predicate Restores(op: Op) {
    op == Esc('8') || (op.Csi? && op.final == 'u')
  }

  /** What may overwrite the saved cursor: saving again, resetting, resizing and setting private modes. */
  predicate MaySave(op: Op) {
    Saves(op) || op == Esc('c') || op.Resize? || (op.Csi? && op.prefix == '?' && op.final == 'h')
  }

  ghost predicate SavedStays(t: Term, r: Term) {
    r.savedX == t.savedX && r.savedY == t.savedY && r.width == t.width && r.height == t.height
  }

  lemma {:induction false} ResetModesKeepSaved(t: Term, params: Params)
    requires Legal(t)
    ensures SavedStays(t, SetModes(t, params, false))
    decreases |params|
  {
    if params != [] {
      ResetModesKeepSaved(t, params[..|params| - 1]);
    }
  }

  lemma PrintKeepsSaved(t: Term, rune: char, cellWidth: nat)
    requires Legal(t)
    ensures SavedStays(t, PrintRune(t, rune, cellWidth))
  {
  }

  lemma {:induction false} SpacesKeepSaved(t: Term, count: nat)
    requires Legal(t)
    ensures SavedStays(t, PrintSpaces(t, count))
    decreases count
  {
    if count > 0 {
      SpacesKeepSaved(t, count - 1);
      PrintKeepsSaved(PrintSpaces(t, count - 1), ' ', 1);
    }
  }

  lemma MovesKeepSaved(t: Term, final: char, params: Params, n: int)
    requires Legal(t)
    ensures SavedStays(t, Motion(t, final, params)) && SavedStays(t, Edit(t, final, n))
    ensures SavedStays(t, SetScrollRegion(t, params)) && SavedStays(t, RestoreCursor(t))
  {
  }

  lemma SequenceKeepsSaved(t: Term, prefix: char, final: char, params: Params)
    requires Legal(t) && !MaySave(Csi(prefix, final, params))
    ensures SavedStays(t, ControlSequence(t, prefix, final, params))
  {
    MovesKeepSaved(t, final, params, ParamOrDefault(params, 0, 1));
    if !IsMotion(final) && !IsEdit(final) {
      match final
      case 'J' | 'K' => ErasesKeepSaved(t, ParamOrDefault(params, 0, 0));
      case 'X' | 'S' | 'T' => ErasesKeepSaved(t, ParamOrDefault(params, 0, 1));
      case 'l' => ResetModesKeepSaved(t, params);
      case _ =>
    }
  }

  lemma ErasesKeepSaved(t: Term, n: int)
    requires Legal(t)
    ensures SavedStays(t, EraseDisplay(t, n)) && SavedStays(t, EraseLine(t, n)) && SavedStays(t, EraseCharacters(t, n))
    ensures SavedStays(t, ScrollUp(t, n)) && SavedStays(t, ScrollDown(t, n))
  {
  }

  lemma LineFeedsKeepSaved(t: Term)
    requires Legal(t)
    ensures SavedStays(t, Index(t)) && SavedStays(t, ReverseIndex(t)) && SavedStays(t, NewLine(t))
  {
  }

  lemma ControlKeepsSaved(t: Term, control: char)
    requires Legal(t)
    ensures SavedStays(t, Control(t, control))
  {
    SpacesKeepSaved(t, Max(0, TabStop(t) - t.cursorX));
    LineFeedsKeepSaved(t);
  }

  lemma EscapeKeepsSaved(t: Term, final: char)
    requires Legal(t) && final != '7' && final != 'c'
    ensures SavedStays(t, Escape(t, final))
  {
    LineFeedsKeepSaved(t);
    LineFeedsKeepSaved(t.(cursorX := 0));
  }

  lemma StepKeepsSaved(t: Term, op: Op)
    requires Legal(t) && !MaySave(op)
    ensures SavedStays(t, Step(t, op))
  {
    match op
    case Print(rune, cellWidth) => PrintKeepsSaved(t, rune, cellWidth);
    case Execute(control) => ControlKeepsSaved(t, control);
    case Esc(final) => EscapeKeepsSaved(t, final);
    case Csi(prefix, final, params) => SequenceKeepsSaved(t, prefix, final, params);
  }

  lemma {:induction false} RunKeepsSaved(t: Term, ops: seq<Op>)
    requires Legal(t) && forall i :: 0 <= i < |ops| ==> !MaySave(ops[i])
    ensures SavedStays(t, StepAll(t, ops))
    decreases |ops|
  {
    if ops != [] {
      RunKeepsSaved(t, ops[..|ops| - 1]);
      StepKeepsSaved(StepAll(t, ops[..|ops| - 1]), ops[|ops| - 1]);
    }
  }

  /** A saved cursor comes back after anything that does not save another: saving changes nothing to be seen,
      and restoring moves the cursor to where it was saved and changes nothing else. Only a pending wrap is
      lost: the cursor comes back exactly if none was pending. */
  lemma {:induction false} SavedCursorComesBack(t: Term, save: Op, ops: seq<Op>, restore: Op)
    requires Legal(t) && Saves(save) && Restores(restore) && forall i :: 0 <= i < |ops| ==> !MaySave(ops[i])
    ensures var saved := Step(t, save);
            var before := StepAll(saved, ops);
            var r := Step(before, restore);
            && saved == t.(savedX := t.cursorX, savedY := t.cursorY)
            && OnlyCursor(before, r) && r.cursorY == t.cursorY
            && r.cursorX == (if t.cursorX == t.width then t.width - 1 else t.cursorX)
            && (r.cursorX == t.cursorX <==> t.cursorX < t.width)
  {
    assert Step(t, save) == SaveCursor(t);
    RunKeepsSaved(Step(t, save), ops);
    var before := StepAll(Step(t, save), ops);
    assert Step(before, restore) == RestoreCursor(before);
  }

  // ---------------------------------------------------------------- resizing

  /** Position `v`, or the last one of a screen of `size` when it is past that. */
  predicate Fits(v: int, size: int, to: int) {
    if v < size then to == v else to == size - 1
  }

  /** A new size brings both cursors onto the screen and keeps the region if it is still on it; the same size
      changes nothing. No screen is smaller than one cell. */
  lemma ResizeFits(t: Term, newWidth: int, newHeight: int)
    requires Legal(t)
    ensures var r := Step(t, Resize(newWidth, newHeight));
            && (if newWidth < 1 then r.width == 1 else r.width == newWidth)
            && (if newHeight < 1 then r.height == 1 else r.height == newHeight)
            && (r.width == t.width && r.height == t.height ==> r == t)
            && (r.width != t.width || r.height != t.height ==>
                  && r.useAlt == t.useAlt && r.showCursor == t.showCursor
                  && Fits(t.cursorX, r.width, r.cursorX) && Fits(t.cursorY, r.height, r.cursorY)
                  && Fits(t.savedX, r.width, r.savedX) && Fits(t.savedY, r.height, r.savedY)
                  && Fits(t.scrollBottom, r.height, r.scrollBottom)
                  && r.scrollTop == if t.scrollTop < r.height then t.scrollTop else 0)
  {
  }

  /** It keeps every cell that is on both screens, and blanks the others. */
  lemma ResizeKeepsCells(t: Term, newWidth: int, newHeight: int, x: int, y: int)
    requires Legal(t)
    ensures var r := Step(t, Resize(newWidth, newHeight));
            0 <= x < r.width && 0 <= y < r.height ==>
              && |r.primary| == r.height && |r.primary[y]| == r.width
              && |r.alt| == r.height && |r.alt[y]| == r.width
              && r.primary[y][x] == (if x < t.width && y < t.height then t.primary[y][x] else Blank)
              && r.alt[y][x] == (if x < t.width && y < t.height then t.alt[y][x] else Blank)
  {
    var r := ResizeTo(t, newWidth, newHeight);
    if 0 <= x < r.width && 0 <= y < r.height {
      ResizedCell(t.primary, t.width, t.height, r.width, r.height, x, y);
      ResizedCell(t.alt, t.width, t.height, r.width, r.height, x, y);
    }
  }

  lemma ResizedCell(g: Grid, width: int, height: int, w: nat, h: nat, x: int, y: int)
    requires IsGrid(g, width, height) && 0 <= x < w && 0 <= y < h
    ensures var r := ResizeGrid(g, w, h);
            |r| == h && |r[y]| == w && r[y][x] == if x < width && y < height then g[y][x] else Blank
  {
  }

  // ---------------------------------------------------------------- everything else

  /** What is not named above changes nothing: other controls, escapes and final bytes. */
  lemma OthersDoNothing(t: Term, op: Op)
    requires Legal(t)
    requires match op
             case Execute(control) => control !in {'\U{08}', '\t', '\n', '\U{0B}', '\U{0C}', '\r'}
             case Esc(final) => final !in {'7', '8', 'D', 'E', 'M', 'c'}
             case Csi(_, final, _) =>
               final !in {'A', 'B', 'C', 'D', 'E', 'F', 'G', 'H', 'f', 'J', 'K', 'X', 'L', 'M', '@', 'P', 'S', 'T',
                          's', 'u', 'r', 'h', 'l'}
             case _ => false
    ensures Step(t, op) == t
  {
  }
}
