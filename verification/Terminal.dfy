/** The attach terminal as a value: what each decoded operation does to the screen and the cursor. */
module Terminal {
  import opened Wrappers

  const TAB_WIDTH := 8

  /** One screen cell. A wide glyph is followed by `width - 1` tails. */
  datatype Cell = Blank | Glyph(rune: char, width: nat) | Tail

  type Grid = seq<seq<Cell>>

  datatype Term = Term(
    width: int, height: int,
    primary: Grid, alt: Grid, useAlt: bool,
    cursorX: int, cursorY: int,
    savedX: int, savedY: int,
    scrollTop: int, scrollBottom: int,
    showCursor: bool)

  type Params = seq<Option<nat>>

  /** What the parser hands to the model. */
  datatype Op =
    | Print(rune: char, cellWidth: nat)
    | Execute(control: char)
    | Esc(escFinal: char)
    | Csi(prefix: char, final: char, params: Params)
    | Resize(newWidth: int, newHeight: int)

  // ---------------------------------------------------------------- legal states

  ghost predicate IsGrid(g: Grid, width: int, height: int) {
    |g| == height && forall y :: 0 <= y < |g| ==> |g[y]| == width
  }

  ghost predicate Legal(t: Term) {
    && t.width >= 1 && t.height >= 1
    && IsGrid(t.primary, t.width, t.height)
    && IsGrid(t.alt, t.width, t.height)
    && 0 <= t.cursorX <= t.width && 0 <= t.cursorY < t.height
    && 0 <= t.savedX <= t.width && 0 <= t.savedY < t.height
    && 0 <= t.scrollTop <= t.scrollBottom < t.height
  }

  // ---------------------------------------------------------------- the screen buffer

  function Min(a: int, b: int): int { if a < b then a else b }

  function Max(a: int, b: int): int { if a > b then a else b }

  function Clamp(v: int, low: int, high: int): int {
    if v < low then low else if v > high then high else v
  }

  function BlankRow(width: nat): seq<Cell> {
    seq(width, _ => Blank)
  }

  function BlankGrid(width: nat, height: nat): Grid {
    seq(height, _ => BlankRow(width))
  }

  /** Blanks columns `from` to `to` of row `y`. */
  function EraseCells(g: Grid, y: int, from: int, to: int): Grid
    requires 0 <= y < |g| && 0 <= from <= to <= |g[y]|
  {
    g[y := g[y][..from] + BlankRow(to - from) + g[y][to..]]
  }

  /** Blanks rows `from` to `to`. */
  function EraseRows(g: Grid, from: int, to: int, width: nat): Grid
    requires 0 <= from <= to <= |g|
  {
    g[..from] + BlankGrid(width, to - from) + g[to..]
  }

  function WriteCell(g: Grid, x: int, y: int, rune: char, cellWidth: nat): Grid
    requires 0 <= y < |g| && cellWidth >= 1 && 0 <= x && x + cellWidth <= |g[y]|
  {
    g[y := g[y][..x] + [Glyph(rune, cellWidth)] + seq(cellWidth - 1, _ => Tail) + g[y][x + cellWidth..]]
  }

  /** Removes `count` rows at `y` and scrolls the rest of the region up, down to row `bottom`. */
  function DeleteLines(g: Grid, y: int, count: int, top: int, bottom: int, width: nat): (r: Grid)
    requires 0 <= top <= bottom < |g|
    ensures IsGrid(g, width, |g|) ==> IsGrid(r, width, |g|)
  {
    if count <= 0 || y < top || y > bottom then g
    else
      var n := Min(count, bottom + 1 - y);
      g[..y] + g[y + n..bottom + 1] + BlankGrid(width, n) + g[bottom + 1..]
  }

  /** Inserts `count` blank rows at `y` and scrolls the rest of the region down, off row `bottom`. */
  function InsertLines(g: Grid, y: int, count: int, top: int, bottom: int, width: nat): (r: Grid)
    requires 0 <= top <= bottom < |g|
    ensures IsGrid(g, width, |g|) ==> IsGrid(r, width, |g|)
  {
    if count <= 0 || y < top || y > bottom then g
    else
      var n := Min(count, bottom + 1 - y);
      g[..y] + BlankGrid(width, n) + g[y..bottom + 1 - n] + g[bottom + 1..]
  }

  function DeleteCells(g: Grid, x: int, y: int, count: int): (r: Grid)
    requires 0 <= y < |g| && 0 <= x
    ensures |r| == |g| && forall i :: 0 <= i < |g| ==> |r[i]| == |g[i]|
  {
    if count <= 0 || x >= |g[y]| then g
    else
      var n := Min(count, |g[y]| - x);
      g[y := g[y][..x] + g[y][x + n..] + BlankRow(n)]
  }

  function InsertCells(g: Grid, x: int, y: int, count: int): (r: Grid)
    requires 0 <= y < |g| && 0 <= x
    ensures |r| == |g| && forall i :: 0 <= i < |g| ==> |r[i]| == |g[i]|
  {
    if count <= 0 || x >= |g[y]| then g
    else
      var n := Min(count, |g[y]| - x);
      g[y := g[y][..x] + BlankRow(n) + g[y][x..|g[y]| - n]]
  }

  function ResizeGrid(g: Grid, width: nat, height: nat): Grid {
    seq(height, y => seq(width, x => if 0 <= y < |g| && 0 <= x < |g[y]| then g[y][x] else Blank))
  }

  // ---------------------------------------------------------------- the operations

  function New(width: int, height: int): (r: Term)
    ensures Legal(r)
  {
    var w, h := Max(1, width), Max(1, height);
    Term(w, h, BlankGrid(w, h), BlankGrid(w, h), false, 0, 0, 0, 0, 0, h - 1, true)
  }

  function Active(t: Term): Grid {
    if t.useAlt then t.alt else t.primary
  }

  function WithActive(t: Term, g: Grid): Term {
    if t.useAlt then t.(alt := g) else t.(primary := g)
  }

  function ResizeTo(t: Term, width: int, height: int): (r: Term)
    requires Legal(t)
    ensures Legal(r)
  {
    var w, h := Max(1, width), Max(1, height);
    if w == t.width && h == t.height then t
    else
      var top := if t.scrollTop >= h then 0 else t.scrollTop;
      t.(width := w, height := h,
         primary := ResizeGrid(t.primary, w, h), alt := ResizeGrid(t.alt, w, h),
         cursorX := Clamp(t.cursorX, 0, w - 1), cursorY := Clamp(t.cursorY, 0, h - 1),
         savedX := Clamp(t.savedX, 0, w - 1), savedY := Clamp(t.savedY, 0, h - 1),
         scrollTop := top,
         scrollBottom := if t.scrollBottom >= h || t.scrollBottom < top then h - 1 else t.scrollBottom)
  }

  function MoveCursor(t: Term, x: int, y: int): (r: Term)
    requires Legal(t)
    ensures Legal(r)
  {
    t.(cursorX := Clamp(x, 0, t.width - 1), cursorY := Clamp(y, 0, t.height - 1))
  }

  function SaveCursor(t: Term): (r: Term)
    requires Legal(t)
    ensures Legal(r)
  {
    t.(savedX := t.cursorX, savedY := t.cursorY)
  }

  function RestoreCursor(t: Term): (r: Term)
    requires Legal(t)
    ensures Legal(r)
  {
    MoveCursor(t, t.savedX, t.savedY)
  }

  function ScrollUp(t: Term, count: int): (r: Term)
    requires Legal(t)
    ensures Legal(r) && r.width == t.width && r.height == t.height
  {
    WithActive(t, DeleteLines(Active(t), t.scrollTop, if count <= 0 then 1 else count,
                              t.scrollTop, t.scrollBottom, t.width))
  }

  function ScrollDown(t: Term, count: int): (r: Term)
    requires Legal(t)
    ensures Legal(r) && r.width == t.width && r.height == t.height
  {
    WithActive(t, InsertLines(Active(t), t.scrollTop, if count <= 0 then 1 else count,
                              t.scrollTop, t.scrollBottom, t.width))
  }

  function Index(t: Term): (r: Term)
    requires Legal(t)
    ensures Legal(r) && r.width == t.width && r.height == t.height
  {
    if t.cursorY == t.scrollBottom then ScrollUp(t, 1)
    else t.(cursorY := Clamp(t.cursorY + 1, 0, t.height - 1))
  }

  function ReverseIndex(t: Term): (r: Term)
    requires Legal(t)
    ensures Legal(r) && r.width == t.width && r.height == t.height
  {
    if t.cursorY == t.scrollTop then ScrollDown(t, 1)
    else t.(cursorY := Clamp(t.cursorY - 1, 0, t.height - 1))
  }

  function NewLine(t: Term): (r: Term)
    requires Legal(t)
    ensures Legal(r) && r.width == t.width && r.height == t.height
    ensures r.cursorX == 0
  {
    Index(t.(cursorX := 0))
  }

  /** Deferred wrap: a full row leaves the cursor past the last column, and the next glyph wraps. */
  function PrintRune(t: Term, rune: char, cellWidth: nat): (r: Term)
    requires Legal(t)
    ensures Legal(r)
  {
    if cellWidth == 0 then t
    else
      var a := if t.cursorX >= t.width then NewLine(t) else t;
      if cellWidth > a.width then a
      else
        var c := if a.cursorX + cellWidth > a.width then NewLine(a) else a;
        PlaceGlyph(c, rune, cellWidth)
  }

  function PlaceGlyph(t: Term, rune: char, cellWidth: nat): (r: Term)
    requires Legal(t) && cellWidth >= 1 && t.cursorX + cellWidth <= t.width
    ensures Legal(r)
  {
    WithActive(t, WriteCell(Active(t), t.cursorX, t.cursorY, rune, cellWidth))
    .(cursorX := Min(t.cursorX + cellWidth, t.width))
  }

  function TabStop(t: Term): int {
    Min((t.cursorX / TAB_WIDTH + 1) * TAB_WIDTH, t.width)
  }

  /** `count` spaces. */
  function PrintSpaces(t: Term, count: nat): (r: Term)
    requires Legal(t)
    ensures Legal(r)
    decreases count
  {
    if count == 0 then t
    else
      PrintRune(PrintSpaces(t, count - 1), ' ', 1)
  }

  function Control(t: Term, control: char): (r: Term)
    requires Legal(t)
    ensures Legal(r)
  {
    if control == '\U{08}' then (if t.cursorX > 0 then t.(cursorX := t.cursorX - 1) else t)
    else if control == '\t' then PrintSpaces(t, Max(0, TabStop(t) - t.cursorX))
    else if control == '\n' || control == '\U{0B}' || control == '\U{0C}' then NewLine(t)
    else if control == '\r' then t.(cursorX := 0)
    else t
  }

  function Escape(t: Term, final: char): (r: Term)
    requires Legal(t)
    ensures Legal(r)
  {
    match final
    case '7' => SaveCursor(t)
    case '8' => RestoreCursor(t)
    case 'D' => Index(t)
    case 'E' => Index(t.(cursorX := 0))
    case 'M' => ReverseIndex(t)
    case 'c' => New(t.width, t.height)
    case _ => t
  }

  function ParamOrDefault(params: Params, i: nat, default: int): int {
    if i < |params| && params[i].Some? then params[i].value else default
  }

  function EnterAlt(t: Term): (r: Term)
    requires Legal(t)
    ensures Legal(r)
  {
    if t.useAlt then t
    else
      SaveCursor(t).(useAlt := true, alt := BlankGrid(t.width, t.height), cursorX := 0, cursorY := 0,
                     scrollTop := 0, scrollBottom := t.height - 1)
  }

  function LeaveAlt(t: Term): (r: Term)
    requires Legal(t)
    ensures Legal(r)
  {
    if !t.useAlt then t
    else RestoreCursor(t.(useAlt := false)).(scrollTop := 0, scrollBottom := t.height - 1)
  }

  function SetMode(t: Term, mode: int, on: bool): (r: Term)
    requires Legal(t)
    ensures Legal(r)
  {
    if mode == 25 then t.(showCursor := on)
    else if mode == 47 || mode == 1047 || mode == 1049 then (if on then EnterAlt(t) else LeaveAlt(t))
    else t
  }

  function SetModes(t: Term, params: Params, on: bool): (r: Term)
    requires Legal(t)
    ensures Legal(r)
    decreases |params|
  {
    if params == [] then t
    else
      var last := |params| - 1;
      SetMode(SetModes(t, params[..last], on), ParamOrDefault(params, last, 0), on)
  }

  function SetScrollRegion(t: Term, params: Params): (r: Term)
    requires Legal(t)
    ensures Legal(r)
  {
    var top := ParamOrDefault(params, 0, 1) - 1;
    var bottom := ParamOrDefault(params, 1, t.height) - 1;
    if top < 0 || bottom < top || bottom >= t.height then t.(scrollTop := 0, scrollBottom := t.height - 1)
    else MoveCursor(t.(scrollTop := top, scrollBottom := bottom), 0, 0)
  }

  function EraseCharacters(t: Term, count: int): (r: Term)
    requires Legal(t)
    ensures Legal(r)
  {
    var to := Min(t.width, t.cursorX + if count <= 0 then 1 else count);
    WithActive(t, EraseCells(Active(t), t.cursorY, t.cursorX, to))
  }

  function EraseLine(t: Term, mode: int): (r: Term)
    requires Legal(t)
    ensures Legal(r)
  {
    var from := if mode == 1 || mode == 2 then 0 else t.cursorX;
    var to := if mode == 1 then Min(t.cursorX + 1, t.width) else t.width;
    WithActive(t, EraseCells(Active(t), t.cursorY, from, to))
  }

  function EraseDisplay(t: Term, mode: int): (r: Term)
    requires Legal(t)
    ensures Legal(r)
  {
    if mode == 1 then
      EraseLine(WithActive(t, EraseRows(Active(t), 0, t.cursorY, t.width)), 1)
    else if mode == 2 || mode == 3 then
      MoveCursor(WithActive(t, BlankGrid(t.width, t.height)), 0, 0)
    else
      EraseLine(WithActive(t, EraseRows(Active(t), t.cursorY + 1, t.height, t.width)), 0)
  }

  predicate IsMotion(final: char) {
    final in {'A', 'B', 'C', 'D', 'E', 'F', 'G', 'H', 'f'}
  }

  function Motion(t: Term, final: char, params: Params): (r: Term)
    requires Legal(t)
    ensures Legal(r)
  {
    var n := ParamOrDefault(params, 0, 1);
    match final
    case 'A' => t.(cursorY := Clamp(t.cursorY - n, 0, t.height - 1))
    case 'B' => t.(cursorY := Clamp(t.cursorY + n, 0, t.height - 1))
    case 'C' => t.(cursorX := Clamp(t.cursorX + n, 0, t.width - 1))
    case 'D' => t.(cursorX := Clamp(t.cursorX - n, 0, t.width - 1))
    case 'E' => t.(cursorY := Clamp(t.cursorY + n, 0, t.height - 1), cursorX := 0)
    case 'F' => t.(cursorY := Clamp(t.cursorY - n, 0, t.height - 1), cursorX := 0)
    case 'G' => t.(cursorX := Clamp(n - 1, 0, t.width - 1))
    case _ => MoveCursor(t, ParamOrDefault(params, 1, 1) - 1, n - 1)
  }

  predicate IsEdit(final: char) {
    final in {'L', 'M', '@', 'P'}
  }

  function Edit(t: Term, final: char, n: int): (r: Term)
    requires Legal(t)
    ensures Legal(r)
  {
    match final
    case 'L' => WithActive(t, InsertLines(Active(t), t.cursorY, n, t.scrollTop, t.scrollBottom, t.width))
    case 'M' => WithActive(t, DeleteLines(Active(t), t.cursorY, n, t.scrollTop, t.scrollBottom, t.width))
    case '@' => WithActive(t, InsertCells(Active(t), t.cursorX, t.cursorY, n))
    case _ => WithActive(t, DeleteCells(Active(t), t.cursorX, t.cursorY, n))
  }

  /** Style changes (`m`) and unknown sequences leave the modelled state alone. */
  function ControlSequence(t: Term, prefix: char, final: char, params: Params): (r: Term)
    requires Legal(t)
    ensures Legal(r)
  {
    if IsMotion(final) then Motion(t, final, params)
    else if IsEdit(final) then Edit(t, final, ParamOrDefault(params, 0, 1))
    else
      match final
      case 'J' => EraseDisplay(t, ParamOrDefault(params, 0, 0))
      case 'K' => EraseLine(t, ParamOrDefault(params, 0, 0))
      case 'X' => EraseCharacters(t, ParamOrDefault(params, 0, 1))
      case 'S' => ScrollUp(t, ParamOrDefault(params, 0, 1))
      case 'T' => ScrollDown(t, ParamOrDefault(params, 0, 1))
      case 's' => SaveCursor(t)
      case 'u' => RestoreCursor(t)
      case 'r' => SetScrollRegion(t, params)
      case 'h' => if prefix == '?' then SetModes(t, params, true) else t
      case 'l' => if prefix == '?' then SetModes(t, params, false) else t
      case _ => t
  }

  function Step(t: Term, op: Op): (r: Term)
    requires Legal(t)
    ensures Legal(r)
  {
    match op
    case Print(rune, cellWidth) => PrintRune(t, rune, cellWidth)
    case Execute(control) => Control(t, control)
    case Esc(final) => Escape(t, final)
    case Csi(prefix, final, params) => ControlSequence(t, prefix, final, params)
    case Resize(width, height) => ResizeTo(t, width, height)
  }

  /** A whole session of operations on a fresh terminal. */
  function Run(width: int, height: int, ops: seq<Op>): (r: Term)
    ensures Legal(r)
  {
    if ops == [] then New(width, height)
    else Step(Run(width, height, ops[..|ops| - 1]), ops[|ops| - 1])
  }
}
