/**
  * The character grid behind the serial console: a flat cell vector, a cursor and a pen.
  *
  * The object that updates them in place is proved against the operations on a plain screen
  * value, and the laws are about those: the cursor stays on the screen in every run, what
  * scrolling, tabs, moves, erasing and resizing leave in each cell, what a saved cursor
  * comes back to, and that the rendered runs of a line show each cell in its own style.
  */
module TerminalScreen {
  import opened ByteCodec

  /** `ch` and `low` are UTF-16 code units; `low` is zero unless the cell holds a surrogate pair. */
  datatype Cell = Cell(ch: u16, low: u16, fg: bv8, bg: bv8, attrs: bv8)

  const BLANK := Cell(0x20, 0, 0xFF, 0xFF, 0)

  type Grid = seq<seq<Cell>>

  // ----- The screen as a two-dimensional grid -----

  datatype Cursor = Cursor(row: int, column: int)

  datatype View = View(rows: int, columns: int, grid: Grid, cursor: Cursor, saved: Cursor, pen: Cell)

  predicate Shaped(g: Grid, rows: int, columns: int) {
    |g| == rows && forall r :: 0 <= r < |g| ==> |g[r]| == columns
  }

  /** The cursor may sit one past the last column: the next character is written over the last one. */
  predicate InBounds(v: View) {
    && 0 < v.rows && 0 < v.columns
    && Shaped(v.grid, v.rows, v.columns)
    && 0 <= v.cursor.row < v.rows
    && 0 <= v.cursor.column <= v.columns
  }

  datatype Op =
    | Put(fragment: seq<u16>)
    | SetCursor(row: int, column: int)
    | MoveCursor(rowDelta: int, columnDelta: int)
    | CarriageReturn
    | LineFeed
    | Backspace
    | Tab
    | EraseInLine(mode: int)
    | EraseInDisplay(mode: int)
    | ResetAttributes
    | SetFg(index: bv8)
    | SetBg(index: bv8)
    | SetAttr(bit: bv8, on: bool)
    | SaveCursor
    | RestoreCursor
    | Clear
    | Resize(rows: int, columns: int)

  function Clamp(x: int, top: int): int {
    if x < 0 then 0 else if x > top then top else x
  }

  function Clamped(v: View, row: int, column: int): Cursor {
    Cursor(Clamp(row, v.rows - 1), Clamp(column, v.columns - 1))
  }

  function BlankRow(columns: int): (row: seq<Cell>)
    requires 0 <= columns
    ensures |row| == columns && forall c :: 0 <= c < columns ==> row[c] == BLANK
  {
    seq(columns, _ => BLANK)
  }

  function WithCell(g: Grid, r: int, c: int, cell: Cell): (g2: Grid)
    requires 0 <= r < |g| && 0 <= c < |g[r]|
    ensures |g2| == |g| && forall i :: 0 <= i < |g| ==> |g2[i]| == |g[i]|
  {
    g[r := g[r][c := cell]]
  }

  /** Reading order of the screen. */
  predicate Before(r: int, c: int, row: int, column: int) {
    r < row || (r == row && c < column)
  }

  function ErasedCell(g: Grid, r: int, c: int, from: Cursor, to: Cursor): Cell
    requires 0 <= r < |g| && 0 <= c < |g[r]|
  {
    if !Before(r, c, from.row, from.column) && Before(r, c, to.row, to.column) then BLANK else g[r][c]
  }

  function ErasedRow(g: Grid, r: int, from: Cursor, to: Cursor): (row: seq<Cell>)
    requires 0 <= r < |g|
    ensures |row| == |g[r]|
    ensures forall c :: 0 <= c < |row| ==> row[c] == ErasedCell(g, r, c, from, to)
  {
    seq(|g[r]|, c requires 0 <= c < |g[r]| => ErasedCell(g, r, c, from, to))
  }

  /** Blanks everything from `from` up to but not including `to`, in reading order. */
  function Erased(g: Grid, from: Cursor, to: Cursor): (g2: Grid)
    ensures |g2| == |g| && forall r :: 0 <= r < |g| ==> g2[r] == ErasedRow(g, r, from, to)
  {
    seq(|g|, r requires 0 <= r < |g| => ErasedRow(g, r, from, to))
  }

  function Scrolled(g: Grid, columns: int): Grid
    requires 0 < |g| && 0 <= columns
  {
    g[1..] + [BlankRow(columns)]
  }

  function ResizedRow(g: Grid, r: int, columns: int): (row: seq<Cell>)
    requires 0 <= r && 0 <= columns
    ensures |row| == columns
    ensures forall c :: 0 <= c < columns ==> row[c] == if r < |g| && c < |g[r]| then g[r][c] else BLANK
  {
    seq(columns, c requires 0 <= c < columns => if r < |g| && c < |g[r]| then g[r][c] else BLANK)
  }

  function Resized(g: Grid, rows: int, columns: int): (g2: Grid)
    requires 0 <= rows && 0 <= columns
    ensures |g2| == rows && forall r :: 0 <= r < rows ==> g2[r] == ResizedRow(g, r, columns)
  {
    seq(rows, r requires 0 <= r < rows => ResizedRow(g, r, columns))
  }

  predicate HighSurrogate(u: u16) { 0xD800 <= u <= 0xDBFF }
  predicate LowSurrogate(u: u16) { 0xDC00 <= u <= 0xDFFF }

  function Glyph(pen: Cell, fragment: seq<u16>): Cell
    requires fragment != []
  {
    pen.(ch := fragment[0],
         low := if |fragment| >= 2 && HighSurrogate(fragment[0]) && LowSurrogate(fragment[1]) then fragment[1] else 0)
  }

  /** Where a character lands: the last column once the cursor has run past it. */
  function PutColumn(v: View): int {
    if v.cursor.column >= v.columns then v.columns - 1 else v.cursor.column
  }

  function TabStop(column: int, columns: int): int {
    var next := (column / 8 + 1) * 8;
    if next >= columns then columns - 1 else next
  }

  function LineErased(v: View, mode: int): Grid {
    var row := v.cursor.row;
    if mode == 0 then Erased(v.grid, v.cursor, Cursor(row + 1, 0))
    else if mode == 1 then Erased(v.grid, Cursor(row, 0), Cursor(row, v.cursor.column + 1))
    else if mode == 2 then Erased(v.grid, Cursor(row, 0), Cursor(row + 1, 0))
    else v.grid
  }

  function DisplayErased(v: View, mode: int): Grid {
    if mode == 0 then Erased(v.grid, v.cursor, Cursor(v.rows, 0))
    else if mode == 1 then Erased(v.grid, Cursor(0, 0), Cursor(v.cursor.row, v.cursor.column + 1))
    else Erased(v.grid, Cursor(0, 0), Cursor(v.rows, 0))
  }

  function WithAttr(attrs: bv8, bit: bv8, on: bool): bv8 {
    if on then attrs | bit else attrs & !bit
  }

  function Do(v: View, op: Op): View
    requires InBounds(v)
  {
    match op
    case Put(fragment) =>
      if fragment == [] then v
      else v.(grid := WithCell(v.grid, v.cursor.row, PutColumn(v), Glyph(v.pen, fragment)),
              cursor := Cursor(v.cursor.row, PutColumn(v) + 1))
    case SetCursor(row, column) => v.(cursor := Clamped(v, row, column))
    case MoveCursor(dr, dc) => v.(cursor := Clamped(v, v.cursor.row + dr, v.cursor.column + dc))
    case CarriageReturn => v.(cursor := Cursor(v.cursor.row, 0))
    case LineFeed =>
      if v.cursor.row + 1 >= v.rows then v.(grid := Scrolled(v.grid, v.columns))
      else v.(cursor := Cursor(v.cursor.row + 1, v.cursor.column))
    case Backspace => if v.cursor.column > 0 then v.(cursor := Cursor(v.cursor.row, v.cursor.column - 1)) else v
    case Tab => v.(cursor := Cursor(v.cursor.row, TabStop(v.cursor.column, v.columns)))
    case EraseInLine(mode) => v.(grid := LineErased(v, mode))
    case EraseInDisplay(mode) => v.(grid := DisplayErased(v, mode))
    case ResetAttributes => v.(pen := BLANK)
    case SetFg(index) => v.(pen := v.pen.(fg := index))
    case SetBg(index) => v.(pen := v.pen.(bg := index))
    case SetAttr(bit, on) => v.(pen := v.pen.(attrs := WithAttr(v.pen.attrs, bit, on)))
    case SaveCursor => v.(saved := v.cursor)
    case RestoreCursor => v.(cursor := Clamped(v, v.saved.row, v.saved.column))
    case Clear => v.(grid := Erased(v.grid, Cursor(0, 0), Cursor(v.rows, 0)), cursor := Cursor(0, 0), pen := BLANK)
    case Resize(rows, columns) =>
      if rows <= 0 || columns <= 0 || (rows == v.rows && columns == v.columns) then v
      else
        View(rows, columns, Resized(v.grid, rows, columns),
             Cursor(Clamp(v.cursor.row, rows - 1), Clamp(v.cursor.column, columns - 1)), v.saved, v.pen)
  }

  // ----- Every sequence of operations -----

  lemma DoKeepsBounds(v: View, op: Op)
    requires InBounds(v)
    ensures InBounds(Do(v, op))
  {
    if op.Tab? {
      assert v.cursor.column / 8 >= 0;
    }
  }

  function Run(v: View, ops: seq<Op>): (w: View)
    requires InBounds(v)
    ensures InBounds(w)
    decreases |ops|
  {
    if ops == [] then v else DoKeepsBounds(v, ops[0]); Run(Do(v, ops[0]), ops[1..])
  }

  // ----- Erasing -----

  /** Erasing two adjoining stretches erases their union. */
  lemma ErasedJoins(g: Grid, a: Cursor, b: Cursor, c: Cursor)
    requires !Before(b.row, b.column, a.row, a.column) && !Before(c.row, c.column, b.row, b.column)
    ensures Erased(Erased(g, a, b), b, c) == Erased(g, a, c)
  {
    forall r | 0 <= r < |g|
      ensures ErasedRow(Erased(g, a, b), r, b, c) == ErasedRow(g, r, a, c)
    {
    }
  }

  /** Erasing to the end and then from the start, or the other way round, leaves a blank screen. */
  lemma EraseBothWaysBlanks(v: View, first: int)
    requires InBounds(v) && 0 <= first <= 1
    ensures Run(v, [EraseInDisplay(first), EraseInDisplay(1 - first)]) == Do(v, EraseInDisplay(2))
    ensures Do(v, EraseInDisplay(2)).grid == Resized([], v.rows, v.columns)
  {
    var mid := Do(v, EraseInDisplay(first));
    var end := Do(mid, EraseInDisplay(1 - first));
    forall r | 0 <= r < v.rows
      ensures end.grid[r] == Do(v, EraseInDisplay(2)).grid[r] == ResizedRow([], r, v.columns)
    {
    }
    assert [EraseInDisplay(first), EraseInDisplay(1 - first)][1..] == [EraseInDisplay(1 - first)];
    assert Run(mid, [EraseInDisplay(1 - first)]) == end;
  }

  /** The same within the cursor's line, and no other line is touched. */
  lemma EraseLineBothWaysBlanks(v: View, first: int)
    requires InBounds(v) && 0 <= first <= 1
    ensures var w := Run(v, [EraseInLine(first), EraseInLine(1 - first)]);
            && w == Do(v, EraseInLine(2))
            && w.grid == v.grid[v.cursor.row := BlankRow(v.columns)]
  {
    var mid := Do(v, EraseInLine(first));
    var end := Do(mid, EraseInLine(1 - first));
    forall r | 0 <= r < v.rows
      ensures end.grid[r] == Do(v, EraseInLine(2)).grid[r] == v.grid[v.cursor.row := BlankRow(v.columns)][r]
    {
    }
    assert [EraseInLine(first), EraseInLine(1 - first)][1..] == [EraseInLine(1 - first)];
    assert Run(mid, [EraseInLine(1 - first)]) == end;
  }

  /** Which half each mode erases: 0 from the cursor on, 1 up to and with the cursor; the other half stays. */
  lemma EraseLeavesTheRest(v: View, r: int, c: int)
    requires InBounds(v) && 0 <= r < v.rows && 0 <= c < v.columns
    ensures var before := r < v.cursor.row || (r == v.cursor.row && c < v.cursor.column);
            Do(v, EraseInDisplay(0)).grid[r][c] == if before then v.grid[r][c] else BLANK
    ensures var after := r > v.cursor.row || (r == v.cursor.row && c > v.cursor.column);
            Do(v, EraseInDisplay(1)).grid[r][c] == if after then v.grid[r][c] else BLANK
    ensures Do(v, EraseInLine(0)).grid[r][c] == if r == v.cursor.row && c >= v.cursor.column then BLANK else v.grid[r][c]
    ensures Do(v, EraseInLine(1)).grid[r][c] == if r == v.cursor.row && c <= v.cursor.column then BLANK else v.grid[r][c]
  {
  }

  // ----- Resizing -----

  predicate BlankOutside(g: Grid, rows: int, columns: int) {
    forall r, c :: 0 <= r < |g| && 0 <= c < |g[r]| && (r >= rows || c >= columns) ==> g[r][c] == BLANK
  }

  /** Resizing and going back loses exactly what lay outside the smaller screen. */
  lemma ResizeAndBack(g: Grid, rows: int, columns: int, newRows: int, newColumns: int)
    requires 0 < rows && 0 < columns && 0 < newRows && 0 < newColumns
    requires Shaped(g, rows, columns)
    ensures Resized(Resized(g, newRows, newColumns), rows, columns) == g <==> BlankOutside(g, newRows, newColumns)
  {
    var back := Resized(Resized(g, newRows, newColumns), rows, columns);
    forall r, c | 0 <= r < rows && 0 <= c < columns
      ensures back[r][c] == if r < newRows && c < newColumns then g[r][c] else BLANK
    {
    }
    if BlankOutside(g, newRows, newColumns) {
      forall r | 0 <= r < rows ensures back[r] == g[r] {
      }
    }
  }

  // ----- The saved cursor -----

  lemma {:induction false} SavedKept(v: View, ops: seq<Op>)
    requires InBounds(v) && forall i :: 0 <= i < |ops| ==> !ops[i].SaveCursor?
    ensures Run(v, ops).saved == v.saved
    decreases |ops|
  {
    if ops != [] {
      var mid := Do(v, ops[0]);
      assert mid.saved == v.saved;
      DoKeepsBounds(v, ops[0]);
      SavedKept(mid, ops[1..]);
    }
  }

  /**
    * Whatever happens in between, short of another save: the cursor is restored to where it
    * was saved if and only if that place is on the screen as it is then. The cursor may have
    * been past the last column when it was saved, or the screen may have shrunk since; then it
    * ends on the nearest cell.
    */
  lemma RestoreAfterSave(v: View, ops: seq<Op>)
    requires InBounds(v) && forall i :: 0 <= i < |ops| ==> !ops[i].SaveCursor?
    ensures var w := Run(Do(v, SaveCursor), ops);
            var c := Do(w, RestoreCursor).cursor;
            && (c == v.cursor <==> v.cursor.row < w.rows && v.cursor.column < w.columns)
            && c == Cursor(Min(v.cursor.row, w.rows - 1), Min(v.cursor.column, w.columns - 1))
  {
    SavedKept(Do(v, SaveCursor), ops);
    RestoredCursor(v, Run(Do(v, SaveCursor), ops));
  }

  lemma RestoredCursor(v: View, w: View)
    requires InBounds(v) && InBounds(w) && w.saved == v.cursor
    ensures var c := Do(w, RestoreCursor).cursor;
            && (c == v.cursor <==> v.cursor.row < w.rows && v.cursor.column < w.columns)
            && c == Cursor(Min(v.cursor.row, w.rows - 1), Min(v.cursor.column, w.columns - 1))
  {
  }

  /** A blank screen of the initial size with the cursor in the first line. */
  function Initial(column: int): View {
    View(24, 80, Resized([], 24, 80), Cursor(0, column), Cursor(0, 0), BLANK)
  }

  /** The two ways to miss: saved past the last column, and saved where a smaller screen has no column. */
  lemma RestoreMisses()
    ensures Do(Do(Initial(80), SaveCursor), RestoreCursor).cursor == Cursor(0, 79)
    ensures Run(Do(Initial(70), SaveCursor), [Op.Resize(24, 40), RestoreCursor]).cursor == Cursor(0, 39)
  {
    var v := Do(Initial(70), SaveCursor);
    var small := Do(v, Op.Resize(24, 40));
    assert [Op.Resize(24, 40), RestoreCursor][1..] == [RestoreCursor];
    DoKeepsBounds(v, Op.Resize(24, 40));
    assert Run(small, [RestoreCursor]) == Do(small, RestoreCursor);
  }

  // ----- Typing -----

  function Typing(text: seq<seq<u16>>): (ops: seq<Op>)
    ensures |ops| == |text| && forall i :: 0 <= i < |text| ==> ops[i] == Put(text[i])
  {
    seq(|text|, i requires 0 <= i < |text| => Put(text[i]))
  }

  /** What column `c` shows after `text` was typed from column `start` of a line that showed `before`. */
  function TypedCell(before: Cell, pen: Cell, text: seq<seq<u16>>, start: int, columns: int, c: int): Cell
    requires forall i :: 0 <= i < |text| ==> text[i] != []
  {
    if c == columns - 1 && start + |text| > c && text != [] then Glyph(pen, text[|text| - 1])
    else if start <= c < start + |text| then Glyph(pen, text[c - start])
    else before
  }

  /**
    * There is no line wrap: typed characters fill the cursor's line, those past the right
    * margin overwrite its last column, and no other line changes.
    */
  lemma {:induction false} TypingStaysOnTheLine(v: View, text: seq<seq<u16>>)
    requires InBounds(v)
    requires forall i :: 0 <= i < |text| ==> text[i] != []
    ensures var w := Run(v, Typing(text));
            var row := v.cursor.row;
            && w.cursor == Cursor(row, Min(v.cursor.column + |text|, v.columns))
            && w == v.(grid := w.grid, cursor := w.cursor)
            && w.grid == v.grid[row := w.grid[row]]
            && forall c :: 0 <= c < v.columns ==>
                 w.grid[row][c] == TypedCell(v.grid[row][c], v.pen, text, v.cursor.column, v.columns, c)
    decreases |text|
  {
    if text != [] {
      var mid := Do(v, Put(text[0]));
      DoKeepsBounds(v, Put(text[0]));
      assert Typing(text)[1..] == Typing(text[1..]);
      TypingStaysOnTheLine(mid, text[1..]);
      TypedCellStep(v, text);
    }
  }

  lemma TypedCellStep(v: View, text: seq<seq<u16>>)
    requires InBounds(v) && text != []
    requires forall i :: 0 <= i < |text| ==> text[i] != []
    ensures var mid := Do(v, Put(text[0])); var row := v.cursor.row;
            forall c :: 0 <= c < v.columns ==>
              TypedCell(mid.grid[row][c], v.pen, text[1..], mid.cursor.column, v.columns, c)
              == TypedCell(v.grid[row][c], v.pen, text, v.cursor.column, v.columns, c)
  {
  }

  // ----- Moving and scrolling -----

  function LineFeeds(n: nat): (ops: seq<Op>)
    ensures |ops| == n && forall i :: 0 <= i < n ==> ops[i] == LineFeed
  {
    seq(n, _ => LineFeed)
  }

  /** The grid with its first `k` lines gone and blank ones in their place at the bottom. */
  function Up(g: Grid, columns: int, k: nat): (g2: Grid)
    requires 0 <= columns
    ensures |g2| == |g| && forall i :: 0 <= i < |g| ==> g2[i] == if i + k < |g| then g[i + k] else BlankRow(columns)
  {
    seq(|g|, i requires 0 <= i < |g| => if i + k < |g| then g[i + k] else BlankRow(columns))
  }

  lemma UpOnce(g: Grid, columns: int, k: nat)
    requires 0 < |g| && 0 <= columns
    ensures Up(g, columns, 0) == g
    ensures Up(Scrolled(g, columns), columns, k) == Up(g, columns, k + 1)
  {
    var one, all := Up(Scrolled(g, columns), columns, k), Up(g, columns, k + 1);
    forall i | 0 <= i < |g| ensures one[i] == all[i] {
    }
  }

  /**
    * Any number of line feeds: the cursor goes down to the last line and stays there in its
    * column, and each one beyond that moves everything up by a line.
    */
  lemma {:induction false} LineFeedsScroll(v: View, n: nat)
    requires InBounds(v)
    ensures var w := Run(v, LineFeeds(n)); var room := v.rows - 1 - v.cursor.row;
            && w.cursor == Cursor(Min(v.cursor.row + n, v.rows - 1), v.cursor.column)
            && w == v.(grid := w.grid, cursor := w.cursor)
            && w.grid == Up(v.grid, v.columns, if n > room then n - room else 0)
    decreases n
  {
    UpOnce(v.grid, v.columns, 0);
    if n > 0 {
      var mid := Do(v, LineFeed);
      DoKeepsBounds(v, LineFeed);
      assert LineFeeds(n)[1..] == LineFeeds(n - 1);
      LineFeedsScroll(mid, n - 1);
      if v.cursor.row + 1 >= v.rows {
        UpOnce(v.grid, v.columns, n - 1);
      }
    }
  }

  /** `c` is as close to `x` as 0 to `top` allows. */
  predicate Nearest(c: int, x: int, top: int) {
    0 <= c <= top && (0 <= x <= top ==> c == x) && (x < 0 ==> c == 0) && (x > top ==> c == top)
  }

  /** Moves land on the cell named, or the nearest there is; nothing else changes. */
  lemma MovesLandNearest(v: View, dr: int, dc: int, row: int, column: int)
    requires InBounds(v)
    ensures var w := Do(v, MoveCursor(dr, dc));
            && w == v.(cursor := w.cursor)
            && Nearest(w.cursor.row, v.cursor.row + dr, v.rows - 1)
            && Nearest(w.cursor.column, v.cursor.column + dc, v.columns - 1)
    ensures var w := Do(v, SetCursor(row, column));
            && w == v.(cursor := w.cursor)
            && Nearest(w.cursor.row, row, v.rows - 1) && Nearest(w.cursor.column, column, v.columns - 1)
  {
  }

  /** A tab goes to the next multiple of eight, or to the last column if there is none. */
  lemma TabGoesToTheNextStop(v: View)
    requires InBounds(v)
    ensures var w := Do(v, Tab); var (c, t) := (v.cursor.column, w.cursor.column);
            && w == v.(cursor := Cursor(v.cursor.row, t))
            && if t % 8 == 0 && c < t <= c + 8 then t < v.columns
               else t == v.columns - 1 && forall m :: 0 <= m < v.columns && m % 8 == 0 ==> m <= c
  {
    var c := v.cursor.column;
    var stop := (c / 8 + 1) * 8;
    assert stop % 8 == 0 && c < stop <= c + 8;
    forall m | 0 <= m < v.columns && m % 8 == 0 && stop >= v.columns ensures m <= c {
      if m > c {
        NoStopBetween(c, m);
      }
    }
  }

  /** Between a column and its next stop there is no other. */
  lemma NoStopBetween(c: int, m: int)
    requires 0 <= c < m && m % 8 == 0
    ensures (c / 8 + 1) * 8 <= m
  {
    assert m == m / 8 * 8;
  }

  // ----- Rendering a line -----

  /** What a cell looks like: reverse video swaps the colours; 0xFF is the default colour. */
  datatype Style = Style(fg: bv8, bg: bv8, bold: bool, underline: bool)

  const PLAIN := Style(0xFF, 0xFF, false, false)

  function StyleOf(c: Cell): Style {
    var swap := c.attrs & 4 != 0;
    Style(if swap then c.bg else c.fg, if swap then c.fg else c.bg, c.attrs & 1 != 0, c.attrs & 2 != 0)
  }

  /** Setting an attribute shows in that attribute alone; reverse video swaps the colours. */
  lemma AttributesShow(v: View, on: bool)
    requires InBounds(v)
    ensures var was, bold := v.pen, Do(v, SetAttr(1, on)).pen;
            StyleOf(bold) == StyleOf(was).(bold := on) && bold == was.(attrs := bold.attrs)
    ensures var was, under := v.pen, Do(v, SetAttr(2, on)).pen;
            StyleOf(under) == StyleOf(was).(underline := on) && under == was.(attrs := under.attrs)
    ensures var was, rev := v.pen, Do(v, SetAttr(4, on)).pen;
            && rev == was.(attrs := rev.attrs)
            && StyleOf(rev) == StyleOf(was).(fg := if on then was.bg else was.fg, bg := if on then was.fg else was.bg)
  {
    BitSet(v.pen.attrs, on);
  }

  lemma BitSet(a: bv8, on: bool)
    ensures var b := WithAttr(a, 1, on); (b & 1 != 0) == on && b & 2 == a & 2 && b & 4 == a & 4
    ensures var b := WithAttr(a, 2, on); (b & 2 != 0) == on && b & 1 == a & 1 && b & 4 == a & 4
    ensures var b := WithAttr(a, 4, on); (b & 4 != 0) == on && b & 1 == a & 1 && b & 2 == a & 2
  {
  }

  /** A cell shows the character it was given, one unit or a surrogate pair, in the pen's colours. */
  lemma GlyphShows(pen: Cell, u: u16, high: u16, low: u16)
    requires 0xD800 <= high <= 0xDBFF && 0xDC00 <= low <= 0xDFFF
    ensures Glyph(pen, [u]).ch == u && Glyph(pen, [u]).low == 0 && StyleOf(Glyph(pen, [u])) == StyleOf(pen)
    ensures Glyph(pen, [high, low]).ch == high && Glyph(pen, [high, low]).low == low
    ensures StyleOf(Glyph(pen, [high, low])) == StyleOf(pen)
  {
  }

  /** Rich text: a span of one style opens, characters, the span closes. */
  datatype Token = Open(style: Style) | Text(ch: u16, low: u16) | Close

  function TextOf(run: seq<Cell>): (t: seq<Token>)
    ensures |t| == |run|
  {
    seq(|run|, i requires 0 <= i < |run| => Text(run[i].ch, run[i].low))
  }

  function RunHtml(run: seq<Cell>): seq<Token>
    requires run != []
  {
    var style := StyleOf(run[0]);
    if style == PLAIN then TextOf(run) else [Open(style)] + TextOf(run) + [Close]
  }

  predicate Alike(x: Cell, y: Cell) {
    x.fg == y.fg && x.bg == y.bg && x.attrs == y.attrs
  }

  predicate NonEmpty(runs: seq<seq<Cell>>) {
    forall k :: 0 <= k < |runs| ==> runs[k] != []
  }

  function Html(runs: seq<seq<Cell>>): seq<Token>
    requires NonEmpty(runs)
  {
    if runs == [] then [] else RunHtml(runs[0]) + Html(runs[1..])
  }

  lemma HtmlFirst(run: seq<Cell>, rest: seq<seq<Cell>>)
    requires run != [] && NonEmpty(rest)
    ensures Html([run] + rest) == RunHtml(run) + Html(rest)
  {
    assert ([run] + rest)[1..] == rest;
  }

  function RunsFrom(line: seq<Cell>, start: int, i: int): (runs: seq<seq<Cell>>)
    requires 0 <= start < i <= |line|
    ensures NonEmpty(runs)
    decreases |line| - i
  {
    if i == |line| then [line[start..]]
    else if Alike(line[start], line[i]) then RunsFrom(line, start, i + 1)
    else [line[start..i]] + RunsFrom(line, i, i + 1)
  }

  /** What is still to be written when the scan has reached cell `i` of a run begun at `start`. */
  function HtmlFrom(line: seq<Cell>, start: int, i: int): seq<Token>
    requires 0 <= start < i <= |line|
  {
    Html(RunsFrom(line, start, i))
  }

  lemma HtmlFromStep(line: seq<Cell>, start: int, i: int)
    requires 0 <= start < i <= |line|
    ensures HtmlFrom(line, start, i)
            == if i == |line| then RunHtml(line[start..])
               else if Alike(line[start], line[i]) then HtmlFrom(line, start, i + 1)
               else RunHtml(line[start..i]) + HtmlFrom(line, i, i + 1)
  {
    if i == |line| {
      HtmlFirst(line[start..], []);
      assert RunsFrom(line, start, i) == [line[start..]] + [];
    } else if !Alike(line[start], line[i]) {
      HtmlFirst(line[start..i], RunsFrom(line, i, i + 1));
    }
  }

  function Runs(line: seq<Cell>): (runs: seq<seq<Cell>>)
    ensures NonEmpty(runs)
  {
    if line == [] then [] else RunsFrom(line, 0, 1)
  }

  predicate Uniform(run: seq<Cell>) {
    run != [] && forall i :: 0 <= i < |run| ==> Alike(run[0], run[i])
  }

  /** Runs of one style each that cannot be made longer. */
  predicate Maximal(runs: seq<seq<Cell>>) {
    && (forall k :: 0 <= k < |runs| ==> Uniform(runs[k]))
    && (forall k :: 1 <= k < |runs| ==> !Alike(runs[k - 1][0], runs[k][0]))
  }

  lemma OneRunMore(run: seq<Cell>, rest: seq<seq<Cell>>)
    requires Uniform(run) && Maximal(rest)
    requires rest != [] ==> !Alike(run[0], rest[0][0])
    ensures Maximal([run] + rest) && Flat([run] + rest) == run + Flat(rest)
  {
    assert ([run] + rest)[1..] == rest;
  }

  lemma UniformGrows(line: seq<Cell>, start: int, i: int)
    requires 0 <= start < i < |line| && Uniform(line[start..i]) && Alike(line[start], line[i])
    ensures Uniform(line[start..i + 1])
  {
    assert line[start..i + 1] == line[start..i] + [line[i]];
  }

  lemma {:induction false} RunsFromSplit(line: seq<Cell>, start: int, i: int)
    requires 0 <= start < i <= |line| && Uniform(line[start..i])
    ensures var runs := RunsFrom(line, start, i);
            && Maximal(runs) && Flat(runs) == line[start..]
            && runs != [] && runs[0][0] == line[start]
    decreases |line| - i
  {
    if i == |line| {
      OneRunMore(line[start..], []);
      assert [line[start..]] + [] == [line[start..]];
    } else if Alike(line[start], line[i]) {
      UniformGrows(line, start, i);
      RunsFromSplit(line, start, i + 1);
    } else {
      var rest := RunsFrom(line, i, i + 1);
      RunsFromSplit(line, i, i + 1);
      OneRunMore(line[start..i], rest);
      assert line[start..] == line[start..i] + line[i..];
    }
  }

  /** The runs split the line into maximal stretches of one style... */
  lemma RunsSplitTheLine(line: seq<Cell>)
    ensures Flat(Runs(line)) == line && Maximal(Runs(line))
  {
    if line != [] {
      RunsFromSplit(line, 0, 1);
    }
  }

  /** The first maximal run of a line can be told from the line alone. */
  lemma FirstRunEnds(runs: seq<seq<Cell>>)
    requires Maximal(runs) && runs != []
    ensures var line, n := Flat(runs), |runs[0]|;
            && 0 < n <= |line| && line[..n] == runs[0] && line[n..] == Flat(runs[1..])
            && (forall i :: 0 <= i < n ==> Alike(line[0], line[i]))
            && (n < |line| ==> !Alike(line[0], line[n]))
  {
    if |runs| > 1 {
      assert Flat(runs[1..])[0] == runs[1][0];
    }
  }

  /** ...and there is only one such split. */
  lemma {:induction false} SplitIsUnique(a: seq<seq<Cell>>, b: seq<seq<Cell>>)
    requires Maximal(a) && Maximal(b) && Flat(a) == Flat(b)
    ensures a == b
  {
    if a != [] && b != [] {
      FirstRunEnds(a);
      FirstRunEnds(b);
      SplitIsUnique(a[1..], b[1..]);
      assert a == [a[0]] + a[1..] && b == [b[0]] + b[1..];
    }
  }

  lemma Flushed(line: seq<Cell>, start: int, i: int, out: seq<Token>, total: seq<Token>)
    requires 0 <= start < i <= |line| && total == out + HtmlFrom(line, start, i)
    ensures i == |line| ==> total == out + RunHtml(line[start..])
    ensures i < |line| && Alike(line[start], line[i]) ==> total == out + HtmlFrom(line, start, i + 1)
    ensures i < |line| && !Alike(line[start], line[i]) ==>
              total == (out + RunHtml(line[start..i])) + HtmlFrom(line, i, i + 1)
  {
    HtmlFromStep(line, start, i);
    if i < |line| {
      Regroup(out, RunHtml(line[start..i]), HtmlFrom(line, i, i + 1));
    }
  }

  /** The line is scanned cell by cell; each change of style flushes the run before it. */
  method RenderLine(line: seq<Cell>) returns (out: seq<Token>)
    requires line != []
    ensures out == Html(Runs(line))
  {
    out := [];
    var runStart := 0;
    ghost var total := HtmlFrom(line, 0, 1);
    assert total == [] + total;
    for i := 1 to |line|
      invariant 0 <= runStart < i
      invariant total == out + HtmlFrom(line, runStart, i)
    {
      Flushed(line, runStart, i, out, total);
      if !Alike(line[runStart], line[i]) {
        out := out + RunHtml(line[runStart..i]);
        runStart := i;
      }
    }
    Flushed(line, runStart, |line|, out, total);
    out := out + RunHtml(line[runStart..]);
  }

  /** What a reader of the rich text sees, character by character. */
  function Seen(html: seq<Token>, style: Style): seq<(Style, u16, u16)> {
    if html == [] then []
    else match html[0]
      case Open(s) => Seen(html[1..], s)
      case Close => Seen(html[1..], PLAIN)
      case Text(ch, low) => [(style, ch, low)] + Seen(html[1..], style)
  }

  function Looks(line: seq<Cell>): (l: seq<(Style, u16, u16)>)
    ensures |l| == |line|
  {
    seq(|line|, i requires 0 <= i < |line| => (StyleOf(line[i]), line[i].ch, line[i].low))
  }

  lemma {:induction false} SeenText(run: seq<Cell>, style: Style, rest: seq<Token>)
    requires forall i :: 0 <= i < |run| ==> StyleOf(run[i]) == style
    ensures Seen(TextOf(run) + rest, style) == Looks(run) + Seen(rest, style)
    decreases |run|
  {
    var all := TextOf(run) + rest;
    if run == [] {
      assert all == rest;
    } else {
      assert all[1..] == TextOf(run[1..]) + rest;
      SeenText(run[1..], style, rest);
      assert Looks(run) == [Looks(run)[0]] + Looks(run[1..]);
    }
  }

  lemma SeenSpan(run: seq<Cell>, style: Style, rest: seq<Token>)
    requires forall i :: 0 <= i < |run| ==> StyleOf(run[i]) == style
    ensures Seen([Open(style)] + TextOf(run) + [Close] + rest, PLAIN) == Looks(run) + Seen(rest, PLAIN)
  {
    var tail := [Close] + rest;
    SeenText(run, style, tail);
    assert ([Open(style)] + TextOf(run) + [Close] + rest)[1..] == TextOf(run) + tail;
    assert tail[1..] == rest;
  }

  lemma AlikeLooks(run: seq<Cell>)
    requires Uniform(run)
    ensures forall i :: 0 <= i < |run| ==> StyleOf(run[i]) == StyleOf(run[0])
  {
  }

  lemma SeenRun(run: seq<Cell>, rest: seq<Token>)
    requires Uniform(run)
    ensures Seen(RunHtml(run) + rest, PLAIN) == Looks(run) + Seen(rest, PLAIN)
  {
    AlikeLooks(run);
    var style := StyleOf(run[0]);
    if style == PLAIN {
      SeenText(run, PLAIN, rest);
    } else {
      SeenSpan(run, style, rest);
    }
  }

  lemma LooksAppend(a: seq<Cell>, b: seq<Cell>)
    ensures Looks(a + b) == Looks(a) + Looks(b)
  {
  }

  lemma {:induction false} SeenRuns(runs: seq<seq<Cell>>)
    requires Maximal(runs)
    ensures Seen(Html(runs), PLAIN) == Looks(Flat(runs))
  {
    if runs != [] {
      SeenRun(runs[0], Html(runs[1..]));
      SeenRuns(runs[1..]);
      LooksAppend(runs[0], Flat(runs[1..]));
    }
  }

  /** The rendered line shows every cell of the row, in order, in that cell's own style. */
  lemma RenderingShowsTheLine(line: seq<Cell>)
    ensures Seen(Html(Runs(line)), PLAIN) == Looks(line)
  {
    RunsSplitTheLine(line);
    SeenRuns(Runs(line));
  }

  // ----- The flat vector -----

  predicate Sized(cells: seq<Cell>, rows: int, columns: int) {
    0 < rows && 0 < columns && |cells| == rows * columns
  }

  lemma Fits(rows: int, columns: int, r: int)
    requires 0 <= r < rows && 0 < columns
    ensures 0 <= r * columns && r * columns + columns <= rows * columns
  {
    assert rows * columns - (r + 1) * columns == (rows - r - 1) * columns >= 0;
  }

  function RowAt(cells: seq<Cell>, rows: int, columns: int, r: int): (row: seq<Cell>)
    requires Sized(cells, rows, columns) && 0 <= r < rows
    ensures |row| == columns
  {
    Fits(rows, columns, r);
    cells[r * columns..r * columns + columns]
  }

  function GridOf(cells: seq<Cell>, rows: int, columns: int): (g: Grid)
    requires Sized(cells, rows, columns)
    ensures Shaped(g, rows, columns)
    ensures forall r :: 0 <= r < rows ==> g[r] == RowAt(cells, rows, columns, r)
  {
    seq(rows, r requires 0 <= r < rows => RowAt(cells, rows, columns, r))
  }

  lemma RowsApart(columns: int, r: int, s: int)
    requires 0 < columns && r < s
    ensures r * columns + columns <= s * columns
  {
    assert s * columns - (r + 1) * columns == (s - r - 1) * columns >= 0;
  }

  /** Writing one slot of the vector is writing one cell of the grid. */
  lemma PutInGrid(cells: seq<Cell>, rows: int, columns: int, r: int, c: int, cell: Cell)
    requires Sized(cells, rows, columns) && 0 <= r < rows && 0 <= c < columns
    ensures 0 <= r * columns + c < |cells|
    ensures GridOf(cells[r * columns + c := cell], rows, columns) == WithCell(GridOf(cells, rows, columns), r, c, cell)
    ensures cells[r * columns + c] == GridOf(cells, rows, columns)[r][c]
  {
    Fits(rows, columns, r);
    var put := cells[r * columns + c := cell];
    var want := WithCell(GridOf(cells, rows, columns), r, c, cell);
    forall s | 0 <= s < rows ensures GridOf(put, rows, columns)[s] == want[s] {
      Fits(rows, columns, s);
      if s < r { RowsApart(columns, s, r); } else if r < s { RowsApart(columns, r, s); }
      assert RowAt(put, rows, columns, s) == want[s];
    }
  }

  /** A vector holding one cell throughout is a grid holding it throughout. */
  lemma UniformGrid(cells: seq<Cell>, rows: int, columns: int)
    requires Sized(cells, rows, columns) && forall i :: 0 <= i < |cells| ==> cells[i] == BLANK
    ensures GridOf(cells, rows, columns) == Resized([], rows, columns)
  {
    forall r | 0 <= r < rows ensures GridOf(cells, rows, columns)[r] == ResizedRow([], r, columns) {
      Fits(rows, columns, r);
    }
  }

  lemma EraseOne(g: Grid, r: int, c: int)
    requires 0 <= r < |g| && 0 <= c < |g[r]|
    ensures WithCell(g, r, c, BLANK) == Erased(g, Cursor(r, c), Cursor(r, c + 1))
  {
    forall s | 0 <= s < |g| ensures WithCell(g, r, c, BLANK)[s] == ErasedRow(g, s, Cursor(r, c), Cursor(r, c + 1)) {
    }
  }

  /** Past the last column of a line is the start of the next. */
  lemma EraseToNextLine(g: Grid, columns: int, from: Cursor, r: int)
    requires Shaped(g, |g|, columns) && 0 <= columns
    ensures Erased(g, from, Cursor(r, columns)) == Erased(g, from, Cursor(r + 1, 0))
  {
    forall s | 0 <= s < |g| ensures ErasedRow(g, s, from, Cursor(r, columns)) == ErasedRow(g, s, from, Cursor(r + 1, 0)) {
    }
  }

  lemma EraseNothing(g: Grid, at: Cursor)
    ensures Erased(g, at, at) == g
  {
    forall s | 0 <= s < |g| ensures ErasedRow(g, s, at, at) == g[s] {
    }
  }

  class Screen {
    var rows: int
    var columns: int
    var cells: seq<Cell>
    var cursorRow: int
    var cursorColumn: int
    var savedRow: int
    var savedColumn: int
    var pen: Cell

    ghost predicate Valid()
      reads this
    {
      Sized(cells, rows, columns) && InBounds(Shown())
    }

    ghost function Shown(): View
      requires Sized(cells, rows, columns)
      reads this
    {
      View(rows, columns, GridOf(cells, rows, columns), Cursor(cursorRow, cursorColumn), Cursor(savedRow, savedColumn), pen)
    }

    ghost function Grid(): (g: Grid)
      requires Sized(cells, rows, columns)
      reads this`cells, this`rows, this`columns
      ensures Shaped(g, rows, columns)
    {
      GridOf(cells, rows, columns)
    }

    constructor ()
      ensures Valid()
      ensures Shown() == Initial(0)
    {
      rows, columns := 24, 80;
      cells := BlankRow(24 * 80);
      cursorRow, cursorColumn, savedRow, savedColumn, pen := 0, 0, 0, 0, BLANK;
      UniformGrid(BlankRow(24 * 80), 24, 80);
    }

    method SetCell(r: int, c: int, cell: Cell)
      requires Sized(cells, rows, columns) && 0 <= r < rows && 0 <= c < columns
      modifies this`cells
      ensures Sized(cells, rows, columns) && Grid() == WithCell(old(Grid()), r, c, cell)
    {
      PutInGrid(cells, rows, columns, r, c, cell);
      cells := cells[r * columns + c := cell];
    }

    method CellAt(r: int, c: int) returns (cell: Cell)
      requires Sized(cells, rows, columns)
      ensures cell == if 0 <= r < rows && 0 <= c < columns then Grid()[r][c] else BLANK
    {
      if r < 0 || r >= rows || c < 0 || c >= columns {
        return BLANK;
      }
      PutInGrid(cells, rows, columns, r, c, BLANK);
      cell := cells[r * columns + c];
    }

    method EraseSpan(r: int, from: int, to: int)
      requires Sized(cells, rows, columns) && 0 <= r < rows && 0 <= from <= to <= columns
      modifies this`cells
      ensures Sized(cells, rows, columns)
      ensures Grid() == Erased(old(Grid()), Cursor(r, from), Cursor(r, to))
    {
      EraseNothing(Grid(), Cursor(r, from));
      for c := from to to
        invariant Sized(cells, rows, columns)
        invariant Grid() == Erased(old(Grid()), Cursor(r, from), Cursor(r, c))
      {
        EraseOne(Grid(), r, c);
        ErasedJoins(old(Grid()), Cursor(r, from), Cursor(r, c), Cursor(r, c + 1));
        SetCell(r, c, BLANK);
      }
    }

    method EraseRows(from: int, to: int)
      requires Sized(cells, rows, columns) && 0 <= from <= to <= rows
      modifies this`cells
      ensures Sized(cells, rows, columns)
      ensures Grid() == Erased(old(Grid()), Cursor(from, 0), Cursor(to, 0))
    {
      EraseNothing(Grid(), Cursor(from, 0));
      for r := from to to
        invariant Sized(cells, rows, columns)
        invariant Grid() == Erased(old(Grid()), Cursor(from, 0), Cursor(r, 0))
      {
        EraseToNextLine(Grid(), columns, Cursor(r, 0), r);
        ErasedJoins(old(Grid()), Cursor(from, 0), Cursor(r, 0), Cursor(r + 1, 0));
        EraseSpan(r, 0, columns);
      }
    }

    method EraseInLine(mode: int)
      requires Valid()
      modifies this`cells
      ensures Valid() && Shown() == Do(old(Shown()), Op.EraseInLine(mode))
    {
      if mode == 0 {
        EraseToNextLine(Grid(), columns, Cursor(cursorRow, cursorColumn), cursorRow);
        EraseSpan(cursorRow, cursorColumn, columns);
      } else if mode == 1 {
        if cursorColumn == columns { EraseMargin(Grid(), columns, Cursor(cursorRow, 0), cursorRow); }
        EraseSpan(cursorRow, 0, Min(cursorColumn + 1, columns));
      } else if mode == 2 {
        EraseToNextLine(Grid(), columns, Cursor(cursorRow, 0), cursorRow);
        EraseSpan(cursorRow, 0, columns);
      }
    }

    method EraseBelow()
      requires Valid()
      modifies this`cells
      ensures Sized(cells, rows, columns)
      ensures Grid() == Erased(old(Grid()), Cursor(cursorRow, cursorColumn), Cursor(rows, 0))
    {
      EraseToNextLine(Grid(), columns, Cursor(cursorRow, cursorColumn), cursorRow);
      ErasedJoins(Grid(), Cursor(cursorRow, cursorColumn), Cursor(cursorRow + 1, 0), Cursor(rows, 0));
      EraseSpan(cursorRow, cursorColumn, columns);
      EraseRows(cursorRow + 1, rows);
    }

    method EraseAbove()
      requires Valid()
      modifies this`cells
      ensures Sized(cells, rows, columns)
      ensures Grid() == Erased(old(Grid()), Cursor(0, 0), Cursor(cursorRow, cursorColumn + 1))
    {
      ErasedJoins(Grid(), Cursor(0, 0), Cursor(cursorRow, 0), Cursor(cursorRow, Min(cursorColumn + 1, columns)));
      if cursorColumn == columns { EraseMargin(Grid(), columns, Cursor(0, 0), cursorRow); }
      EraseRows(0, cursorRow);
      EraseSpan(cursorRow, 0, Min(cursorColumn + 1, columns));
    }

    method EraseInDisplay(mode: int)
      requires Valid()
      modifies this`cells
      ensures Valid() && Shown() == Do(old(Shown()), Op.EraseInDisplay(mode))
    {
      if mode == 0 {
        EraseBelow();
      } else if mode == 1 {
        EraseAbove();
      } else {
        EraseRows(0, rows);
      }
    }

    method Clear()
      requires Valid()
      modifies this
      ensures Valid() && Shown() == Do(old(Shown()), Op.Clear)
    {
      EraseBothWaysBlanks(Shown(), 0);
      for i := 0 to |cells|
        invariant Sized(cells, rows, columns) && unchanged(this`rows, this`columns, this`savedRow, this`savedColumn)
        invariant forall k :: 0 <= k < i ==> cells[k] == BLANK
      {
        cells := cells[i := BLANK];
      }
      UniformGrid(cells, rows, columns);
      cursorRow, cursorColumn, pen := 0, 0, BLANK;
    }

    method CopyRowUp(r: int)
      requires Sized(cells, rows, columns) && 0 <= r < rows - 1
      modifies this`cells
      ensures Sized(cells, rows, columns) && Grid() == old(Grid())[r := old(Grid())[r + 1]]
    {
      ghost var was := Grid();
      OverlayEnds(was, r, was[r + 1]);
      for c := 0 to columns
        invariant Sized(cells, rows, columns)
        invariant Grid() == Overlay(was, r, was[r + 1], c)
      {
        var cell := CellAt(r + 1, c);
        OverlayStep(was, r, was[r + 1], c);
        SetCell(r, c, cell);
      }
    }

    method ScrollUp()
      requires Sized(cells, rows, columns)
      modifies this`cells
      ensures Sized(cells, rows, columns) && Grid() == Scrolled(old(Grid()), columns)
    {
      ghost var was := Grid();
      for r := 0 to rows - 1
        invariant Sized(cells, rows, columns)
        invariant Grid() == Shifted(was, r)
      {
        ShiftedStep(was, r);
        CopyRowUp(r);
      }
      LastRowErased(was, columns);
      EraseSpan(rows - 1, 0, columns);
    }

    method LineFeed()
      requires Valid()
      modifies this`cells, this`cursorRow
      ensures Valid() && Shown() == Do(old(Shown()), Op.LineFeed)
    {
      if cursorRow + 1 >= rows {
        ScrollUp();
      } else {
        cursorRow := cursorRow + 1;
      }
    }

    method PutCellAtCursor(fragment: seq<u16>)
      requires Valid()
      modifies this`cells, this`cursorColumn
      ensures Valid() && Shown() == Do(old(Shown()), Op.Put(fragment))
    {
      if fragment == [] {
        return;
      }
      if cursorColumn >= columns {
        cursorColumn := columns - 1;
      }
      SetCell(cursorRow, cursorColumn, Glyph(pen, fragment));
      if cursorColumn < columns - 1 {
        cursorColumn := cursorColumn + 1;
      } else {
        cursorColumn := columns;
      }
    }

    method SetCursor(row: int, column: int)
      requires Valid()
      modifies this`cursorRow, this`cursorColumn
      ensures Valid() && Shown() == Do(old(Shown()), Op.SetCursor(row, column))
    {
      cursorRow := Clamp(row, rows - 1);
      cursorColumn := Clamp(column, columns - 1);
    }

    method MoveCursor(rowDelta: int, columnDelta: int)
      requires Valid()
      modifies this`cursorRow, this`cursorColumn
      ensures Valid() && Shown() == Do(old(Shown()), Op.MoveCursor(rowDelta, columnDelta))
    {
      SetCursor(cursorRow + rowDelta, cursorColumn + columnDelta);
    }

    method CarriageReturn()
      requires Valid()
      modifies this`cursorColumn
      ensures Valid() && Shown() == Do(old(Shown()), Op.CarriageReturn)
    {
      cursorColumn := 0;
    }

    method Backspace()
      requires Valid()
      modifies this`cursorColumn
      ensures Valid() && Shown() == Do(old(Shown()), Op.Backspace)
    {
      if cursorColumn > 0 {
        cursorColumn := cursorColumn - 1;
      }
    }

    method Tab()
      requires Valid()
      modifies this`cursorColumn
      ensures Valid() && Shown() == Do(old(Shown()), Op.Tab)
    {
      DoKeepsBounds(Shown(), Op.Tab);
      var next := (cursorColumn / 8 + 1) * 8;
      if next >= columns {
        next := columns - 1;
      }
      cursorColumn := next;
    }

    method SaveCursor()
      requires Valid()
      modifies this`savedRow, this`savedColumn
      ensures Valid() && Shown() == Do(old(Shown()), Op.SaveCursor)
    {
      savedRow, savedColumn := cursorRow, cursorColumn;
    }

    method RestoreCursor()
      requires Valid()
      modifies this`cursorRow, this`cursorColumn
      ensures Valid() && Shown() == Do(old(Shown()), Op.RestoreCursor)
    {
      SetCursor(savedRow, savedColumn);
    }

    method ResetAttributes()
      requires Valid()
      modifies this`pen
      ensures Valid() && Shown() == Do(old(Shown()), Op.ResetAttributes)
    {
      pen := BLANK;
    }

    method SetAttr(bit: bv8, on: bool)
      requires Valid()
      modifies this`pen
      ensures Valid() && Shown() == Do(old(Shown()), Op.SetAttr(bit, on))
    {
      if on {
        pen := pen.(attrs := pen.attrs | bit);
      } else {
        pen := pen.(attrs := pen.attrs & !bit);
      }
    }

    method CopiedRow(target: seq<Cell>, newRows: int, newColumns: int, r: int) returns (next: seq<Cell>)
      requires Sized(cells, rows, columns) && Sized(target, newRows, newColumns)
      requires 0 <= r < rows && r < newRows
      ensures Sized(next, newRows, newColumns)
      ensures GridOf(next, newRows, newColumns)
              == Overlay(GridOf(target, newRows, newColumns), r, Grid()[r], Min(columns, newColumns))
    {
      next := target;
      ghost var was, row := GridOf(target, newRows, newColumns), Grid()[r];
      OverlayEnds(was, r, row);
      var copyColumns := Min(columns, newColumns);
      for c := 0 to copyColumns
        invariant Sized(next, newRows, newColumns)
        invariant GridOf(next, newRows, newColumns) == Overlay(was, r, row, c)
      {
        var cell := CellAt(r, c);
        PutInGrid(next, newRows, newColumns, r, c, cell);
        OverlayStep(was, r, row, c);
        next := next[r * newColumns + c := cell];
      }
    }

    /** The part of the grid both sizes share, in a vector of the new size. */
    method Copied(newRows: int, newColumns: int) returns (next: seq<Cell>)
      requires Sized(cells, rows, columns) && 0 < newRows && 0 < newColumns
      ensures Sized(next, newRows, newColumns)
      ensures GridOf(next, newRows, newColumns) == Resized(Grid(), newRows, newColumns)
    {
      Fits(newRows, newColumns, 0);
      next := BlankRow(newRows * newColumns);
      UniformGrid(next, newRows, newColumns);
      var copyRows := Min(rows, newRows);
      for r := 0 to copyRows
        invariant Sized(next, newRows, newColumns)
        invariant GridOf(next, newRows, newColumns) == Resized(Grid()[..r], newRows, newColumns)
      {
        next := CopiedRow(next, newRows, newColumns, r);
        OneRowMore(Grid(), r, newRows, newColumns);
      }
      AllRows(Grid(), copyRows, newRows, newColumns);
    }

    method LineHtml(row: int) returns (out: seq<Token>)
      requires Valid()
      ensures out == if 0 <= row < rows then Html(Runs(Grid()[row])) else []
    {
      if row < 0 || row >= rows {
        return [];
      }
      out := RenderLine(RowAt(cells, rows, columns, row));
    }

    method Resize(newRows: int, newColumns: int)
      requires Valid()
      modifies this
      ensures Valid() && Shown() == Do(old(Shown()), Op.Resize(newRows, newColumns))
    {
      if newRows <= 0 || newColumns <= 0 {
        return;
      }
      if newRows == rows && newColumns == columns {
        return;
      }
      cells := Copied(newRows, newColumns);
      rows, columns := newRows, newColumns;
      cursorRow := Clamp(cursorRow, rows - 1);
      cursorColumn := Clamp(cursorColumn, columns - 1);
    }
  }

  /** Line `r` with its first `c` cells taken from `row`. */
  function Overlay(g: Grid, r: int, row: seq<Cell>, c: int): (g2: Grid)
    requires 0 <= r < |g| && 0 <= c <= |row| && c <= |g[r]|
    ensures |g2| == |g| && |g2[r]| == |g[r]|
  {
    g[r := row[..c] + g[r][c..]]
  }

  lemma OverlayStep(g: Grid, r: int, row: seq<Cell>, c: int)
    requires 0 <= r < |g| && 0 <= c < |row| && c < |g[r]|
    ensures WithCell(Overlay(g, r, row, c), r, c, row[c]) == Overlay(g, r, row, c + 1)
    ensures forall s :: 0 <= s < |g| && s != r ==> Overlay(g, r, row, c)[s] == g[s]
  {
    assert (row[..c] + g[r][c..])[c := row[c]] == row[..c + 1] + g[r][c + 1..];
  }

  lemma OverlayEnds(g: Grid, r: int, row: seq<Cell>)
    requires 0 <= r < |g|
    ensures Overlay(g, r, row, 0) == g
    ensures |row| == |g[r]| ==> Overlay(g, r, row, |row|) == g[r := row]
  {
    assert row[..0] + g[r][0..] == g[r];
    if |row| == |g[r]| {
      assert row[..|row|] + g[r][|row|..] == row;
    }
  }

  /** The grid while it scrolls: lines before `r` already hold what was below them. */
  function Shifted(g: Grid, r: int): (g2: Grid)
    requires 0 <= r < |g|
    ensures |g2| == |g|
  {
    g[1..r + 1] + g[r..]
  }

  lemma ShiftedStep(g: Grid, r: int)
    requires 0 <= r < |g| - 1
    ensures Shifted(g, r)[r := Shifted(g, r)[r + 1]] == Shifted(g, r + 1)
  {
  }

  lemma LastRowErased(g: Grid, columns: int)
    requires 0 < |g| && Shaped(g, |g|, columns) && 0 <= columns
    ensures Shifted(g, 0) == g
    ensures Erased(Shifted(g, |g| - 1), Cursor(|g| - 1, 0), Cursor(|g| - 1, columns)) == Scrolled(g, columns)
  {
    var moved := Shifted(g, |g| - 1);
    var end := Erased(moved, Cursor(|g| - 1, 0), Cursor(|g| - 1, columns));
    forall r | 0 <= r < |g| ensures end[r] == Scrolled(g, columns)[r] {
    }
  }

  lemma OneRowMore(g: Grid, r: int, rows: int, columns: int)
    requires 0 <= r < |g| && r < rows && 0 < columns
    ensures Overlay(Resized(g[..r], rows, columns), r, g[r], Min(|g[r]|, columns)) == Resized(g[..r + 1], rows, columns)
  {
    var more := Overlay(Resized(g[..r], rows, columns), r, g[r], Min(|g[r]|, columns));
    forall s | 0 <= s < rows ensures more[s] == ResizedRow(g[..r + 1], s, columns) {
    }
  }

  lemma AllRows(g: Grid, copied: int, rows: int, columns: int)
    requires 0 < columns && 0 < rows && copied == Min(|g|, rows)
    ensures Resized(g[..copied], rows, columns) == Resized(g, rows, columns)
  {
    forall s | 0 <= s < rows ensures ResizedRow(g[..copied], s, columns) == ResizedRow(g, s, columns) {
    }
  }

  /** With the cursor past the last column, erasing up to it is erasing the whole line. */
  lemma EraseMargin(g: Grid, columns: int, from: Cursor, r: int)
    requires Shaped(g, |g|, columns) && 0 <= columns
    ensures Erased(g, from, Cursor(r, columns)) == Erased(g, from, Cursor(r, columns + 1))
  {
    forall s | 0 <= s < |g|
      ensures ErasedRow(g, s, from, Cursor(r, columns)) == ErasedRow(g, s, from, Cursor(r, columns + 1))
    {
    }
  }
}
