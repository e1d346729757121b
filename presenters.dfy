/**
 * The presenters: how a console (a grid of cells) is laid out on a terminal,
 * the chunks the naive and the sparse presenter write, and what the terminal
 * shows afterwards.
 */
module Presenters {
  import opened Bytes
  import opened Ansi
  import opened Terminal

  // ---- Consoles ----------------------------------------------------------

  /** The console's memory order: C keeps the buffer as buffer[y, x], F as buffer[x, y]. */
  datatype Order = C | F

  /** A two-dimensional array of shape (d0, d1). */
  datatype Grid<T> = Grid(d0: nat, d1: nat, at: seq<seq<T>>)
  {
    predicate Valid() { |at| == d0 && forall i | 0 <= i < d0 :: |at[i]| == d1 }
  }

  predicate SameShape<T, U>(a: Grid<T>, b: Grid<U>) { a.d0 == b.d0 && a.d1 == b.d1 }

  /** A console cell: its character, written as bytes, and its colours. */
  datatype Cell = Cell(ch: seq<Byte>, fg: Rgba, bg: Rgba)

  type Buffer = g: Grid<Cell> | g.Valid() witness Grid(0, 0, [])
  type Mask = g: Grid<bool> | g.Valid() witness Grid(0, 0, [])

  datatype Console = Console(order: Order, buffer: Buffer)

  /** The number of columns of a grid read in the given order. */
  function Width<T>(order: Order, g: Grid<T>): nat { if order == F then g.d0 else g.d1 }

  /** The number of rows of a grid read in the given order. */
  function Height<T>(order: Order, g: Grid<T>): nat { if order == F then g.d1 else g.d0 }

  /** The element at column x and row y of a grid read in the given order. */
  function BufGet<T>(order: Order, g: Grid<T>, x: nat, y: nat): T
    requires g.Valid() && x < Width(order, g) && y < Height(order, g)
  {
    if order == F then g.at[x][y] else g.at[y][x]
  }

  function ConWidth(con: Console): nat { Width(con.order, con.buffer) }
  function ConHeight(con: Console): nat { Height(con.order, con.buffer) }

  function CellAt(con: Console, x: nat, y: nat): Cell
    requires x < ConWidth(con) && y < ConHeight(con)
  {
    BufGet(con.order, con.buffer, x, y)
  }

  /** The same cells stored in the other memory order. */
  function Transpose<T>(g: Grid<T>): (t: Grid<T>)
    requires g.Valid()
    ensures t.Valid() && t.d0 == g.d1 && t.d1 == g.d0
    ensures forall i, j | 0 <= i < t.d0 && 0 <= j < t.d1 :: t.at[i][j] == g.at[j][i]
  {
    Grid(g.d1, g.d0, seq(g.d1, i requires 0 <= i < g.d1 => seq(g.d0, j requires 0 <= j < g.d0 => g.at[j][i])))
  }

  /**
   * A C-order buffer and its transpose read in F order have the same width and
   * height and the same cell at every column and row.
   */
  lemma OrdersAgree<T>(g: Grid<T>, x: nat, y: nat)
    requires g.Valid() && x < Width(C, g) && y < Height(C, g)
    ensures Width(F, Transpose(g)) == Width(C, g) && Height(F, Transpose(g)) == Height(C, g)
    ensures BufGet(F, Transpose(g), x, y) == BufGet(C, g, x, y)
  {
  }

  /** `console.buffer != last_buffer`, element by element. */
  function Diff(a: Buffer, b: Buffer): (m: Mask)
    requires SameShape(a, b)
    ensures SameShape(m, a)
  {
    Grid(a.d0, a.d1, seq(a.d0, i requires 0 <= i < a.d0 =>
      seq(a.d1, j requires 0 <= j < a.d1 => a.at[i][j] != b.at[i][j])))
  }

  /** Read in either order, the difference mask marks exactly the cells that changed. */
  lemma DiffMarksChanges(order: Order, a: Buffer, b: Buffer, x: nat, y: nat)
    requires SameShape(a, b) && x < Width(order, a) && y < Height(order, a)
    ensures BufGet(order, Diff(a, b), x, y) <==> BufGet(order, a, x, y) != BufGet(order, b, x, y)
  {
    var m := Diff(a, b);
    if order == F {
      assert m.at[x][y] <==> a.at[x][y] != b.at[x][y];
    } else {
      assert m.at[y][x] <==> a.at[y][x] != b.at[y][x];
    }
  }

  /** The mask, read in the given order, marks exactly the cells where a and b differ. */
  predicate MarksChanges(order: Order, mask: Mask, a: Buffer, b: Buffer)
  {
    SameShape(mask, a) && SameShape(a, b) &&
    forall x, y | 0 <= x < Width(order, a) && 0 <= y < Height(order, a) ::
      BufGet(order, mask, x, y) <==> BufGet(order, a, x, y) != BufGet(order, b, x, y)
  }

  lemma DiffMarks(order: Order, a: Buffer, b: Buffer)
    requires SameShape(a, b)
    ensures MarksChanges(order, Diff(a, b), a, b)
  {
    forall x, y | 0 <= x < Width(order, a) && 0 <= y < Height(order, a)
      ensures BufGet(order, Diff(a, b), x, y) <==> BufGet(order, a, x, y) != BufGet(order, b, x, y)
    {
      DiffMarksChanges(order, a, b, x, y);
    }
  }

  // ---- The draw plan -----------------------------------------------------

  /** An alignment component, from 0.0 (left or top) to 1.0 (right or bottom). */
  type Fraction = r: real | 0.0 <= r <= 1.0

  datatype Align = Align(x: Fraction, y: Fraction)

  /** An opaque clear colour. */
  datatype Rgb = Rgb(r: Byte, g: Byte, b: Byte)

  /** The foreground used for padding: black, fully transparent. */
  const PAD_FG: Rgba := Rgba(0, 0, 0, 0)

  /** `clear_colour + (0,)`. */
  function PadBg(clear: Rgb): Rgba { Rgba(clear.r, clear.g, clear.b, 0) }

  datatype DrawPlan = DrawPlan(drawW: nat, drawH: nat, padLeft: nat, padTop: nat)

  function Min(a: nat, b: nat): nat { if a <= b then a else b }

  lemma ScaleBounds(n: nat, f: Fraction)
    ensures 0.0 <= n as real * f <= n as real
  {
    assert n as real * f <= n as real * 1.0;
  }

  /** `int(n * f)`: the part of n spare columns (or rows) that goes before the console. */
  function Share(n: nat, f: Fraction): (m: nat)
    ensures m <= n
  {
    ScaleBounds(n, f);
    (n as real * f).Floor
  }

  /** Share rounds n * f down to a whole number. */
  lemma ShareBounds(n: nat, f: Fraction)
    ensures Share(n, f) as real <= n as real * f < Share(n, f) as real + 1.0
  {
  }

  /**
   * `_get_draw_plan`: the visible part of the console is clipped to the terminal,
   * and the spare columns and rows are shared out by the alignment.
   */
  function GetDrawPlan(con: Console, term: Dim, align: Align): (plan: DrawPlan)
    ensures plan.drawW <= ConWidth(con) && plan.drawH <= ConHeight(con)
    ensures plan.padLeft + plan.drawW <= term.width && plan.padTop + plan.drawH <= term.height
    ensures plan.drawW == ConWidth(con) || plan.drawW == term.width
    ensures plan.drawH == ConHeight(con) || plan.drawH == term.height
  {
    var drawW := Min(ConWidth(con), term.width);
    var drawH := Min(ConHeight(con), term.height);
    DrawPlan(drawW, drawH, Share(term.width - drawW, align.x), Share(term.height - drawH, align.y))
  }

  /** Alignment 0 puts the console against the left or top edge, 1 against the right or bottom. */
  lemma PlanEdges(con: Console, term: Dim, align: Align)
    ensures var plan := GetDrawPlan(con, term, align);
      && (align.x == 0.0 ==> plan.padLeft == 0)
      && (align.x == 1.0 ==> plan.padLeft + plan.drawW == term.width)
      && (align.y == 0.0 ==> plan.padTop == 0)
      && (align.y == 1.0 ==> plan.padTop + plan.drawH == term.height)
  {
    var plan := GetDrawPlan(con, term, align);
    ShareBounds(term.width - plan.drawW, align.x);
    ShareBounds(term.height - plan.drawH, align.y);
  }

  /** Centred (0.5), the spare columns split evenly, with any odd one on the right. */
  lemma CentredPadding(con: Console, term: Dim, align: Align)
    requires align.x == 0.5
    ensures var plan := GetDrawPlan(con, term, align);
      var padRight := term.width - plan.drawW - plan.padLeft;
      plan.padLeft <= padRight <= plan.padLeft + 1
  {
    var plan := GetDrawPlan(con, term, align);
    ShareBounds(term.width - plan.drawW, align.x);
  }

  /** Where the console goes: the drawn area and the padding on each side. */
  datatype Layout = Layout(drawW: nat, drawH: nat, padLeft: nat, padRight: nat, padTop: nat, padBottom: nat)
  {
    function TermWidth(): nat { padLeft + drawW + padRight }
    function TermHeight(): nat { padTop + drawH + padBottom }
  }

  predicate Fits(lay: Layout, con: Console) { lay.drawW <= ConWidth(con) && lay.drawH <= ConHeight(con) }

  /** The layout `NaivePresenter.present` passes to `_draw_naive`: it spans the whole terminal. */
  function NaiveLayout(con: Console, term: Dim, align: Align): (lay: Layout)
    ensures Fits(lay, con)
    ensures lay.TermWidth() == term.width && lay.TermHeight() == term.height
  {
    var plan := GetDrawPlan(con, term, align);
    Layout(plan.drawW, plan.drawH, plan.padLeft, term.width - plan.drawW - plan.padLeft,
           plan.padTop, term.height - plan.drawH - plan.padTop)
  }

  // ---- What the terminal should show -------------------------------------

  function DrawnCell(c: Cell): Shown { Drawn(c.ch, c.fg, c.bg) }

  /**
   * The intended picture at terminal row r and column c (both 1-based): the
   * console's cell inside the drawn area, an erased cell in the padding colour
   * elsewhere.
   */
  function Picture(con: Console, lay: Layout, padBg: Rgba, r: nat, c: nat): Shown
    requires Fits(lay, con)
  {
    if lay.padTop < r <= lay.padTop + lay.drawH && lay.padLeft < c <= lay.padLeft + lay.drawW
    then DrawnCell(CellAt(con, c - lay.padLeft - 1, r - lay.padTop - 1))
    else Blank(padBg)
  }

  // ---- The naive presenter -----------------------------------------------

  /** n whole-line padding rows, starting at terminal row start. */
  function PadRows(start: nat, n: nat): seq<Chunk>
  {
    if n == 0 then [] else PadRows(start, n - 1) + [MoveTo(start + n - 1, 1), Erase(WholeLine)]
  }

  /** The first n cells of console row y, each as its colours and its character. */
  function CellChunks(con: Console, y: nat, n: nat): seq<Chunk>
    requires y < ConHeight(con) && n <= ConWidth(con)
  {
    if n == 0 then []
    else
      var c := CellAt(con, n - 1, y);
      CellChunks(con, y, n - 1) + [Colours(c.fg, c.bg), Glyph(c.ch)]
  }

  function RowHead(lay: Layout, padBg: Rgba, y: nat): seq<Chunk>
  {
    [MoveTo(lay.padTop + 1 + y, lay.padLeft + 1), Colours(PAD_FG, padBg), Erase(ToLineStart)]
  }

  function RowTail(lay: Layout, padBg: Rgba): seq<Chunk>
  {
    if lay.padRight > 0 then [Colours(PAD_FG, padBg), Erase(ToLineEnd)] else []
  }

  lemma {:induction false} CellChunksErase(con: Console, y: nat, n: nat)
    requires y < ConHeight(con) && n <= ConWidth(con)
    ensures forall i | 0 <= i < |CellChunks(con, y, n)| :: !CellChunks(con, y, n)[i].Erase?
  {
    if n > 0 {
      CellChunksErase(con, y, n - 1);
    }
  }

  /** A drawn row erases to the end of the line exactly when there is right padding. */
  lemma RightEraseOnlyWithPadding(con: Console, lay: Layout, padBg: Rgba, y: nat)
    requires Fits(lay, con) && y < lay.drawH
    ensures Erase(ToLineEnd) in DrawnRow(con, lay, padBg, y) <==> lay.padRight > 0
  {
    var cells := CellChunks(con, y, lay.drawW);
    CellChunksErase(con, y, lay.drawW);
    assert Erase(ToLineEnd) !in cells;
    assert DrawnRow(con, lay, padBg, y) == RowHead(lay, padBg, y) + cells + RowTail(lay, padBg);
  }

  function DrawnRow(con: Console, lay: Layout, padBg: Rgba, y: nat): seq<Chunk>
    requires Fits(lay, con) && y < lay.drawH
  {
    RowHead(lay, padBg, y) + CellChunks(con, y, lay.drawW) + RowTail(lay, padBg)
  }

  function DrawnRows(con: Console, lay: Layout, padBg: Rgba, n: nat): seq<Chunk>
    requires Fits(lay, con) && n <= lay.drawH
  {
    if n == 0 then [] else DrawnRows(con, lay, padBg, n - 1) + DrawnRow(con, lay, padBg, n - 1)
  }

  /** Everything `_draw_naive` yields, in order. */
  function NaiveChunks(con: Console, lay: Layout, padBg: Rgba): seq<Chunk>
    requires Fits(lay, con)
  {
    [Colours(PAD_FG, padBg)] + PadRows(1, lay.padTop) + DrawnRows(con, lay, padBg, lay.drawH)
    + [Colours(PAD_FG, padBg)] + PadRows(lay.padTop + lay.drawH + 1, lay.padBottom)
  }

  /** `_draw_naive`: the top padding, the drawn rows with their side padding, the bottom padding. */
  method DrawNaive(con: Console, lay: Layout, padBg: Rgba) returns (chunks: seq<Chunk>)
    requires Fits(lay, con)
    ensures chunks == NaiveChunks(con, lay, padBg)
  {
    var termY := 1;
    chunks := [Colours(PAD_FG, padBg)];
    var pad := DrawPadRows(termY, lay.padTop);
    chunks := chunks + pad;
    termY := termY + lay.padTop;
    ghost var top := chunks;
    var conY := 0;
    while conY < lay.drawH
      invariant conY <= lay.drawH && termY == lay.padTop + 1 + conY
      invariant chunks == top + DrawnRows(con, lay, padBg, conY)
    {
      var row := DrawRow(con, lay, padBg, conY, termY);
      chunks := chunks + row;
      termY := termY + 1;
      conY := conY + 1;
    }
    chunks := chunks + [Colours(PAD_FG, padBg)];
    pad := DrawPadRows(termY, lay.padBottom);
    chunks := chunks + pad;
  }

  /** A padding loop of `_draw_naive`: n whole rows cleared, from terminal row start down. */
  method DrawPadRows(start: nat, n: nat) returns (rows: seq<Chunk>)
    ensures rows == PadRows(start, n)
  {
    rows := [];
    var termY := start;
    var i := 0;
    while i < n
      invariant i <= n && termY == start + i
      invariant rows == PadRows(start, i)
    {
      rows := rows + [MoveTo(termY, 1), Erase(WholeLine)];
      termY := termY + 1;
      i := i + 1;
    }
  }

  lemma Regroup<T>(a: seq<T>, b: seq<T>, c: seq<T>, d: seq<T>)
    ensures a + b + c + d == a + (b + c + d)
  {
  }

  /** One console row of `_draw_naive`: left padding, the cells, right padding. */
  method DrawRow(con: Console, lay: Layout, padBg: Rgba, conY: nat, termY: nat) returns (row: seq<Chunk>)
    requires Fits(lay, con) && conY < lay.drawH && termY == lay.padTop + 1 + conY
    ensures row == DrawnRow(con, lay, padBg, conY)
  {
    row := [MoveTo(termY, lay.padLeft + 1), Colours(PAD_FG, padBg), Erase(ToLineStart)];
    var conX := 0;
    while conX < lay.drawW
      invariant conX <= lay.drawW
      invariant row == RowHead(lay, padBg, conY) + CellChunks(con, conY, conX)
    {
      var c := CellAt(con, conX, conY);
      row := row + [Colours(c.fg, c.bg), Glyph(c.ch)];
      conX := conX + 1;
    }
    if lay.padRight > 0 {
      row := row + [Colours(PAD_FG, padBg), Erase(ToLineEnd)];
    }
  }

  /** `NaivePresenter.present`: the whole terminal is written in one go. */
  method PresentNaive(out: OutFile, con: Console, term: Dim, clear: Rgb, align: Align)
    modifies out
    ensures out.written == old(out.written) + Join(NaiveChunks(con, NaiveLayout(con, term, align), PadBg(clear)))
  {
    var lay := NaiveLayout(con, term, align);
    var chunks := DrawNaive(con, lay, PadBg(clear));
    out.Write(Join(chunks));
  }

  // ---- The sparse presenter ----------------------------------------------

  /** Cell (x, y) lies inside the console and the mask, of the console's shape, marks it. */
  predicate Marked(con: Console, mask: Mask, x: nat, y: nat)
  {
    SameShape(mask, con.buffer) && x < ConWidth(con) && y < ConHeight(con) && BufGet(con.order, mask, x, y)
  }

  /** The chunks for one changed cell; padLeft and padTop are already 1-based. */
  function SparseCell(con: Console, mask: Mask, x: nat, y: nat, padLeft: nat, padTop: nat): seq<Chunk>
  {
    if Marked(con, mask, x, y) then
      var c := CellAt(con, x, y);
      [MoveTo(y + padTop, x + padLeft), Colours(c.fg, c.bg), Glyph(c.ch)]
    else []
  }

  /** Rows 0 to n - 1 of column x. */
  function SparseColumn(con: Console, mask: Mask, x: nat, n: nat, padLeft: nat, padTop: nat): seq<Chunk>
  {
    if n == 0 then [] else SparseColumn(con, mask, x, n - 1, padLeft, padTop) + SparseCell(con, mask, x, n - 1, padLeft, padTop)
  }

  /** Everything `_draw_sparse_changes` yields: columns 0 to w - 1, each from the top down. */
  function SparseChanges(con: Console, mask: Mask, w: nat, h: nat, padLeft: nat, padTop: nat): seq<Chunk>
  {
    if w == 0 then [] else SparseChanges(con, mask, w - 1, h, padLeft, padTop) + SparseColumn(con, mask, w - 1, h, padLeft, padTop)
  }

  /** `_draw_sparse_changes`, walking the draw area in `numpy.ndindex` order: x outer, y inner. */
  method DrawSparseChanges(con: Console, mask: Mask, w: nat, h: nat, padLeft: nat, padTop: nat) returns (chunks: seq<Chunk>)
    requires SameShape(mask, con.buffer) && w <= ConWidth(con) && h <= ConHeight(con)
    ensures chunks == SparseChanges(con, mask, w, h, padLeft, padTop)
  {
    chunks := [];
    var conX := 0;
    while conX < w
      invariant conX <= w
      invariant chunks == SparseChanges(con, mask, conX, h, padLeft, padTop)
    {
      var column := DrawSparseColumn(con, mask, conX, h, padLeft, padTop);
      chunks := chunks + column;
      conX := conX + 1;
    }
  }

  /** The inner loop of `_draw_sparse_changes`: column x from the top down. */
  method DrawSparseColumn(con: Console, mask: Mask, x: nat, h: nat, padLeft: nat, padTop: nat) returns (column: seq<Chunk>)
    requires SameShape(mask, con.buffer) && x < ConWidth(con) && h <= ConHeight(con)
    ensures column == SparseColumn(con, mask, x, h, padLeft, padTop)
  {
    column := [];
    var conY := 0;
    while conY < h
      invariant conY <= h
      invariant column == SparseColumn(con, mask, x, conY, padLeft, padTop)
    {
      ghost var cell := SparseCell(con, mask, x, conY, padLeft, padTop);
      assert SparseColumn(con, mask, x, conY + 1, padLeft, padTop) == column + cell;
      if BufGet(con.order, mask, x, conY) {
        assert Marked(con, mask, x, conY);
        var c := CellAt(con, x, conY);
        column := column + [MoveTo(conY + padTop, x + padLeft), Colours(c.fg, c.bg), Glyph(c.ch)];
      }
      conY := conY + 1;
    }
  }

  /** What `SparsePresenter.present` writes, given the buffer it kept from the previous frame. */
  function SparseChunks(last: Buffer, con: Console, term: Dim, clear: Rgb, align: Align): seq<Chunk>
  {
    var lay := NaiveLayout(con, term, align);
    if !SameShape(con.buffer, last) then NaiveChunks(con, lay, PadBg(clear))
    else SparseChanges(con, Diff(con.buffer, last), lay.drawW, lay.drawH, lay.padLeft + 1, lay.padTop + 1)
  }

  lemma SparseFallsBack(last: Buffer, con: Console, term: Dim, clear: Rgb, align: Align)
    requires !SameShape(con.buffer, last)
    ensures SparseChunks(last, con, term, clear, align) == NaiveChunks(con, NaiveLayout(con, term, align), PadBg(clear))
  {
  }

  lemma SparseDiffs(last: Buffer, con: Console, term: Dim, clear: Rgb, align: Align, lay: Layout)
    requires SameShape(con.buffer, last) && lay == NaiveLayout(con, term, align)
    ensures SparseChunks(last, con, term, clear, align)
         == SparseChanges(con, Diff(con.buffer, last), lay.drawW, lay.drawH, lay.padLeft + 1, lay.padTop + 1)
  {
  }

  /** The same-shape branch of `SparsePresenter.present`: only the changed cells are written. */
  method PresentChanges(out: OutFile, last: Buffer, con: Console, term: Dim, clear: Rgb, align: Align)
    requires SameShape(con.buffer, last)
    modifies out
    ensures out.written == old(out.written) + Join(SparseChunks(last, con, term, clear, align))
  {
    var lay := NaiveLayout(con, term, align);
    var diff := Diff(con.buffer, last);
    var chunks := DrawSparseChanges(con, diff, lay.drawW, lay.drawH, lay.padLeft + 1, lay.padTop + 1);
    assert chunks == SparseChunks(last, con, term, clear, align) by {
      SparseDiffs(last, con, term, clear, align, lay);
    }
    out.Write(Join(chunks));
  }

  /** The presenter starts from an empty buffer, so its first present of a non-empty console is a full redraw. */
  lemma FirstPresentRedraws(con: Console, term: Dim, clear: Rgb, align: Align)
    requires con.buffer.d0 > 0 || con.buffer.d1 > 0
    ensures SparseChunks(Grid(0, 0, []), con, term, clear, align) == NaiveChunks(con, NaiveLayout(con, term, align), PadBg(clear))
  {
    SparseFallsBack(Grid(0, 0, []), con, term, clear, align);
  }

  /** A presenter that keeps the last frame and writes only the cells that changed since. */
  class SparsePresenter {
    var lastBuffer: Buffer

    constructor ()
      ensures lastBuffer == Grid(0, 0, [])
    {
      lastBuffer := Grid(0, 0, []);
    }

    method Present(out: OutFile, con: Console, term: Dim, clear: Rgb, align: Align)
      modifies this, out
      ensures out.written == old(out.written) + Join(SparseChunks(old(lastBuffer), con, term, clear, align))
      ensures lastBuffer == con.buffer
    {
      if !SameShape(con.buffer, lastBuffer) {
        SparseFallsBack(lastBuffer, con, term, clear, align);
        PresentNaive(out, con, term, clear, align);
      } else {
        PresentChanges(out, lastBuffer, con, term, clear, align);
      }
      lastBuffer := con.buffer;
    }
  }

  // ---- What the terminal shows after a presenter has written -------------

  lemma {:induction false} PadRowsShow(start: nat, n: nat, p: Pen, r: nat, c: nat, v: Shown)
    ensures PenAfter(PadRows(start, n), p).bg == p.bg
    ensures ShownAfter(PadRows(start, n), p, r, c, v) == if start <= r < start + n then Blank(p.bg) else v
  {
    if n > 0 {
      var two := [MoveTo(start + n - 1, 1), Erase(WholeLine)];
      AfterAppend(PadRows(start, n - 1), two, p, r, c, v);
      PadRowsShow(start, n - 1, p, r, c, v);
      AfterTwo(two[0], two[1], PenAfter(PadRows(start, n - 1), p), r, c, ShownAfter(PadRows(start, n - 1), p, r, c, v));
    }
  }

  lemma {:induction false} CellChunksShow(con: Console, y: nat, n: nat, p: Pen, r: nat, c: nat, v: Shown)
    requires y < ConHeight(con) && n <= ConWidth(con)
    ensures PenAfter(CellChunks(con, y, n), p).row == p.row
    ensures PenAfter(CellChunks(con, y, n), p).col == p.col + n
    ensures ShownAfter(CellChunks(con, y, n), p, r, c, v)
         == if r == p.row && p.col <= c < p.col + n then DrawnCell(CellAt(con, c - p.col, y)) else v
  {
    if n > 0 {
      var cell := CellAt(con, n - 1, y);
      var two := [Colours(cell.fg, cell.bg), Glyph(cell.ch)];
      AfterAppend(CellChunks(con, y, n - 1), two, p, r, c, v);
      CellChunksShow(con, y, n - 1, p, r, c, v);
      AfterTwo(two[0], two[1], PenAfter(CellChunks(con, y, n - 1), p), r, c, ShownAfter(CellChunks(con, y, n - 1), p, r, c, v));
    }
  }

  /** A drawn row shows its part of the picture across the whole terminal width and touches no other row. */
  lemma DrawnRowShows(con: Console, lay: Layout, padBg: Rgba, y: nat, p: Pen, r: nat, c: nat, v: Shown)
    requires Fits(lay, con) && y < lay.drawH && 1 <= c <= lay.TermWidth()
    ensures ShownAfter(DrawnRow(con, lay, padBg, y), p, r, c, v)
         == if r == lay.padTop + 1 + y then Picture(con, lay, padBg, r, c) else v
  {
    var head := RowHead(lay, padBg, y);
    var cells := CellChunks(con, y, lay.drawW);
    var tail := RowTail(lay, padBg);
    AfterAppend(head + cells, tail, p, r, c, v);
    AfterAppend(head, cells, p, r, c, v);
    AfterThree(head[0], head[1], head[2], p, r, c, v);
    AfterTwo(head[1], head[2], Step(p, head[0]), r, c, Touch(p, head[0], r, c, v));
    var q := PenAfter(head, p);
    assert q == Pen(lay.padTop + 1 + y, lay.padLeft + 1, PAD_FG, padBg);
    var v1 := ShownAfter(head, p, r, c, v);
    assert v1 == if r == q.row && c <= q.col then Blank(padBg) else v;
    CellChunksShow(con, y, lay.drawW, q, r, c, v1);
    if lay.padRight > 0 {
      AfterTwo(tail[0], tail[1], PenAfter(cells, q), r, c, ShownAfter(cells, q, r, c, v1));
    }
  }

  lemma {:induction false} DrawnRowsShow(con: Console, lay: Layout, padBg: Rgba, n: nat, p: Pen, r: nat, c: nat, v: Shown)
    requires Fits(lay, con) && n <= lay.drawH && 1 <= c <= lay.TermWidth()
    ensures ShownAfter(DrawnRows(con, lay, padBg, n), p, r, c, v)
         == if lay.padTop < r <= lay.padTop + n then Picture(con, lay, padBg, r, c) else v
  {
    if n > 0 {
      var rows := DrawnRows(con, lay, padBg, n - 1);
      AfterAppend(rows, DrawnRow(con, lay, padBg, n - 1), p, r, c, v);
      DrawnRowsShow(con, lay, padBg, n - 1, p, r, c, v);
      DrawnRowShows(con, lay, padBg, n - 1, PenAfter(rows, p), r, c, ShownAfter(rows, p, r, c, v));
    }
  }

  /**
   * Whatever the terminal showed and wherever its cursor was, after the naive
   * presenter's output every position of the terminal shows the picture.
   */
  lemma NaiveShowsPicture(con: Console, lay: Layout, padBg: Rgba, p: Pen, r: nat, c: nat, v: Shown)
    requires Fits(lay, con)
    requires 1 <= r <= lay.TermHeight() && 1 <= c <= lay.TermWidth()
    ensures ShownAfter(NaiveChunks(con, lay, padBg), p, r, c, v) == Picture(con, lay, padBg, r, c)
  {
    var a := [Colours(PAD_FG, padBg)];
    var top := PadRows(1, lay.padTop);
    var rows := DrawnRows(con, lay, padBg, lay.drawH);
    var bottom := PadRows(lay.padTop + lay.drawH + 1, lay.padBottom);
    AfterAppend(a + top + rows + a, bottom, p, r, c, v);
    AfterAppend(a + top + rows, a, p, r, c, v);
    AfterAppend(a + top, rows, p, r, c, v);
    AfterAppend(a, top, p, r, c, v);
    var p1 := PenAfter(a, p);
    PadRowsShow(1, lay.padTop, p1, r, c, v);
    var p2 := PenAfter(top, p1);
    var v2 := ShownAfter(top, p1, r, c, v);
    DrawnRowsShow(con, lay, padBg, lay.drawH, p2, r, c, v2);
    var p3 := PenAfter(rows, p2);
    var v3 := ShownAfter(rows, p2, r, c, v2);
    var p4 := PenAfter(a, p3);
    PadRowsShow(lay.padTop + lay.drawH + 1, lay.padBottom, p4, r, c, v3);
  }

  /**
   * What terminal position (r, c) shows once the marked cells among the first
   * w columns and h rows are redrawn at offset (padLeft, padTop), if it showed
   * v before.
   */
  function Redraw(con: Console, mask: Mask, w: nat, h: nat, padLeft: nat, padTop: nat, r: nat, c: nat, v: Shown): Shown
  {
    if padLeft <= c < padLeft + w && padTop <= r < padTop + h && Marked(con, mask, c - padLeft, r - padTop)
    then DrawnCell(CellAt(con, c - padLeft, r - padTop))
    else v
  }

  /** The same for the first n rows of column x alone. */
  function RedrawColumn(con: Console, mask: Mask, x: nat, n: nat, padLeft: nat, padTop: nat, r: nat, c: nat, v: Shown): Shown
  {
    if c == x + padLeft && padTop <= r < padTop + n && Marked(con, mask, x, r - padTop)
    then DrawnCell(CellAt(con, x, r - padTop))
    else v
  }

  /** The same for the one cell (x, y). */
  function RedrawCell(con: Console, mask: Mask, x: nat, y: nat, padLeft: nat, padTop: nat, r: nat, c: nat, v: Shown): Shown
  {
    if Marked(con, mask, x, y) && r == y + padTop && c == x + padLeft then DrawnCell(CellAt(con, x, y)) else v
  }

  lemma RedrawColumnStep(con: Console, mask: Mask, x: nat, n: nat, padLeft: nat, padTop: nat, r: nat, c: nat, v: Shown)
    requires 0 < n
    ensures RedrawColumn(con, mask, x, n, padLeft, padTop, r, c, v)
         == RedrawCell(con, mask, x, n - 1, padLeft, padTop, r, c, RedrawColumn(con, mask, x, n - 1, padLeft, padTop, r, c, v))
  {
    if c == x + padLeft && r == padTop + n - 1 {
      assert r - padTop == n - 1;
    }
  }

  lemma RedrawStep(con: Console, mask: Mask, w: nat, h: nat, padLeft: nat, padTop: nat, r: nat, c: nat, v: Shown)
    requires 0 < w
    ensures Redraw(con, mask, w, h, padLeft, padTop, r, c, v)
         == RedrawColumn(con, mask, w - 1, h, padLeft, padTop, r, c, Redraw(con, mask, w - 1, h, padLeft, padTop, r, c, v))
  {
    if c == padLeft + w - 1 {
      assert c - padLeft == w - 1;
    }
  }

  lemma SparseCellShows(con: Console, mask: Mask, x: nat, y: nat, padLeft: nat, padTop: nat, p: Pen, r: nat, c: nat, v: Shown)
    ensures ShownAfter(SparseCell(con, mask, x, y, padLeft, padTop), p, r, c, v) == RedrawCell(con, mask, x, y, padLeft, padTop, r, c, v)
  {
    var cs := SparseCell(con, mask, x, y, padLeft, padTop);
    if cs != [] {
      AfterThree(cs[0], cs[1], cs[2], p, r, c, v);
      AfterTwo(cs[1], cs[2], Step(p, cs[0]), r, c, Touch(p, cs[0], r, c, v));
    }
  }

  lemma {:induction false} SparseColumnShows(con: Console, mask: Mask, x: nat, n: nat, padLeft: nat, padTop: nat, p: Pen, r: nat, c: nat, v: Shown)
    ensures ShownAfter(SparseColumn(con, mask, x, n, padLeft, padTop), p, r, c, v) == RedrawColumn(con, mask, x, n, padLeft, padTop, r, c, v)
  {
    if n > 0 {
      var col := SparseColumn(con, mask, x, n - 1, padLeft, padTop);
      var cell := SparseCell(con, mask, x, n - 1, padLeft, padTop);
      assert SparseColumn(con, mask, x, n, padLeft, padTop) == col + cell;
      AfterAppend(col, cell, p, r, c, v);
      SparseColumnShows(con, mask, x, n - 1, padLeft, padTop, p, r, c, v);
      SparseCellShows(con, mask, x, n - 1, padLeft, padTop, PenAfter(col, p), r, c, ShownAfter(col, p, r, c, v));
      RedrawColumnStep(con, mask, x, n, padLeft, padTop, r, c, v);
    }
  }

  /** The sparse output redraws exactly the marked cells of the draw area, in place, and nothing else. */
  lemma {:induction false} SparseChangesShow(con: Console, mask: Mask, w: nat, h: nat, padLeft: nat, padTop: nat, p: Pen, r: nat, c: nat, v: Shown)
    ensures ShownAfter(SparseChanges(con, mask, w, h, padLeft, padTop), p, r, c, v) == Redraw(con, mask, w, h, padLeft, padTop, r, c, v)
  {
    if w > 0 {
      var cols := SparseChanges(con, mask, w - 1, h, padLeft, padTop);
      var col := SparseColumn(con, mask, w - 1, h, padLeft, padTop);
      ghost var q := PenAfter(cols, p);
      ghost var before := ShownAfter(cols, p, r, c, v);
      assert ShownAfter(SparseChanges(con, mask, w, h, padLeft, padTop), p, r, c, v) == ShownAfter(col, q, r, c, before) by {
        assert SparseChanges(con, mask, w, h, padLeft, padTop) == cols + col;
        AfterAppend(cols, col, p, r, c, v);
      }
      assert before == Redraw(con, mask, w - 1, h, padLeft, padTop, r, c, v) by {
        SparseChangesShow(con, mask, w - 1, h, padLeft, padTop, p, r, c, v);
      }
      assert ShownAfter(col, q, r, c, before) == RedrawColumn(con, mask, w - 1, h, padLeft, padTop, r, c, before) by {
        SparseColumnShows(con, mask, w - 1, h, padLeft, padTop, q, r, c, before);
      }
      assert Redraw(con, mask, w, h, padLeft, padTop, r, c, v) == RedrawColumn(con, mask, w - 1, h, padLeft, padTop, r, c, before) by {
        RedrawStep(con, mask, w, h, padLeft, padTop, r, c, v);
      }
    }
  }

  /** A cell a change mask leaves unmarked already shows the new cell. */
  lemma UnmarkedUnchanged(last: Console, con: Console, mask: Mask, x: nat, y: nat)
    requires last.order == con.order && MarksChanges(con.order, mask, con.buffer, last.buffer)
    requires x < ConWidth(con) && y < ConHeight(con)
    ensures (if Marked(con, mask, x, y) then CellAt(con, x, y) else CellAt(last, x, y)) == CellAt(con, x, y)
  {
  }

  /**
   * If the terminal shows the previous frame's picture, redrawing the cells a
   * change mask marks turns it into the new frame's picture, provided the
   * console kept its order and shape and the layout and clear colour are the same.
   */
  lemma SparseRepaints(last: Console, con: Console, mask: Mask, lay: Layout, padBg: Rgba, p: Pen, r: nat, c: nat)
    requires last.order == con.order && MarksChanges(con.order, mask, con.buffer, last.buffer) && Fits(lay, con)
    ensures ShownAfter(SparseChanges(con, mask, lay.drawW, lay.drawH, lay.padLeft + 1, lay.padTop + 1),
                       p, r, c, Picture(last, lay, padBg, r, c))
         == Picture(con, lay, padBg, r, c)
  {
    var left, top := lay.padLeft + 1, lay.padTop + 1;
    ghost var before := Picture(last, lay, padBg, r, c);
    ghost var redrawn := Redraw(con, mask, lay.drawW, lay.drawH, left, top, r, c, before);
    assert ShownAfter(SparseChanges(con, mask, lay.drawW, lay.drawH, left, top), p, r, c, before) == redrawn by {
      SparseChangesShow(con, mask, lay.drawW, lay.drawH, left, top, p, r, c, before);
    }
    if left <= c < left + lay.drawW && top <= r < top + lay.drawH {
      var x, y := c - left, r - top;
      assert before == DrawnCell(CellAt(last, x, y));
      assert Picture(con, lay, padBg, r, c) == DrawnCell(CellAt(con, x, y));
      assert redrawn == if Marked(con, mask, x, y) then DrawnCell(CellAt(con, x, y)) else before;
      UnmarkedUnchanged(last, con, mask, x, y);
    } else {
      assert redrawn == before == Blank(padBg);
    }
  }

  /**
   * After each `SparsePresenter.present`, the terminal shows the new console's
   * picture: always when the console's shape changed (the naive fallback), and
   * otherwise when it showed the previous console's picture, laid out the same.
   */
  lemma SparsePresentShowsPicture(last: Console, con: Console, term: Dim, clear: Rgb, align: Align, p: Pen, r: nat, c: nat, v: Shown)
    requires 1 <= r <= term.height && 1 <= c <= term.width
    requires SameShape(con.buffer, last.buffer) ==>
      last.order == con.order && v == Picture(last, NaiveLayout(last, term, align), PadBg(clear), r, c)
    ensures ShownAfter(SparseChunks(last.buffer, con, term, clear, align), p, r, c, v)
         == Picture(con, NaiveLayout(con, term, align), PadBg(clear), r, c)
  {
    if SameShape(con.buffer, last.buffer) {
      SparseChangesShowPicture(last, con, term, clear, align, p, r, c);
    } else {
      SparseFallbackShowsPicture(last.buffer, con, term, clear, align, p, r, c, v);
    }
  }

  lemma SparseChangesShowPicture(last: Console, con: Console, term: Dim, clear: Rgb, align: Align, p: Pen, r: nat, c: nat)
    requires last.order == con.order && SameShape(con.buffer, last.buffer)
    ensures ShownAfter(SparseChunks(last.buffer, con, term, clear, align), p, r, c,
                       Picture(last, NaiveLayout(last, term, align), PadBg(clear), r, c))
         == Picture(con, NaiveLayout(con, term, align), PadBg(clear), r, c)
  {
    var lay := NaiveLayout(con, term, align);
    var mask := Diff(con.buffer, last.buffer);
    ghost var chunks := SparseChunks(last.buffer, con, term, clear, align);
    assert chunks == SparseChanges(con, mask, lay.drawW, lay.drawH, lay.padLeft + 1, lay.padTop + 1) by {
      SparseDiffs(last.buffer, con, term, clear, align, lay);
    }
    SameLayout(last, con, term, align);
    DiffMarks(con.order, con.buffer, last.buffer);
    SparseRepaints(last, con, mask, lay, PadBg(clear), p, r, c);
  }

  lemma SparseFallbackShowsPicture(last: Buffer, con: Console, term: Dim, clear: Rgb, align: Align, p: Pen, r: nat, c: nat, v: Shown)
    requires 1 <= r <= term.height && 1 <= c <= term.width
    requires !SameShape(con.buffer, last)
    ensures ShownAfter(SparseChunks(last, con, term, clear, align), p, r, c, v)
         == Picture(con, NaiveLayout(con, term, align), PadBg(clear), r, c)
  {
    var lay := NaiveLayout(con, term, align);
    ghost var chunks := SparseChunks(last, con, term, clear, align);
    assert chunks == NaiveChunks(con, lay, PadBg(clear)) by {
      SparseFallsBack(last, con, term, clear, align);
    }
    NaiveShowsPicture(con, lay, PadBg(clear), p, r, c, v);
  }

  /** Consoles of the same order and shape are laid out alike. */
  lemma SameLayout(last: Console, con: Console, term: Dim, align: Align)
    requires last.order == con.order && SameShape(con.buffer, last.buffer)
    ensures NaiveLayout(last, term, align) == NaiveLayout(con, term, align)
  {
    assert ConWidth(last) == ConWidth(con) && ConHeight(last) == ConHeight(con);
  }

  /** No cell of the first w columns and h rows is marked. */
  predicate NoneMarked(con: Console, mask: Mask, w: nat, h: nat)
  {
    forall x, y | 0 <= x < w && 0 <= y < h :: !Marked(con, mask, x, y)
  }

  lemma {:induction false} UnmarkedColumn(con: Console, mask: Mask, x: nat, n: nat, padLeft: nat, padTop: nat)
    requires forall y | 0 <= y < n :: !Marked(con, mask, x, y)
    ensures SparseColumn(con, mask, x, n, padLeft, padTop) == []
  {
    if n > 0 {
      UnmarkedColumn(con, mask, x, n - 1, padLeft, padTop);
      assert !Marked(con, mask, x, n - 1);
    }
  }

  lemma {:induction false} Unmarked(con: Console, mask: Mask, w: nat, h: nat, padLeft: nat, padTop: nat)
    requires NoneMarked(con, mask, w, h)
    ensures SparseChanges(con, mask, w, h, padLeft, padTop) == []
  {
    if w > 0 {
      Unmarked(con, mask, w - 1, h, padLeft, padTop);
      UnmarkedColumn(con, mask, w - 1, h, padLeft, padTop);
    }
  }

  /** Comparing a console's buffer with itself marks nothing. */
  lemma DiffSelf(con: Console, w: nat, h: nat)
    ensures NoneMarked(con, Diff(con.buffer, con.buffer), w, h)
  {
    var mask := Diff(con.buffer, con.buffer);
    forall x, y | 0 <= x < w && 0 <= y < h
      ensures !Marked(con, mask, x, y)
    {
      if x < ConWidth(con) && y < ConHeight(con) {
        DiffMarksChanges(con.order, con.buffer, con.buffer, x, y);
      }
    }
  }

  /** Presenting the same buffer twice in a row writes nothing the second time. */
  lemma SparseRepeatWritesNothing(con: Console, term: Dim, clear: Rgb, align: Align)
    ensures Join(SparseChunks(con.buffer, con, term, clear, align)) == []
  {
    var lay := NaiveLayout(con, term, align);
    var mask := Diff(con.buffer, con.buffer);
    ghost var chunks := SparseChunks(con.buffer, con, term, clear, align);
    assert chunks == SparseChanges(con, mask, lay.drawW, lay.drawH, lay.padLeft + 1, lay.padTop + 1) by {
      SparseDiffs(con.buffer, con, term, clear, align, lay);
    }
    assert SparseChanges(con, mask, lay.drawW, lay.drawH, lay.padLeft + 1, lay.padTop + 1) == [] by {
      DiffSelf(con, lay.drawW, lay.drawH);
      Unmarked(con, mask, lay.drawW, lay.drawH, lay.padLeft + 1, lay.padTop + 1);
    }
  }

  // ---- Rows addressed and cells written by the naive presenter -----------

  /** The rows from, from + 1, ..., from + n - 1. */
  function Rows(from: nat, n: nat): seq<nat>
  {
    if n == 0 then [] else Rows(from, n - 1) + [from + n - 1]
  }

  lemma {:induction false} RowsAt(from: nat, n: nat)
    ensures |Rows(from, n)| == n
    ensures forall i | 0 <= i < n :: Rows(from, n)[i] == from + i
  {
    if n > 0 {
      RowsAt(from, n - 1);
    }
  }

  lemma {:induction false} RowsAppend(from: nat, m: nat, n: nat)
    ensures Rows(from, m) + Rows(from + m, n) == Rows(from, m + n)
  {
    if n > 0 {
      RowsAppend(from, m, n - 1);
      assert Rows(from, m) + Rows(from + m, n) == Rows(from, m) + Rows(from + m, n - 1) + [from + m + n - 1];
    }
  }

  lemma {:induction false} PadRowsMoves(start: nat, n: nat)
    ensures MoveRows(PadRows(start, n)) == Rows(start, n)
  {
    if n > 0 {
      var x, y := MoveTo(start + n - 1, 1), Erase(WholeLine);
      MoveRowsAppend(PadRows(start, n - 1), [x, y]);
      PadRowsMoves(start, n - 1);
      MoveRowsTwo(x, y);
      MoveRowsOne(x);
      MoveRowsOne(y);
    }
  }

  lemma {:induction false} CellChunksMoves(con: Console, y: nat, n: nat)
    requires y < ConHeight(con) && n <= ConWidth(con)
    ensures MoveRows(CellChunks(con, y, n)) == []
  {
    if n > 0 {
      var cell := CellAt(con, n - 1, y);
      var a, b := Colours(cell.fg, cell.bg), Glyph(cell.ch);
      MoveRowsAppend(CellChunks(con, y, n - 1), [a, b]);
      CellChunksMoves(con, y, n - 1);
      MoveRowsTwo(a, b);
      MoveRowsOne(a);
      MoveRowsOne(b);
    }
  }

  lemma RowHeadMoves(lay: Layout, padBg: Rgba, y: nat)
    ensures MoveRows(RowHead(lay, padBg, y)) == [lay.padTop + 1 + y]
  {
    var head := RowHead(lay, padBg, y);
    assert head == [head[0]] + [head[1], head[2]];
    MoveRowsAppend([head[0]], [head[1], head[2]]);
    MoveRowsOne(head[0]);
    MoveRowsTwo(head[1], head[2]);
    MoveRowsOne(head[1]);
    MoveRowsOne(head[2]);
  }

  lemma RowTailMoves(lay: Layout, padBg: Rgba)
    ensures MoveRows(RowTail(lay, padBg)) == []
  {
    var tail := RowTail(lay, padBg);
    if tail != [] {
      MoveRowsTwo(tail[0], tail[1]);
      MoveRowsOne(tail[0]);
      MoveRowsOne(tail[1]);
    }
  }

  lemma MoveRowsThree(a: seq<Chunk>, b: seq<Chunk>, c: seq<Chunk>)
    ensures MoveRows(a + b + c) == MoveRows(a) + MoveRows(b) + MoveRows(c)
  {
    MoveRowsAppend(a + b, c);
    MoveRowsAppend(a, b);
  }

  lemma DrawnRowMoves(con: Console, lay: Layout, padBg: Rgba, y: nat)
    requires Fits(lay, con) && y < lay.drawH
    ensures MoveRows(DrawnRow(con, lay, padBg, y)) == [lay.padTop + 1 + y]
  {
    MoveRowsThree(RowHead(lay, padBg, y), CellChunks(con, y, lay.drawW), RowTail(lay, padBg));
    RowHeadMoves(lay, padBg, y);
    CellChunksMoves(con, y, lay.drawW);
    RowTailMoves(lay, padBg);
  }

  lemma {:induction false} DrawnRowsMoves(con: Console, lay: Layout, padBg: Rgba, n: nat)
    requires Fits(lay, con) && n <= lay.drawH
    ensures MoveRows(DrawnRows(con, lay, padBg, n)) == Rows(lay.padTop + 1, n)
  {
    if n > 0 {
      var rows, row := DrawnRows(con, lay, padBg, n - 1), DrawnRow(con, lay, padBg, n - 1);
      var start := lay.padTop + 1;
      assert MoveRows(DrawnRows(con, lay, padBg, n)) == MoveRows(rows) + MoveRows(row) by {
        assert DrawnRows(con, lay, padBg, n) == rows + row;
        MoveRowsAppend(rows, row);
      }
      assert MoveRows(rows) == Rows(start, n - 1) by {
        DrawnRowsMoves(con, lay, padBg, n - 1);
      }
      assert MoveRows(row) == [start + (n - 1)] by {
        DrawnRowMoves(con, lay, padBg, n - 1);
      }
      assert Rows(start, n) == Rows(start, n - 1) + [start + (n - 1)];
    }
  }

  lemma MoveRowsFive(a: seq<Chunk>, b: seq<Chunk>, c: seq<Chunk>, d: seq<Chunk>, e: seq<Chunk>)
    ensures MoveRows(a + b + c + d + e) == MoveRows(a) + MoveRows(b) + MoveRows(c) + MoveRows(d) + MoveRows(e)
  {
    MoveRowsAppend(a + b + c + d, e);
    MoveRowsAppend(a + b + c, d);
    MoveRowsThree(a, b, c);
  }

  lemma RowsThree(from: nat, l: nat, m: nat, n: nat)
    ensures Rows(from, l) + Rows(from + l, m) + Rows(from + l + m, n) == Rows(from, l + m + n)
  {
    RowsAppend(from, l, m);
    RowsAppend(from, l + m, n);
  }

  /** The naive output moves the cursor to every terminal row once, from the top row down. */
  lemma NaiveRowsInOrder(con: Console, lay: Layout, padBg: Rgba)
    requires Fits(lay, con)
    ensures MoveRows(NaiveChunks(con, lay, padBg)) == Rows(1, lay.TermHeight())
  {
    var a := [Colours(PAD_FG, padBg)];
    var top := PadRows(1, lay.padTop);
    var rows := DrawnRows(con, lay, padBg, lay.drawH);
    var bottom := PadRows(lay.padTop + lay.drawH + 1, lay.padBottom);
    assert NaiveChunks(con, lay, padBg) == a + top + rows + a + bottom;
    MoveRowsFive(a, top, rows, a, bottom);
    ghost var r1, r2, r3 := Rows(1, lay.padTop), Rows(lay.padTop + 1, lay.drawH), Rows(lay.padTop + lay.drawH + 1, lay.padBottom);
    assert MoveRows(a) == [] by {
      MoveRowsOne(a[0]);
    }
    assert MoveRows(top) == r1 by {
      PadRowsMoves(1, lay.padTop);
    }
    assert MoveRows(rows) == r2 by {
      DrawnRowsMoves(con, lay, padBg, lay.drawH);
    }
    assert MoveRows(bottom) == r3 by {
      PadRowsMoves(lay.padTop + lay.drawH + 1, lay.padBottom);
    }
    assert [] + r1 + r2 + [] + r3 == r1 + r2 + r3;
    RowsThree(1, lay.padTop, lay.drawH, lay.padBottom);
  }

  /** Cells 0 to n - 1 of console row y, placed from (row, col) rightwards. */
  function CellRun(con: Console, y: nat, n: nat, row: nat, col: nat): seq<Placed>
    requires y < ConHeight(con) && n <= ConWidth(con)
  {
    if n == 0 then [] else CellRun(con, y, n - 1, row, col) + [Placed(row, col + n - 1, DrawnCell(CellAt(con, n - 1, y)))]
  }

  /** Console rows 0 to n - 1 of the draw area, each at its terminal position, top to bottom. */
  function RowMajor(con: Console, lay: Layout, n: nat): seq<Placed>
    requires Fits(lay, con) && n <= lay.drawH
  {
    if n == 0 then [] else RowMajor(con, lay, n - 1) + CellRun(con, n - 1, lay.drawW, lay.padTop + n, lay.padLeft + 1)
  }

  lemma {:induction false} PadRowsPaintNothing(start: nat, n: nat, p: Pen)
    ensures Painted(PadRows(start, n), p) == []
  {
    if n > 0 {
      var x, y := MoveTo(start + n - 1, 1), Erase(WholeLine);
      PaintedAppend(PadRows(start, n - 1), [x, y], p);
      PadRowsPaintNothing(start, n - 1, p);
      var q := PenAfter(PadRows(start, n - 1), p);
      PaintedTwo(x, y, q);
      PaintedOne(x, q);
      PaintedOne(y, Step(q, x));
    }
  }

  lemma {:induction false} CellChunksPaint(con: Console, y: nat, n: nat, p: Pen)
    requires y < ConHeight(con) && n <= ConWidth(con)
    ensures Painted(CellChunks(con, y, n), p) == CellRun(con, y, n, p.row, p.col)
  {
    if n > 0 {
      var cell := CellAt(con, n - 1, y);
      var a, b := Colours(cell.fg, cell.bg), Glyph(cell.ch);
      PaintedAppend(CellChunks(con, y, n - 1), [a, b], p);
      CellChunksPaint(con, y, n - 1, p);
      CellChunksShow(con, y, n - 1, p, 0, 0, Blank(p.bg));
      var q := PenAfter(CellChunks(con, y, n - 1), p);
      PaintedTwo(a, b, q);
      PaintedOne(a, q);
      PaintedOne(b, Step(q, a));
    }
  }

  lemma DrawnRowPaint(con: Console, lay: Layout, padBg: Rgba, y: nat, p: Pen)
    requires Fits(lay, con) && y < lay.drawH
    ensures Painted(DrawnRow(con, lay, padBg, y), p) == CellRun(con, y, lay.drawW, lay.padTop + 1 + y, lay.padLeft + 1)
  {
    var head := RowHead(lay, padBg, y);
    var cells := CellChunks(con, y, lay.drawW);
    var tail := RowTail(lay, padBg);
    PaintedAppend(head + cells, tail, p);
    PaintedAppend(head, cells, p);
    AfterThree(head[0], head[1], head[2], p, 0, 0, Blank(p.bg));
    AfterTwo(head[1], head[2], Step(p, head[0]), 0, 0, Blank(p.bg));
    var q := PenAfter(head, p);
    assert q.row == lay.padTop + 1 + y && q.col == lay.padLeft + 1;
    assert Painted(head, p) == [] by {
      assert head == [head[0]] + [head[1], head[2]];
      PaintedAppend([head[0]], [head[1], head[2]], p);
      PaintedOne(head[0], p);
      AfterOne(head[0], p);
      PaintedTwo(head[1], head[2], Step(p, head[0]));
      PaintedOne(head[1], Step(p, head[0]));
      PaintedOne(head[2], Step(Step(p, head[0]), head[1]));
    }
    CellChunksPaint(con, y, lay.drawW, q);
    assert Painted(tail, PenAfter(head + cells, p)) == [] by {
      if tail != [] {
        var r := PenAfter(head + cells, p);
        PaintedTwo(tail[0], tail[1], r);
        PaintedOne(tail[0], r);
        PaintedOne(tail[1], Step(r, tail[0]));
      }
    }
  }

  lemma {:induction false} DrawnRowsPaint(con: Console, lay: Layout, padBg: Rgba, n: nat, p: Pen)
    requires Fits(lay, con) && n <= lay.drawH
    ensures Painted(DrawnRows(con, lay, padBg, n), p) == RowMajor(con, lay, n)
  {
    if n > 0 {
      var rows := DrawnRows(con, lay, padBg, n - 1);
      PaintedAppend(rows, DrawnRow(con, lay, padBg, n - 1), p);
      DrawnRowsPaint(con, lay, padBg, n - 1, p);
      DrawnRowPaint(con, lay, padBg, n - 1, PenAfter(rows, p));
    }
  }

  /**
   * The naive output writes each cell of the draw area exactly once, row by
   * row from the top and left to right, at its terminal position and in its
   * own colours.
   */
  lemma NaivePaintsRowMajor(con: Console, lay: Layout, padBg: Rgba, p: Pen)
    requires Fits(lay, con)
    ensures Painted(NaiveChunks(con, lay, padBg), p) == RowMajor(con, lay, lay.drawH)
  {
    var a := [Colours(PAD_FG, padBg)];
    var top := PadRows(1, lay.padTop);
    var rows := DrawnRows(con, lay, padBg, lay.drawH);
    var bottom := PadRows(lay.padTop + lay.drawH + 1, lay.padBottom);
    PaintedAppend(a + top + rows + a, bottom, p);
    PaintedAppend(a + top + rows, a, p);
    PaintedAppend(a + top, rows, p);
    PaintedAppend(a, top, p);
    assert a[1..] == [];
    PadRowsPaintNothing(1, lay.padTop, PenAfter(a, p));
    DrawnRowsPaint(con, lay, padBg, lay.drawH, PenAfter(a + top, p));
    PadRowsPaintNothing(lay.padTop + lay.drawH + 1, lay.padBottom, PenAfter(a + top + rows + a, p));
    assert Painted(a, PenAfter(a + top + rows, p)) == [];
  }
}
