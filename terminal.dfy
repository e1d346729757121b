/**
 * What the presenters write, one generator item ("chunk") at a time, and a
 * small model of what a terminal shows once it has read those chunks.
 */
module Terminal {
  import opened Wrappers
  import opened Bytes
  import opened Ecma48
  import opened Ansi

  /** The three forms of EL, erase in line (ECMA-48 section 8.3.41). */
  datatype EraseMode = ToLineEnd | ToLineStart | WholeLine

  /** One item yielded by a presenter's generator. */
  datatype Chunk =
    | MoveTo(row: nat, col: nat)   // `ESC [ row ; col H`, both 1-based
    | Erase(mode: EraseMode)       // `ESC [ 0 K`, `ESC [ 1 K` or `ESC [ 2 K`
    | Colours(fg: Rgba, bg: Rgba)  // the 24-bit colour pair
    | Glyph(ch: seq<Byte>)         // a cell's character, written as is

  function EraseParam(m: EraseMode): nat
  {
    match m
    case ToLineEnd => 0
    case ToLineStart => 1
    case WholeLine => 2
  }

  function EraseLine(m: EraseMode): seq<Byte>
  {
    match m
    case ToLineEnd => [ESC] + Ascii("[0K")
    case ToLineStart => [ESC] + Ascii("[1K")
    case WholeLine => [ESC] + Ascii("[2K")
  }

  function ChunkBytes(c: Chunk): seq<Byte>
  {
    match c
    case MoveTo(row, col) => CursorPosition(row, col)
    case Erase(m) => EraseLine(m)
    case Colours(fg, bg) => SetColoursTrue(fg, bg)
    case Glyph(ch) => ch
  }

  /** `b''.join` of the generator's items. */
  function Join(cs: seq<Chunk>): seq<Byte>
  {
    if cs == [] then [] else ChunkBytes(cs[0]) + Join(cs[1..])
  }

  lemma {:induction false} JoinAppend(a: seq<Chunk>, b: seq<Chunk>)
    ensures Join(a + b) == Join(a) + Join(b)
  {
    if a == [] {
      assert a + b == b;
    } else {
      assert (a + b)[1..] == a[1..] + b;
      JoinAppend(a[1..], b);
    }
  }

  // ---- The chunks as ECMA-48 control functions ---------------------------

  /** A glyph is plain data as long as it holds no ESC. */
  predicate Plain(c: Chunk) { c.Glyph? ==> ESC !in c.ch }

  function DataOf(bs: seq<Byte>): (cs: seq<Control>)
    requires ESC !in bs
    ensures |cs| == |bs| && AllWellFormed(cs)
  {
    if bs == [] then [] else [Data(bs[0])] + DataOf(bs[1..])
  }

  /** The control functions a chunk stands for. */
  function Controls(c: Chunk): (cs: seq<Control>)
    requires Plain(c)
    ensures AllWellFormed(cs)
  {
    match c
    case MoveTo(row, col) => [Csi(false, [row, col], 'H' as Byte)]
    case Erase(m) => [Csi(false, [EraseParam(m)], 'K' as Byte)]
    case Colours(fg, bg) => [Csi(false, Fg(fg), 'm' as Byte), Csi(false, Bg(bg), 'm' as Byte)]
    case Glyph(ch) => DataOf(ch)
  }

  function ControlsAll(cs: seq<Chunk>): (r: seq<Control>)
    requires forall i | 0 <= i < |cs| :: Plain(cs[i])
    ensures AllWellFormed(r)
  {
    if cs == [] then [] else Controls(cs[0]) + ControlsAll(cs[1..])
  }

  lemma {:induction false} EncodeAllAppend(a: seq<Control>, b: seq<Control>)
    requires AllWellFormed(a) && AllWellFormed(b)
    ensures AllWellFormed(a + b) && EncodeAll(a + b) == EncodeAll(a) + EncodeAll(b)
  {
    if a == [] {
      assert a + b == b;
    } else {
      var c, rest := a[0], a[1..];
      assert (a + b)[0] == c && (a + b)[1..] == rest + b;
      assert AllWellFormed(rest);
      EncodeAllAppend(rest, b);
      ghost var e, r, t := Encode(c), EncodeAll(rest), EncodeAll(b);
      assert EncodeAll(a + b) == e + EncodeAll(rest + b);
      assert e + (r + t) == (e + r) + t;
    }
  }

  lemma {:induction false} DataOfEncodes(bs: seq<Byte>)
    requires ESC !in bs
    ensures EncodeAll(DataOf(bs)) == bs
  {
    if bs != [] {
      DataOfEncodes(bs[1..]);
      assert DataOf(bs)[1..] == DataOf(bs[1..]);
      assert [bs[0]] + bs[1..] == bs;
    }
  }

  lemma ChunkEncodes(c: Chunk)
    requires Plain(c)
    ensures ChunkBytes(c) == EncodeAll(Controls(c))
  {
    match c
    case MoveTo(row, col) =>
      CursorPositionIsCup(row, col);
      var x := Csi(false, [row, col], 'H' as Byte);
      assert EncodeAll([x]) == Encode(x) + EncodeAll([]);
    case Erase(m) =>
      var x := Csi(false, [EraseParam(m)], 'K' as Byte);
      assert EncodeAll([x]) == Encode(x) + EncodeAll([]);
    case Colours(fg, bg) =>
      SetColoursTrueIsSgr(fg, bg);
    case Glyph(ch) =>
      DataOfEncodes(ch);
  }

  /** A terminal reads the joined chunks as exactly the control functions they stand for. */
  lemma {:induction false} JoinReads(cs: seq<Chunk>)
    requires forall i | 0 <= i < |cs| :: Plain(cs[i])
    ensures DecodeAll(Join(cs)) == Some(ControlsAll(cs))
  {
    JoinEncodes(cs);
    DecodeEncodeAll(ControlsAll(cs));
  }

  lemma {:induction false} JoinEncodes(cs: seq<Chunk>)
    requires forall i | 0 <= i < |cs| :: Plain(cs[i])
    ensures Join(cs) == EncodeAll(ControlsAll(cs))
  {
    if cs != [] {
      JoinEncodes(cs[1..]);
      ChunkEncodes(cs[0]);
      EncodeAllAppend(Controls(cs[0]), ControlsAll(cs[1..]));
    }
  }

  // ---- What the terminal shows -------------------------------------------

  /** The cursor, 1-based, and the current colours. */
  datatype Pen = Pen(row: nat, col: nat, fg: Rgba, bg: Rgba)

  /** What one screen position shows: a character in its colours, or an erased cell in a background colour. */
  datatype Shown = Drawn(ch: seq<Byte>, fg: Rgba, bg: Rgba) | Blank(bg: Rgba)

  /** The pen after one chunk; a glyph takes one column. */
  function Step(p: Pen, c: Chunk): Pen
  {
    match c
    case MoveTo(row, col) => p.(row := row, col := col)
    case Erase(_) => p
    case Colours(fg, bg) => p.(fg := fg, bg := bg)
    case Glyph(_) => p.(col := p.col + 1)
  }

  /** What position (row, col) shows after one chunk, given what it showed before (v). */
  function Touch(p: Pen, c: Chunk, row: nat, col: nat, v: Shown): Shown
  {
    match c
    case MoveTo(_, _) => v
    case Erase(ToLineEnd) => if row == p.row && col >= p.col then Blank(p.bg) else v
    case Erase(ToLineStart) => if row == p.row && col <= p.col then Blank(p.bg) else v
    case Erase(WholeLine) => if row == p.row then Blank(p.bg) else v
    case Colours(_, _) => v
    case Glyph(ch) => if row == p.row && col == p.col then Drawn(ch, p.fg, p.bg) else v
  }

  function PenAfter(cs: seq<Chunk>, p: Pen): Pen
  {
    if cs == [] then p else PenAfter(cs[1..], Step(p, cs[0]))
  }

  function ShownAfter(cs: seq<Chunk>, p: Pen, row: nat, col: nat, v: Shown): Shown
  {
    if cs == [] then v else ShownAfter(cs[1..], Step(p, cs[0]), row, col, Touch(p, cs[0], row, col, v))
  }

  /** Reading a + b is reading a, then reading b from where a left the pen and the screen. */
  lemma {:induction false} AfterAppend(a: seq<Chunk>, b: seq<Chunk>, p: Pen, row: nat, col: nat, v: Shown)
    ensures PenAfter(a + b, p) == PenAfter(b, PenAfter(a, p))
    ensures ShownAfter(a + b, p, row, col, v) == ShownAfter(b, PenAfter(a, p), row, col, ShownAfter(a, p, row, col, v))
  {
    if a == [] {
      assert a + b == b;
    } else {
      assert (a + b)[0] == a[0];
      assert (a + b)[1..] == a[1..] + b;
      AfterAppend(a[1..], b, Step(p, a[0]), row, col, Touch(p, a[0], row, col, v));
    }
  }

  lemma AfterTwo(x: Chunk, y: Chunk, p: Pen, row: nat, col: nat, v: Shown)
    ensures PenAfter([x, y], p) == Step(Step(p, x), y)
    ensures ShownAfter([x, y], p, row, col, v) == Touch(Step(p, x), y, row, col, Touch(p, x, row, col, v))
  {
    var s := [x, y];
    assert s[0] == x && s[1..] == [y];
    assert [y][0] == y && [y][1..] == [];
    assert PenAfter([y], Step(p, x)) == PenAfter([], Step(Step(p, x), y));
    assert ShownAfter([y], Step(p, x), row, col, Touch(p, x, row, col, v))
        == ShownAfter([], Step(Step(p, x), y), row, col, Touch(Step(p, x), y, row, col, Touch(p, x, row, col, v)));
  }

  lemma AfterThree(x: Chunk, y: Chunk, z: Chunk, p: Pen, row: nat, col: nat, v: Shown)
    ensures PenAfter([x, y, z], p) == PenAfter([y, z], Step(p, x))
    ensures ShownAfter([x, y, z], p, row, col, v) == ShownAfter([y, z], Step(p, x), row, col, Touch(p, x, row, col, v))
  {
    var s := [x, y, z];
    assert s[0] == x && s[1..] == [y, z];
    assert PenAfter(s, p) == PenAfter(s[1..], Step(p, s[0]));
    assert ShownAfter(s, p, row, col, v) == ShownAfter(s[1..], Step(p, s[0]), row, col, Touch(p, s[0], row, col, v));
  }

  /** The rows of the cursor moves, in order. */
  function MoveRows(cs: seq<Chunk>): seq<nat>
  {
    if cs == [] then [] else (if cs[0].MoveTo? then [cs[0].row] else []) + MoveRows(cs[1..])
  }

  lemma {:induction false} MoveRowsAppend(a: seq<Chunk>, b: seq<Chunk>)
    ensures MoveRows(a + b) == MoveRows(a) + MoveRows(b)
  {
    if a == [] {
      assert a + b == b;
    } else {
      assert (a + b)[0] == a[0];
      assert (a + b)[1..] == a[1..] + b;
      MoveRowsAppend(a[1..], b);
    }
  }

  /** A character put on the screen: where, and how it looks. */
  datatype Placed = Placed(row: nat, col: nat, shown: Shown)

  /** The characters the chunks put on the screen, in the order they are written. */
  function Painted(cs: seq<Chunk>, p: Pen): seq<Placed>
  {
    if cs == [] then []
    else (if cs[0].Glyph? then [Placed(p.row, p.col, Drawn(cs[0].ch, p.fg, p.bg))] else []) + Painted(cs[1..], Step(p, cs[0]))
  }

  lemma {:induction false} PaintedAppend(a: seq<Chunk>, b: seq<Chunk>, p: Pen)
    ensures Painted(a + b, p) == Painted(a, p) + Painted(b, PenAfter(a, p))
  {
    if a == [] {
      assert a + b == b;
    } else {
      assert (a + b)[0] == a[0];
      assert (a + b)[1..] == a[1..] + b;
      PaintedAppend(a[1..], b, Step(p, a[0]));
    }
  }

  lemma MoveRowsOne(x: Chunk)
    ensures MoveRows([x]) == if x.MoveTo? then [x.row] else []
  {
    assert [x][1..] == [];
  }

  lemma MoveRowsTwo(x: Chunk, y: Chunk)
    ensures MoveRows([x, y]) == MoveRows([x]) + MoveRows([y])
  {
    assert [x, y] == [x] + [y];
    MoveRowsAppend([x], [y]);
  }

  lemma PaintedOne(x: Chunk, p: Pen)
    ensures Painted([x], p) == if x.Glyph? then [Placed(p.row, p.col, Drawn(x.ch, p.fg, p.bg))] else []
  {
    assert [x][1..] == [];
  }

  lemma PaintedTwo(x: Chunk, y: Chunk, p: Pen)
    ensures Painted([x, y], p) == Painted([x], p) + Painted([y], Step(p, x))
  {
    var s := [x, y];
    assert s[0] == x && s[1..] == [y];
    assert Painted(s, p) == Painted([x], p) + Painted([y], Step(p, x)) by {
      PaintedOne(x, p);
    }
  }

  lemma AfterOne(x: Chunk, p: Pen)
    ensures PenAfter([x], p) == Step(p, x)
  {
    assert [x][1..] == [];
  }
}
