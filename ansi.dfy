/**
 * ANSI terminal control (src/tcod_ansi_terminal/_ansi.py): the byte templates the
 * program writes, the reading of a cursor position report, and the terminal size
 * probe. Every template starts with ESC (0x1B); the templates are written here with
 * that byte explicit.
 */
module Ansi {
  import opened Wrappers
  import opened Bytes
  import opened Ecma48

  /** An RGBA colour as the console stores it. */
  datatype Rgba = Rgba(r: Byte, g: Byte, b: Byte, a: Byte)

  /** A width and height in character cells: (columns, rows). */
  datatype Dim = Dim(width: nat, height: nat)

  /** The output stream: everything written to it, in order. Flushing is not modelled. */
  class OutFile {
    var written: seq<Byte>

    constructor ()
      ensures written == []
    {
      written := [];
    }

    method Write(bytes: seq<Byte>)
      modifies this
      ensures written == old(written) + bytes
    {
      written := written + bytes;
    }
  }

  // ---- Encoders ----------------------------------------------------------

  /** RIS, reset to initial state: ESC c. */
  function Reset(): seq<Byte> { [ESC] + Ascii("c") }

  /** DECTCEM reset (private mode 25): hide the cursor. */
  function HideCursor(): seq<Byte> { [ESC] + Ascii("[?25l") }

  /** DECTCEM set (private mode 25): show the cursor. */
  function ShowCursor(): seq<Byte> { [ESC] + Ascii("[?25h") }

  /** xterm window manipulation 8: resize the text area to height rows and width columns. */
  function RequestTerminalDim(dim: Dim): seq<Byte>
  {
    [ESC] + Ascii("[8;") + Decimal(dim.height) + Ascii(";") + Decimal(dim.width) + Ascii("t")
  }

  /** xterm operating system command 0: set the window title (UTF-8), terminated by BEL. */
  function RequestTerminalTitle(title: string): seq<Byte>
  {
    [ESC] + Ascii("]0;") + Utf8(title) + [BEL]
  }

  /** HVP, character and line position (ECMA-48 section 8.3.63): the row y first, then the column x. */
  function SetCursorPos(x: nat, y: nat): seq<Byte>
  {
    [ESC] + Ascii("[") + Decimal(y) + Ascii(";") + Decimal(x) + Ascii("f")
  }

  /** ED with parameter 2 (ECMA-48 section 8.3.39): erase the whole display. */
  function ClearScreen(): seq<Byte> { [ESC] + Ascii("[2J") }

  /** CUP, cursor position (ECMA-48 section 8.3.21): `ESC [ row ; col H`. */
  function CursorPosition(row: nat, col: nat): seq<Byte>
  {
    [ESC] + Ascii("[") + Decimal(row) + Ascii(";") + Decimal(col) + Ascii("H")
  }

  /** DSR with parameter 6 (ECMA-48 section 8.3.35): ask for a cursor position report. */
  function ReportRequest(): seq<Byte> { [ESC] + Ascii("[6n") }

  /** SGR (ECMA-48 section 8.3.117) with 24-bit colour: foreground 38;2;r;g;b, then background 48;2;r;g;b. */
  function SetColoursTrue(fg: Rgba, bg: Rgba): seq<Byte>
  {
    ColourHalf(Ascii("[38;2;"), fg) + ColourHalf(Ascii("[48;2;"), bg)
  }

  /** One half of the colour template: `ESC <head> r;g;b m`; the alpha component is not written. */
  function ColourHalf(head: seq<Byte>, c: Rgba): seq<Byte>
  {
    [ESC] + head + Decimal(c.r) + Ascii(";") + Decimal(c.g) + Ascii(";") + Decimal(c.b) + Ascii("m")
  }

  /** The coordinate the size probe moves the cursor to: 2**16 - 1 on both axes. */
  const PROBE_COORDINATE: nat := 65535

  /** What `get_terminal_size` writes: a move far past the bottom-right corner, then the report request. */
  function SizeProbe(): seq<Byte>
  {
    CursorPosition(PROBE_COORDINATE, PROBE_COORDINATE) + ReportRequest()
  }

  // ---- What the encoders mean --------------------------------------------

  function Fg(c: Rgba): seq<nat> { [38, 2, c.r, c.g, c.b] }
  function Bg(c: Rgba): seq<nat> { [48, 2, c.r, c.g, c.b] }

  lemma {:induction false} OneControl(c: Control)
    requires WellFormed(c)
    ensures DecodeAll(Encode(c)) == Some([c])
  {
    assert Encode(c) + [] == Encode(c);
    DecodeEncode(c, []);
    assert [c] + [] == [c];
  }

  lemma HideCursorMeans()
    ensures HideCursor() == Encode(Csi(true, [25], 'l' as Byte))
    ensures DecodeAll(HideCursor()) == Some([Csi(true, [25], 'l' as Byte)])
  {
    assert Decimal(25) == Ascii("25");
    assert HideCursor() == Encode(Csi(true, [25], 'l' as Byte));
    OneControl(Csi(true, [25], 'l' as Byte));
  }

  lemma ShowCursorMeans()
    ensures ShowCursor() == Encode(Csi(true, [25], 'h' as Byte))
    ensures DecodeAll(ShowCursor()) == Some([Csi(true, [25], 'h' as Byte)])
  {
    assert Decimal(25) == Ascii("25");
    assert ShowCursor() == Encode(Csi(true, [25], 'h' as Byte));
    OneControl(Csi(true, [25], 'h' as Byte));
  }

  lemma ResetMeans()
    ensures Reset() == Encode(Fs('c' as Byte))
    ensures DecodeAll(Reset()) == Some([Fs('c' as Byte)])
  {
    assert Reset() == Encode(Fs('c' as Byte));
    OneControl(Fs('c' as Byte));
  }

  lemma ClearScreenMeans()
    ensures ClearScreen() == Encode(Csi(false, [2], 'J' as Byte))
    ensures DecodeAll(ClearScreen()) == Some([Csi(false, [2], 'J' as Byte)])
  {
    assert ClearScreen() == Encode(Csi(false, [2], 'J' as Byte));
    OneControl(Csi(false, [2], 'J' as Byte));
  }

  lemma ReportRequestMeans()
    ensures DecodeAll(ReportRequest()) == Some([Csi(false, [6], 'n' as Byte)])
  {
    assert ReportRequest() == Encode(Csi(false, [6], 'n' as Byte));
    OneControl(Csi(false, [6], 'n' as Byte));
  }

  lemma Regroup3(e: seq<Byte>, h: seq<Byte>, w: seq<Byte>, f: Byte)
    ensures [ESC] + ([LBRACKET] + e + [SEMI]) + h + [SEMI] + w + [f] == [ESC, LBRACKET] + (e + [SEMI] + (h + [SEMI] + w)) + [f]
  {
  }

  lemma RequestTerminalDimIsCsi(dim: Dim)
    ensures RequestTerminalDim(dim) == Encode(Csi(false, [8, dim.height, dim.width], 't' as Byte))
  {
    var h, w := Decimal(dim.height), Decimal(dim.width);
    JoinDecimalsCons(dim.height, [dim.width]);
    JoinDecimalsCons(8, [dim.height, dim.width]);
    assert [8] + [dim.height, dim.width] == [8, dim.height, dim.width];
    assert [dim.height] + [dim.width] == [dim.height, dim.width];
    assert JoinDecimals([8, dim.height, dim.width]) == Decimal(8) + [SEMI] + (h + [SEMI] + w);
    assert Ascii("[8;") == [LBRACKET] + Decimal(8) + [SEMI];
    assert Ascii(";") == [SEMI] && Ascii("t") == ['t' as Byte];
    Regroup3(Decimal(8), h, w, 't' as Byte);
    CsiBytes([8, dim.height, dim.width], 't' as Byte);
  }

  /** The window request carries the height before the width. */
  lemma RequestTerminalDimMeans(dim: Dim)
    ensures DecodeAll(RequestTerminalDim(dim)) == Some([Csi(false, [8, dim.height, dim.width], 't' as Byte)])
  {
    RequestTerminalDimIsCsi(dim);
    OneControl(Csi(false, [8, dim.height, dim.width], 't' as Byte));
  }

  lemma RegroupOsc(a: seq<Byte>, u: seq<Byte>)
    ensures [ESC] + ([RBRACKET] + a) + u + [BEL] == [ESC, RBRACKET] + (a + u) + [BEL]
  {
  }

  /** The title request is one operating system command, provided the title holds no BEL. */
  lemma RequestTerminalTitleMeans(title: string)
    requires 0x07 as char !in title
    ensures BEL !in Ascii("0;") + Utf8(title) && RequestTerminalTitle(title) == Encode(Osc(Ascii("0;") + Utf8(title)))
    ensures DecodeAll(RequestTerminalTitle(title)) == Some([Osc(Ascii("0;") + Utf8(title))])
  {
    Utf8Ascii(title, BEL);
    var t := Ascii("0;") + Utf8(title);
    assert BEL !in t;
    assert Ascii("]0;") == [RBRACKET] + Ascii("0;");
    RegroupOsc(Ascii("0;"), Utf8(title));
    assert Encode(Osc(t)) == [ESC, RBRACKET] + t + [BEL];
    OneControl(Osc(t));
  }

  /** The bytes of a public control sequence with its parameters already joined. */
  lemma CsiBytes(ps: seq<nat>, f: Byte)
    requires 1 <= |ps| && IsFinalByte(f)
    ensures Encode(Csi(false, ps, f)) == [ESC, LBRACKET] + JoinDecimals(ps) + [f]
  {
    var j := JoinDecimals(ps);
    assert Encode(Csi(false, ps, f)) == [ESC, LBRACKET] + Marker(false) + j + [f];
    assert [ESC, LBRACKET] + [] == [ESC, LBRACKET];
  }

  lemma Regroup2(a: seq<Byte>, b: seq<Byte>, f: Byte)
    ensures [ESC] + [LBRACKET] + a + [SEMI] + b + [f] == [ESC, LBRACKET] + (a + [SEMI] + b) + [f]
  {
  }

  /** `ESC [ a ; b <f>` is the control sequence with the two parameters a and b. */
  lemma TwoParamCsi(a: nat, b: nat, f: Byte)
    requires IsFinalByte(f)
    ensures [ESC] + Ascii("[") + Decimal(a) + Ascii(";") + Decimal(b) + [f] == Encode(Csi(false, [a, b], f))
  {
    assert Ascii("[") == [LBRACKET];
    assert Ascii(";") == [SEMI];
    JoinDecimalsCons(a, [b]);
    assert [a] + [b] == [a, b];
    assert JoinDecimals([a, b]) == Decimal(a) + [SEMI] + Decimal(b);
    CsiBytes([a, b], f);
    Regroup2(Decimal(a), Decimal(b), f);
  }

  lemma SetCursorPosIsHvp(x: nat, y: nat)
    ensures SetCursorPos(x, y) == Encode(Csi(false, [y, x], 'f' as Byte))
  {
    assert Ascii("f") == ['f' as Byte];
    TwoParamCsi(y, x, 'f' as Byte);
  }

  /** HVP carries the row (y) before the column (x). */
  lemma SetCursorPosMeans(x: nat, y: nat)
    ensures SetCursorPos(x, y) == Encode(Csi(false, [y, x], 'f' as Byte))
    ensures DecodeAll(SetCursorPos(x, y)) == Some([Csi(false, [y, x], 'f' as Byte)])
  {
    SetCursorPosIsHvp(x, y);
    OneControl(Csi(false, [y, x], 'f' as Byte));
  }

  lemma CursorPositionIsCup(row: nat, col: nat)
    ensures CursorPosition(row, col) == Encode(Csi(false, [row, col], 'H' as Byte))
  {
    assert Ascii("H") == ['H' as Byte];
    TwoParamCsi(row, col, 'H' as Byte);
  }

  lemma CursorPositionMeans(row: nat, col: nat)
    ensures DecodeAll(CursorPosition(row, col)) == Some([Csi(false, [row, col], 'H' as Byte)])
  {
    CursorPositionIsCup(row, col);
    OneControl(Csi(false, [row, col], 'H' as Byte));
  }

  /** Regrouping of a five-field parameter string; free of any function, so cheap to prove. */
  lemma Regroup5(a: seq<Byte>, b: seq<Byte>, c: seq<Byte>, d: seq<Byte>, e: seq<Byte>, s: seq<Byte>)
    ensures a + s + (b + s + (c + s + (d + s + e))) == a + (s + b + s) + c + s + d + s + e
  {
  }

  /** The colour parameters `selector;2;r;g;b`, joined. */
  lemma ColourParams(selector: nat, c: Rgba)
    ensures JoinDecimals([selector, 2, c.r, c.g, c.b])
         == Decimal(selector) + ([SEMI] + Decimal(2) + [SEMI]) + Decimal(c.r) + [SEMI] + Decimal(c.g) + [SEMI] + Decimal(c.b)
  {
    JoinDecimalsCons(c.g, [c.b]);
    assert [c.g] + [c.b] == [c.g, c.b];
    JoinDecimalsCons(c.r, [c.g, c.b]);
    assert [c.r] + [c.g, c.b] == [c.r, c.g, c.b];
    JoinDecimalsCons(2, [c.r, c.g, c.b]);
    assert [2] + [c.r, c.g, c.b] == [2, c.r, c.g, c.b];
    JoinDecimalsCons(selector, [2, c.r, c.g, c.b]);
    assert [selector] + [2, c.r, c.g, c.b] == [selector, 2, c.r, c.g, c.b];
    Regroup5(Decimal(selector), Decimal(2), Decimal(c.r), Decimal(c.g), Decimal(c.b), [SEMI]);
  }

  lemma Regroup8(h: seq<Byte>, d: seq<Byte>, r: seq<Byte>, g: seq<Byte>, b: seq<Byte>, j: seq<Byte>, f: Byte)
    requires j == d + r + [SEMI] + g + [SEMI] + b
    ensures [ESC] + ([LBRACKET] + d) + r + [SEMI] + g + [SEMI] + b + [f] == [ESC, LBRACKET] + j + [f]
  {
  }

  lemma ColourHalfMeans(selector: nat, c: Rgba)
    ensures ColourHalf([LBRACKET] + Decimal(selector) + ([SEMI] + Decimal(2) + [SEMI]), c)
         == Encode(Csi(false, [selector, 2, c.r, c.g, c.b], 'm' as Byte))
  {
    var d := Decimal(selector) + ([SEMI] + Decimal(2) + [SEMI]);
    var j := JoinDecimals([selector, 2, c.r, c.g, c.b]);
    ColourParams(selector, c);
    assert Ascii(";") == [SEMI] && Ascii("m") == ['m' as Byte];
    assert [LBRACKET] + Decimal(selector) + ([SEMI] + Decimal(2) + [SEMI]) == [LBRACKET] + d;
    Regroup8([LBRACKET], d, Decimal(c.r), Decimal(c.g), Decimal(c.b), j, 'm' as Byte);
    CsiBytes([selector, 2, c.r, c.g, c.b], 'm' as Byte);
  }

  /** The head of each colour half: `[38;2;` and `[48;2;`. */
  lemma ColourHeads()
    ensures Ascii("[38;2;") == [LBRACKET] + Decimal(38) + ([SEMI] + Decimal(2) + [SEMI])
    ensures Ascii("[48;2;") == [LBRACKET] + Decimal(48) + ([SEMI] + Decimal(2) + [SEMI])
  {
    assert Decimal(38) == Ascii("38");
    assert Decimal(48) == Ascii("48");
    assert Decimal(2) == Ascii("2");
  }

  /** The colour sequence is the foreground SGR then the background SGR; alpha is not written. */
  lemma SetColoursTrueIsSgr(fg: Rgba, bg: Rgba)
    ensures SetColoursTrue(fg, bg) == EncodeAll([Csi(false, Fg(fg), 'm' as Byte), Csi(false, Bg(bg), 'm' as Byte)])
  {
    var f := Csi(false, Fg(fg), 'm' as Byte);
    var b := Csi(false, Bg(bg), 'm' as Byte);
    ColourHeads();
    ColourHalfMeans(38, fg);
    ColourHalfMeans(48, bg);
    assert EncodeAll([f, b]) == Encode(f) + Encode(b) by {
      assert [f, b][1..] == [b];
      assert EncodeAll([b]) == Encode(b) + EncodeAll([]);
    }
  }

  lemma SetColoursTrueMeans(fg: Rgba, bg: Rgba)
    ensures DecodeAll(SetColoursTrue(fg, bg)) == Some([Csi(false, Fg(fg), 'm' as Byte), Csi(false, Bg(bg), 'm' as Byte)])
  {
    SetColoursTrueIsSgr(fg, bg);
    DecodeEncodeAll([Csi(false, Fg(fg), 'm' as Byte), Csi(false, Bg(bg), 'm' as Byte)]);
  }

  /** Two colour pairs are written identically exactly when their red, green and blue agree. */
  lemma SetColoursTrueInjective(fg1: Rgba, bg1: Rgba, fg2: Rgba, bg2: Rgba)
    ensures SetColoursTrue(fg1, bg1) == SetColoursTrue(fg2, bg2)
        <==> Fg(fg1) == Fg(fg2) && Bg(bg1) == Bg(bg2)
  {
    SetColoursTrueMeans(fg1, bg1);
    SetColoursTrueMeans(fg2, bg2);
  }

  /** The size probe is the move to (65535, 65535) followed by the report request, in that order. */
  lemma SizeProbeMeans()
    ensures DecodeAll(SizeProbe()) == Some([Csi(false, [PROBE_COORDINATE, PROBE_COORDINATE], 'H' as Byte), Csi(false, [6], 'n' as Byte)])
  {
    var m := Csi(false, [PROBE_COORDINATE, PROBE_COORDINATE], 'H' as Byte);
    var q := Csi(false, [6], 'n' as Byte);
    assert JoinDecimals([PROBE_COORDINATE, PROBE_COORDINATE])
        == Decimal(PROBE_COORDINATE) + Ascii(";") + Decimal(PROBE_COORDINATE);
    assert CursorPosition(PROBE_COORDINATE, PROBE_COORDINATE) == Encode(m);
    assert ReportRequest() == Encode(q);
    assert EncodeAll([m, q]) == Encode(m) + Encode(q) by {
      assert [m, q][1..] == [q];
      assert EncodeAll([q]) == Encode(q) + EncodeAll([]);
    }
    DecodeEncodeAll([m, q]);
  }

  // ---- The cursor position report and the terminal size -----------------

  /** What `_get_cursor_position` comes to. */
  datatype CursorReply =
    | Position(x: nat, y: nat)  // the column, then the row
    | Malformed                 // a field is not a number, or there are fewer than two: the source raises
    | Unanswered                // the reads end before the reply does: the source would still be waiting

  const R_FINAL: Byte := 0x52  // 'R', the final byte of a cursor position report

  /** The bytes read before the first 'R', leaving out reads that returned nothing; None if no 'R' is read. */
  function ReplyBody(input: seq<Option<Byte>>): Option<seq<Byte>>
  {
    if input == [] then None
    else match input[0]
      case None => ReplyBody(input[1..])
      case Some(b) =>
        if b == R_FINAL then Some([])
        else Prepend([b], ReplyBody(input[1..]))
  }

  function Prepend(buf: seq<Byte>, body: Option<seq<Byte>>): Option<seq<Byte>>
  {
    match body
    case None => None
    case Some(rest) => Some(buf + rest)
  }

  lemma PrependNothing(body: Option<seq<Byte>>)
    ensures Prepend([], body) == body
  {
    if body.Some? {
      assert [] + body.value == body.value;
    }
  }

  lemma PrependTwice(a: seq<Byte>, b: seq<Byte>, body: Option<seq<Byte>>)
    ensures Prepend(a, Prepend(b, body)) == Prepend(a + b, body)
  {
    if body.Some? {
      assert a + (b + body.value) == (a + b) + body.value;
    }
  }

  /** `y, x = tuple(int(f) for f in buf.split(b';'))[:2]`, returned as (x, y). */
  function ParseReport(buf: seq<Byte>): CursorReply
  {
    match ParseFields(Split(buf, SEMI))
    case None => Malformed
    case Some(ns) => if |ns| < 2 then Malformed else Position(ns[1], ns[0])
  }

  /**
   * The reply to a report request, given the successive results of `getch()`:
   * anything but ESC [ as the first two input gives (0, 0).
   */
  function CursorReplyOf(input: seq<Option<Byte>>): CursorReply
  {
    if input == [] then Unanswered
    else if input[0] != Some(ESC) then Position(0, 0)
    else if |input| == 1 then Unanswered
    else if input[1] != Some(LBRACKET) then Position(0, 0)
    else match ReplyBody(input[2..])
      case None => Unanswered
      case Some(buf) => ParseReport(buf)
  }

  /** Writes the report request, then input the reply one byte at a time until 'R'. */
  method GetCursorPosition(out: OutFile, input: seq<Option<Byte>>) returns (reply: CursorReply)
    modifies out
    ensures out.written == old(out.written) + ReportRequest()
    ensures reply == CursorReplyOf(input)
  {
    out.Write(ReportRequest());
    if |input| == 0 {
      return Unanswered;
    }
    if input[0] != Some(ESC) {
      return Position(0, 0);
    }
    if |input| == 1 {
      return Unanswered;
    }
    if input[1] != Some(LBRACKET) {
      return Position(0, 0);
    }
    var buf: seq<Byte> := [];
    var i := 2;
    PrependNothing(ReplyBody(input[2..]));
    while i < |input|
      invariant 2 <= i <= |input|
      invariant out.written == old(out.written) + ReportRequest()
      invariant ReplyBody(input[2..]) == Prepend(buf, ReplyBody(input[i..]))
    {
      assert input[i..][1..] == input[i + 1..];
      match input[i] {
        case None =>
        case Some(b) =>
          if b == R_FINAL {
            assert buf + [] == buf;
            return ParseReport(buf);
          }
          PrependTwice(buf, [b], ReplyBody(input[i + 1..]));
          buf := buf + [b];
      }
      i := i + 1;
    }
    return Unanswered;
  }

  /** The terminal size: the probe's reply as (width, height), with (0, 0) read as (80, 24). */
  function TerminalSize(input: seq<Option<Byte>>): (size: Option<Dim>)
    ensures size != Some(Dim(0, 0))
  {
    match CursorReplyOf(input)
    case Position(x, y) => if x == 0 && y == 0 then Some(Dim(80, 24)) else Some(Dim(x, y))
    case Malformed => None
    case Unanswered => None
  }

  /** Moves the cursor to the probe coordinate, then asks where it ended up. */
  method GetTerminalSize(out: OutFile, input: seq<Option<Byte>>) returns (size: Option<Dim>)
    modifies out
    ensures out.written == old(out.written) + SizeProbe()
    ensures size == TerminalSize(input)
  {
    out.Write(CursorPosition(PROBE_COORDINATE, PROBE_COORDINATE));
    var reply := GetCursorPosition(out, input);
    match reply {
      case Position(x, y) =>
        if x == 0 && y == 0 {
          size := Some(Dim(80, 24));
        } else {
          size := Some(Dim(x, y));
        }
      case Malformed =>
        size := None;
      case Unanswered =>
        size := None;
    }
  }

  /** The input a terminal delivers for a sequence of bytes. */
  function Delivered(bytes: seq<Byte>): (input: seq<Option<Byte>>)
    ensures |input| == |bytes| && forall i | 0 <= i < |bytes| :: input[i] == Some(bytes[i])
  {
    seq(|bytes|, i requires 0 <= i < |bytes| => Some(bytes[i]))
  }

  /** A read that returned nothing, wherever it falls, does not change the reply's body. */
  lemma {:induction false} ReplyBodySkipsEmptyReads(before: seq<Option<Byte>>, after: seq<Option<Byte>>)
    ensures ReplyBody(before + [None] + after) == ReplyBody(before + after)
  {
    if before == [] {
      assert ([None] + after)[1..] == after;
      assert [] + [None] + after == [None] + after;
      assert [] + after == after;
    } else {
      ReplyBodySkipsEmptyReads(before[1..], after);
      assert (before + [None] + after)[1..] == before[1..] + [None] + after;
      assert (before + after)[1..] == before[1..] + after;
      assert (before + [None] + after)[0] == before[0] == (before + after)[0];
    }
  }

  lemma {:induction false} ReplyBodyOfDelivered(bytes: seq<Byte>, tail: seq<Option<Byte>>)
    requires R_FINAL !in bytes
    ensures ReplyBody(Delivered(bytes + [R_FINAL]) + tail) == Some(bytes)
  {
    var input := Delivered(bytes + [R_FINAL]) + tail;
    if bytes == [] {
      assert input[0] == Some(R_FINAL);
    } else {
      assert input[0] == Some(bytes[0]);
      assert input[1..] == Delivered(bytes[1..] + [R_FINAL]) + tail;
      ReplyBodyOfDelivered(bytes[1..], tail);
      assert [bytes[0]] + bytes[1..] == bytes;
    }
  }

  /** CPR, the terminal's cursor position report (ECMA-48 section 8.3.14): `ESC [ row ; col R`. */
  function PositionReport(row: nat, col: nat): seq<Byte>
  {
    Encode(Csi(false, [row, col], R_FINAL))
  }

  /** A cursor position report, whatever follows it, input back as (column, row). */
  lemma ReplyOfPositionReport(row: nat, col: nat, tail: seq<Option<Byte>>)
    ensures CursorReplyOf(Delivered(PositionReport(row, col)) + tail) == Position(col, row)
  {
    var j := JoinDecimals([row, col]);
    var input := Delivered(PositionReport(row, col)) + tail;
    assert PositionReport(row, col) == [ESC, LBRACKET] + (j + [R_FINAL]);
    assert input[0] == Some(ESC) && input[1] == Some(LBRACKET);
    assert input[2..] == Delivered(j + [R_FINAL]) + tail;
    JoinDecimalsBytes([row, col]);
    assert R_FINAL !in j by {
      forall i | 0 <= i < |j| ensures j[i] != R_FINAL { }
    }
    ReplyBodyOfDelivered(j, tail);
    JoinDecimalsRoundTrip([row, col]);
  }

  /** The terminal size read from a report is (column, row), except that (0, 0) becomes (80, 24). */
  lemma TerminalSizeOfPositionReport(row: nat, col: nat, tail: seq<Option<Byte>>)
    ensures TerminalSize(Delivered(PositionReport(row, col)) + tail)
         == if row == 0 && col == 0 then Some(Dim(80, 24)) else Some(Dim(col, row))
  {
    ReplyOfPositionReport(row, col, tail);
  }

  /**
   * A reply that does not begin with ESC [ gives the default size (80, 24),
   * including a first or second read that returned nothing.
   */
  lemma TerminalSizeDefault(input: seq<Option<Byte>>)
    requires (1 <= |input| && input[0] != Some(ESC))
          || (2 <= |input| && input[0] == Some(ESC) && input[1] != Some(LBRACKET))
    ensures TerminalSize(input) == Some(Dim(80, 24))
  {
  }
}
