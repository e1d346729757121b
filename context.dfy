/**
 * The terminal context: the bytes it writes when it opens and closes, its
 * record of the terminal size and of a pending resize, the order of a
 * present, and the module-level stack of open contexts.
 */
module Context {
  import opened Wrappers
  import opened Bytes
  import opened Ecma48
  import opened Ansi
  import opened Terminal
  import opened Presenters

  /** `requested_dim`: a size is requested only when both the width and the height are given. */
  function RequestedDim(width: Option<nat>, height: Option<nat>): (d: Option<Dim>)
    ensures d.Some? <==> width.Some? && height.Some?
    ensures d.Some? ==> d.value == Dim(width.value, height.value)
  {
    if width.Some? && height.Some? then Some(Dim(width.value, height.value)) else None
  }

  /** What `_open` writes: hide the cursor, then the size request, then the title, each only if given. */
  function OpenBundle(requested: Option<Dim>, title: Option<string>): seq<Byte>
  {
    HideCursor()
    + (if requested.Some? then RequestTerminalDim(requested.value) else [])
    + (if title.Some? then RequestTerminalTitle(title.value) else [])
  }

  /** What `close` writes: cursor to (0, 0), clear the screen, show the cursor, reset. */
  function CloseBundle(): seq<Byte>
  {
    SetCursorPos(0, 0) + ClearScreen() + ShowCursor() + Reset()
  }

  lemma EncodeOne(c: Control)
    requires WellFormed(c)
    ensures EncodeAll([c]) == Encode(c)
  {
    assert [c][1..] == [];
  }

  /** The controls `_open` sends, in order. */
  function OpenControls(requested: Option<Dim>, title: Option<string>): seq<Control>
  {
    [Csi(true, [25], 'l' as Byte)]
    + (if requested.Some? then [Csi(false, [8, requested.value.height, requested.value.width], 't' as Byte)] else [])
    + (if title.Some? then [Osc(Ascii("0;") + Utf8(title.value))] else [])
  }

  /** Opening reads as: hide the cursor, then the window size request, then the title, each only if given. */
  lemma OpenBundleMeans(requested: Option<Dim>, title: Option<string>)
    requires title.Some? ==> 0x07 as char !in title.value
    ensures AllWellFormed(OpenControls(requested, title))
    ensures DecodeAll(OpenBundle(requested, title)) == Some(OpenControls(requested, title))
  {
    var hideCursor := [Csi(true, [25], 'l' as Byte)];
    var dim: seq<Control> := if requested.Some? then [Csi(false, [8, requested.value.height, requested.value.width], 't' as Byte)] else [];
    var named: seq<Control> := if title.Some? then [Osc(Ascii("0;") + Utf8(title.value))] else [];
    HideCursorMeans();
    EncodeOne(hideCursor[0]);
    if requested.Some? {
      RequestTerminalDimIsCsi(requested.value);
      EncodeOne(dim[0]);
    }
    if title.Some? {
      RequestTerminalTitleMeans(title.value);
      EncodeOne(named[0]);
    }
    EncodeAllAppend(hideCursor, dim);
    EncodeAllAppend(hideCursor + dim, named);
    DecodeEncodeAll(hideCursor + dim + named);
  }

  /** Closing reads as: cursor home (HVP 0;0), erase the display, show the cursor, reset, in that order. */
  lemma CloseBundleMeans()
    ensures DecodeAll(CloseBundle()) == Some([Csi(false, [0, 0], 'f' as Byte), Csi(false, [2], 'J' as Byte),
                                              Csi(true, [25], 'h' as Byte), Fs('c' as Byte)])
  {
    var a, b, c, d := Csi(false, [0, 0], 'f' as Byte), Csi(false, [2], 'J' as Byte), Csi(true, [25], 'h' as Byte), Fs('c' as Byte);
    ghost var ea, eb, ec, ed := Encode(a), Encode(b), Encode(c), Encode(d);
    assert CloseBundle() == ea + eb + ec + ed by {
      SetCursorPosMeans(0, 0);
      ClearScreenMeans();
      ShowCursorMeans();
      ResetMeans();
    }
    assert AllWellFormed([a, b, c, d]) && EncodeAll([a, b, c, d]) == ea + eb + ec + ed by {
      EncodeOne(a);
      EncodeOne(b);
      EncodeOne(c);
      EncodeOne(d);
      EncodeAllAppend([a], [b]);
      EncodeAllAppend([a, b], [c]);
      EncodeAllAppend([a, b, c], [d]);
      assert [a] + [b] == [a, b] && [a, b] + [c] == [a, b, c] && [a, b, c] + [d] == [a, b, c, d];
    }
    DecodeEncodeAll([a, b, c, d]);
  }

  function Max(a: int, b: int): int { if a >= b then a else b }

  /** The bytes a present adds after the frame: the size probe, when a resize was pending. */
  function ResizeOutput(waiting: bool): seq<Byte> { if waiting then SizeProbe() else [] }

  /** The presenter object a present may update. */
  function PresenterFrame(presenter: Option<SparsePresenter>): set<object>
  {
    if presenter.Some? then {presenter.value} else {}
  }

  class TerminalContext {
    var out: OutFile
    var termDim: Dim
    var resizeWaiting: bool
    var platformOpen: bool
    /** The sizes handed on to the events manager after a resize, in order. */
    var forwarded: seq<Dim>
    /** How many quit signals were handed on to the events manager. */
    var quits: nat

    /** The fields `make_terminal_context` sets before it asks for the size; the platform is open. */
    constructor (out: OutFile)
      ensures this.out == out && platformOpen && !resizeWaiting
      ensures termDim == Dim(0, 0) && forwarded == [] && quits == 0
    {
      this.out := out;
      termDim := Dim(0, 0);
      resizeWaiting := false;
      platformOpen := true;
      forwarded := [];
      quits := 0;
    }

    /** The resize signal's callback only notes that a resize is waiting. */
    method OnResize()
      modifies this
      ensures resizeWaiting
      ensures out == old(out) && termDim == old(termDim) && platformOpen == old(platformOpen)
      ensures forwarded == old(forwarded) && quits == old(quits)
    {
      resizeWaiting := true;
    }

    method OnQuit()
      modifies this
      ensures quits == old(quits) + 1
      ensures out == old(out) && termDim == old(termDim) && resizeWaiting == old(resizeWaiting)
      ensures platformOpen == old(platformOpen) && forwarded == old(forwarded)
    {
      quits := quits + 1;
    }

    /**
     * `_do_resize`: nothing unless a resize is waiting; otherwise probe the
     * size, keep it, hand it on and clear the flag. `raised` when the probe
     * gets no usable reply, which leaves the size and the flag as they were.
     */
    method DoResize(input: seq<Option<Byte>>) returns (raised: bool)
      modifies this, out
      ensures out == old(out)
      ensures out.written == old(out.written) + ResizeOutput(old(resizeWaiting))
      ensures raised <==> old(resizeWaiting) && TerminalSize(input).None?
      ensures !old(resizeWaiting) || raised ==>
        termDim == old(termDim) && resizeWaiting == old(resizeWaiting) && forwarded == old(forwarded)
      ensures old(resizeWaiting) && !raised ==>
        termDim == TerminalSize(input).value && !resizeWaiting && forwarded == old(forwarded) + [termDim]
      ensures platformOpen == old(platformOpen) && quits == old(quits)
    {
      raised := false;
      if !resizeWaiting {
        return;
      }
      var size := GetTerminalSize(out, input);
      if size.None? {
        raised := true;
        return;
      }
      termDim := size.value;
      forwarded := forwarded + [termDim];
      resizeWaiting := false;
    }

    /** `_open`. */
    method Open(requested: Option<Dim>, title: Option<string>)
      modifies out
      ensures out.written == old(out.written) + OpenBundle(requested, title)
    {
      ghost var start := out.written;
      ghost var d: seq<Byte> := if requested.Some? then RequestTerminalDim(requested.value) else [];
      ghost var t: seq<Byte> := if title.Some? then RequestTerminalTitle(title.value) else [];
      out.Write(HideCursor());
      if requested.Some? {
        out.Write(RequestTerminalDim(requested.value));
      } else {
        assert start + HideCursor() + d == start + HideCursor();
      }
      if title.Some? {
        out.Write(RequestTerminalTitle(title.value));
      } else {
        assert start + HideCursor() + d + t == start + HideCursor() + d;
      }
      Regroup(start, HideCursor(), d, t);
    }

    /** `close`: the closing bytes, the platform restored, and this context taken off the stack. */
    method Close(registry: Registry)
      modifies this, out, registry
      ensures out == old(out) && out.written == old(out.written) + CloseBundle()
      ensures !platformOpen
      ensures registry.stack == Without(old(registry.stack), this)
      ensures termDim == old(termDim) && resizeWaiting == old(resizeWaiting)
      ensures forwarded == old(forwarded) && quits == old(quits)
    {
      out.Write(SetCursorPos(0, 0));
      out.Write(ClearScreen());
      out.Write(ShowCursor());
      out.Write(Reset());
      platformOpen := false;
      registry.Remove(this);
    }

    /**
     * `present`: the frame is drawn for the size known before this call, and
     * only then is a waiting resize applied. No presenter means the naive one.
     */
    method Present(con: Console, clear: Rgb, align: Align, presenter: Option<SparsePresenter>, input: seq<Option<Byte>>)
      returns (raised: bool)
      modifies this, out, PresenterFrame(presenter)
      ensures out == old(out)
      ensures presenter.None? ==>
        out.written == old(out.written) + Join(NaiveChunks(con, NaiveLayout(con, old(termDim), align), PadBg(clear)))
                       + ResizeOutput(old(resizeWaiting))
      ensures presenter.Some? ==>
        out.written == old(out.written) + Join(SparseChunks(old(presenter.value.lastBuffer), con, old(termDim), clear, align))
                       + ResizeOutput(old(resizeWaiting))
      ensures presenter.Some? ==> presenter.value.lastBuffer == con.buffer
      ensures raised <==> old(resizeWaiting) && TerminalSize(input).None?
      ensures !old(resizeWaiting) || raised ==>
        termDim == old(termDim) && resizeWaiting == old(resizeWaiting) && forwarded == old(forwarded)
      ensures old(resizeWaiting) && !raised ==>
        termDim == TerminalSize(input).value && !resizeWaiting && forwarded == old(forwarded) + [termDim]
      ensures platformOpen == old(platformOpen) && quits == old(quits)
    {
      if presenter.None? {
        PresentNaive(out, con, termDim, clear, align);
      } else {
        presenter.value.Present(out, con, termDim, clear, align);
      }
      raised := DoResize(input);
    }

    /** `recommended_console_size`: each side is the larger of the minimum and the terminal's. */
    function RecommendedConsoleSize(minColumns: int, minRows: int): (size: Dim)
      reads this
      ensures size.width >= minColumns && size.width >= termDim.width
      ensures size.width == minColumns || size.width == termDim.width
      ensures size.height >= minRows && size.height >= termDim.height
      ensures size.height == minRows || size.height == termDim.height
    {
      Dim(Max(minColumns, termDim.width), Max(minRows, termDim.height))
    }

    /** `new_console`: a console of the recommended size in the given order, every cell `blank`. */
    function NewConsole(minColumns: int, minRows: int, order: Order, blank: Cell): (con: Console)
      reads this
      ensures con.order == order
      ensures ConWidth(con) == RecommendedConsoleSize(minColumns, minRows).width
      ensures ConHeight(con) == RecommendedConsoleSize(minColumns, minRows).height
      ensures forall i, j | 0 <= i < con.buffer.d0 && 0 <= j < con.buffer.d1 :: con.buffer.at[i][j] == blank
    {
      var size := RecommendedConsoleSize(minColumns, minRows);
      var d0 := if order == F then size.width else size.height;
      var d1 := if order == F then size.height else size.width;
      Console(order, Grid(d0, d1, seq(d0, i => seq(d1, j => blank))))
    }
  }

  // ---- The stack of open contexts ----------------------------------------

  /** The stack without any entry that is c itself. */
  function Without(s: seq<TerminalContext>, c: TerminalContext): (r: seq<TerminalContext>)
    ensures |r| <= |s|
    ensures forall x | x in r :: x in s && x != c
    ensures forall x | x in s && x != c :: x in r
  {
    if s == [] then []
    else (if s[0] == c then [] else [s[0]]) + Without(s[1..], c)
  }

  /** Taking c off keeps the other entries in their order. */
  lemma {:induction false} WithoutAppend(a: seq<TerminalContext>, b: seq<TerminalContext>, c: TerminalContext)
    ensures Without(a + b, c) == Without(a, c) + Without(b, c)
  {
    if a == [] {
      assert a + b == b;
    } else {
      assert (a + b)[0] == a[0];
      assert (a + b)[1..] == a[1..] + b;
      WithoutAppend(a[1..], b, c);
    }
  }

  /** `_context_stack`: contexts in the order they were made, with closed ones taken out. */
  class Registry {
    var stack: seq<TerminalContext>

    constructor ()
      ensures stack == []
    {
      stack := [];
    }

    /** A context made last is the active one. */
    method Push(c: TerminalContext)
      modifies this
      ensures stack == old(stack) + [c]
      ensures Active() == Some(c)
    {
      stack := stack + [c];
    }

    /** Closing a context other than the active one leaves the active one in place. */
    method Remove(c: TerminalContext)
      modifies this
      ensures stack == Without(old(stack), c)
      ensures old(Active()).Some? && old(Active()).value != c ==> Active() == old(Active())
    {
      if stack != [] && stack[|stack| - 1] != c {
        LastStaysActive(stack[..|stack| - 1], stack[|stack| - 1], c);
        assert stack == stack[..|stack| - 1] + [stack[|stack| - 1]];
      }
      stack := Without(stack, c);
    }

    /** The context `wait` takes its events from: the last one on the stack. */
    function Active(): (c: Option<TerminalContext>)
      reads this
      ensures c.None? <==> stack == []
      ensures c.Some? ==> c.value in stack && c.value == stack[|stack| - 1]
    {
      if stack == [] then None else Some(stack[|stack| - 1])
    }
  }

  /** Closing any other context leaves the most recently made one active. */
  lemma LastStaysActive(s: seq<TerminalContext>, last: TerminalContext, closed: TerminalContext)
    requires last != closed
    ensures var r := Without(s + [last], closed); r != [] && r[|r| - 1] == last
  {
    WithoutAppend(s, [last], closed);
    assert [last][1..] == [];
  }

  /**
   * `make_terminal_context`: open the platform, write the opening bytes, probe
   * the size, and only then put the new context on top of the stack. None
   * when the probe gets no usable reply (the source raises, or keeps waiting).
   */
  method MakeTerminalContext(registry: Registry, out: OutFile, requestedWidth: Option<nat>, requestedHeight: Option<nat>,
                             title: Option<string>, input: seq<Option<Byte>>)
    returns (ctx: Option<TerminalContext>)
    modifies registry, out
    ensures out.written == old(out.written) + OpenBundle(RequestedDim(requestedWidth, requestedHeight), title) + SizeProbe()
    ensures ctx.Some? <==> TerminalSize(input).Some?
    ensures ctx.None? ==> registry.stack == old(registry.stack)
    ensures ctx.Some? ==>
      fresh(ctx.value) && ctx.value.out == out && ctx.value.termDim == TerminalSize(input).value
      && !ctx.value.resizeWaiting && ctx.value.platformOpen && ctx.value.forwarded == [] && ctx.value.quits == 0
      && registry.stack == old(registry.stack) + [ctx.value]
  {
    var c := new TerminalContext(out);
    c.Open(RequestedDim(requestedWidth, requestedHeight), title);
    var size := GetTerminalSize(out, input);
    if size.None? {
      return None;
    }
    c.termDim := size.value;
    c.resizeWaiting := false;
    registry.Push(c);
    ctx := Some(c);
  }
}
