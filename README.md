# tcod-ansi-terminal, modelled in Dafny

tcod-ansi-terminal lets a tcod game run in a plain ANSI terminal. It has three parts:

- **Presenters.** A console (a grid of cells, each a character with a foreground and a background colour) is turned into a stream of ECMA-48 control sequences.
  - The naive presenter redraws the whole terminal.
  - The sparse presenter keeps the previous frame and rewrites only the cells that changed.
- **Size probe.** This discovers the terminal's size by moving the cursor far away and asking where it ended up.
- **Events manager.** This turns keyboard bytes into tcod events.

Around these, a terminal context writes the opening and closing control bundles. It keeps the terminal size and a stack of open contexts. A small example world shows the intended use.

The model is split into modules:

- `Bytes` (bytes.dfy): ASCII, decimal rendering and parsing, splitting at `;`, UTF-8.
- `Ecma48` (ecma48.dfy): a reference encoder and decoder for the ECMA-48 control functions the package uses.
  - CSI with an optional private `?` marker.
  - Two-byte Fs escapes.
  - OSC ended by BEL.
  - Plain data bytes.

  It is the independent definition the encoders are proved against: each encoder's bytes decode back to the intended control functions.
- `Ansi` (ansi.dfy): the byte templates of `_ansi.py`, the output stream (a byte log), the cursor position report parser, and the size probe with its (80, 24) fallback.
- `Terminal` (terminal.dfy):
  - the chunks a presenter yields (cursor moves, erases, colour pairs, glyphs) and their bytes;
  - a screen model: where the pen is and what each terminal cell shows after a stream of chunks;
  - which rows are addressed, and which cells are painted, in which order.
- `Presenters` (presenters.dfy):
  - consoles in C and F memory order, and the draw plan;
  - `_draw_naive` and `_draw_sparse_changes` as loops that build their chunk lists;
  - the two presenters, the sparse one as a class holding the last buffer;
  - the proofs that both leave the terminal showing the console's intended picture.
- `Events` (events.dfy): the `EventsManager` class with its quit flag, resize flag and queue of events read ahead.
- `Context` (context.dfy): the `TerminalContext` class, the context stack, the open and close bundles, and `make_terminal_context`.
- `ExampleWorld` (world.dfy): `_make_walls` over a two-dimensional array, and the `World` class with `move_player`.

Modelling choices:

- Several byte literals in the source begin with an ESC byte (0x1b), which does not display. The model writes it explicitly as `ESC`.
- Keyboard reads and the reply to the size probe are inputs to the model:
  - a sequence of `Option<Byte>` for `getch`, where None means no byte was read: the timeout expired or a signal woke the read. The size-probe reads have no timeout, so there None always means a signal;
  - a `Read` value for one input step.
- The escape decoder's result is an input of type `Option<EscapeInput>`.
- Signal callbacks are methods invoked between steps.

## Model

| member | source | states |
|---|---|---|
| Ansi.HideCursorMeans | src/tcod_ansi_terminal/_ansi.py:11-12 | hide-cursor is exactly the private-mode reset CSI ? 25 l and decodes to that one control function |
| Ansi.ShowCursorMeans | src/tcod_ansi_terminal/_ansi.py:14-15 | show-cursor is exactly CSI ? 25 h and decodes to it |
| Ansi.ResetMeans | src/tcod_ansi_terminal/_ansi.py:8-9 | reset is the Fs escape ESC c (RIS) and decodes to it |
| Ansi.ClearScreenMeans | src/tcod_ansi_terminal/_ansi.py:28-29 | clear-screen is ED with parameter 2 (CSI 2 J) and decodes to it |
| Ansi.RequestTerminalDimIsCsi | src/tcod_ansi_terminal/_ansi.py:17-19 | the size request is the xterm window operation CSI 8 ; height ; width t, height first |
| Ansi.RequestTerminalDimMeans | src/tcod_ansi_terminal/_ansi.py:17-19 | the size request decodes to exactly that one control function, for every size |
| Ansi.RequestTerminalTitleMeans | src/tcod_ansi_terminal/_ansi.py:21-22 | for a title without BEL, the title request is the OSC "0;" followed by the UTF-8 title and ended by BEL, and decodes to it |
| Ansi.SetCursorPosIsHvp | src/tcod_ansi_terminal/_ansi.py:24-26 | set_cursor_pos((x, y)) is HVP with the row y first and the column x second |
| Ansi.SetCursorPosMeans | src/tcod_ansi_terminal/_ansi.py:24-26 | set_cursor_pos decodes to the single HVP control with parameters [y, x] |
| Ansi.CursorPositionIsCup | src/tcod_ansi_terminal/_ansi.py:50 | the probe's cursor move is CUP (CSI row ; col H) |
| Ansi.CursorPositionMeans | src/tcod_ansi_terminal/_ansi.py:50 | the CUP move decodes to the single control with parameters [row, col] |
| Ansi.ReportRequestMeans | src/tcod_ansi_terminal/_ansi.py:32 | the report request is DSR 6 (CSI 6 n) |
| Ansi.ColourHalfMeans | src/tcod_ansi_terminal/_ansi.py:61-62 | each half of the colour template is the SGR CSI selector;2;r;g;b m |
| Ansi.SetColoursTrueIsSgr | src/tcod_ansi_terminal/_ansi.py:57-62 | make_set_colours_true is the foreground SGR 38;2;r;g;b, then the background SGR 48;2;r;g;b; alpha plays no part |
| Ansi.SetColoursTrueMeans | src/tcod_ansi_terminal/_ansi.py:57-62 | the colour bytes decode to exactly those two SGR controls, foreground first |
| Ansi.SetColoursTrueInjective | src/tcod_ansi_terminal/_ansi.py:61-62 | two colour pairs give the same bytes if and only if their RGB parts are equal |
| Ansi.SizeProbeMeans | src/tcod_ansi_terminal/_ansi.py:49-52 | the size probe writes CUP to (65535, 65535), then DSR 6, and nothing else |
| Ansi.OutFile.Write | src/tcod_ansi_terminal/_ansi.py:9 | writing appends the bytes to the stream's log |
| Ansi.GetCursorPosition | src/tcod_ansi_terminal/_ansi.py:31-46 | the loop writes the report request and returns the parse of the reply (ESC [ row ; col R gives (col, row); anything else first gives (0, 0)) |
| Ansi.ReplyBodySkipsEmptyReads | src/tcod_ansi_terminal/_ansi.py:37-39 | reads that return nothing do not add to the reply |
| Ansi.ReplyBodyOfDelivered | src/tcod_ansi_terminal/_ansi.py:36-42 | the reply buffer is every byte read before the first R |
| Ansi.ReplyOfPositionReport | src/tcod_ansi_terminal/_ansi.py:43-45 | a report ESC [ a ; b R parses to (b, a), the column then the row, whatever follows it |
| Ansi.TerminalSize | src/tcod_ansi_terminal/_ansi.py:53-55 | the size is never (0, 0) |
| Ansi.GetTerminalSize | src/tcod_ansi_terminal/_ansi.py:48-55 | the method writes the probe and returns the size the reply gives |
| Ansi.TerminalSizeOfPositionReport | src/tcod_ansi_terminal/_ansi.py:53-55 | a report of (0, 0) becomes (80, 24); any other report is returned unchanged as (width, height) |
| Ansi.TerminalSizeDefault | src/tcod_ansi_terminal/_ansi.py:46-54 | a reply whose first read is not ESC, or whose second read after ESC is not [, gives the default (80, 24); a read that returned nothing counts as not matching |
| Bytes.DecimalRoundTrip | src/tcod_ansi_terminal/_ansi.py:19 | `%i` renders a natural number as digits that read back as the same number |
| Bytes.DecimalInjective | src/tcod_ansi_terminal/_ansi.py:19 | different numbers render differently |
| Bytes.SplitField | src/tcod_ansi_terminal/_ansi.py:43 | splitting at `;` peels off the first field |
| Bytes.JoinDecimalsRoundTrip | src/tcod_ansi_terminal/_ansi.py:43 | splitting numbers joined by `;` and parsing each field gives the numbers back |
| Bytes.ParseFields | src/tcod_ansi_terminal/_ansi.py:43 | the fields read as numbers exactly when every field is a non-empty run of digits, one number per field |
| Bytes.Utf8Char | src/tcod_ansi_terminal/_ansi.py:22 | a character encodes to one to four bytes; ASCII to itself, and any other character to bytes from 0x80 up |
| Bytes.Utf8Ascii | src/tcod_ansi_terminal/_ansi.py:22 | an ASCII byte occurs in the UTF-8 title exactly when its character occurs in the title |
| Ecma48.DecodeEncode | src/tcod_ansi_terminal/_ansi.py:8-29 | decoding any well-formed control function's bytes gives it back, with the rest of the stream untouched |
| Ecma48.DecodeEncodeAll | src/tcod_ansi_terminal/_ansi.py:8-29 | decoding a stream of encoded control functions gives back the sequence |
| Ecma48.EncodeAllInjective | src/tcod_ansi_terminal/_ansi.py:8-29 | two sequences of control functions encode alike exactly when they are equal |
| Terminal.JoinAppend | src/tcod_ansi_terminal/_presenters.py:120 | `b''.join` of two chunk lists is the join of each, one after the other |
| Terminal.ChunkEncodes | src/tcod_ansi_terminal/_presenters.py:79-93 | every chunk the presenters yield is the encoding of ECMA-48 control functions (CUP, EL, two SGR) or of plain character bytes |
| Terminal.JoinReads | src/tcod_ansi_terminal/_presenters.py:120-129 | what a presenter writes decodes to the control functions of its chunks, in order |
| Terminal.AfterAppend | src/tcod_ansi_terminal/_presenters.py:120 | the screen after two chunk lists is the screen after the second, started from where the first left the pen and the screen |
| Terminal.MoveRowsAppend | src/tcod_ansi_terminal/_presenters.py:79-84 | the rows addressed by two chunk lists are those of the first, then those of the second |
| Terminal.PaintedAppend | src/tcod_ansi_terminal/_presenters.py:89-90 | the cells painted by two chunk lists are those of the first, then those of the second from where the first left the pen |
| Presenters.Transpose | src/tcod_ansi_terminal/_presenters.py:47-54 | the other memory order holds the same cells with the indices swapped |
| Presenters.OrdersAgree | src/tcod_ansi_terminal/_presenters.py:47-54 | a C-order buffer read as buf[y, x] and its transpose read in F order as buf[x, y] have the same dimensions and the same cell everywhere |
| Presenters.DiffMarksChanges | src/tcod_ansi_terminal/_presenters.py:179 | in either order, the diff mask marks a cell exactly when it changed |
| Presenters.DiffMarks | src/tcod_ansi_terminal/_presenters.py:179 | the diff mask marks exactly the changed cells, all at once |
| Presenters.Share | src/tcod_ansi_terminal/_presenters.py:59-60 | the padding taken is at most the spare room |
| Presenters.ShareBounds | src/tcod_ansi_terminal/_presenters.py:59-60 | the padding is int(spare × alignment), rounded down |
| Presenters.GetDrawPlan | src/tcod_ansi_terminal/_presenters.py:40-62 | the drawn area is the console clipped to the terminal (each side is the console's or the terminal's); the padding and drawn area fit in the terminal |
| Presenters.PlanEdges | src/tcod_ansi_terminal/_presenters.py:59-60 | alignment 0 puts the console against the left or top edge, alignment 1 against the right or bottom edge |
| Presenters.CentredPadding | src/tcod_ansi_terminal/_presenters.py:59-60 | centred, the left padding is the right padding or one less |
| Presenters.NaiveLayout | src/tcod_ansi_terminal/_presenters.py:118-125 | the layout passed to _draw_naive fits the console and spans the terminal exactly (pad_right and pad_bottom are never negative) |
| Presenters.DrawPadRows | src/tcod_ansi_terminal/_presenters.py:78-81 | the padding loop yields a whole-line erase for each of its rows, moving down one row at a time |
| Presenters.DrawRow | src/tcod_ansi_terminal/_presenters.py:84-93 | one row of the loop: the cursor move, the left erase, each cell as colours and character, and the right erase |
| Presenters.DrawNaive | src/tcod_ansi_terminal/_presenters.py:64-100 | the generator's chunks are the specified naive chunks: top padding, drawn rows, bottom padding |
| Presenters.PresentNaive | src/tcod_ansi_terminal/_presenters.py:107-130 | NaivePresenter.present appends exactly the naive chunks' bytes for the plan's layout |
| Presenters.RightEraseOnlyWithPadding | src/tcod_ansi_terminal/_presenters.py:91-93 | a drawn row erases to the end of the line if and only if there is right padding |
| Presenters.NaiveShowsPicture | src/tcod_ansi_terminal/_presenters.py:64-100 | whatever the screen showed before, after the naive chunks every terminal cell shows the intended picture: the console's cell in the drawn area, an erased cell in the clear colour elsewhere |
| Presenters.NaiveRowsInOrder | src/tcod_ansi_terminal/_presenters.py:75-100 | the naive chunks address the terminal rows 1, 2, …, height, each exactly once, in order |
| Presenters.NaivePaintsRowMajor | src/tcod_ansi_terminal/_presenters.py:83-90 | the naive chunks paint every visible cell exactly once, in row-major order, at its place, with its character and colours |
| Presenters.DrawSparseColumn | src/tcod_ansi_terminal/_presenters.py:141-146 | one column of the ndindex loop: the marked cells of the column, top to bottom |
| Presenters.DrawSparseChanges | src/tcod_ansi_terminal/_presenters.py:132-146 | the generator's chunks are the specified sparse chunks, column by column |
| Presenters.SparseChangesShow | src/tcod_ansi_terminal/_presenters.py:141-146 | after the sparse chunks, a cell shows the new console cell if it is marked in the drawn area, and is unchanged otherwise |
| Presenters.SparseRepaints | src/tcod_ansi_terminal/_presenters.py:141-146 | starting from the previous frame's picture, redrawing the changed cells gives the new frame's picture at every terminal cell; the sparse position (row y + pad_top + 1, column x + pad_left + 1) is the naive one |
| Presenters.SparseFallsBack | src/tcod_ansi_terminal/_presenters.py:168-175 | when the shape changed, the sparse presenter writes exactly what the naive presenter writes |
| Presenters.FirstPresentRedraws | src/tcod_ansi_terminal/_presenters.py:153-175 | the stored buffer starts with shape (0, 0), so the first present of any console of another shape is a full redraw |
| Presenters.PresentChanges | src/tcod_ansi_terminal/_presenters.py:177-187 | the same-shape branch appends the sparse chunks of the diff |
| Presenters.SparsePresenter.constructor | src/tcod_ansi_terminal/_presenters.py:153-155 | the stored buffer starts empty |
| Presenters.SparsePresenter.Present | src/tcod_ansi_terminal/_presenters.py:157-191 | a present appends the sparse presenter's chunks and then stores the presented buffer |
| Presenters.SparsePresentShowsPicture | src/tcod_ansi_terminal/_presenters.py:157-189 | after every sparse present the terminal shows the new console's picture: always after a shape change, and otherwise whenever it showed the previous frame in the same order |
| Presenters.SparseRepeatWritesNothing | src/tcod_ansi_terminal/_presenters.py:179-187 | presenting an unchanged buffer a second time writes no bytes |
| Events.KeyPress | src/tcod_ansi_terminal/_internal_event.py:73-83 | a key yields three events with the typed byte as TextInput in the middle; it raises exactly for bytes from 128 up; any other ASCII byte that is not an upper-case letter gives KeyDown and KeyUp with the byte as symbol and no modifier; an upper-case letter gives the lower-case symbol with Shift |
| Events.KeyPressTriple | src/tcod_ansi_terminal/_internal_event.py:81-83 | the three events are KeyDown, TextInput, KeyUp, with the same symbol and modifier on KeyDown and KeyUp |
| Events.KeyPressCaseFolding | src/tcod_ansi_terminal/_internal_event.py:74-80 | an upper-case letter gives the lower-case symbol with Shift; TextInput keeps the original letter; the lower-case letter itself has no modifier |
| Events.KeyPressInjective | src/tcod_ansi_terminal/_internal_event.py:73-83 | different ASCII keys give different events |
| Events.StepQuitOnce | src/tcod_ansi_terminal/_internal_event.py:62-64 | a pending quit gives exactly one Quit, first; without one the step has no Quit |
| Events.QuietSteps | src/tcod_ansi_terminal/_internal_event.py:61-71 | no key, an escape sequence the decoder does not recognise, or an unhandled escape input yields no events |
| Events.CountQuitsAppend | src/tcod_ansi_terminal/_internal_event.py:42-44 | the Quits of queued events followed by a fresh step are those of each |
| Events.EventsManager.constructor | src/tcod_ansi_terminal/_internal_event.py:17-31 | a new manager has no pending quit or resize and an empty queue |
| Events.EventsManager.OnQuit | src/tcod_ansi_terminal/_internal_event.py:50-51 | the quit signal only sets the quit flag, so repeated signals are one |
| Events.EventsManager.OnResize | src/tcod_ansi_terminal/_internal_event.py:53-54 | the resize signal only sets the resize flag |
| Events.EventsManager.FinalizeResize | src/tcod_ansi_terminal/_internal_event.py:56-58 | clears the resize flag and passes (width, height) to the callback |
| Events.EventsManager.HandleEscapeInput | src/tcod_ansi_terminal/_internal_event.py:89-100 | a window resize yields one WindowResized with its size and finalises the resize; a special key yields KeyDown then KeyUp; anything else yields nothing |
| Events.EventsManager.HandleInput | src/tcod_ansi_terminal/_internal_event.py:60-71 | one step yields the specified burst (pending Quit first), clears the quit flag, and changes the resize state only for a window resize |
| Events.EventsManager.Catchup | src/tcod_ansi_terminal/_internal_event.py:33-37 | with no resize pending nothing changes; otherwise the size is requested and one step's events are appended to the queue, in order |
| Events.EventsManager.Wait | src/tcod_ansi_terminal/_internal_event.py:39-44 | the queued events come first in arrival order, then one fresh step's events; the queue is left empty; a raise during catch-up delivers nothing and leaves the events read before it queued; the quit flag is cleared, and the resize flag, the resize callbacks and the size requests after the call are given on every path |
| Events.EventsManager.RequestResizeEvent | src/tcod_ansi_terminal/_internal_event.py:46-48 | a requested resize always catches up: the size is requested and one step is queued |
| Context.RequestedDim | src/tcod_ansi_terminal/_internal_context.py:128-131 | a size is requested only when both the width and the height are given |
| Context.OpenBundleMeans | src/tcod_ansi_terminal/_internal_context.py:47-53 | opening writes hide-cursor, then the size request if any, then the title if any, and nothing else |
| Context.CloseBundleMeans | src/tcod_ansi_terminal/_internal_context.py:58-64 | closing writes HVP 0;0, ED 2, show-cursor, reset, in that order |
| Context.TerminalContext.constructor | src/tcod_ansi_terminal/_internal_context.py:132-133 | a new context writes to the given stream and has no resize waiting |
| Context.TerminalContext.OnResize | src/tcod_ansi_terminal/_internal_context.py:34-35 | the resize signal only sets the waiting flag (so it is idempotent) |
| Context.TerminalContext.OnQuit | src/tcod_ansi_terminal/_internal_context.py:44-45 | the quit signal is forwarded once and changes nothing else |
| Context.TerminalContext.DoResize | src/tcod_ansi_terminal/_internal_context.py:37-42 | without a waiting resize nothing changes; otherwise the size is probed, replaces the stored size, is forwarded, and the flag is cleared |
| Context.TerminalContext.Open | src/tcod_ansi_terminal/_internal_context.py:47-53 | appends the opening bundle |
| Context.TerminalContext.Close | src/tcod_ansi_terminal/_internal_context.py:58-66 | appends the closing bundle, closes the platform, and removes this context from the stack, keeping the others in order |
| Context.TerminalContext.Present | src/tcod_ansi_terminal/_internal_context.py:71-89 | the frame is drawn with the size held before the present (naive when no presenter is given), then any waiting resize is applied |
| Context.TerminalContext.RecommendedConsoleSize | src/tcod_ansi_terminal/_internal_context.py:110-111 | each side is the larger of the minimum and the terminal's side |
| Context.TerminalContext.NewConsole | src/tcod_ansi_terminal/_internal_context.py:100-108 | a new console has the recommended size, the requested order, and every cell blank |
| Context.Without | src/tcod_ansi_terminal/_internal_context.py:66 | filtering out a context keeps exactly the other contexts |
| Context.WithoutAppend | src/tcod_ansi_terminal/_internal_context.py:66 | filtering keeps the order of what it keeps |
| Context.Registry.Push | src/tcod_ansi_terminal/_internal_context.py:142 | a new context goes on the end of the stack and becomes the active one |
| Context.Registry.Remove | src/tcod_ansi_terminal/_internal_context.py:66 | close takes every occurrence of the context out of the stack; closing a context other than the active one leaves the active one unchanged |
| Context.Registry.Active | src/tcod_ansi_terminal/event.py:48-50 | the context events are taken from is the last one on the stack, and there is one exactly when the stack is not empty |
| Context.LastStaysActive | src/tcod_ansi_terminal/_internal_context.py:66 | closing any other context leaves the most recently made one on top |
| Context.MakeTerminalContext | src/tcod_ansi_terminal/_internal_context.py:120-143 | writes the opening bundle then the size probe; the new context has the probed size and no waiting resize, and goes on top of the stack |
| ExampleWorld.MakeWalls | example/_world.py:10-22 | a cell is a wall exactly when it is on the border or is one of the drawn spots |
| ExampleWorld.World.constructor | example/_world.py:25-29 | the player starts at (w // 2, h // 2) on a floor cell; the border is solid when both sides are at least 3 |
| ExampleWorld.World.MovePlayer | example/_world.py:31-35 | a move into a wall is refused; any other move adds the offset; walls never change; the player stays on floor and inside the border |

## Left out

- Platform I/O is not part of this model: raw mode, `select`, `flush`, `time.sleep` in `catchup`, logging, and the signal handlers. Keyboard reads and the reply to the size probe are inputs. Signal callbacks are methods called between steps.
- The escape decoder (`_ansi.escape`, `get_escape_input`, its input types) and `request_get_terminal_dim` are not part of this model. A step takes the decoder's result as an input, and the size request is counted in `dimRequests`.
- Context.TerminalContext.DoResize, Context.TerminalContext.OnQuit, Context.MakeTerminalContext: `_internal_context.py:137` constructs `EventsManager` with one argument, although its constructor takes three. `_do_resize` and `_on_quit` call `on_resize` and `on_quit`, which `EventsManager` does not have. Each module is modelled on its own terms: the context records the sizes it forwards and counts the quits it forwards.
- Ansi.GetCursorPosition: a reply that never contains R keeps the source waiting forever. The model returns `Unanswered` when the reads run out. A field that `int()` cannot read makes the source raise; the model returns `Malformed`. In both cases the size is None, and `make_terminal_context` gives no context.
- Bytes.ParseFields: Python's `int()` also accepts surrounding whitespace, a sign and underscores. The model reads plain digits only, which is all a cursor position report contains. Any other field counts as malformed.
- Events.KeyPress: `key.decode('ascii')` raises for a byte from 128 up. The model reports this as a raised step (`Burst.raised`) with no key events, rather than dropping the byte.
- Events.EventsManager.Catchup: it runs one input step, as the source does. It does not loop until a size report arrives.
- Generators are modelled as fully consumed. Each presenter's output is the list of chunks it yields, and `b''.join` is `Join`.
- Cell characters: the source yields the console buffer's integer `ch` field straight into `b''.join` (`_presenters.py:88-90` and `144-146`). The model's cell character (`Cell.ch`, written out by `Glyph`) is already the bytes to write. How tcod's code point becomes those bytes is not modelled.
- Presenters.NaiveShowsPicture: the screen model has no autowrap and gives each glyph one column. A wide or combining character is not modelled.
- Context.TerminalContext.NewConsole: tcod's default cell is a parameter (`blank`). The tcod `Console` constructor is not part of this model.
- The alignment is a real number in [0, 1]. `int()` of the non-negative product is its floor. IEEE floating-point rounding is not modelled.
- ExampleWorld.MakeWalls, ExampleWorld.World.constructor: the model requires both sides to be at least 1, and with a side of 1 it allows no spots. The source does not check the size. A side of 0 raises IndexError in the source (`example/_world.py:13`, `:16` or `:29`). A side of 1 with at least one spot to draw raises ValueError from `randint(1, 0)` (`:19-20`). Both error paths are excluded by the requires rather than modelled as raised outcomes.
- ExampleWorld.MakeWalls: the random wall spots are an input sequence within [1, dim − 1]. The RNG and the count `int(w × h × 0.05)` are not modelled.
- Presenters.SparsePresentShowsPicture: the sparse presenter only redraws changed cells. The picture is right afterwards only if the terminal already showed the previous frame, laid out the same way with the same clear colour and alignment. That is an assumption of the lemma, not something the presenter checks.
- ExampleWorld.World.MovePlayer: the target must be an index numpy accepts, that is within minus the size up to the size less one on each axis. Outside that range `self.walls[new_pos]` raises IndexError in the source, and the model requires the target to be in range instead.
- Context.RequestedDim, Context.MakeTerminalContext: the model takes only non-negative requested sizes. The source does not check for negative ones, and `%i` would write a '-' sign into the size request, which is not a parameter byte of the control sequence.
- The example's rendering, the sampling helper, the packaging files and the abstract protocols have no logic to model.
