/**
 * The events manager: it turns one read of the keyboard into a burst of
 * events, and it keeps a quit flag, a resize flag and a queue of events read
 * ahead while catching up with a pending resize.
 */
module Events {
  import opened Wrappers
  import opened Bytes

  /** KMOD_NONE and KMOD_SHIFT. */
  datatype Modifier = NoMod | Shift

  datatype Event =
    | KeyDown(sym: nat, mod: Modifier)
    | TextInput(text: Byte)          // the one ASCII character typed
    | KeyUp(sym: nat, mod: Modifier)
    | Quit
    | WindowResized(width: nat, height: nat)

  /** What the escape decoder makes of an escape sequence. */
  datatype EscapeInput = WindowResizeInput(width: nat, height: nat) | SpecialKeyInput(sym: nat) | OtherInput

  /**
   * One `getch` and what follows it: nothing was read, a key other than the
   * escape introducer, or the escape introducer and what the escape decoder
   * returned for the bytes after it (None when it recognised nothing).
   */
  datatype Read = Nothing | Key(b: KeyByte) | Escape(decoded: Option<EscapeInput>)

  /** A byte read as a key press: the escape introducer goes to the escape decoder instead. */
  type KeyByte = b: Byte | b != ESC

  /** The events of one step, and whether the step raised before it finished. */
  datatype Burst = Burst(events: seq<Event>, raised: bool)

  predicate IsUpper(b: Byte) { 'A' as Byte <= b <= 'Z' as Byte }

  function ToLower(b: Byte): Byte { if IsUpper(b) then b + 32 else b }

  /**
   * `_handle_key_press`: KeyDown, TextInput, KeyUp; an upper-case letter is
   * reported as its lower-case symbol with Shift. None: decoding the byte as
   * ASCII raises, for bytes from 128 up.
   */
  function KeyPress(b: Byte): (r: Option<seq<Event>>)
    ensures r.None? <==> b >= 128
    ensures r.Some? ==> |r.value| == 3 && r.value[1] == TextInput(b)
    ensures b < 128 && !IsUpper(b) ==> r == Some([KeyDown(b as nat, NoMod), TextInput(b), KeyUp(b as nat, NoMod)])
    ensures IsUpper(b) ==> r == Some([KeyDown(b as nat + 32, Shift), TextInput(b), KeyUp(b as nat + 32, Shift)])
  {
    if b >= 128 then None
    else
      var mod := if IsUpper(b) then Shift else NoMod;
      Some([KeyDown(ToLower(b), mod), TextInput(b), KeyUp(ToLower(b), mod)])
  }

  /** `_handle_special_key`. */
  function SpecialKey(sym: nat): seq<Event>
  {
    [KeyDown(sym, NoMod), KeyUp(sym, NoMod)]
  }

  /** The events of `_handle_escape_input`; an input it does not handle is only logged. */
  function EscapeEvents(e: EscapeInput): seq<Event>
  {
    match e
    case WindowResizeInput(w, h) => [WindowResized(w, h)]
    case SpecialKeyInput(sym) => SpecialKey(sym)
    case OtherInput => []
  }

  /** The size `_handle_input` passes to the resize callback for this read, if any. */
  function ResizeOf(r: Read): Option<(nat, nat)>
  {
    match r
    case Escape(Some(WindowResizeInput(w, h))) => Some((w, h))
    case _ => None
  }

  /** The calls `_handle_input` makes to the resize callback for this read, in order. */
  function Resizes(r: Read): (calls: seq<(nat, nat)>)
    ensures |calls| <= 1
    ensures calls == [] <==> ResizeOf(r).None?
  {
    match ResizeOf(r)
    case Some(d) => [d]
    case None => []
  }

  /** The events of one `_handle_input` step, given whether a quit was pending. */
  function StepBurst(quit: bool, r: Read): Burst
  {
    var q := if quit then [Quit] else [];
    match r
    case Nothing => Burst(q, false)
    case Key(b) =>
      (match KeyPress(b)
       case None => Burst(q, true)
       case Some(es) => Burst(q + es, false))
    case Escape(None) => Burst(q, false)
    case Escape(Some(e)) => Burst(q + EscapeEvents(e), false)
  }

  function CountQuits(es: seq<Event>): nat
  {
    if es == [] then 0 else (if es[0] == Quit then 1 else 0) + CountQuits(es[1..])
  }

  lemma {:induction false} CountQuitsAppend(a: seq<Event>, b: seq<Event>)
    ensures CountQuits(a + b) == CountQuits(a) + CountQuits(b)
  {
    if a == [] {
      assert a + b == b;
    } else {
      assert (a + b)[1..] == a[1..] + b;
      CountQuitsAppend(a[1..], b);
    }
  }

  // ---- What one step yields ----------------------------------------------

  /**
   * A pending quit is reported once, as the first event of the step, and a
   * step with no pending quit reports none.
   */
  lemma StepQuitOnce(quit: bool, r: Read)
    ensures var es := StepBurst(quit, r).events;
      CountQuits(es) == (if quit then 1 else 0) && (quit ==> es[0] == Quit)
  {
    var q := if quit then [Quit] else [];
    var rest := StepBurst(quit, r).events[|q|..];
    assert StepBurst(quit, r).events == q + rest;
    CountQuitsAppend(q, rest);
    if rest != [] {
      assert forall i | 0 <= i < |rest| :: rest[i] != Quit;
      NoQuits(rest);
    }
  }

  lemma {:induction false} NoQuits(es: seq<Event>)
    requires forall i | 0 <= i < |es| :: es[i] != Quit
    ensures CountQuits(es) == 0
  {
    if es != [] {
      NoQuits(es[1..]);
    }
  }

  /** A plain ASCII key is KeyDown, TextInput, KeyUp with the same symbol and modifier on the two key events. */
  lemma KeyPressTriple(b: Byte)
    requires b < 128
    ensures var es := KeyPress(b).value;
      es[0].KeyDown? && es[2].KeyUp? && es[0].sym == es[2].sym && es[0].mod == es[2].mod
  {
  }

  /**
   * Upper-case and lower-case forms of a letter give the same symbol, told
   * apart by the modifier and by the text, which keeps the typed case.
   */
  lemma KeyPressCaseFolding(b: Byte)
    requires IsUpper(b)
    ensures var up := KeyPress(b).value;
      var low := KeyPress(b + 32).value;
      up[0] == KeyDown(b + 32, Shift) && low[0] == KeyDown(b + 32, NoMod)
      && up[1] == TextInput(b) && low[1] == TextInput(b + 32)
  {
  }

  /** Different ASCII keys never give the same events. */
  lemma KeyPressInjective(a: Byte, b: Byte)
    requires a < 128 && b < 128 && KeyPress(a) == KeyPress(b)
    ensures a == b
  {
    assert KeyPress(a).value[1] == TextInput(a);
  }

  /** A step with nothing to report: no key and no quit, an undecoded escape, or an escape input it does not handle. */
  lemma QuietSteps(r: Read)
    requires r == Nothing || r == Escape(None) || r == Escape(Some(OtherInput))
    ensures StepBurst(false, r) == Burst([], false)
  {
  }

  // ---- The manager -------------------------------------------------------

  class EventsManager {
    var gotQuit: bool
    var gotResize: bool
    /** Events read during catch-up and not yet delivered, oldest first. */
    var waiting: seq<Event>
    /** The calls made to the resize callback, in order. */
    var resized: seq<(nat, nat)>
    /** How many times the terminal was asked for its size. */
    var dimRequests: nat

    /** A new manager; its catch-up finds no resize pending and does nothing. */
    constructor ()
      ensures !gotQuit && !gotResize && waiting == [] && resized == [] && dimRequests == 0
    {
      gotQuit := false;
      gotResize := false;
      waiting := [];
      resized := [];
      dimRequests := 0;
    }

    /** The quit signal's callback: a flag, so repeated signals before a step count once. */
    method OnQuit()
      modifies this
      ensures gotQuit
      ensures gotResize == old(gotResize) && waiting == old(waiting)
      ensures resized == old(resized) && dimRequests == old(dimRequests)
    {
      gotQuit := true;
    }

    method OnResize()
      modifies this
      ensures gotResize
      ensures gotQuit == old(gotQuit) && waiting == old(waiting)
      ensures resized == old(resized) && dimRequests == old(dimRequests)
    {
      gotResize := true;
    }

    method FinalizeResize(width: nat, height: nat)
      modifies this
      ensures !gotResize && resized == old(resized) + [(width, height)]
      ensures gotQuit == old(gotQuit) && waiting == old(waiting) && dimRequests == old(dimRequests)
    {
      gotResize := false;
      resized := resized + [(width, height)];
    }

    method HandleEscapeInput(e: EscapeInput) returns (events: seq<Event>)
      modifies this
      ensures events == EscapeEvents(e)
      ensures gotResize == (old(gotResize) && !e.WindowResizeInput?)
      ensures resized == old(resized) + (if e.WindowResizeInput? then [(e.width, e.height)] else [])
      ensures gotQuit == old(gotQuit) && waiting == old(waiting) && dimRequests == old(dimRequests)
    {
      match e {
        case WindowResizeInput(w, h) =>
          FinalizeResize(w, h);
          events := [WindowResized(w, h)];
        case SpecialKeyInput(sym) =>
          events := SpecialKey(sym);
        case OtherInput =>
          events := [];
      }
    }

    /** `_handle_input`, run to its end: one read, a pending quit first, then what the read means. */
    method HandleInput(r: Read) returns (burst: Burst)
      modifies this
      ensures burst == StepBurst(old(gotQuit), r)
      ensures !gotQuit
      ensures gotResize == (old(gotResize) && ResizeOf(r).None?)
      ensures resized == old(resized) + Resizes(r)
      ensures waiting == old(waiting) && dimRequests == old(dimRequests)
    {
      var events: seq<Event> := [];
      if gotQuit {
        events := [Quit];
        gotQuit := false;
      }
      match r {
        case Nothing =>
          burst := Burst(events, false);
        case Key(b) =>
          var keys := KeyPress(b);
          if keys.None? {
            burst := Burst(events, true);
          } else {
            burst := Burst(events + keys.value, false);
          }
        case Escape(decoded) =>
          if decoded.None? {
            burst := Burst(events, false);
          } else {
            var more := HandleEscapeInput(decoded.value);
            burst := Burst(events + more, false);
          }
      }
    }

    /**
     * With a resize pending, asks the terminal for its size and queues one
     * step's events (those read before a raise, if it raises); otherwise does
     * nothing.
     */
    method Catchup(r: Read) returns (raised: bool)
      modifies this
      ensures old(gotResize) ==>
        var b := StepBurst(old(gotQuit), r);
        raised == b.raised && waiting == old(waiting) + b.events && dimRequests == old(dimRequests) + 1
        && !gotQuit && gotResize == ResizeOf(r).None?
        && resized == old(resized) + Resizes(r)
      ensures !old(gotResize) ==>
        !raised && gotQuit == old(gotQuit) && !gotResize && waiting == old(waiting)
        && resized == old(resized) && dimRequests == old(dimRequests)
    {
      raised := false;
      if gotResize {
        dimRequests := dimRequests + 1;
        var b := HandleInput(r);
        waiting := waiting + b.events;
        raised := b.raised;
      }
    }

    /**
     * `wait`, run to its end: catch up (reading `ahead` if a resize is
     * pending), deliver the queued events in arrival order and empty the
     * queue, then deliver one fresh step (reading `next`).
     */
    method Wait(ahead: Read, next: Read) returns (burst: Burst)
      modifies this
      ensures old(gotResize) && StepBurst(old(gotQuit), ahead).raised ==>
        burst == Burst([], true)
        && waiting == old(waiting) + StepBurst(old(gotQuit), ahead).events && !gotQuit
        && gotResize && resized == old(resized) && dimRequests == old(dimRequests) + 1
      ensures !old(gotResize) ==>
        burst == Burst(old(waiting) + StepBurst(old(gotQuit), next).events, StepBurst(old(gotQuit), next).raised)
        && waiting == [] && !gotQuit
        && !gotResize && resized == old(resized) + Resizes(next) && dimRequests == old(dimRequests)
      ensures old(gotResize) && !StepBurst(old(gotQuit), ahead).raised ==>
        var caught := StepBurst(old(gotQuit), ahead);
        burst == Burst(old(waiting) + caught.events + StepBurst(false, next).events, StepBurst(false, next).raised)
        && waiting == [] && !gotQuit
        && gotResize == (ResizeOf(ahead).None? && ResizeOf(next).None?)
        && resized == old(resized) + Resizes(ahead) + Resizes(next) && dimRequests == old(dimRequests) + 1
    {
      var raised := Catchup(ahead);
      if raised {
        return Burst([], true);
      }
      var queued := waiting;
      waiting := [];
      var step := HandleInput(next);
      burst := Burst(queued + step.events, step.raised);
    }

    method RequestResizeEvent(r: Read) returns (raised: bool)
      modifies this
      ensures var b := StepBurst(old(gotQuit), r);
        raised == b.raised && waiting == old(waiting) + b.events && dimRequests == old(dimRequests) + 1
        && !gotQuit && gotResize == ResizeOf(r).None?
        && resized == old(resized) + Resizes(r)
    {
      gotResize := true;
      raised := Catchup(r);
    }
  }
}
