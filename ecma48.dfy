/**
 * A reference reading of a byte stream as ECMA-48 control functions, against
 * which the encoders are checked. It decodes the forms the encoders produce:
 * control sequences (section 5.4 of ECMA-48: CSI, parameter bytes, final byte)
 * with numeric parameters separated by ';' and an optional private marker '?',
 * escape sequences ESC Fs (section 5.3), operating system commands
 * (section 8.3.89) terminated by BEL as xterm accepts them, and plain data bytes.
 */
module Ecma48 {
  import opened Wrappers
  import opened Bytes

  const LBRACKET: Byte := 0x5B  // '[': ESC [ is CSI
  const RBRACKET: Byte := 0x5D  // ']': ESC ] is OSC
  const QMARK: Byte := 0x3F     // '?': private parameter marker

  datatype Control =
    | Csi(private: bool, params: seq<nat>, final: Byte)
    | Fs(final: Byte)
    | Osc(text: seq<Byte>)
    | Data(b: Byte)

  predicate IsParamByte(b: Byte) { 0x30 <= b <= 0x3F }
  predicate IsFinalByte(b: Byte) { 0x40 <= b <= 0x7E }
  predicate IsFsByte(b: Byte) { 0x60 <= b <= 0x7E }

  /** The private marker '?' when the sequence is private, nothing otherwise. */
  function Marker(p: bool): seq<Byte> { if p then [QMARK] else [] }

  predicate WellFormed(c: Control)
  {
    match c
    case Csi(_, ps, f) => 1 <= |ps| && IsFinalByte(f)
    case Fs(f) => IsFsByte(f)
    case Osc(t) => BEL !in t
    case Data(b) => b != ESC
  }

  predicate AllWellFormed(cs: seq<Control>) { forall i | 0 <= i < |cs| :: WellFormed(cs[i]) }

  function Encode(c: Control): seq<Byte>
    requires WellFormed(c)
  {
    match c
    case Csi(p, ps, f) => [ESC, LBRACKET] + Marker(p) + JoinDecimals(ps) + [f]
    case Fs(f) => [ESC, f]
    case Osc(t) => [ESC, RBRACKET] + t + [BEL]
    case Data(b) => [b]
  }

  function EncodeAll(cs: seq<Control>): seq<Byte>
    requires AllWellFormed(cs)
  {
    if cs == [] then [] else Encode(cs[0]) + EncodeAll(cs[1..])
  }

  /** The length of the run of parameter bytes that starts s. */
  function ParamPrefix(s: seq<Byte>): (k: nat)
    ensures k <= |s|
    ensures forall i | 0 <= i < k :: IsParamByte(s[i])
    ensures k < |s| ==> !IsParamByte(s[k])
  {
    if s == [] || !IsParamByte(s[0]) then 0 else 1 + ParamPrefix(s[1..])
  }

  /** The position of the first BEL in s, or |s| when there is none. */
  function BelIndex(s: seq<Byte>): (k: nat)
    ensures k <= |s| && BEL !in s[..k]
    ensures k < |s| ==> s[k] == BEL
  {
    if s == [] then 0 else if s[0] == BEL then 0 else 1 + BelIndex(s[1..])
  }

  /** Parameters and final byte of a control sequence; p says a private marker preceded them. */
  function DecodeParams(p: bool, u: seq<Byte>): (r: Option<(Control, seq<Byte>)>)
    ensures r.Some? ==> |r.value.1| < |u|
  {
    var k := ParamPrefix(u);
    if k == |u| || !IsFinalByte(u[k]) then None
    else match ParseFields(Split(u[..k], SEMI))
      case None => None
      case Some(ns) => Some((Csi(p, ns, u[k]), u[k + 1..]))
  }

  /** The rest of a control sequence, after ESC [. */
  function DecodeCsi(t: seq<Byte>): (r: Option<(Control, seq<Byte>)>)
    ensures r.Some? ==> |r.value.1| < |t|
  {
    if |t| > 0 && t[0] == QMARK then DecodeParams(true, t[1..]) else DecodeParams(false, t)
  }

  /** The rest of an operating system command, after ESC ]. */
  function DecodeOsc(t: seq<Byte>): (r: Option<(Control, seq<Byte>)>)
    ensures r.Some? ==> |r.value.1| < |t|
  {
    var k := BelIndex(t);
    if k == |t| then None else Some((Osc(t[..k]), t[k + 1..]))
  }

  /** The first control function or data byte of s, and what follows it. */
  function DecodeOne(s: seq<Byte>): (r: Option<(Control, seq<Byte>)>)
    ensures r.Some? ==> |r.value.1| < |s|
  {
    if s == [] then None
    else if s[0] != ESC then Some((Data(s[0]), s[1..]))
    else if |s| < 2 then None
    else if s[1] == LBRACKET then DecodeCsi(s[2..])
    else if s[1] == RBRACKET then DecodeOsc(s[2..])
    else if IsFsByte(s[1]) then Some((Fs(s[1]), s[2..]))
    else None
  }

  function DecodeAll(s: seq<Byte>): Option<seq<Control>>
    decreases |s|
  {
    if s == [] then Some([])
    else match DecodeOne(s)
      case None => None
      case Some((c, rest)) =>
        match DecodeAll(rest)
        case None => None
        case Some(cs) => Some([c] + cs)
  }

  lemma {:induction false} ParamPrefixOf(a: seq<Byte>, f: Byte, rest: seq<Byte>)
    requires forall i | 0 <= i < |a| :: IsParamByte(a[i])
    requires !IsParamByte(f)
    ensures ParamPrefix(a + [f] + rest) == |a|
  {
    if a != [] {
      assert (a + [f] + rest)[1..] == a[1..] + [f] + rest;
      ParamPrefixOf(a[1..], f, rest);
    }
  }

  lemma DecodeParamsEncode(p: bool, ps: seq<nat>, f: Byte, rest: seq<Byte>)
    requires 1 <= |ps| && IsFinalByte(f)
    ensures DecodeParams(p, JoinDecimals(ps) + [f] + rest) == Some((Csi(p, ps, f), rest))
  {
    var j := JoinDecimals(ps);
    var u := j + [f] + rest;
    JoinDecimalsBytes(ps);
    ParamPrefixOf(j, f, rest);
    assert u[..|j|] == j;
    assert u[|j|] == f;
    assert u[|j| + 1..] == rest;
    JoinDecimalsRoundTrip(ps);
  }

  /** The private marker, when present, is taken off before the parameters are read. */
  lemma DecodeCsiMarker(p: bool, u: seq<Byte>)
    requires u != [] && u[0] != QMARK
    ensures DecodeCsi(Marker(p) + u) == DecodeParams(p, u)
  {
    if p {
      assert ([QMARK] + u)[1..] == u;
    } else {
      assert [] + u == u;
    }
  }

  lemma Assoc4(a: seq<Byte>, b: seq<Byte>, c: seq<Byte>, d: seq<Byte>)
    ensures a + b + c + d == a + (b + c + d)
  {
  }

  lemma Assoc5(a: seq<Byte>, b: seq<Byte>, c: seq<Byte>, d: seq<Byte>, e: seq<Byte>)
    ensures a + b + c + d + e == a + (b + c + d + e)
  {
  }

  lemma DecodeCsiEncode(p: bool, ps: seq<nat>, f: Byte, rest: seq<Byte>)
    requires 1 <= |ps| && IsFinalByte(f)
    ensures DecodeCsi(Marker(p) + JoinDecimals(ps) + [f] + rest)
         == Some((Csi(p, ps, f), rest))
  {
    var j := JoinDecimals(ps);
    var u := j + [f] + rest;
    DecodeParamsEncode(p, ps, f, rest);
    JoinDecimalsBytes(ps);
    assert u[0] == j[0];
    DecodeCsiMarker(p, u);
    Assoc4(Marker(p), j, [f], rest);
  }

  lemma DecodeOscEncode(t: seq<Byte>, rest: seq<Byte>)
    requires BEL !in t
    ensures DecodeOsc(t + [BEL] + rest) == Some((Osc(t), rest))
  {
    var v := t + [BEL] + rest;
    assert v[|t|] == BEL;
    assert v[..|t|] == t;
    assert v[|t| + 1..] == rest;
  }

  /** Decoding the encoding of a well-formed control function gives it back, whatever follows. */
  lemma DecodeEncode(c: Control, rest: seq<Byte>)
    requires WellFormed(c)
    ensures DecodeOne(Encode(c) + rest) == Some((c, rest))
  {
    var s := Encode(c) + rest;
    match c
    case Csi(p, ps, f) =>
      var t := Marker(p) + JoinDecimals(ps) + [f] + rest;
      Assoc5([ESC, LBRACKET], Marker(p), JoinDecimals(ps), [f], rest);
      assert s == [ESC, LBRACKET] + t;
      assert s[2..] == t;
      DecodeCsiEncode(p, ps, f, rest);
    case Fs(f) =>
      assert s[2..] == rest;
    case Osc(t) =>
      assert s[2..] == t + [BEL] + rest;
      DecodeOscEncode(t, rest);
    case Data(b) =>
      assert s[1..] == rest;
  }

  lemma {:induction false} DecodeEncodeAll(cs: seq<Control>)
    requires AllWellFormed(cs)
    ensures DecodeAll(EncodeAll(cs)) == Some(cs)
  {
    if cs != [] {
      var e := Encode(cs[0]);
      assert |e| >= 1;
      DecodeEncode(cs[0], EncodeAll(cs[1..]));
      DecodeEncodeAll(cs[1..]);
      assert [cs[0]] + cs[1..] == cs;
    }
  }

  /** Distinct well-formed sequences of control functions are written as distinct bytes. */
  lemma EncodeAllInjective(cs: seq<Control>, ds: seq<Control>)
    requires AllWellFormed(cs) && AllWellFormed(ds)
    ensures EncodeAll(cs) == EncodeAll(ds) <==> cs == ds
  {
    DecodeEncodeAll(cs);
    DecodeEncodeAll(ds);
  }
}
