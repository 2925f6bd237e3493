/** The escape-sequence parser of src/escape/mod.rs, on values.

    `Parser::advance` reads one byte at a time and returns at most one
    `Action`. Byte ranges in the source are Rust's half-open `a..b`, so
    `InRange(b, lo, hi)` is `lo <= b < hi`. The parser's fields are gathered
    in `ParserState`; the object form is `Escape.Parser`. */
module EscapeSpec {
  import opened Wrappers
  import Utf8
  import Decimal

  type byte = Utf8.byte

  /** A CSI parameter: `parse::<u16>()` keeps it below 2^16. */
  type u16 = x: int | 0 <= x < 0x1_0000

  datatype Action =
    | Print(c: char)
    | Execute(b: byte)
    | CsiDispatch(params: seq<u16>, intermediates: seq<byte>, command: char)
    | EscDispatch(intermediates: seq<byte>, code: byte)
    | OscDispatch(payload: seq<byte>)

  datatype State = Anywhere | Entry | CsiParams | EscParams | OscParams

  /** The error `parse::<u16>()` reports for a parameter that outgrows 16 bits. */
  datatype ParseError = ParamOverflow

  type Outcome = Result<Option<Action>, ParseError>

  /** The fields of `Parser`, with `Params` flattened into it. */
  datatype ParserState = ParserState(
    state: State,
    csi: seq<u16>,
    osc: seq<byte>,
    index: nat,
    intermediates: seq<byte>,
    utf8: Utf8.Decoder)

  /** `Parser::new`. */
  const Initial := ParserState(Anywhere, [], [], 0, [], Utf8.Fresh)

  /** Every parser state reachable from `Initial`: `index` points at the
      last parameter or just past it (so `insert(index, ..)` cannot panic),
      and the UTF-8 decoder keeps its own invariant. */
  predicate Valid(p: ParserState) {
    p.index <= |p.csi| <= p.index + 1 && Utf8.Inv(p.utf8)
  }

  /** Rust's half-open byte range `lo..hi`. */
  predicate InRange(b: byte, lo: byte, hi: byte) {
    lo <= b < hi
  }

  /** `reset`: back to `Anywhere` with no parameters and no intermediates.
      The OSC payload and the UTF-8 decoder are left as they are. */
  function Reset(p: ParserState): (r: ParserState)
    ensures r.state == Anywhere && r.csi == [] && r.intermediates == [] && r.index == 0
    ensures r.osc == p.osc && r.utf8 == p.utf8
  {
    p.(state := Anywhere, csi := [], intermediates := [], index := 0)
  }

  /** `esc_param`: a final byte 0x30..0x7E dispatches and resets, a byte
      0x20..0x2F is collected as an intermediate, anything else is dropped. */
  function EscParam(p: ParserState, b: byte): (ParserState, Option<Action>)
  {
    if InRange(b, 0x30, 0x7E) then
      (Reset(p), Some(EscDispatch(p.intermediates, b)))
    else if InRange(b, 0x20, 0x2F) then
      (p.(intermediates := p.intermediates + [b]), None)
    else
      (p, None)
  }

  /** `format!("{}{}", v, d).parse()`: the digits of `d` written after those
      of `v`, read back as one number. */
  function Concat(v: nat, d: nat): (r: nat)
    ensures r == v * Decimal.Pow10(|Decimal.Show(d)|) + d
  {
    Decimal.ParseAppend(Decimal.Show(v), Decimal.Show(d));
    Decimal.ParseShow(v);
    Decimal.ParseShow(d);
    Decimal.Parse(Decimal.Show(v) + Decimal.Show(d))
  }

  /** The value `byte - 0x30` of a parameter byte 0x30..0x3E. */
  function DigitValue(b: byte): nat
    requires InRange(b, 0x30, 0x3F)
  {
    (b as int) - 0x30
  }

  /** A parameter byte other than `;` and `:`: it extends the parameter at
      `index` or starts one there. A value above 65535 is an error and
      changes nothing. */
  function CsiDigit(p: ParserState, b: byte): (ParserState, Outcome)
    requires p.index <= |p.csi| && InRange(b, 0x30, 0x3F)
  {
    var d := DigitValue(b);
    if p.index < |p.csi| then
      var v := Concat(p.csi[p.index], d);
      if v < 0x1_0000 then (p.(csi := p.csi[p.index := v]), Ok(None))
      else (p, Err(ParamOverflow))
    else
      (p.(csi := p.csi[..p.index] + [d] + p.csi[p.index..]), Ok(None))
  }

  /** What the `Anywhere` arm returns for the UTF-8 decoder's answer: a
      valid code point is printed; an invalid one and an unfinished sequence
      give nothing. */
  function Printed(o: Option<Utf8.Codepoint>): Outcome
  {
    if o.Some? && o.value.Valid? then Ok(Some(Print(o.value.c))) else Ok(None)
  }

  /** The `Anywhere` arm: C0 controls 0x00..0x1E are executed, every other
      byte goes to the UTF-8 decoder. */
  function AdvanceAnywhere(p: ParserState, b: byte): (ParserState, Outcome)
    requires !InRange(b, 0x00, 0x1F) ==> Utf8.CanStep(p.utf8, b)
  {
    if InRange(b, 0x00, 0x1F) then
      (p, Ok(Some(Execute(b))))
    else
      var s := Utf8.Step(p.utf8, b);
      (p.(utf8 := s.0), Printed(s.1))
  }

  /** The `Entry` arm, right after ESC. */
  function AdvanceEntry(p: ParserState, b: byte): (ParserState, Outcome)
  {
    if b == '[' as byte then
      (p.(state := CsiParams), Ok(None))
    else if b == ']' as byte then
      (p.(state := OscParams), Ok(None))
    else
      var e := EscParam(p, b);
      if e.1.Some? then (e.0, Ok(e.1)) else (e.0.(state := EscParams), Ok(None))
  }

  /** The `CsiParams` arm. */
  function AdvanceCsi(p: ParserState, b: byte): (ParserState, Outcome)
    requires p.index <= |p.csi|
  {
    if InRange(b, 0x40, 0x7E) then
      (Reset(p), Ok(Some(CsiDispatch(p.csi, p.intermediates, (b as int) as char))))
    else if InRange(b, 0x30, 0x3F) then
      if b == ';' as byte || b == ':' as byte then
        (if p.index < |p.csi| then p.(index := p.index + 1) else p, Ok(None))
      else
        CsiDigit(p, b)
    else if InRange(b, 0x20, 0x2F) then
      (p.(intermediates := p.intermediates + [b]), Ok(None))
    else if InRange(b, 0x00, 0x0F) then
      (p, Ok(Some(Execute(b))))
    else
      (p, Ok(None))
  }

  /** The `OscParams` arm: BEL or ST (0x9C) ends the string. */
  function AdvanceOsc(p: ParserState, b: byte): (ParserState, Outcome)
  {
    if b == 0x07 || b == 0x9C then
      (Reset(p), Ok(Some(OscDispatch(p.osc))))
    else
      (p.(osc := p.osc + [b]), Ok(None))
  }

  /** What `advance` needs not to panic: the UTF-8 decoder must not complete
      a surrogate or a value above 0x10FFFF, and `index` must not be past the
      end of the parameters. */
  predicate CanAdvance(p: ParserState, b: byte) {
    p.index <= |p.csi| &&
    (b != 0x1B && p.state == Anywhere && !InRange(b, 0x00, 0x1F) ==> Utf8.CanStep(p.utf8, b))
  }

  /** `Parser::advance`: the parser afterwards and what it returns. ESC
      enters `Entry` from every state without clearing anything. */
  function Advance(p: ParserState, b: byte): (ParserState, Outcome)
    requires CanAdvance(p, b)
  {
    if b == 0x1B then
      (p.(state := Entry), Ok(None))
    else
      match p.state
      case Anywhere => AdvanceAnywhere(p, b)
      case Entry => AdvanceEntry(p, b)
      case CsiParams => AdvanceCsi(p, b)
      case EscParams =>
        var e := EscParam(p, b);
        (e.0, Ok(e.1))
      case OscParams => AdvanceOsc(p, b)
  }

  /** Whether `advance` can be fed `bs` one byte after the other without
      panicking. */
  predicate CanRun(p: ParserState, bs: seq<byte>)
    decreases |bs|
  {
    bs == [] || (CanAdvance(p, bs[0]) && CanRun(Advance(p, bs[0]).0, bs[1..]))
  }

  /** Feeding `bs` one byte after the other: the parser afterwards and what
      each call returned. */
  function Run(p: ParserState, bs: seq<byte>): (ParserState, seq<Outcome>)
    requires CanRun(p, bs)
    decreases |bs|
  {
    if bs == [] then (p, [])
    else
      var s := Advance(p, bs[0]);
      var rest := Run(s.0, bs[1..]);
      (rest.0, [s.1] + rest.1)
  }
}
