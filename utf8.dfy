/** The byte-at-a-time UTF-8 decoder of src/escape/utf8.rs.

    `State` counts the continuation bytes still expected; `Transition` is
    `State::advance`, which names what a byte contributes. The decoder object
    ORs the payload bits of each byte into the 32-bit accumulator `point` and
    hands out a character when the last byte arrives. Continuation bytes are
    never checked to be of the form 10xxxxxx. */
module Utf8 {
  import opened Wrappers

  type byte = bv8

  datatype State = Ground | Tail1 | Tail2 | Tail3

  /** What one byte contributes to the character being assembled. */
  datatype ByteAction =
    | Emit(b: byte)
    | SetByte1(b: byte)
    | SetByte2(b: byte)
    | SetByte2Top(b: byte)
    | SetByte3(b: byte)
    | SetByte3Top(b: byte)
    | SetByte4Top(b: byte)
    | InvalidSequence

  datatype Codepoint = Valid(c: char) | Invalid

  /** `State::advance`: the new state and the byte's role. In `Ground` a byte
      that cannot start a sequence leaves the state as it was. */
  function Transition(s: State, b: byte): (State, ByteAction)
  {
    match s
    case Ground =>
      if b <= 0x7F then (Ground, Emit(b))
      else if 0xC2 <= b <= 0xDF then (Tail1, SetByte2Top(b))
      else if 0xE0 <= b <= 0xEF then (Tail2, SetByte3Top(b))
      else if 0xF0 <= b <= 0xF4 then (Tail3, SetByte4Top(b))
      else (Ground, InvalidSequence)
    case Tail3 => (Tail2, SetByte3(b))
    case Tail2 => (Tail1, SetByte2(b))
    case Tail1 => (Ground, SetByte1(b))
  }

  /** A Unicode scalar value: what `char::from_u32` accepts. */
  predicate IsScalar(v: bv32) {
    v < 0xD800 || (0xE000 <= v && v <= 0x10_FFFF)
  }

  function ToChar(v: bv32): char
    requires IsScalar(v)
  {
    (v as int) as char
  }

  /** `byte as char`: a byte is the code point of the same value. */
  function ByteChar(x: byte): char
  {
    (x as int) as char
  }

  /** The fields of `Utf8`: the state and the bit accumulator. */
  datatype Decoder = Decoder(state: State, point: bv32)

  const Fresh := Decoder(Ground, 0)

  /** The value the final byte `b` completes from accumulator `point`. */
  function Completion(point: bv32, b: byte): bv32 {
    point | ((b as bv32) & 0x3F)
  }

  /** The final byte does not make `char::from_u32(..).unwrap()` panic:
      a completed surrogate or a value above 0x10FFFF would. */
  predicate CanStep(d: Decoder, b: byte) {
    d.state == Tail1 ==> IsScalar(Completion(d.point, b))
  }

  /** Which bits of `point` are already filled in each state: none in
      `Ground`; in a tail state only bits above those the remaining bytes
      fill, and never a bit above bit 20. */
  predicate Inv(d: Decoder) {
    match d.state
    case Ground => d.point == 0
    case Tail1 => d.point & 0x3F == 0 && d.point < 0x20_0000
    case Tail2 => d.point & 0xFFF == 0 && d.point < 0x20_0000
    case Tail3 => d.point & 0x3_FFFF == 0 && d.point < 0x20_0000
  }

  /** The accumulator after `Utf8::advance` has handled a byte of role `a`:
      cleared when a character is handed out, the byte's payload bits ORed in
      at their place otherwise. */
  function Accumulate(point: bv32, a: ByteAction): bv32
  {
    match a
    case Emit(_) => 0
    case SetByte1(_) => 0
    case SetByte2(x) => point | (((x as bv32) & 0x3F) << 6)
    case SetByte3(x) => point | (((x as bv32) & 0x3F) << 12)
    case SetByte2Top(x) => point | (((x as bv32) & 0x1F) << 6)
    case SetByte3Top(x) => point | (((x as bv32) & 0x0F) << 12)
    case SetByte4Top(x) => point | (((x as bv32) & 0x07) << 18)
    case InvalidSequence => point
  }

  /** What `Utf8::advance` returns for a byte of role `a`. */
  function Output(point: bv32, a: ByteAction): Option<Codepoint>
    requires a.SetByte1? ==> IsScalar(Completion(point, a.b))
  {
    match a
    case Emit(x) => Some(Valid(ByteChar(x)))
    case SetByte1(x) => Some(Valid(ToChar(Completion(point, x))))
    case InvalidSequence => Some(Invalid)
    case _ => None
  }

  /** Only a byte taken in `Tail1` completes a value. */
  lemma TransitionCanAbsorb(d: Decoder, b: byte)
    requires CanStep(d, b)
    ensures var a := Transition(d.state, b).1; a.SetByte1? ==> IsScalar(Completion(d.point, a.b))
  {
  }

  /** `Utf8::advance` on values: the decoder afterwards and what it returns
      (`None` while a sequence is incomplete). */
  function Step(d: Decoder, b: byte): (Decoder, Option<Codepoint>)
    requires CanStep(d, b)
  {
    var t := Transition(d.state, b);
    (Decoder(t.0, Accumulate(d.point, t.1)), Output(d.point, t.1))
  }

  /** `Inv` holds from the start and every byte keeps it; in particular
      `point` is 0 whenever the state is `Ground`. */
  lemma StepKeepsInv(d: Decoder, b: byte)
    requires Inv(d) && CanStep(d, b)
    ensures Inv(Step(d, b).0)
    ensures Step(d, b).0.state == Ground ==> Step(d, b).0.point == 0
  {
    var t := Transition(d.state, b);
    match d.state
    case Ground =>
      if b <= 0x7F {
      } else if 0xC2 <= b <= 0xDF {
        assert t.1 == SetByte2Top(b);
      } else if 0xE0 <= b <= 0xEF {
        assert t.1 == SetByte3Top(b);
      } else if 0xF0 <= b <= 0xF4 {
        assert t.1 == SetByte4Top(b);
      }
    case Tail3 =>
      assert t.1 == SetByte3(b);
    case Tail2 =>
      assert t.1 == SetByte2(b);
    case Tail1 =>
  }

  /** A byte 0x00-0x7F in `Ground` is its own character and leaves the
      decoder fresh. */
  lemma AsciiInGround(d: Decoder, b: byte)
    requires Inv(d) && d.state == Ground && b <= 0x7F
    ensures CanStep(d, b)
    ensures Step(d, b) == (Fresh, Some(Valid((b as int) as char)))
  {
  }

  /** Lead bytes open a sequence of 2, 3 or 4 bytes; nothing is returned yet
      and the lead byte's payload lands in the top bits of `point`. */
  lemma LeadInGround(d: Decoder, b: byte)
    requires Inv(d) && d.state == Ground && 0xC2 <= b <= 0xF4
    ensures CanStep(d, b) && Step(d, b).1 == None
    ensures 0xC2 <= b <= 0xDF ==> Step(d, b).0 == Decoder(Tail1, ((b as bv32) & 0x1F) << 6)
    ensures 0xE0 <= b <= 0xEF ==> Step(d, b).0 == Decoder(Tail2, ((b as bv32) & 0x0F) << 12)
    ensures 0xF0 <= b <= 0xF4 ==> Step(d, b).0 == Decoder(Tail3, ((b as bv32) & 0x07) << 18)
  {
  }

  /** A stray continuation byte, an overlong lead 0xC0/0xC1 or a lead above
      0xF4 is reported as invalid and changes nothing. */
  lemma InvalidInGround(d: Decoder, b: byte)
    requires d.state == Ground && ((0x80 <= b <= 0xC1) || 0xF5 <= b)
    ensures CanStep(d, b) && Step(d, b) == (d, Some(Invalid))
  {
  }

  /** Tail states take any byte, valid continuation or not, and count down
      to `Ground`, where the assembled value is returned. */
  lemma TailsTakeAnyByte(d: Decoder, b: byte)
    requires d.state != Ground && CanStep(d, b)
    ensures Step(d, b).0.state == (if d.state == Tail3 then Tail2 else if d.state == Tail2 then Tail1 else Ground)
    ensures Step(d, b).1 == if d.state == Tail1 then Some(Valid(ToChar(Completion(d.point, b)))) else None
  {
  }

  /** Feeding several bytes in turn. */
  predicate CanFeed(d: Decoder, bs: seq<byte>)
    decreases |bs|
  {
    bs == [] || (CanStep(d, bs[0]) && CanFeed(Step(d, bs[0]).0, bs[1..]))
  }

  function Feed(d: Decoder, bs: seq<byte>): (Decoder, seq<Option<Codepoint>>)
    requires CanFeed(d, bs)
    decreases |bs|
  {
    if bs == [] then (d, [])
    else
      var s := Step(d, bs[0]);
      var rest := Feed(s.0, bs[1..]);
      (rest.0, [s.1] + rest.1)
  }

  /** A continuation byte 10xxxxxx carrying the low six bits of `v`. */
  function Cont(v: bv32): byte {
    (0x80 | (v & 0x3F)) as bv8
  }

  /** The UTF-8 encoding of a scalar value, section 3 of RFC 3629. */
  function Encode(cp: bv32): (bs: seq<byte>)
    requires IsScalar(cp)
    ensures 1 <= |bs| <= 4
  {
    if cp < 0x80 then
      [cp as bv8]
    else if cp < 0x800 then
      [(0xC0 | (cp >> 6)) as bv8, Cont(cp)]
    else if cp < 0x1_0000 then
      [(0xE0 | (cp >> 12)) as bv8, Cont(cp >> 6), Cont(cp)]
    else
      [(0xF0 | (cp >> 18)) as bv8, Cont(cp >> 12), Cont(cp >> 6), Cont(cp)]
  }

  lemma ByteValue(x: byte)
    ensures (x as bv32) as int == x as int
  {
  }

  function Pending(n: nat): seq<Option<Codepoint>> {
    seq(n, _ => None)
  }

  /** Decoding inverts encoding: the bytes of a scalar value, fed to a fresh
      decoder, give `None` for every byte but the last, that scalar on the
      last, and leave the decoder fresh again. */
  lemma {:induction false} DecodeEncoded(cp: bv32)
    requires IsScalar(cp)
    ensures CanFeed(Fresh, Encode(cp))
    ensures Feed(Fresh, Encode(cp)) == (Fresh, Pending(|Encode(cp)| - 1) + [Some(Valid(ToChar(cp)))])
  {
    var bs := Encode(cp);
    var last := Some(Valid(ToChar(cp)));
    if cp < 0x80 {
      DecodeOne(cp);
      assert Pending(0) + [last] == [last];
    } else if cp < 0x800 {
      DecodeTwo(cp);
      assert Pending(1) + [last] == [None, last];
    } else if cp < 0x1_0000 {
      DecodeThree(cp);
      assert Pending(2) + [last] == [None, None, last];
    } else {
      DecodeFour(cp);
      assert Pending(3) + [last] == [None, None, None, last];
    }
  }

  /** One step of `Feed`, unfolded. */
  lemma FeedStep(d: Decoder, bs: seq<byte>, d': Decoder, out: Option<Codepoint>, rest: seq<Option<Codepoint>>)
    requires bs != [] && CanStep(d, bs[0]) && Step(d, bs[0]) == (d', out)
    requires CanFeed(d', bs[1..]) && Feed(d', bs[1..]).0 == Fresh && Feed(d', bs[1..]).1 == rest
    ensures CanFeed(d, bs) && Feed(d, bs).0 == Fresh && Feed(d, bs).1 == [out] + rest
  {
  }

  lemma DecodeOne(cp: bv32)
    requires cp < 0x80
    ensures CanFeed(Fresh, Encode(cp)) && Feed(Fresh, Encode(cp)) == (Fresh, [Some(Valid(ToChar(cp)))])
  {
    var bs := Encode(cp);
    assert bs[0] as bv32 == cp;
    ByteValue(bs[0]);
    FeedStep(Fresh, bs, Fresh, Some(Valid(ToChar(cp))), []);
    assert [Some(Valid(ToChar(cp)))] + [] == [Some(Valid(ToChar(cp)))];
  }

  /** Bit-level facts about each encoding length: the lead byte falls in
      the range that opens a sequence of that length, and the payload bits
      reassemble to the scalar value. */
  lemma BitsTwo(cp: bv32)
    requires 0x80 <= cp < 0x800
    ensures var b0 := (0xC0 | (cp >> 6)) as bv8;
      0xC2 <= b0 <= 0xDF && Completion(((b0 as bv32) & 0x1F) << 6, Cont(cp)) == cp
  {
  }

  lemma BitsThree(cp: bv32)
    requires 0x800 <= cp < 0x1_0000
    ensures var b0 := (0xE0 | (cp >> 12)) as bv8;
      0xE0 <= b0 <= 0xEF &&
      Completion((((b0 as bv32) & 0x0F) << 12) | (((Cont(cp >> 6) as bv32) & 0x3F) << 6), Cont(cp)) == cp
  {
  }

  lemma BitsFour(cp: bv32)
    requires 0x1_0000 <= cp <= 0x10_FFFF
    ensures var b0 := (0xF0 | (cp >> 18)) as bv8;
      0xF0 <= b0 <= 0xF4 &&
      Completion((((b0 as bv32) & 0x07) << 18) | (((Cont(cp >> 12) as bv32) & 0x3F) << 12)
                 | (((Cont(cp >> 6) as bv32) & 0x3F) << 6), Cont(cp)) == cp
  {
  }

  lemma DecodeTwo(cp: bv32)
    requires 0x80 <= cp < 0x800
    ensures CanFeed(Fresh, Encode(cp)) && Feed(Fresh, Encode(cp)) == (Fresh, [None, Some(Valid(ToChar(cp)))])
  {
    var bs := Encode(cp);
    var last := Some(Valid(ToChar(cp)));
    BitsTwo(cp);
    var d1 := Decoder(Tail1, ((bs[0] as bv32) & 0x1F) << 6);
    assert Step(Fresh, bs[0]) == (d1, None);
    assert Step(d1, bs[1]) == (Fresh, last);
    FeedStep(d1, bs[1..], Fresh, last, []);
    assert [last] + [] == [last];
    FeedStep(Fresh, bs, d1, None, [last]);
    assert [None] + [last] == [None, last];
  }

  /** The tail states on their own: which bits a byte lands in. */
  lemma StepTail3(p: bv32, x: byte)
    ensures Step(Decoder(Tail3, p), x) == (Decoder(Tail2, p | (((x as bv32) & 0x3F) << 12)), None)
  {
    assert Transition(Tail3, x) == (Tail2, SetByte3(x));
  }

  lemma StepTail2(p: bv32, x: byte)
    ensures Step(Decoder(Tail2, p), x) == (Decoder(Tail1, p | (((x as bv32) & 0x3F) << 6)), None)
  {
    assert Transition(Tail2, x) == (Tail1, SetByte2(x));
  }

  lemma StepTail1(p: bv32, x: byte)
    requires IsScalar(Completion(p, x))
    ensures CanStep(Decoder(Tail1, p), x) && Step(Decoder(Tail1, p), x) == (Fresh, Some(Valid(ToChar(Completion(p, x)))))
  {
    assert Transition(Tail1, x) == (Ground, SetByte1(x));
  }

  /** Feeding three bytes whose steps are known. */
  lemma FeedThree(d0: Decoder, b0: byte, b1: byte, b2: byte, d1: Decoder, d2: Decoder, last: Option<Codepoint>)
    requires CanStep(d0, b0) && Step(d0, b0) == (d1, None)
    requires CanStep(d1, b1) && Step(d1, b1) == (d2, None)
    requires CanStep(d2, b2) && Step(d2, b2) == (Fresh, last)
    ensures CanFeed(d0, [b0, b1, b2]) && Feed(d0, [b0, b1, b2]) == (Fresh, [None, None, last])
  {
    var bs := [b0, b1, b2];
    assert bs[1..] == [b1, b2] && bs[1..][1..] == [b2] && [b2][1..] == [];
    FeedStep(d2, [b2], Fresh, last, []);
    assert [last] + [] == [last];
    FeedStep(d1, [b1, b2], d2, None, [last]);
    assert [None] + [last] == [None, last];
    FeedStep(d0, bs, d1, None, [None, last]);
    assert [None] + [None, last] == [None, None, last];
  }

  lemma DecodeThree(cp: bv32)
    requires 0x800 <= cp < 0x1_0000 && IsScalar(cp)
    ensures CanFeed(Fresh, Encode(cp)) && Feed(Fresh, Encode(cp)) == (Fresh, [None, None, Some(Valid(ToChar(cp)))])
  {
    var b0, b1, b2 := (0xE0 | (cp >> 12)) as bv8, Cont(cp >> 6), Cont(cp);
    assert Encode(cp) == [b0, b1, b2];
    BitsThree(cp);
    LeadInGround(Fresh, b0);
    var p2 := ((b0 as bv32) & 0x0F) << 12;
    var p1 := p2 | (((b1 as bv32) & 0x3F) << 6);
    StepTail2(p2, b1);
    StepTail1(p1, b2);
    FeedThree(Fresh, b0, b1, b2, Decoder(Tail2, p2), Decoder(Tail1, p1), Some(Valid(ToChar(cp))));
  }

  /** The four steps of a four-byte sequence. */
  lemma StepsFour(cp: bv32, b0: byte, b1: byte, b2: byte, b3: byte, p3: bv32, p2: bv32, p1: bv32)
    requires 0x1_0000 <= cp <= 0x10_FFFF
    requires b0 == (0xF0 | (cp >> 18)) as bv8 && b1 == Cont(cp >> 12) && b2 == Cont(cp >> 6) && b3 == Cont(cp)
    requires p3 == ((b0 as bv32) & 0x07) << 18
    requires p2 == p3 | (((b1 as bv32) & 0x3F) << 12)
    requires p1 == p2 | (((b2 as bv32) & 0x3F) << 6)
    ensures Step(Fresh, b0) == (Decoder(Tail3, p3), None)
    ensures Step(Decoder(Tail3, p3), b1) == (Decoder(Tail2, p2), None)
    ensures Step(Decoder(Tail2, p2), b2) == (Decoder(Tail1, p1), None)
    ensures CanStep(Decoder(Tail1, p1), b3) && Step(Decoder(Tail1, p1), b3) == (Fresh, Some(Valid(ToChar(cp))))
  {
    BitsFour(cp);
    LeadInGround(Fresh, b0);
    StepTail3(p3, b1);
    StepTail2(p2, b2);
    StepTail1(p1, b3);
  }

  lemma DecodeFour(cp: bv32)
    requires 0x1_0000 <= cp <= 0x10_FFFF
    ensures CanFeed(Fresh, Encode(cp)) && Feed(Fresh, Encode(cp)) == (Fresh, [None, None, None, Some(Valid(ToChar(cp)))])
  {
    var b0, b1, b2, b3 := (0xF0 | (cp >> 18)) as bv8, Cont(cp >> 12), Cont(cp >> 6), Cont(cp);
    var bs := [b0, b1, b2, b3];
    assert Encode(cp) == bs;
    var p3 := ((b0 as bv32) & 0x07) << 18;
    var p2 := p3 | (((b1 as bv32) & 0x3F) << 12);
    var p1 := p2 | (((b2 as bv32) & 0x3F) << 6);
    StepsFour(cp, b0, b1, b2, b3, p3, p2, p1);
    var last := Some(Valid(ToChar(cp)));
    FeedThree(Decoder(Tail3, p3), b1, b2, b3, Decoder(Tail2, p2), Decoder(Tail1, p1), last);
    assert bs[1..] == [b1, b2, b3];
    FeedStep(Fresh, bs, Decoder(Tail3, p3), None, [None, None, last]);
    assert [None] + [None, None, last] == [None, None, None, last];
  }

  /** The decoder object of `Utf8`. */
  class Utf8Decoder {
    var state: State
    var point: bv32

    function Model(): Decoder
      reads this
    {
      Decoder(state, point)
    }

    constructor ()
      ensures Model() == Fresh
    {
      state := Ground;
      point := 0;
    }

    /** `Utf8::advance`: one byte in, at most one code point out. The state
        machine gives the byte's role; the role decides what is returned
        (`Output`) and how the accumulator is updated in place (`Collect`). */
    method Advance(b: byte) returns (r: Option<Codepoint>)
      requires CanStep(Model(), b)
      modifies this
      ensures (Model(), r) == Step(old(Model()), b)
    {
      var t := Transition(state, b);
      TransitionCanAbsorb(Model(), b);
      r := Output(point, t.1);
      Collect(t.1);
      state := t.0;
    }

    /** The accumulator update of `Utf8::advance` for a byte of role `a`. */
    method Collect(a: ByteAction)
      modifies this
      ensures state == old(state)
      ensures point == Accumulate(old(point), a)
    {
      match a {
        case Emit(_) =>
          point := 0;
        case SetByte1(_) =>
          point := 0;
        case SetByte2(x) =>
          point := point | (((x as bv32) & 0x3F) << 6);
        case SetByte3(x) =>
          point := point | (((x as bv32) & 0x3F) << 12);
        case SetByte2Top(x) =>
          point := point | (((x as bv32) & 0x1F) << 6);
        case SetByte3Top(x) =>
          point := point | (((x as bv32) & 0x0F) << 12);
        case SetByte4Top(x) =>
          point := point | (((x as bv32) & 0x07) << 18);
        case InvalidSequence =>
      }
    }
  }
}
