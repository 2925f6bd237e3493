/** Properties of the escape-sequence parser of src/escape/mod.rs, stated
    about `EscapeSpec.Advance` and `EscapeSpec.Run`. */
module EscapeProps {
  import opened Wrappers
  import Utf8
  import Decimal
  import opened EscapeSpec

  /** `Parser::new` starts in a valid state. */
  lemma InitialValid()
    ensures Valid(Initial) && CanRun(Initial, [])
  {
  }

  /** Every byte keeps `Valid`: in particular `index` never runs more than
      one past the last parameter, so `insert(index, ..)` never panics. */
  lemma AdvanceKeepsValid(p: ParserState, b: byte)
    requires Valid(p) && CanAdvance(p, b)
    ensures Valid(Advance(p, b).0)
  {
    if b != 0x1B {
      match p.state
      case Anywhere => AnywhereKeepsValid(p, b);
      case Entry => ArmsKeepValid(p, b);
      case CsiParams => ArmsKeepValid(p, b);
      case EscParams => ArmsKeepValid(p, b);
      case OscParams => ArmsKeepValid(p, b);
    }
  }

  lemma AnywhereKeepsValid(p: ParserState, b: byte)
    requires Valid(p) && (!InRange(b, 0x00, 0x1F) ==> Utf8.CanStep(p.utf8, b))
    ensures Valid(AdvanceAnywhere(p, b).0)
  {
    if !InRange(b, 0x00, 0x1F) {
      Utf8.StepKeepsInv(p.utf8, b);
    }
  }

  lemma ArmsKeepValid(p: ParserState, b: byte)
    requires Valid(p)
    ensures Valid(EscParam(p, b).0) && Valid(AdvanceEntry(p, b).0)
    ensures Valid(AdvanceCsi(p, b).0) && Valid(AdvanceOsc(p, b).0)
  {
    if InRange(b, 0x30, 0x3F) && b != ';' as byte && b != ':' as byte {
      CsiDigitKeepsValid(p, b);
    }
  }

  lemma CsiDigitKeepsValid(p: ParserState, b: byte)
    requires Valid(p) && InRange(b, 0x30, 0x3F)
    ensures Valid(CsiDigit(p, b).0)
  {
  }

  /** Valid states can take every byte but one that completes a surrogate
      or a value above 0x10FFFF in the UTF-8 decoder. */
  lemma ValidCanAdvance(p: ParserState, b: byte)
    requires Valid(p)
    requires p.state == Anywhere && !InRange(b, 0x00, 0x1F) && b != 0x1B ==> Utf8.CanStep(p.utf8, b)
    ensures CanAdvance(p, b)
  {
  }

  /** ESC enters `Entry` from every state, returns nothing and clears
      nothing: parameters, intermediates, `index` and the OSC payload of an
      unfinished sequence survive. */
  lemma EscapeEntersEntry(p: ParserState)
    requires CanAdvance(p, 0x1B)
    ensures Advance(p, 0x1B).1 == Ok(None)
    ensures var q := Advance(p, 0x1B).0;
      q.state == Entry && q.csi == p.csi && q.intermediates == p.intermediates &&
      q.index == p.index && q.osc == p.osc && q.utf8 == p.utf8
  {
  }

  /** In `Anywhere`, the bytes 0x00-0x1E other than ESC are executed and
      change nothing; 0x1F is not among them. */
  lemma AnywhereExecutes(p: ParserState, b: byte)
    requires p.state == Anywhere && b < 0x1F && b != 0x1B && CanAdvance(p, b)
    ensures Advance(p, b) == (p, Ok(Some(Execute(b))))
  {
  }

  /** In `Anywhere` every other byte goes to the UTF-8 decoder: a character
      is printed exactly when the decoder hands out a valid code point, and
      an invalid sequence is dropped. */
  lemma AnywherePrints(p: ParserState, b: byte, c: char)
    requires p.state == Anywhere && 0x1F <= b && b != 0x1B && CanAdvance(p, b)
    ensures Utf8.CanStep(p.utf8, b)
    ensures Advance(p, b).0 == p.(utf8 := Utf8.Step(p.utf8, b).0)
    ensures Advance(p, b).1 == Ok(Some(Print(c))) <==> Utf8.Step(p.utf8, b).1 == Some(Utf8.Valid(c))
    ensures Utf8.Step(p.utf8, b).1 == Some(Utf8.Invalid) ==> Advance(p, b).1 == Ok(None)
  {
  }

  /** Outside a UTF-8 sequence a byte 0x1F-0x7F other than ESC prints itself
      and leaves the parser as it was. */
  lemma AsciiPrints(p: ParserState, b: byte)
    requires Valid(p) && p.state == Anywhere && p.utf8.state == Utf8.Ground
    requires 0x1F <= b <= 0x7F && b != 0x1B
    ensures CanAdvance(p, b)
    ensures Advance(p, b) == (p, Ok(Some(Print((b as int) as char))))
  {
    Utf8.AsciiInGround(p.utf8, b);
  }

  /** After ESC, `[` and `]` open a control sequence and an operating system
      command; a final byte 0x30-0x7D dispatches with the intermediates
      collected so far and resets; any other byte moves to `EscParams`,
      collecting 0x20-0x2E as an intermediate and changing nothing else. */
  lemma EntryDispatches(p: ParserState, b: byte)
    requires p.state == Entry && CanAdvance(p, b) && b != 0x1B
    ensures b == '[' as byte ==> Advance(p, b) == (p.(state := CsiParams), Ok(None))
    ensures b == ']' as byte ==> Advance(p, b) == (p.(state := OscParams), Ok(None))
    ensures b != '[' as byte && b != ']' as byte && InRange(b, 0x30, 0x7E) ==>
      Advance(p, b) == (Reset(p), Ok(Some(EscDispatch(p.intermediates, b))))
    ensures !InRange(b, 0x30, 0x7E) && InRange(b, 0x20, 0x2F) ==>
      Advance(p, b) == (p.(state := EscParams, intermediates := p.intermediates + [b]), Ok(None))
    ensures !InRange(b, 0x30, 0x7E) && !InRange(b, 0x20, 0x2F) ==>
      Advance(p, b) == (p.(state := EscParams), Ok(None))
  {
  }

  /** In `CsiParams` a final byte 0x40-0x7D dispatches the parameters and
      intermediates collected so far and resets; 0x7E is not a final byte. */
  lemma CsiDispatchResets(p: ParserState, b: byte)
    requires p.state == CsiParams && CanAdvance(p, b) && InRange(b, 0x40, 0x7E)
    ensures Advance(p, b).1 == Ok(Some(CsiDispatch(p.csi, p.intermediates, (b as int) as char)))
    ensures var q := Advance(p, b).0;
      q.state == Anywhere && q.csi == [] && q.intermediates == [] && q.index == 0 && q.osc == p.osc
  {
  }

  /** `~` (0x7E), `?` (0x3F), 0x2F and the bytes 0x0F-0x1F other than ESC
      are silently ignored inside a control sequence. */
  lemma CsiIgnores(p: ParserState, b: byte)
    requires p.state == CsiParams && CanAdvance(p, b)
    requires b == 0x7E || b == 0x3F || b == 0x2F || (0x0F <= b <= 0x1F && b != 0x1B) || 0x7F <= b
    ensures Advance(p, b) == (p, Ok(None))
  {
  }

  /** Intermediates 0x20-0x2E are collected; controls 0x00-0x0E are executed
      without leaving the control sequence. */
  lemma CsiCollects(p: ParserState, b: byte)
    requires p.state == CsiParams && CanAdvance(p, b) && b != 0x1B
    ensures InRange(b, 0x20, 0x2F) ==> Advance(p, b) == (p.(intermediates := p.intermediates + [b]), Ok(None))
    ensures InRange(b, 0x00, 0x0F) ==> Advance(p, b) == (p, Ok(Some(Execute(b))))
  {
  }

  /** `;` and `:` move to the next parameter only when the current one
      exists, so an empty parameter is never recorded. */
  lemma SeparatorSkipsEmpty(p: ParserState, b: byte)
    requires p.state == CsiParams && CanAdvance(p, b) && (b == ';' as byte || b == ':' as byte)
    ensures Advance(p, b).1 == Ok(None)
    ensures Advance(p, b).0.csi == p.csi
    ensures Advance(p, b).0.index == if p.index < |p.csi| then p.index + 1 else p.index
  {
  }

  /** Writing the digits of `d` after those of `v` gives `v*10 + d` for a
      digit and `v*100 + d` for the two-digit values 12, 13 and 14 that `<`,
      `=` and `>` stand for. */
  lemma ConcatDigits(v: nat, d: nat)
    requires d < 100
    ensures d < 10 ==> Concat(v, d) == v * 10 + d
    ensures 10 <= d ==> Concat(v, d) == v * 100 + d
  {
    if 10 <= d {
      assert |Decimal.Show(d / 10)| == 1;
      assert Decimal.Pow10(2) == 100;
    }
  }

  /** A parameter byte other than `;` and `:` extends the parameter at
      `index`, or starts one there with its own value. The only error is a
      parameter above 65535, and then nothing changes. */
  lemma DigitExtends(p: ParserState, b: byte)
    requires p.state == CsiParams && Valid(p) && InRange(b, 0x30, 0x3F) && b != ';' as byte && b != ':' as byte
    ensures CanAdvance(p, b)
    ensures Advance(p, b).1.Err? <==> p.index < |p.csi| && Concat(p.csi[p.index], DigitValue(b)) >= 0x1_0000
    ensures Advance(p, b).1.Err? ==> Advance(p, b).0 == p
    ensures Advance(p, b).1.Ok? ==> Advance(p, b).1 == Ok(None) && |Advance(p, b).0.csi| == p.index + 1
    ensures Advance(p, b).1.Ok? ==> Advance(p, b).0.csi[p.index] == if p.index < |p.csi| then Concat(p.csi[p.index], DigitValue(b)) else DigitValue(b)
    ensures Advance(p, b).1.Ok? ==> Advance(p, b).0.csi[..p.index] == p.csi[..p.index]
  {
  }

  /** In `OscParams` BEL and ST dispatch the payload; `reset` does not clear
      it, so it stays for the next operating system command. Every other
      byte but ESC is appended. */
  lemma OscDispatchKeepsPayload(p: ParserState, b: byte)
    requires p.state == OscParams && CanAdvance(p, b) && b != 0x1B
    ensures b == 0x07 || b == 0x9C ==> Advance(p, b).1 == Ok(Some(OscDispatch(p.osc))) && Advance(p, b).0.osc == p.osc
    ensures b != 0x07 && b != 0x9C ==> Advance(p, b) == (p.(osc := p.osc + [b]), Ok(None))
  {
  }

  /** `Run` on one byte. */
  lemma RunOne(p: ParserState, b: byte)
    requires CanAdvance(p, b)
    ensures CanRun(p, [b]) && Run(p, [b]) == (Advance(p, b).0, [Advance(p, b).1])
  {
    assert [b][1..] == [];
    assert [Advance(p, b).1] + [] == [Advance(p, b).1];
  }

  /** Split-chunk equivalence: feeding `a + b` in one go or `a` and then `b`
      gives the same parser and the same answers, because the parser keeps
      an unfinished sequence in its fields between calls. */
  lemma {:induction false} RunAppend(p: ParserState, a: seq<byte>, b: seq<byte>)
    ensures CanRun(p, a + b) <==> CanRun(p, a) && CanRun(Run(p, a).0, b)
    ensures CanRun(p, a + b) ==>
      Run(p, a + b) == (Run(Run(p, a).0, b).0, Run(p, a).1 + Run(Run(p, a).0, b).1)
    decreases |a|
  {
    if a == [] {
      assert a + b == b;
      if CanRun(p, b) {
        assert [] + Run(p, b).1 == Run(p, b).1;
      }
    } else {
      assert (a + b)[0] == a[0];
      assert (a + b)[1..] == a[1..] + b;
      if CanAdvance(p, a[0]) {
        var q := Advance(p, a[0]).0;
        RunAppend(q, a[1..], b);
        if CanRun(p, a + b) {
          assert [Advance(p, a[0]).1] + (Run(q, a[1..]).1 + Run(Run(q, a[1..]).0, b).1)
              == ([Advance(p, a[0]).1] + Run(q, a[1..]).1) + Run(Run(q, a[1..]).0, b).1;
        }
      }
    }
  }

  /** Every state reached from a valid one is valid. */
  lemma {:induction false} RunKeepsValid(p: ParserState, bs: seq<byte>)
    requires Valid(p) && CanRun(p, bs)
    ensures Valid(Run(p, bs).0)
    decreases |bs|
  {
    if bs != [] {
      AdvanceKeepsValid(p, bs[0]);
      RunKeepsValid(Advance(p, bs[0]).0, bs[1..]);
    }
  }

  /** One more byte in front of a run. */
  lemma RunCons(p: ParserState, b: byte, bs: seq<byte>)
    requires CanAdvance(p, b) && CanRun(Advance(p, b).0, bs)
    ensures CanRun(p, [b] + bs)
    ensures Run(p, [b] + bs) == (Run(Advance(p, b).0, bs).0, [Advance(p, b).1] + Run(Advance(p, b).0, bs).1)
  {
    assert ([b] + bs)[0] == b && ([b] + bs)[1..] == bs;
  }

  lemma EmptyParameterSteps(p1: ParserState, p2: ParserState, p3: ParserState)
    requires p1 == Initial.(state := Entry) && p2 == Initial.(state := CsiParams)
    requires p3 == Initial.(state := CsiParams, csi := [5])
    ensures CanAdvance(Initial, 0x1B) && Advance(Initial, 0x1B) == (p1, Ok(None))
    ensures CanAdvance(p1, 0x5B) && Advance(p1, 0x5B) == (p2, Ok(None))
    ensures CanAdvance(p2, 0x3B) && Advance(p2, 0x3B) == (p2, Ok(None))
    ensures CanAdvance(p2, 0x35) && Advance(p2, 0x35) == (p3, Ok(None))
    ensures CanAdvance(p3, 0x48) && Advance(p3, 0x48) == (Initial, Ok(Some(CsiDispatch([5], [], 'H'))))
  {
    EscapeEntersEntry(Initial);
    EntryDispatches(p1, 0x5B);
    SeparatorSkipsEmpty(p2, 0x3B);
    ConcatDigits(0, 5);
    DigitExtends(p2, 0x35);
    assert Advance(p2, 0x35).0.csi == [5];
    CsiDispatchResets(p3, 0x48);
  }

  /** `ESC [ ; 5 H`: the leading `;` finds no parameter to close, so the
      cursor-position command arrives with the single parameter 5. */
  lemma EmptyParameterExample()
    ensures CanRun(Initial, [0x1B, 0x5B, 0x3B, 0x35, 0x48])
    ensures Run(Initial, [0x1B, 0x5B, 0x3B, 0x35, 0x48]) ==
      (Initial, [Ok(None), Ok(None), Ok(None), Ok(None), Ok(Some(CsiDispatch([5], [], 'H')))])
  {
    var p1 := Initial.(state := Entry);
    var p2 := Initial.(state := CsiParams);
    var p3 := Initial.(state := CsiParams, csi := [5]);
    var last: Outcome := Ok(Some(CsiDispatch([5], [], 'H')));
    var none: Outcome := Ok(None);
    EmptyParameterSteps(p1, p2, p3);
    RunOne(p3, 0x48);
    RunCons(p2, 0x35, [0x48]);
    RunCons(p2, 0x3B, [0x35] + [0x48]);
    RunCons(p1, 0x5B, [0x3B] + ([0x35] + [0x48]));
    RunCons(Initial, 0x1B, [0x5B] + ([0x3B] + ([0x35] + [0x48])));
    assert [0x1B] + ([0x5B] + ([0x3B] + ([0x35] + [0x48]))) == [0x1B, 0x5B, 0x3B, 0x35, 0x48];
    assert [none] + ([none] + ([none] + ([none] + [last]))) == [none, none, none, none, last];
  }

  lemma PrivateMarkerSteps(p1: ParserState, p2: ParserState, p3: ParserState)
    requires p1 == Initial.(state := Entry) && p2 == Initial.(state := CsiParams)
    requires p3 == Initial.(state := CsiParams, csi := [14])
    ensures CanAdvance(Initial, 0x1B) && Advance(Initial, 0x1B) == (p1, Ok(None))
    ensures CanAdvance(p1, 0x5B) && Advance(p1, 0x5B) == (p2, Ok(None))
    ensures CanAdvance(p2, 0x3E) && Advance(p2, 0x3E) == (p3, Ok(None))
    ensures CanAdvance(p3, 0x63) && Advance(p3, 0x63) == (Initial, Ok(Some(CsiDispatch([14], [], 'c'))))
  {
    EscapeEntersEntry(Initial);
    EntryDispatches(p1, 0x5B);
    DigitExtends(p2, 0x3E);
    assert Advance(p2, 0x3E).0.csi == [14];
    CsiDispatchResets(p3, 0x63);
  }

  /** `ESC [ > c`: `>` is taken as the parameter 14, so a secondary device
      attributes request arrives as `c` with parameter 14. */
  lemma PrivateMarkerExample()
    ensures CanRun(Initial, [0x1B, 0x5B, 0x3E, 0x63])
    ensures Run(Initial, [0x1B, 0x5B, 0x3E, 0x63]) ==
      (Initial, [Ok(None), Ok(None), Ok(None), Ok(Some(CsiDispatch([14], [], 'c')))])
  {
    var p1 := Initial.(state := Entry);
    var p2 := Initial.(state := CsiParams);
    var p3 := Initial.(state := CsiParams, csi := [14]);
    var last: Outcome := Ok(Some(CsiDispatch([14], [], 'c')));
    var none: Outcome := Ok(None);
    PrivateMarkerSteps(p1, p2, p3);
    RunOne(p3, 0x63);
    RunCons(p2, 0x3E, [0x63]);
    RunCons(p1, 0x5B, [0x3E] + [0x63]);
    RunCons(Initial, 0x1B, [0x5B] + ([0x3E] + [0x63]));
    assert [0x1B] + ([0x5B] + ([0x3E] + [0x63])) == [0x1B, 0x5B, 0x3E, 0x63];
    assert [none] + ([none] + ([none] + [last])) == [none, none, none, last];
  }

  lemma MalformedSteps(p1: ParserState, p2: ParserState, p3: ParserState, p4: ParserState)
    requires p1 == Initial.(state := Entry) && p2 == Initial.(state := CsiParams)
    requires p3 == Initial.(state := CsiParams, csi := [1])
    requires p4 == Initial.(state := CsiParams, csi := [1], index := 1)
    ensures CanAdvance(Initial, 0x1B) && Advance(Initial, 0x1B) == (p1, Ok(None))
    ensures CanAdvance(p1, 0x5B) && Advance(p1, 0x5B) == (p2, Ok(None))
    ensures CanAdvance(p2, 0x31) && Advance(p2, 0x31) == (p3, Ok(None))
    ensures CanAdvance(p3, 0x3B) && Advance(p3, 0x3B) == (p4, Ok(None))
    ensures CanAdvance(p4, 0x40) && Advance(p4, 0x40) == (Initial, Ok(Some(CsiDispatch([1], [], '@'))))
  {
    EscapeEntersEntry(Initial);
    EntryDispatches(p1, 0x5B);
    DigitExtends(p2, 0x31);
    assert Advance(p2, 0x31).0.csi == [1];
    SeparatorSkipsEmpty(p3, 0x3B);
    CsiDispatchResets(p4, 0x40);
  }

  /** `ESC [ 1 ; @`: the control sequence part of the example below. */
  lemma MalformedHead()
    ensures CanRun(Initial, [0x1B, 0x5B, 0x31, 0x3B, 0x40])
    ensures Run(Initial, [0x1B, 0x5B, 0x31, 0x3B, 0x40]) ==
      (Initial, [Ok(None), Ok(None), Ok(None), Ok(None), Ok(Some(CsiDispatch([1], [], '@')))])
  {
    var p1 := Initial.(state := Entry);
    var p2 := Initial.(state := CsiParams);
    var p3 := Initial.(state := CsiParams, csi := [1]);
    var p4 := Initial.(state := CsiParams, csi := [1], index := 1);
    var none: Outcome := Ok(None);
    var ich: Outcome := Ok(Some(CsiDispatch([1], [], '@')));
    MalformedSteps(p1, p2, p3, p4);
    RunOne(p4, 0x40);
    RunCons(p3, 0x3B, [0x40]);
    RunCons(p2, 0x31, [0x3B] + [0x40]);
    RunCons(p1, 0x5B, [0x31] + ([0x3B] + [0x40]));
    RunCons(Initial, 0x1B, [0x5B] + ([0x31] + ([0x3B] + [0x40])));
    assert [0x1B] + ([0x5B] + ([0x31] + ([0x3B] + [0x40]))) == [0x1B, 0x5B, 0x31, 0x3B, 0x40];
    assert [none] + ([none] + ([none] + ([none] + [ich]))) == [none, none, none, none, ich];
  }

  /** `@ m A` from the initial state: three characters printed. */
  lemma MalformedTail()
    ensures CanRun(Initial, [0x40, 0x6D, 0x41])
    ensures Run(Initial, [0x40, 0x6D, 0x41]) ==
      (Initial, [Ok(Some(Print('@'))), Ok(Some(Print('m'))), Ok(Some(Print('A')))])
  {
    AsciiPrints(Initial, 0x40);
    AsciiPrints(Initial, 0x6D);
    AsciiPrints(Initial, 0x41);
    RunOne(Initial, 0x41);
    RunCons(Initial, 0x6D, [0x41]);
    RunCons(Initial, 0x40, [0x6D] + [0x41]);
    assert [0x40] + ([0x6D] + [0x41]) == [0x40, 0x6D, 0x41];
    var a: Outcome, m: Outcome, c: Outcome := Ok(Some(Print('@'))), Ok(Some(Print('m'))), Ok(Some(Print('A')));
    assert [a] + ([m] + [c]) == [a, m, c];
  }

  /** `ESC [ 1 ; @ @ m A`: `@` is a final byte, so the sequence is not
      dropped as malformed. It dispatches as insert-characters with
      parameter 1, and the `@`, `m` and `A` after it are printed. */
  lemma MalformedExample()
    ensures CanRun(Initial, [0x1B, 0x5B, 0x31, 0x3B, 0x40, 0x40, 0x6D, 0x41])
    ensures Run(Initial, [0x1B, 0x5B, 0x31, 0x3B, 0x40, 0x40, 0x6D, 0x41]) ==
      (Initial, [Ok(None), Ok(None), Ok(None), Ok(None), Ok(Some(CsiDispatch([1], [], '@'))),
                 Ok(Some(Print('@'))), Ok(Some(Print('m'))), Ok(Some(Print('A')))])
  {
    var head: seq<byte> := [0x1B, 0x5B, 0x31, 0x3B, 0x40];
    var tail: seq<byte> := [0x40, 0x6D, 0x41];
    var none: Outcome := Ok(None);
    var outs1: seq<Outcome> := [none, none, none, none, Ok(Some(CsiDispatch([1], [], '@')))];
    var outs2: seq<Outcome> := [Ok(Some(Print('@'))), Ok(Some(Print('m'))), Ok(Some(Print('A')))];
    MalformedHead();
    MalformedTail();
    RunAppend(Initial, head, tail);
    assert head + tail == [0x1B, 0x5B, 0x31, 0x3B, 0x40, 0x40, 0x6D, 0x41];
    assert outs1 + outs2 == [none, none, none, none, Ok(Some(CsiDispatch([1], [], '@'))),
                             Ok(Some(Print('@'))), Ok(Some(Print('m'))), Ok(Some(Print('A')))];
  }

  /** The answers of the `Anywhere` arm for a run of decoder answers. */
  function PrintedAll(os: seq<Option<Utf8.Codepoint>>): (r: seq<Outcome>)
    ensures |r| == |os| && forall i :: 0 <= i < |os| ==> r[i] == Printed(os[i])
  {
    if os == [] then [] else [Printed(os[0])] + PrintedAll(os[1..])
  }

  /** Bytes that the `Anywhere` arm hands to the UTF-8 decoder. */
  predicate ToDecoder(bs: seq<byte>) {
    forall i :: 0 <= i < |bs| ==> 0x1F <= bs[i] && bs[i] != 0x1B
  }

  /** Outside escape sequences the parser is the UTF-8 decoder: it runs the
      decoder over the bytes and prints each valid code point it hands out. */
  lemma {:induction false} RunFeedsDecoder(p: ParserState, bs: seq<byte>)
    requires p.state == Anywhere && p.index <= |p.csi| && ToDecoder(bs) && Utf8.CanFeed(p.utf8, bs)
    ensures CanRun(p, bs)
    ensures Run(p, bs) == (p.(utf8 := Utf8.Feed(p.utf8, bs).0), PrintedAll(Utf8.Feed(p.utf8, bs).1))
    decreases |bs|
  {
    if bs != [] {
      var s := Utf8.Step(p.utf8, bs[0]);
      var q := p.(utf8 := s.0);
      assert Advance(p, bs[0]) == (q, Printed(s.1));
      RunFeedsDecoder(q, bs[1..]);
      var f := Utf8.Feed(s.0, bs[1..]);
      assert Utf8.Feed(p.utf8, bs) == (f.0, [s.1] + f.1);
      assert PrintedAll([s.1] + f.1) == [Printed(s.1)] + PrintedAll(f.1) by {
        assert ([s.1] + f.1)[1..] == f.1;
      }
    }
  }

  /** Each byte of a UTF-8 encoding goes to the decoder: the single byte of
      a scalar 0x1F-0x7F, and bytes 0x80 and above for longer encodings. */
  lemma EncodedToDecoder(cp: bv32)
    requires Utf8.IsScalar(cp) && 0x1F <= cp && cp != 0x1B
    ensures ToDecoder(Utf8.Encode(cp))
  {
    var bs := Utf8.Encode(cp);
    if cp >= 0x80 {
      forall i | 0 <= i < |bs|
        ensures 0x80 <= bs[i]
      {
        if cp < 0x800 {
          Utf8.BitsTwo(cp);
        } else if cp < 0x1_0000 {
          Utf8.BitsThree(cp);
        } else {
          Utf8.BitsFour(cp);
        }
        if i > 0 {
          ContHigh(if i == |bs| - 1 then cp else if i == |bs| - 2 then cp >> 6 else cp >> 12);
        }
      }
    }
  }

  lemma ContHigh(v: bv32)
    ensures 0x80 <= Utf8.Cont(v)
  {
  }

  /** A character written in UTF-8 outside escape sequences is printed once
      its last byte arrives; the bytes before it return nothing and the
      parser ends as it started. */
  lemma PrintsEncoded(p: ParserState, cp: bv32)
    requires p.state == Anywhere && p.index <= |p.csi| && p.utf8 == Utf8.Fresh
    requires Utf8.IsScalar(cp) && 0x1F <= cp && cp != 0x1B
    ensures CanRun(p, Utf8.Encode(cp))
    ensures Run(p, Utf8.Encode(cp)).0 == p
    ensures var outs := Run(p, Utf8.Encode(cp)).1;
      |outs| == |Utf8.Encode(cp)| && outs[|outs| - 1] == Ok(Some(Print(Utf8.ToChar(cp)))) &&
      forall i :: 0 <= i < |outs| - 1 ==> outs[i] == Ok(None)
  {
    EncodedToDecoder(cp);
    Utf8.DecodeEncoded(cp);
    RunFeedsDecoder(p, Utf8.Encode(cp));
  }

  lemma OscCarrySteps(p: ParserState, x: byte, p1: ParserState, p2: ParserState, p3: ParserState, p4: ParserState)
    requires p.state == OscParams && p.index <= |p.csi| && x != 0x07 && x != 0x9C && x != 0x1B
    requires p1 == Reset(p) && p2 == p1.(state := Entry) && p3 == p1.(state := OscParams)
    requires p4 == p3.(osc := p.osc + [x])
    ensures CanAdvance(p, 0x07) && Advance(p, 0x07) == (p1, Ok(Some(OscDispatch(p.osc))))
    ensures CanAdvance(p1, 0x1B) && Advance(p1, 0x1B) == (p2, Ok(None))
    ensures CanAdvance(p2, 0x5D) && Advance(p2, 0x5D) == (p3, Ok(None))
    ensures CanAdvance(p3, x) && Advance(p3, x) == (p4, Ok(None))
    ensures CanAdvance(p4, 0x07) && Advance(p4, 0x07) == (Reset(p4), Ok(Some(OscDispatch(p.osc + [x]))))
  {
    OscDispatchKeepsPayload(p, 0x07);
    EscapeEntersEntry(p1);
    EntryDispatches(p2, 0x5D);
    OscDispatchKeepsPayload(p3, x);
    OscDispatchKeepsPayload(p4, 0x07);
  }

  /** `reset` leaves the OSC payload alone: after one operating system
      command has been dispatched, the next one (`ESC ] x BEL`) dispatches
      the old payload with `x` appended. */
  lemma OscPayloadCarriesOver(p: ParserState, x: byte)
    requires p.state == OscParams && p.index <= |p.csi| && x != 0x07 && x != 0x9C && x != 0x1B
    ensures CanRun(p, [0x07, 0x1B, 0x5D, x, 0x07])
    ensures Run(p, [0x07, 0x1B, 0x5D, x, 0x07]).1 ==
      [Ok(Some(OscDispatch(p.osc))), Ok(None), Ok(None), Ok(None), Ok(Some(OscDispatch(p.osc + [x])))]
  {
    var p1 := Reset(p);
    var p2 := p1.(state := Entry);
    var p3 := p1.(state := OscParams);
    var p4 := p3.(osc := p.osc + [x]);
    var none: Outcome := Ok(None);
    var first: Outcome := Ok(Some(OscDispatch(p.osc)));
    var last: Outcome := Ok(Some(OscDispatch(p.osc + [x])));
    OscCarrySteps(p, x, p1, p2, p3, p4);
    RunOne(p4, 0x07);
    RunCons(p3, x, [0x07]);
    RunCons(p2, 0x5D, [x] + [0x07]);
    RunCons(p1, 0x1B, [0x5D] + ([x] + [0x07]));
    RunCons(p, 0x07, [0x1B] + ([0x5D] + ([x] + [0x07])));
    assert [0x07] + ([0x1B] + ([0x5D] + ([x] + [0x07]))) == [0x07, 0x1B, 0x5D, x, 0x07];
    assert [first] + ([none] + ([none] + ([none] + [last]))) == [first, none, none, none, last];
  }
}
