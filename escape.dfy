/** `Parser` of src/escape/mod.rs as an object whose fields `advance`,
    `esc_param` and `reset` update in place. Each method is proved to do what
    the function of the same name in `EscapeSpec` describes. */
module Escape {
  import opened Wrappers
  import Utf8
  import opened EscapeSpec

  class Parser {
    var state: State
    var csi: seq<u16>
    var osc: seq<byte>
    var index: nat
    var intermediates: seq<byte>
    const utf8: Utf8.Utf8Decoder

    /** The fields as a value. */
    function Model(): ParserState
      reads this, utf8
    {
      ParserState(state, csi, osc, index, intermediates, utf8.Model())
    }

    /** `Parser::new`. */
    constructor ()
      ensures Model() == Initial && fresh(utf8)
    {
      state := Anywhere;
      csi := [];
      osc := [];
      index := 0;
      intermediates := [];
      utf8 := new Utf8.Utf8Decoder();
    }

    /** `reset`. */
    method Reset()
      modifies this
      ensures Model() == EscapeSpec.Reset(old(Model()))
    {
      state := Anywhere;
      csi := [];
      intermediates := [];
      index := 0;
    }

    /** `esc_param`. */
    method EscParam(b: byte) returns (r: Option<Action>)
      modifies this
      ensures (Model(), r) == EscapeSpec.EscParam(old(Model()), b)
    {
      if InRange(b, 0x30, 0x7E) {
        var action := EscDispatch(intermediates, b);
        Reset();
        return Some(action);
      } else if InRange(b, 0x20, 0x2F) {
        intermediates := intermediates + [b];
      }
      return None;
    }

    /** `Parser::advance`. */
    method Advance(b: byte) returns (r: Outcome)
      requires CanAdvance(Model(), b)
      modifies this, utf8
      ensures (Model(), r) == EscapeSpec.Advance(old(Model()), b)
    {
      if b == 0x1B {
        state := Entry;
        return Ok(None);
      }
      match state {
        case Anywhere =>
          if InRange(b, 0x00, 0x1F) {
            return Ok(Some(Execute(b)));
          }
          var c := utf8.Advance(b);
          if c.Some? && c.value.Valid? {
            return Ok(Some(Print(c.value.c)));
          }
        case Entry =>
          if b == '[' as byte {
            state := CsiParams;
          } else if b == ']' as byte {
            state := OscParams;
          } else {
            var a := EscParam(b);
            if a.Some? {
              return Ok(a);
            }
            state := EscParams;
          }
        case CsiParams =>
          r := AdvanceCsi(b);
          return;
        case EscParams =>
          var a := EscParam(b);
          return Ok(a);
        case OscParams =>
          if b == 0x07 || b == 0x9C {
            var action := OscDispatch(osc);
            Reset();
            return Ok(Some(action));
          }
          osc := osc + [b];
      }
      return Ok(None);
    }

    /** The `CsiParams` arm of `advance`. */
    method AdvanceCsi(b: byte) returns (r: Outcome)
      requires index <= |csi|
      modifies this
      ensures (Model(), r) == EscapeSpec.AdvanceCsi(old(Model()), b)
    {
      if InRange(b, 0x40, 0x7E) {
        var action := CsiDispatch(csi, intermediates, (b as int) as char);
        Reset();
        return Ok(Some(action));
      } else if InRange(b, 0x30, 0x3F) {
        if b == ';' as byte || b == ':' as byte {
          if index < |csi| {
            index := index + 1;
          }
        } else {
          var d := DigitValue(b);
          if index < |csi| {
            var v := Concat(csi[index], d);
            if v >= 0x1_0000 {
              return Err(ParamOverflow);
            }
            csi := csi[index := v];
          } else {
            csi := csi[..index] + [d] + csi[index..];
          }
        }
      } else if InRange(b, 0x20, 0x2F) {
        intermediates := intermediates + [b];
      } else if InRange(b, 0x00, 0x0F) {
        return Ok(Some(Execute(b)));
      }
      return Ok(None);
    }
  }
}
