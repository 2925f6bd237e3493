/** The `Color` helpers of src/xlib/mod.rs: parsing `"rr-gg-bb"`, packing
    into a 24-bit pixel value, rendering `"#rrggbb"`, and widening an 8-bit
    channel to the 16 bits of an X render colour. */
module Colour {
  import opened Wrappers

  const U64_LIMIT: int := 0x1_0000_0000_0000_0000

  type u64 = x: int | 0 <= x < U64_LIMIT

  /** `Color`; its constructor is `Color::new`. */
  datatype Color = Color(r: u64, g: u64, b: u64)

  /** Why `from_str` fails: the errors of `u64::from_str_radix`, and a string
      that is not three parts joined by `-`. */
  datatype ColorError = Empty | InvalidDigit | PosOverflow | WrongFormat

  /** `str::split('-')`: the pieces between the dashes, empty ones included. */
  function Split(s: string, sep: char): (parts: seq<string>)
    ensures |parts| >= 1
    decreases |s|
  {
    if s == [] then [[]]
    else
      var rest := Split(s[1..], sep);
      if s[0] == sep then [[]] + rest else [[s[0]] + rest[0]] + rest[1..]
  }

  /** The number of times `sep` occurs in `s`. */
  function Count(s: string, sep: char): nat
    decreases |s|
  {
    if s == [] then 0 else (if s[0] == sep then 1 else 0) + Count(s[1..], sep)
  }

  /** A digit of base 16 as `char::to_digit(16)` reads it: either case. */
  function HexValue(c: char): Option<nat>
  {
    if '0' <= c <= '9' then Some(c as int - '0' as int)
    else if 'a' <= c <= 'f' then Some(c as int - 'a' as int + 10)
    else if 'A' <= c <= 'F' then Some(c as int - 'A' as int + 10)
    else None
  }

  /** The digit loop of `from_str_radix`: left to right, each digit checked
      before the value is multiplied and added to, with overflow past
      `u64::MAX` reported as soon as it happens. */
  function ScanHex(acc: u64, s: string): Result<u64, ColorError>
    decreases |s|
  {
    if s == [] then Ok(acc)
    else
      match HexValue(s[0])
      case None => Err(InvalidDigit)
      case Some(d) =>
        if acc * 16 + d >= U64_LIMIT then Err(PosOverflow) else ScanHex(acc * 16 + d, s[1..])
  }

  /** `u64::from_str_radix(s, 16)`: an empty string, and a lone sign, are
      errors; one leading `+` is allowed. */
  function FromStrRadix16(s: string): Result<u64, ColorError>
  {
    if s == [] then Err(Empty)
    else if (s[0] == '+' || s[0] == '-') && |s| == 1 then Err(InvalidDigit)
    else if s[0] == '+' then ScanHex(0, s[1..])
    else ScanHex(0, s)
  }

  /** `Color::from_str`: the empty string is black; otherwise exactly three
      `-`-separated base-16 numbers, read red first. */
  function FromStr(rgb: string): Result<Color, ColorError>
  {
    if rgb == [] then Ok(Color(0, 0, 0))
    else
      var parts := Split(rgb, '-');
      if |parts| != 3 then Err(WrongFormat)
      else
        match FromStrRadix16(parts[0])
        case Err(e) => Err(e)
        case Ok(r) =>
          match FromStrRadix16(parts[1])
          case Err(e) => Err(e)
          case Ok(g) =>
            match FromStrRadix16(parts[2])
            case Err(e) => Err(e)
            case Ok(b) => Ok(Color(r, g, b))
  }

  /** `Color::encode`: `b + (g << 8) + (r << 16)` on `u64`, where the shifts
      drop the bits pushed past bit 63 and the sums wrap. */
  function Encode(c: Color): u64
  {
    var g8 := (c.g * 0x100) % U64_LIMIT;
    var r16 := (c.r * 0x1_0000) % U64_LIMIT;
    (c.b + g8 + r16) % U64_LIMIT
  }

  /** A lower-case hex digit. */
  function HexDigit(d: nat): (c: char)
    requires d < 16
    ensures HexValue(c) == Some(d)
  {
    if d < 10 then ('0' as int + d) as char else ('a' as int + d - 10) as char
  }

  /** `format!("{:x}", n)`. */
  function LowerHex(n: nat): (s: string)
    ensures 1 <= |s|
    ensures (|s| == 1) == (n < 16)
    decreases n
  {
    if n < 16 then [HexDigit(n)] else LowerHex(n / 16) + [HexDigit(n % 16)]
  }

  /** `format!("{:02x}", n)`: at least two digits, padded with `0`. */
  function Hex02(n: nat): string
  {
    var s := LowerHex(n);
    if |s| < 2 then "0" + s else s
  }

  /** `Color::hex`. */
  function Hex(c: Color): string
  {
    "#" + Hex02(c.r) + Hex02(c.g) + Hex02(c.b)
  }

  /** The channel widening of `xft_color_alloc_value`: `c as u16 * 257`.
      The cast keeps the low 16 bits; the product must fit in `u16`, which
      is exactly when those bits are below 256. */
  function Scale16(c: u64): nat
    requires c % 0x1_0000 < 0x100
  {
    (c % 0x1_0000) * 257
  }

  // Properties of the colour helpers.

  /** Splitting gives one more part than there are separators. */
  lemma {:induction false} SplitCount(s: string, sep: char)
    ensures |Split(s, sep)| == Count(s, sep) + 1
    decreases |s|
  {
    if s != [] {
      SplitCount(s[1..], sep);
    }
  }

  /** A string without the separator is a single part. */
  lemma {:induction false} SplitWhole(s: string, sep: char)
    requires sep !in s
    ensures Split(s, sep) == [s]
    decreases |s|
  {
    if s != [] {
      assert sep !in s[1..] by {
        forall i | 0 <= i < |s[1..]| ensures s[1..][i] != sep {
          assert s[1..][i] == s[i + 1];
        }
      }
      SplitWhole(s[1..], sep);
      assert [s[0]] + s[1..] == s;
    }
  }

  /** The first separator ends the first part. */
  lemma {:induction false} SplitFirst(a: string, sep: char, b: string)
    requires sep !in a
    ensures Split(a + [sep] + b, sep) == [a] + Split(b, sep)
    decreases |a|
  {
    if a == [] {
      assert a + [sep] + b == [sep] + b;
      assert ([sep] + b)[1..] == b;
    } else {
      var s := a + [sep] + b;
      assert s[0] == a[0] && s[1..] == a[1..] + [sep] + b;
      assert sep !in a[1..] by {
        forall i | 0 <= i < |a[1..]| ensures a[1..][i] != sep {
          assert a[1..][i] == a[i + 1];
        }
      }
      SplitFirst(a[1..], sep, b);
      assert [a[0]] + a[1..] == a;
    }
  }

  /** Any input that is not empty and does not hold exactly two dashes is
      rejected as badly formatted, before any number is read. */
  lemma WrongPartCount(rgb: string)
    requires rgb != [] && Count(rgb, '-') != 2
    ensures FromStr(rgb) == Err(WrongFormat)
  {
    SplitCount(rgb, '-');
  }

  /** Reading one more digit: the scan of `s + [c]` continues from the scan
      of `s`. */
  lemma {:induction false} ScanAppend(acc: u64, s: string, c: char)
    ensures ScanHex(acc, s + [c]) ==
      match ScanHex(acc, s)
      case Err(e) => Err(e)
      case Ok(v) => ScanHex(v, [c])
    decreases |s|
  {
    if s == [] {
      assert s + [c] == [c];
    } else {
      assert (s + [c])[0] == s[0] && (s + [c])[1..] == s[1..] + [c];
      match HexValue(s[0])
      case None =>
      case Some(d) =>
        if acc * 16 + d < U64_LIMIT {
          ScanAppend(acc * 16 + d, s[1..], c);
        }
    }
  }

  /** `{:x}` read back in base 16 gives the number that was written. */
  lemma {:induction false} ScanLowerHex(n: u64)
    ensures ScanHex(0, LowerHex(n)) == Ok(n)
    decreases n
  {
    if n >= 16 {
      ScanLowerHex(n / 16);
      ScanAppend(0, LowerHex(n / 16), HexDigit(n % 16));
    }
  }

  /** A leading zero does not change the value. */
  lemma LeadingZero(s: string)
    ensures ScanHex(0, "0" + s) == ScanHex(0, s)
  {
    assert ("0" + s)[1..] == s;
  }

  /** `{:02x}` is two characters exactly when the number fits in a byte;
      it holds no sign and no dash, and reads back as the number. */
  lemma Hex02Reads(n: u64)
    ensures (|Hex02(n)| == 2) == (n < 0x100)
    ensures '-' !in Hex02(n) && Hex02(n)[0] != '+'
    ensures FromStrRadix16(Hex02(n)) == Ok(n)
  {
    ScanLowerHex(n);
    LeadingZero(LowerHex(n));
    LowerHexDigits(n);
    if n >= 16 {
      assert LowerHex(n) == LowerHex(n / 16) + [HexDigit(n % 16)];
      if n / 16 >= 16 {
        assert |LowerHex(n / 16)| >= 2;
      }
    }
  }

  /** `{:x}` writes only hex digits. */
  lemma {:induction false} LowerHexDigits(n: nat)
    ensures forall i :: 0 <= i < |LowerHex(n)| ==> HexValue(LowerHex(n)[i]).Some?
    decreases n
  {
    if n >= 16 {
      LowerHexDigits(n / 16);
    }
  }

  /** Round trip: the three `{:02x}` fields that `hex` writes, joined by
      dashes, are read back by `from_str` as the same colour, whatever the
      size of the components. */
  lemma HexRoundTrip(c: Color)
    ensures FromStr(Hex02(c.r) + "-" + Hex02(c.g) + "-" + Hex02(c.b)) == Ok(c)
  {
    Hex02Reads(c.r);
    Hex02Reads(c.g);
    Hex02Reads(c.b);
    var s := Hex02(c.r) + "-" + Hex02(c.g) + "-" + Hex02(c.b);
    SplitWhole(Hex02(c.b), '-');
    SplitFirst(Hex02(c.g), '-', Hex02(c.b));
    assert Hex02(c.g) + "-" + Hex02(c.b) == Hex02(c.g) + ['-'] + Hex02(c.b);
    assert s == Hex02(c.r) + ['-'] + (Hex02(c.g) + "-" + Hex02(c.b));
    SplitFirst(Hex02(c.r), '-', Hex02(c.g) + "-" + Hex02(c.b));
    assert Split(s, '-') == [Hex02(c.r), Hex02(c.g), Hex02(c.b)];
  }

  /** `hex` is `#` and six digits exactly when every component fits in a byte. */
  lemma HexLength(c: Color)
    ensures (|Hex(c)| == 7) == (c.r < 0x100 && c.g < 0x100 && c.b < 0x100)
    ensures Hex(c)[0] == '#'
  {
    Hex02Reads(c.r);
    Hex02Reads(c.g);
    Hex02Reads(c.b);
  }

  /** The empty string is black, and black is written `#000000`. */
  lemma Black()
    ensures FromStr("") == Ok(Color(0, 0, 0))
    ensures Hex(Color(0, 0, 0)) == "#000000"
  {
    assert LowerHex(0) == "0";
  }

  /** With byte-sized components `encode` packs red, green and blue into
      the three low bytes, so each can be read back. */
  lemma EncodeBytes(c: Color)
    requires c.r < 0x100 && c.g < 0x100 && c.b < 0x100
    ensures Encode(c) < 0x100_0000
    ensures Encode(c) / 0x1_0000 == c.r
    ensures (Encode(c) / 0x100) % 0x100 == c.g
    ensures Encode(c) % 0x100 == c.b
  {
    var v := c.b + c.g * 0x100 + c.r * 0x1_0000;
    assert c.g * 0x100 <= 0xFF * 0x100;
    assert c.r * 0x1_0000 <= 0xFF * 0x1_0000;
    assert Encode(c) == v;
    DivMod(v, 0x1_0000, c.r, c.b + c.g * 0x100);
    DivMod(v, 0x100, c.g + c.r * 0x100, c.b);
    DivMod(c.g + c.r * 0x100, 0x100, c.r, c.g);
  }

  /** The division fact the packing lemmas rest on, for the two shift
      widths `encode` uses. */
  lemma DivMod(v: int, d: int, q: int, r: int)
    requires d == 0x100 || d == 0x1_0000
    requires 0 <= r < d && v == q * d + r
    ensures v / d == q && v % d == r
  {
  }

  /** `encode` on byte-sized components loses nothing: two colours with the
      same pixel value are the same colour. */
  lemma EncodeInjective(c: Color, e: Color)
    requires c.r < 0x100 && c.g < 0x100 && c.b < 0x100
    requires e.r < 0x100 && e.g < 0x100 && e.b < 0x100
    ensures (Encode(c) == Encode(e)) == (c == e)
  {
    EncodeBytes(c);
    EncodeBytes(e);
  }

  /** `c as u16 * 257` fits in 16 bits exactly when the low 16 bits of `c`
      are below 256, which is when the source does not overflow. */
  lemma ScaleFits(c: u64)
    ensures ((c % 0x1_0000) * 257 < 0x1_0000) == (c % 0x1_0000 < 0x100)
  {
    if c % 0x1_0000 >= 0x100 {
      assert (c % 0x1_0000) * 257 >= 0x100 * 257;
    }
  }

  /** Widening repeats the byte in both halves of the 16-bit channel, so 0
      stays 0, 255 becomes full intensity 65535, and order is kept. */
  lemma ScaleRepeatsByte(c: u64)
    requires c < 0x100
    ensures Scale16(c) / 0x100 == c && Scale16(c) % 0x100 == c
    ensures Scale16(c) <= 0xFFFF
    ensures c == 0 ==> Scale16(c) == 0
    ensures c == 0xFF ==> Scale16(c) == 0xFFFF
  {
    assert Scale16(c) == c * 0x100 + c;
    DivMod(Scale16(c), 0x100, c, c);
  }

  /** Widening keeps the order of channel values. */
  lemma ScaleMonotone(c: u64, e: u64)
    requires c < e < 0x100
    ensures Scale16(c) < Scale16(e)
  {
  }
}
