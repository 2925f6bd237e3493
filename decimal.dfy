/** Decimal numerals as Rust's `format!("{}")` writes them and `str::parse`
    reads them back. The escape parser extends a CSI parameter by formatting the
    old value and the new digit side by side and parsing the result; the
    terminal formats the cursor position into its position report. */
module Decimal {

  predicate IsDigit(c: char) {
    '0' <= c <= '9'
  }

  predicate AllDigits(s: string) {
    forall i :: 0 <= i < |s| ==> IsDigit(s[i])
  }

  function DigitChar(d: nat): (c: char)
    requires d < 10
    ensures IsDigit(c) && c as int - '0' as int == d
  {
    ('0' as int + d) as char
  }

  function Pow10(k: nat): (p: nat)
    ensures p >= 1
  {
    if k == 0 then 1 else 10 * Pow10(k - 1)
  }

  /** `format!("{}", n)` for an unsigned integer: no sign, no leading zeros. */
  function Show(n: nat): (s: string)
    ensures 1 <= |s| && AllDigits(s)
    ensures (|s| == 1) == (n < 10)
    ensures n < Pow10(|s|)
    decreases n
  {
    if n < 10 then [DigitChar(n)] else Show(n / 10) + [DigitChar(n % 10)]
  }

  /** `format!` writes `n` in at most `k` digits exactly when `n` is below
      `10^k`: the numeral has no padding. */
  lemma {:induction false} ShowLength(n: nat, k: nat)
    requires k >= 1
    ensures |Show(n)| <= k <==> n < Pow10(k)
    decreases n
  {
    if n >= 10 {
      assert |Show(n)| == |Show(n / 10)| + 1;
      if k > 1 {
        ShowLength(n / 10, k - 1);
        assert n / 10 < Pow10(k - 1) <==> n < 10 * Pow10(k - 1);
      }
    } else {
      assert Pow10(k) == 10 * Pow10(k - 1);
    }
  }

  /** The value of a digit string, read most significant digit first. */
  function Parse(s: string): nat
    requires AllDigits(s)
  {
    if s == [] then 0 else Parse(s[..|s| - 1]) * 10 + (s[|s| - 1] as int - '0' as int)
  }

  lemma {:induction false} ParseShow(n: nat)
    ensures Parse(Show(n)) == n
    decreases n
  {
    if n >= 10 {
      var s := Show(n);
      assert s[..|s| - 1] == Show(n / 10);
      ParseShow(n / 10);
    }
  }

  /** Reading two digit strings written side by side. */
  lemma {:induction false} ParseAppend(a: string, b: string)
    requires AllDigits(a) && AllDigits(b)
    ensures AllDigits(a + b)
    ensures Parse(a + b) == Parse(a) * Pow10(|b|) + Parse(b)
    decreases |b|
  {
    if b != [] {
      var b' := b[..|b| - 1];
      var d := b[|b| - 1] as int - '0' as int;
      assert (a + b)[..|a + b| - 1] == a + b';
      assert (a + b)[|a + b| - 1] == b[|b| - 1];
      ParseAppend(a, b');
      Regroup(Parse(a), Parse(b'), Pow10(|b'|), d);
    } else {
      assert a + b == a;
    }
  }

  /** The step of `ParseAppend` that moves one more digit into place. */
  lemma Regroup(p: int, q: int, w: int, d: int)
    ensures (p * w + q) * 10 + d == p * (10 * w) + (q * 10 + d)
  {
    assert (p * w) * 10 == p * (10 * w);
  }

  /** Two different numbers are never written the same way. */
  lemma ShowInjective(m: nat, n: nat)
    requires Show(m) == Show(n)
    ensures m == n
  {
    ParseShow(m);
    ParseShow(n);
  }

  /** The digits of a signed numeral: everything after a leading `-`. */
  function Magnitude(s: string): string {
    if s != [] && s[0] == '-' then s[1..] else s
  }

  /** `format!("{}", i)` for a signed integer: a sign exactly for negative
      values, then digits that read back as the absolute value. */
  function ShowInt(i: int): (s: string)
    ensures 2 <= |s| || (|s| == 1 && 0 <= i < 10)
    ensures (s[0] == '-') == (i < 0)
    ensures AllDigits(Magnitude(s))
    ensures Parse(Magnitude(s)) == if i < 0 then -i else i
  {
    var m := if i < 0 then -i else i;
    ParseShow(m);
    if i < 0 then "-" + Show(m) else Show(m)
  }

  /** Two different signed numbers are never written the same way. */
  lemma ShowIntInjective(i: int, j: int)
    requires ShowInt(i) == ShowInt(j)
    ensures i == j
  {
  }
}
