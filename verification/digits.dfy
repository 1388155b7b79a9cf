/** ASCII decimal digits: reading a run of digits as a number, and writing a
    number as zero-padded decimal text. Both directions are used by the
    timestamp converter (fields are read out of the matched text and written
    back into the RFC 3339 rendering), so the round trips are proved here once.
 */
module Digits {

  predicate IsDigit(c: char) {
    '0' <= c <= '9'
  }

  predicate AllDigits(s: string) {
    forall i :: 0 <= i < |s| ==> IsDigit(s[i])
  }

  function DigitValue(c: char): (d: nat)
    requires IsDigit(c)
    ensures d < 10
  {
    c as int - '0' as int
  }

  function DigitChar(d: nat): (c: char)
    requires d < 10
    ensures IsDigit(c) && DigitValue(c) == d
  {
    ('0' as int + d) as char
  }

  function Pow10(n: nat): (p: nat)
    ensures p >= 1
  {
    if n == 0 then 1 else 10 * Pow10(n - 1)
  }

  /** The number a run of digits denotes (most significant digit first). */
  function Number(s: string): (v: nat)
    requires AllDigits(s)
    ensures v < Pow10(|s|)
  {
    if s == [] then 0 else 10 * Number(s[..|s| - 1]) + DigitValue(s[|s| - 1])
  }

  /** `n` in decimal, left-padded with zeros to at least `width` digits
      (the `{:0width}` formatting of Rust and chrono). */
  function Decimal(n: nat, width: nat): (s: string)
    ensures AllDigits(s) && 1 <= |s| && width <= |s|
    decreases n + width
  {
    if n < 10 && width <= 1 then [DigitChar(n)]
    else Decimal(n / 10, if width == 0 then 0 else width - 1) + [DigitChar(n % 10)]
  }

  /** Number of leading digits of `s`. */
  function LeadingDigits(s: string): (k: nat)
    ensures k <= |s| && AllDigits(s[..k])
    ensures k < |s| ==> !IsDigit(s[k])
  {
    if s == [] || !IsDigit(s[0]) then 0
    else
      var k := 1 + LeadingDigits(s[1..]);
      assert s[..k] == [s[0]] + s[1..][..k - 1];
      k
  }

  /** Writing a number then reading it back gives the number. */
  lemma {:induction false} NumberOfDecimal(n: nat, width: nat)
    ensures Number(Decimal(n, width)) == n
    decreases n + width
  {
    if n < 10 && width <= 1 {
    } else {
      var w := if width == 0 then 0 else width - 1;
      var s := Decimal(n, width);
      NumberOfDecimal(n / 10, w);
      assert s[..|s| - 1] == Decimal(n / 10, w);
    }
  }

  /** A number below 10^width is written with exactly `width` digits. */
  lemma {:induction false} DecimalLength(n: nat, width: nat)
    requires 1 <= width && n < Pow10(width)
    ensures |Decimal(n, width)| == width
    decreases width
  {
    if n < 10 && width <= 1 {
    } else {
      assert 2 <= width;
      DecimalLength(n / 10, width - 1);
    }
  }

  /** Reading a run of digits then writing it at the same width gives the run back. */
  lemma {:induction false} DecimalOfNumber(s: string)
    requires AllDigits(s) && 1 <= |s|
    ensures Decimal(Number(s), |s|) == s
    decreases |s|
  {
    var n := Number(s);
    var init := s[..|s| - 1];
    if |s| == 1 {
      assert n == DigitValue(s[0]);
    } else {
      assert n / 10 == Number(init) && n % 10 == DigitValue(s[|s| - 1]);
      DecimalOfNumber(init);
      assert DigitChar(DigitValue(s[|s| - 1])) == s[|s| - 1];
      assert s == init + [s[|s| - 1]];
    }
  }

  lemma {:induction false} Pow10Monotone(a: nat, b: nat)
    requires a <= b
    ensures Pow10(a) <= Pow10(b)
    decreases b
  {
    if a < b {
      Pow10Monotone(a, b - 1);
    }
  }

  /** 10^a * 10^b == 10^(a + b). */
  lemma {:induction false} Pow10Add(a: nat, b: nat)
    ensures Pow10(a) * Pow10(b) == Pow10(a + b)
    decreases b
  {
    if b > 0 {
      Pow10Add(a, b - 1);
      assert Pow10(a) * Pow10(b) == 10 * (Pow10(a) * Pow10(b - 1));
    }
  }
}
