/** Zero-padded numerals in a base up to 16, written with lower-case digits. */
module Numerals {
  type Base = b: nat | 2 <= b <= 16 witness 10

  function DigitChar(d: nat): char
    requires d < 16
  {
    "0123456789abcdef"[d]
  }

  function DigitValue(c: char): nat {
    if '0' <= c <= '9' then c as int - '0' as int
    else if 'a' <= c <= 'f' then c as int - 'a' as int + 10
    else 16
  }

  predicate IsDigit(c: char, base: Base) {
    DigitValue(c) < base
  }

  predicate AllDigits(text: string, base: Base) {
    forall i :: 0 <= i < |text| ==> IsDigit(text[i], base)
  }

  function Power(base: Base, e: nat): (p: nat)
    ensures p >= 1
  {
    if e == 0 then 1 else base * Power(base, e - 1)
  }

  lemma {:induction false} DivMod(n: nat, base: nat)
    requires base >= 2
    ensures n == n / base * base + n % base && n % base < base
    ensures n >= base ==> n / base < n
  {
    var q := n / base;
    if n >= base {
      assert q >= 1;
      assert q * base >= q * 2;
    }
  }

  /** Python's `{n:0{width}}`: at least `width` digits, more when the number needs them. */
  function Padded(n: nat, width: nat, base: Base): (text: string)
    ensures |text| >= width
    decreases n, width
  {
    DivMod(n, base);
    var last := [DigitChar(n % base)];
    if n < base then
      if width <= 1 then last else Padded(0, width - 1, base) + last
    else Padded(n / base, if width == 0 then 0 else width - 1, base) + last
  }

  lemma {:induction false} PaddedIsDigits(n: nat, width: nat, base: Base)
    ensures AllDigits(Padded(n, width, base), base)
    decreases n, width
  {
    DivMod(n, base);
    DigitRoundTrip(n % base);
    if n < base {
      if width > 1 { PaddedIsDigits(0, width - 1, base); }
    } else {
      PaddedIsDigits(n / base, if width == 0 then 0 else width - 1, base);
    }
  }

  function Value(text: string, base: Base): nat {
    if text == "" then 0 else Value(text[..|text| - 1], base) * base + DigitValue(text[|text| - 1])
  }

  lemma {:induction false} DigitRoundTrip(d: nat)
    requires d < 16
    ensures DigitValue(DigitChar(d)) == d
  {
  }

  lemma {:induction false} ValueOfLast(text: string, init: string, last: char, base: Base)
    requires text == init + [last]
    ensures Value(text, base) == Value(init, base) * base + DigitValue(last)
  {
    assert text[..|text| - 1] == init;
  }

  lemma {:induction false} PaddedRoundTrip(n: nat, width: nat, base: Base)
    ensures Value(Padded(n, width, base), base) == n
    decreases n, width
  {
    hide Value;
    DivMod(n, base);
    DigitRoundTrip(n % base);
    var last := DigitChar(n % base);
    if n < base {
      if width <= 1 {
        ValueOfLast(Padded(n, width, base), "", last, base);
        assert Value("", base) == 0 by { EmptyValue(base); }
      } else {
        PaddedRoundTrip(0, width - 1, base);
        ValueOfLast(Padded(n, width, base), Padded(0, width - 1, base), last, base);
      }
    } else {
      var shorter := if width == 0 then 0 else width - 1;
      PaddedRoundTrip(n / base, shorter, base);
      ValueOfLast(Padded(n, width, base), Padded(n / base, shorter, base), last, base);
    }
  }

  lemma {:induction false} EmptyValue(base: Base)
    ensures Value("", base) == 0
  {
  }

  /** The field keeps its width exactly when the number fits. */
  lemma {:induction false} PaddedWidth(n: nat, width: nat, base: Base)
    requires width >= 1
    ensures |Padded(n, width, base)| == width <==> n < Power(base, width)
    decreases n, width
  {
    if n < base {
      if width > 1 {
        PaddedWidth(0, width - 1, base);
      }
      PowerGrows(base, width);
    } else if width == 1 {
      assert Power(base, 1) == base * Power(base, 0);
    } else {
      DivMod(n, base);
      PaddedWidth(n / base, width - 1, base);
      DivBelow(n, base, Power(base, width - 1));
    }
  }

  lemma {:induction false} PowerGrows(base: Base, e: nat)
    requires e >= 1
    ensures Power(base, e) >= base
  {
    if e > 1 { PowerGrows(base, e - 1); }
  }

  lemma {:induction false} DivBelow(n: nat, base: nat, p: nat)
    requires base > 0
    ensures n / base < p <==> n < base * p
  {
    assert n == n / base * base + n % base;
    if n / base < p { assert (n / base + 1) * base <= p * base; }
    if n / base >= p { assert n / base * base >= p * base; }
  }

  lemma {:induction false} Powers()
    ensures Power(10, 4) == 10_000
    ensures Power(10, 9) == 1_000_000_000
    ensures Power(10, 12) == 1_000_000_000_000
  {
    assert Power(10, 1) == 10 && Power(10, 2) == 100 && Power(10, 3) == 1000;
    assert Power(10, 5) == 100_000 && Power(10, 6) == 1_000_000 && Power(10, 7) == 10_000_000;
    assert Power(10, 8) == 100_000_000 && Power(10, 10) == 10_000_000_000 && Power(10, 11) == 100_000_000_000;
  }
}
