/** Byte strings: joining a stream of pieces, and fixed-width big-endian integers. */
module Bytes {
  type byte = b: int | 0 <= b < 256
  type Bytes = seq<byte>

  /** What a receiver holds after taking every piece in order. */
  function Joined(pieces: seq<Bytes>): Bytes {
    if pieces == [] then [] else Joined(pieces[..|pieces| - 1]) + pieces[|pieces| - 1]
  }

  lemma {:induction false} JoinedLast(pieces: seq<Bytes>, init: seq<Bytes>, last: Bytes)
    requires pieces == init + [last]
    ensures Joined(pieces) == Joined(init) + last
  {
    assert pieces[..|pieces| - 1] == init;
  }

  lemma {:induction false} JoinedAppend(left: seq<Bytes>, right: seq<Bytes>)
    ensures Joined(left + right) == Joined(left) + Joined(right)
  {
    if right == [] {
      assert left + right == left;
    } else {
      var init, last := right[..|right| - 1], right[|right| - 1];
      assert left + right == (left + init) + [last];
      JoinedLast(left + right, left + init, last);
      JoinedAppend(left, init);
    }
  }

  /** A received prefix of the pieces is a prefix of everything sent. */
  lemma {:induction false} JoinedPrefix(pieces: seq<Bytes>, k: nat)
    requires k <= |pieces|
    ensures Joined(pieces) == Joined(pieces[..k]) + Joined(pieces[k..])
  {
    assert pieces == pieces[..k] + pieces[k..];
    JoinedAppend(pieces[..k], pieces[k..]);
  }

  function Ascii(text: string): Bytes {
    seq(|text|, i requires 0 <= i < |text| => (text[i] as int) % 256)
  }

  /** The number of values that fit in `width` bytes. */
  function Range(width: nat): (r: nat)
    ensures r >= 1
  {
    if width == 0 then 1 else 256 * Range(width - 1)
  }

  /** Big-endian encoding; a value that does not fit loses its high bytes. */
  function BigEndian(n: nat, width: nat): (b: Bytes)
    ensures |b| == width
  {
    if width == 0 then [] else BigEndian(n / 256, width - 1) + [n % 256]
  }

  function FromBigEndian(b: Bytes): nat {
    if b == [] then 0 else FromBigEndian(b[..|b| - 1]) * 256 + b[|b| - 1]
  }

  lemma {:induction false} BigEndianRoundTrip(n: nat, width: nat)
    requires n < Range(width)
    ensures FromBigEndian(BigEndian(n, width)) == n
  {
    if width > 0 {
      var high := BigEndian(n / 256, width - 1);
      assert BigEndian(n, width)[..width - 1] == high;
      BigEndianRoundTrip(n / 256, width - 1);
    }
  }

  lemma {:induction false} FromBigEndianRoundTrip(b: Bytes)
    ensures FromBigEndian(b) < Range(|b|)
    ensures BigEndian(FromBigEndian(b), |b|) == b
  {
    if b != [] {
      var high := b[..|b| - 1];
      FromBigEndianRoundTrip(high);
      assert FromBigEndian(b) / 256 == FromBigEndian(high);
      assert high + [b[|b| - 1]] == b;
    }
  }

  lemma {:induction false} RangeValues()
    ensures Range(4) == 0x1_0000_0000
    ensures Range(8) == 0x1_0000_0000_0000_0000
    ensures Range(12) >= Range(4)
  {
    assert Range(1) == 256 && Range(2) == 0x1_0000 && Range(3) == 0x100_0000;
    assert Range(5) == 256 * Range(4) && Range(6) == 256 * Range(5) && Range(7) == 256 * Range(6);
    assert Range(9) == 256 * Range(8) && Range(10) == 256 * Range(9) && Range(11) == 256 * Range(10);
  }

  lemma {:induction false} DivDiv(n: nat, b: nat)
    requires b > 0
    ensures n / 256 / b == n / (256 * b)
  {
    var high := n / 256;
    var q, r := high / b, high % b;
    assert high == q * b + r && n == 256 * high + n % 256;
    var rest := 256 * r + n % 256;
    assert n == (256 * b) * q + rest by {
      assert 256 * high == 256 * (q * b) + 256 * r;
      assert 256 * (q * b) == (256 * b) * q;
    }
    assert 0 <= rest < 256 * b;
    QuotientIs(n, 256 * b, q, rest);
  }

  lemma {:induction false} QuotientIs(n: nat, d: nat, q: nat, rest: nat)
    requires n == d * q + rest && rest < d
    ensures n / d == q
  {
    var p := n / d;
    assert n == d * p + n % d;
    if p > q { TimesGrows(d, q + 1, p); }
    if p < q { TimesGrows(d, p + 1, q); }
  }

  lemma {:induction false} TimesGrows(d: nat, a: nat, b: nat)
    requires a <= b
    ensures d * a <= d * b
  {
  }

  /** Big-endian: the first byte counts the most. */
  lemma {:induction false} BigEndianPlace(n: nat, width: nat, i: nat)
    requires i < width
    ensures BigEndian(n, width)[i] == n / Range(width - 1 - i) % 256
  {
    if i < width - 1 {
      BigEndianPlace(n / 256, width - 1, i);
      DivDiv(n, Range(width - 2 - i));
    }
  }
}
