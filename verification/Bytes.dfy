/** Octet strings and the fixed-width integer encodings the wire formats use. */
module Bytes {
  type byte = b: int | 0 <= b < 256
  type bytes = seq<byte>

  type u16 = n: int | 0 <= n < 0x1_0000
  type u32 = n: int | 0 <= n < 0x1_0000_0000
  type u64 = n: int | 0 <= n < 0x1_0000_0000_0000_0000

  const U32_MAX: int := 0xFFFF_FFFF
  const U64_MAX: int := 0xFFFF_FFFF_FFFF_FFFF

  type Block12 = b: bytes | |b| == 12 witness seq(12, _ => 0)
  type Block32 = b: bytes | |b| == 32 witness seq(32, _ => 0)

  /** 256 to the power n, the number of values n octets can hold. */
  function Span(n: nat): (r: nat)
    ensures r > 0
  {
    if n == 0 then 1 else 256 * Span(n - 1)
  }

  /** The n-octet big-endian encoding of v (network order). */
  function BigEndian(n: nat, v: nat): (b: bytes)
    ensures |b| == n
  {
    if n == 0 then [] else BigEndian(n - 1, v / 256) + [v % 256]
  }

  function FromBigEndian(b: bytes): (v: nat)
    ensures v < Span(|b|)
  {
    if b == [] then 0
    else
      var high := FromBigEndian(b[..|b| - 1]);
      assert high + 1 <= Span(|b| - 1);
      high * 256 + b[|b| - 1]
  }

  /** The n-octet little-endian encoding of v. */
  function LittleEndian(n: nat, v: nat): (b: bytes)
    ensures |b| == n
  {
    if n == 0 then [] else [v % 256] + LittleEndian(n - 1, v / 256)
  }

  function FromLittleEndian(b: bytes): (v: nat)
    ensures v < Span(|b|)
  {
    if b == [] then 0
    else
      var high := FromLittleEndian(b[1..]);
      assert high + 1 <= Span(|b| - 1);
      high * 256 + b[0]
  }

  lemma FewerMultiples(d: nat, a: int, b: int)
    requires a < b
    ensures d * a + d <= d * b
  {
    assert d * (b - a - 1) >= 0;
    assert d * b == d * a + d + d * (b - a - 1);
  }

  lemma QuotientIs(v: int, d: int, q: int, r: int)
    requires v == d * q + r && 0 <= r < d
    ensures v / d == q
  {
    var quotient := v / d;
    assert v == d * quotient + v % d && 0 <= v % d < d;
    if quotient < q {
      FewerMultiples(d, quotient, q);
    } else if quotient > q {
      FewerMultiples(d, q, quotient);
    }
  }

  lemma DivideTwice(v: nat, b: nat)
    requires b > 0
    ensures v / (256 * b) == v / 256 / b
  {
    var q, r := v / 256 / b, v / 256 % b;
    assert v / 256 == b * q + r;
    assert 256 * b * q == 256 * (b * q);
    QuotientIs(v, 256 * b, q, 256 * r + v % 256);
  }

  /** Octet k, counted from the end, is digit k in base 256. */
  lemma {:induction false} BigEndianAt(n: nat, v: nat, k: nat)
    requires k < n
    ensures BigEndian(n, v)[n - 1 - k] == v / Span(k) % 256
  {
    if k > 0 {
      BigEndianAt(n - 1, v / 256, k - 1);
      DivideTwice(v, Span(k - 1));
    }
  }

  /** Octet k, counted from the start, is digit k in base 256. */
  lemma {:induction false} LittleEndianAt(n: nat, v: nat, k: nat)
    requires k < n
    ensures LittleEndian(n, v)[k] == v / Span(k) % 256
  {
    if k > 0 {
      LittleEndianAt(n - 1, v / 256, k - 1);
      DivideTwice(v, Span(k - 1));
    }
  }

  /** The octets of an ASCII text. */
  function Ascii(text: string): bytes
    requires forall i :: 0 <= i < |text| ==> text[i] as int < 128
  {
    seq(|text|, i requires 0 <= i < |text| => var b: byte := text[i] as int; b)
  }

  lemma TwoOctets(a: byte, b: byte)
    ensures FromBigEndian([a, b]) == 256 * a + b
  {
    assert [a, b][..1] == [a] && [a][..0] == [];
  }

  lemma FourOctets(a: byte, b: byte, c: byte, d: byte)
    ensures FromBigEndian([a, b, c, d]) == 0x100_0000 * a + 0x1_0000 * b + 256 * c + d
  {
    assert [a, b, c, d][..3] == [a, b, c] && [a, b, c][..2] == [a, b];
    TwoOctets(a, b);
  }

  lemma {:induction false} BigEndianRoundTrip(n: nat, v: nat)
    requires v < Span(n)
    ensures FromBigEndian(BigEndian(n, v)) == v
  {
    if n > 0 {
      BigEndianRoundTrip(n - 1, v / 256);
      assert BigEndian(n, v)[..n - 1] == BigEndian(n - 1, v / 256);
    }
  }

  lemma {:induction false} BigEndianOfValue(b: bytes)
    ensures BigEndian(|b|, FromBigEndian(b)) == b
  {
    if b != [] {
      BigEndianOfValue(b[..|b| - 1]);
    }
  }

  lemma {:induction false} LittleEndianRoundTrip(n: nat, v: nat)
    requires v < Span(n)
    ensures FromLittleEndian(LittleEndian(n, v)) == v
  {
    if n > 0 {
      LittleEndianRoundTrip(n - 1, v / 256);
    }
  }

  lemma SpanValues()
    ensures Span(1) == 256 && Span(2) == 0x1_0000 && Span(4) == 0x1_0000_0000
    ensures Span(8) == 0x1_0000_0000_0000_0000
    ensures U32_MAX + 1 == Span(4) && U64_MAX + 1 == Span(8)
  {
  }
}
