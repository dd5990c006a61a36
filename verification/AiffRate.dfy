// The 80-bit sample rate of an AIFF common chunk (src/d_soundfile_aiff.c; AIFF 1.3, "Common Chunk").
// Writing goes through frexp and a 32-bit mantissa; reading through a one-byte exponent and a shift loop.
module AiffRate {
  import opened Arith
  import opened ByteOrder

  const TWO32: int := 0x1_0000_0000

  /** frexp: sr is m times two to the e, with m in [1/2, 1). */
  ghost predicate IsFrexp(sr: real, m: real, e: int) {
    && 0.5 <= m < 1.0
    && (e >= 0 ==> sr == m * (Pow2(e) as real))
    && (e < 0 ==> sr * (Pow2(-e) as real) == m)
  }

  /** The nearest integer, halves upward. */
  function Nearest(x: real): int {
    (x + 0.5).Floor
  }

  // ----- writing -----

  method SetSampleRate(dst: array<byte>, ghost sr: real, mantissa: real, exponent: int)
    requires dst.Length == 10 && IsFrexp(sr, mantissa, exponent)
    modifies dst
    ensures dst[..] == Encoded(mantissa, exponent)
  {
    MantissaFits(mantissa);
    var fixmantissa := Fixed(mantissa);
    FourBytes(fixmantissa);
    hide BigEndian, Fixed;
    dst[0] := ((exponent + 16382) / 256 % 256) as byte;
    dst[1] := ((exponent + 16382) % 256) as byte;
    dst[2] := Shifted(fixmantissa, 0x100_0000);
    dst[3] := Shifted(fixmantissa, 0x1_0000);
    dst[4] := Shifted(fixmantissa, 0x100);
    dst[5] := Shifted(fixmantissa, 1);
    dst[6], dst[7], dst[8], dst[9] := 0, 0, 0, 0;
    hide Shifted;
    assert dst[..] == Encoded(mantissa, exponent);
  }

  /** The fraction as a 32-bit integer. */
  function Fixed(m: real): int {
    (m * TWO32 as real).Floor
  }

  lemma MantissaFits(m: real)
    requires 0.5 <= m < 1.0
    ensures 0 <= Fixed(m) < TWO32
  {
  }

  /** The ten bytes: sign and exponent (biased by 16383, of a fraction in [1, 2)), then the fraction. */
  function Encoded(m: real, e: int): (b: seq<byte>)
    requires 0.5 <= m < 1.0
    ensures |b| == 10
  {
    MantissaFits(m);
    var f := Fixed(m);
    [((e + 16382) / 256 % 256) as byte, ((e + 16382) % 256) as byte] + BigEndian(f, 4) + [0, 0, 0, 0]
  }

  /** A 32-bit load on a little-endian host. */
  function Load(b: seq<byte>): int
    requires |b| == 4
  {
    b[0] as int + 0x100 * b[1] as int + 0x1_0000 * b[2] as int + 0x100_0000 * b[3] as int
  }

  /** Reversing four big-endian bytes and loading them gives the number back. */
  lemma LoadSwapped(f: int)
    requires 0 <= f < TWO32
    ensures var b := BigEndian(f, 4); Load([b[3], b[2], b[1], b[0]]) == f
  {
    assert f / 0x100_0000 < 256;
    assert f / 0x1_0000 == 256 * (f / 0x100_0000) + f / 0x1_0000 % 256;
    assert f / 0x100 == 256 * (f / 0x1_0000) + f / 0x100 % 256;
  }

  // ----- reading -----

  /** m divided by two to the k, to the nearest integer; nothing to round when k is 0. */
  function RoundShift(m: nat, k: nat): nat {
    if k == 0 then m else (m + Pow2(k - 1)) / Pow2(k)
  }

  /** Shifts a mantissa right k places and rounds by the last bit shifted out. */
  method ShiftRound(m: nat, k: nat) returns (r: nat)
    ensures r == RoundShift(m, k)
  {
    var mantissa, last, exponent := m, 0, k;
    DivIs(m, 1, m, 0);
    while exponent > 0
      invariant 0 <= exponent <= k
      invariant mantissa == m / Pow2(k - exponent)
      invariant last == if exponent == k then 0 else m / Pow2(k - exponent - 1)
    {
      HalveQuotient(m, k - exponent);
      last := mantissa;
      mantissa := mantissa / 2;
      exponent := exponent - 1;
    }
    if k > 0 { RoundQuotient(m, k); }
    if last % 2 == 1 { mantissa := mantissa + 1; }
    r := mantissa;
  }

  lemma HalveQuotient(m: nat, j: nat)
    ensures m / Pow2(j) / 2 == m / Pow2(j + 1)
  {
    var p, q := Pow2(j), m / Pow2(j);
    DivMod(m, p);
    DivMod(q, 2);
    DoubledProduct(p, q);
    DivIs(m, 2 * p, q / 2, p * (q % 2) + m % p);
  }

  lemma DoubledProduct(p: int, q: int)
    requires p > 0
    ensures p * q == (2 * p) * (q / 2) + p * (q % 2)
    ensures p * (q % 2) == 0 || p * (q % 2) == p
  {
    DivMod(q, 2);
    assert q == 2 * (q / 2) + q % 2;
    assert p * (2 * (q / 2) + q % 2) == (2 * p) * (q / 2) + p * (q % 2);
  }

  /** Adding the last bit shifted out is rounding half up. */
  lemma RoundQuotient(m: nat, k: nat)
    requires k > 0
    ensures m / Pow2(k) + (m / Pow2(k - 1)) % 2 == (m + Pow2(k - 1)) / Pow2(k)
  {
    var p, q := Pow2(k - 1), m / Pow2(k - 1);
    HalveQuotient(m, k - 1);
    DivMod(m, p);
    DivMod(m + p, p);
    NextQuotient(m, p);
    HalveQuotient(m + p, k - 1);
    assert (q + 1) / 2 == q / 2 + q % 2;
  }

  lemma NextQuotient(m: nat, p: int)
    requires p > 0
    ensures (m + p) / p == m / p + 1
  {
    DivMod(m, p);
    assert p * (m / p + 1) == p * (m / p) + p;
    DivIs(m + p, p, m / p + 1, m % p);
  }

  method GetSampleRate(src: array<byte>) returns (rate: nat)
    requires src.Length == 10
    ensures rate == Decoded(src[..])
  {
    var temp := new byte[10](i requires 0 <= i < 10 reads src => src[i]);
    temp[2], temp[3], temp[4], temp[5] := temp[5], temp[4], temp[3], temp[2];
    var mantissa := Load(temp[2..6]);
    assert temp[2..6] == [src[5], src[4], src[3], src[2]];
    var exponent := (30 - temp[1] as int) % 256;
    rate := ShiftRound(mantissa, exponent);
  }

  function Decoded(b: seq<byte>): nat
    requires |b| == 10
  {
    var m := Load([b[5], b[4], b[3], b[2]]);
    RoundShift(m, (30 - b[1] as int) % 256)
  }

  // ----- the codec -----

  /** Scaling by the shift the reader will make: sr times two to the 32 - e is the fixed-point mantissa. */
  lemma Scaled(sr: real, m: real, e: int)
    requires IsFrexp(sr, m, e) && e <= 32
    ensures sr * (Pow2(32 - e) as real) == m * TWO32 as real
  {
    hide Pow2;
    Pow2Values();
    if e >= 0 {
      Pow2Add(e, 32 - e);
      AsReal(Pow2(e), Pow2(32 - e));
      ScaledUp(sr, m, Pow2(e) as real, Pow2(32 - e) as real, TWO32 as real);
    } else {
      Pow2Add(-e, 32);
      AsReal(Pow2(-e), Pow2(32));
      ScaledDown(sr, m, Pow2(-e) as real, Pow2(32 - e) as real, TWO32 as real);
    }
  }

  /** sr times two to the k, cut off. */
  function FloorOf(sr: real, k: nat): int {
    (sr * (Pow2(k) as real)).Floor
  }

  lemma FixedIs(sr: real, m: real, e: int)
    requires IsFrexp(sr, m, e) && e <= 32
    ensures Fixed(m) == FloorOf(sr, 32 - e)
  {
    hide IsFrexp;
    Scaled(sr, m, e);
  }

  lemma ScaledUp(sr: real, m: real, p: real, q: real, t: real)
    requires sr == m * p && p * q == t
    ensures sr * q == m * t
  {
    Regroup(m, p, q);
  }

  lemma ScaledDown(sr: real, m: real, p: real, q: real, t: real)
    requires sr * p == m && p * t == q
    ensures sr * q == m * t
  {
    Regroup(sr, p, t);
  }

  lemma Pow2Values()
    ensures Pow2(32) == TWO32
  {
    Pow2Add(16, 16);
    Pow2Add(8, 8);
    assert Pow2(8) == 256;
  }

  lemma Regroup(a: real, b: real, c: real)
    ensures (a * b) * c == a * (b * c)
  {
  }

  lemma AsReal(a: int, b: int)
    ensures (a * b) as real == (a as real) * (b as real)
  {
  }

  /** Rounding the truncated scaled value is rounding the value itself. */
  lemma RoundScaled(x: real, k: nat, f: int)
    requires k > 0 && x >= 0.0 && f == (x * (Pow2(k) as real)).Floor
    ensures f >= 0 && (f + Pow2(k - 1)) / Pow2(k) == Nearest(x)
  {
    RoundCore(x, Pow2(k), Pow2(k - 1), f);
  }

  lemma RoundCore(x: real, p: nat, h: nat, f: int)
    requires h > 0 && p == 2 * h && x >= 0.0 && f == (x * (p as real)).Floor
    ensures f >= 0 && (f + h) / p == Nearest(x)
  {
    var q, y, z := Nearest(x), x * (p as real), (x + 0.5) * (p as real);
    var q1 := q + 1;
    assert q as real <= x + 0.5 < q1 as real;
    NonNegProduct(x, p as real);
    Spread(x, 0.5, p as real);
    assert 0.5 * (p as real) == h as real;
    assert z == y + h as real;
    TimesFloor(q, q1, x + 0.5, p, z);
    Between(y, f, h, q * p, q1 * p);
    assert q1 * p == p * q + p && q * p == p * q;
    DivIs(f + h, p, q, f + h - p * q);
  }

  lemma TimesFloor(q: int, q1: int, x: real, p: nat, z: real)
    requires q as real <= x < q1 as real && p > 0 && z == x * (p as real)
    ensures (q * p) as real <= z < (q1 * p) as real
  {
    AsReal(q, p);
    AsReal(q1, p);
    Monotone(q as real, x, p as real);
    StrictMonotone(x, q1 as real, p as real);
  }

  lemma Between(y: real, f: int, h: int, lo: int, hi: int)
    requires f == y.Floor && lo as real <= y + h as real < hi as real
    ensures lo <= f + h < hi
  {
  }

  lemma NonNegProduct(a: real, b: real)
    requires a >= 0.0 && b >= 0.0
    ensures a * b >= 0.0
  {
  }

  lemma Spread(a: real, b: real, c: real)
    ensures (a + b) * c == a * c + b * c
  {
  }

  lemma Monotone(a: real, b: real, c: real)
    requires a <= b && c >= 0.0
    ensures a * c <= b * c
  {
    NonNegProduct(b - a, c);
    Spread(b - a, a, c);
  }

  lemma StrictMonotone(a: real, b: real, c: real)
    requires a < b && c > 0.0
    ensures a * c < b * c
  {
    Spread(b - a, a, c);
    Positive(b - a, c);
  }

  lemma Positive(a: real, c: real)
    requires a > 0.0 && c > 0.0
    ensures a * c > 0.0
  {
  }

  /** The one-byte exponent arithmetic comes out as the shift the mantissa needs. */
  lemma ExponentByte(e: int)
    requires -224 < e <= 32
    ensures (30 - (e + 16382) % 256) % 256 == 32 - e
  {
  }

  /**
   * Writing a rate and reading it back gives the nearest integer, for every rate below 2^31 down to the
   * smallest the one-byte exponent can tell apart; from 2^31 to 2^32 there is no bit left to round by and
   * the fraction is cut off.
   */
  lemma RateRoundTrip(sr: real, m: real, e: int)
    requires IsFrexp(sr, m, e) && -224 < e <= 32
    ensures Decoded(Encoded(m, e)) == if e < 32 then Nearest(sr) else sr.Floor
  {
    assert 0.5 <= m < 1.0;
    hide Encoded, Load, Decoded, IsFrexp, Nearest, Pow2, RoundShift, Fixed, FloorOf;
    EncodedFields(m, e);
    var f, k := Fixed(m), 32 - e;
    DecodedIs(Encoded(m, e), f, k);
    FixedIs(sr, m, e);
    PositiveRate(sr, m, e);
    FixedRounds(sr, f, k);
  }

  lemma FixedRounds(sr: real, f: int, k: nat)
    requires sr >= 0.0 && f == FloorOf(sr, k)
    ensures f >= 0 && RoundShift(f, k) == if k > 0 then Nearest(sr) else sr.Floor
  {
    if k > 0 {
      RoundScaled(sr, k, f);
    } else {
      assert sr * (Pow2(0) as real) == sr;
    }
  }

  lemma DecodedIs(b: seq<byte>, f: nat, k: nat)
    requires |b| == 10 && Load([b[5], b[4], b[3], b[2]]) == f && (30 - b[1] as int) % 256 == k
    ensures Decoded(b) == RoundShift(f, k)
  {
  }

  /** What the reader picks out of the ten bytes: the fixed-point mantissa, and the shift. */
  lemma EncodedFields(m: real, e: int)
    requires 0.5 <= m < 1.0 && -224 < e <= 32
    ensures var b := Encoded(m, e);
            && Load([b[5], b[4], b[3], b[2]]) == Fixed(m) >= 0
            && (30 - b[1] as int) % 256 == 32 - e
  {
    MantissaFits(m);
    var f := Fixed(m);
    var b := Encoded(m, e);
    ExponentByte(e);
    LoadSwapped(f);
    assert [b[5], b[4], b[3], b[2]] == [BigEndian(f, 4)[3], BigEndian(f, 4)[2], BigEndian(f, 4)[1], BigEndian(f, 4)[0]];
  }

  lemma PositiveRate(sr: real, m: real, e: int)
    requires IsFrexp(sr, m, e)
    ensures sr >= 0.0
  {
    if e >= 0 {
      NonNegProduct(m, Pow2(e) as real);
    } else {
      NegProduct(sr, Pow2(-e) as real);
    }
  }

  lemma NegProduct(a: real, c: real)
    requires c > 0.0
    ensures a < 0.0 ==> a * c < 0.0
  {
    if a < 0.0 { Positive(-a, c); }
  }

  lemma IntegerFixed(sr: nat, m: real, e: int)
    requires IsFrexp(sr as real, m, e) && 0 <= e <= 32
    ensures Fixed(m) == sr * Pow2(32 - e) && 0x8000_0000 <= Fixed(m) < TWO32
  {
    assert 0.5 <= m < 1.0;
    HalfUp(m);
    MantissaFits(m);
    hide IsFrexp, Pow2, Fixed, FloorOf;
    FixedIs(sr as real, m, e);
    FloorOfInt(sr, 32 - e);
  }

  lemma FloorOfInt(n: int, k: nat)
    ensures FloorOf(n as real, k) == n * Pow2(k)
  {
    AsReal(n, Pow2(k));
    hide Pow2;
  }

  lemma HalfUp(m: real)
    requires m >= 0.5
    ensures Fixed(m) >= 0x8000_0000
  {
  }

  /** What is written for an integer rate, in numbers. */
  lemma EncodedInteger(sr: nat, m: real, e: int)
    requires IsFrexp(sr as real, m, e) && 0 <= e <= 32
    ensures var b := Encoded(m, e);
            && 0x100 * b[0] as int + b[1] as int == 16382 + e && b[6] == b[7] == b[8] == b[9] == 0
            && 0x8000_0000 <= sr * Pow2(32 - e) < TWO32
            && Load([b[5], b[4], b[3], b[2]]) == sr * Pow2(32 - e)
  {
    IntegerFixed(sr, m, e);
    assert 0.5 <= m < 1.0;
    hide Pow2, IsFrexp, Fixed;
    EncodedNumbers(m, e);
  }

  lemma EncodedNumbers(m: real, e: int)
    requires 0.5 <= m < 1.0 && 0 <= e <= 32
    ensures var b := Encoded(m, e);
            && 0x100 * b[0] as int + b[1] as int == 16382 + e && b[6] == b[7] == b[8] == b[9] == 0
            && Load([b[5], b[4], b[3], b[2]]) == Fixed(m)
  {
    MantissaFits(m);
    var f := Fixed(m);
    LoadSwapped(f);
    var b, c := Encoded(m, e), BigEndian(f, 4);
    hide BigEndian, Fixed, Load;
    assert [b[5], b[4], b[3], b[2]] == [c[3], c[2], c[1], c[0]];
  }

  /** Every integer rate that fits 32 bits comes back exactly. */
  lemma IntegerRateExact(sr: nat, m: real, e: int)
    requires 1 <= sr && IsFrexp(sr as real, m, e) && e <= 32
    ensures Decoded(Encoded(m, e)) == sr
  {
    IntegerExponent(sr, m, e);
    RateRoundTrip(sr as real, m, e);
  }

  lemma IntegerExponent(sr: nat, m: real, e: int)
    requires 1 <= sr && IsFrexp(sr as real, m, e)
    ensures e >= 1
  {
    var k: nat := if e < 0 then -e else 0;
    Monotone(1.0, sr as real, Pow2(k) as real);
  }
}
