// AIFF and AIFF-C files (src/d_soundfile_aiff.c): big-endian chunks, the sample rate as an 80-bit float.
module AiffHeader {
  import opened Arith
  import opened ByteOrder
  import opened SoundHeader
  import AiffRate

  const AIFFCHUNKSIZE: nat := 8
  const AIFFHEADSIZE: nat := 12
  const AIFFVERSIZE: nat := 12
  const AIFFCOMMSIZE: nat := 26
  const AIFFDATASIZE: nat := 16
  const AIFFCVER1: int := 0xA280_5140

  const FORM: seq<byte> := [0x46, 0x4f, 0x52, 0x4d]
  const AIFF: seq<byte> := [0x41, 0x49, 0x46, 0x46]
  const AIFC: seq<byte> := [0x41, 0x49, 0x46, 0x43]
  const FVER: seq<byte> := [0x46, 0x56, 0x45, 0x52]
  const COMM: seq<byte> := [0x43, 0x4f, 0x4d, 0x4d]
  const SSND: seq<byte> := [0x53, 0x53, 0x4e, 0x44]
  const CSND: seq<byte> := [0x43, 0x53, 0x4e, 0x44]
  const NONE: seq<byte> := [0x4e, 0x4f, 0x4e, 0x45]
  const SOWT: seq<byte> := [0x73, 0x6f, 0x77, 0x74]
  const FL32: seq<byte> := [0x66, 0x6c, 0x33, 0x32]
  const FL32_CAPS: seq<byte> := [0x46, 0x4c, 0x33, 0x32]

  /** "not compressed" and "32-bit floating point". */
  const AIFF_NONE_STR: seq<byte> :=
    [0x6e, 0x6f, 0x74, 0x20, 0x63, 0x6f, 0x6d, 0x70, 0x72, 0x65, 0x73, 0x73, 0x65, 0x64]
  const AIFF_FL32_STR: seq<byte> :=
    [0x33, 0x32, 0x2d, 0x62, 0x69, 0x74, 0x20, 0x66, 0x6c, 0x6f, 0x61, 0x74, 0x69, 0x6e, 0x67, 0x20,
     0x70, 0x6f, 0x69, 0x6e, 0x74]

  // ----- pascal strings -----

  /** A length byte, the characters, and a byte of padding if that makes an odd number. */
  function SetPString(s: seq<byte>): (p: seq<byte>)
    requires |s| < 256
  {
    [|s| as byte] + s + if |s| % 2 == 0 then [0] else []
  }

  function GetPString(p: seq<byte>): (s: seq<byte>)
    requires |p| > 0 && 1 + p[0] as int <= |p|
  {
    p[1..1 + p[0] as int]
  }

  /** A pascal string takes an even number of bytes, and the string comes back out of it. */
  lemma PStringRoundTrip(s: seq<byte>)
    requires |s| < 256
    ensures |SetPString(s)| % 2 == 0 && 1 + SetPString(s)[0] as int <= |SetPString(s)|
    ensures GetPString(SetPString(s)) == s
  {
    var p := SetPString(s);
    assert p[1..1 + |s|] == s;
  }

  // ----- the sample rate -----

  function BitLength(n: nat): nat {
    if n == 0 then 0 else 1 + BitLength(n / 2)
  }

  lemma {:induction false} BitLengthIs(n: nat)
    requires n > 0
    ensures BitLength(n) > 0 && Pow2(BitLength(n) - 1) <= n < Pow2(BitLength(n))
  {
    if n == 1 {
      assert BitLength(0) == 0 && Pow2(0) == 1;
    } else {
      BitLengthIs(n / 2);
    }
  }

  lemma BitLengthBound(n: nat, k: nat)
    requires n < Pow2(k)
    ensures BitLength(n) <= k
  {
    if n > 0 {
      BitLengthIs(n);
      Pow2Monotone(k, BitLength(n) - 1);
    }
  }

  lemma Pow2Monotone(a: nat, b: nat)
    ensures a <= b ==> Pow2(a) <= Pow2(b)
  {
    if a < b { Pow2Grows(a, b); }
  }

  function Ratio(n: nat, p: nat): real
    requires p > 0
  {
    n as real / p as real
  }

  /** frexp of an integer: it is the mantissa times two to the bit length. */
  function Mantissa(n: nat): real {
    Ratio(n, Pow2(BitLength(n)))
  }

  lemma FrexpOfInt(n: nat)
    requires n > 0
    ensures AiffRate.IsFrexp(n as real, Mantissa(n), BitLength(n))
  {
    hide Ratio, AiffRate.IsFrexp, BitLength;
    BitLengthIs(n);
    RatioIsFrexp(n, BitLength(n));
  }

  lemma RatioIsFrexp(n: nat, e: nat)
    requires e > 0 && Pow2(e - 1) <= n < Pow2(e)
    ensures AiffRate.IsFrexp(n as real, Ratio(n, Pow2(e)), e)
  {
    RatioBounds(n, Pow2(e), Pow2(e - 1));
    hide Ratio, Pow2;
  }

  lemma RatioBounds(n: nat, p: nat, h: nat)
    requires 0 < h <= n < p == 2 * h
    ensures 0.5 <= Ratio(n, p) < 1.0 && n as real == Ratio(n, p) * (p as real)
  {
    var m, a, q := Ratio(n, p), n as real, p as real;
    DivideBack(a, q, m);
    hide Ratio;
    Below(m, 1.0, q, a, q);
    Below(m, 0.5, q, a, 0.5 * q);
  }

  lemma DivideBack(a: real, q: real, m: real)
    requires q > 0.0 && m == a / q
    ensures m * q == a
  {
  }

  lemma Below(a: real, b: real, q: real, x: real, y: real)
    requires q > 0.0 && x == a * q && y == b * q
    ensures x < y <==> a < b
  {
    AiffRate.Spread(b - a, a, q);
    if a < b { AiffRate.Positive(b - a, q); } else if b < a {
      AiffRate.Positive(a - b, q);
      AiffRate.Spread(a - b, b, q);
    }
  }

  /** The ten bytes of an integer sample rate. */
  function Rate(n: nat): (b: seq<byte>)
    requires n > 0
    ensures |b| == 10
  {
    FrexpOfInt(n);
    AiffRate.Encoded(Mantissa(n), BitLength(n))
  }

  lemma RateBack(n: nat)
    requires 0 < n < 0x8000_0000
    ensures AiffRate.Decoded(Rate(n)) == n
  {
    FrexpOfInt(n);
    AiffRate.Pow2Values();
    BitLengthBound(n, 32);
    AiffRate.IntegerRateExact(n, Mantissa(n), BitLength(n));
  }

  // ----- the header as the format has it -----

  /** Little-endian and floating-point samples need AIFF-C. */
  predicate IsAiffc(s: Sound) { !s.bigendian || s.bytespersample == 4 }

  function Compression(s: Sound): (c: seq<byte>)
    ensures |c| == if !IsAiffc(s) then 0 else if s.bytespersample == 4 then 26 else 20
  {
    if !IsAiffc(s) then []
    else if s.bytespersample == 4 then FL32 + SetPString(AIFF_FL32_STR)
    else (if s.bigendian then NONE else SOWT) + SetPString(AIFF_NONE_STR)
  }

  function CommSize(s: Sound): nat { AIFFCOMMSIZE + |Compression(s)| }

  function CommChunk(s: Sound, nframes: int): (c: seq<byte>)
    requires s.samplerate > 0
    ensures |c| == CommSize(s)
  {
    COMM + Num(CommSize(s) - AIFFCHUNKSIZE, 4) + Num(s.nchannels, 2) + Num(nframes, 4)
    + Num(s.bytespersample * 8, 2) + Rate(s.samplerate) + Compression(s)
  }

  function VersionChunk(): (c: seq<byte>)
    ensures |c| == AIFFVERSIZE
  {
    FVER + Num(4, 4) + Num(AIFFCVER1, 4)
  }

  /** Where the common chunk and the sound data chunk stand. */
  function CommOffset(s: Sound): nat { if IsAiffc(s) then AIFFHEADSIZE + AIFFVERSIZE else AIFFHEADSIZE }

  function DataOffset(s: Sound): nat { CommOffset(s) + CommSize(s) }

  function HeaderSize(s: Sound): nat { DataOffset(s) + AIFFDATASIZE }

  function Header(s: Sound, formsize: int, nframes: int, datasize: int): (h: seq<byte>)
    requires s.samplerate > 0
    ensures |h| == HeaderSize(s)
  {
    FORM + Num(formsize, 4) + (if IsAiffc(s) then AIFC + VersionChunk() else AIFF)
    + CommChunk(s, nframes) + SSND + Num(datasize + 8, 4) + Num(0, 4) + Num(0, 4)
  }

  function HeaderFor(s: Sound, nframes: nat): (h: seq<byte>)
    requires s.Writable()
    ensures |h| == HeaderSize(s)
  {
    Header(s, HeaderSize(s) + s.DataSize(nframes) - 8, nframes, s.DataSize(nframes))
  }

  lemma CommFields(s: Sound, nframes: int)
    requires s.samplerate > 0
    ensures var c := CommChunk(s, nframes);
            && At(c, 0, COMM) && At(c, 4, Num(CommSize(s) - 8, 4)) && At(c, 8, Num(s.nchannels, 2))
            && At(c, 10, Num(nframes, 4)) && At(c, 14, Num(s.bytespersample * 8, 2))
  {
    hide Store, Rate, Compression;
  }

  lemma CommTail(s: Sound, nframes: int)
    requires s.samplerate > 0
    ensures var c := CommChunk(s, nframes);
            && At(c, 16, Rate(s.samplerate))
            && (IsAiffc(s) ==> At(c, 26, if s.bytespersample == 4 then FL32 else if s.bigendian then NONE else SOWT))
            && At(c, 26, Compression(s))
  {
    hide Store, Rate, SetPString;
  }

  lemma VersionFields()
    ensures At(VersionChunk(), 0, FVER) && At(VersionChunk(), 4, Num(4, 4)) && At(VersionChunk(), 8, Num(AIFFCVER1, 4))
  {
    hide Store;
  }

  lemma HeaderFields(s: Sound, f: int, n: int, d: int)
    requires s.samplerate > 0
    ensures var h := Header(s, f, n, d);
            && At(h, 8, if IsAiffc(s) then AIFC else AIFF) && (IsAiffc(s) ==> At(h, 12, VersionChunk()))
            && At(h, CommOffset(s), CommChunk(s, n))
            && At(h, DataOffset(s), SSND) && At(h, DataOffset(s) + 4, Num(d + 8, 4))
            && At(h, 0, FORM + Num(f, 4)) && At(h, DataOffset(s) + 8, Num(0, 4) + Num(0, 4))
  {
    hide Num, CommChunk, VersionChunk, Compression, CommSize, Rate, At;
    var a, k, v := FORM + Num(f, 4), if IsAiffc(s) then AIFC else AIFF, if IsAiffc(s) then VersionChunk() else [];
    var c, e := CommChunk(s, n), Num(d + 8, 4);
    var z := Num(0, 4) + Num(0, 4);
    assert Header(s, f, n, d) == a + k + v + c + SSND + e + z;
    hide Header;
    PiecesAt(a, k, v, c, SSND, e, z);
  }

  lemma PiecesAt(a: seq<byte>, k: seq<byte>, v: seq<byte>, c: seq<byte>, d: seq<byte>, e: seq<byte>, z: seq<byte>)
    ensures var h := a + k + v + c + d + e + z;
            && At(h, |a|, k) && At(h, |a| + |k|, v) && At(h, |a| + |k| + |v|, c)
            && At(h, |a| + |k| + |v| + |c|, d) && At(h, |a| + |k| + |v| + |c| + |d|, e)
            && At(h, 0, a) && At(h, |a| + |k| + |v| + |c| + |d| + |e|, z)
  {
    hide At;
    var h := a + k + v + c;
    EndAt(a, k);
    StartAt(a, k);
    AtWhole(a + k, v, 0, a);
    AtWhole(a + k + v, c, 0, a);
    MoreAt(h, d, e, z, 0, a);
    EndAt(h + d + e, z);
    AtWhole(a + k, v, |a|, k);
    EndAt(a + k, v);
    AtWhole(a + k + v, c, |a|, k);
    AtWhole(a + k + v, c, |a| + |k|, v);
    EndAt(a + k + v, c);
    MoreAt(h, d, e, z, |a|, k);
    MoreAt(h, d, e, z, |a| + |k|, v);
    MoreAt(h, d, e, z, |a| + |k| + |v|, c);
    EndAt(h, d);
    AtWhole(h + d, e, |h|, d);
    AtWhole(h + d + e, z, |h|, d);
    EndAt(h + d, e);
    AtWhole(h + d + e, z, |h| + |d|, e);
  }

  lemma StartAt(a: seq<byte>, b: seq<byte>)
    ensures At(a + b, 0, a)
  {
  }

  lemma MoreAt(h: seq<byte>, d: seq<byte>, e: seq<byte>, z: seq<byte>, off: nat, f: seq<byte>)
    requires At(h, off, f)
    ensures At(h + d + e + z, off, f)
  {
    hide At;
    AtWhole(h, d, off, f);
    AtWhole(h + d, e, off, f);
    AtWhole(h + d + e, z, off, f);
  }

  lemma CompressionSize(s: Sound)
    ensures CommSize(s) == AIFFCOMMSIZE + if !IsAiffc(s) then 0 else if s.bytespersample == 4 then 26 else 20
  {
  }

  // ----- the same in plain numbers -----

  /** An integer rate as an 80-bit float: 16383 and the place of the highest bit, then 64 bits from that bit on. */
  ghost predicate RateBytes(f: seq<byte>, p: nat, rate: int)
    requires p + 10 <= |f|
  {
    && 16383 <= Be2(f, p) <= 16383 + 31 && Be4(f, p + 2) >= 0x8000_0000
    && Be4(f, p + 2) == rate * Pow2(16383 + 31 - Be2(f, p)) && Be4(f, p + 6) == 0
  }

  /** The bytes of a file that starts with a header: what stands at which offset. */
  ghost predicate Bytes(f: seq<byte>, s: Sound, formsize: int, nframes: int, datasize: int) {
    var float := s.bytespersample == 4;
    var plain := s.bigendian && !float;
    var c := if plain then 12 else 24;
    var e := if plain then 38 else if float then 76 else 70;
    && |f| >= e + 16
    && f[..4] == [0x46, 0x4f, 0x52, 0x4d] && Be4(f, 4) == formsize % 0x1_0000_0000                          // "FORM"
    && f[8..12] == [0x41, 0x49, 0x46, if plain then 0x46 else 0x43]                                // "AIFF", "AIFC"
    && (!plain ==> f[12..16] == [0x46, 0x56, 0x45, 0x52] && Be4(f, 16) == 4 && Be4(f, 20) == 0xa280_5140)   // "FVER"
    && f[c..c + 4] == [0x43, 0x4f, 0x4d, 0x4d] && Be4(f, c + 4) == e - c - 8                                // "COMM"
    && Be2(f, c + 8) == s.nchannels && Be4(f, c + 10) == nframes % 0x1_0000_0000
    && Be2(f, c + 14) == 8 * s.bytespersample && RateBytes(f, c + 16, s.samplerate)
    && (float ==>
          && f[50..55] == [0x66, 0x6c, 0x33, 0x32, 21]                    // "fl32", "32-bit floating point"
          && f[55..76] == [0x33, 0x32, 0x2d, 0x62, 0x69, 0x74, 0x20, 0x66, 0x6c, 0x6f, 0x61, 0x74, 0x69, 0x6e, 0x67,
                           0x20, 0x70, 0x6f, 0x69, 0x6e, 0x74])
    && (!float && !plain ==>
          && f[50..55] == [0x73, 0x6f, 0x77, 0x74, 14]                    // "sowt", "not compressed"
          && f[55..70] == [0x6e, 0x6f, 0x74, 0x20, 0x63, 0x6f, 0x6d, 0x70, 0x72, 0x65, 0x73, 0x73, 0x65, 0x64, 0])
    && f[e..e + 4] == [0x53, 0x53, 0x4e, 0x44] && Be4(f, e + 4) == (datasize + 8) % 0x1_0000_0000           // "SSND"
    && Be4(f, e + 8) == 0 && Be4(f, e + 12) == 0
  }

  lemma RateIs(n: nat)
    requires n > 0
    ensures 0.5 <= Mantissa(n) < 1.0 && AiffRate.IsFrexp(n as real, Mantissa(n), BitLength(n))
    ensures Rate(n) == AiffRate.Encoded(Mantissa(n), BitLength(n))
  {
    FrexpOfInt(n);
  }

  lemma RateIsBytes(f: seq<byte>, p: nat, rate: nat)
    requires 0 < rate < 0x8000_0000 && At(f, p, Rate(rate))
    ensures p + 10 <= |f| && RateBytes(f, p, rate)
  {
    RateIs(rate);
    RateExponent(rate);
    hide Rate, Mantissa, BitLength, Pow2, AiffRate.IsFrexp, At, AiffRate.Encoded, Be2, Be4, AiffRate.Load;
    AiffRate.EncodedInteger(rate, Mantissa(rate), BitLength(rate));
    EncodedBytes(Rate(rate));
    SameNumbers(f, p, Rate(rate));
  }

  lemma RateExponent(rate: nat)
    requires 0 < rate < 0x8000_0000
    ensures 1 <= BitLength(rate) <= 32
  {
    BitLengthIs(rate);
    AiffRate.Pow2Values();
    BitLengthBound(rate, 32);
  }

  lemma EncodedBytes(b: seq<byte>)
    requires |b| == 10
    ensures Be2(b, 0) == 0x100 * b[0] as int + b[1] as int && Be4(b, 2) == AiffRate.Load([b[5], b[4], b[3], b[2]])
    ensures b[6] == b[7] == b[8] == b[9] == 0 ==> Be4(b, 6) == 0
  {
  }

  lemma SameNumbers(f: seq<byte>, p: nat, b: seq<byte>)
    requires |b| == 10 && At(f, p, b)
    ensures p + 10 <= |f| && Be2(f, p) == Be2(b, 0) && Be4(f, p + 2) == Be4(b, 2) && Be4(f, p + 6) == Be4(b, 6)
  {
    var g := f[p..p + 10];
    assert forall k: nat :: k < 10 ==> f[p + k] == g[k];
  }

  /** What the size at the front counts besides the sound data: all of the header but the first eight bytes. */
  function FormHead(s: Sound): nat {
    if s.bytespersample == 4 then 84 else if s.bigendian then 46 else 78
  }

  lemma CommBytes(f: seq<byte>, c: nat, s: Sound, nframes: int)
    requires s.Writable() && At(f, c, CommChunk(s, nframes))
    ensures |f| >= c + 16 && f[c..c + 4] == COMM && Be4(f, c + 4) == CommSize(s) - 8 && Be2(f, c + 8) == s.nchannels
    ensures Be4(f, c + 10) == nframes % 0x1_0000_0000 && Be2(f, c + 14) == 8 * s.bytespersample
  {
    CompressionSize(s);
    hide Store, CommChunk, CommSize, Compression, Be2, Be4, At, Sound.Writable;
    Limits(s);
    var d := CommChunk(s, nframes);
    CommFields(s, nframes);
    BytesIn(f, c, d, 0, COMM);
    NumberIn(f, c, d, 4, CommSize(s) - 8, 4, true);
    NumberIn(f, c, d, 8, s.nchannels, 2, true);
    WrappedIn(f, c, d, 10, nframes, true);
    NumberIn(f, c, d, 14, s.bytespersample * 8, 2, true);
  }

  lemma CommTailBytes(f: seq<byte>, c: nat, s: Sound, nframes: int)
    requires s.Writable() && At(f, c, CommChunk(s, nframes))
    ensures |f| >= c + 26 && RateBytes(f, c + 16, s.samplerate) && At(f, c + 26, Compression(s))
  {
    hide *;
    Limits(s);
    var d := CommChunk(s, nframes);
    CommTail(s, nframes);
    AtAt(f, c, d, 16, Rate(s.samplerate));
    RateIsBytes(f, c + 16, s.samplerate);
    AtAt(f, c, d, 26, Compression(s));
  }

  lemma CompressionIs(s: Sound)
    ensures s.bytespersample == 4 ==> Compression(s) == (FL32 + [21]) + AIFF_FL32_STR
    ensures s.bytespersample != 4 && !s.bigendian ==> Compression(s) == (SOWT + [14]) + (AIFF_NONE_STR + [0])
  {
    assert |AIFF_FL32_STR| == 21 && |AIFF_NONE_STR| == 14;
    hide AIFF_FL32_STR, AIFF_NONE_STR;
  }

  lemma CompressionBytes(f: seq<byte>, s: Sound)
    requires At(f, 50, Compression(s))
    ensures s.bytespersample == 4 ==> |f| >= 76 && f[50..55] == FL32 + [21] && f[55..76] == AIFF_FL32_STR
    ensures s.bytespersample != 4 && !s.bigendian ==>
              |f| >= 70 && f[50..55] == SOWT + [14] && f[55..70] == AIFF_NONE_STR + [0]
  {
    hide At, Compression;
    CompressionIs(s);
    if s.bytespersample == 4 {
      TwoBytes(f, 50, FL32 + [21], AIFF_FL32_STR);
    } else if !s.bigendian {
      TwoBytes(f, 50, SOWT + [14], AIFF_NONE_STR + [0]);
    }
  }

  lemma TwoBytes(f: seq<byte>, p: nat, a: seq<byte>, b: seq<byte>)
    requires At(f, p, a + b)
    ensures |f| >= p + |a| + |b| && f[p..p + |a|] == a && f[p + |a|..p + |a| + |b|] == b
  {
    TwoAt(a, b);
    BytesIn(f, p, a + b, 0, a);
    BytesIn(f, p, a + b, |a|, b);
  }

  lemma VersionBytes(f: seq<byte>)
    requires At(f, 12, VersionChunk())
    ensures |f| >= 24 && f[12..16] == FVER && Be4(f, 16) == 4 && Be4(f, 20) == AIFFCVER1
  {
    var v := VersionChunk();
    VersionFields();
    hide Store, VersionChunk, Be4, At;
    BytesIn(f, 12, v, 0, FVER);
    NumberIn(f, 12, v, 4, 4, 4, true);
    NumberIn(f, 12, v, 8, AIFFCVER1, 4, true);
  }

  lemma StartBytes(f: seq<byte>, h: seq<byte>, formsize: int, id: seq<byte>)
    requires At(f, 0, h) && At(h, 0, FORM + Num(formsize, 4)) && At(h, 8, id) && |id| == 4
    ensures |f| >= 12 && f[..4] == FORM && Be4(f, 4) == formsize % 0x1_0000_0000 && f[8..12] == id
  {
    hide Store, Be4, At;
    AtAt(f, 0, h, 0, FORM + Num(formsize, 4));
    FormBytes(f, formsize);
    BytesIn(f, 0, h, 8, id);
  }

  lemma EndBytes(f: seq<byte>, h: seq<byte>, e: nat, datasize: int)
    requires At(f, 0, h) && At(h, e, SSND) && At(h, e + 4, Num(datasize + 8, 4))
    requires At(h, e + 8, Num(0, 4) + Num(0, 4))
    ensures |f| >= e + 16 && f[e..e + 4] == SSND && Be4(f, e + 4) == (datasize + 8) % 0x1_0000_0000
    ensures Be4(f, e + 8) == 0 && Be4(f, e + 12) == 0
  {
    hide Store, Be4, At;
    BytesIn(f, 0, h, e, SSND);
    WrappedIn(f, 0, h, e + 4, datasize + 8, true);
    AtAt(f, 0, h, e + 8, Num(0, 4) + Num(0, 4));
    ZeroBytes(f, e + 8);
  }

  lemma FormBytes(f: seq<byte>, formsize: int)
    requires At(f, 0, FORM + Num(formsize, 4))
    ensures |f| >= 8 && f[..4] == FORM && Be4(f, 4) == formsize % 0x1_0000_0000
  {
    hide Store, Be4, At;
    TwoAt(FORM, Num(formsize, 4));
    BytesIn(f, 0, FORM + Num(formsize, 4), 0, FORM);
    WrappedIn(f, 0, FORM + Num(formsize, 4), 4, formsize, true);
  }

  lemma ZeroBytes(f: seq<byte>, p: nat)
    requires At(f, p, Num(0, 4) + Num(0, 4))
    ensures |f| >= p + 8 && Be4(f, p) == 0 && Be4(f, p + 4) == 0
  {
    hide Store, Be4, At;
    TwoAt(Num(0, 4), Num(0, 4));
    NumberIn(f, p, Num(0, 4) + Num(0, 4), 0, 0, 4, true);
    NumberIn(f, p, Num(0, 4) + Num(0, 4), 4, 0, 4, true);
  }

  lemma TwoAt(a: seq<byte>, b: seq<byte>)
    ensures At(a + b, 0, a) && At(a + b, |a|, b)
  {
  }

  lemma Offsets(s: Sound)
    ensures CommOffset(s) == if s.bigendian && s.bytespersample != 4 then 12 else 24
    ensures DataOffset(s) == if s.bytespersample == 4 then 76 else if s.bigendian then 38 else 70
    ensures CommSize(s) == DataOffset(s) - CommOffset(s)
  {
    CompressionSize(s);
  }

  /** Every byte of the header, by its offset in the file. */
  lemma HeaderBytes(f: seq<byte>, s: Sound, formsize: int, nframes: int, datasize: int)
    requires s.Writable() && At(f, 0, Header(s, formsize, nframes, datasize))
    ensures Bytes(f, s, formsize, nframes, datasize)
  {
    assert |AIFC| == 4 && |AIFF| == 4;
    hide *;
    Limits(s);
    Offsets(s);
    var h := Header(s, formsize, nframes, datasize);
    HeaderFields(s, formsize, nframes, datasize);
    StartBytes(f, h, formsize, if IsAiffc(s) then AIFC else AIFF);
    EndBytes(f, h, DataOffset(s), datasize);
    AtAt(f, 0, h, CommOffset(s), CommChunk(s, nframes));
    CommBytes(f, CommOffset(s), s, nframes);
    CommTailBytes(f, CommOffset(s), s, nframes);
    if IsAiffc(s) { AtAt(f, 0, h, 12, VersionChunk()); }
    PlainBytes(f, s, formsize, nframes, datasize);
  }

  lemma PlainBytes(f: seq<byte>, s: Sound, formsize: int, nframes: int, datasize: int)
    requires s.Writable()
    requires |f| >= 12 && f[..4] == FORM && Be4(f, 4) == formsize % 0x1_0000_0000
    requires f[8..12] == (if IsAiffc(s) then AIFC else AIFF) && (IsAiffc(s) ==> At(f, 12, VersionChunk()))
    requires var c := CommOffset(s);
             && |f| >= c + 26 && f[c..c + 4] == COMM && Be4(f, c + 4) == CommSize(s) - 8
             && Be2(f, c + 8) == s.nchannels && Be4(f, c + 10) == nframes % 0x1_0000_0000
             && Be2(f, c + 14) == 8 * s.bytespersample && RateBytes(f, c + 16, s.samplerate)
             && At(f, c + 26, Compression(s))
    requires var e := DataOffset(s);
             && |f| >= e + 16 && f[e..e + 4] == SSND && Be4(f, e + 4) == (datasize + 8) % 0x1_0000_0000
             && Be4(f, e + 8) == 0 && Be4(f, e + 12) == 0
    ensures Bytes(f, s, formsize, nframes, datasize)
  {
    Offsets(s);
    hide CommSize, CommOffset, DataOffset, VersionChunk, Compression, RateBytes, Be2, Be4, At, Sound.Writable;
    if IsAiffc(s) {
      VersionBytes(f);
      CompressionBytes(f, s);
    }
  }

  lemma WrittenBytes(f: seq<byte>, before: seq<byte>, s: Sound, formsize: int, nframes: int, datasize: int)
    requires s.Writable() && f == Written(before, 0, Header(s, formsize, nframes, datasize))
    ensures Bytes(f, s, formsize, nframes, datasize)
  {
    WrittenAt(before, 0, Header(s, formsize, nframes, datasize));
    HeaderBytes(f, s, formsize, nframes, datasize);
    hide Bytes, Header;
  }

  lemma UpdatedBytes(f: seq<byte>, data: seq<byte>, s: Sound, formsize: int, nframes: int, datasize: int)
    requires s.Writable() && f == Header(s, formsize, nframes, datasize) + data
    ensures Bytes(f, s, formsize, nframes, datasize)
  {
    PrefixAt(Header(s, formsize, nframes, datasize), data);
    HeaderBytes(f, s, formsize, nframes, datasize);
    hide Bytes, Header;
  }

  // ----- writing -----

  method WriteHeader(file: File, s: Sound, nframes: nat) returns (written: nat)
    requires s.Writable()
    modifies file
    ensures written == HeaderSize(s)
    ensures file.data == Written(old(file.data), 0, HeaderFor(s, nframes))
    ensures var size := nframes * (s.nchannels * s.bytespersample);
            Bytes(file.data, s, size + FormHead(s), nframes, size)
  {
    hide Written, Header, Sound.DataSize, Compression, CommSize, CommChunk, Bytes;
    var buf := Assemble(s, nframes, s.DataSize(nframes));
    file.Write(0, buf);
    written := |buf|;
    HeadIs(s);
    SizeIs(s, nframes);
    WrittenBytes(file.data, old(file.data), s, HeaderSize(s) + s.DataSize(nframes) - 8, nframes, s.DataSize(nframes));
  }

  lemma HeadIs(s: Sound)
    ensures HeaderSize(s) - 8 == FormHead(s)
  {
    CompressionSize(s);
  }

  lemma SizeIs(s: Sound, nframes: nat)
    requires s.Writable()
    ensures s.DataSize(nframes) == nframes * (s.nchannels * s.bytespersample)
  {
  }

  /** The header, chunk by chunk, and the size of it all put in last. */
  method Assemble(s: Sound, nframes: nat, datasize: nat) returns (buf: seq<byte>)
    requires s.samplerate > 0
    ensures buf == Header(s, HeaderSize(s) + datasize - 8, nframes, datasize)
  {
    hide Store, CommChunk, VersionChunk, Compression, Patch;
    buf := FORM + Num(0, 4) + if IsAiffc(s) then AIFC else AIFF;
    if IsAiffc(s) {
      VersionIs();
      buf := buf + (FVER + Num(4, 4) + Num(AIFFCVER1, 4));
    }
    var comm := CommFor(s, nframes);
    buf := buf + comm;
    buf := buf + (SSND + Num(datasize + 8, 4) + Num(0, 4) + Num(0, 4));
    assert buf == Header(s, 0, nframes, datasize);
    var headersize := |buf|;
    PatchFormOnly(s, 0, headersize + datasize - 8, nframes, datasize);
    buf := Patch(buf, 4, Num(headersize + datasize - 8, 4));
  }

  lemma VersionIs()
    ensures VersionChunk() == FVER + Num(4, 4) + Num(AIFFCVER1, 4)
  {
  }

  /** The common chunk, its rate encoded and its compression named. */
  method CommFor(s: Sound, nframes: nat) returns (comm: seq<byte>)
    requires s.samplerate > 0
    ensures comm == CommChunk(s, nframes)
  {
    hide Store, Rate, BitLength, Mantissa, AiffRate.IsFrexp, AiffRate.Encoded, Compression;
    var rate := new byte[10];
    RateIs(s.samplerate);
    AiffRate.SetSampleRate(rate, s.samplerate as real, Mantissa(s.samplerate), BitLength(s.samplerate));
    var compression := CompressionFor(s);
    var commsize := AIFFCOMMSIZE + |compression|;
    comm := COMM + Num(commsize - AIFFCHUNKSIZE, 4) + Num(s.nchannels, 2) + Num(nframes, 4)
            + Num(8 * s.bytespersample, 2) + rate[..] + compression;
  }

  method CompressionFor(s: Sound) returns (compression: seq<byte>)
    ensures compression == Compression(s)
  {
    compression := [];
    if IsAiffc(s) {
      if s.bytespersample == 4 {
        compression := FL32 + SetPString(AIFF_FL32_STR);
      } else {
        compression := (if s.bigendian then NONE else SOWT) + SetPString(AIFF_NONE_STR);
      }
    }
  }

  lemma PatchFormOnly(s: Sound, f: int, size: int, n: int, d: int)
    requires s.samplerate > 0
    ensures Patch(Header(s, f, n, d), 4, Num(size, 4)) == Header(s, size, n, d)
  {
    hide Store, CommChunk, VersionChunk;
  }

  ghost predicate StartsWithHeader(data: seq<byte>, s: Sound)
    requires s.samplerate > 0
  {
    |data| >= HeaderSize(s) && exists f: int, n: int, d: int :: data[..HeaderSize(s)] == Header(s, f, n, d)
  }

  /** A whole file: a header, and what follows it. */
  function Whole(s: Sound, formsize: int, nframes: int, datasize: int, data: seq<byte>): seq<byte>
    requires s.samplerate > 0
  {
    Header(s, formsize, nframes, datasize) + data
  }

  /** Updating goes back to the frame count and the two sizes. */
  method UpdateHeader(file: File, s: Sound, nframes: nat)
    requires s.Writable() && StartsWithHeader(file.data, s)
    modifies file
    ensures file.data == HeaderFor(s, nframes) + old(file.data[HeaderSize(s)..])
    ensures var size := nframes * (s.nchannels * s.bytespersample);
            Bytes(file.data, s, size + FormHead(s), nframes, size)
  {
    hide Bytes, Header, HeaderSize, Sound.DataSize;
    ghost var data := file.data[HeaderSize(s)..];
    ghost var f: int, n: int, d: int :| file.data[..HeaderSize(s)] == Header(s, f, n, d);
    assert file.data == Whole(s, f, n, d, data);
    UpdateFields(file, s, nframes, s.DataSize(nframes), f, n, d, data);
    HeadIs(s);
    SizeIs(s, nframes);
    UpdatedBytes(file.data, data, s, HeaderSize(s) + s.DataSize(nframes) - 8, nframes, s.DataSize(nframes));
  }

  method UpdateFields(file: File, s: Sound, nframes: nat, datasize: nat, ghost f: int, ghost n: int, ghost d: int,
                      ghost data: seq<byte>)
    requires s.samplerate > 0 && file.data == Whole(s, f, n, d, data)
    modifies file
    ensures file.data == Whole(s, HeaderSize(s) + datasize - 8, nframes, datasize, data)
  {
    hide Whole, Store, Written, CommSize, Compression;
    CompressionSize(s);
    var headersize, commsize := AIFFHEADSIZE, AIFFCOMMSIZE;
    if IsAiffc(s) {
      if s.bytespersample == 4 { commsize := commsize + 4 + 22; } else { commsize := commsize + 4 + 16; }
      headersize := headersize + AIFFVERSIZE;
    }
    file.Write(headersize + 10, Num(nframes, 4));
    PatchFrames(s, f, n, nframes, d, data);
    headersize := headersize + commsize;
    file.Write(headersize + 4, Num(datasize + 8, 4));
    PatchData(s, f, nframes, d, datasize, data);
    headersize := headersize + AIFFDATASIZE;
    file.Write(4, Num(headersize + datasize - 8, 4));
    PatchForm(s, f, headersize + datasize - 8, nframes, datasize, data);
  }

  lemma PatchFrames(s: Sound, f: int, n: int, nframes: int, d: int, data: seq<byte>)
    requires s.samplerate > 0
    ensures Written(Whole(s, f, n, d, data), CommOffset(s) + 10, Num(nframes, 4)) == Whole(s, f, nframes, d, data)
  {
    hide Store, Compression, Rate, VersionChunk;
  }

  lemma PatchData(s: Sound, f: int, n: int, d: int, size: int, data: seq<byte>)
    requires s.samplerate > 0
    ensures Written(Whole(s, f, n, d, data), DataOffset(s) + 4, Num(size + 8, 4)) == Whole(s, f, n, size, data)
  {
    hide Store, CommChunk, Compression, VersionChunk;
  }

  lemma PatchForm(s: Sound, f: int, size: int, n: int, d: int, data: seq<byte>)
    requires s.samplerate > 0
    ensures Written(Whole(s, f, n, d, data), 4, Num(size, 4)) == Whole(s, size, n, d, data)
  {
    hide Store, CommChunk, Compression, VersionChunk;
  }

  // ----- reading -----

  /** What has been found out so far; the byte order stays big until a common chunk says otherwise. */
  datatype Format =
    Format(nchannels: int, samplerate: int, bytespersample: int, bigendian: bool, found: bool)

  datatype FormatResult = Good(format: Format) | Bad(error: Error)

  datatype Kind = Plain | Little | Float | Other

  /** What a compression type stands for. */
  function KindOf(comptype: seq<byte>): Kind {
    if comptype == NONE then Plain
    else if comptype == SOWT then Little
    else if comptype == FL32 || comptype == FL32_CAPS then Float
    else Other
  }

  lemma Kinds()
    ensures KindOf(NONE) == Plain && KindOf(SOWT) == Little && KindOf(FL32) == Float
  {
    assert NONE[0] != SOWT[0] && NONE[0] != FL32[0] && SOWT[0] != FL32[0];
  }

  /** The common chunk as it lies in the header buffer. */
  function ReadComm(buf: seq<byte>, isaiffc: bool, before: Format): FormatResult {
    var bits := Field(buf, 14, 2, true);
    var kind := if isaiffc then KindOf(Part(buf, 26, 4)) else Plain;
    if bits != 16 && bits != 24 && bits != 32 then Bad(Unsupported)
    else
      var bytes := bits / 8;
      if kind == Float && bytes != 4 then Bad(Malformed)
      else if kind == Other then Bad(Unsupported)
      else if bytes == 4 && kind != Float then Bad(Unsupported)
      else Good(Format(Field(buf, 8, 2, true), Signed(AiffRate.Decoded(Part(buf, 16, 10)), 4), bytes,
                       before.bigendian && kind != Little, true))
  }

  /**
   * In numbers: a common chunk is accepted exactly if its samples have 16 or 24 bits and, in AIFF-C, the compression
   * NONE or sowt, or 32 bits and fl32 or FL32 -- and sowt alone makes the file little-endian.
   */
  lemma CommAccepted(buf: seq<byte>, isaiffc: bool, before: Format)
    requires |buf| == SFHDRBUFSIZE
    ensures var bits, kind, r := Be2(buf, 14), buf[26..30], ReadComm(buf, isaiffc, before);
            var sowt := isaiffc && kind == [0x73, 0x6f, 0x77, 0x74];
            var plain := !isaiffc || kind == [0x4e, 0x4f, 0x4e, 0x45];
            var fl32 := isaiffc && (kind == [0x66, 0x6c, 0x33, 0x32] || kind == [0x46, 0x4c, 0x33, 0x32]);
            && (r.Good? <==> ((bits == 16 || bits == 24) && (plain || sowt)) || (bits == 32 && fl32))
            && (r.Good? ==> && r.format.nchannels == Be2(buf, 8) && r.format.bytespersample == bits / 8
                            && r.format.bigendian == (before.bigendian && !sowt) && r.format.found
                            && r.format.samplerate == Signed(AiffRate.Decoded(buf[16..26]), 4))
            && (r.Bad? ==> r.error == if (bits == 16 || bits == 24) && fl32 then Malformed else Unsupported)
  {
    FieldNumber(buf, 8);
    FieldNumber(buf, 14);
    Kinds();
    hide Field, Signed, Be2, AiffRate.Decoded;
  }

  /** What a chunk that is read into the buffer does to the format. */
  function ReadInto(id: seq<byte>, buf: seq<byte>, isaiffc: bool, before: Format): FormatResult {
    if id == COMM then ReadComm(buf, isaiffc, before)
    else if Field(buf, 8, 4, true) != AIFFCVER1 then Bad(BadVersion)
    else Good(before)
  }

  /** Where the next chunk starts; a negative size can lead back. */
  function NextOffset(off: nat, size: int): int {
    var seekto := off + AIFFCHUNKSIZE + size;
    if seekto % 2 == 1 then seekto + 1 else seekto
  }

  /** The scan from the chunk at `off`, whose head is in the buffer, to the sound data. */
  function Scan(file: seq<byte>, off: nat, buf: seq<byte>, isaiffc: bool, format: Format): Result
    requires |buf| == SFHDRBUFSIZE && off + AIFFCHUNKSIZE <= |file|
    decreases |file| - off, 1
  {
    var id, size := buf[..4], Signed(Field(buf, 4, 4, true), 4);
    if id == FVER && !isaiffc then Failed(Malformed)
    else if id == FVER || id == COMM then
      if size < 0 || size > SFHDRBUFSIZE - 8 then Failed(OutOfModel)
      else if !Reads(file, off + 8, size) then Failed(Unreadable)
      else
        var filled := Patch(buf, 8, ReadBytes(file, off + 8, size));
        var r := ReadInto(id, filled, isaiffc, format);
        if r.Bad? then Failed(r.error) else ScanOn(file, off, size, filled, isaiffc, r.format)
    else if id == SSND then
      if !format.found then Failed(Malformed)
      else Ok(Sound(format.samplerate, format.nchannels, format.bytespersample, format.bigendian,
                    format.nchannels * format.bytespersample, off + AIFFDATASIZE, size - 8))
    else if id == CSND then Failed(Unsupported)
    else ScanOn(file, off, size, buf, isaiffc, format)
  }

  /** The rest of the scan, after a chunk of the given size at `off`. */
  function ScanOn(file: seq<byte>, off: nat, size: int, buf: seq<byte>, isaiffc: bool, format: Format): Result
    requires |buf| == SFHDRBUFSIZE && off + AIFFCHUNKSIZE <= |file|
    decreases |file| - off, 0
  {
    var next := NextOffset(off, size);
    if next <= off then Failed(OutOfModel)
    else if next + AIFFCHUNKSIZE > |file| then Failed(Unreadable)
    else Scan(file, next, Patch(buf, 0, file[next..next + AIFFCHUNKSIZE]), isaiffc, format)
  }

  const NOTHING: Format := Format(1, 44100, 2, true, false)

  /** What reading a file's header comes to. */
  function Read(file: seq<byte>): Result {
    if |file| < AIFFHEADSIZE || (file[8..12] != AIFF && file[8..12] != AIFC) then Failed(Unreadable)
    else if AIFFHEADSIZE + AIFFCHUNKSIZE > |file| then Failed(Unreadable)
    else
      var buf := Patch(ZeroBuffer(), 0, file[..AIFFHEADSIZE]);
      Scan(file, AIFFHEADSIZE, Patch(buf, 0, file[AIFFHEADSIZE..AIFFHEADSIZE + AIFFCHUNKSIZE]),
           file[8..12] == AIFC, NOTHING)
  }

  /** One step of the scan. */
  lemma ScanIs(file: seq<byte>, off: nat, buf: seq<byte>, isaiffc: bool, format: Format, id: seq<byte>, size: int)
    requires |buf| == SFHDRBUFSIZE && off + AIFFCHUNKSIZE <= |file|
    requires id == buf[..4] && size == Signed(Field(buf, 4, 4, true), 4)
    ensures id == FVER && !isaiffc ==> Scan(file, off, buf, isaiffc, format) == Failed(Malformed)
    ensures (id == FVER && isaiffc) || id == COMM ==>
              Scan(file, off, buf, isaiffc, format)
              == if size < 0 || size > SFHDRBUFSIZE - 8 then Failed(OutOfModel)
                 else if !Reads(file, off + 8, size) then Failed(Unreadable)
                 else
                   var filled := Patch(buf, 8, ReadBytes(file, off + 8, size));
                   var r := ReadInto(id, filled, isaiffc, format);
                   if r.Bad? then Failed(r.error) else ScanOn(file, off, size, filled, isaiffc, r.format)
    ensures id == SSND ==>
              Scan(file, off, buf, isaiffc, format)
              == if !format.found then Failed(Malformed)
                 else Ok(Sound(format.samplerate, format.nchannels, format.bytespersample, format.bigendian,
                               format.nchannels * format.bytespersample, off + AIFFDATASIZE, size - 8))
    ensures id == CSND ==> Scan(file, off, buf, isaiffc, format) == Failed(Unsupported)
    ensures id !in {FVER, COMM, SSND, CSND} ==>
              Scan(file, off, buf, isaiffc, format) == ScanOn(file, off, size, buf, isaiffc, format)
  {
    hide Field, Patch, ReadInto, Signed, ReadBytes, ScanOn, Reads;
  }

  /** The reader: one buffer, refilled chunk by chunk. */
  method ReadHeader(file: File) returns (r: Result)
    ensures r == Read(file.data)
  {
    hide Patch, ZeroBuffer, Scan;
    var data := file.data;
    if |data| < AIFFHEADSIZE { return Failed(Unreadable); }
    var isaiffc := false;
    if data[8..12] != AIFF {
      if data[8..12] != AIFC { return Failed(Unreadable); }
      isaiffc := true;
    }
    if AIFFHEADSIZE + AIFFCHUNKSIZE > |data| { return Failed(Unreadable); }
    var buf := Patch(ZeroBuffer(), 0, data[..AIFFHEADSIZE]);
    buf := Patch(buf, 0, data[AIFFHEADSIZE..AIFFHEADSIZE + AIFFCHUNKSIZE]);
    r := ReadChunks(data, buf, isaiffc);
  }

  method ReadChunks(data: seq<byte>, head: seq<byte>, isaiffc: bool) returns (r: Result)
    requires |head| == SFHDRBUFSIZE && AIFFHEADSIZE + AIFFCHUNKSIZE <= |data|
    ensures r == Scan(data, AIFFHEADSIZE, head, isaiffc, NOTHING)
  {
    hide Patch, Field, ReadInto, Scan, Reads, ReadBytes, Signed;
    var buf, headersize, format := head, AIFFHEADSIZE, NOTHING;
    ghost var result := Scan(data, headersize, buf, isaiffc, format);
    while true
      invariant |buf| == SFHDRBUFSIZE && headersize + AIFFCHUNKSIZE <= |data|
      invariant result == Scan(data, headersize, buf, isaiffc, format)
      decreases |data| - headersize
    {
      var id, chunksize := buf[..4], Signed(Field(buf, 4, 4, true), 4);
      ScanIs(data, headersize, buf, isaiffc, format, id, chunksize);
      if id == FVER && !isaiffc { return Failed(Malformed); }
      if id == FVER || id == COMM {
        if chunksize < 0 || chunksize > SFHDRBUFSIZE - 8 { return Failed(OutOfModel); }
        if !Reads(data, headersize + 8, chunksize) { return Failed(Unreadable); }
        buf := Patch(buf, 8, ReadBytes(data, headersize + 8, chunksize));
        var found := ReadInto(id, buf, isaiffc, format);
        if found.Bad? { return Failed(found.error); }
        format := found.format;
      } else if id == SSND {
        if !format.found { return Failed(Malformed); }
        return Ok(Sound(format.samplerate, format.nchannels, format.bytespersample, format.bigendian,
                        format.nchannels * format.bytespersample, headersize + AIFFDATASIZE, chunksize - 8));
      } else if id == CSND {
        return Failed(Unsupported);
      }
      var seekto := headersize + AIFFCHUNKSIZE + chunksize;
      if seekto % 2 == 1 { seekto := seekto + 1; }
      if seekto <= headersize { return Failed(OutOfModel); }
      if seekto + AIFFCHUNKSIZE > |data| { return Failed(Unreadable); }
      buf := Patch(buf, 0, data[seekto..seekto + AIFFCHUNKSIZE]);
      headersize := seekto;
    }
  }

  // ----- the round trip -----

  /** The format a written header is read as: a float file comes back big-endian whatever it was. */
  function FormatOf(s: Sound): Format {
    Format(s.nchannels, s.samplerate, s.bytespersample, s.bigendian || s.bytespersample == 4, true)
  }

  /** A buffer that starts with a written common chunk is read as the format it was written for. */
  lemma CommRead(s: Sound, nframes: int, buf: seq<byte>)
    requires s.Writable() && At(buf, 0, CommChunk(s, nframes))
    ensures ReadComm(buf, IsAiffc(s), NOTHING) == Good(FormatOf(s))
  {
    hide Field, Part, CommChunk, Rate, Signed, At, AiffRate.Decoded, Compression, CommSize, KindOf, ReadComm;
    hide Sound.Writable;
    Limits(s);
    CommNumbers(s, nframes, buf);
    CommRest(s, nframes, buf);
    RateBack(s.samplerate);
    SignedSmall(s.samplerate);
    CommUnderstood(s, buf);
  }

  lemma CommUnderstood(s: Sound, buf: seq<byte>)
    requires 2 <= s.bytespersample <= 4
    requires Field(buf, 8, 2, true) == s.nchannels && Field(buf, 14, 2, true) == s.bytespersample * 8
    requires Signed(AiffRate.Decoded(Part(buf, 16, 10)), 4) == s.samplerate
    requires IsAiffc(s) ==>
               Part(buf, 26, 4) == if s.bytespersample == 4 then FL32 else if s.bigendian then NONE else SOWT
    ensures ReadComm(buf, IsAiffc(s), NOTHING) == Good(FormatOf(s))
  {
    Kinds();
    hide Field, Part, Signed, AiffRate.Decoded, KindOf;
    assert s.bytespersample * 8 / 8 == s.bytespersample;
  }

  lemma CommNumbers(s: Sound, nframes: int, buf: seq<byte>)
    requires s.Writable() && At(buf, 0, CommChunk(s, nframes))
    ensures Field(buf, 8, 2, true) == s.nchannels && Field(buf, 14, 2, true) == s.bytespersample * 8
  {
    hide Store, CommChunk, Rate, At, Field, Span, Compression, CommSize, Sound.Writable;
    Limits(s);
    var c := CommChunk(s, nframes);
    CommFields(s, nframes);
    Span8();
    FieldIn(buf, 0, c, 8, s.nchannels, 2, true);
    FieldIn(buf, 0, c, 14, s.bytespersample * 8, 2, true);
  }

  lemma CommRest(s: Sound, nframes: int, buf: seq<byte>)
    requires s.samplerate > 0 && At(buf, 0, CommChunk(s, nframes))
    ensures Part(buf, 16, 10) == Rate(s.samplerate)
    ensures IsAiffc(s) ==>
              Part(buf, 26, 4) == if s.bytespersample == 4 then FL32 else if s.bigendian then NONE else SOWT
  {
    var c := CommChunk(s, nframes);
    hide Store, CommChunk, Rate, At, Part, Compression, CommSize;
    CommTail(s, nframes);
    AtAt(buf, 0, c, 16, Rate(s.samplerate));
    AtPart(buf, 16, Rate(s.samplerate));
    if IsAiffc(s) {
      var t := if s.bytespersample == 4 then FL32 else if s.bigendian then NONE else SOWT;
      AtAt(buf, 0, c, 26, t);
      AtPart(buf, 26, t);
    }
  }

  /** The chunks of a written header, at their places in the file. */
  predicate Chunks(file: seq<byte>, s: Sound, nframes: int, datasize: nat)
    requires s.samplerate > 0
  {
    && At(file, 8, if IsAiffc(s) then AIFC else AIFF) && (IsAiffc(s) ==> At(file, 12, VersionChunk()))
    && At(file, CommOffset(s), CommChunk(s, nframes))
    && At(file, DataOffset(s), SSND) && At(file, DataOffset(s) + 4, Num(datasize + 8, 4))
  }

  lemma HeaderChunks(s: Sound, f: int, n: int, d: nat, data: seq<byte>)
    requires s.samplerate > 0
    ensures Chunks(Whole(s, f, n, d, data), s, n, d)
  {
    var h := Header(s, f, n, d);
    hide Header, CommChunk, VersionChunk, Compression, CommSize, At, Store, DataOffset, CommOffset;
    HeaderFields(s, f, n, d);
    AtWhole(h, data, 8, if IsAiffc(s) then AIFC else AIFF);
    if IsAiffc(s) { AtWhole(h, data, 12, VersionChunk()); }
    AtWhole(h, data, CommOffset(s), CommChunk(s, n));
    AtWhole(h, data, DataOffset(s), SSND);
    AtWhole(h, data, DataOffset(s) + 4, Num(d + 8, 4));
  }

  /** The head of the chunk at `off`, once copied to the front of the buffer. */
  lemma ChunkHead(file: seq<byte>, off: nat, buf: seq<byte>, id: seq<byte>, size: nat)
    requires |buf| == SFHDRBUFSIZE && |id| == 4 && size < 0x8000_0000
    requires At(file, off, id) && At(file, off + 4, Num(size, 4))
    ensures off + AIFFCHUNKSIZE <= |file|
    ensures var b := Patch(buf, 0, file[off..off + AIFFCHUNKSIZE]);
            b[..4] == id && Signed(Field(b, 4, 4, true), 4) == size
  {
    var head := file[off..off + AIFFCHUNKSIZE];
    var b := Patch(buf, 0, head);
    assert head[..4] == file[off..off + 4] && head[4..8] == file[off + 4..off + 8];
    assert b[4..8] == head[4..8];
    Span8();
    SignedSmall(size);
    hide Store, Field, Signed;
    FieldIs(b, 4, size, 4, true);
  }

  /** A whole chunk c at `off`: its head is read first, then its body behind it in the buffer. */
  lemma ChunkFilled(file: seq<byte>, off: nat, buf: seq<byte>, c: seq<byte>, id: seq<byte>, n: nat)
    requires |buf| == SFHDRBUFSIZE && |id| == 4 && |c| == 8 + n <= SFHDRBUFSIZE && 0 < n
    requires At(file, off, c) && At(c, 0, id) && At(c, 4, Num(n, 4))
    ensures off + 8 + n <= |file|
    ensures var b := Patch(buf, 0, file[off..off + 8]);
            && b[..4] == id && Signed(Field(b, 4, 4, true), 4) == n
            && Reads(file, off + 8, n) && At(Patch(b, 8, ReadBytes(file, off + 8, n)), 0, c)
  {
    AtAt(file, off, c, 0, id);
    AtAt(file, off, c, 4, Num(n, 4));
    ChunkHead(file, off, buf, id, n);
    assert file[off..off + 8] + file[off + 8..off + 8 + n] == c;
  }

  lemma ChunksComm(file: seq<byte>, s: Sound, nframes: int, d: nat)
    requires s.samplerate > 0 && Chunks(file, s, nframes, d)
    ensures At(file, CommOffset(s), CommChunk(s, nframes))
  {
  }

  /** The scan of a written header from its common chunk on. */
  lemma ScanComm(s: Sound, file: seq<byte>, buf0: seq<byte>, nframes: int, d: nat)
    requires s.Writable() && d + 8 < 0x8000_0000 && |buf0| == SFHDRBUFSIZE && Chunks(file, s, nframes, d)
    requires CommOffset(s) + 8 <= |file|
    ensures Scan(file, CommOffset(s), Patch(buf0, 0, file[CommOffset(s)..CommOffset(s) + 8]), IsAiffc(s), NOTHING)
            == Ok(s.(headersize := HeaderSize(s), bytelimit := d, bigendian := s.bigendian || s.bytespersample == 4))
  {
    var off, n: nat := CommOffset(s), CommSize(s) - 8;
    hide CommChunk, Compression, CommSize, Store, Field, Signed, Scan, ScanOn, ReadComm, Patch, ReadBytes, Reads, At;
    hide Chunks;
    CompressionSize(s);
    ChunksComm(file, s, nframes, d);
    CommFilled(s, file, off, buf0, nframes, n);
    var b := Patch(buf0, 0, file[off..off + 8]);
    var filled := Patch(b, 8, ReadBytes(file, off + 8, n));
    CommRead(s, nframes, filled);
    ScanIs(file, off, b, IsAiffc(s), NOTHING, COMM, n);
    ScanSound(s, file, filled, nframes, d, n);
  }

  lemma CommFilled(s: Sound, file: seq<byte>, off: nat, buf0: seq<byte>, nframes: int, n: nat)
    requires s.samplerate > 0 && |buf0| == SFHDRBUFSIZE && At(file, off, CommChunk(s, nframes)) && n == CommSize(s) - 8
    ensures off + 8 + n <= |file| && 18 <= n <= 44
    ensures var b := Patch(buf0, 0, file[off..off + 8]);
            && b[..4] == COMM && Signed(Field(b, 4, 4, true), 4) == n && Reads(file, off + 8, n)
            && At(Patch(b, 8, ReadBytes(file, off + 8, n)), 0, CommChunk(s, nframes))
  {
    hide CommChunk, Compression, CommSize, Store, Field, Signed, Patch, ReadBytes, Reads, At;
    CompressionSize(s);
    CommFields(s, nframes);
    ChunkFilled(file, off, buf0, CommChunk(s, nframes), COMM, n);
  }

  /** ... to the sound data. */
  lemma ScanSound(s: Sound, file: seq<byte>, filled: seq<byte>, nframes: int, d: nat, n: nat)
    requires s.Writable() && d + 8 < 0x8000_0000 && |filled| == SFHDRBUFSIZE && Chunks(file, s, nframes, d)
    requires CommOffset(s) + 8 <= |file| && n == CommSize(s) - 8
    ensures ScanOn(file, CommOffset(s), n, filled, IsAiffc(s), FormatOf(s))
            == Ok(s.(headersize := HeaderSize(s), bytelimit := d, bigendian := s.bigendian || s.bytespersample == 4))
  {
    hide CommChunk, Compression, CommSize, Store, Field, Signed, Scan, Patch, At;
    CompressionSize(s);
    ChunkHead(file, DataOffset(s), filled, SSND, d + 8);
    var e := Patch(filled, 0, file[DataOffset(s)..DataOffset(s) + 8]);
    ScanIs(file, DataOffset(s), e, IsAiffc(s), FormatOf(s), SSND, d + 8);
    assert NextOffset(CommOffset(s), n) == DataOffset(s);
  }

  /**
   * Reading a freshly written header recovers it, whatever follows in the file, except that a float file
   * is always read as big-endian.
   */
  lemma RoundTrip(s: Sound, f: int, nframes: int, d: nat, data: seq<byte>)
    requires s.Writable() && d + 8 < 0x8000_0000
    ensures Read(Whole(s, f, nframes, d, data))
            == Ok(s.(headersize := HeaderSize(s), bytelimit := d, bigendian := s.bigendian || s.bytespersample == 4))
  {
    var file := Whole(s, f, nframes, d, data);
    HeaderChunks(s, f, nframes, d, data);
    hide Whole, Store, CommChunk, VersionChunk, Compression, CommSize, Scan, Patch, ZeroBuffer;
    CompressionSize(s);
    assert file[8..12] == if IsAiffc(s) then AIFC else AIFF;
    var buf0 := Patch(ZeroBuffer(), 0, file[..12]);
    if IsAiffc(s) { ScanVersion(s, file, buf0, nframes, d); } else { ScanComm(s, file, buf0, nframes, d); }
  }

  lemma ScanVersion(s: Sound, file: seq<byte>, buf0: seq<byte>, nframes: int, d: nat)
    requires s.Writable() && d + 8 < 0x8000_0000 && |buf0| == SFHDRBUFSIZE && Chunks(file, s, nframes, d)
    requires IsAiffc(s) && 20 <= |file|
    ensures Scan(file, 12, Patch(buf0, 0, file[12..20]), true, NOTHING)
            == Ok(s.(headersize := HeaderSize(s), bytelimit := d, bigendian := s.bigendian || s.bytespersample == 4))
  {
    VersionFields();
    CompressionSize(s);
    hide CommChunk, Compression, CommSize, VersionChunk, Store, Field, Signed, Scan, ReadComm, Patch, ReadBytes, Reads,
        At;
    ChunkFilled(file, 12, buf0, VersionChunk(), FVER, 4);
    var b := Patch(buf0, 0, file[12..20]);
    var filled := Patch(b, 8, ReadBytes(file, 20, 4));
    Span8();
    hide Span;
    FieldIn(filled, 0, VersionChunk(), 8, AIFFCVER1, 4, true);
    ScanIs(file, 12, b, true, NOTHING, FVER, 4);
    CommFits(s, file, nframes, d);
    ScanComm(s, file, filled, nframes, d);
  }

  lemma CommFits(s: Sound, file: seq<byte>, nframes: int, d: nat)
    requires s.samplerate > 0 && Chunks(file, s, nframes, d)
    ensures CommOffset(s) + 8 <= |file|
  {
    hide CommChunk, Compression, VersionChunk;
  }

  /** The byte order is recovered exactly when the file is not little-endian floats. */
  lemma ByteOrderRecoveredIff(s: Sound, f: int, nframes: int, d: nat, data: seq<byte>)
    requires s.Writable() && d + 8 < 0x8000_0000
    ensures var r := Read(Whole(s, f, nframes, d, data));
            r == Ok(s.(headersize := HeaderSize(s), bytelimit := d)) <==> s.bigendian || s.bytespersample != 4
  {
    hide Read, Whole;
    RoundTrip(s, f, nframes, d, data);
  }

  // ----- files with other chunks in them -----

  /** Chunks that are none of the reader's business. */
  ghost predicate Foreign(cs: seq<Chunk>) {
    forall i: nat :: i < |cs| ==>
      |cs[i].id| == 4 && cs[i].id !in {FVER, COMM, SSND, CSND} && |cs[i].body| < 0x8000_0000
  }

  lemma NextIs(off: nat, n: nat)
    requires off % 2 == 0
    ensures NextOffset(off, n) == off + 8 + n + n % 2 && NextOffset(off, n) % 2 == 0
  {
  }

  /** The chunk at `off` is passed by, with the padding after it. */
  lemma ScanTo(file: seq<byte>, off: nat, b: seq<byte>, aiffc: bool, format: Format, id: seq<byte>, n: nat, next: nat)
    requires |b| == SFHDRBUFSIZE && off + 8 <= |file| && next == NextOffset(off, n) > off
    requires b[..4] == id && id !in {FVER, COMM, SSND, CSND} && Signed(Field(b, 4, 4, true), 4) == n
    ensures next + 8 <= |file| ==>
              Scan(file, off, b, aiffc, format)
              == Scan(file, next, Patch(b, 0, file[next..next + 8]), aiffc, format)
  {
    hide Scan, Field, Patch, NextOffset, Signed;
    ScanIs(file, off, b, aiffc, format, id, n);
  }

  lemma HeadScanned(file: seq<byte>, off: nat, buf: seq<byte>, aiffc: bool, format: Format, id: seq<byte>, n: nat,
                    next: nat)
    requires |buf| == SFHDRBUFSIZE && off % 2 == 0 && |id| == 4 && id !in {FVER, COMM, SSND, CSND} && n < 0x8000_0000
    requires At(file, off, id) && At(file, off + 4, Num(n, 4)) && next == off + 8 + n + n % 2
    ensures next % 2 == 0 && off + 8 <= |file|
    ensures var b := Patch(buf, 0, file[off..off + 8]);
            next + 8 <= |file| ==>
              Scan(file, off, b, aiffc, format)
              == Scan(file, next, Patch(b, 0, file[next..next + 8]), aiffc, format)
  {
    NextIs(off, n);
    hide Scan, Field, Patch, Store, At, Signed, NextOffset;
    ChunkHead(file, off, buf, id, n);
    ScanTo(file, off, Patch(buf, 0, file[off..off + 8]), aiffc, format, id, n, next);
  }

  lemma SkipsOne(file: seq<byte>, off: nat, buf: seq<byte>, aiffc: bool, format: Format, c: Chunk, rest: seq<byte>,
                 next: nat)
    requires |buf| == SFHDRBUFSIZE && off % 2 == 0 && At(file, off, Piece(c, 4, true) + rest)
    requires |c.id| == 4 && c.id !in {FVER, COMM, SSND, CSND} && |c.body| < 0x8000_0000
    requires next == off + |Piece(c, 4, true)|
    ensures At(file, next, rest) && next % 2 == 0 && off + 8 <= |file|
    ensures var b := Patch(buf, 0, file[off..off + 8]);
            next + 8 <= |file| ==>
              Scan(file, off, b, aiffc, format)
              == Scan(file, next, Patch(b, 0, file[next..next + 8]), aiffc, format)
  {
    PieceFields(c, rest, 4, true);
    hide *;
    AtAt(file, off, Piece(c, 4, true) + rest, 0, c.id);
    AtAt(file, off, Piece(c, 4, true) + rest, 4, Store(|c.body|, 4, true));
    AtAt(file, off, Piece(c, 4, true) + rest, |Piece(c, 4, true)|, rest);
    NumIs(|c.body|);
    HeadScanned(file, off, buf, aiffc, format, c.id, |c.body|, next);
  }

  lemma NumIs(n: nat)
    ensures Num(n, 4) == Store(n, 4, true)
  {
  }

  /** The reader passes any number of them by. */
  lemma {:induction false} SkipsForeign(file: seq<byte>, off: nat, buf: seq<byte>, aiffc: bool, format: Format,
                                        cs: seq<Chunk>, e: nat) returns (b: seq<byte>)
    requires |buf| == SFHDRBUFSIZE && off % 2 == 0 && Foreign(cs) && At(file, off, Pieces(cs, 4, true))
    requires e == off + |Pieces(cs, 4, true)| && e + 8 <= |file|
    ensures |b| == SFHDRBUFSIZE && e % 2 == 0 && off <= e
    ensures Scan(file, off, Patch(buf, 0, file[off..off + 8]), aiffc, format)
            == Scan(file, e, Patch(b, 0, file[e..e + 8]), aiffc, format)
    decreases |cs|
  {
    b := buf;
    if cs != [] {
      var next, c, rest := off + |Piece(cs[0], 4, true)|, cs[0], cs[1..];
      assert Pieces(cs, 4, true) == Piece(c, 4, true) + Pieces(rest, 4, true) && e == next + |Pieces(rest, 4, true)|;
      hide Scan, Patch, At, Piece, Pieces;
      SkipsOne(file, off, buf, aiffc, format, c, Pieces(rest, 4, true), next);
      b := SkipsForeign(file, next, Patch(buf, 0, file[off..off + 8]), aiffc, format, rest, e);
    }
  }

  lemma CommNext(s: Sound, off: nat, next: nat)
    requires off % 2 == 0 && next == off + CommSize(s)
    ensures next % 2 == 0 && NextOffset(off, CommSize(s) - 8) == next && 8 <= CommSize(s) <= SFHDRBUFSIZE
  {
    CompressionSize(s);
    NextIs(off, CommSize(s) - 8);
    hide CommSize, Compression, NextOffset;
  }

  lemma CommStarts(s: Sound)
    ensures CommOffset(s) % 2 == 0
  {
  }

  /** The common chunk, at any even offset. */
  lemma CommScanned(s: Sound, file: seq<byte>, off: nat, buf0: seq<byte>, nframes: int, next: nat)
    returns (filled: seq<byte>)
    requires s.Writable() && |buf0| == SFHDRBUFSIZE && At(file, off, CommChunk(s, nframes)) && off % 2 == 0
    requires next == off + CommSize(s)
    ensures |filled| == SFHDRBUFSIZE && off + 8 <= |file| && next % 2 == 0
    ensures next + 8 <= |file| ==>
              Scan(file, off, Patch(buf0, 0, file[off..off + 8]), IsAiffc(s), NOTHING)
              == Scan(file, next, Patch(filled, 0, file[next..next + 8]), IsAiffc(s), FormatOf(s))
  {
    hide *;
    CommNext(s, off, next);
    Limits(s);
    var n: nat := CommSize(s) - 8;
    CommFilled(s, file, off, buf0, nframes, n);
    var b := Patch(buf0, 0, file[off..off + 8]);
    filled := Patch(b, 8, ReadBytes(file, off + 8, n));
    CommRead(s, nframes, filled);
    CommTo(file, off, b, IsAiffc(s), FormatOf(s), n, filled, next);
  }

  lemma CommTo(file: seq<byte>, off: nat, b: seq<byte>, aiffc: bool, format: Format, n: nat, filled: seq<byte>,
               next: nat)
    requires |b| == SFHDRBUFSIZE && off + 8 + n <= |file| && 8 + n <= SFHDRBUFSIZE && next == NextOffset(off, n) > off
    requires b[..4] == COMM && Signed(Field(b, 4, 4, true), 4) == n && Reads(file, off + 8, n)
    requires filled == Patch(b, 8, ReadBytes(file, off + 8, n)) && ReadComm(filled, aiffc, NOTHING) == Good(format)
    ensures next + 8 <= |file| ==>
              Scan(file, off, b, aiffc, NOTHING)
              == Scan(file, next, Patch(filled, 0, file[next..next + 8]), aiffc, format)
  {
    hide Scan, Field, Patch, NextOffset, Signed, ReadComm, ReadBytes, Reads;
    ScanIs(file, off, b, aiffc, NOTHING, COMM, n);
  }

  /** Other chunks after the common chunk, and the sound data. */
  lemma ScanTail(file: seq<byte>, q: nat, buf: seq<byte>, aiffc: bool, format: Format, after: seq<Chunk>, d: nat,
                 e: nat)
    requires |buf| == SFHDRBUFSIZE && q % 2 == 0 && Foreign(after) && At(file, q, Pieces(after, 4, true))
    requires format.found
    requires e == q + |Pieces(after, 4, true)| && e + 8 <= |file| && d + 8 < 0x8000_0000
    requires At(file, e, SSND) && At(file, e + 4, Num(d + 8, 4))
    ensures Scan(file, q, Patch(buf, 0, file[q..q + 8]), aiffc, format)
            == Ok(Sound(format.samplerate, format.nchannels, format.bytespersample, format.bigendian,
                        format.nchannels * format.bytespersample, e + 16, d))
  {
    hide Scan, Patch, Store, Pieces, Field, Foreign, At, Signed;
    var b := SkipsForeign(file, q, buf, aiffc, format, after, e);
    ChunkHead(file, e, b, SSND, d + 8);
    ScanIs(file, e, Patch(b, 0, file[e..e + 8]), aiffc, format, SSND, d + 8);
  }

  /** Everything in front of the sound data of a file with other chunks before and after the common chunk. */
  function HeadAmong(s: Sound, formsize: int, nframes: int, before: seq<Chunk>, after: seq<Chunk>, d: nat): seq<byte>
    requires s.samplerate > 0
  {
    FORM + Num(formsize, 4) + (if IsAiffc(s) then AIFC + VersionChunk() else AIFF) + Pieces(before, 4, true)
    + CommChunk(s, nframes) + Pieces(after, 4, true) + SSND + Num(d + 8, 4) + (Num(0, 4) + Num(0, 4))
  }

  lemma LayOut(a: seq<byte>, b: seq<byte>, c: seq<byte>, d: seq<byte>, size: seq<byte>, z: seq<byte>, data: seq<byte>)
    requires |size| == 4 && |z| == 8
    ensures var h := a + b + c + d + SSND + size + z + data;
            && |h| == |a| + |b| + |c| + |d| + 16 + |data| && At(h, |a|, b) && At(h, |a| + |b|, c)
            && At(h, |a| + |b| + |c|, d) && At(h, |a| + |b| + |c| + |d|, SSND)
            && At(h, |a| + |b| + |c| + |d| + 4, size) && At(h, 0, a)
  {
  }

  lemma HeadPlaces(s: Sound, formsize: int, nframes: int, before: seq<Chunk>, after: seq<Chunk>, d: nat,
                   data: seq<byte>, h: seq<byte>) returns (p: nat, q: nat, e: nat)
    requires s.samplerate > 0 && h == HeadAmong(s, formsize, nframes, before, after, d) + data
    ensures p == CommOffset(s) + |Pieces(before, 4, true)| && q == p + CommSize(s) && e == q + |Pieces(after, 4, true)|
    ensures |HeadAmong(s, formsize, nframes, before, after, d)| == e + 16 <= |h|
    ensures At(h, CommOffset(s), Pieces(before, 4, true)) && At(h, p, CommChunk(s, nframes))
    ensures At(h, q, Pieces(after, 4, true)) && At(h, e, SSND) && At(h, e + 4, Num(d + 8, 4))
    ensures h[8..12] == (if IsAiffc(s) then AIFC else AIFF) && (IsAiffc(s) ==> At(h, 12, VersionChunk()))
  {
    hide *;
    var a := FORM + Num(formsize, 4) + if IsAiffc(s) then AIFC + VersionChunk() else AIFF;
    var b, c, f, z := Pieces(before, 4, true), CommChunk(s, nframes), Pieces(after, 4, true), Num(0, 4) + Num(0, 4);
    HeadIsJoined(s, formsize, nframes, before, after, d, a, z);
    StartPlaces(s, formsize, a);
    LayOut(a, b, c, f, Num(d + 8, 4), z, data);
    p, q, e := |a| + |b|, |a| + |b| + |c|, |a| + |b| + |c| + |f|;
    StartIn(s, a, h);
  }

  lemma HeadIsJoined(s: Sound, formsize: int, nframes: int, before: seq<Chunk>, after: seq<Chunk>, d: nat,
                     a: seq<byte>, z: seq<byte>)
    requires s.samplerate > 0 && z == Num(0, 4) + Num(0, 4)
    requires a == FORM + Num(formsize, 4) + if IsAiffc(s) then AIFC + VersionChunk() else AIFF
    ensures HeadAmong(s, formsize, nframes, before, after, d)
            == a + Pieces(before, 4, true) + CommChunk(s, nframes) + Pieces(after, 4, true) + SSND + Num(d + 8, 4) + z
    ensures |z| == 8 && |CommChunk(s, nframes)| == CommSize(s)
    ensures |HeadAmong(s, formsize, nframes, before, after, d)|
            == |a| + |Pieces(before, 4, true)| + CommSize(s) + |Pieces(after, 4, true)| + 16
  {
    hide Store, Pieces, CommChunk, VersionChunk, CommSize;
  }

  lemma StartPlaces(s: Sound, formsize: int, a: seq<byte>)
    requires a == FORM + Num(formsize, 4) + if IsAiffc(s) then AIFC + VersionChunk() else AIFF
    ensures |a| == CommOffset(s) && At(a, 8, if IsAiffc(s) then AIFC else AIFF)
    ensures IsAiffc(s) ==> At(a, 12, VersionChunk())
  {
    hide Store, VersionChunk;
  }

  lemma StartIn(s: Sound, a: seq<byte>, h: seq<byte>)
    requires At(h, 0, a) && At(a, 8, if IsAiffc(s) then AIFC else AIFF) && (IsAiffc(s) ==> At(a, 12, VersionChunk()))
    ensures |h| >= 12 && h[8..12] == (if IsAiffc(s) then AIFC else AIFF) && (IsAiffc(s) ==> At(h, 12, VersionChunk()))
  {
    hide VersionChunk, At;
    if IsAiffc(s) {
      BytesIn(h, 0, a, 8, AIFC);
      AtAt(h, 0, a, 12, VersionChunk());
    } else {
      BytesIn(h, 0, a, 8, AIFF);
    }
  }

  /**
   * Reading a file that has other chunks before and after the common chunk, padded to even lengths: it is read
   * just as without them, only that the sound data starts later.
   */
  lemma ForeignChunks(s: Sound, formsize: int, nframes: int, before: seq<Chunk>, after: seq<Chunk>, d: nat,
                      data: seq<byte>)
    requires s.Writable() && d + 8 < 0x8000_0000 && Foreign(before) && Foreign(after)
    ensures var head := HeadAmong(s, formsize, nframes, before, after, d);
            Read(head + data)
            == Ok(s.(headersize := |head|, bytelimit := d, bigendian := s.bigendian || s.bytespersample == 4))
  {
    var file := HeadAmong(s, formsize, nframes, before, after, d) + data;
    Limits(s);
    hide *;
    var p, q, e := HeadPlaces(s, formsize, nframes, before, after, d, data, file);
    ReadAmong(s, file, nframes, before, after, d, p, q, e);
  }

  lemma ReadAmong(s: Sound, file: seq<byte>, nframes: int, before: seq<Chunk>, after: seq<Chunk>, d: nat,
                  p: nat, q: nat, e: nat)
    requires s.Writable() && d + 8 < 0x8000_0000 && Foreign(before) && Foreign(after) && e + 16 <= |file|
    requires p == CommOffset(s) + |Pieces(before, 4, true)| && q == p + CommSize(s) && e == q + |Pieces(after, 4, true)|
    requires At(file, CommOffset(s), Pieces(before, 4, true)) && At(file, p, CommChunk(s, nframes))
    requires At(file, q, Pieces(after, 4, true)) && At(file, e, SSND) && At(file, e + 4, Num(d + 8, 4))
    requires file[8..12] == (if IsAiffc(s) then AIFC else AIFF) && (IsAiffc(s) ==> At(file, 12, VersionChunk()))
    ensures Read(file)
            == Ok(s.(headersize := e + 16, bytelimit := d, bigendian := s.bigendian || s.bytespersample == 4))
  {
    hide Scan, ScanOn, Patch, ZeroBuffer, Store, Pieces, CommChunk, VersionChunk, CommSize, Sound.Writable, Foreign, At;
    var buf := Patch(ZeroBuffer(), 0, file[..12]);
    if IsAiffc(s) { buf := VersionScanned(file, buf); }
    ScanAmong(s, file, buf, nframes, before, after, d, p, q, e);
  }

  lemma VersionScanned(file: seq<byte>, buf0: seq<byte>) returns (filled: seq<byte>)
    requires |buf0| == SFHDRBUFSIZE && At(file, 12, VersionChunk()) && |file| >= 32
    ensures |filled| == SFHDRBUFSIZE
    ensures Scan(file, 12, Patch(buf0, 0, file[12..20]), true, NOTHING)
            == Scan(file, 24, Patch(filled, 0, file[24..32]), true, NOTHING)
  {
    VersionFields();
    hide VersionChunk, Store, Field, Signed, Scan, ReadComm, Patch, ReadBytes, Reads, At;
    ChunkFilled(file, 12, buf0, VersionChunk(), FVER, 4);
    var b := Patch(buf0, 0, file[12..20]);
    filled := Patch(b, 8, ReadBytes(file, 20, 4));
    Span8();
    hide Span;
    FieldIn(filled, 0, VersionChunk(), 8, AIFFCVER1, 4, true);
    ScanIs(file, 12, b, true, NOTHING, FVER, 4);
  }

  lemma ScanAmong(s: Sound, file: seq<byte>, buf0: seq<byte>, nframes: int, before: seq<Chunk>, after: seq<Chunk>,
                  d: nat, p: nat, q: nat, e: nat)
    requires s.Writable() && d + 8 < 0x8000_0000 && Foreign(before) && Foreign(after) && e + 16 <= |file|
    requires |buf0| == SFHDRBUFSIZE && p == CommOffset(s) + |Pieces(before, 4, true)| && q == p + CommSize(s)
    requires e == q + |Pieces(after, 4, true)|
    requires At(file, CommOffset(s), Pieces(before, 4, true)) && At(file, p, CommChunk(s, nframes))
    requires At(file, q, Pieces(after, 4, true)) && At(file, e, SSND) && At(file, e + 4, Num(d + 8, 4))
    ensures Scan(file, CommOffset(s), Patch(buf0, 0, file[CommOffset(s)..CommOffset(s) + 8]), IsAiffc(s), NOTHING)
            == Ok(s.(headersize := e + 16, bytelimit := d, bigendian := s.bigendian || s.bytespersample == 4))
  {
    Limits(s);
    hide Scan, Patch, Store, Pieces, CommChunk, CommSize, CommOffset, Field, Sound.Writable, Foreign, At;
    var b := ScanHead(s, file, buf0, nframes, before, p, q);
    ScanTail(file, q, b, IsAiffc(s), FormatOf(s), after, d, e);
  }

  lemma ScanHead(s: Sound, file: seq<byte>, buf0: seq<byte>, nframes: int, before: seq<Chunk>, p: nat, q: nat)
    returns (b: seq<byte>)
    requires s.Writable() && Foreign(before) && |buf0| == SFHDRBUFSIZE && q + 8 <= |file|
    requires p == CommOffset(s) + |Pieces(before, 4, true)| && q == p + CommSize(s)
    requires At(file, CommOffset(s), Pieces(before, 4, true)) && At(file, p, CommChunk(s, nframes))
    ensures |b| == SFHDRBUFSIZE && q % 2 == 0 && CommOffset(s) + 8 <= |file|
    ensures Scan(file, CommOffset(s), Patch(buf0, 0, file[CommOffset(s)..CommOffset(s) + 8]), IsAiffc(s), NOTHING)
            == Scan(file, q, Patch(b, 0, file[q..q + 8]), IsAiffc(s), FormatOf(s))
  {
    hide *;
    CommStarts(s);
    CommNext(s, CommOffset(s), CommOffset(s) + CommSize(s));
    Limits(s);
    var c := SkipsForeign(file, CommOffset(s), buf0, IsAiffc(s), NOTHING, before, p);
    b := CommScanned(s, file, p, c, nframes, q);
  }
}
