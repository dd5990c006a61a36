// Between arrays of samples and the interleaved bytes of a sound file (src/d_soundfile.c): quantising,
// byte order, the channel-by-channel loops over an interleaved buffer, and the chunk loops around them.
module SampleTransfer {
  import opened Arith
  import opened ByteOrder

  type u32 = x: int | 0 <= x < 0x1_0000_0000

  const SAMPBUFSIZE: nat := 1024
  const MAXSFCHANS: nat := 64

  /** How a 32-bit float is stored: the two sides of the union the source uses. */
  datatype Alias = Alias(bits: real -> u32, value: u32 -> real)

  datatype Format = Format(nchannels: nat, bytespersample: nat, bigendian: bool, alias: Alias)
  {
    predicate Valid() {
      1 <= nchannels <= MAXSFCHANS && 2 <= bytespersample <= 4
    }

    function BytesPerFrame(): nat { nchannels * bytespersample }

    /** The size of n frames. */
    function Bytes(n: nat): nat { n * BytesPerFrame() }

    /** How many whole frames there are in `size` bytes. */
    function Frames(size: nat): nat
      requires Valid()
    {
      FrameSize(this);
      size / BytesPerFrame()
    }
  }

  // ----- one sample -----

  /** C's conversion of a double to an int. */
  function Trunc(x: real): int {
    if x >= 0.0 then x.Floor else -((-x).Floor)
  }

  function Clamp(x: int, limit: int): int {
    if x < -limit then -limit else if x > limit then limit else x
  }

  /** Half the span: 2^15 for two bytes, 2^23 for three. */
  function Scale(bytes: nat): int {
    if bytes == 2 then 32768 else 8388608
  }

  /** The integer code: the offset makes the conversion round down, and the ends are clamped. */
  function Quantize(y: real, scale: int): int {
    Clamp(Trunc(scale as real + y) - scale, scale - 1)
  }

  lemma QuantizeIsFloor(y: real, scale: int)
    requires scale > 0
    ensures Quantize(y, scale) == Clamp(y.Floor, scale - 1)
  {
    if scale as real + y >= 0.0 {
      assert (scale as real + y).Floor == scale + y.Floor;
    }
  }

  /** A number's bytes in the file's byte order. */
  function Stored(fmt: Format, x: int): (b: seq<byte>)
    ensures |b| == fmt.bytespersample
  {
    var b := BigEndian(x, fmt.bytespersample);
    if fmt.bigendian then b else Reversed(b)
  }

  /** The number in bytes of the file's byte order. */
  function Fetched(fmt: Format, b: seq<byte>): nat {
    Unsigned(if fmt.bigendian then b else Reversed(b))
  }

  lemma FetchStored(fmt: Format, x: int)
    ensures Fetched(fmt, Stored(fmt, x)) == x % Span(fmt.bytespersample)
  {
    ReversedTwice(BigEndian(x, fmt.bytespersample));
    UnsignedBytes(x, fmt.bytespersample);
  }

  lemma StoreFetched(fmt: Format, b: seq<byte>)
    requires |b| == fmt.bytespersample
    ensures Stored(fmt, Fetched(fmt, b)) == b && Fetched(fmt, b) < Span(|b|)
  {
    ReversedTwice(b);
    var c := if fmt.bigendian then b else Reversed(b);
    BytesUnsigned(c);
    UnsignedRange(c);
  }

  /** A sample in units of the least code. */
  function InCodes(f: real, factor: real, scale: int): real {
    f * (factor * scale as real)
  }

  /** The number written for the sample f, with a given factor. */
  function CodeOf(fmt: Format, f: real, factor: real): int {
    if fmt.bytespersample == 4 then fmt.alias.bits(f * factor) as int
    else Quantize(InCodes(f, factor, Scale(fmt.bytespersample)), Scale(fmt.bytespersample))
  }

  function Encode(fmt: Format, f: real, factor: real): (b: seq<byte>)
    ensures |b| == fmt.bytespersample
  {
    Stored(fmt, CodeOf(fmt, f, factor))
  }

  /** The unsigned number shifted to the top of a signed 32-bit word, times 2^-31. */
  function WordValue(u: int, n: nat): real {
    var word := u * (if n == 2 then 0x1_0000 else 0x100);
    (if word >= 0x8000_0000 then word - 0x1_0000_0000 else word) as real / 2147483648.0
  }

  function Decode(fmt: Format, b: seq<byte>): real
    requires fmt.Valid() && |b| == fmt.bytespersample
  {
    StoreFetched(fmt, b);
    Spans();
    if |b| == 4 then fmt.alias.value(Fetched(fmt, b)) else WordValue(Fetched(fmt, b), |b|)
  }

  /** The signed number in n bytes. */
  function Signed(u: int, n: nat): int {
    if u >= Scale(n) then u - 2 * Scale(n) else u
  }

  lemma WordIs(u: int, n: nat)
    requires 2 <= n <= 3 && 0 <= u < 2 * Scale(n)
    ensures WordValue(u, n) == Signed(u, n) as real / Scale(n) as real
  {
    var x := Signed(u, n);
    if n == 2 {
      assert (x * 65536) as real == x as real * 65536.0;
      Cancel(x as real, 65536.0, 32768.0);
    } else {
      assert (x * 256) as real == x as real * 256.0;
      Cancel(x as real, 256.0, 8388608.0);
    }
  }

  lemma Cancel(a: real, b: real, c: real)
    requires b > 0.0 && c > 0.0
    ensures (a * b) / (c * b) == a / c
  {
    var q := a / c;
    assert q * c == a;
    assert q * (c * b) == a * b;
  }

  lemma SignedOfMod(x: int, n: nat)
    requires 2 <= n <= 3 && -Scale(n) <= x < Scale(n)
    ensures Signed(x % Span(n), n) == x && 0 <= x % Span(n) < 2 * Scale(n)
  {
    Spans();
    if x < 0 { DivIs(x, Span(n), -1, x + Span(n)); } else { DivIs(x, Span(n), 0, x); }
  }

  /** Reading a code that was stored gives the code over 2^15 or 2^23. */
  lemma DecodeStored(fmt: Format, x: int)
    requires fmt.Valid() && fmt.bytespersample < 4
    requires -Scale(fmt.bytespersample) <= x < Scale(fmt.bytespersample)
    ensures Decode(fmt, Stored(fmt, x)) == x as real / Scale(fmt.bytespersample) as real
  {
    var n := fmt.bytespersample;
    FetchStored(fmt, x);
    SignedOfMod(x, n);
    WordIs(x % Span(n), n);
  }

  /** Reading what was written gives the clamped, rounded-down multiple of 2^-15 or 2^-23. */
  lemma DecodeEncode(fmt: Format, f: real, factor: real)
    requires fmt.Valid()
    ensures fmt.bytespersample < 4 ==>
              var s := Scale(fmt.bytespersample);
              Decode(fmt, Encode(fmt, f, factor)) 
              == Clamp(InCodes(f, factor, s).Floor, s - 1) as real / s as real
    ensures fmt.bytespersample == 4 ==>
              Decode(fmt, Encode(fmt, f, factor)) == fmt.alias.value(fmt.alias.bits(f * factor))
  {
    var n := fmt.bytespersample;
    hide Stored, Fetched, Span, Quantize, InCodes;
    if n < 4 {
      QuantizeIsFloor(InCodes(f, factor, Scale(n)), Scale(n));
      hide Decode;
      DecodeStored(fmt, CodeOf(fmt, f, factor));
    } else {
      DecodeFloat(fmt, CodeOf(fmt, f, factor));
    }
  }

  lemma DecodeFloat(fmt: Format, x: u32)
    requires fmt.Valid() && fmt.bytespersample == 4
    ensures Decode(fmt, Stored(fmt, x)) == fmt.alias.value(x)
  {
    FetchStored(fmt, x);
    Spans();
    DivIs(x, Span(4), 0, x);
  }

  /** The signed code in the bytes of one sample. */
  function Code(fmt: Format, b: seq<byte>): int {
    Signed(Fetched(fmt, b), |b|)
  }

  /** Reading and storing a code are inverse. */
  lemma StoredCode(fmt: Format, b: seq<byte>)
    requires fmt.Valid() && |b| == fmt.bytespersample && |b| < 4
    ensures -Scale(|b|) <= Code(fmt, b) < Scale(|b|)
    ensures Stored(fmt, Code(fmt, b)) == b
    ensures Decode(fmt, b) == Code(fmt, b) as real / Scale(|b|) as real
  {
    var n, u := |b|, Fetched(fmt, b);
    StoreFetched(fmt, b);
    SignedMod(u, n);
    SameBytes(Signed(u, n), u, n);
    hide Signed, Fetched, Span, WordValue;
    WordIs(u, n);
  }

  /** A number and what it stands for as a signed one have the same bytes. */
  lemma SignedMod(u: int, n: nat)
    requires 2 <= n <= 3 && 0 <= u < Span(n)
    ensures u < 2 * Scale(n) && -Scale(n) <= Signed(u, n) < Scale(n) && Signed(u, n) % Span(n) == u % Span(n)
  {
    Spans();
    var x := Signed(u, n);
    if x != u {
      hide Signed, Span;
      DivIs(u, Span(n), 0, u);
      DivIs(x, Span(n), -1, u);
    }
  }

  /**
   * Writing what was read, unscaled, gives the very same bytes exactly when the code is not the most
   * negative one, which becomes its neighbour.
   */
  lemma EncodeDecode(fmt: Format, b: seq<byte>)
    requires fmt.Valid() && |b| == fmt.bytespersample && |b| < 4
    ensures Encode(fmt, Decode(fmt, b), 1.0) == b <==> Code(fmt, b) > -Scale(|b|)
  {
    var n, x := |b|, Code(fmt, b);
    StoredCode(fmt, b);
    EncodeOf(fmt, b);
    if x == -Scale(n) {
      DecodeStored(fmt, x + 1);
      hide Stored, Encode, Decode, Code;
      Distinct(x, x + 1, Scale(n));
    }
  }

  lemma EncodeOf(fmt: Format, b: seq<byte>)
    requires fmt.Valid() && |b| == fmt.bytespersample && |b| < 4
    ensures Encode(fmt, Decode(fmt, b), 1.0) == Stored(fmt, Clamp(Code(fmt, b), Scale(|b|) - 1))
  {
    var n, x, f := |b|, Code(fmt, b), Decode(fmt, b);
    StoredCode(fmt, b);
    hide Stored, Fetched, Span, Quantize, Decode, Code, Signed, WordValue;
    Undivide(x, Scale(n), f);
    hide InCodes;
    QuantizeIsFloor(InCodes(f, 1.0, Scale(n)), Scale(n));
  }

  lemma Undivide(x: int, s: int, f: real)
    requires s > 0 && f == x as real / s as real
    ensures InCodes(f, 1.0, s).Floor == x
  {
    assert f * s as real == x as real;
  }

  lemma Distinct(x: int, y: int, s: int)
    requires s > 0 && x < y
    ensures x as real / s as real < y as real / s as real
  {
    var p, q := x as real / s as real, y as real / s as real;
    assert p * s as real == x as real && q * s as real == y as real;
    assert (q - p) * s as real == (y - x) as real;
    Positive(q - p, s as real);
  }

  // ----- normalising -----

  /** With the normalising factor no sample as large as the biggest, or smaller, is ever clamped. */
  lemma NormalizedNeverClamps(f: real, biggest: real, bytes: nat)
    requires 2 <= bytes <= 3 && biggest > 0.0 && -biggest <= f <= biggest
    ensures var y := InCodes(f, 32767.0 / (32768.0 * biggest), Scale(bytes));
            Clamp(y.Floor, Scale(bytes) - 1) == y.Floor
  {
    var q := 32767.0 / (32768.0 * biggest);
    assert q * (32768.0 * biggest) == 32767.0;
    var g := f * q;
    assert q * biggest * 32768.0 == 32767.0;
    Positive(q, 32768.0 * biggest);
    Within(f, biggest, q);
    var y := f * (q * Scale(bytes) as real);
    assert y == g * Scale(bytes) as real;
  }

  lemma Positive(q: real, d: real)
    requires d > 0.0
    ensures q <= 0.0 ==> q * d <= 0.0
  {
    if q <= 0.0 { assert (-q) * d >= 0.0; }
  }

  lemma Within(f: real, b: real, q: real)
    requires -b <= f <= b && q > 0.0
    ensures -(q * b) <= f * q <= q * b
  {
    assert (b - f) * q >= 0.0;
    assert (b + f) * q >= 0.0;
  }

  // ----- where a sample sits in an interleaved buffer -----

  /** The first byte of channel i in frame j. */
  function Address(fmt: Format, i: nat, j: nat): nat {
    i * fmt.bytespersample + fmt.Bytes(j)
  }

  /** The frame, the channel and the byte within the sample that position p of the buffer belongs to. */
  function FrameOf(fmt: Format, p: nat): nat
    requires fmt.Valid()
  {
    fmt.Frames(p)
  }

  function ChannelOf(fmt: Format, p: nat): nat
    requires fmt.Valid()
  {
    p % fmt.BytesPerFrame() / fmt.bytespersample
  }

  function ByteIn(fmt: Format, p: nat): (k: nat)
    requires fmt.Valid()
    ensures k < fmt.bytespersample
  {
    p % fmt.BytesPerFrame() % fmt.bytespersample
  }

  lemma FrameSize(fmt: Format)
    requires fmt.Valid()
    ensures 2 <= fmt.bytespersample <= fmt.BytesPerFrame() <= 4 * MAXSFCHANS
  {
  }

  lemma Products(i: nat, n: nat, bps: nat)
    requires i < n
    ensures i * bps + bps <= n * bps
  {
    assert (i + 1) * bps <= n * bps;
  }

  /** Positions and (frame, channel, byte) correspond one to one. */
  lemma AddressOf(fmt: Format, i: nat, j: nat, k: nat)
    requires fmt.Valid() && i < fmt.nchannels && k < fmt.bytespersample
    ensures var p := Address(fmt, i, j) + k; FrameOf(fmt, p) == j && ChannelOf(fmt, p) == i && ByteIn(fmt, p) == k
  {
    var bps, bpf := fmt.bytespersample, fmt.BytesPerFrame();
    var r := i * bps + k;
    FrameSize(fmt);
    Products(i, fmt.nchannels, bps);
    DivIs(j * bpf + r, bpf, j, r);
    DivIs(r, bps, i, k);
  }

  lemma PositionOf(fmt: Format, p: nat)
    requires fmt.Valid()
    ensures p == Address(fmt, ChannelOf(fmt, p), FrameOf(fmt, p)) + ByteIn(fmt, p)
    ensures ChannelOf(fmt, p) < fmt.nchannels
  {
    var bps, bpf := fmt.bytespersample, fmt.BytesPerFrame();
    FrameSize(fmt);
    DivMod(p, bpf);
    DivMod(p % bpf, bps);
    QuotientBound(p % bpf, bps, fmt.nchannels);
  }

  lemma QuotientBound(a: nat, d: nat, n: nat)
    requires d > 0 && a < n * d
    ensures a / d < n
  {
    DivMod(a, d);
    if a / d >= n { MulMono(d, n, a / d); }
  }

  /** Frames end where the next begins. */
  lemma FrameBound(fmt: Format, p: nat, n: nat)
    requires fmt.Valid()
    ensures p < fmt.Bytes(n) <==> FrameOf(fmt, p) < n
  {
    var bpf := fmt.BytesPerFrame();
    FrameSize(fmt);
    DivMod(p, bpf);
    if FrameOf(fmt, p) < n { MulMono(bpf, FrameOf(fmt, p) + 1, n); } else { MulMono(bpf, n, FrameOf(fmt, p)); }
  }

  // ----- a block of frames as bytes -----

  type Tables = seq<seq<real>>

  ghost predicate LongEnough(fmt: Format, t: Tables, frames: nat) {
    |t| == fmt.nchannels && forall i: nat :: i < |t| ==> |t[i]| >= frames
  }

  /** The byte at position p of the file image of t from frame `onset` on. */
  function ImageByte(fmt: Format, t: Tables, onset: nat, factor: real, p: nat): byte
    requires fmt.Valid() && |t| == fmt.nchannels
  {
    PositionOf(fmt, p);
    var c := t[ChannelOf(fmt, p)];
    var j := onset + FrameOf(fmt, p);
    if j < |c| then Encode(fmt, c[j], factor)[ByteIn(fmt, p)] else 0
  }

  /** n frames of t as they stand in a sound file. */
  function Image(fmt: Format, t: Tables, onset: nat, n: nat, factor: real): (b: seq<byte>)
    requires fmt.Valid() && |t| == fmt.nchannels
    ensures |b| == fmt.Bytes(n)
  {
    seq(fmt.Bytes(n), p requires 0 <= p => ImageByte(fmt, t, onset, factor, p))
  }

  /** Writing in chunks writes the same bytes as writing all at once. */
  lemma ImageSplits(fmt: Format, t: Tables, onset: nat, m: nat, n: nat, factor: real)
    requires fmt.Valid() && |t| == fmt.nchannels
    ensures Image(fmt, t, onset, m + n, factor)
            == Image(fmt, t, onset, m, factor) + Image(fmt, t, onset + m, n, factor)
  {
    var bpf := fmt.BytesPerFrame();
    var a, b, c := Image(fmt, t, onset, m + n, factor), Image(fmt, t, onset, m, factor),
        Image(fmt, t, onset + m, n, factor);
    assert (m + n) * bpf == m * bpf + n * bpf;
    forall p: nat | m * bpf <= p < |a| ensures a[p] == c[p - m * bpf] {
      ShiftFrames(fmt, p - m * bpf, m);
    }
  }

  lemma ShiftFrames(fmt: Format, p: nat, m: nat)
    requires fmt.Valid()
    ensures FrameOf(fmt, p + fmt.Bytes(m)) == m + FrameOf(fmt, p)
    ensures ChannelOf(fmt, p + fmt.Bytes(m)) == ChannelOf(fmt, p)
    ensures ByteIn(fmt, p + fmt.Bytes(m)) == ByteIn(fmt, p)
  {
    var bpf := fmt.BytesPerFrame();
    FrameSize(fmt);
    DivMod(p, bpf);
    assert (p / bpf + m) * bpf == p / bpf * bpf + m * bpf;
    DivIs(p + m * bpf, bpf, p / bpf + m, p % bpf);
  }

  /** Reading the sample at (i, j) of an image gives what was encoded there. */
  lemma ImageSample(fmt: Format, t: Tables, onset: nat, n: nat, factor: real, i: nat, j: nat)
    requires fmt.Valid() && LongEnough(fmt, t, onset + n) && i < fmt.nchannels && j < n
    ensures var q := Address(fmt, i, j);
            var b := Image(fmt, t, onset, n, factor);
            q + fmt.bytespersample <= |b| && b[q..q + fmt.bytespersample] == Encode(fmt, t[i][onset + j], factor)
  {
    var q, bps := Address(fmt, i, j), fmt.bytespersample;
    hide Encode, Address, FrameOf, ChannelOf, ByteIn;
    var b, e := Image(fmt, t, onset, n, factor), Encode(fmt, t[i][onset + j], factor);
    AddressFits(fmt, i, j, n);
    var part := b[q..q + bps];
    forall k: nat | k < bps ensures part[k] == e[k] {
      AddressOf(fmt, i, j, k);
      ImageAt(fmt, t, onset, n, factor, q + k);
    }
  }

  lemma ImageAt(fmt: Format, t: Tables, onset: nat, n: nat, factor: real, p: nat)
    requires fmt.Valid() && LongEnough(fmt, t, onset + n) && p < fmt.Bytes(n)
    ensures ChannelOf(fmt, p) < |t| && onset + FrameOf(fmt, p) < |t[ChannelOf(fmt, p)]|
    ensures Image(fmt, t, onset, n, factor)[p]
            == Encode(fmt, t[ChannelOf(fmt, p)][onset + FrameOf(fmt, p)], factor)[ByteIn(fmt, p)]
  {
    hide FrameOf, ChannelOf, ByteIn, Encode;
    PositionOf(fmt, p);
    FrameBound(fmt, p, n);
  }

  lemma AddressFits(fmt: Format, i: nat, j: nat, n: nat)
    requires fmt.Valid() && i < fmt.nchannels && j < n
    ensures Address(fmt, i, j) + fmt.bytespersample <= fmt.Bytes(n)
  {
    var k := fmt.bytespersample - 1;
    AddressOf(fmt, i, j, k);
    FrameBound(fmt, Address(fmt, i, j) + k, n);
  }

  // ----- the loops -----

  lemma StoredBytes(fmt: Format, x: int)
    requires fmt.Valid()
    ensures var low, mid, high, top := Shifted(x, 1), Shifted(x, 0x100), Shifted(x, 0x1_0000), Shifted(x, 0x100_0000);
            && (fmt.bytespersample == 2 ==> Stored(fmt, x) == if fmt.bigendian then [mid, low] else [low, mid])
            && (fmt.bytespersample == 3 ==>
                  Stored(fmt, x) == if fmt.bigendian then [high, mid, low] else [low, mid, high])
            && (fmt.bytespersample == 4 ==>
                  Stored(fmt, x) == if fmt.bigendian then [top, high, mid, low] else [low, mid, high, top])
  {
    var n := fmt.bytespersample;
    assert x / 1 == x && x / 0x1_0000 == x / 256 / 256 && x / 0x100_0000 == x / 256 / 256 / 256;
    var b := BigEndian(x, n);
    BigEndianAt(x, n);
  }

  /** Stores one number at position `at`, byte by byte in the file's order. */
  method Put(fmt: Format, buf: array<byte>, at: nat, x: int)
    requires fmt.Valid() && at + fmt.bytespersample <= buf.Length
    modifies buf
    ensures buf[at..at + fmt.bytespersample] == Stored(fmt, x)
    ensures forall p: nat :: p < buf.Length && !(at <= p < at + fmt.bytespersample) ==> buf[p] == old(buf[p])
  {
    StoredBytes(fmt, x);
    hide Stored, Shifted;
    var low, mid, high, top := Shifted(x, 1), Shifted(x, 0x100), Shifted(x, 0x1_0000), Shifted(x, 0x100_0000);
    if fmt.bytespersample == 2 {
      if fmt.bigendian { Put2(buf, at, mid, low); } else { Put2(buf, at, low, mid); }
    } else if fmt.bytespersample == 3 {
      if fmt.bigendian { Put3(buf, at, high, mid, low); } else { Put3(buf, at, low, mid, high); }
    } else {
      if fmt.bigendian { Put4(buf, at, top, high, mid, low); } else { Put4(buf, at, low, mid, high, top); }
    }
  }

  method Put2(buf: array<byte>, at: nat, a: byte, b: byte)
    requires at + 2 <= buf.Length
    modifies buf
    ensures buf[at..at + 2] == [a, b]
    ensures forall p: nat :: p < buf.Length && !(at <= p < at + 2) ==> buf[p] == old(buf[p])
  {
    buf[at], buf[at + 1] := a, b;
  }

  method Put3(buf: array<byte>, at: nat, a: byte, b: byte, c: byte)
    requires at + 3 <= buf.Length
    modifies buf
    ensures buf[at..at + 3] == [a, b, c]
    ensures forall p: nat :: p < buf.Length && !(at <= p < at + 3) ==> buf[p] == old(buf[p])
  {
    buf[at], buf[at + 1], buf[at + 2] := a, b, c;
  }

  method Put4(buf: array<byte>, at: nat, a: byte, b: byte, c: byte, d: byte)
    requires at + 4 <= buf.Length
    modifies buf
    ensures buf[at..at + 4] == [a, b, c, d]
    ensures forall p: nat :: p < buf.Length && !(at <= p < at + 4) ==> buf[p] == old(buf[p])
  {
    buf[at], buf[at + 1], buf[at + 2], buf[at + 3] := a, b, c, d;
  }

  /** The channels before i are written, and channel i as far as frame j. */
  predicate Done(fmt: Format, p: nat, i: nat, j: nat)
    requires fmt.Valid()
  {
    ChannelOf(fmt, p) < i || (ChannelOf(fmt, p) == i && FrameOf(fmt, p) < j)
  }

  ghost predicate DoneUpTo(fmt: Format, buf: seq<byte>, want: seq<byte>, i: nat, j: nat)
    requires fmt.Valid()
  {
    |want| <= |buf| && forall p: nat :: p < |want| && Done(fmt, p, i, j) ==> buf[p] == want[p]
  }

  lemma DoneStarts(fmt: Format, buf: seq<byte>, want: seq<byte>)
    requires fmt.Valid() && |want| <= |buf|
    ensures DoneUpTo(fmt, buf, want, 0, 0)
  {
  }

  lemma DoneAdvances(fmt: Format, was: seq<byte>, now: seq<byte>, want: seq<byte>, i: nat, j: nat)
    requires fmt.Valid() && i < fmt.nchannels && DoneUpTo(fmt, was, want, i, j) && |now| == |was|
    requires var q, n := Address(fmt, i, j), fmt.bytespersample;
             && q + n <= |want| && now[q..q + n] == want[q..q + n]
             && forall p: nat :: p < |now| && !(q <= p < q + n) ==> now[p] == was[p]
    ensures DoneUpTo(fmt, now, want, i, j + 1)
  {
    var q, n := Address(fmt, i, j), fmt.bytespersample;
    hide Address, ChannelOf, FrameOf, ByteIn;
    forall p: nat | p < |want| && Done(fmt, p, i, j + 1) ensures now[p] == want[p] {
      if q <= p < q + n {
        assert now[q..q + n][p - q] == want[q..q + n][p - q];
      } else {
        PositionOf(fmt, p);
        assert Done(fmt, p, i, j);
      }
    }
  }

  lemma DoneNext(fmt: Format, buf: seq<byte>, want: seq<byte>, i: nat, n: nat)
    requires fmt.Valid() && |want| == fmt.Bytes(n) && DoneUpTo(fmt, buf, want, i, n)
    ensures DoneUpTo(fmt, buf, want, i + 1, 0)
  {
    hide ChannelOf, FrameOf;
    forall p: nat | p < |want| && Done(fmt, p, i + 1, 0) ensures buf[p] == want[p] {
      FrameBound(fmt, p, n);
      assert Done(fmt, p, i, n);
    }
  }

  lemma DoneAll(fmt: Format, buf: seq<byte>, want: seq<byte>)
    requires fmt.Valid() && DoneUpTo(fmt, buf, want, fmt.nchannels, 0)
    ensures buf[..|want|] == want
  {
    hide ChannelOf, FrameOf;
    forall p: nat | p < |want| ensures buf[..|want|][p] == want[p] {
      PositionOf(fmt, p);
      assert Done(fmt, p, fmt.nchannels, 0);
    }
  }

  ghost function Contents(vecs: seq<array<real>>): (t: Tables)
    reads vecs
    ensures |t| == |vecs| && forall i: nat :: i < |t| ==> |t[i]| == vecs[i].Length
  {
    seq(|vecs|, i requires 0 <= i < |vecs| reads vecs => vecs[i][..])
  }

  /** One sample on its way into the buffer. */
  method PutSample(fmt: Format, f: real, buf: array<byte>, at: nat, factor: real)
    requires fmt.Valid() && at + fmt.bytespersample <= buf.Length
    modifies buf
    ensures buf[at..at + fmt.bytespersample] == Encode(fmt, f, factor)
    ensures forall p: nat :: p < buf.Length && !(at <= p < at + fmt.bytespersample) ==> buf[p] == old(buf[p])
  {
    hide InCodes, Quantize, Stored;
    var xx;
    if fmt.bytespersample == 4 {
      xx := fmt.alias.bits(f * factor) as int;
    } else {
      var scale := Scale(fmt.bytespersample);
      xx := Quantize(InCodes(f, factor, scale), scale);
    }
    Put(fmt, buf, at, xx);
  }

  /** All frames of one channel: every bytesperframe-th sample slot from `sp` on. */
  method XferOutChannel(fmt: Format, v: array<real>, i: nat, sp: nat, buf: array<byte>, nframes: nat, onset: nat,
                        factor: real, ghost t: Tables, ghost want: seq<byte>)
    requires fmt.Valid() && i < fmt.nchannels && sp == Address(fmt, i, 0) && LongEnough(fmt, t, onset + nframes)
    requires v.Length >= onset + nframes && v[..] == t[i]
    requires want == Image(fmt, t, onset, nframes, factor) && |want| <= buf.Length
    requires DoneUpTo(fmt, buf[..], want, i, 0)
    modifies buf
    ensures DoneUpTo(fmt, buf[..], want, i, nframes)
    ensures forall p: nat :: |want| <= p < buf.Length ==> buf[p] == old(buf[p])
  {
    hide Address, DoneUpTo, Image, Encode;
    var j, sp2 := 0, sp;
    while j < nframes
      invariant j <= nframes && sp2 == Address(fmt, i, j)
      invariant DoneUpTo(fmt, buf[..], want, i, j)
      invariant forall p: nat :: |want| <= p < buf.Length ==> buf[p] == old(buf[p])
    {
      ghost var was := buf[..];
      AddressFits(fmt, i, j, nframes);
      ImageSample(fmt, t, onset, nframes, factor, i, j);
      PutSample(fmt, v[onset + j], buf, sp2, factor);
      DoneAdvances(fmt, was, buf[..], want, i, j);
      AddressNext(fmt, i, j);
      j := j + 1;
      sp2 := sp2 + fmt.BytesPerFrame();
    }
  }

  /**
   * Channel by channel, frame by frame: afterwards the front of the buffer is exactly the file image of
   * the frames, every byte of it, and nothing beyond it has been touched.
   */
  method XferOut(fmt: Format, vecs: seq<array<real>>, buf: array<byte>, nframes: nat, onset: nat, factor: real)
    requires fmt.Valid() && |vecs| == fmt.nchannels && fmt.Bytes(nframes) <= buf.Length
    requires forall i: nat :: i < |vecs| ==> vecs[i].Length >= onset + nframes
    modifies buf
    ensures buf[..fmt.Bytes(nframes)] == Image(fmt, Contents(vecs), onset, nframes, factor)
    ensures forall p: nat :: fmt.Bytes(nframes) <= p < buf.Length ==> buf[p] == old(buf[p])
  {
    hide DoneUpTo, Image;
    ghost var t := Contents(vecs);
    ghost var want := Image(fmt, t, onset, nframes, factor);
    var i, sp := 0, 0;
    DoneStarts(fmt, buf[..], want);
    while i < fmt.nchannels
      invariant i <= fmt.nchannels && sp == Address(fmt, i, 0)
      invariant DoneUpTo(fmt, buf[..], want, i, 0)
      invariant forall p: nat :: |want| <= p < buf.Length ==> buf[p] == old(buf[p])
    {
      XferOutChannel(fmt, vecs[i], i, sp, buf, nframes, onset, factor, t, want);
      DoneNext(fmt, buf[..], want, i, nframes);
      AddressAcross(fmt, i);
      i := i + 1;
      sp := sp + fmt.bytespersample;
    }
    DoneAll(fmt, buf[..], want);
  }

  lemma AddressAcross(fmt: Format, i: nat)
    ensures Address(fmt, i + 1, 0) == Address(fmt, i, 0) + fmt.bytespersample && Address(fmt, 0, 0) == 0
  {
    assert (i + 1) * fmt.bytespersample == i * fmt.bytespersample + fmt.bytespersample;
  }

  lemma AddressNext(fmt: Format, i: nat, j: nat)
    ensures Address(fmt, i, j + 1) == Address(fmt, i, j) + fmt.BytesPerFrame()
  {
    assert fmt.Bytes(j + 1) == fmt.Bytes(j) + fmt.BytesPerFrame();
  }

  // ----- reading -----

  /** The bytes of one sample shifted to the top of a 32-bit word. */
  function Word(fmt: Format, b: seq<byte>): int
    requires fmt.Valid() && |b| == fmt.bytespersample
  {
    if |b| == 2 then
      if fmt.bigendian then 0x100_0000 * b[0] as int + 0x1_0000 * b[1] as int
      else 0x100_0000 * b[1] as int + 0x1_0000 * b[0] as int
    else if |b| == 3 then
      if fmt.bigendian then 0x100_0000 * b[0] as int + 0x1_0000 * b[1] as int + 0x100 * b[2] as int
      else 0x100_0000 * b[2] as int + 0x1_0000 * b[1] as int + 0x100 * b[0] as int
    else
      if fmt.bigendian then 0x100_0000 * b[0] as int + 0x1_0000 * b[1] as int + 0x100 * b[2] as int + b[3] as int
      else 0x100_0000 * b[3] as int + 0x1_0000 * b[2] as int + 0x100 * b[1] as int + b[0] as int
  }

  lemma WordOf(fmt: Format, b: seq<byte>)
    requires fmt.Valid() && |b| == fmt.bytespersample
    ensures 0 <= Word(fmt, b) < 0x1_0000_0000
    ensures Word(fmt, b) == Fetched(fmt, b) * (if |b| == 2 then 0x1_0000 else if |b| == 3 then 0x100 else 1)
  {
    hide Unsigned;
    UnsignedIs(b);
    UnsignedIs(Reversed(b));
  }

  /** One sample at position `at`. */
  method Get(fmt: Format, buf: array<byte>, at: nat) returns (f: real)
    requires fmt.Valid() && at + fmt.bytespersample <= buf.Length
    ensures f == Decode(fmt, buf[at..at + fmt.bytespersample])
  {
    var b := buf[at..at + fmt.bytespersample];
    WordOf(fmt, b);
    hide Fetched, Word;
    var word := Word(fmt, b);
    if fmt.bytespersample == 4 {
      f := fmt.alias.value(word);
    } else {
      f := (if word >= 0x8000_0000 then word - 0x1_0000_0000 else word) as real / 2147483648.0;
    }
  }

  predicate Distinct2(vecs: seq<array<real>>) {
    forall i: nat, j: nat :: i < j < |vecs| ==> vecs[i] != vecs[j]
  }

  function Least(a: nat, b: nat): nat { if a < b then a else b }

  /** The sample of channel i in frame j of sound data that is long enough to hold it. */
  function SampleAt(fmt: Format, data: seq<byte>, i: nat, j: nat): real
    requires fmt.Valid()
  {
    var q := Address(fmt, i, j);
    if q + fmt.bytespersample <= |data| then Decode(fmt, data[q..q + fmt.bytespersample]) else 0.0
  }

  lemma SampleFits(fmt: Format, size: nat, i: nat, j: nat)
    requires fmt.Valid() && i < fmt.nchannels && j < fmt.Frames(size)
    ensures Address(fmt, i, j) + fmt.bytespersample <= size
  {
    var bpf := fmt.BytesPerFrame();
    AddressFits(fmt, i, j, size / bpf);
    DivMod(size, bpf);
  }

  /** Frames `from` up to `to` of one channel of sound data. */
  function Channel(fmt: Format, data: seq<byte>, i: nat, from: nat, to: nat): (c: seq<real>)
    requires fmt.Valid() && from <= to
    ensures |c| == to - from
  {
    seq(to - from, j requires 0 <= j < to - from => SampleAt(fmt, data, i, from + j))
  }

  lemma ChannelGrows(fmt: Format, data: seq<byte>, i: nat, from: nat, to: nat)
    requires fmt.Valid() && from <= to
    ensures Channel(fmt, data, i, from, to + 1) == Channel(fmt, data, i, from, to) + [SampleAt(fmt, data, i, to)]
  {
  }

  /** `was` with the samples of `part` over it from position `at` on. */
  function Overlay(was: seq<real>, at: nat, part: seq<real>): (r: seq<real>)
    requires at + |part| <= |was|
    ensures |r| == |was|
  {
    was[..at] + part + was[at + |part|..]
  }

  /** Frames of one channel: every bytesperframe-th sample slot from `sp` on. */
  method XferInChannel(fmt: Format, v: array<real>, i: nat, sp: nat, framesread: nat, buf: array<byte>, nframes: nat)
    requires fmt.Valid() && i < fmt.nchannels && sp == Address(fmt, i, 0)
    requires nframes <= fmt.Frames(buf.Length) && framesread + nframes <= v.Length
    modifies v
    ensures v[..] == Overlay(old(v[..]), framesread, Channel(fmt, buf[..], i, 0, nframes))
  {
    hide Address, Channel, SampleAt, Decode, Overlay, Format.Bytes, Format.Frames;
    var j, sp2 := 0, sp;
    ghost var data, was := buf[..], v[..];
    ChannelEmpty(fmt, data, i);
    OverlayNone(was, framesread);
    while j < nframes
      invariant j <= nframes && sp2 == Address(fmt, i, j)
      invariant v[..] == Overlay(was, framesread, Channel(fmt, data, i, 0, j))
      modifies v
    {
      SampleIs(fmt, data, i, j);
      var f := Get(fmt, buf, sp2);
      assert data[sp2..sp2 + fmt.bytespersample] == buf[sp2..sp2 + fmt.bytespersample];
      ChannelGrows(fmt, data, i, 0, j);
      OverlayStep(was, framesread, Channel(fmt, data, i, 0, j), f);
      v[framesread + j] := f;
      AddressNext(fmt, i, j);
      j := j + 1;
      sp2 := sp2 + fmt.BytesPerFrame();
    }
  }

  lemma SampleIs(fmt: Format, data: seq<byte>, i: nat, j: nat)
    requires fmt.Valid() && i < fmt.nchannels && j < fmt.Frames(|data|)
    ensures var q := Address(fmt, i, j);
            q + fmt.bytespersample <= |data|
                && SampleAt(fmt, data, i, j) == Decode(fmt, data[q..q + fmt.bytespersample])
  {
    SampleFits(fmt, |data|, i, j);
  }

  lemma OverlayNone(was: seq<real>, at: nat)
    requires at <= |was|
    ensures Overlay(was, at, []) == was
  {
  }

  lemma OverlayStep(was: seq<real>, at: nat, part: seq<real>, f: real)
    requires at + |part| < |was|
    ensures Overlay(was, at, part)[at + |part| := f] == Overlay(was, at, part + [f])
  {
  }

  lemma ChannelEmpty(fmt: Format, data: seq<byte>, i: nat)
    requires fmt.Valid() && i < fmt.nchannels
    ensures Channel(fmt, data, i, 0, 0) == []
  {
  }

  /** What table i holds after a transfer: extra channels are skipped, extra tables zeroed at their start. */
  function Loaded(fmt: Format, was: seq<real>, i: nat, framesread: nat, data: seq<byte>, nframes: nat): seq<real>
    requires fmt.Valid() && framesread + nframes <= |was|
  {
    if i < fmt.nchannels then Overlay(was, framesread, Channel(fmt, data, i, 0, nframes))
    else Overlay(was, 0, Zeros(nframes))
  }

  function Zeros(n: nat): (z: seq<real>)
    ensures |z| == n && forall i: nat :: i < n ==> z[i] == 0.0
  {
    seq(n, _ => 0.0)
  }

  method ZeroFront(v: array<real>, n: nat)
    requires n <= v.Length
    modifies v
    ensures v[..] == Overlay(old(v[..]), 0, Zeros(n))
  {
    var j := 0;
    ghost var was := v[..];
    while j < n
      invariant j <= n
      invariant forall k: nat :: k < v.Length ==> v[k] == if k < j then 0.0 else was[k]
      modifies v
    {
      v[j] := 0.0;
      j := j + 1;
    }
    ghost var r := Overlay(was, 0, Zeros(n));
    assert forall k: nat :: k < v.Length ==> r[k] == if k < n then 0.0 else was[k];
    assert v[..] == r;
  }

  ghost predicate Same(vecs: seq<array<real>>, t: Tables, from: nat, to: nat)
    requires |t| == |vecs|
    reads vecs
  {
    forall c: nat :: from <= c < to && c < |vecs| ==> vecs[c][..] == t[c]
  }

  ghost predicate LoadedTables(fmt: Format, was: Tables, t: Tables, framesread: nat, data: seq<byte>, nframes: nat)
    requires fmt.Valid() && |t| == |was|
    requires forall i: nat :: i < |was| ==> framesread + nframes <= |was[i]|
  {
    forall i: nat :: i < |t| ==> t[i] == Loaded(fmt, was[i], i, framesread, data, nframes)
  }

  ghost predicate Shapes(vecs: seq<array<real>>, was: Tables, t: Tables, least: nat) {
    |t| == |vecs| == |was| && forall i: nat :: i < |vecs| ==> least <= vecs[i].Length == |t[i]| == |was[i]|
  }

  lemma SameAfter(vecs: seq<array<real>>, was: Tables, t: Tables, i: nat)
    requires |t| == |vecs| == |was| && i < |vecs| && vecs[i][..] == t[i]
    requires Same(vecs, t, 0, i) && Same(vecs, was, i + 1, |vecs|)
    ensures Same(vecs, t, 0, i + 1)
  {
  }

  /** One channel into its table. */
  method LoadOne(fmt: Format, vecs: seq<array<real>>, i: nat, sp: nat, framesread: nat, buf: array<byte>, nframes: nat,
                 ghost was: Tables, ghost t: Tables)
    requires fmt.Valid() && Distinct2(vecs) && nframes <= fmt.Frames(buf.Length)
    requires Shapes(vecs, was, t, framesread + nframes) && LoadedTables(fmt, was, t, framesread, buf[..], nframes)
    requires i < |vecs| && i < fmt.nchannels && sp == Address(fmt, i, 0)
    requires Same(vecs, t, 0, i) && Same(vecs, was, i, |vecs|)
    modifies vecs[i]
    ensures Same(vecs, t, 0, i + 1) && Same(vecs, was, i + 1, |vecs|)
  {
    hide Address, Loaded, LoadedTables, Channel, Zeros, Overlay, Format.Bytes, Format.Frames;
    ghost var data := buf[..];
    TableIs(fmt, was, t, i, framesread, data, nframes);
    XferInChannel(fmt, vecs[i], i, sp, framesread, buf, nframes);
    SameAfter(vecs, was, t, i);
  }

  method ZeroOne(fmt: Format, vecs: seq<array<real>>, i: nat, framesread: nat, nframes: nat, ghost was: Tables,
                 ghost t: Tables, ghost data: seq<byte>)
    requires fmt.Valid() && Distinct2(vecs)
    requires Shapes(vecs, was, t, framesread + nframes) && LoadedTables(fmt, was, t, framesread, data, nframes)
    requires fmt.nchannels <= i < |vecs|
    requires Same(vecs, t, 0, i) && Same(vecs, was, i, |vecs|)
    modifies vecs[i]
    ensures Same(vecs, t, 0, i + 1) && Same(vecs, was, i + 1, |vecs|)
  {
    hide Loaded, LoadedTables, Channel, Zeros, Overlay;
    TableIs(fmt, was, t, i, framesread, data, nframes);
    ZeroFront(vecs[i], nframes);
    SameAfter(vecs, was, t, i);
  }

  /** First half: the channels there are tables for. */
  method LoadChannels(fmt: Format, vecs: seq<array<real>>, framesread: nat, buf: array<byte>, nframes: nat,
                      ghost was: Tables, ghost t: Tables)
    requires fmt.Valid() && Distinct2(vecs) && nframes <= fmt.Frames(buf.Length)
    requires Shapes(vecs, was, t, framesread + nframes) && LoadedTables(fmt, was, t, framesread, buf[..], nframes)
    requires Same(vecs, was, 0, |vecs|)
    modifies vecs
    ensures Same(vecs, t, 0, Least(fmt.nchannels, |vecs|))
    ensures Same(vecs, was, Least(fmt.nchannels, |vecs|), |vecs|)
  {
    var nchannels := Least(fmt.nchannels, |vecs|);
    SameNone(vecs, t);
    AddressAcross(fmt, 0);
    hide Address, LoadedTables, Same, Distinct2, Shapes, Format.Bytes, Format.Frames;
    var i, sp := 0, 0;
    while i < nchannels
      invariant i <= nchannels && sp == Address(fmt, i, 0)
      invariant Same(vecs, t, 0, i) && Same(vecs, was, i, |vecs|)
    {
      LoadOne(fmt, vecs, i, sp, framesread, buf, nframes, was, t);
      AddressAcross(fmt, i);
      i := i + 1;
      sp := sp + fmt.bytespersample;
    }
  }

  /** Second half: the tables beyond the file's channels. */
  method ZeroOthers(fmt: Format, vecs: seq<array<real>>, framesread: nat, nframes: nat, ghost was: Tables,
                    ghost t: Tables, ghost data: seq<byte>)
    requires fmt.Valid() && Distinct2(vecs)
    requires Shapes(vecs, was, t, framesread + nframes) && LoadedTables(fmt, was, t, framesread, data, nframes)
    requires Same(vecs, t, 0, Least(fmt.nchannels, |vecs|)) && Same(vecs, was, Least(fmt.nchannels, |vecs|), |vecs|)
    modifies vecs
    ensures Same(vecs, t, 0, |vecs|)
  {
    var i := fmt.nchannels;
    SameBeyond(vecs, t, Least(fmt.nchannels, |vecs|), i);
    SameBeyond(vecs, was, i, i);
    hide LoadedTables, Same, Distinct2, Shapes, Format.Bytes, Format.Frames;
    while i < |vecs|
      invariant fmt.nchannels <= i
      invariant Same(vecs, t, 0, i) && Same(vecs, was, i, |vecs|)
    {
      ZeroOne(fmt, vecs, i, framesread, nframes, was, t, data);
      i := i + 1;
    }
    SameBeyond(vecs, t, i, |vecs|);
  }

  lemma SameNone(vecs: seq<array<real>>, t: Tables)
    requires |t| == |vecs|
    ensures Same(vecs, t, 0, 0)
  {
  }

  lemma SameBeyond(vecs: seq<array<real>>, t: Tables, i: nat, j: nat)
    requires |t| == |vecs|
    ensures Same(vecs, t, 0, i) && (i == j || |vecs| <= i || i == |vecs|) ==> Same(vecs, t, 0, j)
    ensures |vecs| <= i ==> Same(vecs, t, i, |vecs|)
  {
  }

  /** Frames from the buffer into the tables, from frame `framesread` of each table on. */
  method XferIn(fmt: Format, vecs: seq<array<real>>, framesread: nat, buf: array<byte>, nframes: nat)
    requires fmt.Valid() && Distinct2(vecs) && nframes <= fmt.Frames(buf.Length)
    requires forall i: nat :: i < |vecs| ==> framesread + nframes <= vecs[i].Length
    modifies vecs
    ensures LoadedTables(fmt, old(Contents(vecs)), Contents(vecs), framesread, buf[..], nframes)
  {
    ghost var was, data := Contents(vecs), buf[..];
    ghost var t := seq(|was|, i requires 0 <= i < |was| => Loaded(fmt, was[i], i, framesread, data, nframes));
    LoadChannels(fmt, vecs, framesread, buf, nframes, was, t);
    ZeroOthers(fmt, vecs, framesread, nframes, was, t, data);
    hide Loaded;
    assert Contents(vecs) == t;
  }

  lemma TableIs(fmt: Format, was: Tables, t: Tables, i: nat, framesread: nat, data: seq<byte>, nframes: nat)
    requires fmt.Valid() && |t| == |was| && i < |t|
    requires forall c: nat :: c < |was| ==> framesread + nframes <= |was[c]|
    requires LoadedTables(fmt, was, t, framesread, data, nframes)
    ensures t[i] == if i < fmt.nchannels
                    then Overlay(was[i], framesread, Channel(fmt, data, i, 0, nframes))
                    else Overlay(was[i], 0, Zeros(nframes))
  {
    hide Channel, Zeros, Overlay;
  }

  // ----- the chunk loops -----

  lemma QuotientAdds(k: nat, b: nat, d: nat)
    requires d > 0
    ensures (k * d + b) / d == k + b / d
  {
    DivMod(b, d);
    assert (k + b / d) * d == k * d + b / d * d;
    DivIs(k * d + b, d, k + b / d, b % d);
  }

  lemma ChunkFits(fmt: Format, n: nat)
    requires fmt.Valid() && n <= fmt.Frames(SAMPBUFSIZE)
    ensures fmt.Bytes(n) <= SAMPBUFSIZE
    ensures fmt.Frames(SAMPBUFSIZE) > 0
  {
    var bpf := fmt.BytesPerFrame();
    FrameSize(fmt);
    DivMod(SAMPBUFSIZE, bpf);
    MulMono(bpf, n, SAMPBUFSIZE / bpf);
    assert SAMPBUFSIZE == bpf * (SAMPBUFSIZE / bpf) + SAMPBUFSIZE % bpf;
  }

  /** b is the largest absolute value among the samples to be written, zero if all of them are. */
  ghost predicate IsBiggest(t: Tables, onset: nat, nframes: nat, b: real)
    requires forall i: nat :: i < |t| ==> |t[i]| >= onset + nframes
  {
    && b >= 0.0
    && (forall i: nat, j: nat :: i < |t| && onset <= j < onset + nframes ==> -b <= t[i][j] <= b)
    && (b > 0.0 ==> exists i: nat, j: nat :: i < |t| && onset <= j < onset + nframes
                                             && (t[i][j] == b || t[i][j] == -b))
  }

  /** The biggest absolute value among the samples to be written. */
  method Biggest(vecs: seq<array<real>>, onset: nat, nframes: nat) returns (biggest: real)
    requires forall i: nat :: i < |vecs| ==> vecs[i].Length >= onset + nframes
    ensures IsBiggest(Contents(vecs), onset, nframes, biggest)
  {
    biggest := 0.0;
    ghost var t, a, b: nat, k: nat := Contents(vecs), 0.0, 0, 0;
    var i := 0;
    while i < |vecs|
      invariant i <= |vecs| && biggest >= 0.0
      invariant forall c: nat, j: nat :: c < i && onset <= j < onset + nframes ==> -biggest <= t[c][j] <= biggest
      invariant biggest > 0.0 ==> b < |t| && onset <= k < onset + nframes && (t[b][k] == biggest || t[b][k] == -biggest)
    {
      var j := onset;
      while j < nframes + onset
        invariant onset <= j <= onset + nframes && biggest >= 0.0
        invariant forall c: nat, k: nat :: c < i && onset <= k < onset + nframes ==> -biggest <= t[c][k] <= biggest
        invariant forall k: nat :: onset <= k < j ==> -biggest <= t[i][k] <= biggest
        invariant biggest > 0.0 ==>
                    b < |t| && onset <= k < onset + nframes && (t[b][k] == biggest || t[b][k] == -biggest)
      {
        assert t[i][j] == vecs[i][j];
        if vecs[i][j] > biggest {
          biggest := vecs[i][j];
          b, k := i, j;
        } else if -vecs[i][j] > biggest {
          biggest := -vecs[i][j];
          b, k := i, j;
        }
        j := j + 1;
      }
      i := i + 1;
    }
  }

  /** Whether samples are scaled: on request, and where integer samples would not fit. */
  predicate Normalizes(fmt: Format, biggest: real, asked: bool) {
    biggest > 0.0 && (asked || (fmt.bytespersample != 4 && biggest > 1.0))
  }

  function NormFactor(fmt: Format, biggest: real, asked: bool): real {
    if Normalizes(fmt, biggest, asked) then 32767.0 / (32768.0 * biggest) else 1.0
  }

  /**
   * The whole of writing: the file is the start of the image scaled by a factor with which no sample is off by
   * more than one code of its own, and if samples are scaled none is clamped, and the biggest comes out one
   * part in 32768 below full scale.
   */
  method Write(fmt: Format, vecs: seq<array<real>>, onset: nat, nframes: nat, asked: bool, room: nat)
    returns (file: seq<byte>, frameswritten: nat, ghost biggest: real)
    requires fmt.Valid() && |vecs| == fmt.nchannels
    requires forall i: nat :: i < |vecs| ==> vecs[i].Length >= onset + nframes
    ensures IsBiggest(Contents(vecs), onset, nframes, biggest)
    ensures |file| == Least(room, fmt.Bytes(nframes)) && frameswritten == fmt.Frames(|file|)
    ensures file == Image(fmt, Contents(vecs), onset, nframes, NormFactor(fmt, biggest, asked))[..|file|]
    ensures fmt.bytespersample < 4 ==>
              forall i: nat, j: nat :: i < |vecs| && onset <= j < onset + nframes ==>
                Fits(fmt, Contents(vecs)[i][j], biggest, asked)
  {
    hide Image, Contents, IsBiggest, Fits, NormFactor, Format.Bytes, Format.Frames, Format.Valid;
    var b := Biggest(vecs, onset, nframes);
    var normfactor := Factor(fmt, b, asked);
    file, frameswritten := DoWrite(fmt, vecs, onset, nframes, normfactor, room);
    biggest := b;
    if fmt.bytespersample < 4 { AllFit(fmt, Contents(vecs), onset, nframes, b, asked); }
  }

  method Factor(fmt: Format, biggest: real, asked: bool) returns (normfactor: real)
    ensures normfactor == NormFactor(fmt, biggest, asked)
    ensures biggest > 0.0 && (asked || (fmt.bytespersample != 4 && biggest > 1.0)) ==>
              normfactor == 32767.0 / (32768.0 * biggest)
    ensures biggest <= 0.0 || (!asked && (fmt.bytespersample == 4 || biggest <= 1.0)) ==> normfactor == 1.0
  {
    var normalize := asked;
    if !normalize && fmt.bytespersample != 4 && biggest > 1.0 { normalize := true; }
    normfactor := 1.0;
    if normalize { normfactor := if biggest > 0.0 then 32767.0 / (32768.0 * biggest) else 1.0; }
  }

  lemma AllFit(fmt: Format, t: Tables, onset: nat, nframes: nat, b: real, asked: bool)
    requires fmt.Valid() && fmt.bytespersample < 4 && forall i: nat :: i < |t| ==> |t[i]| >= onset + nframes
    requires IsBiggest(t, onset, nframes, b)
    ensures forall i: nat, j: nat :: i < |t| && onset <= j < onset + nframes ==> Fits(fmt, t[i][j], b, asked)
  {
    hide Fits;
    forall i: nat, j: nat | i < |t| && onset <= j < onset + nframes ensures Fits(fmt, t[i][j], b, asked) {
      OneFits(fmt, t[i][j], b, asked);
    }
  }

  /** What the clamp does to a sample of a sound whose biggest is b: nothing if scaled, one code at most if not. */
  predicate Fits(fmt: Format, f: real, b: real, asked: bool) {
    var s := Scale(fmt.bytespersample);
    var x := InCodes(f, NormFactor(fmt, b, asked), s).Floor;
    && x - 1 <= Clamp(x, s - 1) <= x + 1
    && (Normalizes(fmt, b, asked) ==>
          Clamp(x, s - 1) == x && (f == b ==> x == s - s / 32768) && (f == -b ==> x == s / 32768 - s))
  }

  lemma OneFits(fmt: Format, f: real, b: real, asked: bool)
    requires fmt.Valid() && fmt.bytespersample < 4 && -b <= f <= b
    ensures Fits(fmt, f, b, asked)
  {
    var n, s := fmt.bytespersample, Scale(fmt.bytespersample);
    if Normalizes(fmt, b, asked) {
      NormalizedNeverClamps(f, b, n);
      hide InCodes;
      PeakCode(b, n);
    } else {
      assert InCodes(f, 1.0, s) == f * s as real;
      Within(f, 1.0, s as real);
    }
  }

  /** The biggest sample, scaled, is one part in 32768 short of full scale. */
  lemma PeakCode(b: real, bytes: nat)
    requires 2 <= bytes <= 3 && b > 0.0
    ensures var q, s := 32767.0 / (32768.0 * b), Scale(bytes);
      && InCodes(b, q, s).Floor == s - s / 32768 && InCodes(-b, q, s).Floor == s / 32768 - s
  {
    var q, s := 32767.0 / (32768.0 * b), Scale(bytes);
    assert q * (32768.0 * b) == 32767.0;
    assert b * q * 32768.0 == 32767.0;
    var k := s / 32768;
    assert s == 32768 * k;
    assert b * (q * s as real) == (b * q * 32768.0) * k as real;
    assert -b * (q * s as real) == -(b * (q * s as real));
  }

  /** One chunk: the frames go through the buffer, and as many bytes of it to the disk as there is room for. */
  method WriteChunk(fmt: Format, vecs: seq<array<real>>, sampbuf: array<byte>, onset: nat, thiswrite: nat, factor: real,
                    room: nat)
    returns (bytes: seq<byte>)
    requires fmt.Valid() && |vecs| == fmt.nchannels && fmt.Bytes(thiswrite) <= sampbuf.Length
    requires forall i: nat :: i < |vecs| ==> vecs[i].Length >= onset + thiswrite
    modifies sampbuf
    ensures |bytes| == Least(room, fmt.Bytes(thiswrite))
    ensures bytes == Image(fmt, Contents(vecs), onset, thiswrite, factor)[..|bytes|]
  {
    hide Image;
    ghost var t := Contents(vecs);
    XferOut(fmt, vecs, sampbuf, thiswrite, onset, factor);
    assert Contents(vecs) == t;
    var datasize := fmt.Bytes(thiswrite);
    var byteswritten := Least(room, datasize);
    bytes := sampbuf[..byteswritten];
    assert bytes == sampbuf[..datasize][..byteswritten];
  }

  /**
   * Writing in chunks, to a disk with room for `room` bytes: what reaches the file is the start of the image
   * of all the frames, and the count returned is the number of whole frames that fit.
   */
  method DoWrite(fmt: Format, vecs: seq<array<real>>, onset: nat, nframes: nat, factor: real, room: nat)
    returns (file: seq<byte>, frameswritten: nat)
    requires fmt.Valid() && |vecs| == fmt.nchannels
    requires forall i: nat :: i < |vecs| ==> vecs[i].Length >= onset + nframes
    ensures |file| == Least(room, fmt.Bytes(nframes))
    ensures file == Image(fmt, Contents(vecs), onset, nframes, factor)[..|file|]
    ensures frameswritten == fmt.Frames(|file|)
  {
    ChunkFits(fmt, 0);
    var sampbuf := new byte[SAMPBUFSIZE];
    var bufframes := fmt.Frames(SAMPBUFSIZE);
    ghost var t := Contents(vecs);
    file, frameswritten := [], 0;
    ImageEmpty(fmt, t, onset, factor);
    hide Image, Contents, Format.Bytes, Format.Frames;
    while frameswritten < nframes
      invariant frameswritten <= nframes && file == Image(fmt, t, onset, frameswritten, factor) && |file| <= room
      modifies sampbuf
    {
      var thiswrite := Least(nframes - frameswritten, bufframes);
      ChunkFits(fmt, thiswrite);
      var bytes := WriteChunk(fmt, vecs, sampbuf, onset + frameswritten, thiswrite, factor, room - |file|);
      PrefixGrows(fmt, t, onset, frameswritten, thiswrite, nframes, factor, bytes);
      FramesAdd(fmt, frameswritten, |bytes|);
      file := file + bytes;
      if |bytes| < fmt.Bytes(thiswrite) {
        frameswritten := frameswritten + fmt.Frames(|bytes|);
        return;
      }
      frameswritten := frameswritten + thiswrite;
    }
    FramesAdd(fmt, nframes, 0);
  }

  lemma FramesAdd(fmt: Format, k: nat, b: nat)
    requires fmt.Valid()
    ensures fmt.Frames(fmt.Bytes(k) + b) == k + fmt.Frames(b) && fmt.Frames(0) == 0
  {
    FrameSize(fmt);
    QuotientAdds(k, b, fmt.BytesPerFrame());
  }

  /** A chunk, or the start of one, carries the file's image further. */
  lemma PrefixGrows(fmt: Format, t: Tables, onset: nat, done: nat, chunk: nat, nframes: nat, factor: real,
                    bytes: seq<byte>)
    requires fmt.Valid() && |t| == fmt.nchannels && done + chunk <= nframes
    requires |bytes| <= fmt.Bytes(chunk)
    requires bytes == Image(fmt, t, onset + done, chunk, factor)[..|bytes|]
    ensures var file := Image(fmt, t, onset, done, factor) + bytes;
            && |file| == fmt.Bytes(done) + |bytes| <= fmt.Bytes(nframes)
            && file == Image(fmt, t, onset, nframes, factor)[..|file|]
            && (|bytes| == fmt.Bytes(chunk) ==> file == Image(fmt, t, onset, done + chunk, factor))
  {
    ImageSplits(fmt, t, onset, done, chunk, factor);
    ImageSplits(fmt, t, onset, done + chunk, nframes - done - chunk, factor);
    hide Image;
    var a, c := Image(fmt, t, onset, done, factor), Image(fmt, t, onset + done, chunk, factor);
    assert bytes <= c;
    assert a + bytes <= a + c <= Image(fmt, t, onset, nframes, factor);
    if |bytes| == |c| { assert bytes == c; }
  }

  lemma ImageEmpty(fmt: Format, t: Tables, onset: nat, factor: real)
    requires fmt.Valid() && |t| == fmt.nchannels
    ensures Image(fmt, t, onset, 0, factor) == []
  {
  }

  /** The `len` bytes of `file` from position b on are the front of `part`. */
  predicate Matches(file: seq<byte>, b: nat, part: seq<byte>, len: nat) {
    b + len <= |file| && len <= |part| && file[b..b + len] == part[..len]
  }

  /** A sample of a stretch of the data is the sample of the whole, that many frames on. */
  lemma SampleShift(fmt: Format, file: seq<byte>, part: seq<byte>, done: nat, n: nat, i: nat, j: nat)
    requires fmt.Valid() && i < fmt.nchannels && j < n && Matches(file, fmt.Bytes(done), part, fmt.Bytes(n))
    ensures SampleAt(fmt, part, i, j) == SampleAt(fmt, file, i, done + j)
  {
    AddressFits(fmt, i, j, n);
    AddressShift(fmt, i, done, j);
    SampleCopied(fmt, file, part, fmt.Bytes(done), fmt.Bytes(n), Address(fmt, i, j), i, j, done + j);
  }

  lemma SampleCopied(fmt: Format, file: seq<byte>, part: seq<byte>, b: nat, len: nat, a: nat, i: nat, j: nat, k: nat)
    requires fmt.Valid() && Matches(file, b, part, len) && a + fmt.bytespersample <= len
    requires a == Address(fmt, i, j) && b + a == Address(fmt, i, k)
    ensures SampleAt(fmt, part, i, j) == SampleAt(fmt, file, i, k)
  {
    hide Address, Decode;
    SliceShift(file, b, part, len, a, fmt.bytespersample);
  }

  lemma SliceShift(file: seq<byte>, b: nat, part: seq<byte>, len: nat, a: nat, bps: nat)
    requires Matches(file, b, part, len) && a + bps <= len
    ensures part[a..a + bps] == file[b + a..b + a + bps]
  {
    var x, y := file[b..b + len], part[..len];
    assert part[a..a + bps] == y[a..a + bps];
    var p, q := file[b + a..b + a + bps], x[a..a + bps];
    forall k: nat | k < bps ensures p[k] == q[k] {
      assert x[a + k] == file[b + (a + k)];
    }
    assert p == q;
  }

  lemma BytesAdd(fmt: Format, a: nat, b: nat)
    ensures fmt.Bytes(a + b) == fmt.Bytes(a) + fmt.Bytes(b) && fmt.Bytes(0) == 0
  {
  }

  lemma AddressShift(fmt: Format, i: nat, done: nat, j: nat)
    ensures Address(fmt, i, done + j) == fmt.Bytes(done) + Address(fmt, i, j)
  {
    BytesAdd(fmt, done, j);
  }

  lemma ChannelJoins(fmt: Format, file: seq<byte>, part: seq<byte>, done: nat, n: nat, i: nat)
    requires fmt.Valid() && i < fmt.nchannels && Matches(file, fmt.Bytes(done), part, fmt.Bytes(n))
    ensures Channel(fmt, file, i, 0, done + n) == Channel(fmt, file, i, 0, done) + Channel(fmt, part, i, 0, n)
  {
    hide SampleAt, Matches, Format.Bytes;
    forall j: nat | j < n ensures Channel(fmt, part, i, 0, n)[j] == Channel(fmt, file, i, 0, done + n)[done + j] {
      SampleShift(fmt, file, part, done, n, i, j);
    }
  }

  /** The first `n` samples of table i are the file's. */
  ghost predicate Read(fmt: Format, t: Tables, file: seq<byte>, n: nat)
    requires fmt.Valid()
  {
    forall i: nat :: i < |t| && i < fmt.nchannels ==> n <= |t[i]| && t[i][..n] == Channel(fmt, file, i, 0, n)
  }

  lemma ReadGrows(fmt: Format, was: Tables, t: Tables, file: seq<byte>, part: seq<byte>, done: nat, n: nat)
    requires fmt.Valid() && Read(fmt, was, file, done)
    requires |t| == |was| && forall i: nat :: i < |was| ==> done + n <= |was[i]|
    requires LoadedTables(fmt, was, t, done, part, n)
    requires Matches(file, fmt.Bytes(done), part, fmt.Bytes(n))
    ensures Read(fmt, t, file, done + n)
  {
    hide Channel, LoadedTables, Matches, Overlay, Format.Bytes;
    forall i: nat | i < |t| && i < fmt.nchannels
      ensures done + n <= |t[i]| && t[i][..done + n] == Channel(fmt, file, i, 0, done + n)
    {
      TableIs(fmt, was, t, i, done, part, n);
      ChannelJoins(fmt, file, part, done, n, i);
      OverlayFront(was[i], done, Channel(fmt, part, i, 0, n));
    }
  }

  lemma OverlayFront(was: seq<real>, at: nat, part: seq<real>)
    requires at + |part| <= |was|
    ensures Overlay(was, at, part)[..at + |part|] == was[..at] + part
  {
  }

  /** Fills the front of a buffer from the file at `pos`; a file gives all it has left. */
  method ReadFile(file: seq<byte>, pos: nat, want: nat, sampbuf: array<byte>) returns (got: nat)
    requires pos <= |file| && want <= sampbuf.Length
    modifies sampbuf
    ensures got == Least(want, |file| - pos) && sampbuf[..got] == file[pos..pos + got]
  {
    got := Least(want, |file| - pos);
    var k := 0;
    while k < got
      invariant k <= got && sampbuf[..k] == file[pos..pos + k]
    {
      sampbuf[k] := file[pos + k];
      k := k + 1;
    }
  }

  /** Zero from position `from` on. */
  method ZeroRest(v: array<real>, from: nat)
    requires from <= v.Length
    modifies v
    ensures v[..] == old(v[..from]) + Zeros(v.Length - from)
  {
    var j := from;
    while j < v.Length
      invariant from <= j <= v.Length
      invariant v[..j] == old(v[..from]) + Zeros(j - from)
    {
      v[j] := 0.0;
      j := j + 1;
    }
  }

  /** One chunk of the file into the tables: the whole frames among the bytes that were there. */
  method ReadChunk(fmt: Format, vecs: seq<array<real>>, file: seq<byte>, pos: nat, framesread: nat, thisread: nat,
                   sampbuf: array<byte>)
    returns (bytes: nat, nframes: nat)
    requires fmt.Valid() && Distinct2(vecs) && thisread > 0 && fmt.Bytes(thisread) <= sampbuf.Length
    requires forall i: nat :: i < |vecs| ==> framesread + thisread <= vecs[i].Length
    requires framesread <= fmt.Frames(|file|) && pos <= |file| && Read(fmt, Contents(vecs), file, framesread)
    requires if framesread < fmt.Frames(|file|) then pos == fmt.Bytes(framesread) else fmt.Frames(|file| - pos) == 0
    modifies vecs, sampbuf
    ensures bytes == Least(fmt.Bytes(thisread), |file| - pos) && nframes == fmt.Frames(bytes)
    ensures nframes <= thisread && framesread + nframes <= fmt.Frames(|file|)
    ensures Read(fmt, Contents(vecs), file, framesread + nframes)
  {
    hide Contents, Read, LoadedTables, Format.Bytes, Format.Frames;
    bytes := ReadFile(file, pos, fmt.Bytes(thisread), sampbuf);
    nframes := fmt.Frames(bytes);
    ReadCount(fmt, |file|, pos, framesread, thisread, bytes, nframes);
    ghost var was := Contents(vecs);
    if nframes > 0 {
      FramesOf(fmt, bytes, sampbuf.Length);
      MatchesPart(file, pos, sampbuf[..], bytes, fmt.Bytes(nframes));
      XferIn(fmt, vecs, framesread, sampbuf, nframes);
      ReadGrows(fmt, was, Contents(vecs), file, sampbuf[..], framesread, nframes);
    }
  }

  lemma FramesOf(fmt: Format, bytes: nat, length: nat)
    requires fmt.Valid() && bytes <= length
    ensures fmt.Frames(bytes) <= fmt.Frames(length)
  {
    FrameSize(fmt);
    QuotientMono(bytes, length, fmt.BytesPerFrame());
  }

  lemma QuotientMono(a: nat, b: nat, d: nat)
    requires d > 0 && a <= b
    ensures a / d <= b / d
  {
    DivMod(a, d);
    QuotientAtLeast(b, d, a / d);
  }

  lemma MatchesPart(file: seq<byte>, pos: nat, part: seq<byte>, bytes: nat, len: nat)
    requires pos + bytes <= |file| && bytes <= |part| && part[..bytes] == file[pos..pos + bytes] && len <= bytes
    ensures Matches(file, pos, part, len)
  {
    assert part[..len] == part[..bytes][..len];
    assert file[pos..pos + len] == file[pos..pos + bytes][..len];
  }

  /** The reading loop: as many whole frames as are wanted and there. */
  method ReadChunks(fmt: Format, vecs: seq<array<real>>, file: seq<byte>, finalsize: nat) returns (framesread: nat)
    requires fmt.Valid() && Distinct2(vecs) && forall i: nat :: i < |vecs| ==> finalsize <= vecs[i].Length
    modifies vecs
    ensures framesread == Least(finalsize, fmt.Frames(|file|))
    ensures Read(fmt, Contents(vecs), file, framesread)
  {
    hide Contents, Read, Distinct2, Format.Bytes, Format.Frames, Format.BytesPerFrame, Format.Valid;
    ChunkFits(fmt, 0);
    BytesAdd(fmt, 0, 0);
    ReadNone(fmt, Contents(vecs), file);
    var sampbuf := new byte[SAMPBUFSIZE];
    var bufframes := fmt.Frames(SAMPBUFSIZE);
    framesread := 0;
    var pos: nat := 0;
    while framesread < finalsize
      invariant framesread <= finalsize && framesread <= fmt.Frames(|file|) && pos <= |file|
      invariant Read(fmt, Contents(vecs), file, framesread)
      invariant if framesread < fmt.Frames(|file|) then pos == fmt.Bytes(framesread) else fmt.Frames(|file| - pos) == 0
      decreases finalsize - framesread
    {
      var thisread := Least(finalsize - framesread, bufframes);
      ChunkFits(fmt, thisread);
      var bytes, nframes := ReadChunk(fmt, vecs, file, pos, framesread, thisread, sampbuf);
      ReadCount(fmt, |file|, pos, framesread, thisread, bytes, nframes);
      pos := pos + bytes;
      if nframes == 0 { break; }
      framesread := framesread + nframes;
    }
  }

  lemma ReadNone(fmt: Format, t: Tables, file: seq<byte>)
    requires fmt.Valid()
    ensures Read(fmt, t, file, 0)
  {
  }

  /** Where a chunk leaves the count and the file position. */
  lemma ReadCount(fmt: Format, size: nat, pos: nat, done: nat, thisread: nat, bytes: nat, nframes: nat)
    requires fmt.Valid() && pos <= size && done <= fmt.Frames(size) && thisread > 0
    requires if done < fmt.Frames(size) then pos == fmt.Bytes(done) else fmt.Frames(size - pos) == 0
    requires bytes == Least(fmt.Bytes(thisread), size - pos) && nframes == fmt.Frames(bytes)
    ensures nframes == 0 <==> done == fmt.Frames(size)
    ensures done < fmt.Frames(size) ==>
              && nframes == Least(thisread, fmt.Frames(size) - done)
              && fmt.Bytes(nframes) <= bytes && fmt.Bytes(done) + fmt.Bytes(nframes) <= size
              && if done + nframes < fmt.Frames(size) then pos + bytes == fmt.Bytes(done + nframes)
                 else fmt.Frames(size - (pos + bytes)) == 0
  {
    FrameSize(fmt);
    if done < fmt.Frames(size) {
      CountMore(size, pos, done, thisread, fmt.BytesPerFrame(), bytes, nframes);
    } else {
      CountDone(size - pos, thisread, fmt.BytesPerFrame(), bytes, nframes);
    }
  }

  lemma CountDone(left: nat, want: nat, d: nat, bytes: nat, n: nat)
    requires d > 0 && want > 0 && left / d == 0 && bytes == Least(want * d, left) && n == bytes / d
    ensures n == 0
  {
    DivMod(left, d);
    MulMono(d, 1, want);
  }

  lemma CountMore(size: nat, pos: nat, done: nat, want: nat, d: nat, bytes: nat, n: nat)
    requires d > 0 && want > 0 && done < size / d && pos == done * d <= size
    requires bytes == Least(want * d, size - pos) && n == bytes / d
    ensures n == Least(want, size / d - done) > 0 && n * d <= bytes && pos + n * d <= size
    ensures if done + n < size / d then pos + bytes == (done + n) * d else (size - (pos + bytes)) / d == 0
  {
    var f, left := size / d, size - pos;
    DivMod(size, d);
    DivMod(bytes, d);
    Regroup3(f, done, d);
    DivIs(left, d, f - done, size % d);
    if want * d <= left {
      DivIs(bytes, d, want, 0);
      QuotientAtLeast(left, d, want);
      Regroup3(done + want, done, d);
      if done + want == f { DivIs(size % d, d, 0, size % d); }
    } else {
      QuotientBound(left, d, want);
      DivIs(0, d, 0, 0);
    }
  }

  lemma Regroup3(a: int, b: int, d: int)
    ensures (a - b) * d == a * d - b * d && d * (a - b) == d * a - d * b
  {
  }

  lemma QuotientAtLeast(a: nat, d: nat, n: nat)
    requires d > 0 && n * d <= a
    ensures n <= a / d
  {
    DivMod(a, d);
    if a / d < n { MulMono(d, a / d + 1, n); }
  }

  /** The end of a read: table i, of the given length, holds the file's channel i and then silence. */
  function Finished(fmt: Format, file: seq<byte>, i: nat, n: nat, length: nat): seq<real>
    requires fmt.Valid() && n <= length
  {
    if i < fmt.nchannels then Channel(fmt, file, i, 0, n) + Zeros(length - n) else Zeros(length)
  }

  /** Table i from frame `from` on. */
  method ZeroTable(vecs: seq<array<real>>, i: nat, from: nat)
    requires Distinct2(vecs) && i < |vecs| && from <= vecs[i].Length
    modifies vecs[i]
    ensures Contents(vecs)
            == old(Contents(vecs))[i := old(Contents(vecs)[i][..from]) + Zeros(vecs[i].Length - from)]
  {
    hide Zeros;
    ghost var was := Contents(vecs);
    ZeroRest(vecs[i], from);
    assert vecs[i][..] == was[i][..from] + Zeros(vecs[i].Length - from);
  }

  /** The table of each channel below i is as it should be, the others as they were. */
  ghost predicate TablesDone(fmt: Format, file: seq<byte>, n: nat, was: Tables, now: Tables, i: nat)
    requires fmt.Valid()
  {
    && |now| == |was|
    && (forall c: nat :: c < |was| ==> |now[c]| == |was[c]| && n <= |was[c]|)
    && (forall c: nat :: c < |was| ==> now[c] == if c < i then Finished(fmt, file, c, n, |was[c]|) else was[c])
  }

  lemma TablesStart(fmt: Format, file: seq<byte>, n: nat, t: Tables)
    requires fmt.Valid() && forall c: nat :: c < |t| ==> n <= |t[c]|
    ensures TablesDone(fmt, file, n, t, t, 0)
  {
  }

  lemma TablesEnd(fmt: Format, file: seq<byte>, n: nat, was: Tables, now: Tables)
    requires fmt.Valid() && TablesDone(fmt, file, n, was, now, |was|)
    ensures |now| == |was|
    ensures forall i: nat :: i < |was| ==> n <= |was[i]| && now[i] == Finished(fmt, file, i, n, |was[i]|)
  {
  }

  lemma TablesNext(fmt: Format, file: seq<byte>, n: nat, was: Tables, now: Tables, i: nat)
    requires fmt.Valid() && n <= fmt.Frames(|file|) && Read(fmt, was, file, n) && i < |was|
    requires TablesDone(fmt, file, n, was, now, i)
    ensures var from := if i < fmt.nchannels then n else 0;
            TablesDone(fmt, file, n, was, now[i := now[i][..from] + Zeros(|now[i]| - from)], i + 1)
  {
    hide Read, Finished, Zeros, Channel;
    FinishedIs(fmt, was, file, n, i);
  }

  lemma FinishedIs(fmt: Format, t: seq<seq<real>>, file: seq<byte>, n: nat, i: nat)
    requires fmt.Valid() && i < |t| && n <= |t[i]| && n <= fmt.Frames(|file|) && Read(fmt, t, file, n)
    ensures (if i < fmt.nchannels then t[i][..n] + Zeros(|t[i]| - n) else t[i][..0] + Zeros(|t[i]|))
            == Finished(fmt, file, i, n, |t[i]|)
  {
    assert t[i][..0] == [];
  }

  /**
   * Reading a file into tables: whatever they held before, each table then holds its channel's samples,
   * as many as were wanted and the file has, and zeros after them; tables with no channel hold only zeros.
   */
  method DoRead(fmt: Format, vecs: seq<array<real>>, file: seq<byte>, finalsize: nat) returns (framesread: nat)
    requires fmt.Valid() && Distinct2(vecs) && forall i: nat :: i < |vecs| ==> finalsize <= vecs[i].Length
    modifies vecs
    ensures framesread == Least(finalsize, fmt.Frames(|file|))
    ensures forall i: nat :: i < |vecs| ==>
              Contents(vecs)[i] == Finished(fmt, file, i, framesread, vecs[i].Length)
  {
    framesread := ReadChunks(fmt, vecs, file, finalsize);
    ZeroTables(fmt, vecs, file, framesread);
  }

  /** Zeros behind the samples read, and in all of the tables that have no channel. */
  method ZeroTables(fmt: Format, vecs: seq<array<real>>, ghost file: seq<byte>, framesread: nat)
    requires fmt.Valid() && Distinct2(vecs) && forall i: nat :: i < |vecs| ==> framesread <= vecs[i].Length
    requires framesread <= fmt.Frames(|file|) && Read(fmt, Contents(vecs), file, framesread)
    modifies vecs
    ensures forall i: nat :: i < |vecs| ==>
              Contents(vecs)[i] == Finished(fmt, file, i, framesread, vecs[i].Length)
  {
    hide Channel, Zeros, Read, Finished, Contents, Distinct2, TablesDone, Format.Bytes, Format.Frames, Format.Valid;
    ghost var t := Contents(vecs);
    var i := 0;
    TablesStart(fmt, file, framesread, t);
    while i < |vecs|
      invariant i <= |vecs| && TablesDone(fmt, file, framesread, t, Contents(vecs), i)
    {
      var from := if i < fmt.nchannels then framesread else 0;
      TablesNext(fmt, file, framesread, t, Contents(vecs), i);
      ZeroTable(vecs, i, from);
      i := i + 1;
    }
    TablesEnd(fmt, file, framesread, t, Contents(vecs));
  }

  /**
   * Samples written to a file and read back, through however many chunks: each is rounded down to a code
   * and clamped, and nothing else happens to it.
   */
  method WriteThenRead(fmt: Format, vecs: seq<array<real>>, onset: nat, nframes: nat, factor: real,
                       back: seq<array<real>>)
    requires fmt.Valid() && fmt.bytespersample < 4 && |vecs| == |back| == fmt.nchannels && Distinct2(back)
    requires forall i: nat :: i < |vecs| ==> vecs[i].Length >= onset + nframes && back[i].Length == nframes
    modifies back
    ensures forall i: nat, j: nat :: i < |back| && j < nframes ==>
              back[i][j] == Rounded(fmt, old(vecs[i][onset + j]), factor)
  {
    hide Rounded, Finished, Image, Format.Bytes, Format.Frames;
    ghost var t := Contents(vecs);
    var file, written := DoWrite(fmt, vecs, onset, nframes, factor, fmt.Bytes(nframes));
    assert file == Image(fmt, t, onset, nframes, factor);
    FramesAdd(fmt, nframes, 0);
    var framesread := DoRead(fmt, back, file, nframes);
    assert framesread == nframes;
    forall i: nat, j: nat | i < |back| && j < nframes
      ensures back[i][j] == Rounded(fmt, t[i][onset + j], factor)
    {
      assert back[i][j] == back[i][..][j];
      ReadBack(fmt, t, onset, nframes, factor, i, j);
    }
  }

  /** A sample as a file of 16- or 24-bit integers keeps it. */
  function Rounded(fmt: Format, f: real, factor: real): real {
    var s := Scale(fmt.bytespersample);
    Clamp(InCodes(f, factor, s).Floor, s - 1) as real / s as real
  }

  lemma ReadBack(fmt: Format, t: Tables, onset: nat, nframes: nat, factor: real, i: nat, j: nat)
    requires fmt.Valid() && fmt.bytespersample < 4 && LongEnough(fmt, t, onset + nframes)
    requires i < fmt.nchannels && j < nframes
    ensures var z := Finished(fmt, Image(fmt, t, onset, nframes, factor), i, nframes, nframes);
            j < |z| && z[j] == Rounded(fmt, t[i][onset + j], factor)
  {
    hide Encode, Decode, Image, InCodes;
    ImageSample(fmt, t, onset, nframes, factor, i, j);
    DecodeEncode(fmt, t[i][onset + j], factor);
  }

  // ----- the same in plain numbers -----

  /** The unsigned number in two, three or four bytes from p on, in the file's byte order. */
  function NumberAt(big: bool, b: seq<byte>, p: nat, n: nat): int
    requires 2 <= n <= 4 && p + n <= |b|
  {
    if n == 2 then if big then Be2(b, p) else Le2(b, p)
    else if n == 4 then if big then Be4(b, p) else Le4(b, p)
    else if big then 0x1_0000 * b[p] as int + 0x100 * b[p + 1] as int + b[p + 2] as int
    else 0x1_0000 * b[p + 2] as int + 0x100 * b[p + 1] as int + b[p] as int
  }

  lemma NumberIsFetched(fmt: Format, b: seq<byte>)
    requires fmt.Valid() && |b| == fmt.bytespersample
    ensures NumberAt(fmt.bigendian, b, 0, |b|) == Fetched(fmt, b)
  {
    hide Unsigned;
    UnsignedIs(b);
    UnsignedIs(Reversed(b));
  }

  lemma NumberInPart(big: bool, b: seq<byte>, p: nat, n: nat)
    requires 2 <= n <= 4 && p + n <= |b|
    ensures NumberAt(big, b, p, n) == NumberAt(big, b[p..p + n], 0, n)
  {
  }

  /** The code of a sample, as its bytes say it: the floor of 2^15 or 2^23 times the scaled sample, clamped. */
  lemma EncodedNumber(fmt: Format, f: real, factor: real)
    requires fmt.Valid()
    ensures var u := NumberAt(fmt.bigendian, Encode(fmt, f, factor), 0, fmt.bytespersample);
            var x, y := (f * (factor * 32768.0)).Floor, (f * (factor * 8388608.0)).Floor;
            && (fmt.bytespersample == 2 ==>
                  u == (if x < -32767 then -32767 else if x > 32767 then 32767 else x) % 0x1_0000)
            && (fmt.bytespersample == 3 ==>
                  u == (if y < -8388607 then -8388607 else if y > 8388607 then 8388607 else y) % 0x100_0000)
            && (fmt.bytespersample == 4 ==> u == fmt.alias.bits(f * factor) as int)
  {
    NumberIsFetched(fmt, Encode(fmt, f, factor));
    FetchStored(fmt, CodeOf(fmt, f, factor));
    CodeIs(fmt, f, factor);
    Spans();
    hide Stored, Fetched, Span, NumberAt, CodeOf;
    if fmt.bytespersample == 4 { DivIs(CodeOf(fmt, f, factor), 0x1_0000_0000, 0, CodeOf(fmt, f, factor)); }
  }

  lemma CodeIs(fmt: Format, f: real, factor: real)
    requires fmt.Valid()
    ensures var x, y := (f * (factor * 32768.0)).Floor, (f * (factor * 8388608.0)).Floor;
            && (fmt.bytespersample == 2 ==>
                  CodeOf(fmt, f, factor) == if x < -32767 then -32767 else if x > 32767 then 32767 else x)
            && (fmt.bytespersample == 3 ==>
                  CodeOf(fmt, f, factor) == if y < -8388607 then -8388607 else if y > 8388607 then 8388607 else y)
            && (fmt.bytespersample == 4 ==> CodeOf(fmt, f, factor) == fmt.alias.bits(f * factor))
  {
    hide Quantize;
    QuantizeIsFloor(InCodes(f, factor, 32768), 32768);
    QuantizeIsFloor(InCodes(f, factor, 8388608), 8388608);
  }

  /** Where the sample of channel i in frame j stands in the image, and what its bytes there say. */
  lemma ImageNumber(fmt: Format, t: Tables, onset: nat, n: nat, factor: real, i: nat, j: nat)
    requires fmt.Valid() && LongEnough(fmt, t, onset + n) && i < fmt.nchannels && j < n
    ensures |Image(fmt, t, onset, n, factor)| == n * (fmt.nchannels * fmt.bytespersample)
    ensures var b, p := Image(fmt, t, onset, n, factor), (j * fmt.nchannels + i) * fmt.bytespersample;
            && p + fmt.bytespersample <= |b|
            && NumberAt(fmt.bigendian, b, p, fmt.bytespersample)
               == NumberAt(fmt.bigendian, Encode(fmt, t[i][onset + j], factor), 0, fmt.bytespersample)
  {
    var b, p := Image(fmt, t, onset, n, factor), Address(fmt, i, j);
    AddressNumber(fmt, i, j);
    ImageSample(fmt, t, onset, n, factor, i, j);
    hide Image, Encode, Address, NumberAt;
    NumberInPart(fmt.bigendian, b, p, fmt.bytespersample);
  }

  lemma AddressNumber(fmt: Format, i: nat, j: nat)
    ensures Address(fmt, i, j) == (j * fmt.nchannels + i) * fmt.bytespersample
  {
    var n, m := fmt.nchannels, fmt.bytespersample;
    assert (j * n + i) * m == j * n * m + i * m;
    assert j * (n * m) == j * n * m;
  }

  /** What a sample's bytes are read as: a signed number over 2^15 or 2^23, or a float. */
  lemma DecodedNumber(fmt: Format, b: seq<byte>)
    requires fmt.Valid() && |b| == fmt.bytespersample
    ensures var u := NumberAt(fmt.bigendian, b, 0, |b|);
            && 0 <= u < 0x1_0000_0000
            && (|b| == 2 ==> Decode(fmt, b) == (if u >= 32768 then u - 65536 else u) as real / 32768.0)
            && (|b| == 3 ==> Decode(fmt, b) == (if u >= 8388608 then u - 16777216 else u) as real / 8388608.0)
            && (|b| == 4 ==> Decode(fmt, b) == fmt.alias.value(u))
  {
    NumberIsFetched(fmt, b);
    StoreFetched(fmt, b);
    Spans();
    if |b| < 4 { WordIs(Fetched(fmt, b), |b|); }
    hide Fetched, Span, NumberAt, WordValue;
  }

  /** What ends up in table i at j: the sample of channel i in frame j; zeros behind the last and in other tables. */
  lemma FinishedNumber(fmt: Format, file: seq<byte>, i: nat, n: nat, length: nat, j: nat)
    requires fmt.Valid() && n <= length && n <= fmt.Frames(|file|) && j < length
    ensures |Finished(fmt, file, i, n, length)| == length
    ensures i >= fmt.nchannels || j >= n ==> Finished(fmt, file, i, n, length)[j] == 0.0
    ensures i < fmt.nchannels && j < n ==>
              var p := (j * fmt.nchannels + i) * fmt.bytespersample;
              && p + fmt.bytespersample <= |file|
              && Finished(fmt, file, i, n, length)[j] == Decode(fmt, file[p..p + fmt.bytespersample])
  {
    hide Decode, Zeros, Address;
    if i < fmt.nchannels && j < n {
      AddressNumber(fmt, i, j);
      SampleFits(fmt, |file|, i, j);
    }
  }
}
