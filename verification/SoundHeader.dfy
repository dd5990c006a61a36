/** What the four sound file formats share: the description of a sound, files as bytes, and fields in them. */
module SoundHeader {
  import opened Arith
  import opened ByteOrder

  const SFHDRBUFSIZE: nat := 128

  /** What a header says of a sound file, as the programs' structure holds it. */
  datatype Sound = Sound(
    samplerate: int, nchannels: int, bytespersample: int, bigendian: bool, bytesperframe: int,
    headersize: int, bytelimit: int)
  {
    /** The descriptions the program writes: its own limits on channels and sample sizes. */
    predicate Writable() {
      && 1 <= samplerate < 0x8000_0000 && 1 <= nchannels <= 64 && 2 <= bytespersample <= 4
      && bytesperframe == nchannels * bytespersample
    }

    function DataSize(nframes: nat): nat
      requires Writable()
    {
      FrameSize();
      nframes * bytesperframe
    }

    lemma FrameSize()
      requires Writable()
      ensures 2 <= bytesperframe <= 256
    {
    }
  }

  /** OutOfModel: the source goes on in a way that this model does not follow. */
  datatype Error = Unreadable | Unsupported | Malformed | BadVersion | OutOfModel

  datatype Result = Ok(sound: Sound) | Failed(error: Error)

  lemma Limits(s: Sound)
    requires s.Writable()
    ensures 0 < s.samplerate < 0x8000_0000 && 1 <= s.nchannels <= 64 && 2 <= s.bytespersample <= 4
    ensures s.bytesperframe == s.nchannels * s.bytespersample
  {
  }

  // ----- numbers in files, on a little-endian host -----

  function Store(x: int, n: nat, swap: bool): (b: seq<byte>)
    ensures |b| == n
  {
    if swap then BigEndian(x, n) else Reversed(BigEndian(x, n))
  }

  /** A field of the formats that are always big-endian. */
  function Num(x: int, n: nat): (b: seq<byte>)
    ensures |b| == n
  {
    Store(x, n, true)
  }

  function Load(b: seq<byte>, swap: bool): nat {
    Unsigned(if swap then b else Reversed(b))
  }

  /** A stored number is loaded again, as far as its bytes reach. */
  lemma LoadStore(x: int, n: nat, swap: bool)
    ensures Load(Store(x, n, swap), swap) == x % Span(n)
    ensures 0 <= x < Span(n) ==> Load(Store(x, n, swap), swap) == x
  {
    ReversedTwice(BigEndian(x, n));
    UnsignedBytes(x, n);
    if 0 <= x < Span(n) { DivIs(x, Span(n), 0, x); }
  }

  /** A header buffer to begin with. */
  function ZeroBuffer(): (b: seq<byte>)
    ensures |b| == SFHDRBUFSIZE
  {
    seq(SFHDRBUFSIZE, _ => 0)
  }

  /** Conversion of an unsigned to a signed number of n bytes. */
  function Signed(u: int, n: nat): int {
    if 2 * u >= Span(n) then u - Span(n) else u
  }

  lemma SignedSmall(u: nat)
    ensures u < 0x8000_0000 ==> Signed(u, 4) == u
    ensures u < 0x8000_0000_0000_0000 ==> Signed(u, 8) == u
  {
    Span8();
  }

  lemma Span8()
    ensures Span(8) == 0x1_0000_0000_0000_0000 && Span(4) == 0x1_0000_0000 && Span(2) == 0x1_0000
  {
    Spans();
    assert Span(8) == 256 * (256 * (256 * (256 * Span(4))));
  }

  /** The bytes f stand in buf at position off. */
  predicate At(buf: seq<byte>, off: nat, f: seq<byte>) {
    off + |f| <= |buf| && buf[off..off + |f|] == f
  }

  function Part(buf: seq<byte>, off: nat, n: nat): (b: seq<byte>)
    ensures |b| == n
  {
    if off + n <= |buf| then buf[off..off + n] else seq(n, _ => 0)
  }

  function Field(buf: seq<byte>, off: nat, n: nat, swap: bool): nat {
    Load(Part(buf, off, n), swap)
  }

  lemma FieldIs(buf: seq<byte>, off: nat, x: int, n: nat, swap: bool)
    requires At(buf, off, Store(x, n, swap)) && 0 <= x < Span(n)
    ensures Field(buf, off, n, swap) == x
  {
    hide Store, Load, Span;
    LoadStore(x, n, swap);
  }

  /** A field of a chunk is a field of the file the chunk stands in. */
  lemma AtAt(buf: seq<byte>, off: nat, chunk: seq<byte>, inner: nat, f: seq<byte>)
    requires At(buf, off, chunk) && At(chunk, inner, f)
    ensures At(buf, off + inner, f)
  {
    var p := buf[off + inner..off + inner + |f|];
    forall k: nat | k < |f| ensures p[k] == f[k] {
      assert f[k] == chunk[inner..inner + |f|][k] == chunk[inner + k];
      assert chunk[inner + k] == buf[off..off + |chunk|][inner + k] == buf[off + (inner + k)];
    }
    assert p == f;
  }

  /** A number stored in a chunk is read from the file the chunk stands in. */
  lemma FieldIn(buf: seq<byte>, off: nat, chunk: seq<byte>, inner: nat, x: int, n: nat, swap: bool)
    requires At(buf, off, chunk) && At(chunk, inner, Store(x, n, swap)) && 0 <= x < Span(n)
    ensures Field(buf, off + inner, n, swap) == x
  {
    hide Store, At, Field;
    AtAt(buf, off, chunk, inner, Store(x, n, swap));
    FieldIs(buf, off + inner, x, n, swap);
  }

  lemma EndAt(pre: seq<byte>, mid: seq<byte>)
    ensures At(pre + mid, |pre|, mid)
  {
  }

  lemma FourAt(a: seq<byte>, b: seq<byte>, c: seq<byte>, d: seq<byte>)
    ensures var h := a + b + c + d;
            At(h, 0, a) && At(h, |a|, b) && At(h, |a| + |b|, c) && At(h, |a| + |b| + |c|, d)
  {
  }

  lemma PrefixAt(h: seq<byte>, data: seq<byte>)
    ensures At(h + data, 0, h)
  {
  }

  /** A field of a piece is a field of the piece with more behind it. */
  lemma AtWhole(h: seq<byte>, data: seq<byte>, off: nat, f: seq<byte>)
    requires At(h, off, f)
    ensures At(h + data, off, f)
  {
    PrefixAt(h, data);
    AtAt(h + data, 0, h, off, f);
  }

  lemma AtPart(buf: seq<byte>, off: nat, f: seq<byte>)
    requires At(buf, off, f)
    ensures Part(buf, off, |f|) == f
  {
  }

  /** What an array of bytes is after `bytes` has been copied into it. */
  function Patch(buf: seq<byte>, off: nat, bytes: seq<byte>): (r: seq<byte>)
    requires off + |bytes| <= |buf|
    ensures |r| == |buf|
  {
    buf[..off] + bytes + buf[off + |bytes|..]
  }

  // ----- stored numbers in plain numbers -----

  lemma StoreAt(b: seq<byte>, p: nat, x: int, n: nat, swap: bool)
    requires 2 <= n <= 4 && At(b, p, Store(x, n, swap))
    ensures var last := if swap then p + n - 1 else p;
            var on := if swap then -1 else 1;
            && b[last] as int == x % 256 && b[last + on] as int == x / 256 % 256
            && (n == 4 ==> b[last + 2 * on] as int == x / 256 / 256 % 256
                           && b[last + 3 * on] as int == x / 256 / 256 / 256 % 256)
  {
    BigEndianAt(x, n);
    var c := b[p..p + n];
    assert forall k: nat :: k < n ==> c[k] == b[p + k];
    hide BigEndian;
  }

  /** A number stored in two or four bytes, as far as they reach. */
  lemma StoredNumber(b: seq<byte>, p: nat, x: int, swap: bool)
    ensures At(b, p, Store(x, 2, swap)) ==> (if swap then Be2(b, p) else Le2(b, p)) == x % 0x1_0000
    ensures At(b, p, Store(x, 4, swap)) ==> (if swap then Be4(b, p) else Le4(b, p)) == x % 0x1_0000_0000
  {
    if At(b, p, Store(x, 2, swap)) { StoreAt(b, p, x, 2, swap); }
    if At(b, p, Store(x, 4, swap)) { StoreAt(b, p, x, 4, swap); }
    hide At, Store;
    Digits(x);
  }

  /** What a field of two or four bytes is read as. */
  lemma FieldNumber(b: seq<byte>, p: nat)
    ensures p + 2 <= |b| ==> Field(b, p, 2, false) == Le2(b, p) && Field(b, p, 2, true) == Be2(b, p)
    ensures p + 4 <= |b| ==> Field(b, p, 4, false) == Le4(b, p) && Field(b, p, 4, true) == Be4(b, p)
  {
    hide Unsigned;
    if p + 2 <= |b| {
      UnsignedIs(Part(b, p, 2));
      UnsignedIs(Reversed(Part(b, p, 2)));
    }
    if p + 4 <= |b| {
      UnsignedIs(Part(b, p, 4));
      UnsignedIs(Reversed(Part(b, p, 4)));
    }
  }

  lemma SignedFour(u: nat)
    ensures Signed(u, 4) == if u >= 0x8000_0000 then u - 0x1_0000_0000 else u
  {
    Spans();
  }

  /** The same for a number in a chunk of the file. */
  lemma WrappedIn(b: seq<byte>, off: nat, chunk: seq<byte>, inner: nat, x: int, swap: bool)
    requires At(b, off, chunk) && At(chunk, inner, Store(x, 4, swap))
    ensures off + inner + 4 <= |b|
    ensures (if swap then Be4(b, off + inner) else Le4(b, off + inner)) == x % 0x1_0000_0000
  {
    hide Store, Le4, Be4, Le2, Be2;
    AtAt(b, off, chunk, inner, Store(x, 4, swap));
    StoredNumber(b, off + inner, x, swap);
  }

  lemma NumberIn(b: seq<byte>, off: nat, chunk: seq<byte>, inner: nat, x: nat, n: nat, swap: bool)
    requires At(b, off, chunk) && At(chunk, inner, Store(x, n, swap)) && (n == 2 || n == 4)
    requires x < if n == 2 then 0x1_0000 else 0x1_0000_0000
    ensures off + inner + n <= |b|
    ensures n == 2 ==> (if swap then Be2(b, off + inner) else Le2(b, off + inner)) == x
    ensures n == 4 ==> (if swap then Be4(b, off + inner) else Le4(b, off + inner)) == x
  {
    hide Store, Le2, Le4, Be2, Be4;
    AtAt(b, off, chunk, inner, Store(x, n, swap));
    StoredNumber(b, off + inner, x, swap);
  }

  lemma LongIn(b: seq<byte>, off: nat, chunk: seq<byte>, inner: nat, x: int)
    requires At(b, off, chunk) && At(chunk, inner, Num(x, 8))
    ensures off + inner + 8 <= |b| && Be8(b, off + inner) == x % 0x1_0000_0000_0000_0000
  {
    hide Store, Be4;
    AtAt(b, off, chunk, inner, Num(x, 8));
    StoredLong(b, off + inner, x);
  }

  lemma BytesIn(b: seq<byte>, off: nat, chunk: seq<byte>, inner: nat, f: seq<byte>)
    requires At(b, off, chunk) && At(chunk, inner, f)
    ensures off + inner + |f| <= |b| && b[off + inner..off + inner + |f|] == f
  {
    AtAt(b, off, chunk, inner, f);
  }

  lemma Digits(x: int)
    ensures x % 256 + 0x100 * (x / 256 % 256) == x % 0x1_0000
    ensures x % 256 + 0x100 * (x / 256 % 256) + 0x1_0000 * (x / 256 / 256 % 256)
            + 0x100_0000 * (x / 256 / 256 / 256 % 256) == x % 0x1_0000_0000
  {
    ModSplit(x, 0x100);
    ModSplit(x, 0x100_0000);
    ModSplit(x / 256, 0x1_0000);
    ModSplit(x / 256 / 256, 0x100);
  }

  /** And one stored in eight, most significant first. */
  lemma StoredLong(b: seq<byte>, p: nat, x: int)
    requires At(b, p, Num(x, 8))
    ensures Be8(b, p) == x % 0x1_0000_0000_0000_0000
  {
    hide BigEndian, Over;
    var high := Over(x, 4);
    Splits(x, 4);
    var c := b[p..p + 8];
    assert c[..4] == b[p..p + 4] == BigEndian(high, 4) && c[4..] == b[p + 4..p + 8] == BigEndian(x, 4);
    StoredNumber(b, p, high, true);
    StoredNumber(b, p + 4, x, true);
    OverIs(x);
  }

  lemma OverIs(x: int)
    ensures 0x1_0000_0000 * (Over(x, 4) % 0x1_0000_0000) + x % 0x1_0000_0000 == x % 0x1_0000_0000_0000_0000
  {
    OverFour(x);
    hide Over;
    ModTwice(x, 0x1_0000_0000);
  }

  lemma OverFour(x: int)
    ensures Over(x, 4) == x / 0x1_0000_0000
  {
    assert Over(x, 4) == x / 256 / 256 / 256 / 256;
  }

  lemma ModTwice(x: int, p: int)
    requires p > 0
    ensures p * (x / p % p) + x % p == x % (p * p)
  {
    var h := x / p;
    DivMod(x, p);
    DivMod(h, p);
    MulMono(p, h % p, p - 1);
    assert p * (p * (h / p)) == (p * p) * (h / p);
    assert p * h == p * (p * (h / p)) + p * (h % p);
    DivIs(x, p * p, h / p, p * (h % p) + x % p);
  }

  lemma {:induction false} Splits(x: int, n: nat)
    ensures n <= 4 ==> BigEndian(x, 4 + n) == BigEndian(Over(x, n), 4) + BigEndian(x, n)
    decreases n
  {
    if 0 < n <= 4 { Splits(x / 256, n - 1); }
  }

  function Over(x: int, n: nat): int
    decreases n
  {
    if n == 0 then x else Over(x / 256, n - 1)
  }

  // ----- chunks in general -----

  /** A chunk as files have it: its name, its size in n bytes, its body, and a byte of padding if that is odd. */
  datatype Chunk = Chunk(id: seq<byte>, body: seq<byte>)

  function Piece(c: Chunk, n: nat, swap: bool): seq<byte> {
    c.id + Store(|c.body|, n, swap) + c.body + if |c.body| % 2 == 1 then [0] else []
  }

  function Pieces(cs: seq<Chunk>, n: nat, swap: bool): seq<byte> {
    if cs == [] then [] else Piece(cs[0], n, swap) + Pieces(cs[1..], n, swap)
  }

  lemma PieceFields(c: Chunk, rest: seq<byte>, n: nat, swap: bool)
    requires |c.id| == 4
    ensures var l, k := Piece(c, n, swap) + rest, |Piece(c, n, swap)|;
            && k == 4 + n + |c.body| + |c.body| % 2 && At(l, 0, c.id) && At(l, 4, Store(|c.body|, n, swap))
            && At(l, k, rest)
  {
    hide Store;
  }

  // ----- files -----

  function Written(data: seq<byte>, off: nat, bytes: seq<byte>): (r: seq<byte>) {
    if off + |bytes| <= |data| then Patch(data, off, bytes)
    else if off <= |data| then data[..off] + bytes
    else data + seq(off - |data|, _ => 0) + bytes
  }

  /** Byte by byte: what is written from `off` on, what was there elsewhere, and zeros in a gap. */
  lemma WrittenIs(data: seq<byte>, off: nat, bytes: seq<byte>)
    ensures var r := Written(data, off, bytes);
            && |r| == (if off + |bytes| > |data| then off + |bytes| else |data|)
            && forall k: nat :: k < |r| ==>
                 r[k] == if off <= k < off + |bytes| then bytes[k - off] else if k < |data| then data[k] else 0
  {
  }

  lemma WrittenAt(data: seq<byte>, off: nat, bytes: seq<byte>)
    ensures At(Written(data, off, bytes), off, bytes)
  {
  }

  /** A number written at an offset stands there. */
  lemma WrittenNumber(data: seq<byte>, off: nat, x: int, swap: bool)
    ensures var w := Written(data, off, Store(x, 4, swap));
            |w| >= off + 4 && (if swap then Be4(w, off) else Le4(w, off)) == x % 0x1_0000_0000
  {
    WrittenAt(data, off, Store(x, 4, swap));
    hide Store, Written, Be4, Le4, Be2, Le2;
    StoredNumber(Written(data, off, Store(x, 4, swap)), off, x, swap);
  }

  class File {
    var data: seq<byte>

    method Write(off: nat, bytes: seq<byte>)
      modifies this
      ensures data == Written(old(data), off, bytes)
    {
      data := Written(data, off, bytes);
    }
  }

  /** fd_read gets all it is asked for. */
  predicate Reads(file: seq<byte>, off: nat, size: nat) {
    size == 0 || off + size <= |file|
  }

  function ReadBytes(file: seq<byte>, off: nat, size: nat): (b: seq<byte>)
    requires Reads(file, off, size)
    ensures |b| == size
  {
    if size == 0 then [] else file[off..off + size]
  }
}
