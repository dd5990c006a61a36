// CAF files (src/d_soundfile_caf.c): big-endian chunks with 64-bit sizes, the sample rate as a double.
module CafHeader {
  import opened Arith
  import opened ByteOrder
  import opened SoundHeader

  const CAFHEADSIZE: nat := 8
  const CAFCHUNKSIZE: nat := 12
  const CAFDESCSIZE: nat := 44
  const CAFDATASIZE: nat := 16
  const HEADERSIZE: nat := 68
  const CAFMAXBYTES: int := 0x7fff_ffff_ffff_ffff
  const CAF_UNKNOWN_SIZE: int := 0xffff_ffff_ffff_ffff

  const CAFF: seq<byte> := [0x63, 0x61, 0x66, 0x66]
  const DESC: seq<byte> := [0x64, 0x65, 0x73, 0x63]
  const LPCM: seq<byte> := [0x6c, 0x70, 0x63, 0x6d]
  const DATA: seq<byte> := [0x64, 0x61, 0x74, 0x61]

  /** The machine's doubles: the bits of an integer as a double, and the integer part of a double. */
  datatype Doubles = Doubles(bits: int -> int, value: int -> int)
  {
    /** Doubles hold this integer exactly. */
    predicate Holds(n: int) { 0 <= bits(n) < 0x1_0000_0000_0000_0000 && value(bits(n)) == n }
  }

  // ----- the header as the format has it -----

  function Flags(s: Sound): int {
    (if s.bytespersample == 4 then 1 else 0) + (if s.bigendian then 0 else 2)
  }

  function DescChunk(s: Sound, dbl: Doubles): (c: seq<byte>)
    ensures |c| == CAFDESCSIZE
  {
    DESC + Num(CAFDESCSIZE - CAFCHUNKSIZE, 8) + Num(dbl.bits(s.samplerate), 8) + LPCM + Num(Flags(s), 4)
    + Num(s.bytesperframe, 4) + Num(1, 4) + Num(s.nchannels, 4) + Num(s.bytespersample * 8, 4)
  }

  /** `size` is the data chunk's, the edit count included. */
  function Header(s: Sound, dbl: Doubles, size: int): (h: seq<byte>)
    ensures |h| == HEADERSIZE
  {
    CAFF + Num(1, 2) + Num(0, 2) + DescChunk(s, dbl) + DATA + Num(size, 8) + Num(0, 4)
  }

  function Whole(s: Sound, dbl: Doubles, size: int, data: seq<byte>): seq<byte> {
    Header(s, dbl, size) + data
  }

  lemma DescFields(s: Sound, dbl: Doubles)
    ensures var c := DescChunk(s, dbl);
            && At(c, 0, DESC) && At(c, 4, Num(32, 8)) && At(c, 12, Num(dbl.bits(s.samplerate), 8)) && At(c, 20, LPCM)
            && At(c, 24, Num(Flags(s), 4)) && At(c, 28, Num(s.bytesperframe, 4)) && At(c, 32, Num(1, 4))
            && At(c, 36, Num(s.nchannels, 4)) && At(c, 40, Num(s.bytespersample * 8, 4))
  {
    hide Num, At;
    var a, b := Num(32, 8), Num(dbl.bits(s.samplerate), 8);
    var d, e, f := Num(Flags(s), 4), Num(s.bytesperframe, 4), Num(1, 4);
    var g, h := Num(s.nchannels, 4), Num(s.bytespersample * 8, 4);
    var front, back := DESC + a + b + LPCM, d + e + f + g + h;
    assert DescChunk(s, dbl) == front + back;
    hide DescChunk;
    FourAt(DESC, a, b, LPCM);
    FourAt(d, e, f, g);
    EndAt(front, back);
    EndAt(d + e + f + g, h);
    AtWhole(front, back, 0, DESC);
    AtWhole(front, back, 4, a);
    AtWhole(front, back, 12, b);
    AtWhole(front, back, 20, LPCM);
    AtWhole(d + e + f + g, h, 0, d);
    AtWhole(d + e + f + g, h, 4, e);
    AtWhole(d + e + f + g, h, 8, f);
    AtWhole(d + e + f + g, h, 12, g);
    AtAt(front + back, 24, back, 0, d);
    AtAt(front + back, 24, back, 4, e);
    AtAt(front + back, 24, back, 8, f);
    AtAt(front + back, 24, back, 12, g);
    AtAt(front + back, 24, back, 16, h);
  }

  lemma HeaderFields(s: Sound, dbl: Doubles, size: int)
    ensures var h := Header(s, dbl, size);
            && At(h, 0, CAFF) && At(h, 4, Num(1, 2)) && At(h, 6, Num(0, 2)) && At(h, 8, DescChunk(s, dbl))
            && At(h, 52, DATA) && At(h, 56, Num(size, 8)) && At(h, 64, Num(0, 4))
  {
    hide Store, DescChunk;
  }

  // ----- the same in plain numbers -----

  /** The bytes of a file that starts with a header: what stands at which offset. */
  ghost predicate Bytes(f: seq<byte>, s: Sound, dbl: Doubles, size: int) {
    && |f| >= 68
    && f[..4] == [0x63, 0x61, 0x66, 0x66] && Be2(f, 4) == 1 && Be2(f, 6) == 0               // "caff"
    && f[8..12] == [0x64, 0x65, 0x73, 0x63] && Be8(f, 12) == 32                             // "desc"
    && Be8(f, 20) == dbl.bits(s.samplerate) % 0x1_0000_0000_0000_0000
    && f[28..32] == [0x6c, 0x70, 0x63, 0x6d]                                                // "lpcm"
    && Be4(f, 32) == (if s.bytespersample == 4 then 1 else 0) + (if s.bigendian then 0 else 2)
    && Be4(f, 36) == s.nchannels * s.bytespersample && Be4(f, 40) == 1 && Be4(f, 44) == s.nchannels
    && Be4(f, 48) == 8 * s.bytespersample
    && f[52..56] == [0x64, 0x61, 0x74, 0x61] && Be8(f, 56) == size % 0x1_0000_0000_0000_0000  // "data"
    && Be4(f, 64) == 0
  }

  lemma DescStartBytes(f: seq<byte>, s: Sound, dbl: Doubles)
    requires At(f, 8, DescChunk(s, dbl))
    ensures |f| >= 36
    ensures f[8..12] == DESC && Be8(f, 12) == 32 && Be8(f, 20) == dbl.bits(s.samplerate) % 0x1_0000_0000_0000_0000
    ensures f[28..32] == LPCM && Be4(f, 32) == Flags(s)
  {
    var c := DescChunk(s, dbl);
    DescFields(s, dbl);
    hide Store, DescChunk, Be4, Be8, At;
    BytesIn(f, 8, c, 0, DESC);
    LongIn(f, 8, c, 4, 32);
    LongIn(f, 8, c, 12, dbl.bits(s.samplerate));
    BytesIn(f, 8, c, 20, LPCM);
    NumberIn(f, 8, c, 24, Flags(s), 4, true);
  }

  lemma DescEndBytes(f: seq<byte>, s: Sound, dbl: Doubles)
    requires s.Writable() && At(f, 8, DescChunk(s, dbl))
    ensures |f| >= 52 && Be4(f, 36) == s.bytesperframe && Be4(f, 40) == 1
    ensures Be4(f, 44) == s.nchannels && Be4(f, 48) == 8 * s.bytespersample
  {
    var c := DescChunk(s, dbl);
    DescFields(s, dbl);
    s.FrameSize();
    Limits(s);
    hide Store, DescChunk, Be4, At, Sound.Writable;
    NumberIn(f, 8, c, 28, s.bytesperframe, 4, true);
    NumberIn(f, 8, c, 32, 1, 4, true);
    NumberIn(f, 8, c, 36, s.nchannels, 4, true);
    NumberIn(f, 8, c, 40, s.bytespersample * 8, 4, true);
  }

  /** Every byte of the header, by its offset in the file. */
  lemma HeaderBytes(f: seq<byte>, s: Sound, dbl: Doubles, size: int)
    requires s.Writable() && At(f, 0, Header(s, dbl, size))
    ensures Bytes(f, s, dbl, size)
  {
    hide Store, DescChunk, Header, Be2, Be4, Be8, At, Sound.Writable;
    var h := Header(s, dbl, size);
    HeaderFields(s, dbl, size);
    Limits(s);
    AtAt(f, 0, h, 8, DescChunk(s, dbl));
    DescStartBytes(f, s, dbl);
    DescEndBytes(f, s, dbl);
    BytesIn(f, 0, h, 0, CAFF);
    NumberIn(f, 0, h, 4, 1, 2, true);
    NumberIn(f, 0, h, 6, 0, 2, true);
    BytesIn(f, 0, h, 52, DATA);
    LongIn(f, 0, h, 56, size);
    NumberIn(f, 0, h, 64, 0, 4, true);
  }

  lemma WrittenBytes(f: seq<byte>, before: seq<byte>, s: Sound, dbl: Doubles, size: int)
    requires s.Writable() && f == Written(before, 0, Header(s, dbl, size))
    ensures Bytes(f, s, dbl, size)
  {
    WrittenAt(before, 0, Header(s, dbl, size));
    HeaderBytes(f, s, dbl, size);
    hide Bytes, Header;
  }

  lemma SizeIs(s: Sound, nframes: nat)
    requires s.Writable()
    ensures s.DataSize(nframes) == nframes * (s.nchannels * s.bytespersample)
  {
  }

  /** The unknown size and 4 wrap round to 3. */
  lemma UnknownBytes(f: seq<byte>, s: Sound, dbl: Doubles)
    requires Bytes(f, s, dbl, CAF_UNKNOWN_SIZE + 4)
    ensures Bytes(f, s, dbl, 3)
  {
    hide Be2, Be4, Be8;
  }

  lemma SizeBytes(before: seq<byte>, size: nat)
    ensures var f := Written(before, 56, Num(size, 8));
            && |f| >= 64 && Be8(f, 56) == size % 0x1_0000_0000_0000_0000
            && (|before| >= 68 ==>
                  |f| == |before| && forall k: nat :: k < |f| && !(56 <= k < 64) ==> f[k] == before[k])
  {
    WrittenAt(before, 56, Num(size, 8));
    WrittenIs(before, 56, Num(size, 8));
    hide Store, Be8;
    StoredLong(Written(before, 56, Num(size, 8)), 56, size);
  }

  // ----- writing -----

  /** No frames are written as the unknown size -- to which 4 is then added for the edit count. */
  method WriteHeader(file: File, s: Sound, dbl: Doubles, nframes: nat) returns (written: nat)
    requires s.Writable()
    modifies file
    ensures written == HEADERSIZE
    ensures file.data == Written(old(file.data), 0,
                                 Header(s, dbl, (if nframes > 0 then s.DataSize(nframes) else CAF_UNKNOWN_SIZE) + 4))
    ensures Bytes(file.data, s, dbl, if nframes > 0 then nframes * (s.nchannels * s.bytespersample) + 4 else 3)
  {
    hide Store, Written, Bytes;
    var datasize := if nframes > 0 then s.DataSize(nframes) else CAF_UNKNOWN_SIZE;
    var buf := CAFF + Num(1, 2) + Num(0, 2);
    var flags := 0;
    if s.bytespersample == 4 { flags := flags + 1; }
    if !s.bigendian { flags := flags + 2; }
    var desc := DESC + Num(CAFDESCSIZE - CAFCHUNKSIZE, 8) + Num(dbl.bits(s.samplerate), 8) + LPCM + Num(flags, 4)
                + Num(s.bytesperframe, 4) + Num(1, 4) + Num(s.nchannels, 4) + Num(s.bytespersample * 8, 4);
    assert desc == DescChunk(s, dbl);
    hide DescChunk, Sound.DataSize, Sound.Writable;
    buf := buf + desc;
    buf := buf + (DATA + Num(datasize + 4, 8) + Num(0, 4));
    assert buf == Header(s, dbl, datasize + 4);
    file.Write(0, buf);
    written := |buf|;
    WrittenBytes(file.data, old(file.data), s, dbl, datasize + 4);
    if nframes == 0 { UnknownBytes(file.data, s, dbl); } else { SizeIs(s, nframes); }
  }

  method UpdateHeader(file: File, s: Sound, nframes: nat)
    requires s.Writable()
    modifies file
    ensures file.data == Written(old(file.data), 56, Num(s.DataSize(nframes) + 4, 8))
    ensures |file.data| >= 64
    ensures Be8(file.data, 56) == (nframes * (s.nchannels * s.bytespersample) + 4) % 0x1_0000_0000_0000_0000
    ensures |old(file.data)| >= 68 ==>
              |file.data| == |old(file.data)|
              && forall k: nat :: k < |file.data| && !(56 <= k < 64) ==> file.data[k] == old(file.data)[k]
  {
    SizeBytes(file.data, s.DataSize(nframes) + 4);
    hide Store, Be8, Written;
    file.Write(CAFHEADSIZE + CAFDESCSIZE + 4, Num(s.DataSize(nframes) + 4, 8));
  }

  /** Updating a header, whatever size it was written with, to n > 0 frames makes it the header for n frames. */
  lemma UpdateIsWrite(s: Sound, dbl: Doubles, before: int, nframes: nat, data: seq<byte>)
    requires s.Writable() && nframes > 0
    ensures Written(Whole(s, dbl, before, data), 56, Num(s.DataSize(nframes) + 4, 8))
            == Whole(s, dbl, s.DataSize(nframes) + 4, data)
  {
    hide Written, Whole, Num, Sound.Writable;
    PatchSize(s, dbl, before, s.DataSize(nframes) + 4, data);
  }

  lemma PatchSize(s: Sound, dbl: Doubles, before: int, size: int, data: seq<byte>)
    ensures Written(Whole(s, dbl, before, data), 56, Num(size, 8)) == Whole(s, dbl, size, data)
  {
    hide Store, DescChunk;
  }

  // ----- reading -----

  datatype Format = Format(nchannels: int, samplerate: int, bytespersample: int, bigendian: bool)

  datatype FormatResult = Good(format: Format) | Bad(error: Error)

  /** The description chunk's fields. */
  function ReadDesc(c: seq<byte>, dbl: Doubles): FormatResult {
    var flags, bytes := Field(c, 24, 4, true), Field(c, 40, 4, true) / 8;
    if Part(c, 20, 4) != LPCM then Bad(Unsupported)
    else if bytes != 2 && bytes != 3 && bytes != 4 then Bad(Unsupported)
    else if bytes == 4 && flags % 2 == 0 then Bad(Unsupported)
    else Good(Format(Signed(Field(c, 36, 4, true), 4), dbl.value(Field(c, 12, 8, true)), bytes, flags / 2 % 2 == 0))
  }

  /** In numbers: what a description must say to be accepted, and what is then taken from it. */
  lemma DescAccepted(c: seq<byte>, dbl: Doubles)
    requires |c| == CAFDESCSIZE
    ensures var flags, bits, channels, r := Be4(c, 24), Be4(c, 40), Be4(c, 36), ReadDesc(c, dbl);
            && (r.Good? <==> && c[20..24] == [0x6c, 0x70, 0x63, 0x6d]
                             && (16 <= bits < 32 || (32 <= bits < 40 && flags % 2 == 1)))
            && (r.Good? ==> && r.format.bytespersample == bits / 8 && r.format.bigendian == (flags / 2 % 2 == 0)
                            && r.format.nchannels == (if channels >= 0x8000_0000 then channels - 0x1_0000_0000
                                                      else channels))
            && (r.Bad? ==> r.error == Unsupported)
  {
    FieldNumber(c, 24);
    FieldNumber(c, 36);
    FieldNumber(c, 40);
    SignedFour(Be4(c, 36));
    hide Field, Signed, Be4;
  }

  function ChunkSize(file: seq<byte>, off: nat): int {
    Signed(Field(file, off + 4, 8, true), 8)
  }

  /** Where the next chunk starts; a negative size can lead back. */
  function NextOffset(off: nat, size: int): int {
    var seekto := off + CAFCHUNKSIZE + size;
    if seekto % 2 == 1 then seekto + 1 else seekto
  }

  /** The scan from the chunk after the one at `off` to the sound data. */
  function ScanOn(file: seq<byte>, off: nat, size: int, format: Format): Result
    decreases |file| - off
  {
    var next := NextOffset(off, size);
    if next <= off then Failed(OutOfModel)
    else if next + CAFCHUNKSIZE > |file| then Failed(Unreadable)
    else if file[next..next + 4] == DATA then
      var headersize, size := next + CAFDATASIZE, ChunkSize(file, next);
      Ok(Sound(format.samplerate, format.nchannels, format.bytespersample, format.bigendian,
               format.nchannels * format.bytespersample, headersize,
               if size != -1 then size - 4
               else if 0 <= |file| - headersize <= CAFMAXBYTES then |file| - headersize else CAFMAXBYTES))
    else ScanOn(file, next, ChunkSize(file, next), format)
  }

  /** What reading a file's header comes to. */
  function Read(file: seq<byte>, dbl: Doubles): Result {
    if |file| < CAFHEADSIZE + CAFDESCSIZE || file[..4] != CAFF then Failed(Unreadable)
    else if Field(file, 4, 2, true) != 1 || Field(file, 6, 2, true) != 0 then Failed(BadVersion)
    else if file[8..12] != DESC then Failed(Unreadable)
    else
      var r := ReadDesc(file[8..52], dbl);
      if r.Bad? then Failed(r.error) else ScanOn(file, CAFHEADSIZE, ChunkSize(file, CAFHEADSIZE), r.format)
  }

  /** The reader, chunk by chunk. */
  method ReadHeader(file: File, dbl: Doubles) returns (r: Result)
    ensures r == Read(file.data, dbl)
  {
    hide ReadDesc, Field, Signed;
    var data := file.data;
    if |data| < CAFHEADSIZE + CAFDESCSIZE || data[..4] != CAFF { return Failed(Unreadable); }
    if Field(data, 4, 2, true) != 1 { return Failed(BadVersion); }
    if Field(data, 6, 2, true) != 0 { return Failed(BadVersion); }
    var desc := data[8..52];
    if data[8..12] != DESC { return Failed(Unreadable); }
    var d := ReadDesc(desc, dbl);
    if d.Bad? { return Failed(d.error); }
    var format, headersize, chunksize := d.format, CAFHEADSIZE, ChunkSize(data, CAFHEADSIZE);
    hide ChunkSize;
    while true
      invariant Read(data, dbl) == ScanOn(data, headersize, chunksize, format)
      invariant headersize <= |data|
      decreases |data| - headersize
    {
      var seekto := headersize + CAFCHUNKSIZE + chunksize;
      if seekto % 2 == 1 { seekto := seekto + 1; }
      if seekto <= headersize { return Failed(OutOfModel); }
      if seekto + CAFCHUNKSIZE > |data| { return Failed(Unreadable); }
      headersize := seekto;
      chunksize := ChunkSize(data, headersize);
      if data[headersize..headersize + 4] == DATA {
        headersize := headersize + CAFDATASIZE;
        var bytelimit := chunksize - 4;
        if chunksize == -1 {
          bytelimit := |data| - headersize;
          if bytelimit > CAFMAXBYTES || bytelimit < 0 { bytelimit := CAFMAXBYTES; }
        }
        return Ok(Sound(format.samplerate, format.nchannels, format.bytespersample, format.bigendian,
                        format.nchannels * format.bytespersample, headersize, bytelimit));
      }
    }
  }

  // ----- the round trip -----

  lemma DescNumbers(s: Sound, dbl: Doubles)
    requires s.Writable() && dbl.Holds(s.samplerate)
    ensures var c := DescChunk(s, dbl);
            && Field(c, 12, 8, true) == dbl.bits(s.samplerate) && Field(c, 24, 4, true) == Flags(s)
            && Field(c, 36, 4, true) == s.nchannels && Field(c, 40, 4, true) == s.bytespersample * 8
            && Part(c, 20, 4) == LPCM
  {
    var c := DescChunk(s, dbl);
    assert 1 <= s.nchannels <= 64 && 2 <= s.bytespersample <= 4;
    hide Store, DescChunk, At, Field, Span, Part, Sound.Writable;
    DescFields(s, dbl);
    Span8();
    FieldIs(c, 12, dbl.bits(s.samplerate), 8, true);
    FieldIs(c, 24, Flags(s), 4, true);
    FieldIs(c, 36, s.nchannels, 4, true);
    FieldIs(c, 40, s.bytespersample * 8, 4, true);
    AtPart(c, 20, LPCM);
  }

  lemma DescRead(s: Sound, dbl: Doubles)
    requires s.Writable() && dbl.Holds(s.samplerate)
    ensures ReadDesc(DescChunk(s, dbl), dbl) == Good(Format(s.nchannels, s.samplerate, s.bytespersample, s.bigendian))
  {
    assert 1 <= s.nchannels <= 64 && 2 <= s.bytespersample <= 4;
    hide DescChunk, Field, Part, Signed, Sound.Writable, Flags;
    FlagBits(s);
    DescNumbers(s, dbl);
    SignedSmall(s.nchannels);
    assert s.bytespersample * 8 / 8 == s.bytespersample;
  }

  lemma FlagBits(s: Sound)
    ensures (Flags(s) % 2 == 0 <==> s.bytespersample != 4) && (Flags(s) / 2 % 2 == 0 <==> s.bigendian)
  {
  }

  /** The fields of a file that starts with a written header. */
  lemma WholeFields(s: Sound, dbl: Doubles, size: int, data: seq<byte>)
    ensures var file := Whole(s, dbl, size, data);
            && |file| >= HEADERSIZE && At(file, 0, CAFF) && At(file, 8, DescChunk(s, dbl)) && At(file, 52, DATA)
            && At(file, 8, DESC) && At(file, 4, Num(1, 2)) && At(file, 6, Num(0, 2))
            && Field(file, 4, 2, true) == 1 && Field(file, 6, 2, true) == 0
            && Field(file, 12, 8, true) == 32
            && Field(file, 56, 8, true) == size % 0x1_0000_0000_0000_0000
  {
    var h, file, c := Header(s, dbl, size), Whole(s, dbl, size, data), DescChunk(s, dbl);
    hide Store, DescChunk, Header, At, Field, Span;
    HeaderFields(s, dbl, size);
    DescFields(s, dbl);
    PrefixAt(h, data);
    AtAt(file, 0, h, 0, CAFF);
    AtAt(file, 0, h, 8, c);
    AtAt(file, 8, c, 0, DESC);
    AtAt(file, 0, h, 52, DATA);
    AtAt(file, 0, h, 4, Num(1, 2));
    AtAt(file, 0, h, 6, Num(0, 2));
    Span8();
    FieldIn(file, 0, h, 4, 1, 2, true);
    FieldIn(file, 0, h, 6, 0, 2, true);
    FieldIn(file, 8, c, 4, 32, 8, true);
    AtAt(file, 0, h, 56, Num(size, 8));
    FieldMod(file, 56, size);
  }

  lemma FieldMod(buf: seq<byte>, off: nat, x: int)
    requires At(buf, off, Num(x, 8))
    ensures Field(buf, off, 8, true) == x % Span(8)
  {
    hide Store, Load, Span;
    LoadStore(x, 8, true);
  }

  lemma NextIs(off: nat, n: nat)
    requires off % 2 == 0
    ensures NextOffset(off, n) == off + 12 + n + n % 2 && NextOffset(off, n) % 2 == 0
  {
  }

  lemma SizeAt(file: seq<byte>, off: nat, n: nat)
    requires At(file, off + 4, Num(n, 8)) && n < 0x8000_0000_0000_0000
    ensures ChunkSize(file, off) == n
  {
    hide Store, Field, Signed, At;
    FieldMod(file, off + 4, n);
    Span8();
    SignedSmall(n);
    assert n % 0x1_0000_0000_0000_0000 == n;
  }

  lemma ReadStart(s: Sound, dbl: Doubles, file: seq<byte>)
    requires s.Writable() && dbl.Holds(s.samplerate) && At(file, 0, CAFF) && At(file, 4, Num(1, 2))
    requires At(file, 6, Num(0, 2)) && At(file, 8, DescChunk(s, dbl))
    ensures Read(file, dbl) == ScanOn(file, 8, 32, Format(s.nchannels, s.samplerate, s.bytespersample, s.bigendian))
  {
    hide DescChunk, ReadDesc, Field, Signed, At, Store, Read, ScanOn, ChunkSize, Span, Sound.Writable, Doubles.Holds;
    StartIs(file, DescChunk(s, dbl));
    DescFields(s, dbl);
    AtAt(file, 8, DescChunk(s, dbl), 4, Num(32, 8));
    BytesIn(file, 8, DescChunk(s, dbl), 0, DESC);
    DescRead(s, dbl);
    VersionIs(file);
    SizeAt(file, 8, 32);
    ReadIs(file, dbl, Format(s.nchannels, s.samplerate, s.bytespersample, s.bigendian));
  }

  lemma VersionIs(file: seq<byte>)
    requires At(file, 4, Num(1, 2)) && At(file, 6, Num(0, 2))
    ensures Field(file, 4, 2, true) == 1 && Field(file, 6, 2, true) == 0
  {
    Span8();
    hide Field, At, Store, Span;
    FieldIs(file, 4, 1, 2, true);
    FieldIs(file, 6, 0, 2, true);
  }

  lemma ReadIs(file: seq<byte>, dbl: Doubles, format: Format)
    requires |file| >= 52 && file[..4] == CAFF && Field(file, 4, 2, true) == 1 && Field(file, 6, 2, true) == 0
    requires file[8..12] == DESC && ReadDesc(file[8..52], dbl) == Good(format) && ChunkSize(file, 8) == 32
    ensures Read(file, dbl) == ScanOn(file, 8, 32, format)
  {
    hide ReadDesc, Field, ScanOn, ChunkSize;
  }

  lemma StartIs(file: seq<byte>, c: seq<byte>)
    requires At(file, 0, CAFF) && At(file, 8, c) && |c| == 44
    ensures |file| >= 52 && file[..4] == CAFF && file[8..52] == c
  {
  }

  lemma ScanEnds(file: seq<byte>, off: nat, size: int, format: Format, e: nat, n: int)
    requires e == NextOffset(off, size) > off && e + 16 <= |file| && At(file, e, DATA)
    requires ChunkSize(file, e) == n + 4 >= 0
    ensures ScanOn(file, off, size, format)
            == Ok(Sound(format.samplerate, format.nchannels, format.bytespersample, format.bigendian,
                        format.nchannels * format.bytespersample, e + 16, n))
  {
    hide NextOffset, ChunkSize;
    assert file[e..e + 4] == DATA;
  }

  /**
   * Reading a freshly written header: everything is recovered, and the data size read is the size field,
   * as a signed number, less the edit count.
   */
  lemma RoundTrip(s: Sound, dbl: Doubles, size: int, data: seq<byte>)
    requires s.Writable() && dbl.Holds(s.samplerate) && 0 <= size % 0x1_0000_0000_0000_0000 < 0x8000_0000_0000_0000
    ensures Read(Whole(s, dbl, size, data), dbl)
            == Ok(s.(headersize := HEADERSIZE, bytelimit := size % 0x1_0000_0000_0000_0000 - 4))
  {
    var file, n := Whole(s, dbl, size, data), size % 0x1_0000_0000_0000_0000;
    WholeFields(s, dbl, size, data);
    Limits(s);
    NextIs(8, 32);
    hide Whole, DescChunk, At, Read, ScanOn, NextOffset, Field, Signed, Store, Sound.Writable, Doubles.Holds;
    ReadStart(s, dbl, file);
    SignedSmall(n);
    ScanEnds(file, 8, 32, Format(s.nchannels, s.samplerate, s.bytespersample, s.bigendian), 52, n - 4);
  }

  /**
   * So the header written for n frames is read back exactly when n > 0: for no frames the unknown size
   * has wrapped round, and the size read is -1.
   */
  lemma FramesRecoveredIff(s: Sound, dbl: Doubles, nframes: nat, data: seq<byte>)
    requires s.Writable() && dbl.Holds(s.samplerate) && s.DataSize(nframes) + 4 < 0x8000_0000_0000_0000
    ensures var size := (if nframes > 0 then s.DataSize(nframes) else CAF_UNKNOWN_SIZE) + 4;
            Read(Whole(s, dbl, size, data), dbl) == Ok(s.(headersize := HEADERSIZE, bytelimit := s.DataSize(nframes)))
            <==> nframes > 0
    ensures nframes == 0 ==>
              Read(Whole(s, dbl, CAF_UNKNOWN_SIZE + 4, data), dbl) == Ok(s.(headersize := HEADERSIZE, bytelimit := -1))
  {
    hide Read, Whole, Sound.DataSize, Sound.Writable;
    var n := s.DataSize(nframes);
    if nframes > 0 {
      ReadKnown(s, dbl, n, data);
    } else {
      RoundTrip(s, dbl, CAF_UNKNOWN_SIZE + 4, data);
    }
  }

  lemma ReadKnown(s: Sound, dbl: Doubles, n: nat, data: seq<byte>)
    requires s.Writable() && dbl.Holds(s.samplerate) && n + 4 < 0x8000_0000_0000_0000
    ensures Read(Whole(s, dbl, n + 4, data), dbl) == Ok(s.(headersize := HEADERSIZE, bytelimit := n))
  {
    hide Read, Whole;
    DivIs(n + 4, 0x1_0000_0000_0000_0000, 0, n + 4);
    RoundTrip(s, dbl, n + 4, data);
  }

  // ----- files with other chunks in them -----

  /** Chunks that are none of the reader's business. */
  ghost predicate Foreign(cs: seq<Chunk>) {
    forall i: nat :: i < |cs| ==>
      |cs[i].id| == 4 && cs[i].id != DATA && |cs[i].body| < 0x8000_0000_0000_0000
  }

  /** The reader goes on from a chunk to one at p that is not the sound data, and takes its size. */
  lemma ScanTo(file: seq<byte>, off: nat, size: int, format: Format, p: nat, id: seq<byte>, n: nat)
    requires p == NextOffset(off, size) > off && p + 12 <= |file| && |id| == 4 && At(file, p, id) && id != DATA
    requires ChunkSize(file, p) == n
    ensures ScanOn(file, off, size, format) == ScanOn(file, p, n, format)
  {
    hide NextOffset, ChunkSize;
    assert file[p..p + 4] == id;
  }

  lemma SkipsOne(file: seq<byte>, off: nat, size: int, format: Format, c: Chunk, rest: seq<byte>, p: nat, next: nat)
    requires p == NextOffset(off, size) > off && p % 2 == 0 && p + 12 <= |file|
    requires At(file, p, Piece(c, 8, true) + rest) && next == p + |Piece(c, 8, true)|
    requires |c.id| == 4 && c.id != DATA && |c.body| < 0x8000_0000_0000_0000
    ensures At(file, next, rest) && next == NextOffset(p, |c.body|) > p && next % 2 == 0
    ensures ScanOn(file, off, size, format) == ScanOn(file, p, |c.body|, format)
  {
    hide *;
    PieceFields(c, rest, 8, true);
    AtAt(file, p, Piece(c, 8, true) + rest, 0, c.id);
    AtAt(file, p, Piece(c, 8, true) + rest, 4, Store(|c.body|, 8, true));
    AtAt(file, p, Piece(c, 8, true) + rest, |Piece(c, 8, true)|, rest);
    HeadScanned(file, off, size, format, p, c.id, |c.body|, next);
  }

  lemma HeadScanned(file: seq<byte>, off: nat, size: int, format: Format, p: nat, id: seq<byte>, n: nat, next: nat)
    requires p == NextOffset(off, size) > off && p % 2 == 0 && p + 12 <= |file| && next == p + 12 + n + n % 2
    requires At(file, p, id) && At(file, p + 4, Store(n, 8, true))
    requires |id| == 4 && id != DATA && n < 0x8000_0000_0000_0000
    ensures next == NextOffset(p, n) > p && next % 2 == 0
    ensures ScanOn(file, off, size, format) == ScanOn(file, p, n, format)
  {
    NextIs(p, n);
    NumIs(n);
    hide *;
    SizeAt(file, p, n);
    ScanTo(file, off, size, format, p, id, n);
  }

  lemma NumIs(n: nat)
    ensures Num(n, 8) == Store(n, 8, true)
  {
  }

  lemma ForeignFirst(cs: seq<Chunk>)
    requires Foreign(cs) && cs != []
    ensures |cs[0].id| == 4 && cs[0].id != DATA && |cs[0].body| < 0x8000_0000_0000_0000 && Foreign(cs[1..])
  {
  }

  /** The reader passes any number of them by. */
  lemma {:induction false} SkipsForeign(file: seq<byte>, off: nat, size: int, format: Format, cs: seq<Chunk>,
                                        p: nat, e: nat) returns (o: nat, z: int)
    requires p == NextOffset(off, size) > off && p % 2 == 0 && Foreign(cs) && At(file, p, Pieces(cs, 8, true))
    requires e == p + |Pieces(cs, 8, true)| && e + 12 <= |file|
    ensures e == NextOffset(o, z) > o && ScanOn(file, off, size, format) == ScanOn(file, o, z, format)
    decreases |cs|
  {
    o, z := off, size;
    if cs != [] {
      var next, c, rest := p + |Piece(cs[0], 8, true)|, cs[0], cs[1..];
      assert Pieces(cs, 8, true) == Piece(c, 8, true) + Pieces(rest, 8, true) && e == next + |Pieces(rest, 8, true)|;
      ForeignFirst(cs);
      hide ScanOn, NextOffset, At, Piece, Pieces, Foreign;
      PieceFields(c, [], 8, true);
      SkipsOne(file, off, size, format, c, Pieces(rest, 8, true), p, next);
      o, z := SkipsForeign(file, p, |c.body|, format, rest, next, e);
    }
  }

  /** Everything in front of the sound data of a file with other chunks after the description. */
  function HeadAmong(s: Sound, dbl: Doubles, cs: seq<Chunk>, n: nat): seq<byte> {
    CAFF + Num(1, 2) + Num(0, 2) + DescChunk(s, dbl) + Pieces(cs, 8, true) + DATA + Num(n + 4, 8) + Num(0, 4)
  }

  /**
   * Reading a file that has other chunks between its description and its sound data, padded to even lengths: it is
   * read just as without them, only that the sound data starts later.
   */
  lemma ForeignChunks(s: Sound, dbl: Doubles, cs: seq<Chunk>, n: nat, data: seq<byte>)
    requires s.Writable() && dbl.Holds(s.samplerate) && n + 4 < 0x8000_0000_0000_0000 && Foreign(cs)
    ensures var head := HeadAmong(s, dbl, cs, n);
            Read(head + data, dbl) == Ok(s.(headersize := |head|, bytelimit := n))
  {
    var file := HeadAmong(s, dbl, cs, n) + data;
    var e := 52 + |Pieces(cs, 8, true)|;
    HeadPlaces(s, dbl, cs, n, data, file);
    hide HeadAmong, Pieces, DescChunk, At, Foreign, Read;
    ReadAmong(s, dbl, file, cs, n, e);
  }

  lemma HeadPlaces(s: Sound, dbl: Doubles, cs: seq<Chunk>, n: nat, data: seq<byte>, h: seq<byte>)
    requires h == HeadAmong(s, dbl, cs, n) + data
    ensures var e := 52 + |Pieces(cs, 8, true)|;
            && |HeadAmong(s, dbl, cs, n)| == e + 16 <= |h| && At(h, 0, CAFF) && At(h, 4, Num(1, 2))
            && At(h, 6, Num(0, 2)) && At(h, 8, DescChunk(s, dbl)) && At(h, 52, Pieces(cs, 8, true)) && At(h, e, DATA)
            && At(h, e + 4, Num(n + 4, 8))
  {
    hide Store, DescChunk, Pieces;
  }

  lemma ReadAmong(s: Sound, dbl: Doubles, file: seq<byte>, cs: seq<Chunk>, n: nat, e: nat)
    requires s.Writable() && dbl.Holds(s.samplerate) && n + 4 < 0x8000_0000_0000_0000 && Foreign(cs)
    requires e == 52 + |Pieces(cs, 8, true)| && e + 16 <= |file| && At(file, 0, CAFF) && At(file, 4, Num(1, 2))
    requires At(file, 6, Num(0, 2)) && At(file, 8, DescChunk(s, dbl)) && At(file, 52, Pieces(cs, 8, true))
    requires At(file, e, DATA) && At(file, e + 4, Num(n + 4, 8))
    ensures Read(file, dbl) == Ok(s.(headersize := e + 16, bytelimit := n))
  {
    var format := Format(s.nchannels, s.samplerate, s.bytespersample, s.bigendian);
    Limits(s);
    ReadStart(s, dbl, file);
    hide Pieces, DescChunk, At, Foreign, Read, ScanOn, NextOffset, ChunkSize, Store, Sound.Writable, Doubles.Holds;
    NextIs(8, 32);
    var o, z := SkipsForeign(file, 8, 32, format, cs, 52, e);
    SizeAt(file, e, n + 4);
    ScanEnds(file, o, z, format, e, n);
  }
}
