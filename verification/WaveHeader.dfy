// WAVE files (src/d_soundfile_wave.c): a RIFF file of chunks, little-endian throughout.
module WaveHeader {
  import opened Arith
  import opened ByteOrder
  import opened SoundHeader

  const WAVECHUNKSIZE: nat := 8
  const WAVEHEADSIZE: nat := 12
  const WAVEFORMATSIZE: nat := 24
  const WAVEFACTSIZE: nat := 12
  const WAVE_EXT_SIZE: nat := 24
  const WAVEMAXBYTES: nat := 0xffff_ffff

  const WAVE_FORMAT_PCM: int := 1
  const WAVE_FORMAT_FLOAT: int := 3
  const WAVE_FORMAT_EXT: int := 0xfffe

  const RIFF: seq<byte> := [0x52, 0x49, 0x46, 0x46]
  const WAVE: seq<byte> := [0x57, 0x41, 0x56, 0x45]
  const FMT: seq<byte> := [0x66, 0x6d, 0x74, 0x20]
  const FACT: seq<byte> := [0x66, 0x61, 0x63, 0x74]
  const DATA: seq<byte> := [0x64, 0x61, 0x74, 0x61]
  const GUID: seq<byte> :=
    [0, 0, 0, 0, 0x10, 0, 0x80, 0, 0, 0xaa, 0, 0x38, 0x9b, 0x71]

  function Num(x: int, n: nat): (b: seq<byte>)
    ensures |b| == n
  {
    Store(x, n, false)
  }

  // ----- the header as the format has it -----

  predicate IsExtended(s: Sound) { s.bytespersample == 4 }

  /** Chunk sizes are even: odd sound data is followed by one byte of padding. */
  function Even(n: nat): nat { n + n % 2 }

  function HeaderSize(s: Sound): nat { if IsExtended(s) then 80 else 44 }

  function FormatChunk(s: Sound): (c: seq<byte>)
    ensures |c| == if IsExtended(s) then WAVEFORMATSIZE + WAVE_EXT_SIZE else WAVEFORMATSIZE
  {
    FMT + Num(if IsExtended(s) then 40 else 16, 4)
    + Num(if IsExtended(s) then WAVE_FORMAT_EXT else WAVE_FORMAT_PCM, 2)
    + Num(s.nchannels, 2) + Num(s.samplerate, 4) + Num(s.samplerate * s.bytesperframe, 4)
    + Num(s.bytesperframe, 2) + Num(s.bytespersample * 8, 2)
    + if IsExtended(s) then
        Num(WAVE_EXT_SIZE - 2, 2) + Num(s.bytespersample * 8, 2) + Num(0, 4) + Num(WAVE_FORMAT_FLOAT, 2) + GUID
      else []
  }

  function FactChunk(samples: int): (c: seq<byte>)
    ensures |c| == WAVEFACTSIZE
  {
    FACT + Num(4, 4) + Num(samples, 4)
  }

  /** The header of a file, with the sizes of the file's content and of the sound data in it. */
  function Header(s: Sound, riffsize: int, samples: int, datasize: int): (h: seq<byte>)
    ensures |h| == HeaderSize(s)
  {
    RIFF + Num(riffsize, 4) + WAVE + FormatChunk(s) + (if IsExtended(s) then FactChunk(samples) else [])
    + DATA + Num(datasize, 4)
  }

  /** The header of a file of n frames: every size is that of what follows it. */
  function HeaderFor(s: Sound, nframes: nat): (h: seq<byte>)
    requires s.Writable()
    ensures |h| == HeaderSize(s)
  {
    var size := Even(s.DataSize(nframes));
    Header(s, size + HeaderSize(s) - 8, s.nchannels * nframes, size)
  }

  // ----- the same in plain numbers -----

  /** The bytes of a file that starts with a header: what stands at which offset. */
  ghost predicate Bytes(f: seq<byte>, s: Sound, riffsize: int, samples: int, datasize: int) {
    var float := s.bytespersample == 4;
    var d := if float then 72 else 36;
    && |f| >= d + 8
    && f[..4] == [0x52, 0x49, 0x46, 0x46] && Le4(f, 4) == riffsize % 0x1_0000_0000    // "RIFF"
    && f[8..12] == [0x57, 0x41, 0x56, 0x45]                                           // "WAVE"
    && f[12..16] == [0x66, 0x6d, 0x74, 0x20] && Le4(f, 16) == (if float then 40 else 16)  // "fmt "
    && Le2(f, 20) == (if float then 0xfffe else 1) && Le2(f, 22) == s.nchannels && Le4(f, 24) == s.samplerate
    && Le4(f, 28) == (s.samplerate * (s.nchannels * s.bytespersample)) % 0x1_0000_0000
    && Le2(f, 32) == s.nchannels * s.bytespersample && Le2(f, 34) == 8 * s.bytespersample
    && (float ==>
          && Le2(f, 36) == 22 && Le2(f, 38) == 32 && Le4(f, 40) == 0 && Le2(f, 44) == 3
          && f[46..60] == [0, 0, 0, 0, 0x10, 0, 0x80, 0, 0, 0xaa, 0, 0x38, 0x9b, 0x71]
          && f[60..64] == [0x66, 0x61, 0x63, 0x74] && Le4(f, 64) == 4                 // "fact"
          && Le4(f, 68) == samples % 0x1_0000_0000)
    && f[d..d + 4] == [0x64, 0x61, 0x74, 0x61] && Le4(f, d + 4) == datasize % 0x1_0000_0000  // "data"
  }

  lemma FormatPlaces(s: Sound)
    ensures var c := FormatChunk(s);
            && At(c, 0, FMT) && At(c, 4, Num(if IsExtended(s) then 40 else 16, 4))
            && At(c, 8, Num(if IsExtended(s) then WAVE_FORMAT_EXT else WAVE_FORMAT_PCM, 2))
            && At(c, 10, Num(s.nchannels, 2)) && At(c, 12, Num(s.samplerate, 4))
            && At(c, 16, Num(s.samplerate * s.bytesperframe, 4)) && At(c, 20, Num(s.bytesperframe, 2))
            && At(c, 22, Num(s.bytespersample * 8, 2))
  {
    hide Store;
  }

  lemma ExtensionPlaces(s: Sound)
    requires IsExtended(s)
    ensures var c := FormatChunk(s);
            && At(c, 24, Num(22, 2)) && At(c, 26, Num(s.bytespersample * 8, 2)) && At(c, 28, Num(0, 4))
            && At(c, 32, Num(WAVE_FORMAT_FLOAT, 2)) && At(c, 34, GUID)
  {
    hide Store;
  }

  lemma ChunkPlaces(s: Sound, r: int, m: int, d: int)
    ensures var h := Header(s, r, m, d);
            && At(h, 0, RIFF) && At(h, 4, Num(r, 4)) && At(h, 8, WAVE) && At(h, 12, FormatChunk(s))
            && (IsExtended(s) ==> At(h, 60, FACT) && At(h, 64, Num(4, 4)) && At(h, 68, Num(m, 4)))
            && At(h, HeaderSize(s) - 8, DATA) && At(h, HeaderSize(s) - 4, Num(d, 4))
  {
    hide Store, FormatChunk;
  }

  lemma FormatBytes(f: seq<byte>, s: Sound)
    requires s.Writable() && At(f, 12, FormatChunk(s))
    ensures |f| >= 28
    ensures f[12..16] == FMT && Le4(f, 16) == if s.bytespersample == 4 then 40 else 16
    ensures Le2(f, 20) == (if s.bytespersample == 4 then 0xfffe else 1) && Le2(f, 22) == s.nchannels
    ensures Le4(f, 24) == s.samplerate
  {
    var c := FormatChunk(s);
    FormatPlaces(s);
    Limits(s);
    hide Store, FormatChunk, Le2, Le4, At, Sound.Writable;
    BytesIn(f, 12, c, 0, FMT);
    NumberIn(f, 12, c, 4, if IsExtended(s) then 40 else 16, 4, false);
    NumberIn(f, 12, c, 8, if IsExtended(s) then WAVE_FORMAT_EXT else WAVE_FORMAT_PCM, 2, false);
    NumberIn(f, 12, c, 10, s.nchannels, 2, false);
    NumberIn(f, 12, c, 12, s.samplerate, 4, false);
  }

  lemma RateBytes(f: seq<byte>, s: Sound)
    requires s.Writable() && At(f, 12, FormatChunk(s))
    ensures |f| >= 36 && Le4(f, 28) == (s.samplerate * s.bytesperframe) % 0x1_0000_0000
    ensures Le2(f, 32) == s.bytesperframe && Le2(f, 34) == 8 * s.bytespersample
  {
    var c := FormatChunk(s);
    FormatPlaces(s);
    s.FrameSize();
    Limits(s);
    hide Store, FormatChunk, Le2, Le4, At, Sound.Writable;
    WrappedIn(f, 12, c, 16, s.samplerate * s.bytesperframe, false);
    NumberIn(f, 12, c, 20, s.bytesperframe, 2, false);
    NumberIn(f, 12, c, 22, s.bytespersample * 8, 2, false);
  }

  lemma ExtensionBytes(f: seq<byte>, s: Sound)
    requires s.bytespersample == 4 && At(f, 12, FormatChunk(s))
    ensures |f| >= 60 && Le2(f, 36) == 22 && Le2(f, 38) == 32 && Le4(f, 40) == 0 && Le2(f, 44) == 3
    ensures f[46..60] == GUID
  {
    var c := FormatChunk(s);
    ExtensionPlaces(s);
    hide Store, FormatChunk, Le2, Le4, At;
    NumberIn(f, 12, c, 24, 22, 2, false);
    NumberIn(f, 12, c, 26, 32, 2, false);
    NumberIn(f, 12, c, 28, 0, 4, false);
    NumberIn(f, 12, c, 32, WAVE_FORMAT_FLOAT, 2, false);
    BytesIn(f, 12, c, 34, GUID);
  }

  lemma FactBytes(f: seq<byte>, s: Sound, r: int, m: int, d: int)
    requires s.bytespersample == 4 && At(f, 0, Header(s, r, m, d))
    ensures |f| >= 72 && f[60..64] == FACT && Le4(f, 64) == 4 && Le4(f, 68) == m % 0x1_0000_0000
  {
    var h := Header(s, r, m, d);
    ChunkPlaces(s, r, m, d);
    hide Store, FormatChunk, Header, Le4, At;
    BytesIn(f, 0, h, 60, FACT);
    NumberIn(f, 0, h, 64, 4, 4, false);
    WrappedIn(f, 0, h, 68, m, false);
  }

  lemma ChunkBytes(f: seq<byte>, s: Sound, r: int, m: int, d: int)
    requires At(f, 0, Header(s, r, m, d))
    ensures var e := if s.bytespersample == 4 then 72 else 36;
            && |f| >= e + 8 && f[..4] == RIFF && Le4(f, 4) == r % 0x1_0000_0000 && f[8..12] == WAVE
            && f[e..e + 4] == DATA && Le4(f, e + 4) == d % 0x1_0000_0000 && At(f, 12, FormatChunk(s))
  {
    var h, e := Header(s, r, m, d), HeaderSize(s);
    ChunkPlaces(s, r, m, d);
    hide Store, FormatChunk, Header, Le4, At;
    BytesIn(f, 0, h, 0, RIFF);
    WrappedIn(f, 0, h, 4, r, false);
    BytesIn(f, 0, h, 8, WAVE);
    AtAt(f, 0, h, 12, FormatChunk(s));
    BytesIn(f, 0, h, e - 8, DATA);
    WrappedIn(f, 0, h, e - 4, d, false);
  }

  /** Every byte of the header, by its offset in the file. */
  lemma HeaderBytes(f: seq<byte>, s: Sound, r: int, m: int, d: int)
    requires s.Writable() && At(f, 0, Header(s, r, m, d))
    ensures Bytes(f, s, r, m, d)
  {
    hide FormatChunk, Header, Le2, Le4, At;
    ChunkBytes(f, s, r, m, d);
    FormatBytes(f, s);
    RateBytes(f, s);
    if s.bytespersample == 4 {
      ExtensionBytes(f, s);
      FactBytes(f, s, r, m, d);
    }
  }

  lemma EvenSize(s: Sound, nframes: nat)
    requires s.Writable()
    ensures var size := nframes * (s.nchannels * s.bytespersample);
            size >= 0 && s.DataSize(nframes) == size && Even(s.DataSize(nframes)) == size + size % 2
  {
  }

  lemma UpdatedBytes(f: seq<byte>, data: seq<byte>, s: Sound, r: int, m: int, d: int)
    requires s.Writable() && f == Header(s, r, m, d) + data
    ensures Bytes(f, s, r, m, d)
  {
    PrefixAt(Header(s, r, m, d), data);
    HeaderBytes(f, s, r, m, d);
    hide Bytes, Header;
  }

  lemma WrittenBytes(f: seq<byte>, before: seq<byte>, s: Sound, r: int, m: int, d: int)
    requires s.Writable() && f == Written(before, 0, Header(s, r, m, d))
    ensures Bytes(f, s, r, m, d)
  {
    WrittenAt(before, 0, Header(s, r, m, d));
    HeaderBytes(f, s, r, m, d);
    hide Bytes, Header;
  }

  // ----- writing -----

  method FormatFor(s: Sound) returns (format: seq<byte>)
    ensures format == FormatChunk(s)
  {
    hide Store;
    var fmttag := Num(WAVE_FORMAT_PCM, 2);
    var extension, formatsize := [], WAVEFORMATSIZE;
    if s.bytespersample == 4 { fmttag := Num(WAVE_FORMAT_FLOAT, 2); }
    if IsExtended(s) {
      extension := Num(WAVE_EXT_SIZE - 2, 2) + Num(s.bytespersample * 8, 2) + Num(0, 4) + fmttag + GUID;
      fmttag := Num(WAVE_FORMAT_EXT, 2);
      formatsize := formatsize + WAVE_EXT_SIZE;
    }
    format := FMT + Num(formatsize - 8, 4) + fmttag + Num(s.nchannels, 2) + Num(s.samplerate, 4)
              + Num(s.samplerate * s.bytesperframe, 4) + Num(s.bytesperframe, 2) + Num(s.bytespersample * 8, 2)
              + extension;
  }

  /** The writer fills in the chunks one after another; for an odd size its RIFF size leaves out the padding. */
  method WriteHeader(file: File, s: Sound, nframes: nat) returns (written: nat)
    requires s.Writable()
    modifies file
    ensures written == HeaderSize(s)
    ensures file.data == Written(old(file.data), 0,
                                 Header(s, s.DataSize(nframes) + HeaderSize(s) - 8, s.nchannels * nframes,
                                        Even(s.DataSize(nframes))))
    ensures var size := nframes * (s.nchannels * s.bytespersample);
            Bytes(file.data, s, size + (if s.bytespersample == 4 then 72 else 36), s.nchannels * nframes,
                  size + size % 2)
  {
    hide Store, FormatChunk, Written, Bytes;
    var datasize, samples := s.DataSize(nframes), s.nchannels * nframes;
    hide Sound.DataSize;
    var format := FormatFor(s);
    var buf := RIFF + Num(0, 4) + WAVE + format;
    if IsExtended(s) { buf := buf + (FACT + Num(4, 4) + Num(samples, 4)); }
    var size := datasize;
    if datasize % 2 == 1 { size := datasize + 1; }
    buf := buf + DATA + Num(size, 4);
    assert buf == Header(s, 0, samples, size);
    written := |buf|;
    PatchRiffOnly(s, 0, datasize + written - 8, samples, size);
    hide Header;
    buf := Patch(buf, 4, Num(datasize + written - 8, 4));
    file.Write(0, buf);
    WrittenBytes(file.data, old(file.data), s, datasize + written - 8, samples, size);
  }

  lemma PatchRiffOnly(s: Sound, r: int, size: int, m: int, d: int)
    ensures Patch(Header(s, r, m, d), 4, Num(size, 4)) == Header(s, size, m, d)
  {
    hide Store, FormatChunk, FactChunk;
  }

  ghost predicate StartsWithHeader(data: seq<byte>, s: Sound) {
    |data| >= HeaderSize(s) && exists r: int, m: int, d: int :: data[..HeaderSize(s)] == Header(s, r, m, d)
  }

  /** Updating goes back to the three size fields, and pads odd sound data. */
  method UpdateHeader(file: File, s: Sound, nframes: nat)
    requires s.Writable() && |file.data| == HeaderSize(s) + s.DataSize(nframes) && StartsWithHeader(file.data, s)
    modifies file
    ensures file.data == HeaderFor(s, nframes) + old(file.data[HeaderSize(s)..])
                         + if s.DataSize(nframes) % 2 == 1 then [0] else []
    ensures var size := nframes * (s.nchannels * s.bytespersample);
            Bytes(file.data, s, size + size % 2 + (if s.bytespersample == 4 then 72 else 36), s.nchannels * nframes,
                  size + size % 2)
  {
    hide Bytes;
    hide Header, Store, Written, Sound.DataSize, Sound.Writable;
    ghost var data := file.data[HeaderSize(s)..];
    ghost var r: int, m: int, d: int :| file.data[..HeaderSize(s)] == Header(s, r, m, d);
    assert file.data == Header(s, r, m, d) + data;
    var datasize, samples := s.DataSize(nframes), s.nchannels * nframes;
    var headersize, padbyte := WAVEHEADSIZE + WAVEFORMATSIZE, datasize % 2;
    if IsExtended(s) {
      headersize := headersize + WAVE_EXT_SIZE;
      file.Write(headersize + 8, Num(samples, 4));
      PatchSamples(s, r, m, d, samples, data);
      headersize := headersize + WAVEFACTSIZE;
    } else {
      NoSamples(s, r, m, samples, d);
    }
    datasize := datasize + padbyte;
    file.Write(headersize + 4, Num(datasize, 4));
    PatchData(s, r, samples, d, datasize, data);
    headersize := headersize + WAVECHUNKSIZE;
    ghost var all := data;
    if padbyte == 1 {
      file.Write(headersize + datasize - 1, [0]);
      all := data + [0];
      PadAfter(Header(s, r, samples, datasize), data);
    }
    file.Write(4, Num(headersize + datasize - 8, 4));
    PatchRiff(s, r, headersize + datasize - 8, samples, datasize, all);
    assert data + [] == data;
    UpdatedBytes(file.data, all, s, headersize + datasize - 8, samples, datasize);
    EvenSize(s, nframes);
    Associate(HeaderFor(s, nframes), data, if s.DataSize(nframes) % 2 == 1 then [0] else []);
  }

  lemma Associate(a: seq<byte>, b: seq<byte>, c: seq<byte>)
    ensures a + (b + c) == a + b + c
  {
  }

  lemma PadAfter(header: seq<byte>, data: seq<byte>)
    ensures Written(header + data, |header| + |data|, [0]) == header + (data + [0])
  {
  }

  lemma PatchSamples(s: Sound, r: int, m: int, d: int, samples: int, data: seq<byte>)
    requires IsExtended(s)
    ensures Written(Header(s, r, m, d) + data, 68, Num(samples, 4)) == Header(s, r, samples, d) + data
  {
    hide Store, FormatChunk;
  }

  lemma NoSamples(s: Sound, r: int, m: int, samples: int, d: int)
    requires !IsExtended(s)
    ensures Header(s, r, m, d) == Header(s, r, samples, d)
  {
  }

  lemma PatchData(s: Sound, r: int, m: int, d: int, size: int, data: seq<byte>)
    ensures Written(Header(s, r, m, d) + data, HeaderSize(s) - 4, Num(size, 4)) == Header(s, r, m, size) + data
  {
    hide Store, FormatChunk, FactChunk;
  }

  lemma PatchRiff(s: Sound, r: int, size: int, m: int, d: int, data: seq<byte>)
    ensures Written(Header(s, r, m, d) + data, 4, Num(size, 4)) == Header(s, size, m, d) + data
  {
    hide Store, FormatChunk, FactChunk;
  }

  // ----- reading -----

  /** What the format chunk says, once read. */
  datatype Format = Format(nchannels: int, samplerate: int, bytespersample: int)

  datatype FormatResult = Good(format: Format) | Bad(error: Error)

  /** The format chunk's fields as they lie in the header buffer; `size` is the chunk's. */
  function ReadFormat(buf: seq<byte>, size: nat): FormatResult {
    var tag := Field(buf, 8, 2, false);
    if tag == WAVE_FORMAT_EXT && size == WAVEFORMATSIZE then Bad(Unsupported)
    else
      var sub := if tag == WAVE_FORMAT_EXT then Field(buf, 32, 2, false) else tag;
      if sub != WAVE_FORMAT_PCM && sub != WAVE_FORMAT_FLOAT then Bad(Unsupported)
      else
        var bytes := Field(buf, 22, 2, false) / 8;
        if bytes == 2 || bytes == 3 || (bytes == 4 && sub == WAVE_FORMAT_FLOAT) then
          Good(Format(Field(buf, 10, 2, false), Signed(Field(buf, 12, 4, false), 4), bytes))
        else Bad(Unsupported)
  }

  /**
   * In numbers: a format chunk is accepted exactly if it is PCM (1) or float (3), told by its own tag or, for the
   * extended tag in a chunk of more than 24 bytes, by the sub-format, and its samples have 16 or 24 bits, or 32 if
   * they are floats -- up to seven bits more are not noticed.
   */
  lemma FormatAccepted(buf: seq<byte>, size: nat)
    requires |buf| == SFHDRBUFSIZE
    ensures var tag, bits, rate := Le2(buf, 8), Le2(buf, 22), Le4(buf, 12);
            var kind, r := if tag == 0xfffe then Le2(buf, 32) else tag, ReadFormat(buf, size);
            && (r.Good? <==> && (tag == 0xfffe ==> size != 24) && (kind == 1 || kind == 3)
                             && (16 <= bits < 32 || (32 <= bits < 40 && kind == 3)))
            && (r.Good? ==> r.format == Format(Le2(buf, 10), if rate >= 0x8000_0000 then rate - 0x1_0000_0000 else rate,
                                               bits / 8))
            && (r.Bad? ==> r.error == Unsupported)
  {
    FieldNumber(buf, 8);
    FieldNumber(buf, 10);
    FieldNumber(buf, 12);
    FieldNumber(buf, 22);
    FieldNumber(buf, 32);
    SignedFour(Le4(buf, 12));
    hide Field, Signed, Le2, Le4;
  }

  /** Where the next chunk starts: chunks begin at even offsets. */
  function NextOffset(off: nat, size: nat): nat {
    var seekto := off + WAVECHUNKSIZE + size;
    if seekto % 2 == 1 then seekto + 1 else seekto
  }

  /** The scan from the chunk at `off`, whose head is in the buffer, to the sound data. */
  function Scan(file: seq<byte>, off: nat, buf: seq<byte>, format: Format): Result
    requires |buf| == SFHDRBUFSIZE && off + WAVECHUNKSIZE <= |file|
    decreases |file| - off
  {
    var id, size := buf[..4], Field(buf, 4, 4, false);
    if id == DATA then
      var headersize := off + WAVECHUNKSIZE;
      var limit :=
        if size == WAVEMAXBYTES then
          if |file| - headersize > WAVEMAXBYTES then WAVEMAXBYTES else |file| - headersize
        else Even(size);
      Ok(Sound(format.samplerate, format.nchannels, format.bytespersample, false,
               format.nchannels * format.bytespersample, headersize, limit))
    else if id == FMT && size > SFHDRBUFSIZE - 8 then Failed(OutOfModel)
    else if id == FMT && !Reads(file, off + 8, size) then Failed(Unreadable)
    else
      var filled := if id == FMT then Patch(buf, 8, ReadBytes(file, off + 8, size)) else buf;
      var found := if id == FMT then ReadFormat(filled, size) else Good(format);
      var next := NextOffset(off, size);
      if found.Bad? then Failed(found.error)
      else if next + WAVECHUNKSIZE > |file| then Failed(Unreadable)
      else Scan(file, next, Patch(filled, 0, file[next..next + WAVECHUNKSIZE]), found.format)
  }

  /** What reading a file's header comes to. */
  function Read(file: seq<byte>): Result {
    if |file| < WAVEHEADSIZE || file[8..12] != WAVE || WAVEHEADSIZE + WAVECHUNKSIZE > |file| then Failed(Unreadable)
    else
      var buf := Patch(ZeroBuffer(), 0, file[..WAVEHEADSIZE]);
      Scan(file, WAVEHEADSIZE, Patch(buf, 0, file[WAVEHEADSIZE..WAVEHEADSIZE + WAVECHUNKSIZE]),
           Format(1, 44100, 2))
  }

  /** The rest of the scan, with the buffer as the chunk just passed has left it. */
  function ScanOn(file: seq<byte>, next: nat, buf: seq<byte>, format: Format, beyond: nat): Result
    requires |buf| == SFHDRBUFSIZE && next > beyond
  {
    if next + WAVECHUNKSIZE > |file| then Failed(Unreadable)
    else Scan(file, next, Patch(buf, 0, file[next..next + WAVECHUNKSIZE]), format)
  }

  /** One step of the scan. */
  lemma ScanIs(file: seq<byte>, off: nat, buf: seq<byte>, format: Format, id: seq<byte>, size: nat)
    requires |buf| == SFHDRBUFSIZE && off + WAVECHUNKSIZE <= |file|
    requires id == buf[..4] && size == Field(buf, 4, 4, false)
    ensures id != FMT && id != DATA ==>
              Scan(file, off, buf, format) == ScanOn(file, NextOffset(off, size), buf, format, off)
    ensures id == FMT && size > SFHDRBUFSIZE - 8 ==> Scan(file, off, buf, format) == Failed(OutOfModel)
    ensures id == FMT && size <= SFHDRBUFSIZE - 8 && !Reads(file, off + 8, size) ==>
              Scan(file, off, buf, format) == Failed(Unreadable)
    ensures id == DATA ==>
              Scan(file, off, buf, format)
              == Ok(Sound(format.samplerate, format.nchannels, format.bytespersample, false,
                          format.nchannels * format.bytespersample, off + WAVECHUNKSIZE,
                          if size != WAVEMAXBYTES then Even(size)
                          else if |file| - (off + WAVECHUNKSIZE) > WAVEMAXBYTES then WAVEMAXBYTES
                          else |file| - (off + WAVECHUNKSIZE)))
  {
    hide Field, Patch, ReadFormat, Reads, ReadBytes, Even, NextOffset, Signed;
  }

  lemma ScanIsFormat(file: seq<byte>, off: nat, buf: seq<byte>, format: Format, size: nat, filled: seq<byte>)
    requires |buf| == SFHDRBUFSIZE && off + WAVECHUNKSIZE <= |file|
    requires buf[..4] == FMT && size == Field(buf, 4, 4, false) && size <= SFHDRBUFSIZE - 8
    requires Reads(file, off + 8, size) && filled == Patch(buf, 8, ReadBytes(file, off + 8, size))
    ensures ReadFormat(filled, size).Bad? ==> Scan(file, off, buf, format) == Failed(ReadFormat(filled, size).error)
    ensures ReadFormat(filled, size).Good? ==>
              Scan(file, off, buf, format)
              == ScanOn(file, NextOffset(off, size), filled, ReadFormat(filled, size).format, off)
  {
    hide Field, Patch, ReadFormat;
  }

  /** The reader: one buffer, refilled chunk by chunk. */
  method ReadHeader(file: File) returns (r: Result)
    ensures r == Read(file.data)
  {
    hide Patch, ZeroBuffer, Scan;
    var data := file.data;
    if |data| < WAVEHEADSIZE || data[8..12] != WAVE || WAVEHEADSIZE + WAVECHUNKSIZE > |data| {
      return Failed(Unreadable);
    }
    var buf := Patch(ZeroBuffer(), 0, data[..WAVEHEADSIZE]);
    buf := Patch(buf, 0, data[WAVEHEADSIZE..WAVEHEADSIZE + WAVECHUNKSIZE]);
    r := ReadChunks(data, buf);
  }

  method ReadChunks(data: seq<byte>, head: seq<byte>) returns (r: Result)
    requires |head| == SFHDRBUFSIZE && WAVEHEADSIZE + WAVECHUNKSIZE <= |data|
    ensures r == Scan(data, WAVEHEADSIZE, head, Format(1, 44100, 2))
  {
    hide Patch, Field, ReadFormat, Scan, Reads, ReadBytes, Even, Signed;
    var buf, headersize, format := head, WAVEHEADSIZE, Format(1, 44100, 2);
    ghost var result := Scan(data, headersize, buf, format);
    while true
      invariant |buf| == SFHDRBUFSIZE && headersize + WAVECHUNKSIZE <= |data|
      invariant result == Scan(data, headersize, buf, format)
      decreases |data| - headersize
    {
      var id, chunksize := buf[..4], Field(buf, 4, 4, false);
      ScanIs(data, headersize, buf, format, id, chunksize);
      if id == FMT {
        if chunksize > SFHDRBUFSIZE - 8 { return Failed(OutOfModel); }
        if !Reads(data, headersize + 8, chunksize) { return Failed(Unreadable); }
        var filled := Patch(buf, 8, ReadBytes(data, headersize + 8, chunksize));
        ScanIsFormat(data, headersize, buf, format, chunksize, filled);
        var found := ReadFormat(filled, chunksize);
        if found.Bad? { return Failed(found.error); }
        buf, format := filled, found.format;
      } else if id == DATA {
        headersize := headersize + WAVECHUNKSIZE;
        var bytelimit;
        if chunksize == WAVEMAXBYTES {
          bytelimit := |data| - headersize;
          if bytelimit > WAVEMAXBYTES { bytelimit := WAVEMAXBYTES; }
        } else {
          bytelimit := Even(chunksize);
        }
        return Ok(Sound(format.samplerate, format.nchannels, format.bytespersample, false,
                        format.nchannels * format.bytespersample, headersize, bytelimit));
      }
      var seekto := headersize + WAVECHUNKSIZE + chunksize;
      if seekto % 2 == 1 { seekto := seekto + 1; }
      if seekto + WAVECHUNKSIZE > |data| { return Failed(Unreadable); }
      buf := Patch(buf, 0, data[seekto..seekto + WAVECHUNKSIZE]);
      headersize := seekto;
    }
  }

  // ----- the round trip -----

  lemma FormatFields(s: Sound)
    ensures var c := FormatChunk(s);
            && At(c, 0, FMT) && At(c, 4, Num(if IsExtended(s) then 40 else 16, 4))
            && At(c, 8, Num(if IsExtended(s) then WAVE_FORMAT_EXT else WAVE_FORMAT_PCM, 2))
            && At(c, 10, Num(s.nchannels, 2)) && At(c, 12, Num(s.samplerate, 4))
            && At(c, 22, Num(s.bytespersample * 8, 2))
            && (IsExtended(s) ==> At(c, 32, Num(WAVE_FORMAT_FLOAT, 2)))
  {
    hide Store;
  }

  lemma HeaderFields(s: Sound, r: int, m: int, d: int)
    ensures var h := Header(s, r, m, d);
            && At(h, 8, WAVE) && At(h, 12, FormatChunk(s))
            && (IsExtended(s) ==> At(h, 60, FACT) && At(h, 64, Num(4, 4)))
            && At(h, HeaderSize(s) - 8, DATA) && At(h, HeaderSize(s) - 4, Num(d, 4))
  {
    hide Store, FormatChunk;
  }

  /** A buffer that starts with a written format chunk holds its fields. */
  lemma FormatNumbers(s: Sound, buf: seq<byte>)
    requires s.Writable() && At(buf, 0, FormatChunk(s))
    ensures Field(buf, 4, 4, false) == if IsExtended(s) then 40 else 16
    ensures Field(buf, 8, 2, false) == if IsExtended(s) then WAVE_FORMAT_EXT else WAVE_FORMAT_PCM
    ensures Field(buf, 10, 2, false) == s.nchannels && Field(buf, 12, 4, false) == s.samplerate
    ensures Field(buf, 22, 2, false) == s.bytespersample * 8
    ensures IsExtended(s) ==> Field(buf, 32, 2, false) == WAVE_FORMAT_FLOAT
  {
    var c := FormatChunk(s);
    FormatFields(s);
    Span8();
    hide Store, FormatChunk, At, Field, Span;
    FieldIn(buf, 0, c, 4, if IsExtended(s) then 40 else 16, 4, false);
    FieldIn(buf, 0, c, 8, if IsExtended(s) then WAVE_FORMAT_EXT else WAVE_FORMAT_PCM, 2, false);
    FieldIn(buf, 0, c, 10, s.nchannels, 2, false);
    FieldIn(buf, 0, c, 12, s.samplerate, 4, false);
    FieldIn(buf, 0, c, 22, s.bytespersample * 8, 2, false);
    if IsExtended(s) { FieldIn(buf, 0, c, 32, WAVE_FORMAT_FLOAT, 2, false); }
  }

  /** ... and is read as that format. */
  lemma FormatRead(s: Sound, buf: seq<byte>)
    requires s.Writable() && At(buf, 0, FormatChunk(s))
    ensures ReadFormat(buf, if IsExtended(s) then 40 else 16)
            == Good(Format(s.nchannels, s.samplerate, s.bytespersample))
  {
    FormatNumbers(s, buf);
    SignedSmall(s.samplerate);
    hide Field, Signed, At, FormatChunk, Span;
    assert s.bytespersample * 8 / 8 == s.bytespersample;
  }

  /** One step of the scan over a chunk that is neither format nor data. */
  lemma ScanSkips(file: seq<byte>, off: nat, buf: seq<byte>, format: Format)
    requires |buf| == SFHDRBUFSIZE && off + WAVECHUNKSIZE <= |file|
    requires buf[..4] != FMT && buf[..4] != DATA
    ensures var next := NextOffset(off, Field(buf, 4, 4, false));
            next + WAVECHUNKSIZE <= |file| ==>
              Scan(file, off, buf, format)
              == Scan(file, next, Patch(buf, 0, file[next..next + WAVECHUNKSIZE]), format)
  {
    hide Field;
  }

  /** The chunks of a written header, at their places in the file. */
  predicate Chunks(file: seq<byte>, s: Sound, size: nat) {
    && At(file, 8, WAVE) && At(file, 12, FormatChunk(s))
    && (IsExtended(s) ==> At(file, 60, FACT) && At(file, 64, Num(4, 4)))
    && At(file, HeaderSize(s) - 8, DATA) && At(file, HeaderSize(s) - 4, Num(size, 4))
  }

  lemma HeaderChunks(s: Sound, r: int, m: int, size: nat, data: seq<byte>)
    ensures Chunks(Header(s, r, m, size) + data, s, size)
  {
    var h := Header(s, r, m, size);
    var file := h + data;
    hide Header, FormatChunk, At, Store;
    HeaderFields(s, r, m, size);
    PrefixAt(h, data);
    AtAt(file, 0, h, 8, WAVE);
    AtAt(file, 0, h, 12, FormatChunk(s));
    AtAt(file, 0, h, HeaderSize(s) - 8, DATA);
    AtAt(file, 0, h, HeaderSize(s) - 4, Num(size, 4));
    if IsExtended(s) {
      AtAt(file, 0, h, 60, FACT);
      AtAt(file, 0, h, 64, Num(4, 4));
    }
  }

  /** Reading a freshly written header recovers it, the data size rounded up to even, whatever follows. */
  lemma RoundTrip(s: Sound, riffsize: int, samples: int, size: nat, data: seq<byte>)
    requires s.Writable() && !s.bigendian && size < WAVEMAXBYTES
    ensures Read(Header(s, riffsize, samples, size) + data)
            == Ok(s.(headersize := HeaderSize(s), bytelimit := Even(size)))
  {
    var file := Header(s, riffsize, samples, size) + data;
    HeaderChunks(s, riffsize, samples, size, data);
    assert file[8..12] == WAVE;
    hide Header, Scan, Patch, ZeroBuffer, Chunks;
    ScanFormat(s, file, Patch(ZeroBuffer(), 0, file[..WAVEHEADSIZE]), size);
  }

  /** The head of the chunk at `off`, once copied to the front of the buffer. */
  lemma ChunkHead(file: seq<byte>, off: nat, buf: seq<byte>, id: seq<byte>, size: nat)
    requires |buf| == SFHDRBUFSIZE && |id| == 4 && size <= WAVEMAXBYTES
    requires At(file, off, id) && At(file, off + 4, Num(size, 4))
    ensures off + WAVECHUNKSIZE <= |file|
    ensures var b := Patch(buf, 0, file[off..off + WAVECHUNKSIZE]);
            b[..4] == id && Field(b, 4, 4, false) == size && b[8..] == buf[8..]
  {
    var head := file[off..off + WAVECHUNKSIZE];
    var b := Patch(buf, 0, head);
    assert head[..4] == file[off..off + 4] && head[4..8] == file[off + 4..off + 8];
    assert b[4..8] == head[4..8];
    Span8();
    hide Store, Field;
    FieldIs(b, 4, size, 4, false);
  }

  lemma ScanData(file: seq<byte>, off: nat, buf: seq<byte>, format: Format, size: nat)
    requires |buf| == SFHDRBUFSIZE && off + WAVECHUNKSIZE <= |file|
    requires buf[..4] == DATA && Field(buf, 4, 4, false) == size < WAVEMAXBYTES
    ensures Scan(file, off, buf, format)
            == Ok(Sound(format.samplerate, format.nchannels, format.bytespersample, false,
                        format.nchannels * format.bytespersample, off + WAVECHUNKSIZE, Even(size)))
  {
  }

  lemma ScanFmt(file: seq<byte>, off: nat, buf: seq<byte>, format: Format, size: nat, found: Format)
    requires |buf| == SFHDRBUFSIZE && off + WAVECHUNKSIZE + size <= |file|
    requires buf[..4] == FMT && Field(buf, 4, 4, false) == size && 0 < size <= SFHDRBUFSIZE - 8
    requires var filled := Patch(buf, 8, file[off + 8..off + 8 + size]); ReadFormat(filled, size) == Good(found)
    ensures var filled, next := Patch(buf, 8, file[off + 8..off + 8 + size]), NextOffset(off, size);
            next + WAVECHUNKSIZE <= |file| ==>
              Scan(file, off, buf, format)
              == Scan(file, next, Patch(filled, 0, file[next..next + WAVECHUNKSIZE]), found)
  {
    hide Field, ReadFormat, Patch;
  }

  /** The scan of a written header, chunk by chunk: first the format chunk ... */
  lemma ScanFormat(s: Sound, file: seq<byte>, buf0: seq<byte>, size: nat)
    requires s.Writable() && !s.bigendian && size < WAVEMAXBYTES && |buf0| == SFHDRBUFSIZE && Chunks(file, s, size)
    requires |file| >= 20
    ensures Scan(file, 12, Patch(buf0, 0, file[12..20]), Format(1, 44100, 2))
            == Ok(s.(headersize := HeaderSize(s), bytelimit := Even(size)))
  {
    hide Scan, Patch, Even, Sound.Writable, Chunks, At, FormatChunk, Field, Store;
    ChunksFormat(file, s, size);
    var filled := ScanFirst(s, file, 12, buf0, Format(1, 44100, 2));
    ScanRest(s, file, filled, size);
  }

  lemma ChunksFormat(file: seq<byte>, s: Sound, size: nat)
    requires Chunks(file, s, size)
    ensures At(file, 12, FormatChunk(s))
  {
  }

  lemma ScanFirst(s: Sound, file: seq<byte>, off: nat, buf0: seq<byte>, before: Format) returns (filled: seq<byte>)
    requires s.Writable() && |buf0| == SFHDRBUFSIZE && At(file, off, FormatChunk(s)) && off % 2 == 0
    ensures |filled| == SFHDRBUFSIZE && off + 8 <= |file|
    ensures var next := off + 8 + if IsExtended(s) then 40 else 16;
            next + WAVECHUNKSIZE <= |file| ==>
              Scan(file, off, Patch(buf0, 0, file[off..off + 8]), before)
              == Scan(file, next, Patch(filled, 0, file[next..next + WAVECHUNKSIZE]),
                      Format(s.nchannels, s.samplerate, s.bytespersample))
  {
    hide Scan, Field, ReadFormat, Patch, Sound.Writable, At;
    var n: nat := if IsExtended(s) then 40 else 16;
    FormatGood(s, file, off, buf0, n);
    filled := Patch(Patch(buf0, 0, file[off..off + 8]), 8, file[off + 8..off + 8 + n]);
    ScanFmt(file, off, Patch(buf0, 0, file[off..off + 8]), before, n,
            Format(s.nchannels, s.samplerate, s.bytespersample));
  }

  lemma FormatGood(s: Sound, file: seq<byte>, off: nat, buf0: seq<byte>, n: nat)
    requires s.Writable() && At(file, off, FormatChunk(s)) && |buf0| == SFHDRBUFSIZE
    requires n == (if IsExtended(s) then 40 else 16)
    ensures off + 8 + n <= |file|
    ensures var buf := Patch(buf0, 0, file[off..off + 8]);
            && buf[..4] == FMT && Field(buf, 4, 4, false) == n
            && ReadFormat(Patch(buf, 8, file[off + 8..off + 8 + n]), n)
               == Good(Format(s.nchannels, s.samplerate, s.bytespersample))
  {
    hide Field, ReadFormat, FormatChunk, Patch, Sound.Writable, At;
    FormatFilled(s, file, off, buf0, n);
    FormatRead(s, Patch(Patch(buf0, 0, file[off..off + 8]), 8, file[off + 8..off + 8 + n]));
  }

  lemma FormatFilled(s: Sound, file: seq<byte>, off: nat, buf0: seq<byte>, n: nat)
    requires At(file, off, FormatChunk(s)) && n == (if IsExtended(s) then 40 else 16) && |buf0| == SFHDRBUFSIZE
    ensures off + 8 + n <= |file|
    ensures var buf := Patch(buf0, 0, file[off..off + 8]);
            && buf[..4] == FMT && Field(buf, 4, 4, false) == n
            && At(Patch(buf, 8, file[off + 8..off + 8 + n]), 0, FormatChunk(s))
  {
    var c := FormatChunk(s);
    hide Store, FormatChunk, Field;
    FormatFields(s);
    AtAt(file, off, c, 0, FMT);
    AtAt(file, off, c, 4, Num(n, 4));
    ChunkHead(file, off, buf0, FMT, n);
    FilledChunk(file, off, buf0, c, n);
  }

  /** ... then, for floats, the fact chunk, and the sound data. */
  lemma ScanRest(s: Sound, file: seq<byte>, filled: seq<byte>, size: nat)
    requires s.Writable() && !s.bigendian && size < WAVEMAXBYTES && |filled| == SFHDRBUFSIZE && Chunks(file, s, size)
    ensures var next, format := if IsExtended(s) then 60 else 36, Format(s.nchannels, s.samplerate, s.bytespersample);
            && next + WAVECHUNKSIZE <= |file|
            && Scan(file, next, Patch(filled, 0, file[next..next + WAVECHUNKSIZE]), format)
               == Ok(s.(headersize := HeaderSize(s), bytelimit := Even(size)))
  {
    hide Scan, Field, Store, FormatChunk, Patch, Even, At;
    var format := Format(s.nchannels, s.samplerate, s.bytespersample);
    if IsExtended(s) {
      ChunkHead(file, 60, filled, FACT, 4);
      ChunkHead(file, 72, Patch(filled, 0, file[60..68]), DATA, size);
      ScanSkips(file, 60, Patch(filled, 0, file[60..68]), format);
      ScanData(file, 72, Patch(Patch(filled, 0, file[60..68]), 0, file[72..80]), format, size);
    } else {
      ChunkHead(file, 36, filled, DATA, size);
      ScanData(file, 36, Patch(filled, 0, file[36..44]), format, size);
    }
  }

  /** Head and body of a chunk, copied one after the other, are the chunk. */
  lemma FilledChunk(file: seq<byte>, off: nat, buf0: seq<byte>, c: seq<byte>, n: nat)
    requires |buf0| == SFHDRBUFSIZE && At(file, off, c) && |c| == 8 + n <= SFHDRBUFSIZE
    ensures var buf := Patch(buf0, 0, file[off..off + 8]); At(Patch(buf, 8, file[off + 8..off + 8 + n]), 0, c)
  {
    assert file[off..off + 8] + file[off + 8..off + 8 + n] == c;
  }

  // ----- files with other chunks in them -----

  /** Chunks that are none of the reader's business. */
  ghost predicate Foreign(cs: seq<Chunk>) {
    forall i: nat :: i < |cs| ==>
      |cs[i].id| == 4 && cs[i].id != FMT && cs[i].id != DATA && |cs[i].body| <= WAVEMAXBYTES
  }

  lemma NextIs(off: nat, n: nat)
    requires off % 2 == 0
    ensures NextOffset(off, n) == off + 8 + n + n % 2 && NextOffset(off, n) % 2 == 0
  {
  }

  /** The padding after an odd chunk is passed by, too. */
  lemma ScanTo(file: seq<byte>, off: nat, b: seq<byte>, format: Format, n: nat, next: nat)
    requires |b| == SFHDRBUFSIZE && off + WAVECHUNKSIZE <= |file| && off % 2 == 0
    requires b[..4] != FMT && b[..4] != DATA && Field(b, 4, 4, false) == n && next == off + 8 + n + n % 2
    ensures next % 2 == 0
    ensures next + WAVECHUNKSIZE <= |file| ==>
              Scan(file, off, b, format) == Scan(file, next, Patch(b, 0, file[next..next + WAVECHUNKSIZE]), format)
  {
    NextIs(off, n);
    hide Scan, Field, Patch, NextOffset;
    ScanSkips(file, off, b, format);
  }

  lemma SkipsOne(file: seq<byte>, off: nat, buf: seq<byte>, format: Format, c: Chunk, rest: seq<byte>, next: nat)
    requires |buf| == SFHDRBUFSIZE && off % 2 == 0 && At(file, off, Piece(c, 4, false) + rest)
    requires |c.id| == 4 && c.id != FMT && c.id != DATA && |c.body| <= WAVEMAXBYTES
    requires next == off + |Piece(c, 4, false)|
    ensures At(file, next, rest) && next % 2 == 0 && off + WAVECHUNKSIZE <= |file|
    ensures var b := Patch(buf, 0, file[off..off + WAVECHUNKSIZE]);
            next + WAVECHUNKSIZE <= |file| ==>
              Scan(file, off, b, format) == Scan(file, next, Patch(b, 0, file[next..next + WAVECHUNKSIZE]), format)
  {
    PieceFields(c, rest, 4, false);
    hide *;
    AtAt(file, off, Piece(c, 4, false) + rest, 0, c.id);
    AtAt(file, off, Piece(c, 4, false) + rest, 4, Store(|c.body|, 4, false));
    AtAt(file, off, Piece(c, 4, false) + rest, |Piece(c, 4, false)|, rest);
    HeadScanned(file, off, buf, format, c.id, |c.body|, next);
  }

  lemma HeadScanned(file: seq<byte>, off: nat, buf: seq<byte>, format: Format, id: seq<byte>, n: nat, next: nat)
    requires |buf| == SFHDRBUFSIZE && off % 2 == 0 && |id| == 4 && id != FMT && id != DATA && n <= WAVEMAXBYTES
    requires At(file, off, id) && At(file, off + 4, Store(n, 4, false)) && next == off + 8 + n + n % 2
    ensures next % 2 == 0 && off + WAVECHUNKSIZE <= |file|
    ensures var b := Patch(buf, 0, file[off..off + WAVECHUNKSIZE]);
            next + WAVECHUNKSIZE <= |file| ==>
              Scan(file, off, b, format) == Scan(file, next, Patch(b, 0, file[next..next + WAVECHUNKSIZE]), format)
  {
    hide Scan, Field, Patch, Store, At;
    ChunkHead(file, off, buf, id, n);
    ScanTo(file, off, Patch(buf, 0, file[off..off + WAVECHUNKSIZE]), format, n, next);
  }

  /** The reader passes any number of them by. */
  lemma {:induction false} SkipsForeign(file: seq<byte>, off: nat, buf: seq<byte>, format: Format, cs: seq<Chunk>,
                                        e: nat) returns (b: seq<byte>)
    requires |buf| == SFHDRBUFSIZE && off % 2 == 0 && Foreign(cs) && At(file, off, Pieces(cs, 4, false))
    requires e == off + |Pieces(cs, 4, false)| && e + WAVECHUNKSIZE <= |file|
    ensures |b| == SFHDRBUFSIZE && e % 2 == 0 && off <= e
    ensures Scan(file, off, Patch(buf, 0, file[off..off + WAVECHUNKSIZE]), format)
            == Scan(file, e, Patch(b, 0, file[e..e + WAVECHUNKSIZE]), format)
    decreases |cs|
  {
    b := buf;
    if cs != [] {
      var next, c, rest := off + |Piece(cs[0], 4, false)|, cs[0], cs[1..];
      assert Pieces(cs, 4, false) == Piece(c, 4, false) + Pieces(rest, 4, false)
             && e == next + |Pieces(rest, 4, false)|;
      hide Scan, Patch, At, Piece, Pieces;
      SkipsOne(file, off, buf, format, c, Pieces(rest, 4, false), next);
      b := SkipsForeign(file, next, Patch(buf, 0, file[off..off + WAVECHUNKSIZE]), format, rest, e);
    }
  }

  lemma ScanHead(s: Sound, file: seq<byte>, buf0: seq<byte>, before: seq<Chunk>, format: Format, p: nat, q: nat)
    returns (b: seq<byte>)
    requires s.Writable() && Foreign(before) && |buf0| == SFHDRBUFSIZE && q + WAVECHUNKSIZE <= |file|
    requires p == 12 + |Pieces(before, 4, false)| && q == p + (if IsExtended(s) then 48 else 24)
    requires At(file, 12, Pieces(before, 4, false)) && At(file, p, FormatChunk(s))
    ensures |b| == SFHDRBUFSIZE && q % 2 == 0
    ensures Scan(file, 12, Patch(buf0, 0, file[12..20]), format)
            == Scan(file, q, Patch(b, 0, file[q..q + WAVECHUNKSIZE]),
                    Format(s.nchannels, s.samplerate, s.bytespersample))
  {
    hide Scan, Patch, Store, Pieces, FormatChunk, Field, Sound.Writable, Foreign, At;
    var buf1 := SkipsForeign(file, 12, buf0, format, before, p);
    b := ScanFirst(s, file, p, buf1, format);
  }

  /** A scan over other chunks, the format chunk, other chunks again, and the sound data. */
  lemma ScanAmong(s: Sound, file: seq<byte>, buf0: seq<byte>, before: seq<Chunk>, after: seq<Chunk>, size: nat,
                  p: nat, q: nat, e: nat)
    requires s.Writable() && !s.bigendian && size < WAVEMAXBYTES && Foreign(before) && Foreign(after)
    requires |buf0| == SFHDRBUFSIZE && e + WAVECHUNKSIZE <= |file|
    requires p == 12 + |Pieces(before, 4, false)| && q == p + (if IsExtended(s) then 48 else 24)
    requires e == q + |Pieces(after, 4, false)| && At(file, q, Pieces(after, 4, false))
    requires At(file, 12, Pieces(before, 4, false)) && At(file, p, FormatChunk(s))
    requires At(file, e, DATA) && At(file, e + 4, Num(size, 4))
    ensures Scan(file, 12, Patch(buf0, 0, file[12..20]), Format(1, 44100, 2))
            == Ok(s.(headersize := e + 8, bytelimit := Even(size)))
  {
    Limits(s);
    hide Scan, Patch, Store, Pieces, FormatChunk, Field, Even, Sound.Writable, Foreign, At;
    var buf := ScanHead(s, file, buf0, before, Format(1, 44100, 2), p, q);
    ScanTail(file, q, buf, Format(s.nchannels, s.samplerate, s.bytespersample), after, size, e);
  }

  lemma ScanTail(file: seq<byte>, q: nat, buf: seq<byte>, format: Format, after: seq<Chunk>, size: nat, e: nat)
    requires |buf| == SFHDRBUFSIZE && q % 2 == 0 && Foreign(after) && At(file, q, Pieces(after, 4, false))
    requires e == q + |Pieces(after, 4, false)| && e + WAVECHUNKSIZE <= |file| && size < WAVEMAXBYTES
    requires At(file, e, DATA) && At(file, e + 4, Num(size, 4))
    ensures Scan(file, q, Patch(buf, 0, file[q..q + WAVECHUNKSIZE]), format)
            == Ok(Sound(format.samplerate, format.nchannels, format.bytespersample, false,
                        format.nchannels * format.bytespersample, e + 8, Even(size)))
  {
    hide Scan, Patch, Store, Pieces, Field, Even, Foreign, At;
    var b := SkipsForeign(file, q, buf, format, after, e);
    ChunkHead(file, e, b, DATA, size);
    ScanData(file, e, Patch(b, 0, file[e..e + WAVECHUNKSIZE]), format, size);
  }

  /** Everything in front of the sound data of such a file. */
  function HeadAmong(s: Sound, r: int, before: seq<Chunk>, after: seq<Chunk>, size: nat): seq<byte> {
    RIFF + Num(r, 4) + WAVE + Pieces(before, 4, false) + FormatChunk(s) + Pieces(after, 4, false) + DATA + Num(size, 4)
  }

  lemma HeadPlaces(s: Sound, r: int, before: seq<Chunk>, after: seq<Chunk>, size: nat, data: seq<byte>, h: seq<byte>)
    returns (p: nat, q: nat, e: nat)
    requires h == HeadAmong(s, r, before, after, size) + data
    ensures p == 12 + |Pieces(before, 4, false)| && q == p + (if IsExtended(s) then 48 else 24)
    ensures e == q + |Pieces(after, 4, false)|
    ensures |HeadAmong(s, r, before, after, size)| == e + 8 <= |h| && h[8..12] == WAVE
    ensures At(h, 12, Pieces(before, 4, false)) && At(h, p, FormatChunk(s)) && At(h, q, Pieces(after, 4, false))
    ensures At(h, e, DATA) && At(h, e + 4, Num(size, 4))
  {
    hide *;
    var b, c, d, z := Pieces(before, 4, false), FormatChunk(s), Pieces(after, 4, false), Num(size, 4);
    HeadIsJoined(s, r, before, after, size);
    LayOut(Num(r, 4), b, c, d, z, data);
    p, q, e := 12 + |b|, 12 + |b| + |c|, 12 + |b| + |c| + |d|;
  }

  lemma HeadIsJoined(s: Sound, r: int, before: seq<Chunk>, after: seq<Chunk>, size: nat)
    ensures HeadAmong(s, r, before, after, size)
            == RIFF + Num(r, 4) + WAVE + Pieces(before, 4, false) + FormatChunk(s) + Pieces(after, 4, false) + DATA
               + Num(size, 4)
    ensures |FormatChunk(s)| == (if IsExtended(s) then 48 else 24)
    ensures |HeadAmong(s, r, before, after, size)|
            == 20 + |Pieces(before, 4, false)| + |FormatChunk(s)| + |Pieces(after, 4, false)|
  {
    hide Store, Pieces;
  }

  /**
   * Reading a file that has other chunks before and after the format chunk, padded to even lengths: it is read
   * just as without them, only that the sound data starts later.
   */
  lemma ForeignChunks(s: Sound, r: int, before: seq<Chunk>, after: seq<Chunk>, size: nat, data: seq<byte>)
    requires s.Writable() && !s.bigendian && size < WAVEMAXBYTES && Foreign(before) && Foreign(after)
    ensures var head := HeadAmong(s, r, before, after, size);
            Read(head + data) == Ok(s.(headersize := |head|, bytelimit := Even(size)))
  {
    var file := HeadAmong(s, r, before, after, size) + data;
    hide *;
    var p, q, e := HeadPlaces(s, r, before, after, size, data, file);
    ReadAmong(s, file, before, after, size, p, q, e);
  }

  lemma ReadAmong(s: Sound, file: seq<byte>, before: seq<Chunk>, after: seq<Chunk>, size: nat, p: nat, q: nat, e: nat)
    requires s.Writable() && !s.bigendian && size < WAVEMAXBYTES && Foreign(before) && Foreign(after)
    requires 20 <= e + 8 <= |file| && file[8..12] == WAVE
    requires p == 12 + |Pieces(before, 4, false)| && q == p + (if IsExtended(s) then 48 else 24)
    requires e == q + |Pieces(after, 4, false)| && At(file, q, Pieces(after, 4, false))
    requires At(file, 12, Pieces(before, 4, false)) && At(file, p, FormatChunk(s))
    requires At(file, e, DATA) && At(file, e + 4, Num(size, 4))
    ensures Read(file) == Ok(s.(headersize := e + 8, bytelimit := Even(size)))
  {
    hide Scan, Patch, ZeroBuffer, Store, Pieces, FormatChunk, Even, Sound.Writable, Foreign, At;
    ScanAmong(s, file, Patch(ZeroBuffer(), 0, file[..12]), before, after, size, p, q, e);
  }

  lemma LayOut(r: seq<byte>, b: seq<byte>, c: seq<byte>, d: seq<byte>, size: seq<byte>, data: seq<byte>)
    requires |r| == |size| == 4
    ensures var h := RIFF + r + WAVE + b + c + d + DATA + size + data;
            && h[8..12] == WAVE && At(h, 12, b) && At(h, 12 + |b|, c) && At(h, 12 + |b| + |c|, d)
            && At(h, 12 + |b| + |c| + |d|, DATA) && At(h, 12 + |b| + |c| + |d| + 4, size)
            && |h| == 20 + |b| + |c| + |d| + |data|
  {
  }

  // ----- writing at once and updating later -----

  /**
   * The header the writer makes for n frames is the one an update to n frames makes exactly when the sound
   * data needs no padding: the writer leaves the padding byte out of the RIFF size.
   */
  lemma WriteMatchesUpdateIff(s: Sound, nframes: nat)
    requires s.Writable()
    ensures var size := s.DataSize(nframes);
            Header(s, size + HeaderSize(s) - 8, s.nchannels * nframes, Even(size)) == HeaderFor(s, nframes)
            <==> size % 2 == 0
  {
    hide Header, Even, Sound.DataSize;
    PaddingShows(s, s.DataSize(nframes), s.nchannels * nframes);
  }

  lemma PaddingShows(s: Sound, size: nat, samples: int)
    ensures Header(s, size + HeaderSize(s) - 8, samples, Even(size))
            == Header(s, Even(size) + HeaderSize(s) - 8, samples, Even(size))
            <==> size % 2 == 0
  {
    hide Header;
    if size % 2 == 1 { HeadersDiffer(s, size + HeaderSize(s) - 8, samples, Even(size)); }
  }

  lemma HeadersDiffer(s: Sound, r: nat, m: int, d: int)
    ensures Header(s, r, m, d) != Header(s, r + 1, m, d)
  {
    RiffSizes(s, r, m, d);
    RiffSizes(s, r + 1, m, d);
    NumLow(r);
    NumLow(r + 1);
    hide Store, Header;
  }

  lemma RiffSizes(s: Sound, r: int, m: int, d: int)
    ensures Header(s, r, m, d)[4..8] == Num(r, 4)
  {
    hide Store, FormatChunk, FactChunk;
  }

  lemma NumLow(x: int)
    ensures Num(x, 4)[0] as int == x % 256
  {
    BigEndianAt(x, 4);
  }
}
