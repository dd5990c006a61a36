// NeXT and Sun sound files (src/d_soundfile_next.c): one fixed header, in either byte order.
module NextHeader {
  import opened Arith
  import opened ByteOrder
  import opened SoundHeader

  const NEXTHEADSIZE: nat := 28
  const NEXTMAXBYTES: nat := 0xffff_ffff
  const NEXT_UNKNOWN_SIZE: nat := 0xffff_ffff

  const SND: seq<byte> := [0x2e, 0x73, 0x6e, 0x64]   // ".snd"
  const DNS: seq<byte> := [0x64, 0x6e, 0x73, 0x2e]   // "dns."
  const INFO: seq<byte> := [0x50, 0x64, 0x20, 0x00]  // "Pd "

  /** The format codes: 3, 4 and 6 for 16- and 24-bit integers and floats. */
  function FormatCode(bytespersample: int): int {
    if bytespersample == 2 then 3 else if bytespersample == 3 then 4 else 6
  }

  /** The length field: zero frames are written as an unknown length. */
  function LengthFor(s: Sound, nframes: nat): nat
    requires s.Writable()
  {
    if nframes > 0 then s.DataSize(nframes) else NEXT_UNKNOWN_SIZE
  }

  /** The header for a given content of the length field. */
  function Header(s: Sound, length: int): (h: seq<byte>)
    ensures |h| == NEXTHEADSIZE
  {
    (if s.bigendian then SND else DNS)
    + Store(NEXTHEADSIZE, 4, s.bigendian) + Store(length, 4, s.bigendian)
    + Store(FormatCode(s.bytespersample), 4, s.bigendian)
    + Store(s.samplerate, 4, s.bigendian) + Store(s.nchannels, 4, s.bigendian) + INFO
  }

  lemma HeaderFields(s: Sound, length: int)
    ensures var h, e := Header(s, length), s.bigendian;
            && At(h, 0, if e then SND else DNS) && At(h, 4, Store(NEXTHEADSIZE, 4, e)) && At(h, 8, Store(length, 4, e))
            && At(h, 12, Store(FormatCode(s.bytespersample), 4, e)) && At(h, 16, Store(s.samplerate, 4, e))
            && At(h, 20, Store(s.nchannels, 4, e))
  {
    hide Store;
  }

  // ----- the same in plain numbers -----

  /** The bytes of a file that starts with a header: what stands at which offset. */
  ghost predicate Bytes(f: seq<byte>, s: Sound, length: int) {
    && |f| >= 28
    && f[..4] == (if s.bigendian then [0x2e, 0x73, 0x6e, 0x64] else [0x64, 0x6e, 0x73, 0x2e])  // ".snd", "dns."
    && (s.bigendian ==>
          && Be4(f, 4) == 28 && Be4(f, 8) == length % 0x1_0000_0000
          && Be4(f, 12) == (if s.bytespersample == 2 then 3 else if s.bytespersample == 3 then 4 else 6)
          && Be4(f, 16) == s.samplerate && Be4(f, 20) == s.nchannels)
    && (!s.bigendian ==>
          && Le4(f, 4) == 28 && Le4(f, 8) == length % 0x1_0000_0000
          && Le4(f, 12) == (if s.bytespersample == 2 then 3 else if s.bytespersample == 3 then 4 else 6)
          && Le4(f, 16) == s.samplerate && Le4(f, 20) == s.nchannels)
    && f[24..28] == [0x50, 0x64, 0x20, 0]                                                      // "Pd "
  }

  lemma HeaderBytes(f: seq<byte>, s: Sound, length: int)
    requires s.Writable() && At(f, 0, Header(s, length))
    ensures Bytes(f, s, length)
  {
    var h, e := Header(s, length), s.bigendian;
    HeaderFields(s, length);
    HeaderEnd(s, length);
    Limits(s);
    hide Store, Header, Le4, Be4, At, Sound.Writable;
    BytesIn(f, 0, h, 0, if e then SND else DNS);
    NumberIn(f, 0, h, 4, NEXTHEADSIZE, 4, e);
    WrappedIn(f, 0, h, 8, length, e);
    NumberIn(f, 0, h, 12, FormatCode(s.bytespersample), 4, e);
    NumberIn(f, 0, h, 16, s.samplerate, 4, e);
    NumberIn(f, 0, h, 20, s.nchannels, 4, e);
    BytesIn(f, 0, h, 24, INFO);
  }

  lemma HeaderEnd(s: Sound, length: int)
    ensures At(Header(s, length), 24, INFO)
  {
    hide Store;
  }

  lemma WrittenBytes(f: seq<byte>, before: seq<byte>, s: Sound, length: int)
    requires s.Writable() && f == Written(before, 0, Header(s, length))
    ensures Bytes(f, s, length)
  {
    WrittenAt(before, 0, Header(s, length));
    HeaderBytes(f, s, length);
    hide Bytes, Header;
  }

  // ----- writing -----

  method WriteHeader(file: File, s: Sound, nframes: nat) returns (written: nat)
    requires s.Writable()
    modifies file
    ensures written == NEXTHEADSIZE
    ensures file.data == Written(old(file.data), 0, Header(s, LengthFor(s, nframes)))
    ensures Bytes(file.data, s, if nframes > 0 then nframes * (s.nchannels * s.bytespersample) else 0xffff_ffff)
  {
    hide Bytes;
    var swap := s.bigendian;
    var datasize := if nframes > 0 then s.DataSize(nframes) else NEXT_UNKNOWN_SIZE;
    var id, onset, length := SND, Store(NEXTHEADSIZE, 4, swap), Store(datasize, 4, swap);
    if !s.bigendian { id := Reversed(id); }
    var format;
    if s.bytespersample == 2 { format := Store(3, 4, swap); }
    else if s.bytespersample == 3 { format := Store(4, 4, swap); }
    else { format := Store(6, 4, swap); }
    assert Reversed(SND) == DNS;
    hide Store;
    file.Write(0, id + onset + length + format + Store(s.samplerate, 4, swap) + Store(s.nchannels, 4, swap) + INFO);
    written := NEXTHEADSIZE;
    WrittenBytes(file.data, old(file.data), s, datasize);
  }

  method UpdateHeader(file: File, s: Sound, nframes: nat)
    requires s.Writable()
    modifies file
    ensures file.data == Written(old(file.data), 8,
                                 Store(if s.DataSize(nframes) > NEXTMAXBYTES then NEXT_UNKNOWN_SIZE
                                       else s.DataSize(nframes), 4, s.bigendian))
    ensures var size := nframes * (s.nchannels * s.bytespersample);
            && |file.data| >= 12
            && (if s.bigendian then Be4(file.data, 8) else Le4(file.data, 8))
               == (if size > 0xffff_ffff then 0xffff_ffff else size)
    ensures |old(file.data)| >= 28 ==>
              |file.data| == |old(file.data)|
              && forall k: nat :: k < |file.data| && !(8 <= k < 12) ==> file.data[k] == old(file.data)[k]
  {
    hide Store, Written, Sound.DataSize, Sound.Writable, Be4, Le4;
    var datasize := s.DataSize(nframes);
    if datasize > NEXTMAXBYTES { datasize := NEXT_UNKNOWN_SIZE; }
    file.Write(8, Store(datasize, 4, s.bigendian));
    LengthBytes(old(file.data), s, nframes, datasize);
  }

  lemma LengthBytes(before: seq<byte>, s: Sound, nframes: nat, length: nat)
    requires s.Writable() && length == if s.DataSize(nframes) > 0xffff_ffff then 0xffff_ffff else s.DataSize(nframes)
    ensures var f := Written(before, 8, Store(length, 4, s.bigendian));
            var size := nframes * (s.nchannels * s.bytespersample);
            && |f| >= 12
            && (if s.bigendian then Be4(f, 8) else Le4(f, 8)) == (if size > 0xffff_ffff then 0xffff_ffff else size)
            && (|before| >= 28 ==>
                  |f| == |before| && forall k: nat :: k < |f| && !(8 <= k < 12) ==> f[k] == before[k])
  {
    assert s.DataSize(nframes) == nframes * (s.nchannels * s.bytespersample);
    hide Sound.DataSize, Sound.Writable, Store, Be4, Le4, Be2, Le2;
    assert length % 0x1_0000_0000 == length;
    WrittenNumber(before, 8, length, s.bigendian);
    WrittenIs(before, 8, Store(length, 4, s.bigendian));
  }

  /** What reading a file's header comes to. */
  function Read(file: seq<byte>): Result {
    if |file| < NEXTHEADSIZE then Failed(Unreadable)
    else
      var id := file[..4];
      if id != SND && id != DNS then Failed(Unreadable)
      else
        var big := id == SND;
        var headersize := Field(file, 4, 4, big);
        var length := Field(file, 8, 4, big);
        var format := Field(file, 12, 4, big);
        var nchannels := Signed(Field(file, 20, 4, big), 4);
        if headersize < NEXTHEADSIZE - 4 then Failed(Unreadable)
        else if format != 3 && format != 4 && format != 6 then Failed(Unsupported)
        else
          var bytespersample := if format == 3 then 2 else if format == 4 then 3 else 4;
          Ok(Sound(Signed(Field(file, 16, 4, big), 4), nchannels, bytespersample, big, nchannels * bytespersample,
                   headersize,
                   if length != NEXT_UNKNOWN_SIZE then length
                   else if 0 <= |file| - headersize <= NEXTMAXBYTES then |file| - headersize else NEXTMAXBYTES))
  }

  /**
   * In numbers: a file is read exactly if it is long enough, begins with .snd or dns., has its sound data at 24 or
   * later, and one of the three formats.
   */
  lemma Accepted(file: seq<byte>)
    ensures Read(file).Ok? <==>
              && |file| >= 28 && (file[..4] == [0x2e, 0x73, 0x6e, 0x64] || file[..4] == [0x64, 0x6e, 0x73, 0x2e])
              && var onset, format := if file[0] == 0x2e then Be4(file, 4) else Le4(file, 4),
                     if file[0] == 0x2e then Be4(file, 12) else Le4(file, 12);
                 onset >= 24 && format in {3, 4, 6}
    ensures Read(file).Ok? ==>
              var s, big := Read(file).sound, file[0] == 0x2e;
              var onset, length, format := if big then Be4(file, 4) else Le4(file, 4),
                  if big then Be4(file, 8) else Le4(file, 8), if big then Be4(file, 12) else Le4(file, 12);
              && s.bigendian == big && s.headersize == onset && (length != 0xffff_ffff ==> s.bytelimit == length)
              && s.bytespersample == (if format == 3 then 2 else if format == 4 then 3 else 4)
  {
    if |file| >= 28 && (file[..4] == SND || file[..4] == DNS) {
      assert file[..4][0] == file[0];
      FieldNumber(file, 4);
      FieldNumber(file, 8);
      FieldNumber(file, 12);
    }
    hide Field, Signed, Be4, Le4;
  }

  /**
   * Reading a freshly written header recovers everything in it, for either byte order and whatever follows
   * in the file; a header written for no frames takes its length from the file's.
   */
  lemma RoundTrip(s: Sound, nframes: nat, data: seq<byte>)
    requires s.Writable() && s.DataSize(nframes) < NEXT_UNKNOWN_SIZE && |data| <= NEXTMAXBYTES
    ensures Read(Header(s, LengthFor(s, nframes)) + data)
            == Ok(s.(headersize := NEXTHEADSIZE,
                     bytelimit := if nframes > 0 then s.DataSize(nframes) else |data|))
  {
    if nframes == 0 { s.FrameSize(); }
    hide Read, Header, Sound.DataSize;
    ReadWritten(Header(s, LengthFor(s, nframes)) + data, s, LengthFor(s, nframes));
  }

  lemma ReadWritten(file: seq<byte>, s: Sound, length: int)
    requires s.Writable() && At(file, 0, Header(s, length)) && 0 <= length <= NEXTMAXBYTES
    requires |file| <= NEXTHEADSIZE + NEXTMAXBYTES
    ensures Read(file) == Ok(s.(headersize := NEXTHEADSIZE,
                                bytelimit := if length != NEXT_UNKNOWN_SIZE then length else |file| - NEXTHEADSIZE))
  {
    hide Store, Header, Field, At, Signed, Span, FormatCode, Read, Sound.Writable;
    Limits(s);
    ReadMagic(file, s, length);
    ReadFields(file, s, length);
    SignedSmall(s.samplerate);
    SignedSmall(s.nchannels);
    FormatCodes(s.bytespersample);
    Understood(file, s, length);
  }

  lemma ReadMagic(file: seq<byte>, s: Sound, length: int)
    requires At(file, 0, Header(s, length)) && 2 <= s.bytespersample <= 4
    ensures |file| >= NEXTHEADSIZE && file[..4] == if s.bigendian then SND else DNS
  {
    var id := if s.bigendian then SND else DNS;
    HeaderFields(s, length);
    AtAt(file, 0, Header(s, length), 0, id);
    hide Header, Store;
  }

  /** A file whose fields are a description's is read as that. */
  lemma Understood(file: seq<byte>, s: Sound, length: nat)
    requires |file| >= NEXTHEADSIZE && file[..4] == if s.bigendian then SND else DNS
    requires 2 <= s.bytespersample <= 4 && s.bytesperframe == s.nchannels * s.bytespersample
    requires var e := s.bigendian;
             && Field(file, 4, 4, e) == NEXTHEADSIZE && Field(file, 8, 4, e) == length
             && Field(file, 12, 4, e) == (if s.bytespersample == 4 then 6 else s.bytespersample + 1)
             && Signed(Field(file, 16, 4, e), 4) == s.samplerate && Signed(Field(file, 20, 4, e), 4) == s.nchannels
    requires |file| <= NEXTHEADSIZE + NEXTMAXBYTES
    ensures Read(file) == Ok(s.(headersize := NEXTHEADSIZE,
                                bytelimit := if length != NEXT_UNKNOWN_SIZE then length else |file| - NEXTHEADSIZE))
  {
    assert SND != DNS by { assert SND[0] != DNS[0]; }
    hide Field, Signed;
    if s.bytespersample == 2 {
      assert s.bytesperframe == s.nchannels * 2;
    } else if s.bytespersample == 3 {
      assert s.bytesperframe == s.nchannels * 3;
    } else {
      assert s.bytesperframe == s.nchannels * 4;
    }
  }

  lemma FormatCodes(bytespersample: int)
    requires 2 <= bytespersample <= 4
    ensures FormatCode(bytespersample) == if bytespersample == 4 then 6 else bytespersample + 1
  {
  }

  lemma ReadFields(file: seq<byte>, s: Sound, length: int)
    requires s.Writable() && At(file, 0, Header(s, length)) && 0 <= length <= NEXTMAXBYTES
    ensures var e := s.bigendian;
            && Field(file, 4, 4, e) == NEXTHEADSIZE && Field(file, 8, 4, e) == length
            && Field(file, 12, 4, e) == FormatCode(s.bytespersample)
            && Field(file, 16, 4, e) == s.samplerate && Field(file, 20, 4, e) == s.nchannels
  {
    var h, e := Header(s, length), s.bigendian;
    HeaderFields(s, length);
    Span8();
    hide Store, Header, Field, At, Span;
    FieldIn(file, 0, h, 4, NEXTHEADSIZE, 4, e);
    FieldIn(file, 0, h, 8, length, 4, e);
    FieldIn(file, 0, h, 12, FormatCode(s.bytespersample), 4, e);
    FieldIn(file, 0, h, 16, s.samplerate, 4, e);
    FieldIn(file, 0, h, 20, s.nchannels, 4, e);
  }

  /** The length field after an update. */
  function UpdatedLength(s: Sound, nframes: nat): nat
    requires s.Writable()
  {
    if s.DataSize(nframes) > NEXTMAXBYTES then NEXT_UNKNOWN_SIZE else s.DataSize(nframes)
  }

  /**
   * Updating a header to n > 0 frames gives the bytes a fresh header for n frames has exactly if the length
   * fits 32 bits, or is all ones in its low 32: a longer one is marked unknown by the update, where the writer
   * cuts it off.
   */
  lemma UpdateIsWriteIff(s: Sound, before: int, nframes: nat, data: seq<byte>)
    requires s.Writable() && nframes > 0
    ensures Written(Header(s, before) + data, 8, Store(UpdatedLength(s, nframes), 4, s.bigendian))
            == Header(s, LengthFor(s, nframes)) + data
            <==> s.DataSize(nframes) <= NEXTMAXBYTES || s.DataSize(nframes) % 0x1_0000_0000 == NEXT_UNKNOWN_SIZE
  {
    var d, l := s.DataSize(nframes), UpdatedLength(s, nframes);
    CutOffIff(d, l);
    hide Header, Store, Written, Sound.DataSize, Sound.Writable, UpdatedLength;
    Patched(s, before, l, data);
    HeadersEqualIff(s, l, d, data);
  }

  lemma CutOffIff(d: nat, l: nat)
    requires l == if d > NEXTMAXBYTES then NEXT_UNKNOWN_SIZE else d
    ensures l % 0x1_0000_0000 == d % 0x1_0000_0000 <==> d <= NEXTMAXBYTES || d % 0x1_0000_0000 == NEXT_UNKNOWN_SIZE
  {
  }

  /** Headers differ exactly as their length fields do, in 32 bits. */
  lemma HeadersEqualIff(s: Sound, x: nat, y: nat, data: seq<byte>)
    ensures Header(s, x) + data == Header(s, y) + data <==> x % 0x1_0000_0000 == y % 0x1_0000_0000
  {
    var e := s.bigendian;
    StoresEqualIff(x, y, e);
    HeaderLength(s, x, data);
    HeaderLength(s, y, data);
    hide Store;
  }

  lemma HeaderLength(s: Sound, x: nat, data: seq<byte>)
    ensures |Header(s, x) + data| >= 12 && (Header(s, x) + data)[8..12] == Store(x, 4, s.bigendian)
  {
    HeaderFields(s, x);
    hide Store, Header;
  }

  lemma StoresEqualIff(x: nat, y: nat, e: bool)
    ensures Store(x, 4, e) == Store(y, 4, e) <==> x % 0x1_0000_0000 == y % 0x1_0000_0000
  {
    Span8();
    LoadStore(x, 4, e);
    LoadStore(y, 4, e);
    if x % 0x1_0000_0000 == y % 0x1_0000_0000 {
      SameBytes(x, y, 4);
      hide BigEndian, Reversed;
    } else {
      hide Store, Load;
    }
  }

  /** The shortest mono float file for which the two differ. */
  lemma UpdateDiffers(s: Sound, before: int, data: seq<byte>)
    requires s.Writable() && s.nchannels == 1 && s.bytespersample == 4
    ensures Written(Header(s, before) + data, 8, Store(UpdatedLength(s, 0x4000_0000), 4, s.bigendian))
            != Header(s, LengthFor(s, 0x4000_0000)) + data
    ensures forall n: nat :: 0 < n < 0x4000_0000 ==> s.DataSize(n) <= NEXTMAXBYTES
  {
    assert s.bytesperframe == 4;
    forall n: nat ensures s.DataSize(n) == 4 * n { s.FrameSize(); }
    UpdateIsWriteIff(s, before, 0x4000_0000, data);
    hide Header, Store, Written;
  }

  lemma Patched(s: Sound, before: int, length: int, data: seq<byte>)
    ensures Written(Header(s, before) + data, 8, Store(length, 4, s.bigendian)) == Header(s, length) + data
  {
    hide Store;
  }
}
