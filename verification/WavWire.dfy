/** The bytes of a WAV file in plain numbers: identifiers, field offsets and byte order, of what is
    written and of what is parsed. */
module WavWire {
  import opened Bytes
  import opened WavFormat
  import opened WavState
  import opened WavCoherence
  import opened WavGrammar

  /** Sixteen bits at `at`, low byte first. */
  predicate Holds16(b: seq<u8>, at: nat, v: int)
  {
    at + 2 <= |b| && b[at] == v % 0x100 && b[at + 1] == v / 0x100
  }

  /** Thirty-two bits at `at`, low byte first. */
  predicate Holds32(b: seq<u8>, at: nat, v: int)
  {
    && at + 4 <= |b| && b[at] == v % 0x100 && b[at + 1] == v / 0x100 % 0x100
    && b[at + 2] == v / 0x1_0000 % 0x100 && b[at + 3] == v / 0x100_0000
  }

  /** The identifiers on disk: RIFF, WAVE, fmt, fact and data. */
  lemma Identifiers()
    ensures LE32(RIFF_ID) == [0x52, 0x49, 0x46, 0x46]
    ensures LE32(WAVE_ID) == [0x57, 0x41, 0x56, 0x45]
    ensures LE32(FORMAT_ID) == [0x66, 0x6D, 0x74, 0x20]
    ensures LE32(FACT_ID) == [0x66, 0x61, 0x63, 0x74]
    ensures LE32(DATA_ID) == [0x64, 0x61, 0x74, 0x61]
  {
  }

  /** The tags the parser accepts: PCM, IEEE float, A-law and mu-law. */
  lemma SupportedTags(tag: u16)
    ensures Supported(tag) <==> tag == 1 || tag == 3 || tag == 6 || tag == 7
  {
  }

  lemma FieldInside16(b: seq<u8>, at: nat, v: u16)
    requires at + 2 <= |b| && b[at..at + 2] == LE16(v)
    ensures Holds16(b, at, v)
  {
    assert b[at] == b[at..at + 2][0] && b[at + 1] == b[at..at + 2][1];
  }

  lemma FieldInside32(b: seq<u8>, at: nat, v: u32)
    requires at + 4 <= |b| && b[at..at + 4] == LE32(v)
    ensures Holds32(b, at, v)
  {
    var e := b[at..at + 4];
    assert b[at] == e[0] && b[at + 1] == e[1] && b[at + 2] == e[2] && b[at + 3] == e[3];
    assert LE32(v)[0] == LE16(v % 0x1_0000)[0] && LE32(v)[1] == LE16(v % 0x1_0000)[1];
    assert LE32(v)[2] == LE16(v / 0x1_0000)[0] && LE32(v)[3] == LE16(v / 0x1_0000)[1];
  }

  // ---------- what is written ----------

  /** The 44 bytes of a header, field by field. */
  predicate HeaderHolds(b: seq<u8>, f: Format, size: u32)
  {
    && |b| >= 44
    && b[0..4] == [0x52, 0x49, 0x46, 0x46] && Holds32(b, 4, (36 + size) % 0x1_0000_0000)
    && b[8..16] == [0x57, 0x41, 0x56, 0x45, 0x66, 0x6D, 0x74, 0x20] && Holds32(b, 16, 16)
    && Holds16(b, 20, f.tag) && Holds16(b, 22, f.channels) && Holds32(b, 24, f.rate)
    && Holds32(b, 28, f.avgBytes) && Holds16(b, 32, f.blockAlign) && Holds16(b, 34, f.bits)
    && b[36..40] == [0x64, 0x61, 0x74, 0x61] && Holds32(b, 40, size)
  }

  lemma HeaderSlices(f: Format, size: u32)
    ensures var h := CanonicalHeader(f, size);
            && h[0..4] == LE32(RIFF_ID) && h[4..8] == LE32(Wrap32(36 + size))
            && h[8..16] == LE32(WAVE_ID) + LE32(FORMAT_ID) && h[16..20] == LE32(16)
            && h[20..36] == EncodePlain(f) && h[36..40] == LE32(DATA_ID) && h[40..44] == LE32(size)
  {
    hide LE32, EncodePlain;
  }

  lemma PlainSlices(f: Format)
    ensures var p := EncodePlain(f);
            && p[0..2] == LE16(f.tag) && p[2..4] == LE16(f.channels) && p[4..8] == LE32(f.rate)
            && p[8..12] == LE32(f.avgBytes) && p[12..14] == LE16(f.blockAlign) && p[14..16] == LE16(f.bits)
  {
    hide LE16, LE32;
  }

  lemma SliceOfSlice(b: seq<u8>, p: seq<u8>, at: nat, lo: nat, hi: nat)
    requires at + |p| <= |b| && b[at..at + |p|] == p && lo <= hi <= |p|
    ensures b[at + lo..at + hi] == p[lo..hi]
  {
    forall i | 0 <= i < hi - lo
      ensures b[at + lo..at + hi][i] == p[lo..hi][i]
    {
      assert b[at..at + |p|][lo + i] == b[at + lo + i];
    }
  }

  /** The header this library writes, byte by byte. */
  lemma HeaderBytes(f: Format, size: u32)
    ensures HeaderHolds(CanonicalHeader(f, size), f, size)
  {
    var h, p := CanonicalHeader(f, size), EncodePlain(f);
    Identifiers();
    hide CanonicalHeader, EncodePlain, LE16, LE32, Holds16, Holds32;
    HeaderSlices(f, size);
    PlainSlices(f);
    SliceOfSlice(h, p, 20, 0, 2);
    SliceOfSlice(h, p, 20, 2, 4);
    SliceOfSlice(h, p, 20, 4, 8);
    SliceOfSlice(h, p, 20, 8, 12);
    SliceOfSlice(h, p, 20, 12, 14);
    SliceOfSlice(h, p, 20, 14, 16);
    FieldInside32(h, 4, Wrap32(36 + size));
    FieldInside32(h, 16, 16);
    FieldInside16(h, 20, f.tag);
    FieldInside16(h, 22, f.channels);
    FieldInside32(h, 24, f.rate);
    FieldInside32(h, 28, f.avgBytes);
    FieldInside16(h, 32, f.blockAlign);
    FieldInside16(h, 34, f.bits);
    FieldInside32(h, 40, size);
  }

  lemma HeaderPrefix(h: seq<u8>, b: seq<u8>, f: Format, size: u32)
    requires HeaderHolds(h, f, size) && |h| == 44 && |b| >= 44 && b[..44] == h
    ensures HeaderHolds(b, f, size)
  {
    assert b[0..4] == h[0..4] && b[8..16] == h[8..16] && b[36..40] == h[36..40];
    assert forall i :: 0 <= i < 44 ==> b[i] == h[i];
  }

  /** The file of a coherent recording, byte by byte: the header for the records in memory, with the
      size of the audio modulo 2^32, and the audio from byte 44 on. */
  lemma RecordingBytes(s: State)
    requires Coherent(s)
    ensures HeaderHolds(s.disk, s.format.body, (|s.disk| - 44) % 0x1_0000_0000)
    ensures Audio(s) == s.disk[44..]
  {
    HeaderBytes(s.format.body, s.data.header.size);
    HeaderPrefix(CanonicalHeader(s.format.body, s.data.header.size), s.disk, s.format.body, s.data.header.size);
  }

  /** A file just opened for writing or appending: 44 bytes that say PCM, two channels, 44100 Hz, 16 bits
      and no audio. */
  lemma NewFileBytes(mode: Mode)
    requires mode.write || mode.append
    ensures var s := NewState(mode);
            && s.disk == [0x52, 0x49, 0x46, 0x46, 0x24, 0, 0, 0, 0x57, 0x41, 0x56, 0x45,
                          0x66, 0x6D, 0x74, 0x20, 0x10, 0, 0, 0, 1, 0, 2, 0,
                          0x44, 0xAC, 0, 0, 0x10, 0xB1, 2, 0, 4, 0, 0x10, 0,
                          0x64, 0x61, 0x74, 0x61, 0, 0, 0, 0]
            && s.pos == 44 && s.mode == mode && s.isNew == mode.append && s.err == Ok && !s.eof
  {
    NewIsHeader(mode);
    DefaultHeader();
    hide NewState, CanonicalHeader;
  }

  lemma DefaultParts()
    ensures RiffPart(0) == [0x52, 0x49, 0x46, 0x46, 0x24, 0, 0, 0, 0x57, 0x41, 0x56, 0x45]
    ensures EncodeHeader(ChunkHeader(FORMAT_ID, PLAIN_SIZE)) == [0x66, 0x6D, 0x74, 0x20, 0x10, 0, 0, 0]
    ensures EncodePlain(DEFAULT_FORMAT) == [1, 0, 2, 0, 0x44, 0xAC, 0, 0, 0x10, 0xB1, 2, 0, 4, 0, 0x10, 0]
    ensures DataPart(0) == [0x64, 0x61, 0x74, 0x61, 0, 0, 0, 0]
  {
    Identifiers();
    assert LE32(0x24) == [0x24, 0, 0, 0] && LE32(0x10) == [0x10, 0, 0, 0] && LE32(0) == [0, 0, 0, 0];
    assert LE16(1) == [1, 0] && LE16(2) == [2, 0] && LE16(4) == [4, 0] && LE16(0x10) == [0x10, 0];
    assert LE32(44100) == [0x44, 0xAC, 0, 0] && LE32(176400) == [0x10, 0xB1, 2, 0];
    hide LE16, LE32;
  }

  lemma DefaultHeader()
    ensures CanonicalHeader(DEFAULT_FORMAT, 0)
         == [0x52, 0x49, 0x46, 0x46, 0x24, 0, 0, 0, 0x57, 0x41, 0x56, 0x45,
             0x66, 0x6D, 0x74, 0x20, 0x10, 0, 0, 0, 1, 0, 2, 0,
             0x44, 0xAC, 0, 0, 0x10, 0xB1, 2, 0, 4, 0, 0x10, 0,
             0x64, 0x61, 0x74, 0x61, 0, 0, 0, 0]
  {
    DefaultParts();
    hide RiffPart, DataPart, EncodeHeader, EncodePlain;
  }

  lemma NewIsHeader(mode: Mode)
    requires mode.write || mode.append
    ensures var s := NewState(mode);
            && s.disk == CanonicalHeader(DEFAULT_FORMAT, 0) && s.pos == 44 && s.mode == mode
            && s.isNew == mode.append && s.err == Ok && !s.eof
  {
    NewCoherent(mode);
    CoherentIsImage(NewState(mode));
  }

  // ---------- what is parsed ----------

  /** The first twelve bytes the parser asks for. */
  lemma RiffHeadBytes(size: u32)
    ensures var b := RiffHead(size);
            b[0..4] == [0x52, 0x49, 0x46, 0x46] && Holds32(b, 4, size) && b[8..12] == [0x57, 0x41, 0x56, 0x45]
  {
    var b := RiffHead(size);
    Identifiers();
    hide LE32;
    assert b[0..4] == LE32(RIFF_ID) && b[4..8] == LE32(size) && b[8..12] == LE32(WAVE_ID);
    FieldInside32(b, 4, size);
  }

  /** The chunks of the grammar as bytes: identifier, size low byte first, body; and which bodies there
      are. */
  lemma PieceBytes(p: Piece)
    requires Valid(p)
    ensures var b := Spell(p);
            && |b| == 8 + |p.body| && Holds32(b, 4, |p.body|) && b[8..] == p.body
            && (p.FormatPiece? ==> b[0..4] == [0x66, 0x6D, 0x74, 0x20] && 0 < |p.body| <= 40)
            && (p.FactPiece? ==> b[0..4] == [0x66, 0x61, 0x63, 0x74] && 0 < |p.body| <= 4)
            && (p.OtherPiece? ==> Holds32(b, 0, p.id))
  {
    var b, h := Spell(p), HeaderOf(p);
    Identifiers();
    hide LE32;
    assert b[0..4] == LE32(h.id) && b[4..8] == LE32(h.size);
    FieldInside32(b, 4, h.size);
    FieldInside32(b, 0, h.id);
  }

  lemma DataHeaderBytes(size: u32)
    ensures var b := EncodeHeader(ChunkHeader(DATA_ID, size));
            b[0..4] == [0x64, 0x61, 0x74, 0x61] && Holds32(b, 4, size)
  {
    var b := EncodeHeader(ChunkHeader(DATA_ID, size));
    Identifiers();
    hide LE32;
    assert b[0..4] == LE32(DATA_ID) && b[4..8] == LE32(size);
    FieldInside32(b, 4, size);
  }
}
