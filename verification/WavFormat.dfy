/** The RIFF chunks of a WAV file: constants, in-memory chunk records, and the packed
    little-endian form in which they are stored. */
module WavFormat {
  import opened Bytes

  // Chunk identifiers as a little-endian machine compares them.
  const RIFF_ID: u32 := 0x4646_4952
  const WAVE_ID: u32 := 0x4556_4157
  const FORMAT_ID: u32 := 0x2074_6D66
  const FACT_ID: u32 := 0x7463_6166
  const DATA_ID: u32 := 0x6174_6164

  const PCM: u16 := 0x0001
  const IEEE_FLOAT: u16 := 0x0003
  const ALAW: u16 := 0x0006
  const MULAW: u16 := 0x0007
  const EXTENSIBLE: u16 := 0xFFFE

  /** The format tags the header parser accepts. */
  predicate Supported(tag: u16) { tag == PCM || tag == IEEE_FLOAT || tag == ALAW || tag == MULAW }

  const HEADER_SIZE: nat := 8     // sizeof(WavChunkHeader)
  const BODY_SIZE: nat := 40      // sizeof(format_chunk.body)
  const PLAIN_SIZE: nat := 16     // offset of ext_size in the body
  const NEW_DATA_OFFSET: nat := 44

  datatype ChunkHeader = ChunkHeader(id: u32, size: u32)

  /** The extension fields of the format body (ext_size, valid bits, channel mask, sub-format)
      kept as raw bytes. */
  type Extension = e: seq<u8> | |e| == 24 witness Zeros(24)

  datatype Format = Format(tag: u16, channels: u16, rate: u32, avgBytes: u32,
                           blockAlign: u16, bits: u16, ext: Extension)

  datatype MasterChunk = MasterChunk(header: ChunkHeader, waveId: u32)
  datatype FormatChunk = FormatChunk(header: ChunkHeader, offset: nat, body: Format)
  datatype FactChunk = FactChunk(header: ChunkHeader, offset: nat, sampleLength: u32)
  datatype DataChunk = DataChunk(header: ChunkHeader, offset: nat)

  const NO_HEADER: ChunkHeader := ChunkHeader(0, 0)
  const ZERO_FORMAT: Format := Format(0, 0, 0, 0, 0, 0, Zeros(24))

  function EncodeHeader(h: ChunkHeader): (b: seq<u8>)
    ensures |b| == HEADER_SIZE
  {
    LE32(h.id) + LE32(h.size)
  }

  function DecodeHeader(b: seq<u8>): ChunkHeader
    requires |b| == HEADER_SIZE
  {
    ChunkHeader(FromLE32(b[..4]), FromLE32(b[4..]))
  }

  function EncodePlain(f: Format): (b: seq<u8>)
    ensures |b| == PLAIN_SIZE
  {
    LE16(f.tag) + LE16(f.channels) + LE32(f.rate) + LE32(f.avgBytes) + LE16(f.blockAlign) + LE16(f.bits)
  }

  function EncodeBody(f: Format): (b: seq<u8>)
    ensures |b| == BODY_SIZE
  {
    EncodePlain(f) + f.ext
  }

  function DecodeBody(b: seq<u8>): Format
    requires |b| == BODY_SIZE
  {
    Format(FromLE16(b[0..2]), FromLE16(b[2..4]), FromLE32(b[4..8]), FromLE32(b[8..12]),
           FromLE16(b[12..14]), FromLE16(b[14..16]), b[16..])
  }

  /** The format record after `fread` has overwritten its first |b| bytes. */
  function Overlay(f: Format, b: seq<u8>): Format
    requires |b| <= BODY_SIZE
  {
    DecodeBody(b + EncodeBody(f)[|b|..])
  }

  /** The fact length after `fread` has overwritten its first |b| bytes. */
  function OverlayLength(n: u32, b: seq<u8>): u32
    requires |b| <= 4
  {
    FromLE32(b + LE32(n)[|b|..])
  }

  lemma HeaderRoundTrip(h: ChunkHeader)
    ensures DecodeHeader(EncodeHeader(h)) == h
  {
    var b := EncodeHeader(h);
    assert b[..4] == LE32(h.id) && b[4..] == LE32(h.size);
    LE32RoundTrip(h.id);
    LE32RoundTrip(h.size);
  }

  lemma DecodedHeaderRoundTrip(b: seq<u8>)
    requires |b| == HEADER_SIZE
    ensures EncodeHeader(DecodeHeader(b)) == b
  {
    FromLE32RoundTrip(b[..4]);
    FromLE32RoundTrip(b[4..]);
    assert b == b[..4] + b[4..];
  }

  lemma BodyRoundTrip(f: Format)
    ensures DecodeBody(EncodeBody(f)) == f
  {
    var b := EncodeBody(f);
    assert b[0..2] == LE16(f.tag) && b[2..4] == LE16(f.channels);
    assert b[4..8] == LE32(f.rate) && b[8..12] == LE32(f.avgBytes);
    assert b[12..14] == LE16(f.blockAlign) && b[14..16] == LE16(f.bits) && b[16..] == f.ext;
    LE16RoundTrip(f.tag);
    LE16RoundTrip(f.channels);
    LE32RoundTrip(f.rate);
    LE32RoundTrip(f.avgBytes);
    LE16RoundTrip(f.blockAlign);
    LE16RoundTrip(f.bits);
  }

  lemma DecodedBodyRoundTrip(b: seq<u8>)
    requires |b| == BODY_SIZE
    ensures EncodeBody(DecodeBody(b)) == b
  {
    FromLE16RoundTrip(b[0..2]);
    FromLE16RoundTrip(b[2..4]);
    FromLE32RoundTrip(b[4..8]);
    FromLE32RoundTrip(b[8..12]);
    FromLE16RoundTrip(b[12..14]);
    FromLE16RoundTrip(b[14..16]);
    hide FromLE16, FromLE32, LE16, LE32;
    assert b == b[0..2] + b[2..4] + b[4..8] + b[8..12] + b[12..14] + b[14..16] + b[16..];
  }

  /** A format record read from the sixteen plain bytes another one was stored as has the other's
      six plain fields and keeps its own extension. */
  lemma OverlayPlain(g: Format, f: Format)
    ensures Overlay(g, EncodePlain(f)) == f.(ext := g.ext)
  {
    assert EncodePlain(f) + EncodeBody(g)[PLAIN_SIZE..] == EncodeBody(f.(ext := g.ext));
    BodyRoundTrip(f.(ext := g.ext));
  }

  /** A body of at least sixteen bytes settles all plain fields: whatever the record held before
      shows only in the extension bytes. */
  lemma OverlaySettlesPlain(g: Format, g': Format, b: seq<u8>, ext: Extension)
    requires PLAIN_SIZE <= |b| <= BODY_SIZE
    ensures Overlay(g, b).(ext := ext) == Overlay(g', b).(ext := ext)
  {
    var c, c' := b + EncodeBody(g)[|b|..], b + EncodeBody(g')[|b|..];
    assert c[0..2] == c'[0..2] && c[2..4] == c'[2..4] && c[4..8] == c'[4..8];
    assert c[8..12] == c'[8..12] && c[12..14] == c'[12..14] && c[14..16] == c'[14..16];
  }
}
