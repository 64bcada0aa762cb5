/** What each WAV operation does to the whole state of an open file: the byte image on disk,
    the stream position and the in-memory chunk records.  The class in WavFile is proved
    against these functions; the theorems about runs are proved on them. */
module WavState {
  import opened Bytes
  import opened WavFormat

  datatype Mode = Mode(read: bool, write: bool, append: bool)

  datatype ErrCode = Ok | FormatError | ModeError | ParamError

  datatype Origin = Set | Cur | End

  datatype State = State(disk: seq<u8>, pos: nat, eof: bool, mode: Mode, isNew: bool,
                         riff: MasterChunk, format: FormatChunk, fact: FactChunk, data: DataChunk,
                         err: ErrCode)

  // ---------- plain reads ----------

  predicate Playable(s: State) { s.format.body.channels > 0 && s.format.body.blockAlign > 0 }

  function SampleSize(s: State): nat
    requires s.format.body.channels > 0
  {
    s.format.body.blockAlign / s.format.body.channels
  }

  /** Length in frames. */
  function Length(s: State): nat
    requires s.format.body.blockAlign > 0
  {
    s.data.header.size / s.format.body.blockAlign
  }

  /** Position in frames. */
  function Tell(s: State): nat
    requires s.format.body.blockAlign > 0 && s.pos >= s.data.offset
  {
    (s.pos - s.data.offset) / s.format.body.blockAlign
  }

  predicate AtEof(s: State) { s.eof || s.pos == s.data.offset + s.data.header.size }

  predicate Writable(s: State) { s.mode.write || s.mode.append }

  /** Opened for appending and nothing else: every write first goes to the end. */
  predicate AppendOnly(s: State) { s.mode.append && !s.mode.read && !s.mode.write }

  /** Settings may change in a writing mode, and in an appending one while nothing is recorded. */
  predicate MaySet(mode: Mode, isNew: bool, data: DataChunk)
  {
    mode.write || (mode.append && isNew && data.header.size == 0)
  }

  predicate Settable(s: State) { MaySet(s.mode, s.isNew, s.data) }

  // ---------- writing the header ----------

  /** The chunks that are present lie at offsets a header can precede, with bodies that fit. */
  predicate Layout(s: State)
  {
    && (s.format.header.id == FORMAT_ID ==> s.format.offset >= 8 && 0 < s.format.header.size <= BODY_SIZE)
    && (s.fact.header.id == FACT_ID ==> s.fact.offset >= 8 && 0 < s.fact.header.size <= 4)
    && (s.data.header.id == DATA_ID ==> s.data.offset >= 8)
  }

  function RiffSize(format: FormatChunk, fact: FactChunk, data: DataChunk): u32
  {
    Wrap32(4 + (if format.header.id == FORMAT_ID then 8 + format.header.size else 0)
             + (if fact.header.id == FACT_ID then 8 + fact.header.size else 0)
             + (if data.header.id == DATA_ID then 8 + data.header.size else 0))
  }

  function Put(s: State, at: nat, b: seq<u8>): State
  {
    s.(disk := Patch(s.disk, at, b), pos := at + |b|, eof := false)
  }

  function PutRiff(s: State): State
  {
    Put(s, 0, EncodeHeader(s.riff.header) + LE32(s.riff.waveId))
  }

  function PutFormat(s: State): State
    requires Layout(s)
  {
    if s.format.header.id != FORMAT_ID then s
    else Put(s, s.format.offset - 8,
             EncodeHeader(s.format.header) + EncodeBody(s.format.body)[..s.format.header.size])
  }

  function PutFact(s: State): State
    requires Layout(s)
  {
    if s.fact.header.id != FACT_ID then s
    else Put(s, s.fact.offset - 8,
             EncodeHeader(s.fact.header) + LE32(s.fact.sampleLength)[..s.fact.header.size])
  }

  function PutData(s: State): State
    requires Layout(s)
  {
    if s.data.header.id != DATA_ID then s
    else Put(s, s.data.offset - 8, EncodeHeader(s.data.header))
  }

  /** Header writing touches only the disk, the position and the RIFF size. */
  function AfterWriteHeader(s: State): (r: State)
    requires Layout(s)
    ensures r.(disk := s.disk, pos := s.pos, eof := s.eof, riff := s.riff) == s
    ensures r.riff == s.riff.(header := s.riff.header.(size := RiffSize(s.format, s.fact, s.data)))
  {
    var size := RiffSize(s.format, s.fact, s.data);
    PutData(PutFact(PutFormat(PutRiff(s.(riff := s.riff.(header := s.riff.header.(size := size)))))))
  }

  // ---------- opening ----------

  function ClosedState(disk: seq<u8>, mode: Mode): State
  {
    State(disk, 0, false, mode, false,
          MasterChunk(NO_HEADER, 0), FormatChunk(NO_HEADER, 0, ZERO_FORMAT),
          FactChunk(NO_HEADER, 0, 0), DataChunk(NO_HEADER, 0), Ok)
  }

  /** default_sub_format behind zeroed ext_size, valid bits and channel mask. */
  const DEFAULT_EXTENSION: Extension :=
    [0, 0, 0, 0, 0, 0, 0, 0,
     0x01, 0x00, 0x00, 0x00, 0x00, 0x00, 0x10, 0x00, 0x80, 0x00, 0x00, 0xAA, 0x00, 0x38, 0x9B, 0x71]

  const DEFAULT_FORMAT: Format := Format(PCM, 2, 44100, 44100 * 2 * 2, 4, 16, DEFAULT_EXTENSION)

  function NewChunks(mode: Mode): State
  {
    ClosedState([], mode).(
      isNew := mode.append,
      riff := MasterChunk(ChunkHeader(RIFF_ID, 0), WAVE_ID),
      format := FormatChunk(ChunkHeader(FORMAT_ID, PLAIN_SIZE), 20, DEFAULT_FORMAT),
      data := DataChunk(ChunkHeader(DATA_ID, 0), NEW_DATA_OFFSET))
  }

  /** A file just opened for writing or appending: always empty, with the default header. */
  function NewState(mode: Mode): State { AfterWriteHeader(NewChunks(mode)) }

  // ---------- seek, read, write ----------

  function SeekTarget(s: State, offset: int, origin: Origin): int
    requires Playable(s) && s.pos >= s.data.offset
  {
    match origin
    case Set => offset
    case Cur => offset + Tell(s)
    case End => offset + Length(s)
  }

  function AfterSeek(s: State, offset: int, origin: Origin): State
    requires Playable(s) && s.pos >= s.data.offset
  {
    var frames := SeekTarget(s, offset, origin);
    if frames < 0 then s.(err := ParamError)
    else s.(pos := s.data.offset + frames * s.format.body.blockAlign, eof := false)
  }

  /** The bytes in `count` frames, counted as items of one sample. */
  function FrameBytes(size: nat, channels: nat, count: nat): nat { size * (channels * count) }

  /** Whole frames in the `n` bytes a read delivered, as fread counts items. */
  function FramesIn(size: nat, channels: nat, n: nat): nat
    requires channels > 0
  {
    if size == 0 then 0 else n / size / channels
  }

  /** The bytes one read or write of `count` frames moves. */
  function Transfer(s: State, count: nat): nat
    requires Playable(s)
  {
    FrameBytes(SampleSize(s), s.format.body.channels, count)
  }

  datatype ReadResult = ReadResult(state: State, frames: nat, got: seq<u8>)

  /** size_t arithmetic: a position beyond the end leaves a huge remainder. */
  function Remaining(s: State): nat
    requires Playable(s) && s.pos >= s.data.offset
  {
    Wrap64(Length(s) - Tell(s))
  }

  function AfterRead(s: State, count: nat): ReadResult
    requires Playable(s) && s.pos >= s.data.offset
  {
    if !s.mode.read then ReadResult(s.(err := ModeError), 0, [])
    else if s.format.body.tag == EXTENSIBLE then ReadResult(s.(err := FormatError), 0, [])
    else if s.err != Ok || Min(count, Remaining(s)) == 0 then ReadResult(s, 0, [])
    else
      var n := Transfer(s, Min(count, Remaining(s)));
      var got := Slice(s.disk, s.pos, n);
      ReadResult(s.(pos := s.pos + |got|, eof := s.eof || |got| < n),
                 FramesIn(SampleSize(s), s.format.body.channels, |got|), got)
  }

  /** Patches the size fields on disk from memory and restores the position. */
  function AfterUpdateSizes(s: State): State
    requires Layout(s) && s.data.offset >= 4
  {
    var s1 := Put(s, 4, LE32(s.riff.header.size));
    var s2 := if s.fact.header.id == FACT_ID then Put(s1, s.fact.offset, LE32(s.fact.sampleLength)) else s1;
    Put(s2, s.data.offset - 4, LE32(s.data.header.size)).(pos := s.pos)
  }

  /** Where the next write lands. */
  function WriteStart(s: State): State
    requires Playable(s) && s.pos >= s.data.offset
  {
    if AppendOnly(s) then AfterSeek(s, 0, End) else s
  }

  /** Memory sizes grow by what was written, wherever it was written. */
  function Grow(s: State, n: nat, frames: nat): State
  {
    s.(riff := s.riff.(header := s.riff.header.(size := Wrap32(s.riff.header.size + n))),
       fact := if s.fact.header.id == FACT_ID
               then s.fact.(sampleLength := Wrap32(s.fact.sampleLength + frames)) else s.fact,
       data := s.data.(header := s.data.header.(size := Wrap32(s.data.header.size + n))))
  }

  predicate WriteRejected(s: State) { !Writable(s) || s.format.body.tag == EXTENSIBLE }

  predicate WriteReady(s: State) { Layout(s) && Playable(s) && s.pos >= s.data.offset >= 8 }

  /** Frames reported by a write of `count` frames. */
  function WrittenFrames(s: State, count: nat): nat
    requires Playable(s)
  {
    if WriteRejected(s) || count == 0 || s.err != Ok || SampleSize(s) == 0 then 0 else count
  }

  /** The bytes go down at the current position, the sizes grow, the disk is patched. */
  function AfterTransfer(s: State, b: seq<u8>, frames: nat): State
    requires Layout(s) && s.data.offset >= 8
  {
    AfterUpdateSizes(Grow(s.(disk := Patch(s.disk, s.pos, b), pos := s.pos + |b|), |b|, frames))
  }

  function AfterWrite(s: State, buffer: seq<u8>, count: nat): State
    requires WriteReady(s) && Transfer(s, count) <= |buffer|
  {
    if !Writable(s) then s.(err := ModeError)
    else if s.format.body.tag == EXTENSIBLE then s.(err := FormatError)
    else if count == 0 || s.err != Ok then s
    else AfterTransfer(WriteStart(s), buffer[..Transfer(s, count)], WrittenFrames(s, count))
  }

  // ---------- setters ----------

  function WithFormat(s: State, f: Format): State { s.(format := s.format.(body := f)) }

  function SizedFormat(f: Format, size: nat): Format
  {
    var align := Wrap16(size * f.channels);
    f.(blockAlign := align, avgBytes := Wrap32(align * f.rate), bits := Wrap16(size * 8))
  }

  function AfterSetSampleSize(s: State, size: nat): (r: State)
    requires Layout(s)
    ensures Layout(r)
  {
    if !Settable(s) then s.(err := ModeError)
    else if size < 1 then s.(err := ParamError)
    else AfterWriteHeader(WithFormat(s, SizedFormat(s.format.body, size)))
  }

  function ChanneledFormat(f: Format, channels: u16): Format
    requires f.channels > 0
  {
    var align := Wrap16(f.blockAlign / f.channels * channels);
    f.(channels := channels, blockAlign := align, avgBytes := Wrap32(align * f.rate))
  }

  function AfterSetChannels(s: State, channels: u16): State
    requires Layout(s) && s.format.body.channels > 0
  {
    if !Settable(s) then s.(err := ModeError)
    else if channels < 1 then s.(err := ParamError)
    else if channels == s.format.body.channels then s
    else AfterWriteHeader(WithFormat(s, ChanneledFormat(s.format.body, channels)))
  }

  function RatedFormat(f: Format, rate: u32): Format
  {
    f.(rate := rate, avgBytes := Wrap32(f.blockAlign * rate))
  }

  function AfterSetRate(s: State, rate: u32): State
    requires Layout(s)
  {
    if !Settable(s) then s.(err := ModeError)
    else if rate == s.format.body.rate then s
    else AfterWriteHeader(WithFormat(s, RatedFormat(s.format.body, rate)))
  }

  /** The sample size a change of format tag forces, or 0 for none. */
  function ForcedSize(tag: u16, size: nat): nat
  {
    if tag == ALAW || tag == MULAW then (if size != 1 then 1 else 0)
    else if tag == IEEE_FLOAT then (if size != 4 && size != 8 then 4 else 0)
    else 0
  }

  function TaggedState(s: State, tag: u16): State
  {
    if tag == PCM then WithFormat(s, s.format.body.(tag := tag))
    else s.(format := s.format.(header := s.format.header.(size := PLAIN_SIZE),
                                body := s.format.body.(tag := tag, ext := LE16(0) + s.format.body.ext[2..])))
  }

  function ForcedState(s: State, tag: u16): (r: State)
    requires Layout(s) && s.format.body.channels > 0
    ensures Layout(r)
  {
    var size := ForcedSize(tag, SampleSize(s));
    if size > 0 then AfterSetSampleSize(s, size) else s
  }

  function AfterSetFormat(s: State, tag: u16): State
    requires Layout(s) && s.format.body.channels > 0 && tag != EXTENSIBLE
  {
    if !Settable(s) then s.(err := ModeError)
    else if tag == s.format.body.tag then s
    else AfterWriteHeader(ForcedState(TaggedState(s, tag), tag))
  }
}
