/** The recorder's use of the WAV file: one configuration from the stream settings, then whole
    fragments appended. */
module RecorderSpec {
  import opened Bytes
  import opened Settings
  import opened WavFormat
  import opened WavState
  import opened WavCoherence
  import opened WavRuns
  import opened WavWire

  /** ceil(bit_depth / 8) */
  function SampleBytes(bitDepth: u32): nat { (bitDepth + 7) / 8 }

  function TagOf(bitDepth: u32): u16 { if bitDepth == 32 then IEEE_FLOAT else PCM }

  /** Settings the command line admits, whose frames fit the header and whose fragments are whole
      frames (the period granted by the sound card is the one asked for). */
  predicate InRange(cfg: StreamSettings)
  {
    && (cfg.bitDepth == 16 || cfg.bitDepth == 24 || cfg.bitDepth == 32)
    && 1 <= cfg.channels && SampleBytes(cfg.bitDepth) * cfg.channels < TWO_16
    && cfg.dataLen == SampleBytes(cfg.bitDepth) * cfg.channels * cfg.framesPerPdu
  }

  function RecorderConfig(cfg: StreamSettings): Config
  {
    Config(TagOf(cfg.bitDepth), SampleBytes(cfg.bitDepth), cfg.channels, cfg.sampleRate)
  }

  const WRITE_MODE: Mode := Mode(false, true, false)

  /** A recording for these settings that holds this audio so far. */
  ghost predicate Recorder(s: State, cfg: StreamSettings, audio: seq<u8>)
  {
    && Sequential(s) && s.mode == WRITE_MODE && s.err == Ok
    && ConfigOf(s.format.body) == RecorderConfig(cfg) && Audio(s) == audio
  }

  /** An empty recording with this configuration. */
  ghost predicate Blank(s: State, c: Config)
  {
    && Good(s) && s.mode == WRITE_MODE && s.err == Ok && Audio(s) == [] && s.pos == NEW_DATA_OFFSET
    && ConfigOf(s.format.body) == c
  }

  const DEFAULT_CONFIG: Config := Config(PCM, 2, 2, 44100)

  /** The recorder's set-up never leaves the range, and ends in the configuration it is for. */
  lemma SetUpFits(cfg: StreamSettings)
    requires InRange(cfg)
    ensures var size := SampleBytes(cfg.bitDepth);
            var c := Effect(DEFAULT_CONFIG, SetFormat(TagOf(cfg.bitDepth)));
            && Fits(c) && Fits(c.(size := size)) && Fits(c.(size := size, channels := cfg.channels))
            && c.(size := size, channels := cfg.channels, rate := cfg.sampleRate) == RecorderConfig(cfg)
            && Fits(RecorderConfig(cfg)) && 1 <= size <= 4 && cfg.channels < TWO_16
  {
  }

  /** One setter of the recorder's set-up. */
  lemma SetUpStep(s: State, c: Config, op: Op)
    requires Blank(s, c) && IsSetter(op) && op != SetFormat(EXTENSIBLE)
    requires (op.SetSampleSize? ==> op.size >= 1) && (op.SetChannels? ==> op.channels >= 1)
    requires Fits(Effect(c, op))
    ensures WriteReady(s) && Allowed(s, op) && Settable(s) && Blank(Step(s, op), Effect(c, op))
  {
    SetterKeepsGood(s, op);
    SetterState(s, op);
  }

  lemma NewIsBlank()
    ensures Blank(NewState(WRITE_MODE), DEFAULT_CONFIG)
  {
    NewIsGood(WRITE_MODE);
    NewCoherent(WRITE_MODE);
  }

  lemma BlankIsRecorder(s: State, cfg: StreamSettings)
    requires Blank(s, RecorderConfig(cfg))
    ensures Recorder(s, cfg, [])
  {
  }

  /** Each fragment extends the audio by exactly its bytes. */
  lemma FragmentWritten(s: State, cfg: StreamSettings, audio: seq<u8>, fragment: seq<u8>)
    requires InRange(cfg) && Recorder(s, cfg, audio) && |fragment| == cfg.dataLen
    ensures WriteReady(s) && Transfer(s, cfg.framesPerPdu) == |fragment| && !WriteRejected(s)
    ensures Recorder(AfterWrite(s, fragment, cfg.framesPerPdu), cfg, audio + fragment)
  {
    TransferIsFrames(s, cfg.framesPerPdu);
    var op := Op.Write(fragment, cfg.framesPerPdu);
    SequentialStep(s, op);
    WriteCoherent(s, op);
    WriteStartCoherent(s);
    assert fragment[..|fragment|] == fragment;
  }

  /** What the fields of a recording's header are, in the numbers of the stream. */
  predicate HeaderOfStream(f: Format, cfg: StreamSettings)
  {
    && f.tag == (if cfg.bitDepth == 32 then 3 else 1) && f.channels == cfg.channels && f.rate == cfg.sampleRate
    && f.blockAlign == cfg.bitDepth / 8 * cfg.channels && f.bits == cfg.bitDepth
    && f.avgBytes == (cfg.bitDepth / 8 * cfg.channels * cfg.sampleRate) % 0x1_0000_0000
  }

  /** A recording on disk, in the numbers of the stream: float for 32 bits and PCM otherwise, as many
      channels, bits and samples a second as the stream has, and the audio behind the header. */
  lemma RecorderBytes(s: State, cfg: StreamSettings, audio: seq<u8>)
    requires InRange(cfg) && Recorder(s, cfg, audio)
    ensures HeaderOfStream(s.format.body, cfg)
    ensures var d := s.disk;
            && |d| == 44 + |audio| && d[44..] == audio
            && d[0..4] == [0x52, 0x49, 0x46, 0x46] && d[8..16] == [0x57, 0x41, 0x56, 0x45, 0x66, 0x6D, 0x74, 0x20]
            && d[20..22] == (if cfg.bitDepth == 32 then [3, 0] else [1, 0])
            && Holds16(d, 22, cfg.channels) && Holds32(d, 24, cfg.sampleRate)
            && Holds32(d, 28, (cfg.bitDepth / 8 * cfg.channels * cfg.sampleRate) % 0x1_0000_0000)
            && Holds16(d, 32, cfg.bitDepth / 8 * cfg.channels) && Holds16(d, 34, cfg.bitDepth)
            && d[36..40] == [0x64, 0x61, 0x74, 0x61] && Holds32(d, 40, |audio| % 0x1_0000_0000)
  {
    StreamFields(s.format.body, cfg);
    RecordingBytes(s);
    RecorderAudio(s, cfg, audio);
    hide Recorder, InRange, HeaderOfStream, HeaderHolds, Holds16, Holds32;
    StreamBytes(s.disk, s.format.body, cfg, |audio| % 0x1_0000_0000);
  }

  lemma RecorderAudio(s: State, cfg: StreamSettings, audio: seq<u8>)
    requires Recorder(s, cfg, audio)
    ensures |s.disk| == 44 + |audio| && s.disk[44..] == audio
  {
    hide CanonicalHeader, Consistent;
  }

  lemma StreamBytes(d: seq<u8>, f: Format, cfg: StreamSettings, size: u32)
    requires HeaderHolds(d, f, size) && HeaderOfStream(f, cfg)
    ensures d[0..4] == [0x52, 0x49, 0x46, 0x46] && d[8..16] == [0x57, 0x41, 0x56, 0x45, 0x66, 0x6D, 0x74, 0x20]
    ensures d[20..22] == (if cfg.bitDepth == 32 then [3, 0] else [1, 0])
    ensures Holds16(d, 22, cfg.channels) && Holds32(d, 24, cfg.sampleRate)
    ensures Holds32(d, 28, (cfg.bitDepth / 8 * cfg.channels * cfg.sampleRate) % 0x1_0000_0000)
    ensures Holds16(d, 32, cfg.bitDepth / 8 * cfg.channels) && Holds16(d, 34, cfg.bitDepth)
    ensures d[36..40] == [0x64, 0x61, 0x74, 0x61] && Holds32(d, 40, size)
  {
    hide Holds32;
    assert d[20..22] == [d[20], d[21]];
  }

  lemma StreamFields(f: Format, cfg: StreamSettings)
    requires InRange(cfg) && Consistent(f) && ConfigOf(f) == RecorderConfig(cfg)
    ensures HeaderOfStream(f, cfg)
  {
    assert SampleBytes(cfg.bitDepth) == cfg.bitDepth / 8 && cfg.bitDepth / 8 * 8 == cfg.bitDepth;
  }
}
