/** Runs of operations on a file created by this library: which keep the recording coherent, what
    the setters settle on, and that append-only files stay coherent under any seeks. */
module WavRuns {
  import opened Bytes
  import opened WavFormat
  import opened WavState
  import opened WavCoherence

  // ---------- what the setters settle on ----------

  /** The four things a caller configures. */
  datatype Config = Config(tag: u16, size: nat, channels: nat, rate: u32)

  /** Both sixteen-bit fields the configuration determines fit. */
  predicate Fits(c: Config)
  {
    c.size >= 1 && 1 <= c.channels < TWO_16 && c.size * c.channels < TWO_16 && c.size * 8 < TWO_16
  }

  /** The format record that states a configuration. */
  function Uniform(c: Config, ext: Extension): Format
    requires Fits(c)
  {
    Format(c.tag, c.channels, c.rate, Wrap32(c.size * c.channels * c.rate),
           c.size * c.channels, c.size * 8, ext)
  }

  function ConfigOf(f: Format): Config
    requires f.channels > 0
  {
    Config(f.tag, f.blockAlign / f.channels, f.channels, f.rate)
  }

  /** block_align, avg_bytes_per_sec and bits_per_sample all follow from the configuration. */
  predicate Consistent(f: Format)
  {
    f.channels > 0 && Fits(ConfigOf(f)) && f == Uniform(ConfigOf(f), f.ext)
  }

  lemma UniformConsistent(c: Config, ext: Extension)
    requires Fits(c)
    ensures ConfigOf(Uniform(c, ext)) == c && Consistent(Uniform(c, ext)) && Uniform(c, ext).blockAlign > 0
  {
    MulDiv(c.size, c.channels);
    MulPositive(c.channels, c.size);
  }

  datatype Op =
    | Seek(offset: int, origin: Origin)
    | Write(buffer: seq<u8>, count: nat)
    | Read(count: nat)
    | SetFormat(tag: u16)
    | SetSampleSize(size: nat)
    | SetChannels(channels: u16)
    | SetRate(rate: u32)
    | ClearError

  predicate IsSetter(op: Op) { op.SetFormat? || op.SetSampleSize? || op.SetChannels? || op.SetRate? }

  /** A setter's meaning: it changes its own item, and a change of tag may force the sample size. */
  function Effect(c: Config, op: Op): Config
  {
    match op
    case SetFormat(tag) =>
      if tag == c.tag then c
      else Config(tag, if ForcedSize(tag, c.size) > 0 then ForcedSize(tag, c.size) else c.size, c.channels, c.rate)
    case SetSampleSize(size) => c.(size := size)
    case SetChannels(channels) => c.(channels := channels)
    case SetRate(rate) => c.(rate := rate)
    case _ => c
  }

  /** The setter refuses the call with an error instead of acting. */
  predicate SetterFails(s: State, op: Op)
  {
    !Settable(s) || (op.SetSampleSize? && op.size < 1) || (op.SetChannels? && op.channels < 1)
  }

  // ---------- one operation ----------

  /** What the library asks of a caller: no pending error unless the call cannot fail, a buffer
      as long as the frames written, and settings that fit the sixteen-bit header fields. */
  predicate Allowed(s: State, op: Op)
    requires Playable(s) && s.pos >= s.data.offset
  {
    match op
    case Seek(offset, origin) => s.err == Ok || SeekTarget(s, offset, origin) >= 0
    case Write(buffer, count) => (s.err == Ok || !WriteRejected(s)) && Transfer(s, count) <= |buffer|
    case Read(_) => s.err == Ok || (s.mode.read && s.format.body.tag != EXTENSIBLE)
    case ClearError => true
    case _ =>
      && (s.err == Ok || !SetterFails(s, op))
      && op != SetFormat(EXTENSIBLE)
      && (!SetterFails(s, op) ==> Fits(Effect(ConfigOf(s.format.body), op)))
  }

  function Step(s: State, op: Op): State
    requires WriteReady(s) && Allowed(s, op)
  {
    match op
    case Seek(offset, origin) => AfterSeek(s, offset, origin)
    case Write(buffer, count) => AfterWrite(s, buffer, count)
    case Read(count) => AfterRead(s, count).state
    case SetFormat(tag) => AfterSetFormat(s, tag)
    case SetSampleSize(size) => AfterSetSampleSize(s, size)
    case SetChannels(channels) => AfterSetChannels(s, channels)
    case SetRate(rate) => AfterSetRate(s, rate)
    case ClearError => s.(err := Ok)
  }

  /** A coherent file with a consistent, non-extensible format. */
  ghost predicate Good(s: State)
  {
    Coherent(s) && Playable(s) && Consistent(s.format.body) && s.format.body.tag != EXTENSIBLE
  }

  lemma GoodIsReady(s: State)
    requires Good(s)
    ensures WriteReady(s) && SampleSize(s) > 0
    ensures SampleSize(s) * s.format.body.channels == s.format.body.blockAlign
  {
  }

  /** The bytes an operation hands over for recording. */
  function Written(s: State, op: Op): seq<u8>
    requires WriteReady(s) && Allowed(s, op)
  {
    if op.Write? && Writable(s) && s.format.body.tag != EXTENSIBLE && op.count > 0 && s.err == Ok
    then op.buffer[..Transfer(s, op.count)] else []
  }

  /** The state of `s` once its header is rewritten for `f`. */
  function Reformatted(s: State, f: Format): State
    requires |s.disk| >= NEW_DATA_OFFSET
  {
    s.(disk := Image(f, Audio(s)), pos := NEW_DATA_OFFSET, eof := false, format := s.format.(body := f))
  }

  lemma ReformatState(s: State, f: Format)
    requires Coherent(s)
    ensures AfterWriteHeader(WithFormat(s, f)) == Reformatted(s, f)
    ensures Coherent(Reformatted(s, f)) && Audio(Reformatted(s, f)) == Audio(s)
  {
    ReformatCoherent(s, f);
    RiffSizeOfNew(WithFormat(s, f));
  }

  /** The setter leaves the file untouched because the value is already there. */
  predicate SetterIdle(s: State, op: Op)
  {
    match op
    case SetFormat(tag) => tag == s.format.body.tag
    case SetChannels(channels) => channels == s.format.body.channels
    case SetRate(rate) => rate == s.format.body.rate
    case _ => false
  }

  function ExtensionAfter(f: Format, op: Op): Extension
  {
    if op.SetFormat? && op.tag != f.tag && op.tag != PCM then LE16(0) + f.ext[2..] else f.ext
  }

  lemma SizedIsUniform(f: Format, size: nat)
    requires f.channels > 0 && Fits(ConfigOf(f).(size := size))
    ensures SizedFormat(f, size) == Uniform(ConfigOf(f).(size := size), f.ext)
  {
  }

  lemma ChanneledIsUniform(f: Format, channels: u16)
    requires Consistent(f) && Fits(ConfigOf(f).(channels := channels))
    ensures ChanneledFormat(f, channels) == Uniform(ConfigOf(f).(channels := channels), f.ext)
  {
    var size := ConfigOf(f).size;
    ChanneledFields(f, channels, size, size * channels);
  }

  /** Both ways of computing the fields, with the products named. */
  lemma ChanneledFields(f: Format, channels: u16, size: nat, align: u16)
    requires f.channels > 0 && f.blockAlign / f.channels == size && f.bits == size * 8
    requires size * channels == align && Fits(Config(f.tag, size, channels, f.rate))
    ensures ChanneledFormat(f, channels) == Uniform(Config(f.tag, size, channels, f.rate), f.ext)
  {
    assert Wrap16(f.blockAlign / f.channels * channels) == align;
    assert size * channels * f.rate == align * f.rate;
  }

  lemma SetSampleSizeState(s: State, size: nat)
    requires Good(s) && Settable(s) && size >= 1
    requires Fits(Effect(ConfigOf(s.format.body), SetSampleSize(size)))
    ensures AfterSetSampleSize(s, size)
         == Reformatted(s, Uniform(ConfigOf(s.format.body).(size := size), s.format.body.ext))
  {
    SizedIsUniform(s.format.body, size);
    ReformatState(s, SizedFormat(s.format.body, size));
  }

  lemma SetChannelsState(s: State, channels: u16)
    requires Good(s) && Settable(s) && channels >= 1 && channels != s.format.body.channels
    requires Fits(Effect(ConfigOf(s.format.body), SetChannels(channels)))
    ensures AfterSetChannels(s, channels)
         == Reformatted(s, Uniform(ConfigOf(s.format.body).(channels := channels), s.format.body.ext))
  {
    ChanneledIsUniform(s.format.body, channels);
    ReformatState(s, ChanneledFormat(s.format.body, channels));
  }

  lemma SetRateState(s: State, rate: u32)
    requires Good(s) && Settable(s) && rate != s.format.body.rate
    ensures AfterSetRate(s, rate)
         == Reformatted(s, Uniform(ConfigOf(s.format.body).(rate := rate), s.format.body.ext))
  {
    ReformatState(s, RatedFormat(s.format.body, rate));
  }

  function Tagged(f: Format, tag: u16): Format
  {
    f.(tag := tag, ext := ExtensionAfter(f, SetFormat(tag)))
  }

  lemma TaggedIsUniform(f: Format, tag: u16)
    requires Consistent(f) && tag != f.tag
    requires Fits(Effect(ConfigOf(f), SetFormat(tag)))
    ensures var size := ForcedSize(tag, ConfigOf(f).size);
            (if size > 0 then SizedFormat(Tagged(f, tag), size) else Tagged(f, tag))
              == Uniform(Effect(ConfigOf(f), SetFormat(tag)), ExtensionAfter(f, SetFormat(tag)))
  {
    var size := ForcedSize(tag, ConfigOf(f).size);
    if size > 0 {
      SizedIsUniform(Tagged(f, tag), size);
    }
  }

  lemma ReformatTwice(s: State, f: Format)
    requires Coherent(s)
    ensures AfterWriteHeader(Reformatted(s, f)) == Reformatted(s, f)
  {
    ReformatState(s, f);
    ReformatState(Reformatted(s, f), f);
    assert WithFormat(Reformatted(s, f), f) == Reformatted(s, f);
  }

  lemma ForcedSizeState(s: State, f: Format, size: nat)
    requires Coherent(s) && Settable(s) && size >= 1
    ensures AfterSetSampleSize(WithFormat(s, f), size) == Reformatted(s, SizedFormat(f, size))
  {
    assert WithFormat(WithFormat(s, f), SizedFormat(f, size)) == WithFormat(s, SizedFormat(f, size));
    ReformatState(s, SizedFormat(f, size));
  }

  lemma SetFormatState(s: State, tag: u16)
    requires Good(s) && Settable(s) && tag != s.format.body.tag && tag != EXTENSIBLE
    requires Fits(Effect(ConfigOf(s.format.body), SetFormat(tag)))
    ensures AfterSetFormat(s, tag)
         == Reformatted(s, Uniform(Effect(ConfigOf(s.format.body), SetFormat(tag)),
                                   ExtensionAfter(s.format.body, SetFormat(tag))))
  {
    var f := Tagged(s.format.body, tag);
    assert TaggedState(s, tag) == WithFormat(s, f);
    TaggedIsUniform(s.format.body, tag);
    var size := ForcedSize(tag, SampleSize(s));
    if size > 0 {
      ForcedSizeState(s, f, size);
      ReformatTwice(s, SizedFormat(f, size));
    } else {
      ReformatState(s, f);
    }
  }

  /** Every in-range setter either refuses, is idle, or rewrites the header for the configuration
      it means; nothing else about the file changes, in particular no audio is cleared. */
  lemma SetterState(s: State, op: Op)
    requires Good(s) && IsSetter(op) && Allowed(s, op)
    ensures var c := ConfigOf(s.format.body);
            Step(s, op) ==
              if !Settable(s) then s.(err := ModeError)
              else if SetterFails(s, op) then s.(err := ParamError)
              else if SetterIdle(s, op) then s
              else Reformatted(s, Uniform(Effect(c, op), ExtensionAfter(s.format.body, op)))
  {
    if !SetterFails(s, op) && !SetterIdle(s, op) {
      match op
      case SetFormat(tag) => SetFormatState(s, tag);
      case SetSampleSize(size) => SetSampleSizeState(s, size);
      case SetChannels(channels) => SetChannelsState(s, channels);
      case SetRate(rate) => SetRateState(s, rate);
    }
  }

  lemma ReformatGood(s: State, c: Config, e: Extension)
    requires Good(s) && Fits(c) && c.tag != EXTENSIBLE
    ensures var r := Reformatted(s, Uniform(c, e));
            && Good(r) && Audio(r) == Audio(s) && ConfigOf(r.format.body) == c
            && r.mode == s.mode && r.data == s.data && |r.disk| == |s.disk|
  {
    var f := Uniform(c, e);
    assert Consistent(f) && ConfigOf(f) == c && f.blockAlign > 0 by { UniformConsistent(c, e); }
    ReformatState(s, f);
  }

  /** Setters keep the header fields consistent, and say exactly which configuration results. */
  lemma SetterKeepsGood(s: State, op: Op)
    requires Good(s) && IsSetter(op) && Allowed(s, op)
    ensures var r := Step(s, op);
            && Good(r) && Audio(r) == Audio(s) && r.mode == s.mode && r.data == s.data
            && (!Settable(s) ==> r == s.(err := r.err))
            && |r.disk| == |s.disk| && (r.pos == s.pos || r.pos == NEW_DATA_OFFSET)
            && ConfigOf(r.format.body) ==
                 if SetterFails(s, op) then ConfigOf(s.format.body) else Effect(ConfigOf(s.format.body), op)
  {
    SetterState(s, op);
    if !SetterFails(s, op) && !SetterIdle(s, op) {
      var c, e := Effect(ConfigOf(s.format.body), op), ExtensionAfter(s.format.body, op);
      UniformConsistent(c, e);
      ReformatGood(s, c, e);
    }
  }

  lemma ReformatAgain(s: State, f: Format, g: Format)
    requires Coherent(s)
    ensures Reformatted(Reformatted(s, f), g) == Reformatted(s, g)
  {
    ReformatState(s, f);
  }

  /** The format record after a setter other than the tag's. */
  function SetBody(f: Format, op: Op): Format
    requires f.channels > 0 && Fits(Effect(ConfigOf(f), op))
  {
    Uniform(Effect(ConfigOf(f), op), f.ext)
  }

  lemma SetBodyCommutes(f: Format, a: Op, b: Op)
    requires f.channels > 0 && Fits(Effect(ConfigOf(f), a)) && Fits(Effect(ConfigOf(f), b))
    requires PlainSetter(a) && PlainSetter(b) && !SameItem(a, b)
    requires Fits(Effect(ConfigOf(SetBody(f, a)), b)) && Fits(Effect(ConfigOf(SetBody(f, b)), a))
    ensures SetBody(SetBody(f, a), b) == SetBody(SetBody(f, b), a)
  {
    UniformConsistent(Effect(ConfigOf(f), a), f.ext);
    UniformConsistent(Effect(ConfigOf(f), b), f.ext);
  }

  lemma PlainSetterState(s: State, op: Op)
    requires Good(s) && Settable(s) && PlainSetter(op)
    requires Allowed(s, op) && !SetterFails(s, op)
    ensures Good(Step(s, op)) && Settable(Step(s, op))
    ensures Step(s, op) == SetState(s, op)
  {
    SetterState(s, op);
    SetterKeepsGood(s, op);
  }

  predicate PlainSetter(op: Op) { op.SetSampleSize? || op.SetChannels? || op.SetRate? }

  predicate SameItem(a: Op, b: Op) { a.SetSampleSize? == b.SetSampleSize? && a.SetChannels? == b.SetChannels? }

  predicate Succeeds(s: State, op: Op)
  {
    WriteReady(s) && Allowed(s, op) && !SetterFails(s, op)
  }

  lemma StillIdle(s: State, a: Op, f: Format, b: Op)
    requires Coherent(s) && PlainSetter(a) && PlainSetter(b) && !SameItem(a, b)
    requires f.channels > 0 && Fits(Effect(ConfigOf(f), b)) && f == s.format.body
    ensures SetterIdle(Reformatted(s, SetBody(f, b)), a) == SetterIdle(s, a)
  {
  }

  /** The sample-size, channel and rate setters commute: same header, same disk, same state. */
  lemma SettersCommute(s: State, a: Op, b: Op)
    requires Good(s) && Settable(s)
    requires PlainSetter(a) && PlainSetter(b) && !SameItem(a, b)
    requires Succeeds(s, a) && Succeeds(s, b)
    requires Succeeds(Step(s, a), b) && Succeeds(Step(s, b), a)
    ensures Step(Step(s, a), b) == Step(Step(s, b), a)
  {
    PlainSetterState(s, a);
    PlainSetterState(s, b);
    PlainSetterState(Step(s, a), b);
    PlainSetterState(Step(s, b), a);
    CommutesOn(s, a, b);
  }

  function SetState(s: State, op: Op): State
    requires |s.disk| >= NEW_DATA_OFFSET && s.format.body.channels > 0
    requires Fits(Effect(ConfigOf(s.format.body), op))
  {
    if SetterIdle(s, op) then s else Reformatted(s, SetBody(s.format.body, op))
  }

  lemma CommutesOn(s: State, a: Op, b: Op)
    requires Coherent(s) && PlainSetter(a) && PlainSetter(b) && !SameItem(a, b)
    requires s.format.body.channels > 0
    requires Fits(Effect(ConfigOf(s.format.body), a)) && Fits(Effect(ConfigOf(s.format.body), b))
    requires var t := SetState(s, a); |t.disk| >= NEW_DATA_OFFSET && t.format.body.channels > 0
    requires var t := SetState(s, b); |t.disk| >= NEW_DATA_OFFSET && t.format.body.channels > 0
    requires Fits(Effect(ConfigOf(SetState(s, a).format.body), b))
    requires Fits(Effect(ConfigOf(SetState(s, b).format.body), a))
    ensures SetState(SetState(s, a), b) == SetState(SetState(s, b), a)
  {
    var f := s.format.body;
    StillIdle(s, a, f, b);
    StillIdle(s, b, f, a);
    if !SetterIdle(s, a) && !SetterIdle(s, b) {
      BothSet(s, a, b);
    }
  }

  lemma BothSet(s: State, a: Op, b: Op)
    requires Coherent(s) && PlainSetter(a) && PlainSetter(b) && !SameItem(a, b)
    requires s.format.body.channels > 0
    requires Fits(Effect(ConfigOf(s.format.body), a)) && Fits(Effect(ConfigOf(s.format.body), b))
    requires var f := s.format.body;
             Fits(Effect(ConfigOf(SetBody(f, a)), b)) && Fits(Effect(ConfigOf(SetBody(f, b)), a))
    ensures Reformatted(Reformatted(s, SetBody(s.format.body, a)), SetBody(SetBody(s.format.body, a), b))
         == Reformatted(Reformatted(s, SetBody(s.format.body, b)), SetBody(SetBody(s.format.body, b), a))
  {
    var f := s.format.body;
    SetBodyCommutes(f, a, b);
    ReformatAgain(s, SetBody(f, a), SetBody(SetBody(f, a), b));
    ReformatAgain(s, SetBody(f, b), SetBody(SetBody(f, b), a));
  }

  // ---------- which operations keep the recording ----------

  /** A write that moves bytes and does not land at the end of the file. */
  predicate Misplaced(s: State, op: Op)
    requires WriteReady(s) && Allowed(s, op)
  {
    Written(s, op) != [] && WriteStart(s).pos != |s.disk|
  }

  lemma TransferIsFrames(s: State, count: nat)
    requires Good(s)
    ensures Transfer(s, count) == s.format.body.blockAlign * count
    ensures count > 0 ==> Transfer(s, count) > 0
  {
    var size: int, channels: int, n: int := SampleSize(s), s.format.body.channels, count;
    MulAssociative(size, channels, n);
    if count > 0 {
      MulPositive(s.format.body.blockAlign, count);
    }
  }

  lemma WriteStartCoherent(s: State)
    requires Good(s)
    ensures var t := WriteStart(s);
            Coherent(t) && t == s.(pos := t.pos, eof := t.eof) && (!AppendOnly(s) ==> t == s)
  {
    MulNonnegative(Length(s), s.format.body.blockAlign);
    MovedCoherent(s, WriteStart(s).pos, WriteStart(s).eof);
  }

  lemma MovedCoherent(s: State, pos: nat, eof: bool)
    requires Coherent(s) && pos >= NEW_DATA_OFFSET
    ensures Coherent(s.(pos := pos, eof := eof))
  {
  }

  lemma NothingWritten(s: State, op: Op)
    requires Good(s) && op.Write? && Allowed(s, op) && Written(s, op) == []
    ensures Step(s, op) == s.(err := Step(s, op).err)
  {
    TransferIsFrames(s, op.count);
  }

  lemma SomethingWritten(s: State, op: Op)
    requires Good(s) && op.Write? && Allowed(s, op) && Written(s, op) != []
    ensures Step(s, op) == AfterTransfer(WriteStart(s), Written(s, op), op.count)
  {
    GoodIsReady(s);
  }

  lemma ErrorKeepsCoherent(s: State, r: State)
    requires Coherent(s) && r == s.(err := r.err)
    ensures Coherent(r) && Audio(r) == Audio(s)
  {
    hide CanonicalHeader;
  }

  lemma WriteCoherent(s: State, op: Op)
    requires Good(s) && op.Write? && Allowed(s, op)
    ensures var r := Step(s, op);
            && r.format == s.format && r.mode == s.mode
            && (Coherent(r) && Audio(r) == Audio(s) + Written(s, op) <==> !Misplaced(s, op))
            && (!Misplaced(s, op) && s.pos == |s.disk| && !AppendOnly(s) ==> r.pos == |r.disk|)
  {
    var r, w, t := Step(s, op), Written(s, op), WriteStart(s);
    WriteStartCoherent(s);
    hide AfterTransfer, Step, Coherent, Good, Allowed, WriteReady, Written, WriteStart, Audio, AppendOnly;
    if w == [] {
      NothingWritten(s, op);
      ErrorKeepsCoherent(s, r);
      assert Audio(s) + w == Audio(s);
    } else {
      SomethingWritten(s, op);
      TransferIff(t, w, op.count);
      assert Audio(t) == Audio(s) by { SameAudio(s, t); }
    }
  }

  lemma SameAudio(s: State, t: State)
    requires |s.disk| >= NEW_DATA_OFFSET && t.disk == s.disk
    ensures Audio(t) == Audio(s)
  {
  }

  /** Seeks, reads and clearing an error change the position and the flags only. */
  lemma MoveStep(s: State, op: Op)
    requires Good(s) && (op.Seek? || op.Read? || op.ClearError?) && Allowed(s, op)
    ensures var r := Step(s, op);
            Coherent(r) && r == s.(pos := r.pos, eof := r.eof, err := r.err) && Audio(r) == Audio(s)
  {
    hide CanonicalHeader, Consistent, AfterTransfer, AfterWriteHeader, FrameBytes, FramesIn;
    if op.Seek? {
      var frames := SeekTarget(s, op.offset, op.origin);
      if frames >= 0 {
        MulNonnegative(frames, s.format.body.blockAlign);
      }
    }
  }

  /** One operation on a good file appends exactly what it was given, and leaves disk and memory
      in agreement, if and only if it is not a misplaced write. */
  lemma StepCoherent(s: State, op: Op)
    requires Good(s) && Allowed(s, op)
    ensures var r := Step(s, op);
            && Consistent(r.format.body) && r.format.body.tag != EXTENSIBLE && r.mode == s.mode
            && (Coherent(r) && Audio(r) == Audio(s) + Written(s, op) <==> !Misplaced(s, op))
  {
    if IsSetter(op) {
      SetterKeepsGood(s, op);
    } else if op.Write? {
      WriteCoherent(s, op);
    } else {
      MoveStep(s, op);
    }
  }

  // ---------- runs ----------

  predicate Feasible(s: State, ops: seq<Op>)
    decreases |ops|
  {
    ops == [] || (WriteReady(s) && Allowed(s, ops[0]) && Feasible(Step(s, ops[0]), ops[1..]))
  }

  function Run(s: State, ops: seq<Op>): State
    requires Feasible(s, ops)
    decreases |ops|
  {
    if ops == [] then s else Run(Step(s, ops[0]), ops[1..])
  }

  /** Everything the run handed over for recording, in order. */
  function Recorded(s: State, ops: seq<Op>): seq<u8>
    requires Feasible(s, ops)
    decreases |ops|
  {
    if ops == [] then [] else Written(s, ops[0]) + Recorded(Step(s, ops[0]), ops[1..])
  }

  function Effects(c: Config, ops: seq<Op>): Config
    decreases |ops|
  {
    if ops == [] then c else Effects(Effect(c, ops[0]), ops[1..])
  }

  predicate AllSettersSucceed(s: State, ops: seq<Op>)
    decreases |ops|
  {
    ops == [] || (IsSetter(ops[0]) && Succeeds(s, ops[0]) && AllSettersSucceed(Step(s, ops[0]), ops[1..]))
  }

  /** Any sequence of in-range setters leaves a consistent header that states exactly the
      configuration the calls mean, and all the audio that was there. */
  lemma {:induction false} SetterRun(s: State, ops: seq<Op>)
    requires Good(s) && Feasible(s, ops) && AllSettersSucceed(s, ops)
    ensures Good(Run(s, ops)) && Audio(Run(s, ops)) == Audio(s)
    ensures ConfigOf(Run(s, ops).format.body) == Effects(ConfigOf(s.format.body), ops)
    decreases |ops|
  {
    if ops != [] {
      SetterKeepsGood(s, ops[0]);
      SetterRun(Step(s, ops[0]), ops[1..]);
    }
  }

  /** The invariant of a file opened only for appending. */
  ghost predicate AppendGood(s: State)
  {
    && Good(s) && AppendOnly(s)
    && |Audio(s)| < TWO_32 && |Audio(s)| % s.format.body.blockAlign == 0
  }

  /** Wherever the position was left, an append-only write starts at the end of the file. */
  lemma AppendStart(s: State)
    requires Coherent(s) && Playable(s) && AppendOnly(s)
    requires |Audio(s)| < TWO_32 && |Audio(s)| % s.format.body.blockAlign == 0
    ensures WriteStart(s).pos == |s.disk|
  {
    hide CanonicalHeader;
    assert s.data.header.size == |Audio(s)|;
    SameModulo(|Audio(s)|, s.data.header.size, s.format.body.blockAlign);
    EndOfFrames(s);
  }

  lemma EndOfFrames(s: State)
    requires Playable(s) && s.pos >= s.data.offset
    requires s.data.header.size % s.format.body.blockAlign == 0
    ensures AfterSeek(s, 0, End).pos == s.data.offset + s.data.header.size
  {
    ExactMultiple(s.data.header.size, s.format.body.blockAlign);
  }

  /** A write hands over whole frames. */
  lemma WholeFrames(s: State, op: Op)
    requires Good(s) && op.Write? && Allowed(s, op) && |Audio(s)| % s.format.body.blockAlign == 0
    ensures (|Audio(s)| + |Written(s, op)|) % s.format.body.blockAlign == 0
  {
    if Written(s, op) != [] {
      TransferIsFrames(s, op.count);
      ModAdd(|Audio(s)|, s.format.body.blockAlign, op.count);
    }
  }

  lemma AppendedGood(s: State, r: State, w: seq<u8>)
    requires AppendGood(s) && Coherent(r) && r.format == s.format && r.mode == s.mode
    requires Audio(r) == Audio(s) + w && |Audio(s)| + |w| < TWO_32
    requires (|Audio(s)| + |w|) % s.format.body.blockAlign == 0
    ensures AppendGood(r)
  {
  }

  lemma AppendSetter(s: State, op: Op)
    requires AppendGood(s) && IsSetter(op) && Allowed(s, op)
    ensures AppendGood(Step(s, op)) && Audio(Step(s, op)) == Audio(s)
  {
    var r := Step(s, op);
    assert Good(r) && Audio(r) == Audio(s) && r.mode == s.mode && (!Settable(s) ==> r == s.(err := r.err)) by {
      SetterKeepsGood(s, op);
    }
    if Settable(s) {
      SettableIsEmpty(s);
      EmptyIsGood(r);
    } else {
      AppendedGood(s, r, []);
    }
  }

  lemma SettableIsEmpty(s: State)
    requires AppendGood(s) && Settable(s)
    ensures Audio(s) == []
  {
    hide CanonicalHeader, Consistent;
    assert s.data.header.size == 0;
    assert |Audio(s)| == Wrap32(|Audio(s)|);
  }

  lemma EmptyIsGood(s: State)
    requires Good(s) && AppendOnly(s) && Audio(s) == []
    ensures AppendGood(s)
  {
  }

  lemma AppendStep(s: State, op: Op)
    requires AppendGood(s) && Allowed(s, op) && |Audio(s)| + |Written(s, op)| < TWO_32
    ensures AppendGood(Step(s, op)) && Audio(Step(s, op)) == Audio(s) + Written(s, op)
  {
    hide AfterTransfer, AfterWriteHeader, CanonicalHeader, Consistent, Transfer, Step;
    if IsSetter(op) {
      AppendSetter(s, op);
    } else if op.Write? {
      AppendStart(s);
      WriteCoherent(s, op);
      WholeFrames(s, op);
      AppendedGood(s, Step(s, op), Written(s, op));
    } else {
      MoveStep(s, op);
      AppendedGood(s, Step(s, op), []);
    }
  }

  /** Append-only files under any run of seeks, reads, setters and writes: the file stays the
      header in memory followed by exactly the audio written, whole frames of it. */
  lemma {:induction false} AppendRun(s: State, ops: seq<Op>)
    requires AppendGood(s) && Feasible(s, ops) && |Audio(s)| + |Recorded(s, ops)| < TWO_32
    ensures AppendGood(Run(s, ops)) && Audio(Run(s, ops)) == Audio(s) + Recorded(s, ops)
    decreases |ops|
  {
    if ops == [] {
      assert Audio(s) + [] == Audio(s);
    } else {
      AppendStep(s, ops[0]);
      AppendRun(Step(s, ops[0]), ops[1..]);
      Associative(Audio(s), Written(s, ops[0]), Recorded(Step(s, ops[0]), ops[1..]));
    }
  }

  /** What a recorder does: it configures before any audio and never seeks. */
  predicate Ordinary(s: State, ops: seq<Op>)
    requires Feasible(s, ops)
    decreases |ops|
  {
    ops == [] ||
    ((ops[0].Write? || ops[0].ClearError? || (IsSetter(ops[0]) && |s.disk| == NEW_DATA_OFFSET))
     && Ordinary(Step(s, ops[0]), ops[1..]))
  }

  /** The invariant of a recording under way in a mode that writes where it stands. */
  ghost predicate Sequential(s: State)
  {
    Good(s) && !AppendOnly(s) && s.pos == |s.disk| && |Audio(s)| % s.format.body.blockAlign == 0
  }

  lemma SequentialStep(s: State, op: Op)
    requires Sequential(s) && Allowed(s, op)
    requires op.Write? || op.ClearError? || (IsSetter(op) && Audio(s) == [])
    ensures Sequential(Step(s, op)) && Audio(Step(s, op)) == Audio(s) + Written(s, op)
  {
    hide AfterTransfer, AfterWriteHeader, CanonicalHeader, Consistent, Transfer;
    if IsSetter(op) {
      SetterKeepsGood(s, op);
    } else if op.Write? {
      WriteStartCoherent(s);
      WriteCoherent(s, op);
      WholeFrames(s, op);
    }
  }

  /** A recording without seeks, of any length: the disk is the image of what was written. */
  lemma {:induction false} SequentialRun(s: State, ops: seq<Op>)
    requires Sequential(s) && Feasible(s, ops) && Ordinary(s, ops)
    ensures Sequential(Run(s, ops)) && Audio(Run(s, ops)) == Audio(s) + Recorded(s, ops)
    decreases |ops|
  {
    if ops == [] {
      assert Audio(s) + [] == Audio(s);
    } else {
      SequentialStep(s, ops[0]);
      SequentialRun(Step(s, ops[0]), ops[1..]);
      Associative(Audio(s), Written(s, ops[0]), Recorded(Step(s, ops[0]), ops[1..]));
    }
  }

  lemma NewIsGood(mode: Mode)
    requires mode.write || mode.append
    ensures Good(NewState(mode)) && Audio(NewState(mode)) == []
    ensures AppendOnly(NewState(mode)) ==> AppendGood(NewState(mode))
    ensures !AppendOnly(NewState(mode)) ==> Sequential(NewState(mode))
  {
    NewCoherent(mode);
    DefaultConsistent();
  }

  lemma DefaultConsistent()
    ensures Consistent(DEFAULT_FORMAT)
  {
    assert ConfigOf(DEFAULT_FORMAT) == Config(PCM, 2, 2, 44100);
  }

  /** Writing one default frame, rewinding, and writing it again. */
  function Rewritten(b: seq<u8>): seq<Op> { [Op.Write(b, 1), Op.Seek(0, Set), Op.Write(b, 1)] }

  const WRITE_ONLY: Mode := Mode(false, true, false)

  /** A good write-only file that holds these four bytes as one frame. */
  ghost predicate OneFrame(s: State, b: seq<u8>)
  {
    Good(s) && |b| == 4 && Audio(s) == b && s.mode == WRITE_ONLY && s.err == Ok && Transfer(s, 1) == 4
  }

  lemma RewrittenStates(b: seq<u8>)
    requires |b| == 4
    ensures WriteReady(NewState(WRITE_ONLY)) && Allowed(NewState(WRITE_ONLY), Op.Write(b, 1))
    ensures var s1 := Step(NewState(WRITE_ONLY), Op.Write(b, 1));
            OneFrame(s1, b)
  {
    var s0, w := NewState(WRITE_ONLY), Op.Write(b, 1);
    NewIsGood(WRITE_ONLY);
    GoodIsReady(s0);
    TransferIsFrames(s0, 1);
    assert Written(s0, w) == b;
    SequentialStep(s0, w);
    WriteCoherent(s0, w);
    SomethingWritten(s0, w);
    TransferIsFrames(Step(s0, w), 1);
  }

  lemma RewindStep(s: State, b: seq<u8>)
    requires OneFrame(s, b)
    ensures WriteReady(s) && Allowed(s, Op.Seek(0, Set))
    ensures OneFrame(Step(s, Op.Seek(0, Set)), b) && Step(s, Op.Seek(0, Set)).pos == NEW_DATA_OFFSET
  {
    MoveStep(s, Op.Seek(0, Set));
  }

  lemma OverwriteStep(s: State, b: seq<u8>)
    requires OneFrame(s, b) && s.pos == NEW_DATA_OFFSET
    ensures WriteReady(s) && Allowed(s, Op.Write(b, 1))
    ensures Step(s, Op.Write(b, 1)) == AfterTransfer(s, b, 1)
  {
    hide AfterTransfer, Coherent;
    GoodIsReady(s);
    assert b[..4] == b;
    SomethingWritten(s, Op.Write(b, 1));
  }

  lemma OverwrittenSizes(s: State, b: seq<u8>)
    requires OneFrame(s, b) && s.pos == NEW_DATA_OFFSET
    ensures var r := AfterTransfer(s, b, 1); |r.disk| == NEW_DATA_OFFSET + 4 && r.data.header.size == 8 && !Coherent(r)
  {
    TransferredSizes(s, b, 1);
    TransferElsewhere(s, b, 1);
    hide AfterTransfer, Good, CanonicalHeader;
  }

  lemma RunOfTwo(s: State, a: Op, b: Op)
    requires WriteReady(s) && Allowed(s, a) && WriteReady(Step(s, a)) && Allowed(Step(s, a), b)
    ensures Feasible(s, [a, b]) && Run(s, [a, b]) == Step(Step(s, a), b)
  {
    hide Step, WriteReady, Allowed;
    assert [a, b][1..] == [b] && [b][1..] == [];
    assert Feasible(Step(s, a), [b]) && Run(Step(s, a), [b]) == Step(Step(s, a), b);
  }

  lemma RewriteStep(s: State, b: seq<u8>)
    requires OneFrame(s, b)
    ensures Feasible(s, [Op.Seek(0, Set), Op.Write(b, 1)])
    ensures var r := Run(s, [Op.Seek(0, Set), Op.Write(b, 1)]);
            |r.disk| == NEW_DATA_OFFSET + 4 && r.data.header.size == 8 && !Coherent(r)
  {
    hide *;
    RewindStep(s, b);
    var t, w := Step(s, Op.Seek(0, Set)), Op.Write(b, 1);
    OverwriteStep(t, b);
    OverwrittenSizes(t, b);
    RunOfTwo(s, Op.Seek(0, Set), w);
  }

  /** The smallest misplaced write: the header then promises twice the audio the file holds. */
  lemma MisplacedReached(b: seq<u8>)
    requires |b| == 4
    ensures Feasible(NewState(WRITE_ONLY), Rewritten(b))
    ensures var r := Run(NewState(WRITE_ONLY), Rewritten(b));
            |r.disk| == NEW_DATA_OFFSET + 4 && r.data.header.size == 8 && !Coherent(r)
  {
    RewrittenStates(b);
    RewriteStep(Step(NewState(WRITE_ONLY), Op.Write(b, 1)), b);
    hide Step, OneFrame, Coherent, WriteReady, Allowed, NewState;
    assert Rewritten(b)[1..] == [Op.Seek(0, Set), Op.Write(b, 1)];
  }
}
