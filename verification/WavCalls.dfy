/** What single calls do, in plain numbers: how many frames a read or write reports and which bytes it
    moves, where a seek lands, what each setter sets, and which calls are refused with which error. */
module WavCalls {
  import opened Bytes
  import opened WavFormat
  import opened WavState
  import opened WavCoherence
  import opened WavRuns

  // ---------- writing ----------

  lemma AudioApart(d: seq<u8>, at: nat, b: seq<u8>)
    requires |d| >= 44 && at + |b| <= 44
    ensures |Patch(d, at, b)| == |d| && Patch(d, at, b)[44..] == d[44..]
  {
  }

  lemma AudioPatched(d: seq<u8>, at: nat, b: seq<u8>)
    requires |d| >= 44 && at >= 44
    ensures |Patch(d, at, b)| >= 44 && Patch(d, at, b)[44..] == Patch(d[44..], at - 44, b)
  {
    var l, r := Patch(d, at, b)[44..], Patch(d[44..], at - 44, b);
    assert |l| == |r|;
    forall i | 0 <= i < |l|
      ensures l[i] == r[i]
    {
      assert l[i] == Patch(d, at, b)[44 + i];
    }
  }

  /** Where a write lands: behind the last whole frame if the file was opened for appending and nothing
      else, and otherwise at the position. */
  lemma WriteLands(s: State)
    requires Good(s)
    ensures s.pos >= 44 && s.format.body.blockAlign > 0
    ensures var align := s.format.body.blockAlign;
            WriteStart(s).pos ==
              if s.mode == Mode(false, false, true) then 44 + s.data.header.size / align * align else s.pos
  {
    hide CanonicalHeader, Consistent;
  }

  /** A write of `count` frames to a recording reports them all, puts exactly their bytes down where it
      lands, touches no other byte of the audio, and leaves the position behind them. */
  lemma WriteReports(s: State, buffer: seq<u8>, count: nat)
    requires Good(s) && s.err == Ok && count > 0
    requires s.format.body.blockAlign * count <= |buffer|
    ensures WriteReady(s) && Transfer(s, count) <= |buffer| && WrittenFrames(s, count) == count
    ensures var r, start, n := AfterWrite(s, buffer, count), WriteStart(s).pos, s.format.body.blockAlign * count;
            && start >= 44 && |r.disk| >= 44 && Audio(r) == Patch(Audio(s), start - 44, buffer[..n])
            && r.pos == start + n && r.format == s.format && r.mode == s.mode && r.err == Ok
            && r.data.header.size == (|s.disk| - 44 + n) % 0x1_0000_0000
            && Written(s, Op.Write(buffer, count)) == buffer[..n]
  {
    hide AfterTransfer, Good, Coherent, WriteStart, Patch, Layout;
    GoodIsReady(s);
    ReadyPlaces(s);
    var n := s.format.body.blockAlign * count;
    var t, b := WriteStart(s), buffer[..n];
    WriteArguments(s, buffer, count);
    SomethingWritten(s, Op.Write(buffer, count));
    WriteStartCoherent(s);
    SameAudio(s, t);
    WriteMoves(t, b, count);
    WriteStartKeeps(s);
    CoherentPlaces(t);
    assert Audio(s) == Audio(t) && |t.disk| == |s.disk|;
  }

  lemma ReadyPlaces(s: State)
    requires WriteReady(s)
    ensures Playable(s) && s.pos >= s.data.offset >= 8
  {
  }

  lemma WriteStartKeeps(s: State)
    requires Good(s)
    ensures WriteStart(s).err == s.err
  {
    MulNonnegative(Length(s), s.format.body.blockAlign);
    hide CanonicalHeader, Consistent;
  }

  lemma WriteArguments(s: State, buffer: seq<u8>, count: nat)
    requires Good(s) && s.err == Ok && count > 0
    requires s.format.body.blockAlign * count <= |buffer|
    ensures WriteReady(s) && Transfer(s, count) <= |buffer| && WrittenFrames(s, count) == count
    ensures Allowed(s, Op.Write(buffer, count))
    ensures var n := s.format.body.blockAlign * count; n > 0 && Written(s, Op.Write(buffer, count)) == buffer[..n]
    ensures AfterWrite(s, buffer, count) == Step(s, Op.Write(buffer, count))
  {
    GoodIsReady(s);
    TransferIsFrames(s, count);
    hide CanonicalHeader, Consistent, Transfer, AfterTransfer;
  }

  lemma CoherentPlaces(t: State)
    requires Coherent(t)
    ensures |t.disk| >= 44 && t.pos >= 44 && |Audio(t)| == |t.disk| - 44
    ensures Layout(t) && t.data.offset >= 8
  {
    hide CanonicalHeader;
  }

  lemma WriteMoves(t: State, b: seq<u8>, frames: nat)
    requires Coherent(t)
    ensures var r := AfterTransfer(t, b, frames);
            && |r.disk| >= 44 && Audio(r) == Patch(Audio(t), t.pos - 44, b)
            && r.pos == t.pos + |b| && r.format == t.format && r.mode == t.mode && r.err == t.err
            && r.data.header.size == (|t.disk| - 44 + |b|) % 0x1_0000_0000
  {
    hide AfterTransfer, Coherent, Patch, LE32, NewLayout, Layout;
    CoherentPlaces(t);
    TransferredSizes(t, b, frames);
    var r := AfterTransfer(t, b, frames);
    var d := Patch(t.disk, t.pos, b);
    AudioPatched(t.disk, t.pos, b);
    AudioApart(d, 4, LE32(r.riff.header.size));
    AudioApart(Patch(d, 4, LE32(r.riff.header.size)), 40, LE32(r.data.header.size));
  }

  /** A write that is refused, for want of a writing mode or for the extensible tag, only sets the error;
      one of no frames, or with an error pending, does nothing at all.  Neither reports frames. */
  lemma WriteRefused(s: State, buffer: seq<u8>, count: nat)
    requires WriteReady(s) && Transfer(s, count) <= |buffer|
    ensures var r, frames := AfterWrite(s, buffer, count), WrittenFrames(s, count);
            if !s.mode.write && !s.mode.append then r == s.(err := ModeError) && frames == 0
            else if s.format.body.tag == 0xFFFE then r == s.(err := FormatError) && frames == 0
            else count == 0 || s.err != Ok ==> r == s && frames == 0
  {
    hide Transfer, AfterTransfer, WriteStart;
  }

  /** The sizes in memory after a transfer grow by its bytes and, in a fact chunk, by its frames. */
  lemma SizesGrow(s: State, b: seq<u8>, frames: nat)
    requires Layout(s) && s.data.offset >= 8
    ensures var r := AfterTransfer(s, b, frames);
            && r.riff.header.size == (s.riff.header.size + |b|) % 0x1_0000_0000
            && r.data.header.size == (s.data.header.size + |b|) % 0x1_0000_0000
            && r.fact.sampleLength == (if s.fact.header.id == FACT_ID
                                       then (s.fact.sampleLength + frames) % 0x1_0000_0000 else s.fact.sampleLength)
  {
    hide Patch, LE32;
  }

  // ---------- reading ----------

  lemma DivDiv(n: nat, a: nat, b: nat)
    requires a > 0 && b > 0
    ensures a * b > 0 && n / a / b == n / (a * b)
  {
    MulPositive(a, b);
    var q, r := n / a / b, n / a % b;
    assert n / a == b * q + r;
    assert n == a * (n / a) + n % a;
    MulDistributes(a, b * q, r);
    MulAssociative(a, b, q);
    RestBelow(a, b, r, n % a);
    DivUnique(a * b, q, a * r + n % a);
    assert n == (a * b) * q + (a * r + n % a);
  }

  lemma RestBelow(a: nat, b: nat, r: nat, x: nat)
    requires r < b && x < a
    ensures a * r + x < a * b
  {
    MulGap(a, b, r);
  }

  /** What a read of `count` frames asks the file for: whole samples, of as many frames as are left.  Frames
      left are counted in size_t, so that behind the end of the data chunk there are very many. */
  function Wanted(s: State, count: nat): int
    requires s.format.body.channels > 0 && s.format.body.blockAlign > 0
  {
    var align := s.format.body.blockAlign;
    var left := (s.data.header.size / align - (s.pos - s.data.offset) / align) % 0x1_0000_0000_0000_0000;
    align / s.format.body.channels * s.format.body.channels * Min(count, left)
  }

  /** A read in plain numbers, wherever the position stands.  The bytes delivered are those of the file
      from the position on, as many as wanted or as there are; the frames reported are the whole ones among
      them; a short read raises end of file, and nothing else changes. */
  lemma ReadReports(s: State, count: nat)
    requires s.mode.read && s.err == Ok && s.format.body.tag != 0xFFFE
    requires s.format.body.channels > 0 && s.format.body.blockAlign > 0 && s.pos >= s.data.offset
    ensures var frame := s.format.body.blockAlign / s.format.body.channels * s.format.body.channels;
            var want, r := Wanted(s, count), AfterRead(s, count);
            && want >= 0 && frame >= 0
            && r.got == (if s.pos >= |s.disk| then [] else s.disk[s.pos..Min(s.pos + want, |s.disk|)])
            && r.frames == (if frame == 0 then 0 else |r.got| / frame) && r.state.pos == s.pos + |r.got|
            && r.state.eof == (s.eof || |r.got| < want) && r.state == s.(pos := r.state.pos, eof := r.state.eof)
  {
    var size: int, channels: int := SampleSize(s), s.format.body.channels;
    var m: int := Min(count, Remaining(s));
    MulNonnegative(size, channels);
    MulNonnegative(size * channels, m);
    MulAssociative(size, channels, m);
    assert Transfer(s, m) == Wanted(s, count);
    ReadMoves(s, count, m);
    if size > 0 {
      MulPositive(size, channels);
      DivDiv(|AfterRead(s, count).got|, size, channels);
    }
  }

  lemma ReadMoves(s: State, count: nat, m: int)
    requires s.mode.read && s.err == Ok && s.format.body.tag != 0xFFFE
    requires Playable(s) && s.pos >= s.data.offset && m == Min(count, Remaining(s))
    requires Transfer(s, m) >= 0 && (m == 0 ==> Transfer(s, m) == 0)
    ensures var n, r := Transfer(s, m), AfterRead(s, count);
            && r.got == (if s.pos >= |s.disk| then [] else s.disk[s.pos..Min(s.pos + n, |s.disk|)])
            && r.state == s.(pos := s.pos + |r.got|, eof := s.eof || |r.got| < n)
            && r.frames == FramesIn(SampleSize(s), s.format.body.channels, |r.got|)
  {
    hide FrameBytes, FramesIn, Transfer, Remaining, SampleSize;
    NoFrames(SampleSize(s), s.format.body.channels);
  }

  lemma NoFrames(size: nat, channels: nat)
    requires channels > 0
    ensures FramesIn(size, channels, 0) == 0
  {
    if size > 0 {
      DivUnique(size, 0, 0);
      DivUnique(channels, 0, 0);
    }
  }

  /** A read that comes short, because the file ends before the data chunk does, is at end of file; and
      without that only the end of the data chunk is. */
  lemma ShortReadIsEof(s: State, count: nat)
    requires s.mode.read && s.err == Ok && s.format.body.tag != 0xFFFE
    requires s.format.body.channels > 0 && s.format.body.blockAlign > 0 && s.pos >= s.data.offset
    ensures var r := AfterRead(s, count);
            AtEof(r.state) <==>
              s.eof || |r.got| < Wanted(s, count) || r.state.pos == s.data.offset + s.data.header.size
  {
    ReadReports(s, count);
    hide AfterRead, Wanted;
  }

  lemma ReadRefused(s: State, count: nat)
    requires Playable(s) && s.pos >= s.data.offset
    ensures !s.mode.read ==> AfterRead(s, count) == ReadResult(s.(err := ModeError), 0, [])
    ensures s.mode.read && s.format.body.tag == 0xFFFE ==>
              AfterRead(s, count) == ReadResult(s.(err := FormatError), 0, [])
    ensures s.mode.read && s.format.body.tag != 0xFFFE && s.err != Ok ==> AfterRead(s, count) == ReadResult(s, 0, [])
  {
  }

  // ---------- seeking ----------

  /** Where seeks count from, in frames: the start, the position, or the end of the data chunk. */
  function SeekBase(s: State, origin: Origin): int
    requires s.format.body.blockAlign > 0
  {
    match origin
    case Set => 0
    case Cur => (s.pos - s.data.offset) / s.format.body.blockAlign
    case End => s.data.header.size / s.format.body.blockAlign
  }

  /** A seek is refused exactly if it leads before the audio, and then does not move; otherwise it leads to
      the frame asked for, behind the end as well, and clears end of file. */
  lemma SeekLands(s: State, offset: int, origin: Origin)
    requires Playable(s) && s.pos >= s.data.offset
    ensures var frame, r := SeekBase(s, origin) + offset, AfterSeek(s, offset, origin);
            if frame < 0 then r == s.(err := ParamError)
            else r.pos >= 0 && r.pos == s.data.offset + s.format.body.blockAlign * frame
                 && r == s.(pos := r.pos, eof := false)
  {
    var frame := SeekBase(s, origin) + offset;
    if frame >= 0 {
      MulNonnegative(frame, s.format.body.blockAlign);
      MulCommutes(frame, s.format.body.blockAlign);
    }
  }

  // ---------- setting ----------

  /** A recording takes settings in a writing mode at any time, and opened for appending while it holds no
      audio. */
  lemma SettableIff(s: State)
    requires Good(s)
    ensures Settable(s) <==> s.mode.write || s.data.header.size == 0
  {
    hide CanonicalHeader, Consistent;
  }

  /** Which setter calls are refused, and with which error; a refused call changes nothing else. */
  lemma SetterRefusedIff(s: State, op: Op)
    requires Good(s) && IsSetter(op) && Allowed(s, op) && s.err == Ok
    ensures WriteReady(s)
    ensures var r := Step(s, op);
            if !s.mode.write && s.data.header.size != 0 then r == s.(err := ModeError)
            else if op == SetSampleSize(0) || op == SetChannels(0) then r == s.(err := ParamError)
            else r.err == Ok
  {
    SettableIff(s);
    SetterState(s, op);
    GoodIsReady(s);
    hide Good, Step, Reformatted, Allowed;
    if !SetterFails(s, op) && !SetterIdle(s, op) {
      ReformattedKeeps(s, Uniform(Effect(ConfigOf(s.format.body), op), ExtensionAfter(s.format.body, op)));
    }
  }

  lemma ReformattedKeeps(s: State, f: Format)
    requires |s.disk| >= 44
    ensures Reformatted(s, f).err == s.err && Reformatted(s, f).format.body == f
  {
  }

  /** What a setter that is not refused leaves in the format record, field by field.  A-law and mu-law
      force one byte a sample, float forces four unless there are four or eight; nothing else about the
      sample changes with the tag. */
  predicate Sets(f: Format, op: Op, g: Format)
    requires f.channels > 0
  {
    var size := f.blockAlign / f.channels;
    && g.avgBytes == (g.blockAlign * g.rate) % 0x1_0000_0000
    && match op
       case SetChannels(n) =>
         g.tag == f.tag && g.channels == n && g.rate == f.rate && g.blockAlign == size * n && g.bits == 8 * size
       case SetRate(rate) =>
         && g.tag == f.tag && g.channels == f.channels && g.rate == rate
         && g.blockAlign == f.blockAlign && g.bits == f.bits
       case SetSampleSize(n) =>
         && g.tag == f.tag && g.channels == f.channels && g.rate == f.rate
         && g.blockAlign == n * f.channels && g.bits == 8 * n
       case SetFormat(tag) =>
         && g.tag == tag && g.channels == f.channels && g.rate == f.rate
         && if tag != f.tag && (tag == 6 || tag == 7) then g.blockAlign == f.channels && g.bits == 8
            else if tag != f.tag && tag == 3 && size != 4 && size != 8
            then g.blockAlign == 4 * f.channels && g.bits == 32
            else g.blockAlign == f.blockAlign && g.bits == f.bits
       case _ => true
  }

  lemma UniformSets(f: Format, op: Op, ext: Extension)
    requires Consistent(f) && IsSetter(op) && Fits(Effect(ConfigOf(f), op))
    ensures Sets(f, op, Uniform(Effect(ConfigOf(f), op), ext))
  {
  }

  lemma IdleSets(s: State, op: Op)
    requires Consistent(s.format.body) && IsSetter(op) && SetterIdle(s, op)
    ensures Sets(s.format.body, op, s.format.body)
  {
  }

  lemma SetterSets(s: State, op: Op)
    requires Good(s) && IsSetter(op) && Allowed(s, op) && s.err == Ok
    requires s.mode.write || s.data.header.size == 0
    requires op != SetSampleSize(0) && op != SetChannels(0)
    ensures WriteReady(s) && Sets(s.format.body, op, Step(s, op).format.body)
  {
    SettableIff(s);
    SetterState(s, op);
    GoodIsReady(s);
    hide Coherent, Step, Reformatted, Sets, Consistent;
    if SetterIdle(s, op) {
      IdleSets(s, op);
    } else {
      var e := ExtensionAfter(s.format.body, op);
      ReformattedKeeps(s, Uniform(Effect(ConfigOf(s.format.body), op), e));
      UniformSets(s.format.body, op, e);
    }
  }

  /** The value is already there. */
  predicate AlreadySet(f: Format, op: Op)
  {
    match op
    case SetFormat(tag) => f.tag == tag
    case SetChannels(n) => f.channels == n
    case SetRate(rate) => f.rate == rate
    case _ => false
  }

  /** A setter that is not refused does nothing at all if the value is already there, except for the sample
      size; otherwise it rewrites the header, keeps the audio and leaves the position at its start. */
  lemma SetterMoves(s: State, op: Op)
    requires Good(s) && IsSetter(op) && Allowed(s, op) && s.err == Ok
    requires s.mode.write || s.data.header.size == 0
    requires op != SetSampleSize(0) && op != SetChannels(0)
    ensures WriteReady(s)
    ensures var r := Step(s, op);
            if AlreadySet(s.format.body, op) then r == s
            else
              && r.pos == 44 && !r.eof && |r.disk| == |s.disk| && r.disk[44..] == s.disk[44..]
              && r.data == s.data && r.riff == s.riff && r.mode == s.mode && r.isNew == s.isNew
  {
    SettableIff(s);
    SetterState(s, op);
    GoodIsReady(s);
    hide Coherent, Step, Consistent;
    if !SetterIdle(s, op) {
      var e := ExtensionAfter(s.format.body, op);
      ReformattedPlaces(s, Uniform(Effect(ConfigOf(s.format.body), op), e));
    }
  }

  lemma ReformattedPlaces(s: State, f: Format)
    requires |s.disk| >= 44
    ensures var r := Reformatted(s, f);
            && r.pos == 44 && !r.eof && |r.disk| == |s.disk| && r.disk[44..] == s.disk[44..]
            && r.data == s.data && r.riff == s.riff && r.mode == s.mode && r.isNew == s.isNew
  {
    hide CanonicalHeader;
  }
}
