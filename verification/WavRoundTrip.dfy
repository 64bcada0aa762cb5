/** Recording and reading back: what a run of operations recorded is what a reader of the file
    gets, after every operation and not only at close. */
module WavRoundTrip {
  import opened Bytes
  import opened WavFormat
  import opened WavState
  import opened WavCoherence
  import opened WavParser
  import opened WavRuns
  import opened WavPlayback

  ghost predicate Recording(s: State)
  {
    Good(s) && |Audio(s)| % s.format.body.blockAlign == 0
  }

  /** Reopening a recording for reading succeeds exactly when its format tag is supported, and then
      finds the same configuration, the data size modulo 2^32, and the start of the audio. */
  lemma Reopen(s: State)
    requires Recording(s)
    ensures Parse(s.disk) == if Supported(s.format.body.tag)
                             then RecordedOutcome(s.format.body, s.data.header.size) else Rejected
  {
    CoherentIsImage(s);
    ImageParses(s.format.body, s.data.header.size, Audio(s));
  }

  /** What reopening a recording finds. */
  predicate Reopens(s: State, r: State)
  {
    && r.disk == s.disk && r.pos == NEW_DATA_OFFSET && r.mode == Mode(true, false, false) && r.err == Ok
    && r.format.body == Reread(s.format.body) && r.data == s.data
  }

  lemma ReopenedState(s: State)
    requires Recording(s) && Parse(s.disk) == RecordedOutcome(s.format.body, s.data.header.size)
    ensures Reopens(s, ReadState(s.disk))
  {
  }

  lemma ReopenedFrames(s: State, r: State)
    requires Recording(s) && Reopens(s, r)
    ensures Playable(r) && r.pos == r.data.offset && ConfigOf(r.format.body) == ConfigOf(s.format.body)
    ensures |Audio(s)| < TWO_32 ==> AtFrame(r, 0) && FramePos(r, Length(r)) == |r.disk|
  {
    GoodIsReady(s);
    if |Audio(s)| < TWO_32 {
      DataIsAudio(s);
      ExactMultiple(|Audio(s)|, s.format.body.blockAlign);
      ReopenedWhole(s, r, |Audio(s)|, s.format.body.blockAlign);
    }
  }

  lemma DataIsAudio(s: State)
    requires Coherent(s) && |Audio(s)| < TWO_32
    ensures s.data.header.size == |Audio(s)| && s.data.offset == NEW_DATA_OFFSET
    ensures |s.disk| == NEW_DATA_OFFSET + |Audio(s)|
  {
  }

  lemma ReopenedWhole(s: State, r: State, size: nat, align: nat)
    requires Playable(s) && s.format.body.tag != EXTENSIBLE
    requires s.data.header.size == size && |s.disk| == NEW_DATA_OFFSET + size && s.data.offset == NEW_DATA_OFFSET
    requires align == s.format.body.blockAlign && size == (size / align) * align
    requires align == SampleSize(s) * s.format.body.channels
    requires Reopens(s, r)
    ensures AtFrame(r, 0) && FramePos(r, Length(r)) == |r.disk|
  {
    assert align == r.format.body.blockAlign && SampleSize(r) == SampleSize(s);
    WholeDataChunk(r, size, align);
  }

  lemma WholeDataChunk(r: State, size: nat, align: nat)
    requires r.mode.read && r.err == Ok && r.format.body.tag != EXTENSIBLE && Playable(r)
    requires align == r.format.body.blockAlign == SampleSize(r) * r.format.body.channels
    requires r.pos == r.data.offset && |r.disk| == r.data.offset + size
    requires size == r.data.header.size == (size / align) * align
    ensures AtFrame(r, 0) && FramePos(r, Length(r)) == |r.disk|
  {
  }

  /** A reader that asks for everything gets exactly the recorded audio, if and only if the audio
      fits the 32-bit data size. */
  lemma ReadBack(s: State, n: nat)
    requires Recording(s) && Supported(s.format.body.tag)
    ensures Parse(s.disk).Found?
    ensures var r := ReadState(s.disk);
            && Playable(r) && r.pos >= r.data.offset
            && (n >= Length(r) ==> (AfterRead(r, n).got == Audio(s) <==> |Audio(s)| < TWO_32))
  {
    Reopen(s);
    ReopenedState(s);
    var r := ReadState(s.disk);
    ReopenedFrames(s, r);
    if |Audio(s)| < TWO_32 {
      ReadFrames(r, 0, n);
    } else {
      ReadIsBounded(r, n);
    }
  }

  /** No read from the start delivers more than the data size in the header. */
  lemma ReadIsBounded(r: State, n: nat)
    requires Playable(r) && r.pos == r.data.offset
    ensures |AfterRead(r, n).got| <= r.data.header.size
  {
    var align: int, size: int := r.format.body.blockAlign, SampleSize(r);
    var channels: int, m: int := r.format.body.channels, Min(n, Remaining(r));
    assert Tell(r) == 0 by { DivUnique(align, 0, 0); }
    assert m <= Length(r);
    MulAssociative(size, channels, m);
    BelowProduct(size * channels, align, m, Length(r));
    FloorProduct(align, channels);
    FloorProduct(r.data.header.size, align);
  }

  lemma FloorProduct(a: nat, b: nat)
    requires b > 0
    ensures (a / b) * b <= a
  {
  }

  lemma BelowProduct(a: nat, b: nat, m: nat, n: nat)
    requires m <= n
    ensures a <= b ==> a * m <= n * b
  {
    if a <= b {
      MulMonotone(a, b, m);
      MulMonotone(m, n, b);
      MulCommutes(b, m);
    }
  }

  /** From opening to read-back.  A file opened for writing is configured and then written in
      order, or a file opened for appending only undergoes any run of operations at all; as long
      as less than 2^32 bytes are recorded, the image on disk parses to the configuration in memory
      and the recorded size, and reading it delivers the concatenation of everything written. */
  lemma RecordRoundTrip(mode: Mode, ops: seq<Op>, n: nat)
    requires mode.write || mode.append
    requires Feasible(NewState(mode), ops) && |Recorded(NewState(mode), ops)| < TWO_32
    requires AppendOnly(NewState(mode)) || Ordinary(NewState(mode), ops)
    requires Supported(Run(NewState(mode), ops).format.body.tag)
    ensures var s, audio := Run(NewState(mode), ops), Recorded(NewState(mode), ops);
            && Consistent(s.format.body)
            && Parse(s.disk) == RecordedOutcome(s.format.body, |audio|)
            && var r := ReadState(s.disk);
               && Playable(r) && r.pos >= r.data.offset && ConfigOf(r.format.body) == ConfigOf(s.format.body)
               && (n >= Length(r) ==> AfterRead(r, n).got == audio)
  {
    var s := Run(NewState(mode), ops);
    RunIsRecording(mode, ops);
    Reopen(s);
    ReopenedState(s);
    ReopenedFrames(s, ReadState(s.disk));
    ReadBack(s, n);
  }

  lemma RunIsRecording(mode: Mode, ops: seq<Op>)
    requires mode.write || mode.append
    requires Feasible(NewState(mode), ops) && |Recorded(NewState(mode), ops)| < TWO_32
    requires AppendOnly(NewState(mode)) || Ordinary(NewState(mode), ops)
    ensures var s := Run(NewState(mode), ops); Recording(s) && Audio(s) == Recorded(NewState(mode), ops)
  {
    NewIsGood(mode);
    if AppendOnly(NewState(mode)) {
      AppendRun(NewState(mode), ops);
    } else {
      SequentialRun(NewState(mode), ops);
    }
  }
}
