/** The position of an open file: how writes move it, that append-only runs keep it on frame
    boundaries, when it reads as end of file, and what coherence means field by field. */
module WavPosition {
  import opened Bytes
  import opened WavFormat
  import opened WavState
  import opened WavCoherence
  import opened WavParser
  import opened WavRuns
  import opened WavPlayback
  import opened WavRoundTrip

  lemma AdvanceDiv(x: int, align: int, count: int)
    requires align > 0
    ensures (x + align * count) / align == x / align + count && (x + align * count) % align == x % align
  {
    var q, r := x / align, x % align;
    assert x == align * q + r;
    MulDistributes(align, q, count);
    DivUnique(align, q + count, r);
  }

  /** `r` stands `count` frames behind `t` in the same file. */
  ghost predicate AdvancedBy(t: State, r: State, count: nat)
  {
    && r.format == t.format && r.data.offset == t.data.offset == NEW_DATA_OFFSET
    && t.pos >= NEW_DATA_OFFSET && Playable(t)
    && r.pos == t.pos + t.format.body.blockAlign * count
  }

  /** Advancing by whole frames moves `Tell` by as many, and keeps the offset inside a frame. */
  lemma AdvanceTells(t: State, r: State, count: nat)
    requires AdvancedBy(t, r, count)
    ensures r.pos >= r.data.offset && Tell(r) == Tell(t) + count
    ensures OnFrame(r) <==> OnFrame(t)
  {
    MulNonnegative(t.format.body.blockAlign, count);
    AdvanceDiv(t.pos - NEW_DATA_OFFSET, t.format.body.blockAlign, count);
  }

  /** A write that moves bytes advances the position by the frames it reports, from where it landed. */
  lemma WriteAdvances(s: State, op: Op)
    requires Good(s) && op.Write? && Allowed(s, op) && Written(s, op) != []
    ensures WrittenFrames(s, op.count) == op.count && AdvancedBy(WriteStart(s), Step(s, op), op.count)
  {
    WriteStartCoherent(s);
    SomethingWritten(s, op);
    TransferredSizes(WriteStart(s), Written(s, op), op.count);
    TransferIsFrames(s, op.count);
  }

  /** The position stands on a frame boundary. */
  ghost predicate OnFrame(s: State)
  {
    s.pos >= NEW_DATA_OFFSET && s.format.body.blockAlign > 0
    && (s.pos - NEW_DATA_OFFSET) % s.format.body.blockAlign == 0
  }

  lemma SeekOnFrame(s: State, offset: int, origin: Origin)
    requires Good(s) && OnFrame(s)
    ensures OnFrame(AfterSeek(s, offset, origin))
  {
    var frames := SeekTarget(s, offset, origin);
    if frames >= 0 {
      MulNonnegative(frames, s.format.body.blockAlign);
      MulDiv(frames, s.format.body.blockAlign);
    }
  }

  lemma SetterOnFrame(s: State, op: Op)
    requires Good(s) && OnFrame(s) && IsSetter(op) && Allowed(s, op)
    ensures OnFrame(Step(s, op))
  {
    SetterState(s, op);
    var r := Step(s, op);
    assert Playable(r) by { SetterKeepsGood(s, op); }
    if r.pos == NEW_DATA_OFFSET {
      DivUnique(r.format.body.blockAlign, 0, 0);
    } else {
      assert r.format == s.format && r.pos == s.pos;
    }
  }

  lemma AppendOnFrame(s: State, op: Op)
    requires AppendGood(s) && OnFrame(s) && Allowed(s, op)
    ensures OnFrame(Step(s, op))
  {
    if IsSetter(op) {
      SetterOnFrame(s, op);
    } else if op.Seek? {
      SeekOnFrame(s, op.offset, op.origin);
    } else if op.Write? && Written(s, op) == [] {
      NothingWritten(s, op);
    } else if op.Write? {
      WriteAdvances(s, op);
      SeekOnFrame(s, 0, End);
      AdvanceTells(WriteStart(s), Step(s, op), op.count);
    }
  }

  /** Every run on an append-only file keeps the position on frame boundaries. */
  lemma {:induction false} AppendRunOnFrame(s: State, ops: seq<Op>)
    requires AppendGood(s) && OnFrame(s) && Feasible(s, ops) && |Audio(s)| + |Recorded(s, ops)| < TWO_32
    ensures OnFrame(Run(s, ops))
    decreases |ops|
  {
    if ops != [] {
      AppendOnFrame(s, ops[0]);
      AppendStep(s, ops[0]);
      AppendRunOnFrame(Step(s, ops[0]), ops[1..]);
    }
  }

  /** The file ends where the data chunk ends, and the RIFF, format and data records on disk are the
      ones in memory. */
  predicate RecordsMatch(s: State)
  {
    && |s.disk| == s.data.offset + s.data.header.size && s.format.offset == 20 && s.data.offset == NEW_DATA_OFFSET
    && HeaderAt(s.disk, 0) == s.riff.header && s.riff.header.size == Wrap32(36 + s.data.header.size)
    && HeaderAt(s.disk, 12) == s.format.header && s.disk[20..36] == EncodePlain(s.format.body)
    && HeaderAt(s.disk, 36) == s.data.header
  }

  /** Coherence, field by field, after any run on an append-only file. */
  lemma AppendedFile(mode: Mode, ops: seq<Op>)
    requires AppendOnly(NewState(mode)) && Feasible(NewState(mode), ops)
    requires |Recorded(NewState(mode), ops)| < TWO_32
    ensures var s := Run(NewState(mode), ops);
            RecordsMatch(s) && s.format.body.blockAlign > 0 && |Audio(s)| % s.format.body.blockAlign == 0
  {
    NewIsGood(mode);
    AppendRun(NewState(mode), ops);
    CoherentMatches(Run(NewState(mode), ops));
  }

  lemma CoherentMatches(s: State)
    requires Coherent(s) && |Audio(s)| < TWO_32
    ensures RecordsMatch(s)
  {
    assert s.data.header.size == |Audio(s)|;
    RecordsOnDisk(s);
    hide CanonicalHeader, HeaderAt, EncodePlain;
  }

  lemma RecordsOnDisk(s: State)
    requires Coherent(s)
    ensures HeaderAt(s.disk, 0) == s.riff.header && HeaderAt(s.disk, 12) == s.format.header
    ensures HeaderAt(s.disk, 36) == s.data.header && s.disk[20..36] == EncodePlain(s.format.body)
  {
    CoherentIsImage(s);
    var f, size, audio := s.format.body, s.data.header.size, Audio(s);
    ImageFormat(f, size, audio);
    ImageData(f, size, audio);
    PlainOnDisk(f, size, audio);
  }

  lemma PlainOnDisk(f: Format, size: u32, audio: seq<u8>)
    ensures HeaderAt(CanonicalHeader(f, size) + audio, 0) == ChunkHeader(RIFF_ID, Wrap32(36 + size))
    ensures (CanonicalHeader(f, size) + audio)[20..36] == EncodePlain(f)
  {
    var img, riff := CanonicalHeader(f, size) + audio, ChunkHeader(RIFF_ID, Wrap32(36 + size));
    assert img[0..8] == EncodeHeader(riff);
    HeaderRoundTrip(riff);
  }

  /** At a frame of a complete file, end of file means the last frame has been read. */
  lemma EofIff(s: State, k: nat)
    requires AtFrame(s, k) && !s.eof
    ensures AtEof(s) <==> k == Length(s)
  {
    if k < Length(s) {
      MulGap(s.format.body.blockAlign, Length(s), k);
      MulCommutes(s.format.body.blockAlign, Length(s));
      MulCommutes(s.format.body.blockAlign, k);
    }
  }

  /** Reading to the end raises end of file, and a read that stops earlier does not. */
  lemma ReadThenEof(s: State, k: nat, count: nat)
    requires AtFrame(s, k) && !s.eof
    ensures s.pos >= s.data.offset && (AtEof(AfterRead(s, count).state) <==> k + count >= Length(s))
  {
    TellOfFrame(s, k);
    ReadFrames(s, k, count);
    EofIff(AfterRead(s, count).state, k + Min(count, Length(s) - k));
  }
}
