/** Reading a recording back: a coherent image parses to what was recorded, reads return exactly
    the audio, and split reads, seeks and tells agree with one another. */
module WavPlayback {
  import opened Bytes
  import opened WavFormat
  import opened WavState
  import opened WavCoherence
  import opened WavParser

  // ---------- parsing a recorded image ----------

  lemma HeaderInside(pre: seq<u8>, h: ChunkHeader, post: seq<u8>)
    ensures HeaderAt(pre + EncodeHeader(h) + post, |pre|) == h
  {
    var img := pre + EncodeHeader(h) + post;
    assert img[|pre|..|pre| + 8] == EncodeHeader(h);
    HeaderRoundTrip(h);
  }

  /** The format record the parser rebuilds: the six plain fields, a zero extension. */
  function Reread(f: Format): Format { f.(ext := Zeros(24)) }

  function RecordedOutcome(f: Format, size: u32): Outcome
  {
    Found(FormatChunk(ChunkHeader(FORMAT_ID, PLAIN_SIZE), 20, Reread(f)), NO_FACT,
          DataChunk(ChunkHeader(DATA_ID, size), NEW_DATA_OFFSET), Ok)
  }

  /** A canonical header is accepted exactly when its format tag is one the parser supports, and
      then every field and the data size come back. */
  lemma ImageParses(f: Format, size: u32, audio: seq<u8>)
    ensures Parse(CanonicalHeader(f, size) + audio) ==
            if Supported(f.tag) then RecordedOutcome(f, size) else Rejected
  {
    var img := CanonicalHeader(f, size) + audio;
    ImageRiff(f, size, audio);
    ImageFormat(f, size, audio);
    ImageData(f, size, audio);
    ScanTwo(img, ChunkHeader(FORMAT_ID, PLAIN_SIZE), ChunkHeader(DATA_ID, size), f);
  }

  lemma ImageRiff(f: Format, size: u32, audio: seq<u8>)
    ensures IsRiffWave(CanonicalHeader(f, size) + audio)
  {
    var rest := FormatPart(f) + DataPart(size) + audio;
    assert CanonicalHeader(f, size) + audio == RiffPart(size) + rest;
    RiffInside(ChunkHeader(RIFF_ID, Wrap32(36 + size)), rest);
  }

  lemma RiffInside(h: ChunkHeader, rest: seq<u8>)
    requires h.id == RIFF_ID
    ensures IsRiffWave(EncodeHeader(h) + LE32(WAVE_ID) + rest)
  {
    var img := EncodeHeader(h) + LE32(WAVE_ID) + rest;
    assert img[0..8] == EncodeHeader(h);
    assert img[8..12] == LE32(WAVE_ID);
    HeaderRoundTrip(h);
    LE32RoundTrip(WAVE_ID);
  }

  lemma ImageFormat(f: Format, size: u32, audio: seq<u8>)
    ensures HeaderAt(CanonicalHeader(f, size) + audio, 12) == ChunkHeader(FORMAT_ID, PLAIN_SIZE)
    ensures Overlay(ZERO_FORMAT, (CanonicalHeader(f, size) + audio)[20..36]) == Reread(f)
  {
    var img := CanonicalHeader(f, size) + audio;
    var fmt, rest := ChunkHeader(FORMAT_ID, PLAIN_SIZE), EncodePlain(f) + DataPart(size) + audio;
    assert img == RiffPart(size) + EncodeHeader(fmt) + rest;
    HeaderInside(RiffPart(size), fmt, rest);
    assert img[20..36] == EncodePlain(f);
    OverlayPlain(ZERO_FORMAT, f);
  }

  lemma ImageData(f: Format, size: u32, audio: seq<u8>)
    ensures HeaderAt(CanonicalHeader(f, size) + audio, 36) == ChunkHeader(DATA_ID, size)
  {
    var img, data := CanonicalHeader(f, size) + audio, ChunkHeader(DATA_ID, size);
    assert img == (RiffPart(size) + FormatPart(f)) + EncodeHeader(data) + audio;
    HeaderInside(RiffPart(size) + FormatPart(f), data, audio);
  }

  /** The chunk loop over a header whose second chunk is the data chunk. */
  lemma ScanTwo(img: seq<u8>, fmt: ChunkHeader, data: ChunkHeader, f: Format)
    requires |img| >= NEW_DATA_OFFSET
    requires HeaderAt(img, 12) == fmt == ChunkHeader(FORMAT_ID, PLAIN_SIZE)
    requires HeaderAt(img, 36) == data && data.id == DATA_ID
    requires Overlay(ZERO_FORMAT, img[20..36]) == Reread(f)
    ensures Scan(img, 12, NO_FORMAT, NO_FACT, Ok) ==
            if Supported(f.tag) then RecordedOutcome(f, data.size) else Rejected
  {
    var format := FormatChunk(fmt, 20, Reread(f));
    assert Scan(img, 36, format, NO_FACT, Ok) == Found(format, NO_FACT, DataChunk(data, 44), Ok);
  }

  // ---------- reading ----------

  /** The data chunk is wholly on disk and holds whole frames of whole samples; reading is allowed. */
  ghost predicate Complete(s: State)
  {
    && s.mode.read && s.err == Ok && s.format.body.tag != EXTENSIBLE && Playable(s)
    && s.format.body.blockAlign == SampleSize(s) * s.format.body.channels
    && |s.disk| >= s.data.offset + s.data.header.size
    && s.data.header.size == Length(s) * s.format.body.blockAlign
  }

  /** The byte offset of frame `k`. */
  function FramePos(s: State, k: nat): nat
  {
    MulNonnegative(k, s.format.body.blockAlign);
    s.data.offset + k * s.format.body.blockAlign
  }

  /** The position is at frame `k`, inside the data chunk or at its end. */
  ghost predicate AtFrame(s: State, k: nat)
  {
    Complete(s) && k <= Length(s) && s.pos == FramePos(s, k)
  }

  /** Frames `from` up to `to` of the data chunk. */
  function Frames(s: State, from: nat, to: nat): seq<u8>
    requires FramePos(s, from) <= FramePos(s, to) <= |s.disk|
  {
    s.disk[FramePos(s, from)..FramePos(s, to)]
  }

  lemma FramePosOrder(s: State, a: nat, b: nat)
    requires Complete(s) && a <= b <= Length(s)
    ensures s.data.offset <= FramePos(s, a) <= FramePos(s, b) <= s.data.offset + s.data.header.size <= |s.disk|
  {
    MulMonotone(a, b, s.format.body.blockAlign);
    MulMonotone(b, Length(s), s.format.body.blockAlign);
  }

  lemma MulMonotone(a: nat, b: nat, c: nat)
    requires a <= b
    ensures 0 <= a * c <= b * c
  {
  }

  lemma TellOfFrame(s: State, k: nat)
    requires AtFrame(s, k)
    ensures s.pos >= s.data.offset && Tell(s) == k
  {
    FramePosOrder(s, k, k);
    MulDiv(k, s.format.body.blockAlign);
  }

  lemma WholeTransfer(size: nat, channels: nat, count: nat)
    requires size > 0 && channels > 0
    ensures FrameBytes(size, channels, count) == (size * channels) * count
    ensures FramesIn(size, channels, FrameBytes(size, channels, count)) == count
    ensures count > 0 ==> FrameBytes(size, channels, count) > 0
  {
    var n: int, c: int, k: int := size, channels, count;
    MulAssociative(n, c, k);
    MulNonnegative(c, k);
    MulDiv(c * k, n);
    MulCommutes(n, c * k);
    MulDiv(k, c);
    MulCommutes(c, k);
    if count > 0 {
      MulPositive(c, k);
      MulPositive(n, c * k);
    }
  }

  lemma FramePosStep(s: State, k: nat, m: nat)
    requires Complete(s)
    ensures FramePos(s, k) + Transfer(s, m) == FramePos(s, k + m)
    ensures FramesIn(SampleSize(s), s.format.body.channels, Transfer(s, m)) == m
    ensures m > 0 ==> Transfer(s, m) > 0
  {
    var align := s.format.body.blockAlign;
    WholeTransfer(SampleSize(s), s.format.body.channels, m);
    MulCommutes(align, m);
    MulDistributes(align, k, m);
    MulCommutes(align, k);
    MulCommutes(align, k + m);
  }

  /** `m` frames delivered from frame `k` on, and the position right behind them. */
  function Delivered(s: State, k: nat, m: nat): ReadResult
    requires FramePos(s, k) <= FramePos(s, k + m) <= |s.disk|
  {
    ReadResult(s.(pos := FramePos(s, k + m)), m, Frames(s, k, k + m))
  }

  /** A read at frame `k` delivers the frames asked for, clamped at the end of the data chunk.
      Bytes behind the data chunk are never touched. */
  lemma ReadFrames(s: State, k: nat, count: nat)
    requires AtFrame(s, k)
    ensures var m := Min(count, Length(s) - k);
            && m >= 0 && FramePos(s, k) <= FramePos(s, k + m) <= s.data.offset + s.data.header.size <= |s.disk|
            && AfterRead(s, count) == Delivered(s, k, m) && AtFrame(Delivered(s, k, m).state, k + m)
  {
    hide FrameBytes, FramesIn;
    var m := Min(count, Length(s) - k);
    TellOfFrame(s, k);
    FramePosOrder(s, k, k + m);
    FramePosStep(s, k, m);
    assert Remaining(s) == Length(s) - k;
    if m > 0 {
      ReadSome(s, count, m, Transfer(s, m));
    }
  }

  lemma ReadSome(s: State, count: nat, m: nat, n: nat)
    requires Playable(s) && s.pos >= s.data.offset && s.mode.read && s.err == Ok && s.format.body.tag != EXTENSIBLE
    requires m == Min(count, Remaining(s)) > 0 && n == Transfer(s, m) > 0 && s.pos + n <= |s.disk|
    requires FramesIn(SampleSize(s), s.format.body.channels, n) == m
    ensures AfterRead(s, count) == ReadResult(s.(pos := s.pos + n), m, s.disk[s.pos..s.pos + n])
  {
  }

  function Sum(counts: seq<nat>): nat
  {
    if counts == [] then 0 else counts[0] + Sum(counts[1..])
  }

  function Combined(a: ReadResult, b: ReadResult): ReadResult
  {
    ReadResult(b.state, a.frames + b.frames, a.got + b.got)
  }

  /** A list of reads, one after the other. */
  function ReadMany(s: State, counts: seq<nat>): ReadResult
    requires Playable(s) && s.pos >= s.data.offset
    decreases |counts|
  {
    if counts == [] then ReadResult(s, 0, [])
    else
      var a := AfterRead(s, counts[0]);
      Combined(a, ReadMany(a.state, counts[1..]))
  }

  lemma DeliveredJoin(s: State, k: nat, m: nat, n: nat)
    requires FramePos(s, k) <= FramePos(s, k + m) <= FramePos(s, k + m + n) <= |s.disk|
    ensures var a, t := Delivered(s, k, m), s.(pos := FramePos(s, k + m));
            && FramePos(t, k + m) <= FramePos(t, k + m + n)
            && Combined(a, Delivered(t, k + m, n)) == Delivered(s, k, m + n)
  {
    var t := s.(pos := FramePos(s, k + m));
    SlicesJoin(s.disk, FramePos(s, k), FramePos(s, k + m), FramePos(s, k + m + n));
    assert FramePos(t, k + m + n) == FramePos(s, k + (m + n));
  }

  lemma SlicesJoin(s: seq<u8>, a: nat, b: nat, c: nat)
    requires a <= b <= c <= |s|
    ensures s[a..b] + s[b..c] == s[a..c]
  {
  }

  /** A read at frame `k`, and where it leaves the file. */
  lemma FirstRead(s: State, k: nat, count: nat)
    requires AtFrame(s, k)
    ensures k <= Length(s) && s.pos >= s.data.offset
    ensures var m := Min(count, Length(s) - k);
            var t := s.(pos := FramePos(s, k + m));
            && m >= 0 && FramePos(s, k) <= FramePos(s, k + m) <= |s.disk|
            && AfterRead(s, count) == Delivered(s, k, m) && Delivered(s, k, m).state == t
            && AtFrame(t, k + m) && Playable(t) && Length(t) == Length(s) && t.pos >= t.data.offset
  {
    hide AfterRead, FrameBytes, FramesIn;
    TellOfFrame(s, k);
    ReadFrames(s, k, count);
  }

  /** One read and then another one are the single read of both counts. */
  lemma TwoReads(s: State, k: nat, first: nat, rest: nat)
    requires AtFrame(s, k)
    ensures s.pos >= s.data.offset
    ensures var a := AfterRead(s, first);
            && AtFrame(a.state, k + Min(first, Length(s) - k)) && a.state.pos >= s.data.offset
            && Combined(a, AfterRead(a.state, rest)) == AfterRead(s, first + rest)
  {
    hide AfterRead, Frames, FramePos, Delivered, AtFrame, Complete, Length, Combined;
    FirstRead(s, k, first);
    var m := Min(first, Length(s) - k);
    var t := s.(pos := FramePos(s, k + m));
    FirstRead(t, k + m, rest);
    FirstRead(s, k, first + rest);
    var n := Min(rest, Length(s) - (k + m));
    FramePosFixed(s, FramePos(s, k + m), k + m);
    FramePosFixed(s, FramePos(s, k + m), k + m + n);
    DeliveredJoin(s, k, m, n);
  }

  lemma FramePosFixed(s: State, pos: nat, k: nat)
    ensures FramePos(s.(pos := pos), k) == FramePos(s, k)
  {
  }

  lemma NoRead(s: State)
    requires Playable(s) && s.pos >= s.data.offset && s.mode.read && s.format.body.tag != EXTENSIBLE
    ensures AfterRead(s, 0) == ReadResult(s, 0, [])
  {
  }

  /** Any split of a read amounts to the single read of the summed count: same bytes, same frame
      count, same final state. */
  lemma {:induction false} SplitReads(s: State, k: nat, counts: seq<nat>)
    requires AtFrame(s, k)
    ensures s.pos >= s.data.offset && ReadMany(s, counts) == AfterRead(s, Sum(counts))
    decreases |counts|
  {
    hide AfterRead, FramePos, Length, Combined;
    if counts == [] {
      TellOfFrame(s, k);
      NoRead(s);
    } else {
      TwoReads(s, k, counts[0], Sum(counts[1..]));
      SplitReads(AfterRead(s, counts[0]).state, k + Min(counts[0], Length(s) - k), counts[1..]);
    }
  }

  // ---------- seek and tell ----------

  /** Seeking to a frame and asking for the position are inverse to one another. */
  lemma SeekTell(s: State, k: nat)
    requires Playable(s) && s.pos >= s.data.offset
    ensures var r := AfterSeek(s, k, Set);
            r.pos >= s.data.offset && Tell(r) == k && (r.pos - s.data.offset) % s.format.body.blockAlign == 0
  {
    MulNonnegative(k, s.format.body.blockAlign);
    MulDiv(k, s.format.body.blockAlign);
  }

  /** Relative seeks add up, as long as no intermediate position is negative; they then equal one
      absolute seek, wherever inside a frame the position stood before. */
  lemma SeeksCompose(s: State, a: int, b: int)
    requires Playable(s) && s.pos >= s.data.offset
    requires Tell(s) + a >= 0 && Tell(s) + a + b >= 0
    ensures var r := AfterSeek(s, a, Cur);
            && r.pos >= s.data.offset && Tell(r) == Tell(s) + a
            && AfterSeek(r, b, Cur) == AfterSeek(s, a + b, Cur) == AfterSeek(s, Tell(s) + a + b, Set)
  {
    SeekTell(s, Tell(s) + a);
    assert AfterSeek(s, a, Cur) == AfterSeek(s, Tell(s) + a, Set);
  }
}
