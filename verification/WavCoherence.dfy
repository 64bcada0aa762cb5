/** Coherence of a recording: the bytes on disk are exactly the canonical header for the in-memory
    format and sizes, followed by the audio.  Which operations keep it, and exactly when a write
    does not. */
module WavCoherence {
  import opened Bytes
  import opened WavFormat
  import opened WavState

  // ---------- the canonical image ----------

  function RiffPart(size: u32): (b: seq<u8>)
    ensures |b| == 12
  {
    EncodeHeader(ChunkHeader(RIFF_ID, Wrap32(36 + size))) + LE32(WAVE_ID)
  }

  function FormatPart(f: Format): (b: seq<u8>)
    ensures |b| == 24
  {
    EncodeHeader(ChunkHeader(FORMAT_ID, PLAIN_SIZE)) + EncodePlain(f)
  }

  function DataPart(size: u32): (b: seq<u8>)
    ensures |b| == 8
  {
    EncodeHeader(ChunkHeader(DATA_ID, size))
  }

  function CanonicalHeader(f: Format, size: u32): (b: seq<u8>)
    ensures |b| == NEW_DATA_OFFSET
  {
    RiffPart(size) + FormatPart(f) + DataPart(size)
  }

  /** The WAV file with format `f` and these audio bytes. */
  function Image(f: Format, audio: seq<u8>): seq<u8>
  {
    CanonicalHeader(f, Wrap32(|audio|)) + audio
  }

  /** The chunk records of a file this library created. */
  predicate NewLayout(s: State)
  {
    && Writable(s) && (s.mode.append ==> s.isNew)
    && s.riff.header.id == RIFF_ID && s.riff.waveId == WAVE_ID
    && s.format.header == ChunkHeader(FORMAT_ID, PLAIN_SIZE) && s.format.offset == 20
    && s.fact.header == NO_HEADER
    && s.data.header.id == DATA_ID && s.data.offset == NEW_DATA_OFFSET
  }

  function Audio(s: State): seq<u8>
    requires |s.disk| >= NEW_DATA_OFFSET
  {
    s.disk[NEW_DATA_OFFSET..]
  }

  /** Disk and memory agree, and the disk holds the header, the audio and nothing else. */
  ghost predicate Coherent(s: State)
  {
    && NewLayout(s)
    && s.pos >= NEW_DATA_OFFSET
    && |s.disk| >= NEW_DATA_OFFSET
    && s.disk[..NEW_DATA_OFFSET] == CanonicalHeader(s.format.body, s.data.header.size)
    && s.data.header.size == Wrap32(|s.disk| - NEW_DATA_OFFSET)
    && s.riff.header.size == Wrap32(36 + s.data.header.size)
  }

  /** A coherent file is the image of its format and audio. */
  lemma CoherentIsImage(s: State)
    requires Coherent(s)
    ensures s.disk == Image(s.format.body, Audio(s))
  {
    assert s.disk == s.disk[..NEW_DATA_OFFSET] + s.disk[NEW_DATA_OFFSET..];
  }

  lemma ImageIsCoherent(s: State, audio: seq<u8>)
    requires NewLayout(s) && s.pos >= NEW_DATA_OFFSET
    requires s.disk == CanonicalHeader(s.format.body, s.data.header.size) + audio
    requires s.data.header.size == Wrap32(|audio|)
    requires s.riff.header.size == Wrap32(36 + s.data.header.size)
    ensures Coherent(s) && Audio(s) == audio
  {
  }

  // ---------- writing the header ----------

  function Drop(s: seq<u8>, n: nat): seq<u8> { if |s| <= n then [] else s[n..] }

  lemma PatchAfter(pre: seq<u8>, rest: seq<u8>, b: seq<u8>)
    requires rest == [] || |rest| >= |b|
    ensures Patch(pre + rest, |pre|, b) == pre + b + Drop(rest, |b|)
  {
    if rest == [] {
      assert pre + rest == pre;
      PatchEnd(pre, b);
      assert pre + b + [] == pre + b;
    } else {
      assert pre + rest == pre + rest[..|b|] + rest[|b|..];
      PatchMiddle(pre, rest[..|b|], rest[|b|..], b);
      assert Drop(rest, |b|) == rest[|b|..];
    }
  }

  lemma RiffSizeOfNew(s: State)
    requires NewLayout(s)
    ensures RiffSize(s.format, s.fact, s.data) == Wrap32(36 + s.data.header.size)
  {
  }

  /** Three parts written one behind the other from the start of an empty image, or over the start of
      one at least as long. */
  lemma ThreePatches(disk: seq<u8>, a: seq<u8>, b: seq<u8>, c: seq<u8>)
    requires disk == [] || |disk| >= |a| + |b| + |c|
    ensures Patch(Patch(Patch(disk, 0, a), |a|, b), |a| + |b|, c) == a + b + c + Drop(disk, |a| + |b| + |c|)
  {
    hide Patch, Drop;
    var rest := Drop(disk, |a|);
    DropAgain(disk, |a|, |b|);
    DropAgain(disk, |a| + |b|, |c|);
    PatchStart(disk, a);
    PatchAfter(a, rest, b);
    PatchAfter(a + b, Drop(disk, |a| + |b|), c);
  }

  lemma PatchStart(s: seq<u8>, b: seq<u8>)
    requires s == [] || |s| >= |b|
    ensures Patch(s, 0, b) == b + Drop(s, |b|)
  {
    PatchAfter([], s, b);
    assert [] + s == s && [] + b == b;
  }

  lemma DropAgain(s: seq<u8>, m: nat, n: nat)
    ensures Drop(Drop(s, m), n) == Drop(s, m + n)
    ensures |Drop(s, m)| == if |s| <= m then 0 else |s| - m
  {
  }

  /** On an empty disk or one with a full header, writing the header leaves exactly the canonical
      header and whatever audio lay behind it. */
  lemma WriteHeaderImage(s: State)
    requires NewLayout(s) && (s.disk == [] || |s.disk| >= NEW_DATA_OFFSET)
    ensures var r := AfterWriteHeader(s);
            && r.disk == CanonicalHeader(s.format.body, s.data.header.size) + Drop(s.disk, NEW_DATA_OFFSET)
            && r.pos == NEW_DATA_OFFSET && r.riff.header.size == Wrap32(36 + s.data.header.size)
  {
    RiffSizeOfNew(s);
    assert EncodeBody(s.format.body)[..PLAIN_SIZE] == EncodePlain(s.format.body);
    hide EncodeHeader, EncodeBody, EncodePlain, LE32, Patch, Drop;
    var f, size: u32 := s.format.body, s.data.header.size;
    var a, b, c := RiffPart(size), FormatPart(f), DataPart(size);
    assert AfterWriteHeader(s).disk == Patch(Patch(Patch(s.disk, 0, a), |a|, b), |a| + |b|, c);
    ThreePatches(s.disk, a, b, c);
  }

  /** Rewriting the header of a coherent file under any new format keeps it coherent, keeps the
      audio, and moves the position to the start of the audio. */
  lemma ReformatCoherent(s: State, f: Format)
    requires Coherent(s)
    ensures var r := AfterWriteHeader(WithFormat(s, f));
            Coherent(r) && Audio(r) == Audio(s) && r.format.body == f && r.pos == NEW_DATA_OFFSET
  {
    var s1 := WithFormat(s, f);
    WriteHeaderImage(s1);
    assert Drop(s1.disk, NEW_DATA_OFFSET) == Audio(s);
    ImageIsCoherent(AfterWriteHeader(s1), Audio(s));
  }

  /** A file opened for writing is the canonical empty recording. */
  lemma NewCoherent(mode: Mode)
    requires mode.write || mode.append
    ensures Coherent(NewState(mode)) && Audio(NewState(mode)) == []
    ensures NewState(mode).format.body == DEFAULT_FORMAT && NewState(mode).pos == NEW_DATA_OFFSET
    ensures NewState(mode).err == Ok && NewState(mode).mode == mode
  {
    WriteHeaderImage(NewChunks(mode));
    ImageIsCoherent(NewState(mode), []);
  }

  // ---------- transferring audio ----------

  predicate InSizeField(s: State, i: nat)
  {
    || 4 <= i < 8
    || (s.fact.header.id == FACT_ID && s.fact.offset <= i < s.fact.offset + 4)
    || s.data.offset - 4 <= i < s.data.offset
  }

  /** Patching the sizes changes no byte outside the size fields and restores the position. */
  lemma UpdateSizesFrame(s: State)
    requires Layout(s) && s.data.offset >= 8 && |s.disk| >= s.data.offset
    requires s.fact.header.id == FACT_ID ==> s.fact.offset + 4 <= |s.disk|
    ensures var r := AfterUpdateSizes(s);
            && |r.disk| == |s.disk| && r == s.(disk := r.disk, eof := false)
            && forall i :: 0 <= i < |s.disk| && !InSizeField(s, i) ==> r.disk[i] == s.disk[i]
  {
  }

  lemma PatchHolds(s: seq<u8>, at: nat, b: seq<u8>)
    requires at + |b| <= |s|
    ensures |Patch(s, at, b)| == |s| && Patch(s, at, b)[at..at + |b|] == b
  {
  }

  lemma PatchApart(s: seq<u8>, at: nat, b: seq<u8>, lo: nat, hi: nat)
    requires at + |b| <= |s| && lo <= hi <= |s| && (hi <= at || at + |b| <= lo)
    ensures |Patch(s, at, b)| == |s| && Patch(s, at, b)[lo..hi] == s[lo..hi]
  {
  }

  /** And the size fields then hold what memory says, a fact chunk's included. */
  lemma UpdateSizesStored(s: State)
    requires Layout(s) && s.data.offset >= 12 && |s.disk| >= s.data.offset
    requires s.fact.header.id == FACT_ID ==> 8 <= s.fact.offset && s.fact.offset + 4 <= s.data.offset - 4
    ensures var d := AfterUpdateSizes(s).disk;
            && |d| == |s.disk| && d[4..8] == LE32(s.riff.header.size)
            && d[s.data.offset - 4..s.data.offset] == LE32(s.data.header.size)
            && (s.fact.header.id == FACT_ID ==> d[s.fact.offset..s.fact.offset + 4] == LE32(s.fact.sampleLength))
  {
    var riff, fact, size := LE32(s.riff.header.size), LE32(s.fact.sampleLength), LE32(s.data.header.size);
    var d1 := Patch(s.disk, 4, riff);
    PatchHolds(s.disk, 4, riff);
    var d2 := if s.fact.header.id == FACT_ID then Patch(d1, s.fact.offset, fact) else d1;
    if s.fact.header.id == FACT_ID {
      PatchHolds(d1, s.fact.offset, fact);
      PatchApart(d1, s.fact.offset, fact, 4, 8);
      PatchApart(d2, s.data.offset - 4, size, s.fact.offset, s.fact.offset + 4);
    }
    PatchHolds(d2, s.data.offset - 4, size);
    PatchApart(d2, s.data.offset - 4, size, 4, 8);
  }

  /** A full set of chunk records that lie one behind the other on disk. */
  predicate ThreeChunks(s: State)
  {
    && Layout(s) && s.format.header.id == FORMAT_ID && s.fact.header.id == FACT_ID && s.data.header.id == DATA_ID
    && 20 <= s.format.offset && s.format.offset + s.format.header.size <= s.fact.offset - 8
    && s.fact.offset + s.fact.header.size <= s.data.offset - 8 && s.data.offset <= |s.disk|
  }

  /** Writing the header puts every record at its place, a fact chunk's included, and counts them all in
      the RIFF size. */
  lemma ChunksStored(s: State)
    requires ThreeChunks(s)
    ensures var d := AfterWriteHeader(s).disk;
            var size := (4 + (8 + s.format.header.size) + (8 + s.fact.header.size) + (8 + s.data.header.size))
                        % 0x1_0000_0000;
            && |d| == |s.disk|
            && d[0..12] == EncodeHeader(ChunkHeader(s.riff.header.id, size)) + LE32(s.riff.waveId)
            && d[s.format.offset - 8..s.format.offset + s.format.header.size]
                 == EncodeHeader(s.format.header) + EncodeBody(s.format.body)[..s.format.header.size]
            && d[s.fact.offset - 8..s.fact.offset + s.fact.header.size]
                 == EncodeHeader(s.fact.header) + LE32(s.fact.sampleLength)[..s.fact.header.size]
            && d[s.data.offset - 8..s.data.offset] == EncodeHeader(s.data.header)
  {
    hide EncodeHeader, EncodeBody, LE32, Patch;
    var riff := EncodeHeader(ChunkHeader(s.riff.header.id, RiffSize(s.format, s.fact, s.data))) + LE32(s.riff.waveId);
    var fmt := EncodeHeader(s.format.header) + EncodeBody(s.format.body)[..s.format.header.size];
    var fact := EncodeHeader(s.fact.header) + LE32(s.fact.sampleLength)[..s.fact.header.size];
    var data := EncodeHeader(s.data.header);
    FourPatches(s.disk, riff, s.format.offset - 8, fmt, s.fact.offset - 8, fact, s.data.offset - 8, data);
  }

  lemma FourPatches(d: seq<u8>, a: seq<u8>, bAt: nat, b: seq<u8>, cAt: nat, c: seq<u8>, eAt: nat, e: seq<u8>)
    requires |a| <= bAt && bAt + |b| <= cAt && cAt + |c| <= eAt && eAt + |e| <= |d|
    ensures var r := Patch(Patch(Patch(Patch(d, 0, a), bAt, b), cAt, c), eAt, e);
            && |r| == |d| && r[0..|a|] == a && r[bAt..bAt + |b|] == b
            && r[cAt..cAt + |c|] == c && r[eAt..eAt + |e|] == e
  {
    hide Patch;
    var d1 := Patch(d, 0, a);
    PatchHolds(d, 0, a);
    var d2 := Patch(d1, bAt, b);
    PatchHolds(d1, bAt, b);
    PatchApart(d1, bAt, b, 0, |a|);
    var d3 := Patch(d2, cAt, c);
    PatchHolds(d2, cAt, c);
    PatchApart(d2, cAt, c, 0, |a|);
    PatchApart(d2, cAt, c, bAt, bAt + |b|);
    PatchHolds(d3, eAt, e);
    PatchApart(d3, eAt, e, 0, |a|);
    PatchApart(d3, eAt, e, bAt, bAt + |b|);
    PatchApart(d3, eAt, e, cAt, cAt + |c|);
  }

  /** The header with new sizes is the old header with both size fields patched. */
  lemma PatchedSizes(f: Format, old_: u32, new_: u32, audio: seq<u8>)
    ensures var d := CanonicalHeader(f, old_) + audio;
            Patch(Patch(d, 4, LE32(Wrap32(36 + new_))), 40, LE32(new_)) == CanonicalHeader(f, new_) + audio
  {
    var d := CanonicalHeader(f, old_) + audio;
    var id, mid, id' := LE32(RIFF_ID), LE32(WAVE_ID) + FormatPart(f) + LE32(DATA_ID), LE32(DATA_ID);
    assert d == id + LE32(Wrap32(36 + old_)) + (mid + LE32(old_) + audio);
    PatchMiddle(id, LE32(Wrap32(36 + old_)), mid + LE32(old_) + audio, LE32(Wrap32(36 + new_)));
    var d1 := id + LE32(Wrap32(36 + new_)) + (mid + LE32(old_) + audio);
    var pre := id + LE32(Wrap32(36 + new_)) + mid;
    assert d1 == pre + LE32(old_) + audio;
    PatchMiddle(pre, LE32(old_), audio, LE32(new_));
    assert pre + LE32(new_) + audio == CanonicalHeader(f, new_) + audio;
  }

  lemma WrapSum(a: int, b: int)
    ensures Wrap32(Wrap32(a) + b) == Wrap32(a + b)
  {
  }

  lemma TransferredSizes(s: State, b: seq<u8>, frames: nat)
    requires Coherent(s)
    ensures var r := AfterTransfer(s, b, frames);
            && r.data.header.size == Wrap32(|Audio(s)| + |b|)
            && r.riff.header.size == Wrap32(36 + r.data.header.size)
            && r.disk == Patch(Patch(Patch(s.disk, s.pos, b), 4, LE32(r.riff.header.size)),
                               40, LE32(r.data.header.size))
            && r.pos == s.pos + |b| && NewLayout(r) && r.format == s.format && r.err == s.err
            && r.mode == s.mode
  {
    WrapSum(|Audio(s)|, |b|);
    WrapSum(36 + s.data.header.size, |b|);
    WrapSum(s.data.header.size + |b|, 36);
  }

  /** A transfer at the end of a coherent file appends exactly its bytes to the audio. */
  lemma TransferAtEnd(s: State, b: seq<u8>, frames: nat)
    requires Coherent(s) && s.pos == |s.disk|
    ensures var r := AfterTransfer(s, b, frames);
            Coherent(r) && Audio(r) == Audio(s) + b && r.pos == |r.disk|
  {
    var f, audio := s.format.body, Audio(s);
    var r := AfterTransfer(s, b, frames);
    TransferredSizes(s, b, frames);
    assert s.disk + b == CanonicalHeader(f, s.data.header.size) + (audio + b) by {
      CoherentIsImage(s);
    }
    PatchEnd(s.disk, b);
    PatchedSizes(f, s.data.header.size, r.data.header.size, audio + b);
    ImageIsCoherent(r, audio + b);
  }

  /** Anywhere else a transfer of at least one byte does not append: either the file does not grow
      by what was written, or a hole precedes it.  The size fields then disagree with the file. */
  lemma TransferElsewhere(s: State, b: seq<u8>, frames: nat)
    requires Coherent(s) && s.pos != |s.disk| && |b| > 0
    ensures var r := AfterTransfer(s, b, frames);
            && |r.disk| >= NEW_DATA_OFFSET && Audio(r) != Audio(s) + b
            && (|b| < TWO_32 && s.pos < |s.disk| + TWO_32 ==> !Coherent(r))
  {
    TransferredSizes(s, b, frames);
    var r := AfterTransfer(s, b, frames);
    var end := s.pos + |b|;
    assert |r.disk| == if |s.disk| >= end then |s.disk| else end;
    var gap := |s.disk| + |b| - |r.disk|;
    assert gap != 0;
    if |b| < TWO_32 && s.pos < |s.disk| + TWO_32 && Coherent(r) {
      assert -TWO_32 < gap < TWO_32;
      SameWrap(|Audio(s)| + |b|, |Audio(r)|);
      assert false;
    }
  }

  /** Appending is exact precisely at the end of the file. */
  lemma TransferIff(s: State, b: seq<u8>, frames: nat)
    requires Coherent(s) && |b| > 0
    ensures var r := AfterTransfer(s, b, frames);
            && (Coherent(r) && Audio(r) == Audio(s) + b <==> s.pos == |s.disk|)
            && r.format == s.format && r.mode == s.mode && r.pos == s.pos + |b|
            && (s.pos == |s.disk| ==> r.pos == |r.disk|)
  {
    TransferredSizes(s, b, frames);
    if s.pos == |s.disk| {
      TransferAtEnd(s, b, frames);
    } else {
      TransferElsewhere(s, b, frames);
    }
  }

  lemma SameWrap(a: int, b: int)
    requires -TWO_32 < a - b < TWO_32 && Wrap32(a) == Wrap32(b)
    ensures a == b
  {
  }
}
