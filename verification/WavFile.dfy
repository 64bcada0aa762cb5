/** The WAV file object: a stream, the open mode, and chunk records that are patched back to disk
    after every write.  Each method takes the steps of the library function of the same name and
    is proved against the state function in WavState. */
module WavFile {
  import opened Bytes
  import opened Stdio
  import opened WavFormat
  import opened WavState
  import WavParser

  /** How an opening attempt ends when it ends: normally, by a failed assertion, or by reading a
      chunk into a record too small for it. */
  datatype OpenOutcome = Returned | Asserted | Overran

  class WavFile {
    var fp: File?
    var mode: Mode
    var isNew: bool
    var riff: MasterChunk
    var format: FormatChunk
    var fact: FactChunk
    var data: DataChunk
    var err: ErrCode

    ghost function State(): State
      requires fp != null
      reads this, fp
    {
      WavState.State(fp.bytes, fp.pos, fp.eof, mode, isNew, riff, format, fact, data, err)
    }

    // ---------- opening ----------

    /** Opens over the bytes the named file holds.  Any mode that writes truncates the file; an
        appending mode first tries to parse the now empty file and always falls through. */
    method Init(existing: seq<u8>, mode: Mode) returns (outcome: OpenOutcome)
      modifies this
      ensures !mode.read && !mode.write && !mode.append ==>
                outcome == Returned && fp == null && err == ParamError
      ensures mode.write || mode.append ==>
                outcome == Returned && fp != null && fresh(fp) && State() == NewState(mode)
      ensures mode == Mode(true, false, false) ==>
                fp != null && fresh(fp) && fp.bytes == existing && this.mode == mode &&
                match WavParser.Parse(existing)
                case Found(_, _, _, e) =>
                  outcome == Returned && (e == Ok ==> !fp.eof) &&
                  State() == WavParser.ReadState(existing).(eof := fp.eof)
                case Rejected => outcome == Returned && err == FormatError
                case Aborted => outcome == Asserted
                case Overrun => outcome == Overran
    {
      hide AfterWriteHeader, WavParser.Scan, WavParser.HeaderAt;
      outcome := Returned;
      fp, this.mode, isNew, err := null, Mode(false, false, false), false, Ok;
      riff, format := MasterChunk(NO_HEADER, 0), WavParser.NO_FORMAT;
      fact, data := WavParser.NO_FACT, DataChunk(NO_HEADER, 0);
      if mode.write || mode.append {
        fp := new File([]);
      } else if mode.read {
        fp := new File(existing);
      } else {
        err := ParamError;
        return;
      }
      this.mode := mode;
      if !mode.write && !mode.append {
        outcome := ParseHeader();
        return;
      }
      if mode.append {
        outcome := ParseHeader();
        if err == Ok { return; }
        err := Ok;
        fp.Seek(0);
        isNew := true;
      }
      riff := MasterChunk(ChunkHeader(RIFF_ID, riff.header.size), WAVE_ID);
      format := FormatChunk(ChunkHeader(FORMAT_ID, PLAIN_SIZE), 12 + 8, DEFAULT_FORMAT);
      data := DataChunk(ChunkHeader(DATA_ID, data.header.size), format.offset + format.header.size + 8);
      WriteHeader();
    }

    // ---------- reading the header ----------

    method ParseHeader() returns (outcome: OpenOutcome)
      requires fp != null && fp.pos == 0 && !fp.eof && err == Ok && data.header.id == 0
      requires format == WavParser.NO_FORMAT && fact == WavParser.NO_FACT
      modifies this, fp
      ensures fp == old(fp) && fp.bytes == old(fp.bytes) && mode == old(mode) && isNew == old(isNew)
      ensures |fp.bytes| < 8 ==> State() == old(State()).(eof := true, err := FormatError, pos := |fp.bytes|)
      ensures match WavParser.Parse(fp.bytes)
              case Found(_, _, _, e) =>
                outcome == Returned &&
                State() == WavParser.ReadState(fp.bytes).(mode := mode, isNew := isNew, eof := fp.eof) &&
                (e == Ok ==> !fp.eof)
              case Rejected => outcome == Returned && err == FormatError
              case Aborted => outcome == Asserted
              case Overrun => outcome == Overran
    {
      outcome := Returned;
      var b := fp.Read(8);
      if |b| < 8 { err := FormatError; return; }
      riff := riff.(header := DecodeHeader(b));
      if riff.header.id != RIFF_ID { err := FormatError; return; }
      b := fp.Read(4);
      if |b| < 4 { err := FormatError; return; }
      riff := riff.(waveId := FromLE32(b));
      if riff.waveId != WAVE_ID { err := FormatError; return; }
      ghost var all := WavParser.Parse(fp.bytes);
      while data.header.id != DATA_ID
        invariant fp == old(fp) && fp.bytes == old(fp.bytes) && mode == old(mode) && isNew == old(isNew)
        invariant riff == MasterChunk(WavParser.HeaderAt(fp.bytes, 0), WAVE_ID)
        invariant outcome == Returned && (fp.eof ==> err != Ok)
        invariant all == Rest()
        invariant data.header.id == DATA_ID ==> data.offset == fp.pos
        decreases data.header.id != DATA_ID, |fp.bytes| - fp.pos
      {
        var stop;
        stop, outcome := ParseChunk();
        if stop { return; }
      }
    }

    /** What is still to come of the parse from the current state. */
    ghost function Rest(): WavParser.Outcome
      requires fp != null
      reads this, fp
    {
      if data.header.id == DATA_ID then WavParser.Found(format, fact, data, err)
      else WavParser.Scan(fp.bytes, fp.pos, format, fact, err)
    }

    /** The contract shared by the pieces of one pass through the chunk loop: either the pass stops
        with the outcome of the whole scan, or the rest of the scan decides it from a later position. */
    twostate predicate Advanced(stop: bool, outcome: OpenOutcome, was: WavParser.Outcome)
      requires fp != null
      reads this, fp
    {
      if !stop then was == Rest()
      else match was
        case Found(_, _, _, _) => false
        case Rejected => outcome == Returned && err == FormatError
        case Aborted => outcome == Asserted
        case Overrun => outcome == Overran
    }

    /** One pass through the chunk loop. */
    method ParseChunk() returns (stop: bool, outcome: OpenOutcome)
      requires fp != null && data.header.id != DATA_ID && (fp.eof ==> err != Ok)
      modifies this`format, this`fact, this`data, this`err, fp
      ensures fp.bytes == old(fp.bytes) && Advanced(stop, outcome, old(Rest()))
      ensures !stop ==> outcome == Returned && (fp.eof ==> err != Ok)
      ensures !stop ==> fp.pos >= old(fp.pos) + 8 && old(fp.pos) + 8 <= |fp.bytes|
      ensures data.header.id == DATA_ID ==> data.offset == fp.pos
    {
      hide DecodeHeader, DecodeBody, OverlayLength;
      stop, outcome := false, Returned;
      var b := fp.Read(8);
      if |b| < 8 { outcome := SetError(); return true, outcome; }
      var h := DecodeHeader(b);
      assert h == WavParser.HeaderAt(fp.bytes, old(fp.pos));
      if h.id == FORMAT_ID {
        stop, outcome := ParseFormat(h);
      } else if h.id == FACT_ID {
        stop, outcome := ParseFact(h);
      } else if h.id == DATA_ID {
        data := DataChunk(h, fp.pos);
      } else {
        fp.Seek(fp.pos + h.size);
      }
    }

    method ParseFormat(h: ChunkHeader) returns (stop: bool, outcome: OpenOutcome)
      requires fp != null && h.size >= 0 && fp.pos <= |fp.bytes|
      modifies this`format, this`err, fp
      ensures fp.bytes == old(fp.bytes)
      ensures stop ==> outcome == (if h.size > BODY_SIZE then Overran
                                   else if old(err) == Ok then Returned else Asserted)
      ensures stop && h.size <= BODY_SIZE && old(err) == Ok ==> err == FormatError
      ensures !stop ==> outcome == Returned && err == old(err) && fp.eof == old(fp.eof)
      ensures !stop ==> fp.pos == old(fp.pos) + h.size && 0 < h.size <= BODY_SIZE && fp.pos <= |fp.bytes|
      ensures !stop ==> Supported(format.body.tag) && format == FormatChunk(h, old(fp.pos),
                          Overlay(old(format.body), fp.bytes[old(fp.pos)..fp.pos]))
      ensures stop && 0 < h.size <= BODY_SIZE && old(fp.pos) + h.size <= |fp.bytes| ==>
                !Supported(Overlay(old(format.body), fp.bytes[old(fp.pos)..old(fp.pos) + h.size]).tag)
    {
      stop := true;
      if h.size > BODY_SIZE { return true, Overran; }
      format := format.(header := h, offset := fp.pos);
      var b := fp.Read(h.size);
      if h.size == 0 || |b| < h.size { outcome := SetError(); return; }
      format := format.(body := Overlay(format.body, b));
      if !Supported(format.body.tag) { outcome := SetError(); return; }
      return false, Returned;
    }

    method ParseFact(h: ChunkHeader) returns (stop: bool, outcome: OpenOutcome)
      requires fp != null && fp.pos <= |fp.bytes|
      modifies this`fact, this`err, fp
      ensures fp.bytes == old(fp.bytes)
      ensures fp.pos >= old(fp.pos)
      ensures stop <==> h.size > 4 || (old(err) != Ok && (h.size == 0 || old(fp.pos) + h.size > |fp.bytes|))
      ensures stop ==> outcome == (if h.size > 4 then Overran else Asserted)
      ensures !stop ==> outcome == Returned && fp.pos == Min(old(fp.pos) + h.size, |fp.bytes|)
      ensures !stop ==>
        if h.size == 0 || old(fp.pos) + h.size > |fp.bytes| then
          err == FormatError && fact == FactChunk(h, old(fp.pos), old(fact.sampleLength))
        else
          err == old(err) && fp.eof == old(fp.eof) && fact == FactChunk(h, old(fp.pos),
            OverlayLength(old(fact.sampleLength), fp.bytes[old(fp.pos)..fp.pos]))
    {
      stop, outcome := false, Returned;
      if h.size > 4 { return true, Overran; }
      fact := fact.(header := h, offset := fp.pos);
      var b := fp.Read(h.size);
      if h.size == 0 || |b| < h.size {
        // no return after the error: the loop goes on with it pending
        outcome := SetError();
        stop := outcome == Asserted;
      } else {
        fact := fact.(sampleLength := OverlayLength(fact.sampleLength, b));
      }
    }

    /** Raises a format error; a pending error fails the assertion in the setter. */
    method SetError() returns (outcome: OpenOutcome)
      modifies this`err
      ensures outcome == if old(err) == Ok then Returned else Asserted
      ensures err == if old(err) == Ok then FormatError else old(err)
    {
      if err != Ok { return Asserted; }
      err := FormatError;
      outcome := Returned;
    }

    // ---------- writing the header ----------

    method WriteHeader()
      requires fp != null && Layout(State())
      modifies this`riff, fp
      ensures State() == AfterWriteHeader(old(State()))
    {
      riff := riff.(header := riff.header.(size := RiffSize(format, fact, data)));
      PutAt(0, EncodeHeader(riff.header) + LE32(riff.waveId));
      WriteFormat();
      WriteFact();
      WriteData();
    }

    method WriteFormat()
      requires fp != null && Layout(State())
      modifies fp
      ensures State() == PutFormat(old(State()))
    {
      hide EncodeHeader, EncodeBody, Patch;
      if format.header.id == FORMAT_ID {
        PutChunk(format.offset - 8, format.header, EncodeBody(format.body)[..format.header.size]);
      }
    }

    method WriteFact()
      requires fp != null && Layout(State())
      modifies fp
      ensures State() == PutFact(old(State()))
    {
      hide EncodeHeader, LE32, Patch;
      if fact.header.id == FACT_ID {
        PutChunk(fact.offset - 8, fact.header, LE32(fact.sampleLength)[..fact.header.size]);
      }
    }

    method WriteData()
      requires fp != null && Layout(State())
      modifies fp
      ensures State() == PutData(old(State()))
    {
      if data.header.id == DATA_ID {
        PutAt(data.offset - 8, EncodeHeader(data.header));
      }
    }

    /** A seek and a transfer. */
    method PutAt(at: nat, b: seq<u8>)
      requires fp != null
      modifies fp
      ensures State() == Put(old(State()), at, b)
    {
      fp.Seek(at);
      fp.Write(b);
    }

    /** A seek, then a chunk header and its body in two transfers. */
    method PutChunk(at: nat, head: ChunkHeader, body: seq<u8>)
      requires fp != null
      modifies fp
      ensures State() == Put(old(State()), at, EncodeHeader(head) + body)
    {
      fp.Seek(at);
      fp.Write(EncodeHeader(head));
      fp.Write(body);
      PatchTwice(old(fp.bytes), at, EncodeHeader(head), body);
    }

    // ---------- position ----------

    method GetTell() returns (frames: nat)
      requires fp != null && Playable(State()) && fp.pos >= data.offset
      ensures frames == Tell(State())
    {
      frames := (fp.pos - data.offset) / format.body.blockAlign;
    }

    method Seek(offset: int, origin: Origin)
      requires fp != null && Playable(State()) && fp.pos >= data.offset
      requires err == Ok || SeekTarget(State(), offset, origin) >= 0
      modifies fp, this`err
      ensures State() == AfterSeek(old(State()), offset, origin)
    {
      var length := data.header.size / format.body.blockAlign;
      var frames := offset;
      if origin == Cur {
        var here := GetTell();
        frames := frames + here;
      } else if origin == End {
        frames := frames + length;
      }
      if frames < 0 {
        err := ParamError;
        return;
      }
      fp.Seek(data.offset + frames * format.body.blockAlign);
    }

    method Eof() returns (end: bool)
      requires fp != null
      ensures end == AtEof(State())
    {
      end := fp.eof || fp.pos == data.offset + data.header.size;
    }

    // ---------- reading and writing audio ----------

    method Read(count: nat) returns (frames: nat, got: seq<u8>)
      requires fp != null && Playable(State()) && fp.pos >= data.offset
      requires err == Ok || (mode.read && format.body.tag != EXTENSIBLE)
      modifies fp, this`err
      ensures ReadResult(State(), frames, got) == AfterRead(old(State()), count)
    {
      frames, got := 0, [];
      var size := format.body.blockAlign / format.body.channels;
      if !mode.read { err := ModeError; return; }
      if format.body.tag == EXTENSIBLE { err := FormatError; return; }
      var here := GetTell();
      var remaining := Wrap64(data.header.size / format.body.blockAlign - here);
      if err != Ok { return; }
      var wanted := if count <= remaining then count else remaining;
      if wanted == 0 { return; }
      got := fp.Read(FrameBytes(size, format.body.channels, wanted));
      frames := FramesIn(size, format.body.channels, |got|);
    }

    method UpdateSizes()
      requires fp != null && Layout(State()) && data.offset >= 8
      modifies fp
      ensures State() == AfterUpdateSizes(old(State()))
    {
      var saved := fp.pos;
      PutAt(4, LE32(riff.header.size));
      if fact.header.id == FACT_ID {
        PutAt(fact.offset, LE32(fact.sampleLength));
      }
      PutAt(data.offset - 4, LE32(data.header.size));
      fp.Seek(saved);
    }

    method Write(buffer: seq<u8>, count: nat) returns (frames: nat)
      requires fp != null && WriteReady(State()) && Transfer(State(), count) <= |buffer|
      requires err == Ok || !WriteRejected(State())
      modifies fp, this`err, this`riff, this`fact, this`data
      ensures State() == AfterWrite(old(State()), buffer, count)
      ensures frames == WrittenFrames(old(State()), count)
    {
      frames := 0;
      if !mode.write && !mode.append { err := ModeError; return; }
      if format.body.tag == EXTENSIBLE { err := FormatError; return; }
      if count == 0 || err != Ok { return; }
      if !mode.read && !mode.write {
        Seek(0, End);
      }
      var size := format.body.blockAlign / format.body.channels;
      frames := if size == 0 then 0 else count;
      WriteBytes(buffer[..FrameBytes(size, format.body.channels, count)], frames);
    }

    /** The transfer itself and the size fields that follow from it. */
    method WriteBytes(b: seq<u8>, frames: nat)
      requires fp != null && Layout(State()) && data.offset >= 8
      modifies fp, this`riff, this`fact, this`data
      ensures State() == AfterTransfer(old(State()), b, frames)
    {
      fp.Write(b);
      GrowSizes(|b|, frames);
      UpdateSizes();
    }

    method GrowSizes(n: nat, frames: nat)
      requires fp != null
      modifies this`riff, this`fact, this`data
      ensures State() == Grow(old(State()), n, frames)
    {
      riff := riff.(header := riff.header.(size := Wrap32(riff.header.size + n)));
      if fact.header.id == FACT_ID {
        fact := fact.(sampleLength := Wrap32(fact.sampleLength + frames));
      }
      data := data.(header := data.header.(size := Wrap32(data.header.size + n)));
    }

    // ---------- setters ----------

    method SetFormat(tag: u16)
      requires fp != null && Layout(State()) && format.body.channels > 0 && tag != EXTENSIBLE
      requires err == Ok || Settable(State())
      modifies fp, this`err, this`riff, this`format
      ensures State() == AfterSetFormat(old(State()), tag)
    {
      if !MaySet(mode, isNew, data) { err := ModeError; return; }
      if tag == format.body.tag { return; }
      SetTag(tag);
      ForceSampleSize(tag);
      WriteHeader();
    }

    method ForceSampleSize(tag: u16)
      requires fp != null && Layout(State()) && format.body.channels > 0 && Settable(State())
      modifies fp, this`err, this`riff, this`format
      ensures State() == ForcedState(old(State()), tag)
    {
      var size := format.body.blockAlign / format.body.channels;
      if tag == ALAW || tag == MULAW {
        if size != 1 { SetSampleSize(1); }
      } else if tag == IEEE_FLOAT {
        if size != 4 && size != 8 { SetSampleSize(4); }
      }
    }

    method SetTag(tag: u16)
      requires fp != null && tag != EXTENSIBLE
      modifies this`format
      ensures State() == TaggedState(old(State()), tag)
    {
      format := format.(body := format.body.(tag := tag));
      if tag != PCM {
        format := format.(header := format.header.(size := PLAIN_SIZE),
                          body := format.body.(ext := LE16(0) + format.body.ext[2..]));
      }
    }

    method SetChannels(channels: u16)
      requires fp != null && Layout(State()) && format.body.channels > 0
      requires err == Ok || (Settable(State()) && channels >= 1)
      modifies fp, this`err, this`riff, this`format
      ensures State() == AfterSetChannels(old(State()), channels)
    {
      if !MaySet(mode, isNew, data) { err := ModeError; return; }
      if channels < 1 { err := ParamError; return; }
      var was := format.body.channels;
      if channels == was { return; }
      var align := Wrap16(format.body.blockAlign / was * channels);
      format := format.(body := format.body.(channels := channels, blockAlign := align,
                                             avgBytes := Wrap32(align * format.body.rate)));
      WriteHeader();
    }

    method SetRate(rate: u32)
      requires fp != null && Layout(State())
      requires err == Ok || Settable(State())
      modifies fp, this`err, this`riff, this`format
      ensures State() == AfterSetRate(old(State()), rate)
    {
      if !MaySet(mode, isNew, data) { err := ModeError; return; }
      if rate == format.body.rate { return; }
      format := format.(body := format.body.(rate := rate, avgBytes := Wrap32(format.body.blockAlign * rate)));
      WriteHeader();
    }

    method SetSampleSize(size: nat)
      requires fp != null && Layout(State())
      requires err == Ok || (Settable(State()) && size >= 1)
      modifies fp, this`err, this`riff, this`format
      ensures State() == AfterSetSampleSize(old(State()), size)
    {
      if !MaySet(mode, isNew, data) { err := ModeError; return; }
      if size < 1 { err := ParamError; return; }
      var align := Wrap16(size * format.body.channels);
      format := format.(body := format.body.(blockAlign := align, avgBytes := Wrap32(align * format.body.rate),
                                             bits := Wrap16(size * 8)));
      WriteHeader();
    }
  }

  /** wav_open: allocation and initialisation. */
  method Open(existing: seq<u8>, mode: Mode) returns (file: WavFile, outcome: OpenOutcome)
    ensures fresh(file) && (file.fp != null ==> fresh(file.fp))
    ensures !mode.read && !mode.write && !mode.append ==>
              outcome == Returned && file.fp == null && file.err == ParamError
    ensures mode.write || mode.append ==>
              outcome == Returned && file.fp != null && file.State() == NewState(mode)
    ensures mode == Mode(true, false, false) ==>
              file.fp != null && file.fp.bytes == existing &&
              match WavParser.Parse(existing)
              case Found(_, _, _, e) =>
                outcome == Returned && (e == Ok ==> file.State() == WavParser.ReadState(existing))
              case Rejected => outcome == Returned && file.err == FormatError
              case Aborted => outcome == Asserted
              case Overrun => outcome == Overran
  {
    file := new WavFile;
    outcome := file.Init(existing, mode);
  }

  lemma PatchTwice(s: seq<u8>, at: nat, a: seq<u8>, b: seq<u8>)
    requires |a| > 0
    ensures Patch(Patch(s, at, a), at + |a|, b) == Patch(s, at, a + b)
  {
    var l, r := Patch(Patch(s, at, a), at + |a|, b), Patch(s, at, a + b);
    assert |l| == |r|;
    forall i | 0 <= i < |l|
      ensures l[i] == r[i]
    {
    }
  }
}
