/** How parsing ends on any byte image at all, error paths included, said in terms of chunk lists:
    the chunks that could be read, what stopped them, and, behind a fact chunk that could not be
    read, the chunks read with its error pending. */
module WavVerdict {
  import opened Bytes
  import opened WavFormat
  import opened WavState
  import opened WavParser
  import opened WavGrammar

  /** A list that ends without a fact fault decides the parse, and so does one that ends with a fact
      chunk cut short. */
  lemma StopParses(img: seq<u8>, ps: Pieces, stop: Stop)
    requires IsRiffWave(img) && Reads(img, 12, NO_CHUNKS, ps, stop)
    ensures AllValid(ps)
    ensures var q, d := 12 + Width(ps), Fold(NO_CHUNKS, ps, 12);
            match stop
            case Data => q + 8 <= |img| && Parse(img) == FoundAt(img, q, d, Ok)
            case Oversize => Parse(img) == Overrun
            case Unreadable => Parse(img) == Rejected
            case ShortFact => Parse(img) == Aborted
            case _ => true
  {
    hide HeaderAt, Fold, Scan, AcceptsAll, At, AllValid, IsRiffWave, Parse;
    var q, d := 12 + Width(ps), Fold(NO_CHUNKS, ps, 12);
    ParseLoop(img);
    LoopList(img, 12, NO_CHUNKS, ps, Ok);
    LoopStops(img, q, d, Ok);
    if stop == ShortFact {
      LoopBeyond(img, Resume(img, q), AfterFault(img, q, d), FormatError);
    }
  }

  /** The chunks `ps` are read, then a fact chunk that cannot be, then `qs` with its error pending. */
  predicate Faulty(img: seq<u8>, ps: Pieces, qs: Pieces, stop: Stop)
  {
    && Spelled(img, 12, NO_CHUNKS, ps)
    && var q, c := 12 + Width(ps), Fold(NO_CHUNKS, ps, 12);
       FactFault(StopAt(img, q, c)) && Reads(img, Resume(img, q), AfterFault(img, q, c), qs, stop)
  }

  /** What was read before and after the fault. */
  function FaultyFold(img: seq<u8>, ps: Pieces, qs: Pieces): (nat, Chunks)
    requires AllValid(ps) && AllValid(qs) && 12 + Width(ps) + 8 <= |img|
  {
    var q := 12 + Width(ps);
    var p := Resume(img, q);
    (p + Width(qs), Fold(AfterFault(img, q, Fold(NO_CHUNKS, ps, 12)), qs, p))
  }

  lemma FaultyParts(img: seq<u8>, ps: Pieces, qs: Pieces, stop: Stop)
    requires Faulty(img, ps, qs, stop)
    ensures AllValid(ps) && AllValid(qs) && 12 + Width(ps) + 8 <= |img|
    ensures FaultyFold(img, ps, qs).0 <= |img|
  {
    hide HeaderAt, Fold, AcceptsAll, At, SpellAll, Accepts;
    SpelledFits(img, Resume(img, 12 + Width(ps)),
                AfterFault(img, 12 + Width(ps), Fold(NO_CHUNKS, ps, 12)), qs);
  }

  /** Behind a fact chunk that cannot be read: the fold with the error pending if a data header ends
      the list, and otherwise a failed assertion or an overrun. */
  lemma FaultyParses(img: seq<u8>, ps: Pieces, qs: Pieces, stop: Stop)
    requires IsRiffWave(img) && Faulty(img, ps, qs, stop) && stop != GoesOn
    ensures AllValid(ps) && AllValid(qs) && 12 + Width(ps) + 8 <= |img|
    ensures var r := FaultyFold(img, ps, qs);
            match stop
            case Data => r.0 + 8 <= |img| && Parse(img) == FoundAt(img, r.0, r.1, FormatError)
            case Oversize => Parse(img) == Overrun
            case _ => Parse(img) == Aborted
  {
    hide HeaderAt, Fold, Scan, Loop, AcceptsAll, At, AllValid, IsRiffWave, Parse, StopAt, Width, SpellAll;
    FaultyParts(img, ps, qs, stop);
    var q, c, r := 12 + Width(ps), Fold(NO_CHUNKS, ps, 12), FaultyFold(img, ps, qs);
    ParseLoop(img);
    LoopList(img, 12, NO_CHUNKS, ps, Ok);
    LoopStops(img, q, c, Ok);
    LoopList(img, Resume(img, q), AfterFault(img, q, c), qs, FormatError);
    LoopStops(img, r.0, r.1, FormatError);
  }

  /** An accepted list that runs into a fact chunk that cannot be read: cut short, it fails the
      assertion at once; empty, the file opens with an error exactly if a second accepted list and
      a data header follow. */
  lemma FaultVerdict(img: seq<u8>, ps: Pieces, fault: Stop)
    requires IsRiffWave(img) && Reads(img, 12, NO_CHUNKS, ps, fault) && FactFault(fault)
    ensures fault == ShortFact ==> Parse(img) == Aborted
    ensures Parse(img).Found? <==> exists qs :: Faulty(img, ps, qs, Data)
    ensures Parse(img).Found? ==> Parse(img).err == FormatError
    ensures !Parse(img).Found? ==> Parse(img) == Aborted || Parse(img) == Overrun
  {
    hide HeaderAt, Fold, Scan, Loop, AcceptsAll, At, AllValid, IsRiffWave, Parse, Width, SpellAll, FaultyFold;
    var q, c := 12 + Width(ps), Fold(NO_CHUNKS, ps, 12);
    StopParses(img, ps, fault);
    LoopStops(img, q, c, Ok);
    var qs, stop := SomeList(img, Resume(img, q), AfterFault(img, q, c));
    assert Faulty(img, ps, qs, stop);
    FaultyParses(img, ps, qs, stop);
    forall rs | Faulty(img, ps, rs, Data)
      ensures Parse(img).Found?
    {
      FaultyParses(img, ps, rs, Data);
    }
  }

  /** Every RIFF/WAVE image is of one of these two kinds. */
  lemma SomeEnd(img: seq<u8>) returns (ps: Pieces, qs: Pieces, stop: Stop, faulty: bool)
    requires IsRiffWave(img)
    ensures stop != GoesOn
    ensures if faulty then Faulty(img, ps, qs, stop) else Reads(img, 12, NO_CHUNKS, ps, stop) && !FactFault(stop)
  {
    hide HeaderAt, Fold, Scan, AcceptsAll, At, AllValid, IsRiffWave, Parse;
    ParseLoop(img);
    ps, stop := SomeList(img, 12, NO_CHUNKS);
    qs, faulty := Nil, FactFault(stop);
    if faulty {
      var q, c := 12 + Width(ps), Fold(NO_CHUNKS, ps, 12);
      qs, stop := SomeList(img, Resume(img, q), AfterFault(img, q, c));
    }
  }

  /** On every byte image: the ways of ending other than a clean one, each exactly characterised. */
  lemma ParseVerdict(img: seq<u8>)
    ensures Parse(img) == Rejected <==> !IsRiffWave(img) || exists ps :: Reads(img, 12, NO_CHUNKS, ps, Unreadable)
    ensures Parse(img) == Aborted <==>
              IsRiffWave(img) &&
              exists ps, qs, stop :: Faulty(img, ps, qs, stop) && (stop == Unreadable || FactFault(stop))
    ensures Parse(img).Found? && Parse(img).err != Ok <==>
              IsRiffWave(img) && exists ps, qs :: Faulty(img, ps, qs, Data)
    ensures Parse(img) == Overrun <==>
              IsRiffWave(img) && ((exists ps :: Reads(img, 12, NO_CHUNKS, ps, Oversize)) ||
                                  exists ps, qs :: Faulty(img, ps, qs, Oversize))
  {
    hide Faulty, Reads, Fold, Resume, AfterFault, FaultyFold, HeaderAt, IsRiffWave, Scan, AllValid, Width;
    ParseLoop(img);
    if IsRiffWave(img) {
      var ps, qs, stop, faulty := SomeEnd(img);
      if faulty {
        FaultyParses(img, ps, qs, stop);
      } else {
        StopParses(img, ps, stop);
      }
      forall ps, stop | Reads(img, 12, NO_CHUNKS, ps, stop) && (stop == Unreadable || stop == Oversize)
        ensures Parse(img) == if stop == Unreadable then Rejected else Overrun
      {
        StopParses(img, ps, stop);
      }
      forall ps, qs, stop | Faulty(img, ps, qs, stop) && stop != GoesOn
        ensures match stop
                case Data => Parse(img).Found? && Parse(img).err == FormatError
                case Oversize => Parse(img) == Overrun
                case _ => Parse(img) == Aborted
      {
        FaultyParses(img, ps, qs, stop);
      }
    }
  }

  // ---------- the two shortest faulty files ----------

  const EMPTY_FACT: ChunkHeader := ChunkHeader(FACT_ID, 0)

  lemma EmptyFactFirst(size: u32, rest: seq<u8>)
    ensures var img := RiffHead(size) + (EncodeHeader(EMPTY_FACT) + rest);
            && IsRiffWave(img) && At(img, 20, rest)
            && Parse(img) == Loop(img, 20, Chunks(NO_FORMAT, FactChunk(EMPTY_FACT, 20, 0)), FormatError)
  {
    hide Scan, At, HeaderAt, IsRiffWave, RiffHead;
    var img := RiffHead(size) + (EncodeHeader(EMPTY_FACT) + rest);
    FileStands(img, size, EncodeHeader(EMPTY_FACT) + rest);
    AtSplit(img, 12, EncodeHeader(EMPTY_FACT), rest);
    HeaderStands(img, 12, EMPTY_FACT);
    ParseLoop(img);
    LoopStops(img, 12, NO_CHUNKS, Ok);
  }

  /** The shortest image that fails the assertion: an empty fact chunk and nothing more. */
  lemma EmptyFactAborts(size: u32)
    ensures Parse(RiffHead(size) + EncodeHeader(EMPTY_FACT)) == Aborted
  {
    EmptyFactFirst(size, []);
    assert EncodeHeader(EMPTY_FACT) + [] == EncodeHeader(EMPTY_FACT);
    LoopBeyond(RiffHead(size) + EncodeHeader(EMPTY_FACT), 20, Chunks(NO_FORMAT, FactChunk(EMPTY_FACT, 20, 0)),
               FormatError);
  }

  /** With a data header behind it, the file opens, with the error set. */
  lemma EmptyFactFound(size: u32, data: ChunkHeader)
    requires data.id == DATA_ID
    ensures Parse(RiffHead(size) + (EncodeHeader(EMPTY_FACT) + EncodeHeader(data)))
         == Found(NO_FORMAT, FactChunk(EMPTY_FACT, 20, 0), DataChunk(data, 28), FormatError)
  {
    var img := RiffHead(size) + (EncodeHeader(EMPTY_FACT) + EncodeHeader(data));
    EmptyFactFirst(size, EncodeHeader(data));
    HeaderStands(img, 20, data);
    LoopStops(img, 20, Chunks(NO_FORMAT, FactChunk(EMPTY_FACT, 20, 0)), FormatError);
  }
}
