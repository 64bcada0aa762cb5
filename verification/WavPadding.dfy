/** RIFF puts a pad byte behind every chunk of odd size; the parser does not skip it.  Which padded
    files it reads as RIFF means them, and what it makes of the others. */
module WavPadding {
  import opened Bytes
  import opened WavFormat
  import opened WavState
  import opened WavParser
  import opened WavGrammar

  predicate Odd(p: Piece) { |p.body| % 2 == 1 }

  /** The bytes a chunk list takes with its pad bytes. */
  function PaddedWidth(ps: Pieces): nat
  {
    if ps.Nil? then 0 else 8 + |ps.head.body| + (if Odd(ps.head) then 1 else 0) + PaddedWidth(ps.tail)
  }

  function SpellPadded(ps: Pieces): (b: seq<u8>)
    requires AllValid(ps)
    ensures |b| == PaddedWidth(ps)
  {
    match ps
    case Nil => []
    case Cons(p, tail) => Spell(p) + ((if Odd(p) then [0] else []) + SpellPadded(tail))
  }

  /** What RIFF means by the list: its chunks, at their padded offsets. */
  function PaddedFold(c: Chunks, ps: Pieces, pos: nat): Chunks
    requires AllValid(ps)
    decreases ps
  {
    if ps.Nil? then c
    else PaddedFold(Fold1(c, ps.head, pos), ps.tail, pos + 8 + |ps.head.body| + if Odd(ps.head) then 1 else 0)
  }

  /** A WAVE file as RIFF spells it, with whatever bytes behind the data header. */
  predicate SpellsPadded(img: seq<u8>, size: u32, ps: Pieces, data: ChunkHeader)
  {
    && AllValid(ps) && data.id == DATA_ID
    && RiffHead(size) + (SpellPadded(ps) + EncodeHeader(data)) <= img
  }

  /** The parser finds this data header where RIFF has it. */
  predicate FindsData(img: seq<u8>, ps: Pieces, data: ChunkHeader)
  {
    Parse(img).Found? && Parse(img).data == DataChunk(data, 12 + PaddedWidth(ps) + 8)
  }

  // ---------- no odd chunk ----------

  predicate AllEven(ps: Pieces) { ps.Cons? ==> !Odd(ps.head) && AllEven(ps.tail) }

  /** The two spellings are the same exactly for lists of even-sized chunks. */
  lemma {:induction false} PaddingVisible(ps: Pieces)
    requires AllValid(ps)
    ensures PaddedWidth(ps) >= Width(ps)
    ensures SpellPadded(ps) == SpellAll(ps) <==> AllEven(ps)
    ensures !AllEven(ps) ==> PaddedWidth(ps) > Width(ps)
  {
    match ps
    case Nil =>
    case Cons(p, tail) =>
      PaddingVisible(tail);
      if !Odd(p) {
        assert [] + SpellPadded(tail) == SpellPadded(tail);
      }
  }

  lemma {:induction false} EvenFold(c: Chunks, ps: Pieces, pos: nat)
    requires AllValid(ps) && AllEven(ps)
    ensures PaddedFold(c, ps, pos) == Fold(c, ps, pos) && PaddedWidth(ps) == Width(ps)
    decreases ps
  {
    hide Overlay, OverlayLength;
    if ps.Cons? {
      EvenFold(Fold1(c, ps.head, pos), ps.tail, pos + 8 + |ps.head.body|);
    }
  }

  /** Every RIFF file without odd chunks, and with supported formats, parses to what RIFF means. */
  lemma EvenPaddedParses(img: seq<u8>, size: u32, ps: Pieces, data: ChunkHeader)
    requires SpellsPadded(img, size, ps, data) && AllEven(ps) && AcceptsAll(NO_CHUNKS, ps, 12)
    ensures var d := PaddedFold(NO_CHUNKS, ps, 12);
            Parse(img) == Found(d.format, d.fact, DataChunk(data, 12 + PaddedWidth(ps) + 8), Ok)
  {
    hide Parse, Fold, PaddedFold, AcceptsAll, PaddedWidth, Width, SpellPadded, SpellAll;
    PaddingVisible(ps);
    EvenFold(NO_CHUNKS, ps, 12);
    SpelledParses(img, size, ps, data);
  }

  // ---------- the first odd chunk ----------

  /** Every chunk but the last is even. */
  predicate OddLast(ps: Pieces)
  {
    ps.Cons? && if ps.tail.Nil? then Odd(ps.head) else !Odd(ps.head) && OddLast(ps.tail)
  }

  lemma {:induction false} OddLastSpelling(ps: Pieces)
    requires AllValid(ps) && OddLast(ps)
    ensures SpellPadded(ps) == SpellAll(ps) + [0] && PaddedWidth(ps) == Width(ps) + 1 && !AllEven(ps)
  {
    var p, tail := ps.head, ps.tail;
    if tail.Nil? {
      assert Spell(p) + ([0] + []) == Spell(p) + [] + [0];
    } else {
      OddLastSpelling(tail);
      assert [] + SpellPadded(tail) == SpellPadded(tail);
      Associative(Spell(p), SpellAll(tail), [0]);
    }
  }

  /** A chunk header behind a pad byte, seen one byte early. */
  function Shifted(h: ChunkHeader): ChunkHeader
  {
    ChunkHeader(256 * (h.id % 0x100_0000), h.id / 0x100_0000 + 256 * (h.size % 0x100_0000))
  }

  function Sum32(a: u8, b: u8, c: u8, d: u8): u32 { a + 0x100 * b + 0x1_0000 * c + 0x100_0000 * d }

  lemma LE32Of(a: u8, b: u8, c: u8, d: u8)
    ensures LE32(Sum32(a, b, c, d)) == [a, b, c, d]
  {
    FromLE32RoundTrip([a, b, c, d]);
  }

  lemma Sum32Parts(a: u8, b: u8, c: u8, d: u8)
    ensures var x := Sum32(a, b, c, d); x % 0x100_0000 == a + 0x100 * b + 0x1_0000 * c && x / 0x100_0000 == d
  {
  }

  lemma BytesOf(x: u32) returns (a: u8, b: u8, c: u8, d: u8)
    ensures x == Sum32(a, b, c, d) && LE32(x) == [a, b, c, d]
  {
    var e := LE32(x);
    LE32RoundTrip(x);
    a, b, c, d := e[0], e[1], e[2], e[3];
  }

  lemma ShiftedHeader(h: ChunkHeader)
    ensures [0] + EncodeHeader(h) == EncodeHeader(Shifted(h)) + [h.size / 0x100_0000]
  {
    var i, j, k, l := BytesOf(h.id);
    var a, b, c, d := BytesOf(h.size);
    Sum32Parts(i, j, k, l);
    Sum32Parts(a, b, c, d);
    LE32Of(0, i, j, k);
    LE32Of(l, a, b, c);
    assert Shifted(h) == ChunkHeader(Sum32(0, i, j, k), Sum32(l, a, b, c));
    hide LE32;
  }

  lemma ShiftedIsOther(h: ChunkHeader)
    ensures Shifted(h).id != FORMAT_ID && Shifted(h).id != FACT_ID && Shifted(h).id != DATA_ID
  {
  }

  lemma LoopSkips(img: seq<u8>, pos: nat, c: Chunks, err: ErrCode)
    requires pos + 8 <= |img|
    requires var id := HeaderAt(img, pos).id; id != FORMAT_ID && id != FACT_ID && id != DATA_ID
    ensures Loop(img, pos, c, err) == Loop(img, pos + 8 + HeaderAt(img, pos).size, c, err)
  {
    hide HeaderAt, Overlay, OverlayLength;
  }

  /** The header behind the first odd chunk is never seen, whatever it is.  The loop reads the pad
      byte and seven bytes of it as the header of an unknown chunk, and goes on behind that. */
  lemma OddHidesNext(img: seq<u8>, pos: nat, c: Chunks, ps: Pieces, h: ChunkHeader, err: ErrCode)
    requires AllValid(ps) && OddLast(ps) && AcceptsAll(c, ps, pos)
    requires At(img, pos, SpellPadded(ps) + EncodeHeader(h))
    ensures Loop(img, pos, c, err)
         == Loop(img, pos + PaddedWidth(ps) + 7 + Shifted(h).size, Fold(c, ps, pos), err)
  {
    hide Scan, Loop, At, Fold, AcceptsAll, AllValid, OddLast, HeaderAt;
    hide Shifted, Width, PaddedWidth, SpellAll, SpellPadded;
    PadStands(img, pos, ps, h);
    LoopList(img, pos, c, ps, err);
    LoopSkips(img, pos + Width(ps), Fold(c, ps, pos), err);
  }

  lemma PadStands(img: seq<u8>, pos: nat, ps: Pieces, h: ChunkHeader)
    requires AllValid(ps) && OddLast(ps) && At(img, pos, SpellPadded(ps) + EncodeHeader(h))
    ensures At(img, pos, SpellAll(ps)) && PaddedWidth(ps) == Width(ps) + 1
    ensures pos + Width(ps) + 8 <= |img| && HeaderAt(img, pos + Width(ps)) == Shifted(h)
    ensures Shifted(h).id != FORMAT_ID && Shifted(h).id != FACT_ID && Shifted(h).id != DATA_ID
  {
    hide At, HeaderAt, Shifted, AllValid, OddLast, Width, PaddedWidth, SpellAll, SpellPadded;
    OddLastSpelling(ps);
    Associative(SpellAll(ps), [0], EncodeHeader(h));
    AtSplit(img, pos, SpellAll(ps), [0] + EncodeHeader(h));
    ShiftedHeader(h);
    ShiftedIsOther(h);
    AtSplit(img, pos + Width(ps), EncodeHeader(Shifted(h)), [h.size / 0x100_0000]);
    HeaderStands(img, pos + Width(ps), Shifted(h));
  }

  /** A data chunk is found at or behind where the loop stands. */
  lemma {:induction false} DataAhead(img: seq<u8>, pos: nat, c: Chunks, err: ErrCode)
    ensures var r := Loop(img, pos, c, err); r.Found? ==> r.data.offset >= pos + 8
    decreases |img| - pos
  {
    hide *;
    if pos <= |img| {
      var ps, stop := SomeList(img, pos, c);
      ReadsParts(img, pos, c, ps);
      var q, d := pos + Width(ps), Fold(c, ps, pos);
      LoopList(img, pos, c, ps, err);
      LoopStops(img, q, d, err);
      if stop == EmptyFact || stop == ShortFact {
        if err == Ok {
          DataAhead(img, Resume(img, q), AfterFault(img, q, d), FormatError);
        }
      }
    } else {
      LoopBeyond(img, pos, c, err);
    }
  }

  /** Of the RIFF files with at most one odd chunk, the last: the parser finds the data chunk exactly
      if there is no odd chunk. */
  lemma PaddedParsesIff(img: seq<u8>, size: u32, ps: Pieces, data: ChunkHeader)
    requires SpellsPadded(img, size, ps, data) && AcceptsAll(NO_CHUNKS, ps, 12)
    requires AllEven(ps) || OddLast(ps)
    ensures FindsData(img, ps, data) <==> AllEven(ps)
  {
    hide Parse, Fold, PaddedFold, AcceptsAll, PaddedWidth, SpellPadded;
    hide RiffHead, At, AllEven, OddLast, IsRiffWave, Scan, Loop;
    if AllEven(ps) {
      EvenPaddedParses(img, size, ps, data);
    } else {
      OddLastSpelling(ps);
      FileStands(img, size, SpellPadded(ps) + EncodeHeader(data));
      ParseLoop(img);
      OddHidesNext(img, 12, NO_CHUNKS, ps, data, Ok);
      DataShiftsFar(data);
      DataAhead(img, 12 + PaddedWidth(ps) + 7 + Shifted(data).size, Fold(NO_CHUNKS, ps, 12), Ok);
    }
  }

  lemma DataShiftsFar(data: ChunkHeader)
    requires data.id == DATA_ID
    ensures Shifted(data).size >= 0x61
  {
  }

  // ---------- two small files ----------

  const ODD: Piece := OtherPiece(0, [0])

  lemma OneOdd()
    ensures var ps := Cons(ODD, Nil);
            AllValid(ps) && OddLast(ps) && AcceptsAll(NO_CHUNKS, ps, 12) && Width(ps) == 9 && PaddedWidth(ps) == 10
    ensures Fold(NO_CHUNKS, Cons(ODD, Nil), 12) == NO_CHUNKS
  {
  }

  /** The smallest derailed file: an odd chunk, its pad byte, and an empty data chunk.  Without the pad
      byte it parses. */
  lemma PadByteDerails(size: u32)
    ensures var ps, data := Cons(ODD, Nil), EncodeHeader(ChunkHeader(DATA_ID, 0));
            && AllValid(ps)
            && Clean(Parse(RiffHead(size) + (SpellAll(ps) + data)))
            && Parse(RiffHead(size) + (SpellPadded(ps) + data)) == Rejected
  {
    var ps, data := Cons(ODD, Nil), ChunkHeader(DATA_ID, 0);
    var img := RiffHead(size) + (SpellPadded(ps) + EncodeHeader(data));
    OneOdd();
    DataShiftsFar(data);
    hide Parse, Scan, Loop, At, RiffHead, SpellAll, SpellPadded, IsRiffWave, HeaderAt, Width, PaddedWidth, Shifted;
    SpelledParses(RiffHead(size) + (SpellAll(ps) + EncodeHeader(data)), size, ps, data);
    FileStands(img, size, SpellPadded(ps) + EncodeHeader(data));
    ParseLoop(img);
    OddHidesNext(img, 12, NO_CHUNKS, ps, data, Ok);
    LoopBeyond(img, 29 + Shifted(data).size, NO_CHUNKS, Ok);
  }

  const FALLS_IN: Piece := OtherPiece(0x0100_0000, [])

  lemma OddAndMore()
    ensures var ps := Cons(ODD, Cons(FALLS_IN, Nil));
            && AllValid(ps) && !AllEven(ps) && PaddedWidth(ps) == 18
            && SpellPadded(ps) == SpellPadded(Cons(ODD, Nil)) + EncodeHeader(HeaderOf(FALLS_IN))
    ensures Shifted(HeaderOf(FALLS_IN)).size == 1
  {
    var a, h := Spell(ODD), EncodeHeader(HeaderOf(FALLS_IN));
    assert Spell(FALLS_IN) + ([] + []) == h;
    assert SpellPadded(Cons(FALLS_IN, Nil)) == h;
    hide Spell, EncodeHeader;
    assert a + ([0] + h) == a + ([0] + []) + h;
  }

  /** The loop can fall back into place: here the header that is misread is skipped by just its own
      length, and the data chunk is found where RIFF has it, although a chunk is odd. */
  lemma Resynchronises(size: u32, data: ChunkHeader)
    requires data.id == DATA_ID
    ensures var ps := Cons(ODD, Cons(FALLS_IN, Nil));
            && AllValid(ps) && !AllEven(ps)
            && FindsData(RiffHead(size) + (SpellPadded(ps) + EncodeHeader(data)), ps, data)
  {
    OddAndMore();
    OneOdd();
    var ps, front, h := Cons(ODD, Cons(FALLS_IN, Nil)), Cons(ODD, Nil), HeaderOf(FALLS_IN);
    hide *;
    var img := RiffHead(size) + (SpellPadded(ps) + EncodeHeader(data));
    FileStands(img, size, (SpellPadded(front) + EncodeHeader(h)) + EncodeHeader(data));
    AtSplit(img, 12, SpellPadded(front) + EncodeHeader(h), EncodeHeader(data));
    ParseLoop(img);
    OddHidesNext(img, 12, NO_CHUNKS, front, h, Ok);
    HeaderStands(img, 30, data);
    DataFound(img, ps, data);
  }

  lemma DataFound(img: seq<u8>, ps: Pieces, data: ChunkHeader)
    requires PaddedWidth(ps) == 18 && data.id == DATA_ID
    requires 38 <= |img| && HeaderAt(img, 30) == data && Parse(img) == Loop(img, 30, NO_CHUNKS, Ok)
    ensures FindsData(img, ps, data)
  {
    hide Parse, PaddedWidth;
    LoopStops(img, 30, NO_CHUNKS, Ok);
  }
}
