/** The chunk-list grammar of a WAV header, independent of the parser: a list of chunks, how it is
    spelled in bytes, and what folding it yields.  The parser accepts exactly the spelled lists and
    returns the fold. */
module WavGrammar {
  import opened Bytes
  import opened WavFormat
  import opened WavState
  import opened WavParser

  datatype Piece = FormatPiece(body: seq<u8>) | FactPiece(body: seq<u8>) | OtherPiece(id: u32, body: seq<u8>)

  datatype Pieces = Nil | Cons(head: Piece, tail: Pieces)

  /** Bodies fit the records they are read into; other chunks are of any size. */
  predicate Valid(p: Piece)
  {
    match p
    case FormatPiece(b) => 0 < |b| <= BODY_SIZE
    case FactPiece(b) => 0 < |b| <= 4
    case OtherPiece(id, b) => id != FORMAT_ID && id != FACT_ID && id != DATA_ID && |b| < TWO_32
  }

  function HeaderOf(p: Piece): ChunkHeader
    requires Valid(p)
  {
    ChunkHeader(match p
                case FormatPiece(_) => FORMAT_ID
                case FactPiece(_) => FACT_ID
                case OtherPiece(id, _) => id, |p.body|)
  }

  function Spell(p: Piece): (b: seq<u8>)
    requires Valid(p)
    ensures |b| == 8 + |p.body|
  {
    EncodeHeader(HeaderOf(p)) + p.body
  }

  predicate AllValid(ps: Pieces) { ps.Nil? || (Valid(ps.head) && AllValid(ps.tail)) }

  /** The bytes a chunk list takes. */
  function Width(ps: Pieces): nat { if ps.Nil? then 0 else 8 + |ps.head.body| + Width(ps.tail) }

  function SpellAll(ps: Pieces): (b: seq<u8>)
    requires AllValid(ps)
    ensures |b| == Width(ps)
  {
    if ps.Nil? then [] else Spell(ps.head) + SpellAll(ps.tail)
  }

  /** What the chunks read so far amount to. */
  datatype Chunks = Chunks(format: FormatChunk, fact: FactChunk)

  const NO_CHUNKS: Chunks := Chunks(NO_FORMAT, NO_FACT)

  function Fold1(c: Chunks, p: Piece, pos: nat): Chunks
    requires Valid(p)
  {
    match p
    case FormatPiece(b) => c.(format := FormatChunk(HeaderOf(p), pos + 8, Overlay(c.format.body, b)))
    case FactPiece(b) => c.(fact := FactChunk(HeaderOf(p), pos + 8, OverlayLength(c.fact.sampleLength, b)))
    case OtherPiece(_, _) => c
  }

  function Fold(c: Chunks, ps: Pieces, pos: nat): Chunks
    requires AllValid(ps)
    decreases ps
  {
    if ps.Nil? then c else Fold(Fold1(c, ps.head, pos), ps.tail, pos + 8 + |ps.head.body|)
  }

  predicate Accepts(c: Chunks, p: Piece, pos: nat)
    requires Valid(p)
  {
    p.FormatPiece? ==> Supported(Fold1(c, p, pos).format.body.tag)
  }

  /** Every format chunk leaves a supported tag. */
  predicate AcceptsAll(c: Chunks, ps: Pieces, pos: nat)
    requires AllValid(ps)
    decreases ps
  {
    ps.Nil? || (Accepts(c, ps.head, pos) && AcceptsAll(Fold1(c, ps.head, pos), ps.tail, pos + 8 + |ps.head.body|))
  }

  // ---------- what stands in an image ----------

  /** `b` stands at `pos` in `img`. */
  predicate At(img: seq<u8>, pos: nat, b: seq<u8>)
  {
    pos + |b| <= |img| && img[pos..pos + |b|] == b
  }

  lemma AtSplit(img: seq<u8>, pos: nat, a: seq<u8>, b: seq<u8>)
    ensures At(img, pos, a + b) <==> At(img, pos, a) && At(img, pos + |a|, b)
  {
    if pos + |a| + |b| <= |img| {
      var s := img[pos..pos + |a| + |b|];
      assert s[..|a|] == img[pos..pos + |a|] && s[|a|..] == img[pos + |a|..pos + |a| + |b|];
      assert s == s[..|a|] + s[|a|..];
      assert (a + b)[..|a|] == a && (a + b)[|a|..] == b;
    }
  }

  lemma HeaderStands(img: seq<u8>, pos: nat, h: ChunkHeader)
    ensures At(img, pos, EncodeHeader(h)) <==> pos + 8 <= |img| && HeaderAt(img, pos) == h
  {
    HeaderRoundTrip(h);
    if pos + 8 <= |img| {
      DecodedHeaderRoundTrip(img[pos..pos + 8]);
    }
  }

  /** The chunk standing at `pos` is `p`. */
  predicate Stands(img: seq<u8>, pos: nat, p: Piece)
    requires Valid(p)
  {
    && pos + 8 + |p.body| <= |img| && HeaderAt(img, pos) == HeaderOf(p)
    && img[pos + 8..pos + 8 + |p.body|] == p.body
  }

  lemma PieceStands(img: seq<u8>, pos: nat, p: Piece)
    requires Valid(p) && At(img, pos, Spell(p))
    ensures Stands(img, pos, p)
  {
    AtSplit(img, pos, EncodeHeader(HeaderOf(p)), p.body);
    HeaderStands(img, pos, HeaderOf(p));
  }

  /** The chunk whose header stands at `pos`. */
  function PieceAt(img: seq<u8>, pos: nat): Piece
    requires pos + 8 <= |img| && pos + 8 + HeaderAt(img, pos).size <= |img|
  {
    var h := HeaderAt(img, pos);
    var b := img[pos + 8..pos + 8 + h.size];
    if h.id == FORMAT_ID then FormatPiece(b) else if h.id == FACT_ID then FactPiece(b) else OtherPiece(h.id, b)
  }

  // ---------- accepted lists and what ends them ----------

  /** What stands where a list of accepted chunks ends; `GoesOn` is one more accepted chunk. */
  datatype Stop = Data | EmptyFact | ShortFact | Oversize | Unreadable | GoesOn

  /** The body is larger than the record it is read into. */
  predicate TooLarge(h: ChunkHeader)
  {
    (h.id == FORMAT_ID && h.size > BODY_SIZE) || (h.id == FACT_ID && h.size > 4)
  }

  function StopAt(img: seq<u8>, pos: nat, c: Chunks): Stop
  {
    if pos + 8 > |img| then Unreadable
    else
      var h := HeaderAt(img, pos);
      if h.id == DATA_ID then Data
      else if TooLarge(h) then Oversize
      else if h.id == FACT_ID && h.size == 0 then EmptyFact
      else if pos + 8 + h.size > |img| then (if h.id == FACT_ID then ShortFact else Unreadable)
      else if Valid(PieceAt(img, pos)) && Accepts(c, PieceAt(img, pos), pos) then GoesOn
      else Unreadable
  }

  /** The list `ps` stands at `pos` and every format chunk of it is accepted. */
  predicate Spelled(img: seq<u8>, pos: nat, c: Chunks, ps: Pieces)
  {
    AllValid(ps) && AcceptsAll(c, ps, pos) && At(img, pos, SpellAll(ps))
  }

  /** And `stop` ends it. */
  predicate Reads(img: seq<u8>, pos: nat, c: Chunks, ps: Pieces, stop: Stop)
  {
    Spelled(img, pos, c, ps) && StopAt(img, pos + Width(ps), Fold(c, ps, pos)) == stop
  }

  // ---------- lists, one chunk at a time ----------

  /** The loop at `pos` with these chunks read and this error pending. */
  function Loop(img: seq<u8>, pos: nat, c: Chunks, err: ErrCode): Outcome
  {
    Scan(img, pos, c.format, c.fact, err)
  }

  lemma NilParts(img: seq<u8>, pos: nat, c: Chunks)
    ensures AllValid(Nil) && Width(Nil) == 0 && Fold(c, Nil, pos) == c && AcceptsAll(c, Nil, pos)
    ensures pos <= |img| ==> Spelled(img, pos, c, Nil)
  {
  }

  lemma ConsParts(c: Chunks, ps: Pieces, pos: nat)
    requires ps.Cons? && AllValid(ps)
    ensures Valid(ps.head) && AllValid(ps.tail) && Width(ps) == 8 + |ps.head.body| + Width(ps.tail)
    ensures Fold(c, ps, pos) == Fold(Fold1(c, ps.head, pos), ps.tail, pos + 8 + |ps.head.body|)
  {
  }

  lemma ConsStands(img: seq<u8>, pos: nat, c: Chunks, p: Piece, tail: Pieces)
    requires Valid(p)
    ensures Spelled(img, pos, c, Cons(p, tail)) <==>
              Accepts(c, p, pos) && At(img, pos, Spell(p)) && Spelled(img, pos + 8 + |p.body|, Fold1(c, p, pos), tail)
  {
    hide At, Overlay, OverlayLength;
    if AllValid(tail) {
      AtSplit(img, pos, Spell(p), SpellAll(tail));
    }
  }

  lemma LoopPiece(img: seq<u8>, pos: nat, c: Chunks, p: Piece, err: ErrCode)
    requires Valid(p) && At(img, pos, Spell(p)) && Accepts(c, p, pos)
    ensures Loop(img, pos, c, err) == Loop(img, pos + 8 + |p.body|, Fold1(c, p, pos), err)
  {
    hide DecodeBody, OverlayLength, HeaderAt;
    PieceStands(img, pos, p);
  }

  lemma SpelledFits(img: seq<u8>, pos: nat, c: Chunks, ps: Pieces)
    requires Spelled(img, pos, c, ps)
    ensures AllValid(ps) && pos + Width(ps) <= |img|
  {
  }

  /** Whatever error is pending, the loop reads an accepted list to its end. */
  lemma {:induction false} LoopList(img: seq<u8>, pos: nat, c: Chunks, ps: Pieces, err: ErrCode)
    requires AllValid(ps) && Spelled(img, pos, c, ps)
    ensures Loop(img, pos, c, err) == Loop(img, pos + Width(ps), Fold(c, ps, pos), err)
    decreases ps
  {
    hide *;
    match ps
    case Nil =>
      NilParts(img, pos, c);
    case Cons(p, tail) =>
      ConsParts(c, ps, pos);
      ConsStands(img, pos, c, p, tail);
      SpelledFits(img, pos + 8 + |p.body|, Fold1(c, p, pos), tail);
      LoopPiece(img, pos, c, p, err);
      LoopList(img, pos + 8 + |p.body|, Fold1(c, p, pos), tail, err);
  }

  lemma GoesOnParts(img: seq<u8>, pos: nat, c: Chunks)
    requires StopAt(img, pos, c) == GoesOn
    ensures pos + 8 <= |img| && pos + 8 + HeaderAt(img, pos).size <= |img|
    ensures var p := PieceAt(img, pos); |p.body| == HeaderAt(img, pos).size && Valid(p) && Accepts(c, p, pos)
    ensures At(img, pos, Spell(PieceAt(img, pos)))
  {
    hide Overlay, OverlayLength;
    HeaderStands(img, pos, HeaderAt(img, pos));
    AtSplit(img, pos, EncodeHeader(HeaderAt(img, pos)), PieceAt(img, pos).body);
  }

  lemma ReadsParts(img: seq<u8>, pos: nat, c: Chunks, ps: Pieces)
    ensures Spelled(img, pos, c, ps) ==> AllValid(ps)
    ensures forall stop :: Reads(img, pos, c, ps, stop) <==>
              Spelled(img, pos, c, ps) && StopAt(img, pos + Width(ps), Fold(c, ps, pos)) == stop
  {
    hide At, AcceptsAll, SpellAll, Width, Fold, StopAt;
  }

  /** On every image the chunks that can be read form such a list. */
  lemma {:induction false} SomeList(img: seq<u8>, pos: nat, c: Chunks) returns (ps: Pieces, stop: Stop)
    requires pos <= |img|
    ensures stop != GoesOn && Reads(img, pos, c, ps, stop)
    decreases |img| - pos
  {
    hide *;
    stop := StopAt(img, pos, c);
    if stop != GoesOn {
      ps := Nil;
      NilParts(img, pos, c);
      ReadsParts(img, pos, c, ps);
    } else {
      GoesOnParts(img, pos, c);
      var p := PieceAt(img, pos);
      var tail;
      tail, stop := SomeList(img, pos + 8 + |p.body|, Fold1(c, p, pos));
      ps := Cons(p, tail);
      ReadsParts(img, pos + 8 + |p.body|, Fold1(c, p, pos), tail);
      ConsStands(img, pos, c, p, tail);
      ReadsParts(img, pos, c, ps);
      ConsParts(c, ps, pos);
    }
  }

  // ---------- what a stop comes to ----------

  /** A fact chunk that cannot be read: its error does not end the loop. */
  predicate FactFault(stop: Stop) { stop == EmptyFact || stop == ShortFact }

  /** Where the loop goes on behind it: the short read has consumed what was there. */
  function Resume(img: seq<u8>, pos: nat): nat
    requires pos + 8 <= |img|
  {
    Min(pos + 8 + HeaderAt(img, pos).size, |img|)
  }

  function AfterFault(img: seq<u8>, pos: nat, c: Chunks): Chunks
    requires pos + 8 <= |img|
  {
    c.(fact := FactChunk(HeaderAt(img, pos), pos + 8, c.fact.sampleLength))
  }

  function FoundAt(img: seq<u8>, pos: nat, c: Chunks, err: ErrCode): (r: Outcome)
    requires pos + 8 <= |img|
    ensures r.Found? && r.data.offset == pos + 8
  {
    Found(c.format, c.fact, DataChunk(HeaderAt(img, pos), pos + 8), err)
  }

  lemma LoopBeyond(img: seq<u8>, pos: nat, c: Chunks, err: ErrCode)
    ensures pos + 8 > |img| ==> Loop(img, pos, c, err) == Fail(err)
  {
  }

  lemma LoopStops(img: seq<u8>, pos: nat, c: Chunks, err: ErrCode)
    ensures match StopAt(img, pos, c)
            case Data => pos + 8 <= |img| && Loop(img, pos, c, err) == FoundAt(img, pos, c, err)
            case Oversize => Loop(img, pos, c, err) == Overrun
            case Unreadable => Loop(img, pos, c, err) == Fail(err)
            case GoesOn => true
            case _ =>
              && pos + 8 <= |img| && pos < Resume(img, pos) <= |img|
              && (err != Ok ==> Loop(img, pos, c, err) == Aborted)
              && (err == Ok ==>
                    Loop(img, pos, c, Ok) == Loop(img, Resume(img, pos), AfterFault(img, pos, c), FormatError))
  {
    hide DecodeBody, OverlayLength;
    if pos + 8 <= |img| {
      LoopBeyond(img, pos + 8 + HeaderAt(img, pos).size, c, err);
    }
  }

  // ---------- the loop on spelled lists ----------

  /** A format chunk that is not accepted ends the loop. */
  lemma {:induction false} LoopUnaccepted(img: seq<u8>, pos: nat, c: Chunks, ps: Pieces, err: ErrCode)
    requires AllValid(ps) && At(img, pos, SpellAll(ps)) && !AcceptsAll(c, ps, pos)
    ensures Loop(img, pos, c, err) == Fail(err)
    decreases ps
  {
    hide *;
    if ps.Nil? {
      NilParts(img, pos, c);
    } else {
      UnacceptedParts(img, pos, c, ps);
      if Accepts(c, ps.head, pos) {
        LoopPiece(img, pos, c, ps.head, err);
        LoopUnaccepted(img, pos + 8 + |ps.head.body|, Fold1(c, ps.head, pos), ps.tail, err);
      } else {
        UnacceptedStop(img, pos, c, ps.head);
        LoopStops(img, pos, c, err);
      }
    }
  }

  lemma UnacceptedParts(img: seq<u8>, pos: nat, c: Chunks, ps: Pieces)
    requires ps.Cons? && AllValid(ps) && At(img, pos, SpellAll(ps)) && !AcceptsAll(c, ps, pos)
    ensures Valid(ps.head) && AllValid(ps.tail) && At(img, pos, Spell(ps.head))
    ensures At(img, pos + 8 + |ps.head.body|, SpellAll(ps.tail))
    ensures Accepts(c, ps.head, pos) ==>
              !AcceptsAll(Fold1(c, ps.head, pos), ps.tail, pos + 8 + |ps.head.body|)
  {
    hide At, Overlay, OverlayLength;
    AtSplit(img, pos, Spell(ps.head), SpellAll(ps.tail));
  }

  lemma UnacceptedStop(img: seq<u8>, pos: nat, c: Chunks, p: Piece)
    requires Valid(p) && At(img, pos, Spell(p)) && !Accepts(c, p, pos)
    ensures StopAt(img, pos, c) == Unreadable
  {
    hide At, DecodeBody, OverlayLength, HeaderAt;
    PieceStands(img, pos, p);
  }

  /** The parser reads whatever chunk list is spelled: it returns the fold of the list, or a
      rejection when some format chunk is unsupported. */
  lemma ScanSpelled(img: seq<u8>, pos: nat, c: Chunks, ps: Pieces, data: ChunkHeader)
    requires AllValid(ps) && data.id == DATA_ID
    requires At(img, pos, SpellAll(ps) + EncodeHeader(data))
    ensures Scan(img, pos, c.format, c.fact, Ok) ==
            if AcceptsAll(c, ps, pos)
            then var d := Fold(c, ps, pos); Found(d.format, d.fact, DataChunk(data, pos + Width(ps) + 8), Ok)
            else Rejected
  {
    hide At, Scan, HeaderAt, Fold, AcceptsAll, AllValid, Width, SpellAll;
    var q, d := pos + Width(ps), Fold(c, ps, pos);
    AtSplit(img, pos, SpellAll(ps), EncodeHeader(data));
    HeaderStands(img, q, data);
    if AcceptsAll(c, ps, pos) {
      LoopList(img, pos, c, ps, Ok);
      LoopStops(img, q, d, Ok);
    } else {
      LoopUnaccepted(img, pos, c, ps, Ok);
    }
  }

  // ---------- whole files ----------

  /** The first twelve bytes of a WAVE file. */
  function RiffHead(size: u32): (b: seq<u8>)
    ensures |b| == 12
  {
    EncodeHeader(ChunkHeader(RIFF_ID, size)) + LE32(WAVE_ID)
  }

  /** `img` is a WAVE file with this RIFF size, these chunks, this data header, and whatever bytes
      follow the header. */
  predicate Spells(img: seq<u8>, size: u32, ps: Pieces, data: ChunkHeader)
  {
    && AllValid(ps) && data.id == DATA_ID && AcceptsAll(NO_CHUNKS, ps, 12)
    && RiffHead(size) + (SpellAll(ps) + EncodeHeader(data)) <= img
  }

  lemma RiffStands(img: seq<u8>, size: u32)
    ensures At(img, 0, RiffHead(size)) <==> IsRiffWave(img) && HeaderAt(img, 0).size == size
  {
    AtSplit(img, 0, EncodeHeader(ChunkHeader(RIFF_ID, size)), LE32(WAVE_ID));
    HeaderStands(img, 0, ChunkHeader(RIFF_ID, size));
    LE32RoundTrip(WAVE_ID);
    if |img| >= 12 {
      FromLE32RoundTrip(img[8..12]);
    }
  }

  /** A WAVE file with this RIFF size and these bytes next. */
  lemma FileStands(img: seq<u8>, size: u32, b: seq<u8>)
    ensures RiffHead(size) + b <= img <==> IsRiffWave(img) && HeaderAt(img, 0).size == size && At(img, 12, b)
  {
    hide RiffHead, HeaderAt, IsRiffWave;
    assert RiffHead(size) + b <= img <==> At(img, 0, RiffHead(size) + b);
    AtSplit(img, 0, RiffHead(size), b);
    RiffStands(img, size);
  }

  lemma ParseLoop(img: seq<u8>)
    ensures Parse(img) == if IsRiffWave(img) then Loop(img, 12, NO_CHUNKS, Ok) else Rejected
    ensures IsRiffWave(img) ==> |img| >= 12
  {
    hide Scan;
  }

  /** A spelled file parses without error to the fold of its chunk list. */
  lemma SpelledParses(img: seq<u8>, size: u32, ps: Pieces, data: ChunkHeader)
    requires Spells(img, size, ps, data)
    ensures var d := Fold(NO_CHUNKS, ps, 12);
            Parse(img) == Found(d.format, d.fact, DataChunk(data, 12 + Width(ps) + 8), Ok)
  {
    hide Scan, HeaderAt, Fold, AcceptsAll, AllValid, Width, SpellAll, RiffHead, IsRiffWave;
    FileStands(img, size, SpellAll(ps) + EncodeHeader(data));
    ScanSpelled(img, 12, NO_CHUNKS, ps, data);
  }

  predicate Clean(r: Outcome) { r.Found? && r.err == Ok }

  /** A pending error never goes away. */
  lemma ErrorSticks(img: seq<u8>, pos: nat, c: Chunks, err: ErrCode)
    requires pos <= |img| && err != Ok
    ensures var r := Loop(img, pos, c, err); r.Found? ==> r.err == err
  {
    hide HeaderAt, Fold, Scan, AcceptsAll, At, AllValid;
    var ps, stop := SomeList(img, pos, c);
    LoopList(img, pos, c, ps, err);
    LoopStops(img, pos + Width(ps), Fold(c, ps, pos), err);
  }

  /** Whatever parses without error was spelled by a chunk list. */
  lemma CleanReads(img: seq<u8>, pos: nat, c: Chunks) returns (ps: Pieces)
    requires pos <= |img| && Clean(Loop(img, pos, c, Ok))
    ensures Reads(img, pos, c, ps, Data)
  {
    hide HeaderAt, Fold, Scan, AcceptsAll, At, AllValid;
    var stop;
    ps, stop := SomeList(img, pos, c);
    var q, d := pos + Width(ps), Fold(c, ps, pos);
    LoopList(img, pos, c, ps, Ok);
    LoopStops(img, q, d, Ok);
    if FactFault(stop) {
      ErrorSticks(img, Resume(img, q), AfterFault(img, q, d), FormatError);
    }
  }

  lemma ReadsSpells(img: seq<u8>, ps: Pieces)
    requires IsRiffWave(img) && Reads(img, 12, NO_CHUNKS, ps, Data)
    ensures exists size, data :: Spells(img, size, ps, data)
  {
    hide IsRiffWave, Fold, AcceptsAll, At, Width, RiffHead, HeaderAt;
    var size, data := HeaderAt(img, 0).size, HeaderAt(img, 12 + Width(ps));
    HeaderStands(img, 12 + Width(ps), data);
    AtSplit(img, 12, SpellAll(ps), EncodeHeader(data));
    FileStands(img, size, SpellAll(ps) + EncodeHeader(data));
    assert Spells(img, size, ps, data);
  }

  /** On any byte image at all: the parser succeeds without error exactly on the spelled files. */
  lemma ParsesIffSpelled(img: seq<u8>)
    ensures Clean(Parse(img)) <==> exists size, ps, data :: Spells(img, size, ps, data)
  {
    hide Spells, Loop, IsRiffWave, Reads, Parse, Scan;
    ParseLoop(img);
    if Clean(Parse(img)) {
      var ps := CleanReads(img, 12, NO_CHUNKS);
      ReadsSpells(img, ps);
    }
    if size, ps, data :| Spells(img, size, ps, data) {
      SpelledParses(img, size, ps, data);
    }
  }

  // ---------- several format chunks, and none ----------

  predicate HasFormat(ps: Pieces) { ps.Cons? && (ps.head.FormatPiece? || HasFormat(ps.tail)) }

  function LastFormat(ps: Pieces): seq<u8>
    requires HasFormat(ps)
  {
    if HasFormat(ps.tail) then LastFormat(ps.tail) else ps.head.body
  }

  /** The last format chunk wins: if it is at least sixteen bytes long, the six plain fields are its
      own, whatever came before.  Without a format chunk the record stays as it was. */
  lemma {:induction false} LastFormatWins(c: Chunks, ps: Pieces, pos: nat)
    requires AllValid(ps)
    ensures !HasFormat(ps) ==> Fold(c, ps, pos).format == c.format
    ensures HasFormat(ps) && PLAIN_SIZE <= |LastFormat(ps)| <= BODY_SIZE ==>
              var zero := ZERO_FORMAT.ext;
              Fold(c, ps, pos).format.body.(ext := zero) == Overlay(ZERO_FORMAT, LastFormat(ps)).(ext := zero)
    decreases ps
  {
    hide DecodeBody, EncodeBody, OverlayLength;
    match ps
    case Nil =>
    case Cons(p, tail) =>
      LastFormatWins(Fold1(c, p, pos), tail, pos + 8 + |p.body|);
      if !HasFormat(tail) && p.FormatPiece? && |p.body| >= PLAIN_SIZE {
        OverlaySettlesPlain(c.format.body, ZERO_FORMAT, p.body, ZERO_FORMAT.ext);
      }
  }

  predicate HasFact(ps: Pieces) { ps.Cons? && (ps.head.FactPiece? || HasFact(ps.tail)) }

  function LastFact(ps: Pieces): seq<u8>
    requires HasFact(ps)
  {
    if HasFact(ps.tail) then LastFact(ps.tail) else ps.head.body
  }

  /** A fact chunk sets the length's first bytes, and the last one of four bytes all of them. */
  lemma {:induction false} LastFactWins(c: Chunks, ps: Pieces, pos: nat)
    requires AllValid(ps)
    ensures !HasFact(ps) ==> Fold(c, ps, pos).fact == c.fact
    ensures HasFact(ps) && |LastFact(ps)| == 4 ==> LE32(Fold(c, ps, pos).fact.sampleLength) == LastFact(ps)
    decreases ps
  {
    hide Overlay, OverlayLength, LE32;
    match ps
    case Nil =>
    case Cons(p, tail) =>
      LastFactWins(Fold1(c, p, pos), tail, pos + 8 + |p.body|);
      if p.FactPiece? {
        OverlaidLength(c.fact.sampleLength, p.body);
        if |p.body| == 4 {
          assert p.body + LE32(c.fact.sampleLength)[4..] == p.body;
        }
      }
  }

  lemma OverlaidLength(n: u32, b: seq<u8>)
    requires |b| <= 4
    ensures LE32(OverlayLength(n, b)) == b + LE32(n)[|b|..]
  {
    FromLE32RoundTrip(b + LE32(n)[|b|..]);
  }

  lemma {:induction false} FormatRecorded(c: Chunks, ps: Pieces, pos: nat)
    requires AllValid(ps)
    ensures Fold(c, ps, pos).format.header.id == if HasFormat(ps) then FORMAT_ID else c.format.header.id
    decreases ps
  {
    hide Overlay, OverlayLength;
    if ps.Cons? {
      FormatRecorded(Fold1(c, ps.head, pos), ps.tail, pos + 8 + |ps.head.body|);
    }
  }

  /** Which chunks are accepted: all but a format chunk, and that by the tag it leaves in the record, its
      first two bytes. */
  lemma AcceptsByTag(c: Chunks, p: Piece, pos: nat)
    requires Valid(p)
    ensures !p.FormatPiece? ==> Accepts(c, p, pos)
    ensures p.FormatPiece? && |p.body| >= 2 ==>
              (Accepts(c, p, pos) <==> p.body[1] == 0 && p.body[0] in [1, 3, 6, 7])
    ensures p.FormatPiece? && |p.body| == 1 ==>
              (Accepts(c, p, pos) <==> c.format.body.tag / 0x100 == 0 && p.body[0] in [1, 3, 6, 7])
  {
    if p.FormatPiece? {
      var b := p.body + EncodeBody(c.format.body)[|p.body|..];
      assert b[0..2] == [b[0], b[1]];
      assert EncodeBody(c.format.body)[1] == c.format.body.tag / 0x100;
      TagOfBody(b);
    }
  }

  lemma TagOfBody(b: seq<u8>)
    requires |b| == BODY_SIZE
    ensures Supported(DecodeBody(b).tag) <==> b[1] == 0 && b[0] in [1, 3, 6, 7]
  {
    assert b[0..2] == [b[0], b[1]];
    hide FromLE32;
  }

  /** The parser asks for no format chunk.  A clean parse knows whether there was one only by the
      chunk header it keeps; without one the format is all zeros. */
  lemma FormatNotDemanded(img: seq<u8>, size: u32, ps: Pieces, data: ChunkHeader)
    requires Spells(img, size, ps, data)
    ensures Clean(Parse(img))
    ensures Parse(img).format.header.id == FORMAT_ID <==> HasFormat(ps)
    ensures !HasFormat(ps) ==> Parse(img).format == NO_FORMAT
  {
    hide Scan, Parse, Fold;
    SpelledParses(img, size, ps, data);
    FormatRecorded(NO_CHUNKS, ps, 12);
    LastFormatWins(NO_CHUNKS, ps, 12);
  }

  /** The shortest such file: a data chunk alone. */
  lemma BareDataParses(size: u32)
    ensures Parse(RiffHead(size) + EncodeHeader(ChunkHeader(DATA_ID, 0)))
         == Found(NO_FORMAT, NO_FACT, DataChunk(ChunkHeader(DATA_ID, 0), 20), Ok)
  {
    var data := ChunkHeader(DATA_ID, 0);
    assert SpellAll(Nil) + EncodeHeader(data) == EncodeHeader(data);
    SpelledParses(RiffHead(size) + EncodeHeader(data), size, Nil, data);
  }

  /** Byte `i` of the format record: the last format chunk long enough to reach it has set it. */
  function SettledByte(ps: Pieces, i: nat, was: u8): u8
  {
    match ps
    case Nil => was
    case Cons(p, tail) => SettledByte(tail, i, if p.FormatPiece? && i < |p.body| then p.body[i] else was)
  }

  lemma OverlaidByte(f: Format, b: seq<u8>, i: nat)
    requires |b| <= BODY_SIZE && i < BODY_SIZE
    ensures EncodeBody(Overlay(f, b))[i] == if i < |b| then b[i] else EncodeBody(f)[i]
  {
    DecodedBodyRoundTrip(b + EncodeBody(f)[|b|..]);
  }

  lemma {:induction false} FoldedByte(c: Chunks, ps: Pieces, pos: nat, i: nat)
    requires AllValid(ps) && i < BODY_SIZE
    ensures EncodeBody(Fold(c, ps, pos).format.body)[i] == SettledByte(ps, i, EncodeBody(c.format.body)[i])
    decreases ps
  {
    hide Overlay, OverlayLength, EncodeBody;
    match ps
    case Nil =>
    case Cons(p, tail) =>
      FoldedByte(Fold1(c, p, pos), tail, pos + 8 + |p.body|, i);
      if p.FormatPiece? {
        OverlaidByte(c.format.body, p.body, i);
      }
  }

  lemma {:induction false} LastSettles(ps: Pieces, i: nat, was: u8)
    requires HasFormat(ps) && i < |LastFormat(ps)|
    ensures SettledByte(ps, i, was) == LastFormat(ps)[i]
    decreases ps
  {
    var next := if ps.head.FormatPiece? && i < |ps.head.body| then ps.head.body[i] else was;
    if HasFormat(ps.tail) {
      LastSettles(ps.tail, i, next);
    } else {
      Unsettled(ps.tail, i, next);
    }
  }

  lemma {:induction false} Unsettled(ps: Pieces, i: nat, was: u8)
    requires !HasFormat(ps)
    ensures SettledByte(ps, i, was) == was
    decreases ps
  {
    if ps.Cons? {
      Unsettled(ps.tail, i, was);
    }
  }

  lemma DivisorBytes(f: Format)
    ensures f.channels > 0 <==> EncodeBody(f)[2] != 0 || EncodeBody(f)[3] != 0
    ensures f.blockAlign > 0 <==> EncodeBody(f)[12] != 0 || EncodeBody(f)[13] != 0
  {
    var b := EncodeBody(f);
    assert b[2..4] == LE16(f.channels) && b[12..14] == LE16(f.blockAlign);
    assert b[2] == b[2..4][0] && b[3] == b[2..4][1] && b[12] == b[12..14][0] && b[13] == b[12..14][1];
  }

  /** Bytes `at` and the next, as the format chunks left them, are not both zero. */
  predicate Nonzero(ps: Pieces, at: nat) { SettledByte(ps, at, 0) != 0 || SettledByte(ps, at + 1, 0) != 0 }

  /** Exactly which reopened files have a sample size, a length and a position in frames, which
      divide by the channel count and the block alignment: those whose format chunks leave both
      nonzero.  Without a format chunk there are none; a last format chunk of at least fourteen
      bytes decides alone. */
  lemma ReopenedPlayable(img: seq<u8>, size: u32, ps: Pieces, data: ChunkHeader)
    requires Spells(img, size, ps, data)
    ensures Parse(img).Found?
    ensures Playable(ReadState(img)) <==> Nonzero(ps, 2) && Nonzero(ps, 12)
    ensures Playable(ReadState(img)) ==> HasFormat(ps)
    ensures HasFormat(ps) && |LastFormat(ps)| >= 14 ==>
              var b := LastFormat(ps);
              Playable(ReadState(img)) <==> (b[2] != 0 || b[3] != 0) && (b[12] != 0 || b[13] != 0)
  {
    hide Scan, Fold, Overlay, IsRiffWave, Parse, EncodeBody, AllValid, AcceptsAll, SettledByte;
    SpelledParses(img, size, ps, data);
    var f := Fold(NO_CHUNKS, ps, 12).format.body;
    assert Playable(ReadState(img)) <==> f.channels > 0 && f.blockAlign > 0;
    DivisorBytes(f);
    DivisorBytes(ZERO_FORMAT);
    forall i | i in {2, 3, 12, 13}
      ensures EncodeBody(f)[i] == SettledByte(ps, i, 0)
      ensures !HasFormat(ps) ==> SettledByte(ps, i, 0) == 0
      ensures HasFormat(ps) && |LastFormat(ps)| >= 14 ==> SettledByte(ps, i, 0) == LastFormat(ps)[i]
    {
      FoldedByte(NO_CHUNKS, ps, 12, i);
      if !HasFormat(ps) {
        Unsettled(ps, i, 0);
      } else if |LastFormat(ps)| >= 14 {
        LastSettles(ps, i, 0);
      }
    }
  }
}
