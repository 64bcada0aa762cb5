/** The header parser as a function of the byte image alone, and the chunk-list grammar it is
    proved to recognise: a parse without error exists exactly for the images that spell a chunk
    list, and it returns what folding that list returns. */
module WavParser {
  import opened Bytes
  import opened WavFormat
  import opened WavState

  /** The ways header parsing ends.  `Found` may still carry an error: an empty fact chunk sets
      one without stopping.  `Aborted`: an error is raised while one is pending, which fails the
      assertion in the error setter.  `Overrun`: a chunk is larger than the record it is read
      into; what follows is not modelled. */
  datatype Outcome =
    | Found(format: FormatChunk, fact: FactChunk, data: DataChunk, err: ErrCode)
    | Rejected
    | Aborted
    | Overrun

  function Fail(err: ErrCode): (r: Outcome)
    ensures !r.Found?
  {
    if err == Ok then Rejected else Aborted
  }

  function HeaderAt(img: seq<u8>, pos: nat): ChunkHeader
    requires pos + 8 <= |img|
  {
    DecodeHeader(img[pos..pos + 8])
  }

  /** The chunk loop from `pos` on. */
  function Scan(img: seq<u8>, pos: nat, format: FormatChunk, fact: FactChunk, err: ErrCode): Outcome
    decreases |img| - pos
  {
    if pos + 8 > |img| then Fail(err)
    else
      var h := HeaderAt(img, pos);
      var next := pos + 8 + h.size;
      if h.id == FORMAT_ID then
        if h.size > BODY_SIZE then Overrun
        else if h.size == 0 || next > |img| then Fail(err)
        else
          var body := Overlay(format.body, img[pos + 8..next]);
          if !Supported(body.tag) then Fail(err)
          else Scan(img, next, FormatChunk(h, pos + 8, body), fact, err)
      else if h.id == FACT_ID then
        if h.size > 4 then Overrun
        else if h.size == 0 || next > |img| then
          if err != Ok then Aborted
          else Scan(img, Min(next, |img|), format, FactChunk(h, pos + 8, fact.sampleLength), FormatError)
        else Scan(img, next, format,
                  FactChunk(h, pos + 8, OverlayLength(fact.sampleLength, img[pos + 8..next])), err)
      else if h.id == DATA_ID then Found(format, fact, DataChunk(h, pos + 8), err)
      else Scan(img, next, format, fact, err)
  }

  const NO_FORMAT: FormatChunk := FormatChunk(NO_HEADER, 0, ZERO_FORMAT)
  const NO_FACT: FactChunk := FactChunk(NO_HEADER, 0, 0)

  predicate IsRiffWave(img: seq<u8>)
  {
    |img| >= 12 && HeaderAt(img, 0).id == RIFF_ID && FromLE32(img[8..12]) == WAVE_ID
  }

  function Parse(img: seq<u8>): Outcome
  {
    if IsRiffWave(img) then Scan(img, 12, NO_FORMAT, NO_FACT, Ok) else Rejected
  }

  /** The state of a file opened for reading whose header parsed without error. */
  function ReadState(img: seq<u8>): State
    requires Parse(img).Found?
  {
    var r := Parse(img);
    ClosedState(img, Mode(true, false, false)).(
      pos := r.data.offset, riff := MasterChunk(HeaderAt(img, 0), WAVE_ID),
      format := r.format, fact := r.fact, data := r.data, err := r.err)
  }
}
