/**
 The PNG metadata stripper: a walk over the chunks (W3C PNG specification, sections 5.2 and 5.3)
 that refines "parse, drop the text and EXIF chunks, print".
 */
module Png {
  import opened Wrappers
  import opened Bytes
  import opened FileType

  const IEND: Buffer := [0x49, 0x45, 0x4e, 0x44]
  const EXIF: Buffer := [0x65, 0x58, 0x49, 0x66]
  const TEXT: Buffer := [0x74, 0x45, 0x58, 0x74]
  const ZTXT: Buffer := [0x7a, 0x54, 0x58, 0x74]
  const ITXT: Buffer := [0x69, 0x54, 0x58, 0x74]

  datatype Error = BadSignature | TruncatedChunk | InvalidType | ChunkPastEnd | NoIend

  // ----- What the bytes mean -----

  /** A chunk as it stands in the file: length, type, data and CRC. */
  type Chunk = Buffer

  /** The chunks before IEND, and IEND itself, which may have data too. */
  datatype Image = Image(chunks: seq<Chunk>, end: Chunk)

  function TypeOf(chunk: Chunk): Buffer
    requires |chunk| >= 12
  {
    chunk[4..8]
  }

  predicate IsLetter(b: byte) {
    0x41 <= b <= 0x5a || 0x61 <= b <= 0x7a
  }

  predicate IsType(t: Buffer)
    requires |t| == 4
  {
    IsLetter(t[0]) && IsLetter(t[1]) && IsLetter(t[2]) && IsLetter(t[3])
  }

  predicate IsRemovedType(t: Buffer) {
    t == EXIF || t == TEXT || t == ZTXT || t == ITXT
  }

  predicate ValidChunk(chunk: Chunk) {
    |chunk| >= 12 && |chunk| == 12 + ReadU32(chunk) && IsType(TypeOf(chunk))
  }

  predicate IsRemoved(chunk: Chunk) {
    |chunk| >= 12 && IsRemovedType(TypeOf(chunk))
  }

  predicate IsEnd(chunk: Chunk) {
    ValidChunk(chunk) && TypeOf(chunk) == IEND
  }

  predicate ValidChunks(chunks: seq<Chunk>) {
    chunks == [] || (ValidChunk(chunks[0]) && !IsEnd(chunks[0]) && ValidChunks(chunks[1..]))
  }

  predicate ValidImage(image: Image) {
    ValidChunks(image.chunks) && IsEnd(image.end)
  }

  function PrintChunks(chunks: seq<Chunk>): Buffer {
    if chunks == [] then [] else chunks[0] + PrintChunks(chunks[1..])
  }

  function PrintImage(image: Image): Buffer {
    PNG_SIGNATURE + (PrintChunks(image.chunks) + image.end)
  }

  /** The chunks that stay. */
  function CleanChunks(chunks: seq<Chunk>): seq<Chunk> {
    if chunks == [] then []
    else if IsRemoved(chunks[0]) then CleanChunks(chunks[1..])
    else [chunks[0]] + CleanChunks(chunks[1..])
  }

  function CleanImage(image: Image): Image {
    image.(chunks := CleanChunks(image.chunks))
  }

  // ----- Parsing -----

  datatype Parsed = Parsed(chunks: seq<Chunk>, end: Chunk, trailer: Buffer)

  function Then(chunk: Chunk, rest: Result<Parsed, Error>): Result<Parsed, Error> {
    match rest
    case Failure(e) => Failure(e)
    case Success(p) => Success(p.(chunks := [chunk] + p.chunks))
  }

  /** Where the chunk at `at` ends, or why there is none. */
  function ChunkEnd(s: Buffer, at: nat): (r: Result<nat, Error>)
    requires at <= |s|
    ensures r.Success? ==> at + 12 <= r.value <= |s|
  {
    if at == |s| then Failure(NoIend)
    else if at + 12 > |s| then Failure(TruncatedChunk)
    else if !IsType(s[at + 4..at + 8]) then Failure(InvalidType)
    else if at + 12 + ReadU32(s[at..]) > |s| then Failure(ChunkPastEnd)
    else Success(at + 12 + ReadU32(s[at..]))
  }

  function Parse(s: Buffer, at: nat): Result<Parsed, Error>
    requires at <= |s|
    decreases |s| - at
  {
    match ChunkEnd(s, at)
    case Failure(e) => Failure(e)
    case Success(end) =>
      if s[at + 4..at + 8] == IEND then Success(Parsed([], s[at..end], s[end..]))
      else Then(s[at..end], Parse(s, end))
  }

  /** Parse, filter, print: what the stripper is for. */
  function Strip(input: Buffer): Result<Buffer, Error> {
    if !(PNG_SIGNATURE <= input) then Failure(BadSignature)
    else Output(PNG_SIGNATURE, Parse(input, 8))
  }

  /** The output when `kept` has been copied and this is what is left to copy. */
  function Output(kept: Buffer, rest: Result<Parsed, Error>): Result<Buffer, Error> {
    match rest
    case Failure(e) => Failure(e)
    case Success(p) => Success(kept + (PrintChunks(CleanChunks(p.chunks)) + p.end))
  }

  // ----- The walk -----

  method StripPngMetadata(input: Buffer) returns (r: Result<Buffer, Error>)
    ensures r == Strip(input)
  {
    if |input| < 8 || input[..8] != PNG_SIGNATURE {
      return Failure(BadSignature);
    }
    var kept := PNG_SIGNATURE;  // the slices pushed so far, already joined
    var offset: nat := 8;
    while offset < |input|
      invariant offset <= |input|
      invariant Output(kept, Parse(input, offset)) == Strip(input)
    {
      if offset + 12 > |input| {
        return Failure(TruncatedChunk);
      }
      var chunkType := input[offset + 4..offset + 8];
      if !IsType(chunkType) {
        return Failure(InvalidType);
      }
      var end := offset + 12 + ReadU32(input[offset..]);
      if end > |input| {
        return Failure(ChunkPastEnd);
      }
      OutputStep(kept, input, offset, end);
      if !IsRemovedType(chunkType) {
        kept := kept + input[offset..end];
      }
      offset := end;
      if chunkType == IEND {
        return Success(kept);
      }
    }
    r := Failure(NoIend);
  }

  lemma CleanThen(chunk: Chunk, chunks: seq<Chunk>)
    ensures PrintChunks(CleanChunks([chunk] + chunks))
         == (if IsRemoved(chunk) then [] else chunk) + PrintChunks(CleanChunks(chunks))
  {
    assert ([chunk] + chunks)[1..] == chunks;
    if !IsRemoved(chunk) {
      assert ([chunk] + CleanChunks(chunks))[1..] == CleanChunks(chunks);
    }
  }

  lemma JoinThree(kept: Buffer, a: Buffer, b: Buffer, c: Buffer)
    ensures kept + ((a + b) + c) == (kept + a) + (b + c)
  {
  }

  lemma OutputThen(kept: Buffer, chunk: Chunk, rest: Result<Parsed, Error>)
    ensures Output(kept, Then(chunk, rest)) == Output(kept + (if IsRemoved(chunk) then [] else chunk), rest)
  {
    if rest.Success? {
      var bytes := if IsRemoved(chunk) then [] else chunk;
      CleanThen(chunk, rest.value.chunks);
      JoinThree(kept, bytes, PrintChunks(CleanChunks(rest.value.chunks)), rest.value.end);
    }
  }

  lemma OutputEnd(kept: Buffer, end: Chunk, trailer: Buffer)
    ensures Output(kept, Success(Parsed([], end, trailer))) == Success(kept + end)
  {
    assert PrintChunks(CleanChunks([])) + end == end;
  }

  lemma OutputStep(kept: Buffer, s: Buffer, at: nat, end: nat)
    requires at <= |s| && ChunkEnd(s, at) == Success(end)
    ensures
      var t := s[at + 4..at + 8];
      Output(kept, Parse(s, at)) ==
        if t == IEND then Success(kept + s[at..end])
        else Output(if IsRemovedType(t) then kept else kept + s[at..end], Parse(s, end))
  {
    SubSlice(s, at, end, 4, 8);
    if s[at + 4..at + 8] == IEND {
      OutputEnd(kept, s[at..end], s[end..]);
    } else {
      assert kept + [] == kept;
      OutputThen(kept, s[at..end], Parse(s, end));
    }
  }
}
