/** What the PNG stripper does to a whole file, for every file. */
module PngTheorems {
  import opened Wrappers
  import opened Bytes
  import opened FileType
  import opened Png

  lemma ChunkEndOfChunk(s: Buffer, at: nat, chunk: Chunk)
    requires ValidChunk(chunk) && At(s, at, chunk)
    ensures ChunkEnd(s, at) == Success(at + |chunk|) && s[at + 4..at + 8] == TypeOf(chunk)
  {
    SubSlice(s, at, at + |chunk|, 4, 8);
    ReadSlice(s, at, at + |chunk|);
  }

  /** One chunk further back. */
  lemma ParseFirst(chunks: seq<Chunk>, end: Chunk, s: Buffer, at: nat, next: nat, stop: nat)
    requires chunks != [] && ValidChunk(chunks[0]) && !IsEnd(chunks[0])
    requires At(s, at, chunks[0]) && next == at + |chunks[0]| && stop <= |s|
    requires Parse(s, next) == Success(Parsed(chunks[1..], end, s[stop..]))
    ensures Parse(s, at) == Success(Parsed(chunks, end, s[stop..]))
  {
    ChunkEndOfChunk(s, at, chunks[0]);
    ParseStep(s, at, next);
    assert [chunks[0]] + chunks[1..] == chunks;
  }

  lemma ParseStep(s: Buffer, at: nat, next: nat)
    requires at <= |s| && ChunkEnd(s, at) == Success(next) && s[at + 4..at + 8] != IEND
    ensures Parse(s, at) == Then(s[at..next], Parse(s, next))
  {
  }

  /** Printed chunks are read back one by one, whatever follows IEND. */
  lemma {:induction false} ParseChunks(chunks: seq<Chunk>, end: Chunk, s: Buffer, at: nat, stop: nat)
    requires ValidChunks(chunks) && IsEnd(end) && At(s, at, PrintChunks(chunks) + end)
    requires stop == at + |PrintChunks(chunks)| + |end|
    ensures Parse(s, at) == Success(Parsed(chunks, end, s[stop..]))
    decreases |chunks|
  {
    if chunks == [] {
      assert PrintChunks(chunks) + end == end;
      ChunkEndOfChunk(s, at, end);
    } else {
      var next := at + |chunks[0]|;
      FirstChunk(chunks, end, s, at);
      ParseChunks(chunks[1..], end, s, next, stop);
      ParseFirst(chunks, end, s, at, next, stop);
    }
  }

  lemma FirstChunk(chunks: seq<Chunk>, end: Chunk, s: Buffer, at: nat)
    requires chunks != [] && At(s, at, PrintChunks(chunks) + end)
    ensures At(s, at, chunks[0]) && At(s, at + |chunks[0]|, PrintChunks(chunks[1..]) + end)
  {
    Assoc(chunks[0], PrintChunks(chunks[1..]), end);
    AtJoin(s, at, chunks[0], PrintChunks(chunks[1..]) + end);
  }

  lemma ParsePrint(image: Image, trailer: Buffer)
    requires ValidImage(image)
    ensures
      var s := PrintImage(image) + trailer;
      PNG_SIGNATURE <= s && Parse(s, 8) == Success(Parsed(image.chunks, image.end, trailer))
  {
    var s := PrintImage(image) + trailer;
    var body := PrintChunks(image.chunks) + image.end;
    assert s == PNG_SIGNATURE + body + trailer;
    assert At(s, 8, body) && s[8 + |body|..] == trailer;
    ParseChunks(image.chunks, image.end, s, 8, 8 + |body|);
  }

  lemma {:induction false} ParseIsValid(s: Buffer, at: nat)
    requires at <= |s| && Parse(s, at).Success?
    ensures ValidImage(Image(Parse(s, at).value.chunks, Parse(s, at).value.end))
    decreases |s| - at
  {
    var end := ChunkEnd(s, at).value;
    var chunk := s[at..end];
    SubSlice(s, at, end, 4, 8);
    ReadSlice(s, at, end);
    assert ValidChunk(chunk);
    if s[at + 4..at + 8] != IEND {
      ParseIsValid(s, end);
      var rest := Parse(s, end).value.chunks;
      assert ([chunk] + rest)[1..] == rest;
    }
  }

  ghost function PrintParsed(p: Parsed): Buffer {
    PrintChunks(p.chunks) + p.end + p.trailer
  }

  lemma {:induction false} ParseIsPrinted(s: Buffer, at: nat)
    requires at <= |s| && Parse(s, at).Success?
    ensures s[at..] == PrintParsed(Parse(s, at).value)
    decreases |s| - at
  {
    var end := ChunkEnd(s, at).value;
    var chunk := s[at..end];
    assert s[at..] == chunk + s[end..];
    if s[at + 4..at + 8] != IEND {
      ParseIsPrinted(s, end);
      PrintThen(chunk, Parse(s, end).value);
    } else {
      assert PrintChunks([]) + chunk == chunk;
    }
  }

  lemma PrintThen(chunk: Chunk, rest: Parsed)
    ensures Then(chunk, Success(rest)).Success?
    ensures chunk + PrintParsed(rest) == PrintParsed(Then(chunk, Success(rest)).value)
  {
    assert ([chunk] + rest.chunks)[1..] == rest.chunks;
  }

  /** Stripping is filter-then-print, whatever the trailer. */
  lemma StripPrinted(image: Image, trailer: Buffer)
    requires ValidImage(image)
    ensures Strip(PrintImage(image) + trailer) == Success(PrintImage(CleanImage(image)))
  {
    ParsePrint(image, trailer);
  }

  lemma AcceptedIsPrinted(input: Buffer) returns (image: Image, trailer: Buffer)
    requires Strip(input).Success?
    ensures ValidImage(image) && input == PrintImage(image) + trailer
  {
    var p := Parse(input, 8).value;
    ParseIsValid(input, 8);
    ParseIsPrinted(input, 8);
    image, trailer := Image(p.chunks, p.end), p.trailer;
    Assoc(PNG_SIGNATURE, PrintChunks(p.chunks) + p.end, p.trailer);
    assert input == PNG_SIGNATURE + input[8..];
  }

  /** The walk accepts exactly the printed images, and outputs exactly their cleaned form. */
  lemma StripExactly(input: Buffer, output: Buffer)
    ensures Strip(input) == Success(output) <==>
      exists image, trailer: Buffer ::
        && ValidImage(image) && input == PrintImage(image) + trailer
        && output == PrintImage(CleanImage(image))
  {
    if Strip(input) == Success(output) {
      var image, trailer := AcceptedIsPrinted(input);
      StripPrinted(image, trailer);
    }
    forall image, trailer: Buffer | ValidImage(image) && input == PrintImage(image) + trailer
      ensures Strip(input) == Success(PrintImage(CleanImage(image)))
    {
      StripPrinted(image, trailer);
    }
  }

  lemma {:induction false} CleanIsClean(chunks: seq<Chunk>)
    ensures CleanChunks(CleanChunks(chunks)) == CleanChunks(chunks)
    ensures ValidChunks(chunks) ==> ValidChunks(CleanChunks(chunks))
    ensures forall c <- CleanChunks(chunks) :: !IsRemoved(c)
  {
    if chunks != [] {
      CleanIsClean(chunks[1..]);
      if !IsRemoved(chunks[0]) {
        assert CleanChunks(chunks)[1..] == CleanChunks(chunks[1..]);
      }
    }
  }

  /** Stripped again, an output is unchanged: no chunk of it is one the walk removes. */
  lemma StripIsIdempotent(input: Buffer, output: Buffer)
    requires Strip(input) == Success(output)
    ensures Strip(output) == Success(output)
    ensures Parse(output, 8).Success?
    ensures forall c <- Parse(output, 8).value.chunks :: !IsRemoved(c)
  {
    ParseIsValid(input, 8);
    var p := Parse(input, 8).value;
    var image := CleanImage(Image(p.chunks, p.end));
    CleanIsClean(p.chunks);
    StripPrinted(image, []);
    ParsePrint(image, []);
    assert output == PrintImage(image) == PrintImage(image) + [];
  }

  lemma {:induction false} ChunksAreSlices(s: Buffer, at: nat) returns (cuts: seq<(nat, nat)>)
    requires at <= |s| && Parse(s, at).Success?
    ensures InOrder(cuts, at, |s|) && (forall c <- cuts :: c.0 <= c.1 <= |s|)
    ensures Output([], Parse(s, at)) == Success(Gather(s, cuts))
    decreases |s| - at
  {
    var end := ChunkEnd(s, at).value;
    var chunk := s[at..end];
    OutputStep([], s, at, end);
    assert [] + chunk == chunk;
    if s[at + 4..at + 8] == IEND {
      cuts := [(at, end)];
      assert Gather(s, cuts) == chunk + [] == chunk;
    } else {
      var rest := ChunksAreSlices(s, end);
      var from := if IsRemovedType(s[at + 4..at + 8]) then end else at;
      cuts := [(from, end)] + rest;
      assert cuts[1..] == rest;
      assert s[from..end] == if from == end then [] else chunk;
      OutputFrom(s[from..end], Parse(s, end));
      assert Gather(s, cuts) == s[from..end] + Gather(s, rest);
    }
  }

  lemma OutputFrom(kept: Buffer, rest: Result<Parsed, Error>)
    requires rest.Success?
    ensures Output([], rest).value == PrintChunks(CleanChunks(rest.value.chunks)) + rest.value.end
    ensures Output(kept, rest).value == kept + Output([], rest).value
  {
    var bytes := PrintChunks(CleanChunks(rest.value.chunks)) + rest.value.end;
    assert [] + bytes == bytes;
  }

  /** Every accepted output is made of slices of the input, in order. */
  lemma OutputIsSlices(input: Buffer, output: Buffer)
    requires Strip(input) == Success(output)
    ensures IsSlicesOf(output, input)
  {
    var rest := ChunksAreSlices(input, 8);
    var cuts := [(0, 8)] + rest;
    assert cuts[1..] == rest;
    assert input[0..8] == PNG_SIGNATURE;
    OutputFrom(PNG_SIGNATURE, Parse(input, 8));
    assert Gather(input, cuts) == input[0..8] + Gather(input, rest);
  }

  /** What is accepted is a PNG file, and so is what comes out. */
  lemma FileTypePreserved(input: Buffer, output: Buffer)
    requires Strip(input) == Success(output)
    ensures DetectFileType(input) == Some(PNG) && DetectFileType(output) == Some(PNG)
  {
    DetectsBySignature(input, PNG);
    DetectsBySignature(output, PNG);
  }
}
