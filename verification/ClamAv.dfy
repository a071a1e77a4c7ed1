/**
 clamd's INSTREAM command over a socket: the frames written, the reply accepted, and the socket's
 events in whatever order they come (antivirus/clamav.ts). The reply is taken as bytes: it only
 matters where it is ASCII, and no other byte decodes to an ASCII character.
 */
module ClamAv {
  import opened Wrappers
  import opened Bytes

  const CHUNK_BYTES := 65536
  const MAX_REPLY_BYTES := 1024

  // ----- Framing -----

  /** "zINSTREAM\0" */
  const COMMAND: Buffer := [0x7a, 0x49, 0x4e, 0x53, 0x54, 0x52, 0x45, 0x41, 0x4d, 0x00]

  const END_OF_STREAM: Buffer := [0, 0, 0, 0]

  /** The chunks of a content: full ones, and what is left. */
  function Chunks(content: Buffer): seq<Buffer> {
    if content == [] then []
    else if |content| <= CHUNK_BYTES then [content]
    else [content[..CHUNK_BYTES]] + Chunks(content[CHUNK_BYTES..])
  }

  function Frame(chunk: Buffer): Buffer
    requires |chunk| < U32_LIMIT
  {
    U32(|chunk|) + chunk
  }

  predicate ValidChunks(chunks: seq<Buffer>) {
    forall i :: 0 <= i < |chunks| ==> 1 <= |chunks[i]| <= CHUNK_BYTES
  }

  function Frames(chunks: seq<Buffer>): Buffer
    requires ValidChunks(chunks)
  {
    if chunks == [] then [] else Frame(chunks[0]) + Frames(chunks[1..])
  }

  function Join(chunks: seq<Buffer>): Buffer {
    if chunks == [] then [] else chunks[0] + Join(chunks[1..])
  }

  /** No chunk is empty, none is too long, and together they are the content. */
  lemma {:induction false} ChunksOfContent(content: Buffer)
    ensures ValidChunks(Chunks(content)) && Join(Chunks(content)) == content
    decreases |content|
  {
    if |content| > CHUNK_BYTES {
      ChunksOfContent(content[CHUNK_BYTES..]);
      var rest := Chunks(content[CHUNK_BYTES..]);
      assert ([content[..CHUNK_BYTES]] + rest)[1..] == rest;
      assert content[..CHUNK_BYTES] + content[CHUNK_BYTES..] == content;
    } else if content != [] {
      assert Chunks(content)[1..] == [];
    }
  }

  /** All that is written for a content. */
  function Stream(content: Buffer): Buffer {
    ChunksOfContent(content);
    COMMAND + Frames(Chunks(content)) + END_OF_STREAM
  }

  /** What clamd makes of frames: the content up to the zero length, and where it ends. */
  function Unframe(s: Buffer): Option<(Buffer, Buffer)>
    decreases |s|
  {
    if |s| < 4 then None
    else
      var length, rest := ReadU32(s), s[4..];
      if length == 0 then Some(([], rest))
      else if length > |rest| then None
      else
        match Unframe(rest[length..])
        case None => None
        case Some((content, after)) => Some((rest[..length] + content, after))
  }

  lemma FrameFirst(chunk: Buffer, rest: Buffer)
    requires 1 <= |chunk| <= CHUNK_BYTES
    ensures var s := Frame(chunk) + rest;
            |s| >= 4 && ReadU32(s) == |chunk| && s[4..][..|chunk|] == chunk && s[4..][|chunk|..] == rest
  {
    var s, length := Frame(chunk) + rest, U32(|chunk|);
    assert s[0] == length[0] && s[1] == length[1] && s[2] == length[2] && s[3] == length[3];
    assert s[4..] == chunk + rest;
  }

  /** The zero length ends the stream nowhere but at its end. */
  lemma {:induction false} UnframeFrames(chunks: seq<Buffer>, after: Buffer)
    requires ValidChunks(chunks)
    ensures Unframe(Frames(chunks) + END_OF_STREAM + after) == Some((Join(chunks), after))
  {
    if chunks == [] {
      assert Frames([]) + END_OF_STREAM + after == END_OF_STREAM + after;
      assert (END_OF_STREAM + after)[4..] == after;
    } else {
      var rest := Frames(chunks[1..]) + END_OF_STREAM + after;
      UnframeFrames(chunks[1..], after);
      FrameFirst(chunks[0], rest);
      assert Frames(chunks) + END_OF_STREAM + after == Frame(chunks[0]) + rest;
    }
  }

  lemma AfterCommand(command: Buffer, frames: Buffer, end: Buffer, after: Buffer)
    ensures (command + frames + end + after)[|command|..] == frames + end + after
    ensures (command + frames + end)[..|command|] == command
  {
  }

  /** The stream decodes to the content it was written for, whatever follows it. */
  lemma StreamRoundTrip(content: Buffer, after: Buffer)
    ensures |Stream(content)| >= |COMMAND| && Stream(content)[..|COMMAND|] == COMMAND
    ensures Unframe((Stream(content) + after)[|COMMAND|..]) == Some((content, after))
  {
    ChunksOfContent(content);
    UnframeFrames(Chunks(content), after);
    AfterCommand(COMMAND, Frames(Chunks(content)), END_OF_STREAM, after);
  }

  /** The connect handler: what it writes to the socket, in order. */
  method WriteStream(content: Buffer) returns (written: Buffer)
    ensures written == Stream(content)
  {
    written := COMMAND;
    var offset := 0;
    ChunksOfContent(content);
    while offset < |content|
      invariant 0 <= offset <= |content|
      invariant ValidChunks(Chunks(content[offset..]))
      invariant written + Frames(Chunks(content[offset..])) == COMMAND + Frames(Chunks(content))
      decreases |content| - offset
    {
      var end := if offset + CHUNK_BYTES < |content| then offset + CHUNK_BYTES else |content|;
      var chunk := content[offset..end];
      NextChunk(content, offset, end);
      Assoc(written, U32(|chunk|), chunk);
      Assoc(written, Frame(chunk), Frames(Chunks(content[end..])));
      written := written + U32(|chunk|) + chunk;
      offset := end;
    }
    assert Frames(Chunks([])) == [];
    written := written + END_OF_STREAM;
  }

  lemma NextChunk(content: Buffer, offset: nat, end: nat)
    requires offset < |content|
    requires end == if offset + CHUNK_BYTES < |content| then offset + CHUNK_BYTES else |content|
    ensures ValidChunks(Chunks(content[offset..])) && ValidChunks(Chunks(content[end..]))
    ensures 1 <= end - offset <= CHUNK_BYTES
    ensures Frames(Chunks(content[offset..])) == Frame(content[offset..end]) + Frames(Chunks(content[end..]))
  {
    ChunksOfContent(content[offset..]);
    ChunksOfContent(content[end..]);
    var s, rest := content[offset..], Chunks(content[end..]);
    if |s| > CHUNK_BYTES {
      assert s[..CHUNK_BYTES] == content[offset..end] && s[CHUNK_BYTES..] == content[end..];
      assert Chunks(s) == [content[offset..end]] + rest;
      assert Chunks(s)[1..] == rest;
    } else {
      assert content[end..] == [] && content[offset..end] == s;
      assert Chunks(s)[1..] == [];
    }
  }
}
