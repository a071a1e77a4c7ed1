/** clamd's reply, and the promise one scan settles from the socket's events (antivirus/clamav.ts). */
module ClamReply {
  import opened Wrappers
  import opened Bytes
  import opened ClamAv

  /** "stream: OK" */
  const OK_LINE: Buffer := [0x73, 0x74, 0x72, 0x65, 0x61, 0x6d, 0x3a, 0x20, 0x4f, 0x4b]
  /** "stream: " and " FOUND" */
  const FOUND_PREFIX: Buffer := [0x73, 0x74, 0x72, 0x65, 0x61, 0x6d, 0x3a, 0x20]
  const FOUND_SUFFIX: Buffer := [0x20, 0x46, 0x4f, 0x55, 0x4e, 0x44]

  datatype Verdict = Clean | Infected(signature: Buffer)

  /** A letter, a digit, or one of _ . : - / */
  predicate IsSignatureByte(b: byte) {
    0x41 <= b <= 0x5a || 0x61 <= b <= 0x7a || 0x30 <= b <= 0x39 || b == 0x5f || 0x2d <= b <= 0x2f || b == 0x3a
  }

  predicate IsSignature(s: Buffer) {
    1 <= |s| <= 200 && forall i :: 0 <= i < |s| ==> IsSignatureByte(s[i])
  }

  function WithoutNul(reply: Buffer): Buffer {
    if reply != [] && reply[|reply| - 1] == 0 then reply[..|reply| - 1] else reply
  }

  /** parseClamdReply; None stands for the error it throws. */
  function ParseReply(reply: Buffer): Option<Verdict> {
    var line := WithoutNul(reply);
    if line == OK_LINE then Some(Clean)
    else if |line| > 14 && line[..8] == FOUND_PREFIX && line[|line| - 6..] == FOUND_SUFFIX
            && IsSignature(line[8..|line| - 6]) then Some(Infected(line[8..|line| - 6]))
    else None
  }

  /** A line as clamd ends it, with its NUL or without. */
  predicate IsLine(reply: Buffer, line: Buffer) {
    reply == line || reply == line + [0]
  }

  lemma LineOf(reply: Buffer, line: Buffer)
    requires line != [] && line[|line| - 1] != 0
    ensures WithoutNul(reply) == line <==> IsLine(reply, line)
  {
    if WithoutNul(reply) == line && reply != line {
      assert reply == line + [reply[|reply| - 1]];
    }
    if reply == line + [0] {
      assert reply[..|reply| - 1] == line;
    }
  }

  /** Only the exact answers are verdicts. */
  lemma CleanReplyExactly(reply: Buffer)
    ensures ParseReply(reply) == Some(Clean) <==> IsLine(reply, OK_LINE)
  {
    LineOf(reply, OK_LINE);
  }

  lemma FoundLine(signature: Buffer)
    ensures var line := FOUND_PREFIX + signature + FOUND_SUFFIX;
            && line[..8] == FOUND_PREFIX && line[|line| - 6..] == FOUND_SUFFIX && line[8..|line| - 6] == signature
            && line[|line| - 1] == 0x44
  {
  }

  lemma LineParts(line: Buffer)
    requires |line| > 14 && line[..8] == FOUND_PREFIX && line[|line| - 6..] == FOUND_SUFFIX
    ensures line == FOUND_PREFIX + line[8..|line| - 6] + FOUND_SUFFIX
  {
    assert line == line[..8] + line[8..|line| - 6] + line[|line| - 6..];
  }

  lemma InfectedReplyExactly(reply: Buffer, signature: Buffer)
    ensures ParseReply(reply) == Some(Infected(signature))
         <==> IsSignature(signature) && IsLine(reply, FOUND_PREFIX + signature + FOUND_SUFFIX)
  {
    var line := FOUND_PREFIX + signature + FOUND_SUFFIX;
    FoundLine(signature);
    LineOf(reply, line);
    if ParseReply(reply) == Some(Infected(signature)) {
      LineParts(WithoutNul(reply));
    }
    if IsSignature(signature) && IsLine(reply, line) {
      assert line[|line| - 1] != OK_LINE[9];
    }
  }

  // ----- The events of the socket -----

  datatype Event = Connected | Data(bytes: Buffer) | End | Error | Close | Timeout

  datatype Outcome = Pending | Resolved(verdict: Verdict) | Rejected

  /** What the first event that settles decides, after this much of a reply. */
  function Decide(reply: Buffer, events: seq<Event>): Outcome
    decreases |events|
  {
    if events == [] then Pending
    else
      match events[0]
      case Connected => Decide(reply, events[1..])
      case Data(bytes) =>
        if |reply| + |bytes| > MAX_REPLY_BYTES then Rejected else Decide(reply + bytes, events[1..])
      case End =>
        var verdict := ParseReply(reply);
        if verdict.Some? then Resolved(verdict.value) else Rejected
      case _ => Rejected
  }

  lemma {:induction false} JoinAppend(chunks: seq<Buffer>, chunk: Buffer)
    ensures Join(chunks + [chunk]) == Join(chunks) + chunk
  {
    if chunks == [] {
      assert [] + [chunk] == [chunk] && [chunk][1..] == [];
    } else {
      assert (chunks + [chunk])[1..] == chunks[1..] + [chunk];
      JoinAppend(chunks[1..], chunk);
    }
  }

  /** One scan: the variables its event handlers share. `settlements` counts calls of resolve and reject. */
  class Scan {
    var chunks: seq<Buffer>
    var received: nat
    var settled: bool
    var timerSet: bool
    var outcome: Outcome
    ghost var settlements: nat

    constructor ()
      ensures Valid() && !settled && chunks == [] && timerSet
    {
      chunks, received, settled, timerSet, outcome, settlements := [], 0, false, true, Pending, 0;
    }

    /** The promise has been settled once if it has been settled, and never otherwise. */
    ghost predicate SettledOnce()
      reads this
    {
      settlements == (if settled then 1 else 0) && (settled <==> !outcome.Pending?)
    }

    ghost predicate Valid()
      reads this
    {
      SettledOnce() && (!settled ==> timerSet && received == |Join(chunks)|)
    }

    method Fail()
      requires SettledOnce()
      modifies this
      ensures SettledOnce() && settled && chunks == old(chunks)
      ensures outcome == if old(settled) then old(outcome) else Rejected
    {
      if settled {
        return;
      }
      settled := true;
      outcome, settlements := Rejected, settlements + 1;
    }

    method OnData(bytes: Buffer)
      requires Valid()
      modifies this
      ensures Valid()
      ensures old(settled) ==> outcome == old(outcome)
      ensures !old(settled) && |Join(old(chunks))| + |bytes| > MAX_REPLY_BYTES ==> outcome == Rejected
      ensures !old(settled) && |Join(old(chunks))| + |bytes| <= MAX_REPLY_BYTES ==>
                outcome == Pending && Join(chunks) == Join(old(chunks)) + bytes
    {
      received := received + |bytes|;
      if received > MAX_REPLY_BYTES {
        Fail();
        return;
      }
      JoinAppend(chunks, bytes);
      chunks := chunks + [bytes];
    }

    method OnEnd()
      requires Valid()
      modifies this
      ensures Valid() && settled
      ensures outcome == if old(settled) then old(outcome)
                         else var verdict := ParseReply(Join(old(chunks)));
                              if verdict.Some? then Resolved(verdict.value) else Rejected
    {
      if settled {
        timerSet := false;
        return;
      }
      var verdict := ParseReply(Join(chunks));
      if verdict.Some? {
        settled := true;
        outcome, settlements := Resolved(verdict.value), settlements + 1;
      } else {
        Fail();
      }
      timerSet := false;
    }

    method OnClose()
      requires Valid()
      modifies this
      ensures Valid() && settled
      ensures outcome == if old(settled) then old(outcome) else Rejected
    {
      if !settled {
        Fail();
      }
      timerSet := false;
    }

    /** Any events in any order: the first that settles decides, and the promise settles at most once. */
    method Handle(events: seq<Event>)
      requires Valid() && !settled && chunks == []
      modifies this
      ensures Valid() && outcome == Decide([], events)
    {
      for i := 0 to |events|
        invariant Valid()
        invariant settled ==> outcome == Decide([], events)
        invariant !settled ==> Decide([], events) == Decide(Join(chunks), events[i..])
      {
        ghost var reply := Join(chunks);
        assert events[i..][1..] == events[i + 1..];
        match events[i]
        case Connected =>
        case Data(bytes) => OnData(bytes);
        case End => OnEnd();
        case Error => Fail();
        case Close => OnClose();
        case Timeout =>
          if timerSet {
            Fail();
          }
      }
    }
  }

  // ----- When a scan is clean -----

  /** Events that only bring more of the reply. */
  predicate OnlyData(events: seq<Event>) {
    forall i :: 0 <= i < |events| ==> events[i].Data? || events[i].Connected?
  }

  function ReplyOf(events: seq<Event>): Buffer {
    if events == [] then []
    else (if events[0].Data? then events[0].bytes else []) + ReplyOf(events[1..])
  }

  /** The first event that brings no more of the reply. */
  function FirstStop(events: seq<Event>): (k: nat)
    ensures k <= |events| && OnlyData(events[..k])
    ensures k < |events| ==> !events[k].Data? && !events[k].Connected?
  {
    if events == [] || (!events[0].Data? && !events[0].Connected?) then 0
    else
      var k := FirstStop(events[1..]);
      assert events[1..][..k] == events[..k + 1][1..];
      k + 1
  }

  /** The reply as far as it came. */
  function Received(events: seq<Event>): Buffer {
    ReplyOf(events[..FirstStop(events)])
  }

  predicate StopsAtEnd(events: seq<Event>) {
    FirstStop(events) < |events| && events[FirstStop(events)].End?
  }

  lemma ReceivedFirst(events: seq<Event>)
    requires events != [] && (events[0].Data? || events[0].Connected?)
    ensures StopsAtEnd(events) == StopsAtEnd(events[1..])
    ensures Received(events) == (if events[0].Data? then events[0].bytes else []) + Received(events[1..])
  {
    var k := FirstStop(events[1..]);
    assert events[..k + 1][1..] == events[1..][..k];
  }

  lemma {:induction false} DecidesVerdict(before: Buffer, events: seq<Event>, verdict: Verdict)
    requires |before| <= MAX_REPLY_BYTES
    ensures Decide(before, events) == Resolved(verdict)
         <==> (&& StopsAtEnd(events) && |before + Received(events)| <= MAX_REPLY_BYTES
               && ParseReply(before + Received(events)) == Some(verdict))
    decreases |events|
  {
    if events != [] && (events[0].Data? || events[0].Connected?) {
      ReceivedFirst(events);
      var first := if events[0].Data? then events[0].bytes else [];
      Assoc(before, first, Received(events[1..]));
      assert before + [] == before;
      if |before + first| <= MAX_REPLY_BYTES {
        DecidesVerdict(before + first, events[1..], verdict);
      }
    } else {
      assert before + [] == before;
    }
  }

  /**
   A scan is clean exactly when nothing but the reply came before its end, and the reply was
   "stream: OK", with its NUL or without: no error, no timeout, no close, no byte more.
   */
  lemma CleanExactly(events: seq<Event>)
    ensures Decide([], events) == Resolved(Clean) <==> StopsAtEnd(events) && IsLine(Received(events), OK_LINE)
  {
    DecidesVerdict([], events, Clean);
    CleanReplyExactly(Received(events));
    assert [] + Received(events) == Received(events);
  }

  lemma InfectedExactly(events: seq<Event>, signature: Buffer)
    ensures Decide([], events) == Resolved(Infected(signature))
         <==> (&& StopsAtEnd(events) && IsSignature(signature)
               && IsLine(Received(events), FOUND_PREFIX + signature + FOUND_SUFFIX))
  {
    DecidesVerdict([], events, Infected(signature));
    InfectedReplyExactly(Received(events), signature);
    assert [] + Received(events) == Received(events);
  }
}
