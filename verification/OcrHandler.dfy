/**
 The `document.ocr` handler as a program: its calls in order, with the classification of what goes
 wrong, and everything else that can happen between two calls. It walks through the machine's steps.
 */
module OcrHandler {
  import opened Wrappers
  import opened Bytes
  import opened FileType
  import opened OcrText
  import opened TreatmentDb
  import opened TreatmentMachine
  import S = ScanHandler

  datatype Moment = Moment(others: seq<Act>, outcome: Outcome, answer: OcrAnswer)

  predicate Spares(others: seq<Act>, h: nat) {
    forall a :: a in others ==>
      !(a.OcrStep? && a.reader == h) && !(a.OcrEnd? && a.reader == h) && !(a.OcrCrash? && a.reader == h)
  }

  lemma StepSpares(cfg: Config, s: State, a: Act, h: nat)
    requires Enabled(s, a) && Spares([a], h) && h in s.readers && h < s.nextHandler
    ensures var next := Next(cfg, s, a);
            h in next.readers && next.readers[h] == s.readers[h] && h < next.nextHandler
  {
    assert a in [a];
  }

  lemma {:induction false} OthersSpare(cfg: Config, s: State, others: seq<Act>, h: nat)
    requires CanRun(cfg, s, others) && Spares(others, h) && h in s.readers && h < s.nextHandler
    ensures var next := Run(cfg, s, others);
            h in next.readers && next.readers[h] == s.readers[h] && h < next.nextHandler
    decreases |others|
  {
    if others != [] {
      StepSpares(cfg, s, others[0], h);
      OthersSpare(cfg, Next(cfg, s, others[0]), others[1..], h);
    }
  }

  predicate Playable(cfg: Config, s: State, h: nat, moments: seq<Moment>)
    decreases |moments|
  {
    moments == [] ||
    var m := moments[0];
    && CanRun(cfg, s, m.others) && Spares(m.others, h)
    && h in Run(cfg, s, m.others).readers
    && Playable(cfg, OcrStepped(cfg, Run(cfg, s, m.others), h, m.outcome, m.answer), h, moments[1..])
  }

  /** The call was a transaction that took place and whose condition held. */
  predicate Matched(cfg: Config, s: State, h: nat, m: Moment)
    requires h in s.readers
  {
    var tx := OcrTx(cfg, s.readers[h]);
    tx.Some? && Happened(m.outcome) && Hits(cfg, s.db, tx.value)
  }

  datatype OcrOutcome = Skipped | Completed | EndedFailed | Retry | Lost | Excluded

  /** An OcrProviderError, or what any other error is taken for. */
  datatype Error = OcrError(permanent: bool, code: ErrorCode)

  class Platform {
    var s: State
    var moments: seq<Moment>
    ghost var run: seq<Act>
    ghost var wrote: bool  // whether the last call's transaction matched the row
    const cfg: Config
    const h: nat
    ghost const start: State

    constructor (cfg: Config, s: State, h: nat, moments: seq<Moment>)
      requires h in s.readers && h < s.nextHandler && Playable(cfg, s, h, moments)
      ensures Valid() && this.s == s && this.moments == moments && this.h == h && this.cfg == cfg && start == s
    {
      this.s, this.moments, this.cfg, this.h := s, moments, cfg, h;
      start, run, wrote := s, [], false;
    }

    ghost predicate Valid()
      reads this
    {
      && CanRun(cfg, start, run) && s == Run(cfg, start, run)
      && h in s.readers && h < s.nextHandler
      && Playable(cfg, s, h, moments)
    }

    function Pc(): OcrPc
      requires h in s.readers
      reads this
    {
      s.readers[h].pc
    }

    method Call() returns (before: State, m: Moment)
      requires Valid() && moments != []
      modifies this
      ensures Valid() && m == old(moments[0]) && moments == old(moments)[1..]
      ensures CanRun(cfg, old(s), m.others) && before == Run(cfg, old(s), m.others)
      ensures h in before.readers && before.readers[h] == old(s.readers[h])
      ensures s == OcrStepped(cfg, before, h, m.outcome, m.answer)
      ensures wrote == Matched(cfg, before, h, m)
    {
      m := moments[0];
      before := Run(cfg, s, m.others);
      OthersSpare(cfg, s, m.others, h);
      ghost var a := OcrStep(h, m.outcome, m.answer);
      S.RunJoin(cfg, start, run, m.others);
      S.RunOne(cfg, before, a);
      S.RunJoin(cfg, start, run + m.others, [a]);
      s := OcrStepped(cfg, before, h, m.outcome, m.answer);
      moments := moments[1..];
      run := run + m.others + [a];
      wrote := Matched(cfg, before, h, m);
    }

    method Claim(d: DocId) returns (r: Result<Option<OcrClaim>, S.Error>)
      requires Valid() && moments != [] && Pc() == OcrDelivered && s.readers[h].doc == d
      modifies this
      ensures Valid() && |moments| == |old(moments)| - 1
      ensures s.readers[h].pdfAllowed == old(s.readers[h].pdfAllowed)
      ensures Pc() == match r
                      case Failure(_) => OcrThrowing
                      case Success(None) => OcrFinished
                      case Success(Some(c)) =>
                        if c.fileType == PDF && !s.readers[h].pdfAllowed then Excluding(c) else OcrReading(c)
      ensures r.Success? && r.value.Some? ==> r.value.value.doc == d
      ensures r.Success? ==> r.value.Some? == wrote
    {
      var before, m := Call();
      return if m.outcome.Threw? then Failure(S.Thrown) else Success(OcrClaimOf(cfg, before.db, d));
    }

    /** getObject: Success(None) stands for StorageObjectNotFoundError. */
    method GetObject(c: OcrClaim, key: Option<Key>) returns (r: Result<Option<Buffer>, S.Error>)
      requires Valid() && moments != [] && Pc() == OcrReading(c)
      requires key == if ProcessesOriginal(cfg, c) then Some(c.storageKey) else c.sanitizedKey
      modifies this
      ensures Valid() && |moments| == |old(moments)| - 1
      ensures Pc() == if r.Failure? then OcrFailing(c, false, StorageUnavailable)
                      else if r.value.None? then OcrFailing(c, true, ObjectMissing)
                      else if ProcessesOriginal(cfg, c) && |r.value.value| != c.fileSize
                        then OcrFailing(c, true, ObjectMismatch)
                      else Recognizing(c, r.value.value)
    {
      var before, m := Call();
      if m.outcome.Threw? {
        return Failure(S.Thrown);
      }
      if key.None? || key.value !in before.objects {
        return Success(None);
      }
      return Success(Some(before.objects[key.value]));
    }

    /** provider.recognize, which answers something or throws an error of its own. */
    method Recognize(c: OcrClaim, content: Buffer) returns (r: Result<OcrAnswer, S.Error>)
      requires Valid() && moments != [] && Pc() == Recognizing(c, content)
      modifies this
      ensures Valid() && |moments| == |old(moments)| - 1
      ensures Pc() == if r.Failure? then OcrFailing(c, false, ProviderError) else AfterRecognition(cfg, c, r.value)
    {
      var _, m := Call();
      return if m.outcome.Threw? then Failure(S.Thrown) else Success(m.answer);
    }

    method MarkCompleted(c: OcrClaim, texts: seq<string>) returns (r: Result<bool, S.Error>)
      requires Valid() && moments != [] && Pc() == Completing(c, texts)
      modifies this
      ensures Valid() && Pc() == if r.Failure? then OcrThrowing else OcrFinished
      ensures r.Success? ==> r.value == wrote
      ensures r == Success(true) ==> c.doc in s.db.rows && s.db.rows[c.doc].ocrStatus == COMPLETED
    {
      var before, m := Call();
      return if m.outcome.Threw? then Failure(S.Thrown) else Success(HoldsOcr(before.db, c));
    }

    method MarkFailed(c: OcrClaim, e: Error) returns (r: Result<bool, S.Error>)
      requires Valid() && moments != [] && Pc() == OcrFailing(c, e.permanent, e.code) && GivesUp(cfg, c, e.permanent)
      modifies this
      ensures Valid() && Pc() == if r.Failure? then OcrThrowing else OcrFinished
      ensures r.Success? ==> r.value == wrote
      ensures r == Success(true) ==> c.doc in s.db.rows && s.db.rows[c.doc].ocrStatus == FAILED
    {
      var before, m := Call();
      return if m.outcome.Threw? then Failure(S.Thrown) else Success(HoldsOcr(before.db, c));
    }

    method ReleaseForRetry(c: OcrClaim, e: Error, delay: nat) returns (r: Result<bool, S.Error>)
      requires Valid() && moments != [] && Pc() == OcrFailing(c, e.permanent, e.code) && !GivesUp(cfg, c, e.permanent)
      requires delay == RetryDelay(cfg, c.attempts)
      modifies this
      ensures Valid() && Pc() == if r.Failure? then OcrThrowing else OcrFinished
      ensures r.Success? ==> r.value == wrote
      ensures r == Success(true) ==> c.doc in s.db.rows && s.db.rows[c.doc].ocrStatus == PENDING
    {
      var before, m := Call();
      return if m.outcome.Threw? then Failure(S.Thrown) else Success(HoldsOcr(before.db, c));
    }

    method MarkExcluded(c: OcrClaim) returns (r: Result<bool, S.Error>)
      requires Valid() && moments != [] && Pc() == Excluding(c)
      modifies this
      ensures Valid() && Pc() == if r.Failure? then OcrThrowing else OcrFinished
      ensures r.Success? ==> r.value == wrote
      ensures r == Success(true) ==> c.doc in s.db.rows && s.db.rows[c.doc].ocrStatus == EXCLUDED
    {
      var before, m := Call();
      return if m.outcome.Threw? then Failure(S.Thrown) else Success(HoldsOcr(before.db, c));
    }
  }

  /** readRepresentation. */
  method ReadRepresentation(p: Platform, c: OcrClaim) returns (r: Result<Buffer, Error>)
    requires p.Valid() && p.moments != [] && p.Pc() == OcrReading(c)
    modifies p
    ensures p.Valid() && |p.moments| == |old(p.moments)| - 1
    ensures p.Pc() == match r
                      case Failure(e) => OcrFailing(c, e.permanent, e.code)
                      case Success(content) => Recognizing(c, content)
  {
    var original := ProcessesOriginal(p.cfg, c);
    var key := if original then Some(c.storageKey) else c.sanitizedKey;
    var got := p.GetObject(c, key);
    if got.Failure? {
      return Failure(OcrError(false, StorageUnavailable));
    }
    if got.value.None? {
      return Failure(OcrError(true, ObjectMissing));
    }
    if original && |got.value.value| != c.fileSize {
      return Failure(OcrError(true, ObjectMismatch));
    }
    return Success(got.value.value);
  }

  /** Whether some page holds U+0000, which PostgreSQL cannot store. */
  method HoldsNul(pages: seq<string>) returns (found: bool)
    ensures found <==> exists i :: 0 <= i < |pages| && '\0' in pages[i]
  {
    for i := 0 to |pages|
      invariant forall k :: 0 <= k < i ==> '\0' !in pages[k]
    {
      if '\0' in pages[i] {
        return true;
      }
    }
    return false;
  }

  /** recognize, the check of the number of pages, and their normalization. */
  method RecognizedPages(p: Platform, c: OcrClaim, content: Buffer) returns (r: Result<seq<string>, Error>)
    requires p.Valid() && p.moments != [] && p.Pc() == Recognizing(c, content)
    modifies p
    ensures p.Valid() && |p.moments| == |old(p.moments)| - 1
    ensures p.Pc() == match r
                      case Failure(e) => OcrFailing(c, e.permanent, e.code)
                      case Success(texts) => Completing(c, texts)
  {
    var output := p.Recognize(c, content);
    if output.Failure? {
      return Failure(OcrError(false, ProviderError));
    }
    match output.value
    case Refused(permanent, code) => return Failure(OcrError(permanent, code));
    case Malformed => return Failure(OcrError(false, InvalidResponse));
    case Pages(pages) =>
      if pages == [] {
        return Failure(OcrError(false, InvalidResponse));
      }
      var nul := HoldsNul(pages);
      if nul {
        return Failure(OcrError(true, InvalidResponse));
      }
      if |pages| > p.cfg.maxPages {
        return Failure(OcrError(true, TooManyPages));
      }
      return Success(NormalizePages(pages));
  }

  method ReadPages(p: Platform, c: OcrClaim) returns (r: Result<seq<string>, Error>)
    requires p.Valid() && |p.moments| >= 2 && p.Pc() == OcrReading(c)
    modifies p
    ensures p.Valid() && |p.moments| >= |old(p.moments)| - 2
    ensures p.Pc() == match r
                      case Failure(e) => OcrFailing(c, e.permanent, e.code)
                      case Success(texts) => Completing(c, texts)
  {
    var content :- ReadRepresentation(p, c);
    r := RecognizedPages(p, c, content);
  }

  /** What follows an OCR error: the end of the execution, or a delayed retry. */
  method AfterError(p: Platform, c: OcrClaim, e: Error) returns (r: Result<OcrOutcome, S.Error>)
    requires p.Valid() && p.moments != [] && p.Pc() == OcrFailing(c, e.permanent, e.code)
    modifies p
    ensures p.Valid() && p.Pc() == if r.Failure? then OcrThrowing else OcrFinished
    ensures r == Success(EndedFailed) ==> c.doc in p.s.db.rows && p.s.db.rows[c.doc].ocrStatus == FAILED
    ensures r == Success(Retry) ==> c.doc in p.s.db.rows && p.s.db.rows[c.doc].ocrStatus == PENDING
    ensures r.Success? ==> (p.wrote && (r.value.EndedFailed? || r.value.Retry?)) || (!p.wrote && r.value.Lost?)
  {
    if e.permanent || c.attempts >= p.cfg.ocrMaxAttempts {
      var recorded :- p.MarkFailed(c, e);
      return Success(if recorded then EndedFailed else Lost);
    }
    var released :- p.ReleaseForRetry(c, e, RetryDelay(p.cfg, c.attempts));
    return Success(if released then Retry else Lost);
  }

  /** Calls a handler makes at most: claim, read, recognize, record. */
  const MAX_CALLS := 4

  /**
   A whole `document.ocr` handler: a run of the machine that ends with the handler finished, or
   throwing. Every outcome but "skipped" and "lost" is the document's own state; those two mean that the
   last transaction wrote nothing.
   */
  method OcrDocument(p: Platform, d: DocId) returns (r: Result<OcrOutcome, S.Error>)
    requires p.Valid() && |p.moments| >= MAX_CALLS && p.Pc() == OcrDelivered && p.s.readers[p.h].doc == d
    modifies p
    ensures p.Valid() && p.Pc() == if r.Failure? then OcrThrowing else OcrFinished
    ensures CanRun(p.cfg, p.start, p.run) && p.s == Run(p.cfg, p.start, p.run)
    ensures r.Success? ==> (p.wrote <==> r.value != Skipped && r.value != Lost)
    ensures r.Success? && r.value != Skipped && r.value != Lost ==>
              && d in p.s.db.rows
              && p.s.db.rows[d].ocrStatus == match r.value
                                             case Completed => COMPLETED
                                             case EndedFailed => FAILED
                                             case Retry => PENDING
                                             case _ => EXCLUDED
  {
    var claimed :- p.Claim(d);
    if claimed.None? {
      return Success(Skipped);
    }
    var c := claimed.value;
    if c.fileType == PDF && !p.s.readers[p.h].pdfAllowed {
      var excluded :- p.MarkExcluded(c);
      return Success(if excluded then Excluded else Lost);
    }
    var texts := ReadPages(p, c);
    if texts.Failure? {
      r := AfterError(p, c, texts.error);
      return;
    }
    var recorded :- p.MarkCompleted(c, texts.value);
    return Success(if recorded then Completed else Lost);
  }
}
