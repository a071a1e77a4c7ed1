/**
 The `document.scan` handler as the program it is: `ScanDocument` makes its calls one after the
 other, with its try block and what follows a failure of it, while everything else that can happen
 does happen between two calls. It is proved to walk through the machine's steps and through nothing
 else, so what holds of every run of the machine holds of it.
 */
module ScanHandler {
  import opened Wrappers
  import opened Bytes
  import opened FileType
  import opened Sanitizer
  import opened TreatmentDb
  import opened TreatmentRows
  import opened TreatmentLedger
  import opened TreatmentMachine

  /** What others do before the handler's next call, and how that call goes. */
  datatype Moment = Moment(others: seq<Act>, outcome: Outcome, answer: Answer, pdfEnabled: bool)

  /** Others act on this handler's process in no way: they do not step, end or crash it. */
  predicate Spares(others: seq<Act>, h: nat) {
    forall a :: a in others ==>
      !(a.ScanStep? && a.scanner == h) && !(a.ScanEnd? && a.scanner == h) && !(a.ScanCrash? && a.scanner == h)
  }

  lemma StepSpares(cfg: Config, s: State, a: Act, h: nat)
    requires Enabled(s, a) && Spares([a], h) && h in s.scanners && h < s.nextHandler
    ensures var next := Next(cfg, s, a);
            h in next.scanners && next.scanners[h] == s.scanners[h] && h < next.nextHandler
  {
    assert a in [a];
  }

  lemma {:induction false} OthersSpare(cfg: Config, s: State, others: seq<Act>, h: nat)
    requires CanRun(cfg, s, others) && Spares(others, h) && h in s.scanners && h < s.nextHandler
    ensures var next := Run(cfg, s, others);
            h in next.scanners && next.scanners[h] == s.scanners[h] && h < next.nextHandler
    decreases |others|
  {
    if others != [] {
      StepSpares(cfg, s, others[0], h);
      OthersSpare(cfg, Next(cfg, s, others[0]), others[1..], h);
    }
  }

  lemma {:induction false} RunJoin(cfg: Config, s: State, a: seq<Act>, b: seq<Act>)
    requires CanRun(cfg, s, a) && CanRun(cfg, Run(cfg, s, a), b)
    ensures CanRun(cfg, s, a + b) && Run(cfg, s, a + b) == Run(cfg, Run(cfg, s, a), b)
    decreases |a|
  {
    if a == [] {
      assert a + b == b;
    } else {
      assert (a + b)[1..] == a[1..] + b;
      RunJoin(cfg, Next(cfg, s, a[0]), a[1..], b);
    }
  }

  lemma RunOne(cfg: Config, s: State, a: Act)
    requires Enabled(s, a)
    ensures CanRun(cfg, s, [a]) && Run(cfg, s, [a]) == Next(cfg, s, a)
  {
    assert [a][1..] == [];
    assert Run(cfg, Next(cfg, s, a), []) == Next(cfg, s, a);
  }

  /** A run with what others do and one action more; what it did first stays where it was. */
  lemma RunGrows(cfg: Config, s: State, run: seq<Act>, others: seq<Act>, a: Act, at: nat)
    requires CanRun(cfg, s, run) && CanRun(cfg, Run(cfg, s, run), others) && at <= |run|
    requires Enabled(Run(cfg, Run(cfg, s, run), others), a)
    ensures var before, upTo := Run(cfg, Run(cfg, s, run), others), run + others;
            && CanRun(cfg, s, upTo) && Run(cfg, s, upTo) == before && (upTo + [a])[..|upTo|] == upTo
            && CanRun(cfg, s, upTo + [a]) && Run(cfg, s, upTo + [a]) == Next(cfg, before, a)
            && (upTo + [a])[..at] == run[..at]
  {
    RunJoin(cfg, s, run, others);
    var before := Run(cfg, s, run + others);
    RunOne(cfg, before, a);
    RunJoin(cfg, s, run + others, [a]);
  }

  /** The moments can follow one another from this state. */
  predicate Playable(cfg: Config, s: State, h: nat, moments: seq<Moment>)
    decreases |moments|
  {
    moments == [] ||
    var m := moments[0];
    && CanRun(cfg, s, m.others) && Spares(m.others, h)
    && h in Run(cfg, s, m.others).scanners
    && Playable(cfg, ScanStepped(cfg, Run(cfg, s, m.others), h, m.outcome, m.answer, m.pdfEnabled), h, moments[1..])
  }

  /** The transaction the handler's call is, if it is one. */
  function TxOf(cfg: Config, s: State, h: nat, m: Moment): Option<Tx>
    requires h in s.scanners
  {
    ScanTx(cfg, s.scanners[h], if s.ocrOn then Some(m.pdfEnabled) else None)
  }

  /** It took place and its condition held. */
  predicate Matched(cfg: Config, s: State, h: nat, m: Moment)
    requires h in s.scanners
  {
    var tx := TxOf(cfg, s, h, m);
    tx.Some? && Happened(m.outcome) && Hits(cfg, s.db, tx.value)
  }

  /** markFailed matches the row or writes nothing; the OCR has no part in it. */
  lemma FailureCommits(cfg: Config, db: Db, claim: ScanClaim, ocr: OcrActivation)
    ensures Hits(cfg, db, FinishScan(claim, Failed, ocr)) <==> HoldsScan(db, claim)
    ensures Commit(cfg, db, FinishScan(claim, Failed, ocr)) == Commit(cfg, db, FinishScan(claim, Failed, None))
  {
  }

  datatype ScanOutcome = Skipped | MarkedClean | MarkedInfected | EndedFailed | Lost

  function OutcomeOf(verdict: ScanVerdict, marked: bool): ScanOutcome {
    if !marked then Lost else if verdict.Clean? then MarkedClean else MarkedInfected
  }

  datatype Error = Thrown

  /** The platform one handler runs on: the whole state, and what is going to happen. */
  class Platform {
    var s: State
    var moments: seq<Moment>
    ghost var run: seq<Act>
    ghost var seen: State     // what the last transaction found
    ghost var seenAt: nat     // after how many actions of the run
    ghost var left: Db        // and what it left
    ghost var wrote: bool     // whether it matched the row
    const cfg: Config
    const h: nat
    ghost const start: State

    constructor (cfg: Config, s: State, h: nat, moments: seq<Moment>)
      requires h in s.scanners && h < s.nextHandler && Playable(cfg, s, h, moments)
      ensures Valid() && this.s == s && this.moments == moments && this.h == h && this.cfg == cfg && start == s
    {
      this.s, this.moments, this.cfg, this.h := s, moments, cfg, h;
      start, run, seen, seenAt, left, wrote := s, [], s, 0, s.db, false;
    }

    ghost predicate Valid()
      reads this
    {
      && CanRun(cfg, start, run) && s == Run(cfg, start, run)
      && seenAt <= |run| && CanRun(cfg, start, run[..seenAt]) && seen == Run(cfg, start, run[..seenAt])
      && h in s.scanners && h < s.nextHandler
      && Playable(cfg, s, h, moments)
    }

    function Pc(): ScanPc
      requires h in s.scanners
      reads this
    {
      s.scanners[h].pc
    }

    /** Others act, then the handler's call happens: one step of the machine. Answers what it found. */
    method Call() returns (before: State, m: Moment)
      requires Valid() && moments != []
      modifies this
      ensures Valid() && m == old(moments[0]) && moments == old(moments)[1..]
      ensures CanRun(cfg, old(s), m.others) && before == Run(cfg, old(s), m.others)
      ensures h in before.scanners && before.scanners[h] == old(s.scanners[h])
      ensures s == ScanStepped(cfg, before, h, m.outcome, m.answer, m.pdfEnabled)
      ensures var tx := TxOf(cfg, before, h, m);
              if tx.Some? then seen == before && left == s.db && wrote == Matched(cfg, before, h, m)
              else seen == old(seen) && left == old(left) && wrote == old(wrote)
    {
      m := moments[0];
      before := Run(cfg, s, m.others);
      OthersSpare(cfg, s, m.others, h);
      ghost var a := ScanStep(h, m.outcome, m.answer, m.pdfEnabled);
      RunGrows(cfg, start, run, m.others, a, seenAt);
      s := ScanStepped(cfg, before, h, m.outcome, m.answer, m.pdfEnabled);
      moments := moments[1..];
      ghost var upTo := run + m.others;
      run := upTo + [a];
      if TxOf(cfg, before, h, m).Some? {
        seen, seenAt, left, wrote := before, |upTo|, s.db, Matched(cfg, before, h, m);
      }
    }

    method Claim(d: DocId) returns (r: Result<Option<ScanClaim>, Error>)
      requires Valid() && moments != [] && Pc() == Delivered && s.scanners[h].doc == d
      modifies this
      ensures Valid() && |moments| == |old(moments)| - 1
      ensures Pc() == match r
                      case Failure(_) => Throwing
                      case Success(None) => Finished
                      case Success(Some(c)) => Reading(c)
      ensures r.Success? && r.value.Some? ==> r.value.value.doc == d
      ensures r.Success? ==> r.value.Some? == wrote && (!wrote ==> left == seen.db)
    {
      var before, m := Call();
      return if m.outcome.Threw? then Failure(Thrown) else Success(ScanClaimOf(cfg, before.db, d));
    }

    method GetObject(key: Key) returns (r: Result<Buffer, Error>)
      requires Valid() && moments != [] && Pc().Reading? && Pc().claim.storageKey == key
      modifies this
      ensures Valid() && |moments| == |old(moments)| - 1
      ensures Pc() == AfterRead(old(Pc().claim), if r.Success? then Some(r.value) else None)
    {
      var before, m := Call();
      return if m.outcome.Threw? || key !in before.objects then Failure(Thrown) else Success(before.objects[key]);
    }

    method Scan(content: Buffer) returns (r: Result<Answer, Error>)
      requires Valid() && moments != [] && Pc().Analysing? && Pc().content == content
      modifies this
      ensures Valid() && |moments| == |old(moments)| - 1
      ensures var c := old(Pc().claim);
              Pc() == if r.Failure? then Failing(c) else AfterVerdict(c, content, r.value)
    {
      var _, m := Call();
      return if m.outcome.Threw? then Failure(Thrown) else Success(m.answer);
    }

    method PutObject(key: Key, body: Buffer) returns (r: Result<Key, Error>)
      requires Valid() && moments != [] && Pc().Storing? && Pc().copy == body
      requires key == SanitizedKeyOf(Pc().claim.storageKey)
      modifies this
      ensures Valid() && |moments| == |old(moments)| - 1
      ensures r.Success? ==> r.value == key
      ensures var c := old(Pc().claim);
              Pc() == if r.Failure? then Failing(c) else Marking(c, Clean(Some(key)))
    {
      var _, m := Call();
      return if m.outcome.Threw? then Failure(Thrown) else Success(key);
    }

    /** What an answer other than "failed" says of the document and of the last transaction. */
    ghost predicate Tells(outcome: ScanOutcome, d: DocId)
      reads this
    {
      match outcome
      case MarkedClean => wrote && HasStatus(s.db, d, CLEAN)
      case MarkedInfected => wrote && HasStatus(s.db, d, INFECTED)
      case _ => !wrote && left == seen.db
    }

    /** markClean or markInfected. */
    method Mark(claim: ScanClaim, verdict: ScanVerdict) returns (r: Result<bool, Error>)
      requires Valid() && moments != [] && Pc() == Marking(claim, verdict) && !verdict.Failed?
      modifies this
      ensures Valid() && |moments| == |old(moments)| - 1
      ensures Pc() == if r.Failure? then Failing(claim) else Finished
      ensures r.Success? ==> Tells(OutcomeOf(verdict, r.value), claim.doc)
    {
      var before, m := Call();
      return if m.outcome.Threw? then Failure(Thrown) else Success(HoldsScan(before.db, claim));
    }

    method MarkFailed(claim: ScanClaim) returns (r: Result<bool, Error>)
      requires Valid() && moments != [] && Pc() == Failing(claim) && claim.attempts >= cfg.maxAttempts
      modifies this
      ensures Valid() && |moments| == |old(moments)| - 1
      ensures Pc() == if r.Failure? then Throwing
                      else if r.value && claim.fileType != PDF then Deleting(claim)
                      else Finished
      ensures r.Success? ==> r.value == wrote && MarkedFailed(claim)
    {
      var before, m := Call();
      FailureCommits(cfg, before.db, claim, if before.ocrOn then Some(m.pdfEnabled) else None);
      return if m.outcome.Threw? then Failure(Thrown) else Success(HoldsScan(before.db, claim));
    }

    /** The last transaction was markFailed: it wrote exactly if the claim was still the row's. */
    ghost predicate MarkedFailed(claim: ScanClaim)
      reads this
    {
      && (wrote <==> HoldsScan(seen.db, claim))
      && left == Commit(cfg, seen.db, FinishScan(claim, Failed, None))
      && (HasStatus(left, claim.doc, SCAN_FAILED) <==> wrote || HasStatus(seen.db, claim.doc, SCAN_FAILED))
    }

    method Release(claim: ScanClaim) returns (r: Result<bool, Error>)
      requires Valid() && moments != [] && Pc() == Failing(claim) && claim.attempts < cfg.maxAttempts
      modifies this
      ensures Valid() && |moments| == |old(moments)| - 1 && Pc() == Throwing
    {
      var before, m := Call();
      return if m.outcome.Threw? then Failure(Thrown) else Success(HoldsScan(before.db, claim));
    }

    method DeleteObject(key: Key) returns (r: Result<(), Error>)
      requires Valid() && moments != [] && Pc().Deleting? && key == SanitizedKeyOf(Pc().claim.storageKey)
      modifies this
      ensures Valid() && |moments| == |old(moments)| - 1 && Pc() == Finished
      ensures seen == old(seen) && left == old(left) && wrote == old(wrote)
    {
      var _, m := Call();
      return if m.outcome.Threw? then Failure(Thrown) else Success(());
    }
  }

  /** Calls a handler makes at most: claim, read, analyse, store, mark, fail, delete. */
  const MAX_CALLS := 7

  /** storeSanitizedCopy: the key of the copy, none for a PDF. */
  method StoreSanitizedCopy(p: Platform, claim: ScanClaim, content: Buffer) returns (r: Result<Option<Key>, Error>)
    requires p.Valid() && p.moments != [] && p.Pc() == AfterVerdict(claim, content, SaysClean)
    modifies p
    ensures p.Valid() && |p.moments| >= |old(p.moments)| - 1
    ensures p.Pc() == if r.Failure? then Failing(claim) else Marking(claim, Clean(r.value))
  {
    if claim.fileType == PDF {
      return Success(None);
    }
    var sanitized := Sanitized(claim.fileType, content);
    if sanitized.None? {
      return Failure(Thrown);
    }
    var stored := p.PutObject(SanitizedKeyOf(claim.storageKey), sanitized.value);
    return if stored.Failure? then Failure(Thrown) else Success(Some(stored.value));
  }

  /** The try block. */
  method Treat(p: Platform, claim: ScanClaim) returns (r: Result<ScanOutcome, Error>)
    requires p.Valid() && |p.moments| >= 4 && p.Pc() == Reading(claim)
    modifies p
    ensures p.Valid() && |p.moments| >= |old(p.moments)| - 4
    ensures p.Pc() == if r.Failure? then Failing(claim) else Finished
    ensures r.Success? ==> r.value in {MarkedClean, MarkedInfected, Lost} && p.Tells(r.value, claim.doc)
  {
    var content :- p.GetObject(claim.storageKey);
    if |content| != claim.fileSize {
      return Failure(Thrown);
    }
    var answer :- p.Scan(content);
    if answer.SaysInfected? {
      var marked :- p.Mark(claim, Infected(answer.signature));
      return Success(if marked then MarkedInfected else Lost);
    }
    var sanitizedKey :- StoreSanitizedCopy(p, claim, content);
    var marked :- p.Mark(claim, Clean(sanitizedKey));
    return Success(if marked then MarkedClean else Lost);
  }

  /** removeSanitizedCopy: a failure to remove it is not an error of the treatment. */
  method RemoveSanitizedCopy(p: Platform, claim: ScanClaim)
    requires p.Valid() && p.moments != [] && p.Pc() == if claim.fileType == PDF then Finished else Deleting(claim)
    modifies p
    ensures p.Valid() && p.Pc() == Finished
    ensures p.seen == old(p.seen) && p.left == old(p.left) && p.wrote == old(p.wrote)
  {
    if claim.fileType == PDF {
      return;
    }
    var _ := p.DeleteObject(SanitizedKeyOf(claim.storageKey));
  }

  /** The catch block. "failed" is answered on the last attempt, whether or not the claim was still the row's. */
  method AfterFailure(p: Platform, claim: ScanClaim) returns (r: Result<ScanOutcome, Error>)
    requires p.Valid() && |p.moments| >= 2 && p.Pc() == Failing(claim)
    modifies p
    ensures p.Valid() && p.Pc() == if r.Failure? then Throwing else Finished
    ensures r.Success? ==> r.value == EndedFailed && p.MarkedFailed(claim)
    ensures claim.attempts < p.cfg.maxAttempts ==> r.Failure?
  {
    if claim.attempts >= p.cfg.maxAttempts {
      var failed :- p.MarkFailed(claim);
      if failed {
        RemoveSanitizedCopy(p, claim);
      }
      return Success(EndedFailed);
    }
    var _ :- p.Release(claim);
    return Failure(Thrown);
  }

  /**
   A whole `document.scan` handler. It is a run of the machine that ends with the handler finished, or
   throwing; "clean" and "infected" mean that the document is, "skipped" and "lost" that its last
   transaction wrote nothing. "failed" means that it was on its last attempt and asked for SCAN_FAILED, which
   it set exactly if its claim was still the row's at that moment of the run.
   */
  method ScanDocument(p: Platform, d: DocId)
    returns (r: Result<ScanOutcome, Error>, ghost claim: Option<ScanClaim>)
    requires p.Valid() && |p.moments| >= MAX_CALLS && p.Pc() == Delivered && p.s.scanners[p.h].doc == d
    modifies p
    ensures p.Valid() && p.Pc() == if r.Failure? then Throwing else Finished
    ensures CanRun(p.cfg, p.start, p.run) && p.s == Run(p.cfg, p.start, p.run)
    ensures r.Success? && r.value != EndedFailed ==> p.Tells(r.value, d)
    ensures r == Success(EndedFailed) ==>
              claim.Some? && claim.value.doc == d && claim.value.attempts >= p.cfg.maxAttempts
              && p.MarkedFailed(claim.value)
  {
    claim := None;
    var claimed :- p.Claim(d);
    claim := claimed;
    if claimed.None? {
      r := Success(Skipped);
      return;
    }
    r := Treat(p, claimed.value);
    if r.Failure? {
      r := AfterFailure(p, claimed.value);
    }
  }
}
