/**
 Whether a document waiting for its treatment has a job that will do it. Unlike the OCR's, a release
 enqueues no job: it relies on its own being delivered again. These are exactly the steps that leave a
 document without one; they take a job delivered again while a handler of it is in flight.
 */
module TreatmentScanJobs {
  import opened Wrappers
  import opened TreatmentDb
  import opened TreatmentRows
  import opened TreatmentLedger
  import opened TreatmentMachine
  import opened TreatmentInvariants
  import opened TreatmentSteps
  import opened TreatmentReachable

  /** Its handler, if it has one, has claimed nothing with the job or will rethrow. */
  predicate WillGiveBack(pc: ScanPc) {
    pc.Delivered? || pc.Throwing?
  }

  predicate IsScanJob(db: Db, job: nat, d: DocId) {
    job in db.jobs && db.jobs[job].queue == ScanQueue && db.jobs[job].doc == d
  }

  /** This job is queued, or delivered only to such handlers. */
  predicate ScanWaiting(db: Db, scanners: map<nat, Scanner>, job: nat, d: DocId) {
    && IsScanJob(db, job, d)
    && forall h :: h in scanners && scanners[h].job == job ==> WillGiveBack(scanners[h].pc)
  }

  ghost predicate NoScanStranded(db: Db, scanners: map<nat, Scanner>) {
    forall d :: HasStatus(db, d, PENDING_SCAN) ==> exists job :: ScanWaiting(db, scanners, job, d)
  }

  // ----- The step that strands a document -----

  /** The handler's own job will be delivered again once it rethrows. */
  predicate ComesBack(s: State, h: nat)
    requires h in s.scanners
  {
    && IsScanJob(s.db, s.scanners[h].job, s.scanners[h].doc)
    && forall k :: k in s.scanners && k != h && s.scanners[k].job == s.scanners[h].job ==>
         WillGiveBack(s.scanners[k].pc)
  }

  /** A current claim with attempts left is given back. */
  predicate GivesBack(cfg: Config, s: State, a: Act) {
    && a.ScanStep? && a.scanner in s.scanners && Happened(a.outcome)
    && var pc := s.scanners[a.scanner].pc;
    && pc.Failing? && pc.claim.attempts < cfg.maxAttempts && HoldsScan(s.db, pc.claim)
  }

  /** And neither the handler's own job nor another one is left for the document. */
  ghost predicate Strands(cfg: Config, s: State, a: Act) {
    && GivesBack(cfg, s, a)
    && !ComesBack(s, a.scanner)
    && forall job :: job != s.scanners[a.scanner].job ==> !ScanWaiting(s.db, s.scanners, job, s.scanners[a.scanner].doc)
  }

  // ----- Transactions -----

  lemma PendingScanHasJob(cfg: Config, ocrOn: bool, now: Time, row: Row, tx: Tx)
    requires RowOk(cfg, ocrOn, now, row) && Matches(cfg, row, now, tx) && !tx.ReleaseScan?
    ensures NewRow(cfg, row, now, tx).status == PENDING_SCAN ==> JobOf(cfg, row, tx) == Some(NewJob(ScanQueue, 0))
  {
  }

  /** A transaction other than a release leaves a job for every document it leaves waiting. */
  lemma PendingScanAfterCommit(cfg: Config, s: State, tx: Tx, d: DocId)
    requires Inv(cfg, s) && !tx.ReleaseScan? && HasStatus(Commit(cfg, s.db, tx), d, PENDING_SCAN)
    ensures var next := Commit(cfg, s.db, tx);
            || (DocOf(tx) == d && Hits(cfg, s.db, tx) && ScanWaiting(next, s.scanners, s.db.nextJob, d))
            || (HasStatus(s.db, d, PENDING_SCAN) && !(DocOf(tx) == d && Hits(cfg, s.db, tx)))
  {
    if DocOf(tx) == d && Hits(cfg, s.db, tx) {
      PendingScanHasJob(cfg, s.ocrOn, s.db.now, s.db.rows[d], tx);
      forall h | h in s.scanners
        ensures s.scanners[h].job < s.db.nextJob
      {
        assert ScannerOk(s.db, s.uploaded, s.answers, s.scanners[h]);
      }
    }
  }

  lemma StillScanWaiting(db: Db, next: Db, scanners: map<nat, Scanner>, job: nat, d: DocId)
    requires Extends(db, next) && ScanWaiting(db, scanners, job, d)
    ensures ScanWaiting(next, scanners, job, d)
  {
  }

  lemma CommitStrandsNone(cfg: Config, s: State, tx: Tx)
    requires Inv(cfg, s) && NoScanStranded(s.db, s.scanners) && !tx.ReleaseScan?
    ensures NoScanStranded(Commit(cfg, s.db, tx), s.scanners)
  {
    var next := Commit(cfg, s.db, tx);
    CommitExtends(cfg, s.ocrOn, s.db, tx);
    forall d | HasStatus(next, d, PENDING_SCAN)
      ensures exists job :: ScanWaiting(next, s.scanners, job, d)
    {
      PendingScanAfterCommit(cfg, s, tx, d);
      if HasStatus(s.db, d, PENDING_SCAN) && !(DocOf(tx) == d && Hits(cfg, s.db, tx)) {
        var job :| ScanWaiting(s.db, s.scanners, job, d);
        StillScanWaiting(s.db, next, s.scanners, job, d);
      }
    }
  }

  lemma {:induction false} CommitAllStrandsNone(cfg: Config, s: State, txs: seq<Tx>)
    requires ValidConfig(cfg) && Inv(cfg, s) && NoScanStranded(s.db, s.scanners)
    requires forall i :: 0 <= i < |txs| ==> FromOutside(txs[i])
    ensures NoScanStranded(CommitAll(cfg, s.db, txs), s.scanners)
    decreases |txs|
  {
    if txs != [] {
      OutsideKeeps(cfg, s, txs[0]);
      CommitStrandsNone(cfg, s, txs[0]);
      CommitAllStrandsNone(cfg, s.(db := Commit(cfg, s.db, txs[0])), txs[1..]);
    }
  }

  // ----- A step of a handler -----

  /** A waiting job still waits: its handler claims the document, or throws. */
  lemma WaitsAfterStep(cfg: Config, s: State, h: nat, o: Outcome, answer: Answer, next: Db, job: nat, d: DocId)
    requires h in s.scanners && JobIs(s.db, s.scanners[h].job, ScanQueue, s.scanners[h].doc)
    requires ScanWaiting(s.db, s.scanners, job, d) && Extends(s.db, next)
    requires HasStatus(s.db, d, PENDING_SCAN) && HasStatus(next, d, PENDING_SCAN)
    requires s.scanners[h].pc.Delivered? ==> next == CommitIf(cfg, s.db, Some(ClaimScan(s.scanners[h].doc)), o)
    ensures ScanWaiting(next, s.scanners[h := s.scanners[h].(pc := ScanPcAfter(cfg, s, s.scanners[h], o, answer))],
                        job, d)
  {
    if s.scanners[h].job == job && s.scanners[h].pc.Delivered? {
      assert Hits(cfg, s.db, ClaimScan(d));
    }
  }

  lemma PendingScanBefore(cfg: Config, db: Db, tx: Option<Tx>, o: Outcome, d: DocId)
    requires HasStatus(CommitIf(cfg, db, tx, o), d, PENDING_SCAN) && !HitsHere(cfg, db, tx, o, d)
    ensures HasStatus(db, d, PENDING_SCAN)
  {
  }

  /** A document the step does not send back was waiting already, with a job that still waits. */
  lemma PendingScanKept(cfg: Config, s: State, h: nat, ocr: OcrActivation, o: Outcome, answer: Answer, d: DocId,
                        next: Db, after: map<nat, Scanner>)
    requires NoScanStranded(s.db, s.scanners) && h in s.scanners && Extends(s.db, next)
    requires JobIs(s.db, s.scanners[h].job, ScanQueue, s.scanners[h].doc)
    requires next == CommitIf(cfg, s.db, ScanTx(cfg, s.scanners[h], ocr), o) && HasStatus(next, d, PENDING_SCAN)
    requires after == s.scanners[h := s.scanners[h].(pc := ScanPcAfter(cfg, s, s.scanners[h], o, answer))]
    requires !HitsHere(cfg, s.db, ScanTx(cfg, s.scanners[h], ocr), o, d)
    ensures exists job :: ScanWaiting(next, after, job, d)
  {
    PendingScanBefore(cfg, s.db, ScanTx(cfg, s.scanners[h], ocr), o, d);
    var job :| ScanWaiting(s.db, s.scanners, job, d);
    WaitsAfterStep(cfg, s, h, o, answer, next, job, d);
  }

  /** Of a handler's transactions only a release leaves its document waiting. */
  lemma OnlyAReleaseSendsBack(cfg: Config, db: Db, tx: Tx)
    requires Hits(cfg, db, tx) && (tx.ClaimScan? || tx.FinishScan?)
    ensures !HasStatus(Commit(cfg, db, tx), DocOf(tx), PENDING_SCAN)
  {
  }

  lemma SentBackIsGivenBack(cfg: Config, s: State, h: nat, ocr: OcrActivation, o: Outcome, answer: Answer,
                            pdfEnabled: bool, d: DocId)
    requires h in s.scanners && ScannerOk(s.db, s.uploaded, s.answers, s.scanners[h])
    requires HasStatus(CommitIf(cfg, s.db, ScanTx(cfg, s.scanners[h], ocr), o), d, PENDING_SCAN)
    requires HitsHere(cfg, s.db, ScanTx(cfg, s.scanners[h], ocr), o, d)
    ensures GivesBack(cfg, s, ScanStep(h, o, answer, pdfEnabled)) && s.scanners[h].doc == d
  {
    var tx := ScanTx(cfg, s.scanners[h], ocr).value;
    if !tx.ReleaseScan? {
      OnlyAReleaseSendsBack(cfg, s.db, tx);
    }
  }

  lemma GivenBackWaits(cfg: Config, s: State, h: nat, o: Outcome, answer: Answer, next: Db)
    requires h in s.scanners && Extends(s.db, next) && s.scanners[h].pc.Failing? && ComesBack(s, h)
    requires s.scanners[h].pc.claim.attempts < cfg.maxAttempts
    ensures ScanWaiting(next, s.scanners[h := s.scanners[h].(pc := ScanPcAfter(cfg, s, s.scanners[h], o, answer))],
                        s.scanners[h].job, s.scanners[h].doc)
  {
  }

  lemma AnotherWaits(db: Db, next: Db, scanners: map<nat, Scanner>, h: nat, sc: Scanner, job: nat, d: DocId)
    requires Extends(db, next) && ScanWaiting(db, scanners, job, d) && sc.job != job
    ensures ScanWaiting(next, scanners[h := sc], job, d)
  {
  }

  lemma SentBackWaits(cfg: Config, s: State, a: Act, next: Db, after: map<nat, Scanner>)
    requires GivesBack(cfg, s, a) && !Strands(cfg, s, a) && Extends(s.db, next)
    requires after == s.scanners[a.scanner :=
               s.scanners[a.scanner].(pc := ScanPcAfter(cfg, s, s.scanners[a.scanner], a.outcome, a.answer))]
    ensures exists job :: ScanWaiting(next, after, job, s.scanners[a.scanner].doc)
  {
    var h := a.scanner;
    if ComesBack(s, h) {
      GivenBackWaits(cfg, s, h, a.outcome, a.answer, next);
    } else {
      var job :| job != s.scanners[h].job && ScanWaiting(s.db, s.scanners, job, s.scanners[h].doc);
      AnotherWaits(s.db, next, s.scanners, h, after[h], job, s.scanners[h].doc);
    }
  }

  lemma ScanStepStrandsNone(cfg: Config, s: State, a: Act)
    requires Inv(cfg, s) && NoScanStranded(s.db, s.scanners) && a.ScanStep? && Enabled(s, a) && !Strands(cfg, s, a)
    ensures var next := Next(cfg, s, a); NoScanStranded(next.db, next.scanners)
  {
    var h, o := a.scanner, a.outcome;
    var ocr := if s.ocrOn then Some(a.pdfEnabled) else None;
    var next := ScanStepped(cfg, s, h, o, a.answer, a.pdfEnabled);
    assert ScannerOk(s.db, s.uploaded, s.answers, s.scanners[h]);
    CommitIfExtends(cfg, s.ocrOn, s.db, ScanTx(cfg, s.scanners[h], ocr), o);
    forall d | HasStatus(next.db, d, PENDING_SCAN)
      ensures exists job :: ScanWaiting(next.db, next.scanners, job, d)
    {
      if HitsHere(cfg, s.db, ScanTx(cfg, s.scanners[h], ocr), o, d) {
        SentBackIsGivenBack(cfg, s, h, ocr, o, a.answer, a.pdfEnabled, d);
        SentBackWaits(cfg, s, a, next.db, next.scanners);
      } else {
        PendingScanKept(cfg, s, h, ocr, o, a.answer, d, next.db, next.scanners);
      }
    }
  }

  // ----- The other actions -----

  lemma NoScanStrandedStill(db: Db, scanners: map<nat, Scanner>, next: Db, scanners': map<nat, Scanner>)
    requires NoScanStranded(db, scanners)
    requires forall d :: HasStatus(next, d, PENDING_SCAN) ==> HasStatus(db, d, PENDING_SCAN)
    requires forall job, d :: ScanWaiting(db, scanners, job, d) ==> ScanWaiting(next, scanners', job, d)
    ensures NoScanStranded(next, scanners')
  {
    forall d | HasStatus(next, d, PENDING_SCAN)
      ensures exists job :: ScanWaiting(next, scanners', job, d)
    {
      var job :| ScanWaiting(db, scanners, job, d);
      assert ScanWaiting(next, scanners', job, d);
    }
  }

  lemma OcrEndStrandsNone(cfg: Config, s: State, h: nat)
    requires ReadersOk(cfg, s) && NoScanStranded(s.db, s.scanners) && Enabled(s, OcrEnd(h))
    ensures NoScanStranded(Next(cfg, s, OcrEnd(h)).db, s.scanners)
  {
    assert ReaderOk(cfg, s.db, s.uploaded, s.answers, s.readers[h]);
    NoScanStrandedStill(s.db, s.scanners, Next(cfg, s, OcrEnd(h)).db, s.scanners);
  }

  /** A new document comes with its job, or waits for no treatment yet. */
  lemma NewRowStrandsNone(s: State, w: Writes)
    requires NoScanStranded(s.db, s.scanners) && JobsOk(s.db) && w.doc !in s.db.rows
    requires forall h :: h in s.scanners ==> s.scanners[h].job < s.db.nextJob
    requires w.row.status == PENDING_SCAN ==> w.job == Some(NewJob(ScanQueue, 0))
    ensures NoScanStranded(Write(s.db, w), s.scanners)
  {
    var next := Write(s.db, w);
    NewRowExtends(s.db, w);
    forall d | HasStatus(next, d, PENDING_SCAN)
      ensures exists job :: ScanWaiting(next, s.scanners, job, d)
    {
      if d == w.doc {
        assert ScanWaiting(next, s.scanners, s.db.nextJob, d);
      } else {
        assert HasStatus(s.db, d, PENDING_SCAN);
        var job :| ScanWaiting(s.db, s.scanners, job, d);
        assert ScanWaiting(next, s.scanners, job, d);
      }
    }
  }

  lemma UploadStrandsNone(cfg: Config, s: State, a: Act)
    requires Inv(cfg, s) && NoScanStranded(s.db, s.scanners) && a.Upload? && Enabled(s, a)
    ensures NoScanStranded(Next(cfg, s, a).db, s.scanners)
  {
    forall h | h in s.scanners
      ensures s.scanners[h].job < s.db.nextJob
    {
      assert ScannerOk(s.db, s.uploaded, s.answers, s.scanners[h]);
    }
    var row := Next(cfg, s, a).db.rows[a.doc];
    NewRowStrandsNone(s, Writes(a.doc, row, None, None, if a.legacy then None else Some(NewJob(ScanQueue, 0))));
  }

  /** Actions that change no status; a job goes away only with a handler that has finished. */
  lemma QuietStrandsNone(cfg: Config, s: State, a: Act)
    requires NoScanStranded(s.db, s.scanners) && Enabled(s, a)
    requires forall h :: h in s.scanners ==> h < s.nextHandler
    requires a.DeliverScan? || a.ScanEnd? || a.ScanCrash? || a.DeliverOcr? || a.OcrCrash? || a.Activate?
             || a.RemoveOriginal? || a.Tick?
    ensures var next := Next(cfg, s, a); NoScanStranded(next.db, next.scanners)
  {
    var next := Next(cfg, s, a);
    NoScanStrandedStill(s.db, s.scanners, next.db, next.scanners);
  }

  lemma OcrStepStrandsNone(cfg: Config, s: State, h: nat, o: Outcome, answer: OcrAnswer)
    requires Inv(cfg, s) && NoScanStranded(s.db, s.scanners) && h in s.readers
    ensures NoScanStranded(OcrStepped(cfg, s, h, o, answer).db, s.scanners)
  {
    var tx := OcrTx(cfg, s.readers[h]);
    if tx.Some? && Happened(o) {
      CommitStrandsNone(cfg, s, tx.value);
    }
  }

  lemma StepStrandsNone(cfg: Config, s: State, a: Act)
    requires ValidConfig(cfg) && Inv(cfg, s) && NoScanStranded(s.db, s.scanners) && Enabled(s, a)
    requires !Strands(cfg, s, a)
    ensures var next := Next(cfg, s, a); NoScanStranded(next.db, next.scanners)
  {
    match a
    case ScanStep(_, _, _, _) => ScanStepStrandsNone(cfg, s, a);
    case OcrStep(h, o, answer) => OcrStepStrandsNone(cfg, s, h, o, answer);
    case OcrEnd(h) => OcrEndStrandsNone(cfg, s, h);
    case Sweep(docs) => CommitAllStrandsNone(cfg, s, FailAll(docs) + RequeueAll(docs));
    case OcrSweep(docs) => CommitAllStrandsNone(cfg, s, OcrSweepAll(docs));
    case Reprocess(d) => CommitStrandsNone(cfg, s, ReprocessScan(d));
    case OcrReprocess(d) => CommitStrandsNone(cfg, s, ReprocessOcr(d));
    case Upload(_, _, _, _, _) => UploadStrandsNone(cfg, s, a);
    case _ => QuietStrandsNone(cfg, s, a);
  }

  // ----- The other direction -----

  lemma AnotherWaited(s: State, h: nat, sc: Scanner, next: Db, job: nat, d: DocId)
    requires h in s.scanners && sc.job == s.scanners[h].job && next.jobs == s.db.jobs && job != sc.job
    ensures ScanWaiting(next, s.scanners[h := sc], job, d) ==> ScanWaiting(s.db, s.scanners, job, d)
  {
    var after := s.scanners[h := sc];
    assert forall k :: k in s.scanners && s.scanners[k].job == job ==> k in after && after[k] == s.scanners[k];
  }

  lemma OwnComesBack(s: State, h: nat, sc: Scanner, next: Db)
    requires h in s.scanners && sc.job == s.scanners[h].job && next.jobs == s.db.jobs
    ensures ScanWaiting(next, s.scanners[h := sc], sc.job, s.scanners[h].doc) ==> ComesBack(s, h)
  {
    var after := s.scanners[h := sc];
    assert forall k :: k in s.scanners && k != h ==> k in after && after[k] == s.scanners[k];
  }

  lemma ReleaseLeaves(cfg: Config, db: Db, c: ScanClaim)
    requires HoldsScan(db, c)
    ensures var next := Commit(cfg, db, ReleaseScan(c)); next.jobs == db.jobs && HasStatus(next, c.doc, PENDING_SCAN)
  {
  }

  lemma StrandsOne(cfg: Config, s: State, a: Act)
    requires Enabled(s, a) && Strands(cfg, s, a)
    requires ScannerOk(s.db, s.uploaded, s.answers, s.scanners[a.scanner])
    ensures var next := Next(cfg, s, a); !NoScanStranded(next.db, next.scanners)
  {
    var next, h := Next(cfg, s, a), a.scanner;
    ReleaseLeaves(cfg, s.db, s.scanners[h].pc.claim);
    forall job
      ensures !ScanWaiting(next.db, next.scanners, job, s.scanners[h].doc)
    {
      if job == s.scanners[h].job {
        OwnComesBack(s, h, next.scanners[h], next.db);
      } else {
        AnotherWaited(s, h, next.scanners[h], next.db, job, s.scanners[h].doc);
      }
    }
    assert HasStatus(next.db, s.scanners[h].doc, PENDING_SCAN);
  }

  /** A step leaves every waiting document its job exactly when it is not such a release. */
  lemma StrandedExactly(cfg: Config, s: State, a: Act)
    requires ValidConfig(cfg) && Reachable(cfg, s) && NoScanStranded(s.db, s.scanners) && Enabled(s, a)
    ensures var next := Next(cfg, s, a); NoScanStranded(next.db, next.scanners) <==> !Strands(cfg, s, a)
  {
    ReachableOk(cfg, s);
    if Strands(cfg, s, a) {
      StrandsOne(cfg, s, a);
    } else {
      StepStrandsNone(cfg, s, a);
    }
  }

  // ----- Runs that deliver no job twice at once -----

  /** A job is not delivered while a handler of it is in flight. */
  predicate NotAgain(s: State, a: Act) {
    a.DeliverScan? ==> forall h :: h in s.scanners ==> s.scanners[h].job != a.job
  }

  /** Handlers of different jobs, each of which is still there. */
  predicate OnePerJob(db: Db, scanners: map<nat, Scanner>) {
    && (forall h, k :: h in scanners && k in scanners && h != k ==> scanners[h].job != scanners[k].job)
    && (forall h :: h in scanners ==> IsScanJob(db, scanners[h].job, scanners[h].doc))
  }

  lemma OnePerJobStrandsNone(cfg: Config, s: State, a: Act)
    requires OnePerJob(s.db, s.scanners)
    ensures !Strands(cfg, s, a)
  {
  }

  lemma CommitAllKeepsJobs(cfg: Config, s: State, txs: seq<Tx>)
    requires ValidConfig(cfg) && Inv(cfg, s) && forall i :: 0 <= i < |txs| ==> FromOutside(txs[i])
    ensures forall job, d :: IsScanJob(s.db, job, d) ==> IsScanJob(CommitAll(cfg, s.db, txs), job, d)
    decreases |txs|
  {
    if txs != [] {
      OutsideKeeps(cfg, s, txs[0]);
      CommitExtends(cfg, s.ocrOn, s.db, txs[0]);
      CommitAllKeepsJobs(cfg, s.(db := Commit(cfg, s.db, txs[0])), txs[1..]);
    }
  }

  lemma HandlersKeepJobs(db: Db, scanners: map<nat, Scanner>, next: Db, scanners': map<nat, Scanner>)
    requires OnePerJob(db, scanners) && scanners'.Keys <= scanners.Keys
    requires forall h :: h in scanners' ==> scanners'[h].job == scanners[h].job && scanners'[h].doc == scanners[h].doc
    requires forall h, d :: h in scanners' && IsScanJob(db, scanners[h].job, d) ==> IsScanJob(next, scanners[h].job, d)
    ensures OnePerJob(next, scanners')
  {
  }

  lemma SweepKeepsOnePerJob(cfg: Config, s: State, a: Act, next: Db)
    requires ValidConfig(cfg) && Inv(cfg, s) && OnePerJob(s.db, s.scanners) && (a.Sweep? || a.OcrSweep?)
    requires next == Next(cfg, s, a).db
    ensures OnePerJob(next, s.scanners)
  {
    CommitAllKeepsJobs(cfg, s, if a.Sweep? then FailAll(a.docs) + RequeueAll(a.docs) else OcrSweepAll(a.docs));
  }

  lemma ExtensionKeepsOnePerJob(db: Db, next: Db, scanners: map<nat, Scanner>)
    requires OnePerJob(db, scanners) && Extends(db, next)
    ensures OnePerJob(next, scanners)
  {
  }

  lemma ReprocessKeepsOnePerJob(cfg: Config, s: State, a: Act, next: Db)
    requires Inv(cfg, s) && OnePerJob(s.db, s.scanners) && (a.Reprocess? || a.OcrReprocess?)
    requires next == Next(cfg, s, a).db
    ensures OnePerJob(next, s.scanners)
  {
    CommitExtends(cfg, s.ocrOn, s.db, if a.Reprocess? then ReprocessScan(a.doc) else ReprocessOcr(a.doc));
    ExtensionKeepsOnePerJob(s.db, next, s.scanners);
  }

  lemma ScanStepKeepsOnePerJob(cfg: Config, s: State, h: nat, o: Outcome, answer: Answer, pdfEnabled: bool)
    requires Inv(cfg, s) && OnePerJob(s.db, s.scanners) && h in s.scanners
    ensures var next := ScanStepped(cfg, s, h, o, answer, pdfEnabled); OnePerJob(next.db, next.scanners)
  {
    var next := ScanStepped(cfg, s, h, o, answer, pdfEnabled);
    CommitIfExtends(cfg, s.ocrOn, s.db, ScanTx(cfg, s.scanners[h], if s.ocrOn then Some(pdfEnabled) else None), o);
    ExtensionKeepsOnePerJob(s.db, next.db, s.scanners);
    HandlersKeepJobs(next.db, s.scanners, next.db, next.scanners);
  }

  lemma OcrStepKeepsOnePerJob(cfg: Config, s: State, h: nat, o: Outcome, answer: OcrAnswer)
    requires Inv(cfg, s) && OnePerJob(s.db, s.scanners) && h in s.readers
    ensures OnePerJob(OcrStepped(cfg, s, h, o, answer).db, s.scanners)
  {
    CommitIfExtends(cfg, s.ocrOn, s.db, OcrTx(cfg, s.readers[h]), o);
    ExtensionKeepsOnePerJob(s.db, OcrStepped(cfg, s, h, o, answer).db, s.scanners);
  }

  lemma OcrEndKeepsOnePerJob(cfg: Config, s: State, h: nat)
    requires ReadersOk(cfg, s) && OnePerJob(s.db, s.scanners) && h in s.readers
    ensures OnePerJob(DropJob(s.db, s.readers[h].job), s.scanners)
  {
    assert ReaderOk(cfg, s.db, s.uploaded, s.answers, s.readers[h]);
  }

  lemma QuietKeepsOnePerJob(cfg: Config, s: State, a: Act)
    requires OnePerJob(s.db, s.scanners) && Enabled(s, a) && NotAgain(s, a) && JobsOk(s.db)
    requires a.DeliverScan? || a.ScanEnd? || a.ScanCrash? || a.DeliverOcr? || a.OcrCrash? || a.Activate?
             || a.RemoveOriginal? || a.Tick? || a.Upload?
    ensures OnePerJob(Next(cfg, s, a).db, Next(cfg, s, a).scanners)
  {
  }

  lemma StepKeepsOnePerJob(cfg: Config, s: State, a: Act)
    requires ValidConfig(cfg) && Inv(cfg, s) && OnePerJob(s.db, s.scanners) && Enabled(s, a) && NotAgain(s, a)
    ensures OnePerJob(Next(cfg, s, a).db, Next(cfg, s, a).scanners)
  {
    match a
    case ScanStep(h, o, answer, pdfEnabled) => ScanStepKeepsOnePerJob(cfg, s, h, o, answer, pdfEnabled);
    case OcrStep(h, o, answer) => OcrStepKeepsOnePerJob(cfg, s, h, o, answer);
    case OcrEnd(h) => OcrEndKeepsOnePerJob(cfg, s, h);
    case Sweep(_) => SweepKeepsOnePerJob(cfg, s, a, Next(cfg, s, a).db);
    case OcrSweep(_) => SweepKeepsOnePerJob(cfg, s, a, Next(cfg, s, a).db);
    case Reprocess(_) => ReprocessKeepsOnePerJob(cfg, s, a, Next(cfg, s, a).db);
    case OcrReprocess(_) => ReprocessKeepsOnePerJob(cfg, s, a, Next(cfg, s, a).db);
    case _ => QuietKeepsOnePerJob(cfg, s, a);
  }

  /** No job of the run is delivered again while a handler of it is in flight. */
  predicate NeverAgain(cfg: Config, s: State, run: seq<Act>)
    requires CanRun(cfg, s, run)
    decreases |run|
  {
    run == [] || (NotAgain(s, run[0]) && NeverAgain(cfg, Next(cfg, s, run[0]), run[1..]))
  }

  lemma {:induction false} RunStrandsNone(cfg: Config, s: State, run: seq<Act>)
    requires ValidConfig(cfg) && Inv(cfg, s) && NoScanStranded(s.db, s.scanners) && OnePerJob(s.db, s.scanners)
    requires CanRun(cfg, s, run) && NeverAgain(cfg, s, run)
    ensures NoScanStranded(Run(cfg, s, run).db, Run(cfg, s, run).scanners)
    decreases |run|
  {
    if run != [] {
      StepKeeps(cfg, s, run[0]);
      OnePerJobStrandsNone(cfg, s, run[0]);
      StepStrandsNone(cfg, s, run[0]);
      StepKeepsOnePerJob(cfg, s, run[0]);
      RunStrandsNone(cfg, Next(cfg, s, run[0]), run[1..]);
    }
  }

  /** A document waiting for its treatment has a job that will do it, unless some job was delivered twice at once. */
  lemma WaitingScanHasJob(cfg: Config, now: Time, run: seq<Act>, d: DocId)
    requires ValidConfig(cfg) && CanRun(cfg, Initial(now), run) && NeverAgain(cfg, Initial(now), run)
    ensures var s := Run(cfg, Initial(now), run);
            HasStatus(s.db, d, PENDING_SCAN) ==> exists job :: ScanWaiting(s.db, s.scanners, job, d)
  {
    InitialOk(cfg, now);
    RunStrandsNone(cfg, Initial(now), run);
  }
}
