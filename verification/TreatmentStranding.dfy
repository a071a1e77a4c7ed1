/**
 A run that strands a document: its job is delivered again while its handler is treating it, the second
 handler finds nothing to do and finishes, the job goes away, and then the first gives its claim back.
 No sweep looks at a waiting document, so nothing treats it any more.
 */
module TreatmentStranding {
  import opened Wrappers
  import opened Bytes
  import opened FileType
  import opened TreatmentDb
  import opened TreatmentRows
  import opened TreatmentLedger
  import opened TreatmentMachine
  import opened TreatmentInvariants
  import opened TreatmentReachable
  import opened TreatmentScanJobs
  import opened TreatmentAlone

  // ----- Stranded for good -----

  /** Waiting, with no job and no handler of the document. */
  predicate Stranded(s: State, d: DocId) {
    && HasStatus(s.db, d, PENDING_SCAN)
    && (forall job :: job in s.db.jobs ==> !IsScanJob(s.db, job, d))
    && (forall h :: h in s.scanners ==> s.scanners[h].doc != d)
  }

  predicate NoScanJob(db: Db, d: DocId) {
    HasStatus(db, d, PENDING_SCAN) && forall job :: job in db.jobs ==> !IsScanJob(db, job, d)
  }

  /** Only a claim moves a waiting document. */
  lemma OnlyAClaimMoves(cfg: Config, ocrOn: bool, db: Db, tx: Tx, d: DocId)
    requires NoScanJob(db, d) && RowOk(cfg, ocrOn, db.now, db.rows[d]) && tx != ClaimScan(d)
    ensures NoScanJob(Commit(cfg, db, tx), d)
  {
  }

  lemma {:induction false} SweepsDoNotHelp(cfg: Config, s: State, txs: seq<Tx>, d: DocId)
    requires ValidConfig(cfg) && Inv(cfg, s) && NoScanJob(s.db, d)
    requires forall i :: 0 <= i < |txs| ==> FromOutside(txs[i])
    ensures NoScanJob(CommitAll(cfg, s.db, txs), d)
    decreases |txs|
  {
    if txs != [] {
      assert RowOk(cfg, s.ocrOn, s.db.now, s.db.rows[d]);
      OnlyAClaimMoves(cfg, s.ocrOn, s.db, txs[0], d);
      OutsideKeeps(cfg, s, txs[0]);
      SweepsDoNotHelp(cfg, s.(db := Commit(cfg, s.db, txs[0])), txs[1..], d);
    }
  }

  lemma ScanStepDoesNotHelp(cfg: Config, s: State, h: nat, ocr: OcrActivation, o: Outcome, d: DocId)
    requires NoScanJob(s.db, d) && RowOk(cfg, s.ocrOn, s.db.now, s.db.rows[d])
    requires h in s.scanners && s.scanners[h].doc != d
    ensures NoScanJob(CommitIf(cfg, s.db, ScanTx(cfg, s.scanners[h], ocr), o), d)
  {
    var tx := ScanTx(cfg, s.scanners[h], ocr);
    if tx.Some? {
      OnlyAClaimMoves(cfg, s.ocrOn, s.db, tx.value, d);
    }
  }

  lemma OcrStepDoesNotHelp(cfg: Config, s: State, h: nat, o: Outcome, d: DocId)
    requires NoScanJob(s.db, d) && RowOk(cfg, s.ocrOn, s.db.now, s.db.rows[d]) && h in s.readers
    ensures NoScanJob(CommitIf(cfg, s.db, OcrTx(cfg, s.readers[h]), o), d)
  {
    var tx := OcrTx(cfg, s.readers[h]);
    if tx.Some? {
      OnlyAClaimMoves(cfg, s.ocrOn, s.db, tx.value, d);
    }
  }

  lemma QuietDoesNotHelp(cfg: Config, s: State, a: Act, d: DocId)
    requires Stranded(s, d) && Enabled(s, a)
    requires a.DeliverScan? || a.ScanEnd? || a.ScanCrash? || a.DeliverOcr? || a.OcrEnd? || a.OcrCrash?
             || a.Activate? || a.Upload? || a.RemoveOriginal? || a.Tick?
    ensures NoScanJob(Next(cfg, s, a).db, d)
  {
  }

  lemma NobodyStarts(cfg: Config, s: State, a: Act, d: DocId)
    requires Stranded(s, d) && Enabled(s, a)
    ensures forall h :: h in Next(cfg, s, a).scanners ==> Next(cfg, s, a).scanners[h].doc != d
  {
  }

  lemma SweepDoesNotHelp(cfg: Config, s: State, a: Act, d: DocId, next: Db)
    requires ValidConfig(cfg) && Inv(cfg, s) && NoScanJob(s.db, d) && (a.Sweep? || a.OcrSweep?)
    requires next == Next(cfg, s, a).db
    ensures NoScanJob(next, d)
  {
    SweepsDoNotHelp(cfg, s, if a.Sweep? then FailAll(a.docs) + RequeueAll(a.docs) else OcrSweepAll(a.docs), d);
  }

  lemma ReprocessDoesNotHelp(cfg: Config, s: State, a: Act, d: DocId, next: Db)
    requires NoScanJob(s.db, d) && RowOk(cfg, s.ocrOn, s.db.now, s.db.rows[d]) && (a.Reprocess? || a.OcrReprocess?)
    requires next == Next(cfg, s, a).db
    ensures NoScanJob(next, d)
  {
    OnlyAClaimMoves(cfg, s.ocrOn, s.db, if a.Reprocess? then ReprocessScan(a.doc) else ReprocessOcr(a.doc), d);
  }

  lemma StepDoesNotHelp(cfg: Config, s: State, a: Act, d: DocId)
    requires ValidConfig(cfg) && Inv(cfg, s) && Stranded(s, d) && Enabled(s, a)
    ensures Stranded(Next(cfg, s, a), d)
  {
    NobodyStarts(cfg, s, a, d);
    assert RowOk(cfg, s.ocrOn, s.db.now, s.db.rows[d]);
    if a.ScanStep? {
      ScanStepDoesNotHelp(cfg, s, a.scanner, if s.ocrOn then Some(a.pdfEnabled) else None, a.outcome, d);
    } else if a.OcrStep? {
      OcrStepDoesNotHelp(cfg, s, a.reader, a.outcome, d);
    } else if a.Sweep? || a.OcrSweep? {
      SweepDoesNotHelp(cfg, s, a, d, Next(cfg, s, a).db);
    } else if a.Reprocess? || a.OcrReprocess? {
      ReprocessDoesNotHelp(cfg, s, a, d, Next(cfg, s, a).db);
    } else {
      QuietDoesNotHelp(cfg, s, a, d);
    }
  }

  /** Whatever happens next, sweeps and reprocessings included, the document goes on waiting. */
  lemma {:induction false} StrandedForever(cfg: Config, s: State, run: seq<Act>, d: DocId)
    requires ValidConfig(cfg) && Inv(cfg, s) && Stranded(s, d) && CanRun(cfg, s, run)
    ensures Stranded(Run(cfg, s, run), d)
    decreases |run|
  {
    if run != [] {
      StepDoesNotHelp(cfg, s, run[0], d);
      StepKeeps(cfg, s, run[0]);
      StrandedForever(cfg, Next(cfg, s, run[0]), run[1..], d);
    }
  }

  // ----- The run -----

  /** The same job again, to a handler that finds its document taken: it finishes, and the job is gone. */
  lemma DeliveredAgain(cfg: Config, s: State, row: Row, content: Buffer) returns (next: State)
    requires Reachable(cfg, s) && Alone(s, 0, row, content) && FirstJob(s) && s.nextHandler !in s.scanners
    requires row.status == SCANNING && row.scanStartedAt == Some(0)
    ensures Reachable(cfg, next) && Alone(next, 0, row, content)
    ensures next.db.jobs == map[] && next.scanners == s.scanners
  {
    var h := s.nextHandler;
    var s1 := DeliveredTo(cfg, s, 0, row, content);
    Then(cfg, s1, Step(h, Done));
    var s2 := Next(cfg, s1, Step(h, Done));
    Then(cfg, s2, ScanEnd(h));
    next := Next(cfg, s2, ScanEnd(h));
  }

  /** For every document and more than one attempt, a reachable state in which it waits for ever. */
  lemma DeliveredTwiceStrands(cfg: Config, fileType: FileType, key: Key, content: Buffer) returns (s: State)
    requires ValidConfig(cfg) && cfg.maxAttempts >= 2
    requires |key| == KEY_LENGTH && DetectFileType(content) == Some(fileType)
    ensures Reachable(cfg, s) && Stranded(s, 0) && s.db.jobs == map[] && s.scanners == map[]
    ensures forall run :: CanRun(cfg, s, run) ==> HasStatus(Run(cfg, s, run).db, 0, PENDING_SCAN)
  {
    var waiting := WaitingRow(fileType, key, content, 0);
    var row, c := ClaimedRow(waiting, 0), ClaimOf(waiting, 0);
    var s1, h := ClaimedAgain(cfg, fileType, key, content, 0);
    var s2 := DeliveredAgain(cfg, s1, row, content);
    s := Dropped(cfg, s2, h, c, row, content);
    ReachableOk(cfg, s);
    forall run | CanRun(cfg, s, run)
      ensures HasStatus(Run(cfg, s, run).db, 0, PENDING_SCAN)
    {
      StrandedForever(cfg, s, run, 0);
    }
  }
}
