/**
 What one state says about every later one: final states are final, tables are only appended to, and
 a claim that has been overtaken stays overtaken.
 */
module TreatmentHistory {
  import opened Wrappers
  import opened TreatmentDb
  import opened TreatmentRows
  import opened TreatmentLedger
  import opened TreatmentFencing
  import opened TreatmentMachine
  import opened TreatmentInvariants
  import opened TreatmentReachable

  /** A claim found in a later row was already there, or was written since. */
  predicate SinceOrSame(started: Option<Time>, next: Option<Time>, same: bool, now: Time) {
    (same && next == started) || (next.Some? && next.value >= now)
  }

  predicate RowLater(row: Row, next: Row, now: Time) {
    && Continues(row, next)
    && (next.status == SCANNING ==>
          SinceOrSame(row.scanStartedAt, next.scanStartedAt, row.status == SCANNING, now))
    && (next.ocrStatus == PROCESSING ==>
          SinceOrSame(row.ocrStartedAt, next.ocrStartedAt, row.ocrStatus == PROCESSING, now))
  }

  predicate Later(db: Db, next: Db) {
    && db.now <= next.now
    && (forall d :: d in db.rows ==> d in next.rows && RowLater(db.rows[d], next.rows[d], db.now))
    && db.audit <= next.audit
    && db.results <= next.results
    && (forall k :: k in db.pages ==> k in next.pages && next.pages[k] == db.pages[k])
  }

  lemma LaterTransitive(a: Db, b: Db, c: Db)
    requires Later(a, b) && Later(b, c)
    ensures Later(a, c)
  {
    forall d | d in a.rows
      ensures d in c.rows && RowLater(a.rows[d], c.rows[d], a.now)
    {
      assert RowLater(a.rows[d], b.rows[d], a.now) && RowLater(b.rows[d], c.rows[d], b.now);
    }
  }

  lemma RowIsLater(cfg: Config, ocrOn: bool, now: Time, row: Row, tx: Tx)
    requires RowOk(cfg, ocrOn, now, row) && Matches(cfg, row, now, tx)
    ensures RowLater(row, NewRow(cfg, row, now, tx), now)
  {
  }

  lemma WriteIsLater(db: Db, w: Writes)
    requires PagesOk(db) && (w.doc in db.rows ==> RowLater(db.rows[w.doc], w.row, db.now))
    ensures Later(db, Write(db, w))
  {
    forall k | k in db.pages
      ensures k in Write(db, w).pages && Write(db, w).pages[k] == db.pages[k]
    {
      assert (k.0, k.1) in db.pages;
      if w.result.Some? {
        PageKeys(|db.results|, w.result.value.texts, k.0, k.1);
      }
    }
  }

  lemma CommitIsLater(cfg: Config, ocrOn: bool, db: Db, tx: Tx)
    requires DbOk(cfg, ocrOn, db)
    ensures Later(db, Commit(cfg, db, tx))
  {
    if Hits(cfg, db, tx) {
      RowIsLater(cfg, ocrOn, db.now, db.rows[DocOf(tx)], tx);
      WriteIsLater(db, WritesOf(cfg, db, tx));
    }
  }

  lemma CommitIfIsLater(cfg: Config, ocrOn: bool, db: Db, tx: Option<Tx>, o: Outcome)
    requires DbOk(cfg, ocrOn, db)
    ensures Later(db, CommitIf(cfg, db, tx, o))
  {
    if tx.Some? && Happened(o) {
      CommitIsLater(cfg, ocrOn, db, tx.value);
    }
  }

  lemma {:induction false} CommitAllIsLater(cfg: Config, s: State, txs: seq<Tx>)
    requires ValidConfig(cfg) && Inv(cfg, s) && forall i :: 0 <= i < |txs| ==> FromOutside(txs[i])
    ensures Later(s.db, CommitAll(cfg, s.db, txs))
    decreases |txs|
  {
    if txs != [] {
      var next := s.(db := Commit(cfg, s.db, txs[0]));
      OutsideKeeps(cfg, s, txs[0]);
      CommitIsLater(cfg, s.ocrOn, s.db, txs[0]);
      CommitAllIsLater(cfg, next, txs[1..]);
      LaterTransitive(s.db, next.db, CommitAll(cfg, s.db, txs));
    }
  }

  lemma QuietIsLater(db: Db, next: Db)
    requires next.rows == db.rows && next.audit == db.audit && next.results == db.results && next.pages == db.pages
    requires db.now <= next.now
    ensures Later(db, next)
  {
  }

  lemma ActivationIsLater(db: Db)
    ensures Later(db, Activated(db))
  {
  }

  lemma StepIsLater(cfg: Config, s: State, a: Act)
    requires ValidConfig(cfg) && Inv(cfg, s) && Enabled(s, a)
    ensures Later(s.db, Next(cfg, s, a).db)
  {
    match a
    case ScanStep(h, o, _, pdfEnabled) =>
      CommitIfIsLater(cfg, s.ocrOn, s.db, ScanTx(cfg, s.scanners[h], if s.ocrOn then Some(pdfEnabled) else None), o);
    case OcrStep(h, o, _) => CommitIfIsLater(cfg, s.ocrOn, s.db, OcrTx(cfg, s.readers[h]), o);
    case Sweep(docs) => CommitAllIsLater(cfg, s, FailAll(docs) + RequeueAll(docs));
    case OcrSweep(docs) => CommitAllIsLater(cfg, s, OcrSweepAll(docs));
    case Reprocess(d) => CommitIsLater(cfg, s.ocrOn, s.db, ReprocessScan(d));
    case OcrReprocess(d) => CommitIsLater(cfg, s.ocrOn, s.db, ReprocessOcr(d));
    case Upload(_, _, _, _, _) =>
      var w := UploadWrites(cfg, s, a);
      WriteIsLater(s.db, w);
    case Activate => ActivationIsLater(s.db);
    case _ => QuietIsLater(s.db, Next(cfg, s, a).db);
  }

  /** Every state of a run is later than the one it started from. */
  lemma {:induction false} RunIsLater(cfg: Config, s: State, run: seq<Act>)
    requires ValidConfig(cfg) && Inv(cfg, s) && CanRun(cfg, s, run)
    ensures Later(s.db, Run(cfg, s, run).db)
    decreases |run|
  {
    if run != [] {
      var next := Next(cfg, s, run[0]);
      StepKeeps(cfg, s, run[0]);
      StepIsLater(cfg, s, run[0]);
      RunIsLater(cfg, next, run[1..]);
      LaterTransitive(s.db, next.db, Run(cfg, s, run).db);
    }
  }

  // ----- Fencing over every run -----

  /** Two handlers in flight never both hold the claim of a document, for either state machine. */
  lemma AtMostOneCurrent(cfg: Config, s: State, h: nat, k: nat)
    requires ValidConfig(cfg) && Reachable(cfg, s) && h != k
    ensures h in s.scanners && k in s.scanners ==> !BothHold(s.db, s.scanners[h].pc, s.scanners[k].pc)
    ensures h in s.readers && k in s.readers ==> !OcrBothHold(s.db, s.readers[h].pc, s.readers[k].pc)
  {
    ReachableOk(cfg, s);
  }

  lemma OvertakenLater(db: Db, next: Db, c: ScanClaim)
    requires Later(db, next) && ScanOvertaken(db, c)
    ensures ScanOvertaken(next, c)
  {
    assert RowLater(db.rows[c.doc], next.rows[c.doc], db.now);
  }

  lemma OcrOvertakenLater(db: Db, next: Db, c: OcrClaim)
    requires Later(db, next) && OcrOvertaken(db, c) && c.doc in db.rows
    ensures OcrOvertaken(next, c)
  {
    assert RowLater(db.rows[c.doc], next.rows[c.doc], db.now);
  }

  lemma OvertakenWritesNothing(cfg: Config, s: State, h: nat, o: Outcome, answer: Answer, pdfEnabled: bool)
    requires h in s.scanners && ClaimIn(s.scanners[h].pc).Some? && !HoldsIn(s.db, s.scanners[h].pc)
    ensures ScanStepped(cfg, s, h, o, answer, pdfEnabled).db == s.db
  {
  }

  lemma OcrOvertakenWritesNothing(cfg: Config, s: State, h: nat, o: Outcome, answer: OcrAnswer)
    requires h in s.readers && OcrClaimIn(s.readers[h].pc).Some? && !OcrHoldsIn(s.db, s.readers[h].pc)
    ensures OcrStepped(cfg, s, h, o, answer).db == s.db
  {
  }

  /** A handler whose claim is no longer its row's never changes the database with it again. */
  lemma OvertakenForever(cfg: Config, s: State, h: nat, run: seq<Act>, o: Outcome, answer: Answer, pdfEnabled: bool)
    requires ValidConfig(cfg) && Reachable(cfg, s) && h in s.scanners
    requires ClaimIn(s.scanners[h].pc).Some? && !HoldsIn(s.db, s.scanners[h].pc)
    requires CanRun(cfg, s, run)
    requires var later := Run(cfg, s, run);
             h in later.scanners && ClaimIn(later.scanners[h].pc) == ClaimIn(s.scanners[h].pc)
    ensures var later := Run(cfg, s, run);
            !HoldsIn(later.db, later.scanners[h].pc) && ScanStepped(cfg, later, h, o, answer, pdfEnabled).db == later.db
  {
    ReachableOk(cfg, s);
    RunIsLater(cfg, s, run);
    assert ScannerOk(s.db, s.uploaded, s.answers, s.scanners[h]);
    OvertakenLater(s.db, Run(cfg, s, run).db, ClaimIn(s.scanners[h].pc).value);
    OvertakenWritesNothing(cfg, Run(cfg, s, run), h, o, answer, pdfEnabled);
  }

  lemma OcrOvertakenForever(cfg: Config, s: State, h: nat, run: seq<Act>, o: Outcome, answer: OcrAnswer)
    requires ValidConfig(cfg) && Reachable(cfg, s) && h in s.readers
    requires OcrClaimIn(s.readers[h].pc).Some? && !OcrHoldsIn(s.db, s.readers[h].pc)
    requires CanRun(cfg, s, run)
    requires var later := Run(cfg, s, run);
             h in later.readers && OcrClaimIn(later.readers[h].pc) == OcrClaimIn(s.readers[h].pc)
    ensures var later := Run(cfg, s, run);
            !OcrHoldsIn(later.db, later.readers[h].pc) && OcrStepped(cfg, later, h, o, answer).db == later.db
  {
    ReachableOk(cfg, s);
    RunIsLater(cfg, s, run);
    assert ReaderOk(cfg, s.db, s.uploaded, s.answers, s.readers[h]);
    OcrOvertakenLater(s.db, Run(cfg, s, run).db, OcrClaimIn(s.readers[h].pc).value);
    OcrOvertakenWritesNothing(cfg, Run(cfg, s, run), h, o, answer);
  }

  /** CLEAN and INFECTED are final, and so is what an OCR completed; the audit log only grows. */
  lemma FinalStates(cfg: Config, s: State, run: seq<Act>, d: DocId)
    requires ValidConfig(cfg) && Reachable(cfg, s) && CanRun(cfg, s, run) && d in s.db.rows
    ensures var later := Run(cfg, s, run).db;
            d in later.rows && Continues(s.db.rows[d], later.rows[d]) && s.db.audit <= later.audit
  {
    ReachableOk(cfg, s);
    RunIsLater(cfg, s, run);
    assert RowLater(s.db.rows[d], Run(cfg, s, run).db.rows[d], s.db.now);
  }
}
