/**
 Bounded retries: within one round, that is until an ADMIN asks for a reprocessing, a document goes
 back to waiting at most maxAttempts - 1 times, whoever sends it back.
 */
module TreatmentRetries {
  import opened Wrappers
  import opened Arithmetic
  import opened TreatmentDb
  import opened TreatmentRows
  import opened TreatmentMachine
  import opened TreatmentInvariants
  import opened TreatmentReachable

  /** Attempts that are over: a started one counts once its row has left SCANNING or been taken over. */
  function Spent(row: Row): int {
    row.scanAttempts - Bit(row.status == SCANNING)
  }

  function OcrSpent(row: Row): int {
    row.ocrAttempts - Bit(row.ocrStatus == PROCESSING)
  }

  predicate SentBack(row: Row, next: Row) {
    row.status == SCANNING && next.status == PENDING_SCAN
  }

  predicate OcrSentBack(row: Row, next: Row) {
    row.ocrStatus == PROCESSING && next.ocrStatus == PENDING
  }

  predicate Open(status: DocStatus) {
    status == UPLOADED || status == PENDING_SCAN || status == SCANNING
  }

  predicate OcrOpen(status: OcrStatus) {
    status == NOT_STARTED || status == PENDING || status == PROCESSING
  }

  /** Within a round, being sent back uses up an attempt, nothing gives one back, and an end is an end. */
  predicate SameRound(row: Row, next: Row) {
    && Spent(next) >= Spent(row) + Bit(SentBack(row, next))
    && (!Open(row.status) ==> next.status == row.status)
    && (row.status != UPLOADED ==> next.status != UPLOADED)
  }

  predicate SameOcrRound(row: Row, next: Row) {
    && OcrSpent(next) >= OcrSpent(row) + Bit(OcrSentBack(row, next))
    && (!OcrOpen(row.ocrStatus) ==> next.ocrStatus == row.ocrStatus)
    && (row.ocrStatus != NOT_STARTED ==> next.ocrStatus != NOT_STARTED)
  }

  lemma TxSameRound(cfg: Config, ocrOn: bool, now: Time, row: Row, tx: Tx)
    requires RowOk(cfg, ocrOn, now, row) && Matches(cfg, row, now, tx)
    ensures !tx.ReprocessScan? ==> SameRound(row, NewRow(cfg, row, now, tx))
    ensures !tx.ReprocessOcr? ==> SameOcrRound(row, NewRow(cfg, row, now, tx))
  {
  }

  lemma CommitSameRound(cfg: Config, ocrOn: bool, db: Db, tx: Tx, d: DocId)
    requires d in db.rows && RowOk(cfg, ocrOn, db.now, db.rows[d])
    ensures d in Commit(cfg, db, tx).rows
    ensures tx != ReprocessScan(d) ==> SameRound(db.rows[d], Commit(cfg, db, tx).rows[d])
    ensures tx != ReprocessOcr(d) ==> SameOcrRound(db.rows[d], Commit(cfg, db, tx).rows[d])
  {
    if DocOf(tx) == d && Hits(cfg, db, tx) {
      TxSameRound(cfg, ocrOn, db.now, db.rows[d], tx);
    }
  }

  predicate BySweep(tx: Tx) {
    tx.SweepFail? || tx.SweepRequeue? || tx.SweepOcr?
  }

  lemma RoundsJoin(a: Row, b: Row, c: Row)
    ensures SameRound(a, b) && SameRound(b, c) ==> SameRound(a, c)
    ensures SameOcrRound(a, b) && SameOcrRound(b, c) ==> SameOcrRound(a, c)
  {
  }

  lemma {:induction false} SweepSameRound(cfg: Config, s: State, txs: seq<Tx>, d: DocId)
    requires ValidConfig(cfg) && Inv(cfg, s) && d in s.db.rows
    requires forall i :: 0 <= i < |txs| ==> BySweep(txs[i])
    ensures var next := CommitAll(cfg, s.db, txs);
            && d in next.rows && SameRound(s.db.rows[d], next.rows[d]) && SameOcrRound(s.db.rows[d], next.rows[d])
    decreases |txs|
  {
    if txs != [] {
      var next := s.(db := Commit(cfg, s.db, txs[0]));
      OutsideKeeps(cfg, s, txs[0]);
      CommitSameRound(cfg, s.ocrOn, s.db, txs[0], d);
      SweepSameRound(cfg, next, txs[1..], d);
      RoundsJoin(s.db.rows[d], next.db.rows[d], CommitAll(cfg, s.db, txs).rows[d]);
    }
  }

  lemma HandlerSameRound(cfg: Config, ocrOn: bool, db: Db, tx: Option<Tx>, o: Outcome, d: DocId)
    requires d in db.rows && RowOk(cfg, ocrOn, db.now, db.rows[d])
    requires tx.Some? ==> !tx.value.ReprocessScan? && !tx.value.ReprocessOcr?
    ensures var next := CommitIf(cfg, db, tx, o);
            && d in next.rows && SameRound(db.rows[d], next.rows[d]) && SameOcrRound(db.rows[d], next.rows[d])
  {
    if tx.Some? {
      CommitSameRound(cfg, ocrOn, db, tx.value, d);
    }
  }

  predicate IsHandlerStep(a: Act) {
    a.ScanStep? || a.OcrStep?
  }

  lemma HandlerStepSameRound(cfg: Config, s: State, a: Act, d: DocId)
    requires Enabled(s, a) && IsHandlerStep(a) && d in s.db.rows && RowOk(cfg, s.ocrOn, s.db.now, s.db.rows[d])
    ensures var next := Next(cfg, s, a).db;
            && d in next.rows && SameRound(s.db.rows[d], next.rows[d]) && SameOcrRound(s.db.rows[d], next.rows[d])
  {
    match a
    case ScanStep(h, o, _, pdfEnabled) =>
      var ocr := if s.ocrOn then Some(pdfEnabled) else None;
      HandlerSameRound(cfg, s.ocrOn, s.db, ScanTx(cfg, s.scanners[h], ocr), o, d);
    case OcrStep(h, o, _) =>
      HandlerSameRound(cfg, s.ocrOn, s.db, OcrTx(cfg, s.readers[h]), o, d);
  }

  predicate IsTransaction(a: Act) {
    a.Sweep? || a.OcrSweep? || a.Reprocess? || a.OcrReprocess?
  }

  lemma QuietSameRound(cfg: Config, s: State, a: Act, d: DocId)
    requires Enabled(s, a) && d in s.db.rows && !IsHandlerStep(a) && !IsTransaction(a)
    ensures var next := Next(cfg, s, a).db;
            && d in next.rows && SameRound(s.db.rows[d], next.rows[d]) && SameOcrRound(s.db.rows[d], next.rows[d])
  {
    assert a.Activate? || Next(cfg, s, a).db.rows[d] == s.db.rows[d];
  }

  function SweepTxs(a: Act): (txs: seq<Tx>)
    requires a.Sweep? || a.OcrSweep?
    ensures forall i :: 0 <= i < |txs| ==> BySweep(txs[i])
  {
    if a.Sweep? then FailAll(a.docs) + RequeueAll(a.docs) else OcrSweepAll(a.docs)
  }

  lemma SweepIsAll(cfg: Config, s: State, a: Act)
    requires a.Sweep? || a.OcrSweep?
    ensures Next(cfg, s, a).db == CommitAll(cfg, s.db, SweepTxs(a))
  {
  }

  lemma SweepStepSameRound(cfg: Config, s: State, a: Act, d: DocId, next: Db)
    requires ValidConfig(cfg) && Inv(cfg, s) && (a.Sweep? || a.OcrSweep?) && d in s.db.rows
    requires next == Next(cfg, s, a).db
    ensures d in next.rows && SameRound(s.db.rows[d], next.rows[d]) && SameOcrRound(s.db.rows[d], next.rows[d])
  {
    SweepIsAll(cfg, s, a);
    SweepSameRound(cfg, s, SweepTxs(a), d);
  }

  lemma ReprocessSameRound(cfg: Config, s: State, a: Act, d: DocId, next: Db)
    requires (a.Reprocess? || a.OcrReprocess?) && d in s.db.rows && RowOk(cfg, s.ocrOn, s.db.now, s.db.rows[d])
    requires next == Next(cfg, s, a).db
    ensures d in next.rows
    ensures a != Reprocess(d) ==> SameRound(s.db.rows[d], next.rows[d])
    ensures a != OcrReprocess(d) ==> SameOcrRound(s.db.rows[d], next.rows[d])
  {
    CommitSameRound(cfg, s.ocrOn, s.db, if a.Reprocess? then ReprocessScan(a.doc) else ReprocessOcr(a.doc), d);
  }

  lemma StepSameRound(cfg: Config, s: State, a: Act, d: DocId)
    requires ValidConfig(cfg) && Inv(cfg, s) && Enabled(s, a) && d in s.db.rows
    ensures d in Next(cfg, s, a).db.rows
    ensures a != Reprocess(d) ==> SameRound(s.db.rows[d], Next(cfg, s, a).db.rows[d])
    ensures a != OcrReprocess(d) ==> SameOcrRound(s.db.rows[d], Next(cfg, s, a).db.rows[d])
  {
    var next := Next(cfg, s, a).db;
    if IsHandlerStep(a) {
      HandlerStepSameRound(cfg, s, a, d);
    } else if a.Sweep? || a.OcrSweep? {
      SweepStepSameRound(cfg, s, a, d, next);
    } else if a.Reprocess? || a.OcrReprocess? {
      ReprocessSameRound(cfg, s, a, d, next);
    } else {
      QuietSameRound(cfg, s, a, d);
    }
  }

  /** How many actions of a run sent the document back from a claim to waiting. */
  function Returns(cfg: Config, s: State, run: seq<Act>, d: DocId): nat
    requires CanRun(cfg, s, run)
    decreases |run|
  {
    if run == [] then 0
    else
      var next := Next(cfg, s, run[0]);
      Returns(cfg, next, run[1..], d)
      + Bit(d in s.db.rows && d in next.db.rows && SentBack(s.db.rows[d], next.db.rows[d]))
  }

  function OcrReturns(cfg: Config, s: State, run: seq<Act>, d: DocId): nat
    requires CanRun(cfg, s, run)
    decreases |run|
  {
    if run == [] then 0
    else
      var next := Next(cfg, s, run[0]);
      OcrReturns(cfg, next, run[1..], d)
      + Bit(d in s.db.rows && d in next.db.rows && OcrSentBack(s.db.rows[d], next.db.rows[d]))
  }

  lemma {:induction false} ReturnsSpend(cfg: Config, s: State, run: seq<Act>, d: DocId)
    requires ValidConfig(cfg) && Inv(cfg, s) && CanRun(cfg, s, run) && d in s.db.rows
    requires Reprocess(d) !in run
    ensures Returns(cfg, s, run, d) + Spent(s.db.rows[d]) <= Max(Spent(s.db.rows[d]), cfg.maxAttempts - 1)
    decreases |run|
  {
    if run != [] {
      var next := Next(cfg, s, run[0]);
      StepKeeps(cfg, s, run[0]);
      StepSameRound(cfg, s, run[0], d);
      ReturnsSpend(cfg, next, run[1..], d);
      assert RowOk(cfg, next.ocrOn, next.db.now, next.db.rows[d]);
    }
  }

  lemma {:induction false} OcrReturnsSpend(cfg: Config, s: State, run: seq<Act>, d: DocId)
    requires ValidConfig(cfg) && Inv(cfg, s) && CanRun(cfg, s, run) && d in s.db.rows
    requires OcrReprocess(d) !in run
    ensures OcrReturns(cfg, s, run, d) + OcrSpent(s.db.rows[d]) <= Max(OcrSpent(s.db.rows[d]), cfg.ocrMaxAttempts - 1)
    decreases |run|
  {
    if run != [] {
      var next := Next(cfg, s, run[0]);
      StepKeeps(cfg, s, run[0]);
      StepSameRound(cfg, s, run[0], d);
      OcrReturnsSpend(cfg, next, run[1..], d);
      assert RowOk(cfg, next.ocrOn, next.db.now, next.db.rows[d]);
    }
  }

  /** From any reachable state: at most maxAttempts - 1 returns until a reprocessing, for each machine. */
  lemma BoundedRetries(cfg: Config, s: State, run: seq<Act>, d: DocId)
    requires ValidConfig(cfg) && Reachable(cfg, s) && CanRun(cfg, s, run) && d in s.db.rows
    ensures Reprocess(d) !in run ==> Returns(cfg, s, run, d) <= cfg.maxAttempts - 1
    ensures OcrReprocess(d) !in run ==> OcrReturns(cfg, s, run, d) <= cfg.ocrMaxAttempts - 1
  {
    ReachableOk(cfg, s);
    assert RowOk(cfg, s.ocrOn, s.db.now, s.db.rows[d]);
    if Reprocess(d) !in run {
      ReturnsSpend(cfg, s, run, d);
    }
    if OcrReprocess(d) !in run {
      OcrReturnsSpend(cfg, s, run, d);
    }
  }

  /** A document that waits has an attempt left, for each state machine. */
  lemma WaitingHasAttempt(cfg: Config, s: State, d: DocId)
    requires ValidConfig(cfg) && Reachable(cfg, s) && d in s.db.rows
    ensures s.db.rows[d].status == PENDING_SCAN ==> s.db.rows[d].scanAttempts < cfg.maxAttempts
    ensures s.db.rows[d].ocrStatus == PENDING ==> s.db.rows[d].ocrAttempts < cfg.ocrMaxAttempts
  {
    ReachableOk(cfg, s);
    assert RowOk(cfg, s.ocrOn, s.db.now, s.db.rows[d]);
  }

  // ----- Attempts above the maximum -----

  function Attempts(row: Row, queue: Queue): nat {
    if queue.ScanQueue? then row.scanAttempts else row.ocrAttempts
  }

  function MaxAttempts(cfg: Config, queue: Queue): nat {
    if queue.ScanQueue? then cfg.maxAttempts else cfg.ocrMaxAttempts
  }

  function ClaimIn(queue: Queue, d: DocId): Tx {
    if queue.ScanQueue? then ClaimScan(d) else ClaimOcr(d)
  }

  predicate Within(cfg: Config, db: Db, d: DocId, queue: Queue) {
    d in db.rows && Attempts(db.rows[d], queue) <= MaxAttempts(cfg, queue)
  }

  lemma OnlyAClaimCounts(cfg: Config, db: Db, tx: Tx, d: DocId, queue: Queue)
    requires Within(cfg, db, d, queue) && tx != ClaimIn(queue, d)
    ensures Within(cfg, Commit(cfg, db, tx), d, queue)
  {
  }

  lemma {:induction false} SweepsCountNothing(cfg: Config, db: Db, txs: seq<Tx>, d: DocId, queue: Queue)
    requires Within(cfg, db, d, queue) && forall i :: 0 <= i < |txs| ==> BySweep(txs[i])
    ensures Within(cfg, CommitAll(cfg, db, txs), d, queue)
    decreases |txs|
  {
    if txs != [] {
      OnlyAClaimCounts(cfg, db, txs[0], d, queue);
      SweepsCountNothing(cfg, Commit(cfg, db, txs[0]), txs[1..], d, queue);
    }
  }

  /** The action takes over an expired scan claim of the document's, which was on its last attempt. */
  predicate TakesOverLastScan(cfg: Config, s: State, a: Act, d: DocId) {
    && a.ScanStep? && a.scanner in s.scanners && Happened(a.outcome)
    && s.scanners[a.scanner].pc.Delivered? && s.scanners[a.scanner].doc == d && d in s.db.rows
    && ScanAbandoned(s.db.rows[d], cfg.lease, s.db.now) && s.db.rows[d].scanAttempts == cfg.maxAttempts
  }

  /** The same for an OCR claim. */
  predicate TakesOverLastOcr(cfg: Config, s: State, a: Act, d: DocId) {
    && a.OcrStep? && a.reader in s.readers && Happened(a.outcome)
    && s.readers[a.reader].pc.OcrDelivered? && s.readers[a.reader].doc == d && d in s.db.rows
    && s.db.rows[d].status == CLEAN && OcrAbandoned(s.db.rows[d], cfg.ocrLease, s.db.now)
    && s.db.rows[d].ocrAttempts == cfg.ocrMaxAttempts
  }

  predicate TakesOverLast(cfg: Config, s: State, a: Act, d: DocId, queue: Queue) {
    if queue.ScanQueue? then TakesOverLastScan(cfg, s, a, d) else TakesOverLastOcr(cfg, s, a, d)
  }

  lemma ScanStepCounts(cfg: Config, s: State, a: Act, ocr: OcrActivation, d: DocId, queue: Queue)
    requires Within(cfg, s.db, d, queue) && RowOk(cfg, s.ocrOn, s.db.now, s.db.rows[d])
    requires a.ScanStep? && a.scanner in s.scanners
    ensures var next := CommitIf(cfg, s.db, ScanTx(cfg, s.scanners[a.scanner], ocr), a.outcome);
            Within(cfg, next, d, queue) <==> !TakesOverLast(cfg, s, a, d, queue)
  {
    var tx := ScanTx(cfg, s.scanners[a.scanner], ocr);
    if tx.Some? && tx.value != ClaimIn(queue, d) {
      OnlyAClaimCounts(cfg, s.db, tx.value, d, queue);
    }
  }

  lemma OcrStepCounts(cfg: Config, s: State, a: Act, d: DocId, queue: Queue)
    requires Within(cfg, s.db, d, queue) && RowOk(cfg, s.ocrOn, s.db.now, s.db.rows[d])
    requires a.OcrStep? && a.reader in s.readers
    ensures var next := CommitIf(cfg, s.db, OcrTx(cfg, s.readers[a.reader]), a.outcome);
            Within(cfg, next, d, queue) <==> !TakesOverLast(cfg, s, a, d, queue)
  {
    var tx := OcrTx(cfg, s.readers[a.reader]);
    if tx.Some? && tx.value != ClaimIn(queue, d) {
      OnlyAClaimCounts(cfg, s.db, tx.value, d, queue);
    }
  }

  lemma TransactionCountsNothing(cfg: Config, s: State, a: Act, d: DocId, queue: Queue, next: Db)
    requires Within(cfg, s.db, d, queue) && IsTransaction(a) && next == Next(cfg, s, a).db
    ensures Within(cfg, next, d, queue)
  {
    match a
    case Sweep(docs) => SweepsCountNothing(cfg, s.db, FailAll(docs) + RequeueAll(docs), d, queue);
    case OcrSweep(docs) => SweepsCountNothing(cfg, s.db, OcrSweepAll(docs), d, queue);
    case Reprocess(doc) => OnlyAClaimCounts(cfg, s.db, ReprocessScan(doc), d, queue);
    case OcrReprocess(doc) => OnlyAClaimCounts(cfg, s.db, ReprocessOcr(doc), d, queue);
  }

  lemma QuietCountsNothing(cfg: Config, s: State, a: Act, d: DocId, queue: Queue)
    requires Enabled(s, a) && Within(cfg, s.db, d, queue) && !IsHandlerStep(a) && !IsTransaction(a)
    ensures Within(cfg, Next(cfg, s, a).db, d, queue)
  {
  }

  lemma StepCounts(cfg: Config, s: State, a: Act, d: DocId, queue: Queue, next: Db)
    requires Enabled(s, a) && Within(cfg, s.db, d, queue) && RowOk(cfg, s.ocrOn, s.db.now, s.db.rows[d])
    requires next == Next(cfg, s, a).db
    ensures Within(cfg, next, d, queue) <==> !TakesOverLast(cfg, s, a, d, queue)
  {
    match a
    case ScanStep(_, _, _, pdfEnabled) =>
      ScanStepCounts(cfg, s, a, if s.ocrOn then Some(pdfEnabled) else None, d, queue);
    case OcrStep(_, _, _) => OcrStepCounts(cfg, s, a, d, queue);
    case _ =>
      if IsTransaction(a) {
        TransactionCountsNothing(cfg, s, a, d, queue, next);
      } else {
        QuietCountsNothing(cfg, s, a, d, queue);
      }
  }

  /**
   A step takes a document above the maximum of attempts of either state machine exactly when it takes over
   an expired claim on the last one: a takeover does not look at the attempts. TreatmentOvertaken has runs
   that take such steps.
   */
  lemma ExceedsByTakeoverOnly(cfg: Config, s: State, a: Act, d: DocId, queue: Queue)
    requires ValidConfig(cfg) && Reachable(cfg, s) && Enabled(s, a) && Within(cfg, s.db, d, queue)
    ensures var next := Next(cfg, s, a).db.rows;
            && d in next
            && (Attempts(next[d], queue) > MaxAttempts(cfg, queue) <==> TakesOverLast(cfg, s, a, d, queue))
  {
    ReachableOk(cfg, s);
    assert RowOk(cfg, s.ocrOn, s.db.now, s.db.rows[d]);
    StepSameRound(cfg, s, a, d);
    StepCounts(cfg, s, a, d, queue, Next(cfg, s, a).db);
  }

  // ----- The delay between two retries of an OCR -----

  /** Each retry waits twice as long as the one before it, up to an hour. */
  lemma RetryDelayDoubles(cfg: Config, attempts: nat)
    requires attempts >= 1
    ensures RetryDelay(cfg, 1) == if cfg.retryDelay < 3600 then cfg.retryDelay else 3600
    ensures RetryDelay(cfg, attempts + 1) == Min(2 * RetryDelay(cfg, attempts), 3600)
    ensures RetryDelay(cfg, attempts) <= RetryDelay(cfg, attempts + 1) <= 3600
  {
    DoubledNext(cfg.retryDelay, attempts - 1);
    DoubledGrows(cfg.retryDelay, attempts - 1);
  }
}
