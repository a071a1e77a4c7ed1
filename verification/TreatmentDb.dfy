/**
 The tables the worker shares, and its transactions: conditional changes of one row, written with
 the audit event, the OCR result and the job that go with them. PostgreSQL transactions are taken
 as atomic; `now` is the database's clock.
 */
module TreatmentDb {
  import opened Wrappers
  import opened FileType

  type DocId = nat
  type Key = string
  type Time = int

  datatype DocStatus = UPLOADED | PENDING_SCAN | SCANNING | CLEAN | INFECTED | SCAN_FAILED

  datatype OcrStatus = NOT_STARTED | PENDING | PROCESSING | COMPLETED | FAILED | NOT_APPLICABLE | EXCLUDED

  /** A row of `documents`: the columns the treatment reads or writes. */
  datatype Row = Row(
    fileType: FileType,
    storageKey: Key,
    fileSize: nat,
    status: DocStatus,
    scanAttempts: nat,
    scanStartedAt: Option<Time>,
    scannedAt: Option<Time>,
    scanSignature: Option<string>,
    sanitizedKey: Option<Key>,
    ocrStatus: OcrStatus,
    ocrAttempts: nat,
    ocrStartedAt: Option<Time>)

  datatype Action =
    | ScanClean | ScanInfected | ScanFailed | ScanReprocessed
    | OcrCompleted | OcrFailed | OcrReprocessed

  /** A row of `audit_logs`. */
  datatype Event = Event(action: Action, doc: DocId, at: Time)

  datatype ErrorCode =
    | Timeout | RateLimited | ProviderUnavailable | ProviderError | UnsupportedDocument
    | TooManyPages | InvalidResponse | ObjectMissing | ObjectMismatch | StorageUnavailable
    | TextStoreUnavailable | Abandoned

  /** A row of `ocr_results`; its id is its place in the table. No error code means COMPLETED. */
  datatype OcrResult = OcrResult(
    doc: DocId, errorCode: Option<ErrorCode>, pages: nat, attempts: nat, finishedAt: Time)

  datatype Queue = ScanQueue | OcrQueue

  datatype Job = Job(queue: Queue, doc: DocId, startAfter: Time)

  datatype Db = Db(
    rows: map<DocId, Row>,
    audit: seq<Event>,
    results: seq<OcrResult>,
    pages: map<(nat, nat), string>,  // (result, page number) -> text
    jobs: map<nat, Job>,
    nextJob: nat,
    now: Time)

  /** The values the workers' environment sets; equal for every worker, as one deployment has them. */
  datatype Config = Config(
    lease: nat, maxAttempts: nat, ocrLease: nat, ocrMaxAttempts: nat, maxPages: nat,
    retryDelay: nat, processOriginals: bool)

  predicate ValidConfig(cfg: Config) {
    cfg.maxAttempts >= 1 && cfg.ocrMaxAttempts >= 1 && cfg.maxPages >= 1
  }

  // ----- What one transaction writes about one document -----

  datatype NewJob = NewJob(queue: Queue, delay: nat)

  datatype NewResult = NewResult(errorCode: Option<ErrorCode>, texts: seq<string>, attempts: nat)

  datatype Writes = Writes(
    doc: DocId, row: Row, event: Option<Action>, result: Option<NewResult>, job: Option<NewJob>)

  /** Pages numbered from 1, stored under one result. */
  function PageRows(result: nat, texts: seq<string>): map<(nat, nat), string> {
    map n | 1 <= n <= |texts| :: (result, n) := texts[n - 1]
  }

  function Write(db: Db, w: Writes): Db {
    Db(
      db.rows[w.doc := w.row],
      if w.event.Some? then db.audit + [Event(w.event.value, w.doc, db.now)] else db.audit,
      if w.result.None? then db.results
      else
        var r := w.result.value;
        db.results + [OcrResult(w.doc, r.errorCode, |r.texts|, r.attempts, db.now)],
      if w.result.Some? then db.pages + PageRows(|db.results|, w.result.value.texts) else db.pages,
      if w.job.None? then db.jobs
      else db.jobs[db.nextJob := Job(w.job.value.queue, w.doc, db.now + w.job.value.delay)],
      if w.job.Some? then db.nextJob + 1 else db.nextJob,
      db.now)
  }

  // ----- The security treatment: scan.repository.ts -----

  datatype ScanClaim = ScanClaim(
    doc: DocId, fileType: FileType, storageKey: Key, fileSize: nat, attempts: nat, token: Time)

  /** Before `now - lease`; SQL comparisons with NULL are never true. */
  predicate Expired(startedAt: Option<Time>, lease: nat, now: Time) {
    startedAt.Some? && startedAt.value < now - lease
  }

  predicate ScanAbandoned(row: Row, lease: nat, now: Time) {
    row.status == SCANNING && Expired(row.scanStartedAt, lease, now)
  }

  predicate ScanClaimable(row: Row, lease: nat, now: Time) {
    row.status == PENDING_SCAN || ScanAbandoned(row, lease, now)
  }

  function ScanClaimOf(cfg: Config, db: Db, d: DocId): Option<ScanClaim> {
    if d in db.rows && ScanClaimable(db.rows[d], cfg.lease, db.now) then
      var row := db.rows[d];
      Some(ScanClaim(d, row.fileType, row.storageKey, row.fileSize, row.scanAttempts + 1, db.now))
    else
      None
  }

  /** The claim is still the row's: what every later write of the treatment checks. */
  predicate HoldsScan(db: Db, claim: ScanClaim) {
    && claim.doc in db.rows
    && db.rows[claim.doc].status == SCANNING
    && db.rows[claim.doc].scanStartedAt == Some(claim.token)
  }

  datatype ScanVerdict = Clean(sanitizedKey: Option<Key>) | Infected(signature: string) | Failed

  /** Whether a worker runs with the OCR on, and then whether PDFs enter it. */
  type OcrActivation = Option<bool>

  function OcrStatusFor(fileType: FileType, verdict: ScanVerdict, ocr: OcrActivation): Option<OcrStatus> {
    if ocr.None? || verdict.Failed? then None
    else if verdict.Infected? then Some(NOT_APPLICABLE)
    else if fileType == PDF && !ocr.value then Some(EXCLUDED)
    else Some(PENDING)
  }

  function StatusOf(verdict: ScanVerdict): DocStatus {
    match verdict case Clean(_) => CLEAN case Infected(_) => INFECTED case Failed => SCAN_FAILED
  }

  function ActionOf(verdict: ScanVerdict): Action {
    match verdict case Clean(_) => ScanClean case Infected(_) => ScanInfected case Failed => ScanFailed
  }

  function FinishScanRow(row: Row, verdict: ScanVerdict, ocrStatus: Option<OcrStatus>, now: Time): Row {
    row.(
      status := StatusOf(verdict),
      scannedAt := Some(now),
      scanSignature := if verdict.Infected? then Some(verdict.signature) else None,
      sanitizedKey := if verdict.Clean? then verdict.sanitizedKey else None,
      ocrStatus := ocrStatus.GetOr(row.ocrStatus))
  }

  // ----- The OCR: ocr.repository.ts -----

  datatype OcrClaim = OcrClaim(
    doc: DocId, fileType: FileType, storageKey: Key, sanitizedKey: Option<Key>, fileSize: nat,
    attempts: nat, token: Time)

  predicate OcrAbandoned(row: Row, lease: nat, now: Time) {
    row.ocrStatus == PROCESSING && Expired(row.ocrStartedAt, lease, now)
  }

  predicate OcrClaimable(row: Row, lease: nat, now: Time) {
    row.status == CLEAN && (row.ocrStatus == PENDING || OcrAbandoned(row, lease, now))
  }

  function OcrClaimOf(cfg: Config, db: Db, d: DocId): Option<OcrClaim> {
    if d in db.rows && OcrClaimable(db.rows[d], cfg.ocrLease, db.now) then
      var row := db.rows[d];
      Some(OcrClaim(d, row.fileType, row.storageKey, row.sanitizedKey, row.fileSize, row.ocrAttempts + 1, db.now))
    else
      None
  }

  predicate HoldsOcr(db: Db, claim: OcrClaim) {
    && claim.doc in db.rows
    && db.rows[claim.doc].ocrStatus == PROCESSING
    && db.rows[claim.doc].ocrStartedAt == Some(claim.token)
  }

  // ----- Every conditional statement with what is written beside it -----

  datatype Tx =
    | ClaimScan(doc: DocId)
    | FinishScan(claim: ScanClaim, verdict: ScanVerdict, ocr: OcrActivation)
    | ReleaseScan(claim: ScanClaim)
    | SweepFail(doc: DocId)
    | SweepRequeue(doc: DocId)
    | ReprocessScan(doc: DocId)
    | ClaimOcr(doc: DocId)
    | CompleteOcr(ocrClaim: OcrClaim, texts: seq<string>)
    | FailOcr(ocrClaim: OcrClaim, code: ErrorCode)
    | ReleaseOcr(ocrClaim: OcrClaim, delay: nat)
    | ExcludeOcr(ocrClaim: OcrClaim)
    | SweepOcr(doc: DocId)
    | ReprocessOcr(doc: DocId)

  function DocOf(tx: Tx): DocId {
    match tx
    case FinishScan(claim, _, _) => claim.doc
    case ReleaseScan(claim) => claim.doc
    case CompleteOcr(claim, _) => claim.doc
    case FailOcr(claim, _) => claim.doc
    case ReleaseOcr(claim, _) => claim.doc
    case ExcludeOcr(claim) => claim.doc
    case ClaimScan(d) => d
    case SweepFail(d) => d
    case SweepRequeue(d) => d
    case ReprocessScan(d) => d
    case ClaimOcr(d) => d
    case SweepOcr(d) => d
    case ReprocessOcr(d) => d
  }

  /** The WHERE clause. */
  predicate Matches(cfg: Config, row: Row, now: Time, tx: Tx) {
    match tx
    case ClaimScan(_) => ScanClaimable(row, cfg.lease, now)
    case FinishScan(claim, _, _) => row.status == SCANNING && row.scanStartedAt == Some(claim.token)
    case ReleaseScan(claim) => row.status == SCANNING && row.scanStartedAt == Some(claim.token)
    case SweepFail(_) => ScanAbandoned(row, cfg.lease, now) && row.scanAttempts >= cfg.maxAttempts
    case SweepRequeue(_) =>
      row.status == UPLOADED || (ScanAbandoned(row, cfg.lease, now) && row.scanAttempts < cfg.maxAttempts)
    case ReprocessScan(_) => row.status == SCAN_FAILED
    case ClaimOcr(_) => OcrClaimable(row, cfg.ocrLease, now)
    case CompleteOcr(claim, _) => row.ocrStatus == PROCESSING && row.ocrStartedAt == Some(claim.token)
    case FailOcr(claim, _) => row.ocrStatus == PROCESSING && row.ocrStartedAt == Some(claim.token)
    case ReleaseOcr(claim, _) => row.ocrStatus == PROCESSING && row.ocrStartedAt == Some(claim.token)
    case ExcludeOcr(claim) => row.ocrStatus == PROCESSING && row.ocrStartedAt == Some(claim.token)
    case SweepOcr(_) => OcrAbandoned(row, cfg.ocrLease, now)
    case ReprocessOcr(_) => row.status == CLEAN && row.ocrStatus == FAILED
  }

  /** The SET clause. */
  function NewRow(cfg: Config, row: Row, now: Time, tx: Tx): Row {
    match tx
    case ClaimScan(_) =>
      row.(status := SCANNING, scanAttempts := row.scanAttempts + 1, scanStartedAt := Some(now))
    case FinishScan(claim, verdict, ocr) =>
      FinishScanRow(row, verdict, OcrStatusFor(claim.fileType, verdict, ocr), now)
    case ReleaseScan(_) => row.(status := PENDING_SCAN, scanStartedAt := None)
    case SweepFail(_) => row.(status := SCAN_FAILED, scannedAt := Some(now))
    case SweepRequeue(_) => row.(status := PENDING_SCAN, scanStartedAt := None)
    case ReprocessScan(_) =>
      row.(status := PENDING_SCAN, scanAttempts := 0, scanStartedAt := None, scannedAt := None,
           scanSignature := None, sanitizedKey := None)
    case ClaimOcr(_) =>
      row.(ocrStatus := PROCESSING, ocrAttempts := row.ocrAttempts + 1, ocrStartedAt := Some(now))
    case CompleteOcr(_, _) => row.(ocrStatus := COMPLETED)
    case FailOcr(_, _) => row.(ocrStatus := FAILED)
    case ReleaseOcr(_, _) => row.(ocrStatus := PENDING, ocrStartedAt := None)
    case ExcludeOcr(_) => row.(ocrStatus := EXCLUDED)
    case SweepOcr(_) =>
      if row.ocrAttempts >= cfg.ocrMaxAttempts then row.(ocrStatus := FAILED)
      else row.(ocrStatus := PENDING, ocrStartedAt := None)
    case ReprocessOcr(_) => row.(ocrStatus := PENDING, ocrAttempts := 0, ocrStartedAt := None)
  }

  function EventOf(cfg: Config, row: Row, tx: Tx): Option<Action> {
    match tx
    case FinishScan(_, verdict, _) => Some(ActionOf(verdict))
    case SweepFail(_) => Some(ScanFailed)
    case ReprocessScan(_) => Some(ScanReprocessed)
    case CompleteOcr(_, _) => Some(OcrCompleted)
    case FailOcr(_, _) => Some(OcrFailed)
    case SweepOcr(_) => if row.ocrAttempts >= cfg.ocrMaxAttempts then Some(OcrFailed) else None
    case ReprocessOcr(_) => Some(OcrReprocessed)
    case _ => None
  }

  function ResultOf(cfg: Config, row: Row, tx: Tx): Option<NewResult> {
    match tx
    case CompleteOcr(claim, texts) => Some(NewResult(None, texts, claim.attempts))
    case FailOcr(claim, code) => Some(NewResult(Some(code), [], claim.attempts))
    case SweepOcr(_) =>
      if row.ocrAttempts >= cfg.ocrMaxAttempts then Some(NewResult(Some(Abandoned), [], row.ocrAttempts)) else None
    case _ => None
  }

  function JobOf(cfg: Config, row: Row, tx: Tx): Option<NewJob> {
    match tx
    case FinishScan(claim, verdict, ocr) =>
      if OcrStatusFor(claim.fileType, verdict, ocr) == Some(PENDING) then Some(NewJob(OcrQueue, 0)) else None
    case SweepRequeue(_) => Some(NewJob(ScanQueue, 0))
    case ReprocessScan(_) => Some(NewJob(ScanQueue, 0))
    case ReleaseOcr(_, delay) => Some(NewJob(OcrQueue, delay))
    case SweepOcr(_) => if row.ocrAttempts >= cfg.ocrMaxAttempts then None else Some(NewJob(OcrQueue, 0))
    case ReprocessOcr(_) => Some(NewJob(OcrQueue, 0))
    case _ => None
  }

  predicate Hits(cfg: Config, db: Db, tx: Tx) {
    DocOf(tx) in db.rows && Matches(cfg, db.rows[DocOf(tx)], db.now, tx)
  }

  function WritesOf(cfg: Config, db: Db, tx: Tx): Writes
    requires Hits(cfg, db, tx)
  {
    var row := db.rows[DocOf(tx)];
    Writes(DocOf(tx), NewRow(cfg, row, db.now, tx), EventOf(cfg, row, tx), ResultOf(cfg, row, tx), JobOf(cfg, row, tx))
  }

  /** A transaction whose condition matches no row writes nothing at all. */
  function Commit(cfg: Config, db: Db, tx: Tx): Db {
    if Hits(cfg, db, tx) then Write(db, WritesOf(cfg, db, tx)) else db
  }

  function CommitAll(cfg: Config, db: Db, txs: seq<Tx>): Db
    decreases |txs|
  {
    if txs == [] then db else CommitAll(cfg, Commit(cfg, db, txs[0]), txs[1..])
  }

  // ----- The sweeps: several such statements in one transaction -----

  /** An abandoned claim with no attempts left fails first; then the others go back to waiting. */
  function FailAll(docs: seq<DocId>): seq<Tx> {
    seq(|docs|, i requires 0 <= i < |docs| => SweepFail(docs[i]))
  }

  function RequeueAll(docs: seq<DocId>): seq<Tx> {
    seq(|docs|, i requires 0 <= i < |docs| => SweepRequeue(docs[i]))
  }

  function OcrSweepAll(docs: seq<DocId>): seq<Tx> {
    seq(|docs|, i requires 0 <= i < |docs| => SweepOcr(docs[i]))
  }

  // ----- The activation of the OCR: ocr-activation.ts -----

  function ActivatedRow(row: Row): Row {
    if row.ocrStatus != NOT_STARTED then row
    else if row.status == CLEAN then row.(ocrStatus := EXCLUDED)
    else if row.status == INFECTED then row.(ocrStatus := NOT_APPLICABLE)
    else row
  }

  function Activated(db: Db): Db {
    db.(rows := map d | d in db.rows :: ActivatedRow(db.rows[d]))
  }

  predicate ViolatesActivation(row: Row) {
    row.status == CLEAN && row.ocrStatus == NOT_STARTED
  }

  // ----- Uploads: documents.repository.ts -----

  /** A new document with its job; `legacy` is one stored before the antivirus existed. */
  function Created(db: Db, d: DocId, fileType: FileType, key: Key, size: nat, legacy: bool): Db {
    var row := Row(fileType, key, size, if legacy then UPLOADED else PENDING_SCAN, 0, None, None, None, None,
                   NOT_STARTED, 0, None);
    Write(db, Writes(d, row, None, None, if legacy then None else Some(NewJob(ScanQueue, 0))))
  }
}
