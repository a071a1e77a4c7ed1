/**
 Runs in which a handler is overtaken: its lease runs out, its job is delivered again, and another handler
 takes its claim over, whatever the attempts. So no maximum bounds them, for the scan and for the OCR; and
 a handler overtaken on its last attempt ends answering "failed" while the document is being scanned. For
 every document and any limits.
 */
module TreatmentOvertaken {
  import opened Wrappers
  import opened Bytes
  import opened FileType
  import opened Sanitizer
  import opened TreatmentDb
  import opened TreatmentRows
  import opened TreatmentLedger
  import opened TreatmentMachine
  import opened TreatmentReachable
  import opened TreatmentAlone

  /** The lease of a claim runs out, and its job is delivered to another handler. */
  lemma Expires(cfg: Config, s: State, now: Time, row: Row, content: Buffer) returns (next: State)
    requires Reachable(cfg, s) && Alone(s, now, row, content) && FirstJob(s) && 0 <= now
    ensures Reachable(cfg, next) && Alone(next, now + cfg.lease + 1, row, content) && FirstJob(next)
    ensures next.scanners == s.scanners[s.nextHandler := Scanner(0, 0, Delivered)]
  {
    Then(cfg, s, Tick(now + cfg.lease + 1));
    var s1 := Next(cfg, s, Tick(now + cfg.lease + 1));
    next := DeliveredTo(cfg, s1, now + cfg.lease + 1, row, content);
  }

  /** Its claim takes the expired one over, whatever the attempts. */
  lemma TakenOver(cfg: Config, s: State, h: nat, now: Time, row: Row, content: Buffer) returns (next: State)
    requires Reachable(cfg, s) && Alone(s, now, row, content) && FirstJob(s) && ScanAbandoned(row, cfg.lease, now)
    requires h in s.scanners && s.scanners[h].pc == Delivered && s.scanners[h].doc == 0
    ensures Reachable(cfg, next) && Alone(next, now, ClaimedRow(row, now), content) && FirstJob(next)
    ensures next.scanners == s.scanners[h := s.scanners[h].(pc := Reading(ClaimOf(row, now)))]
  {
    Then(cfg, s, Step(h, Done));
    next := Next(cfg, s, Step(h, Done));
  }

  /** For every document and any limit, a reachable state whose scan is on its n-th attempt, for every n. */
  lemma {:induction false} AttemptsExceed(cfg: Config, fileType: FileType, key: Key, content: Buffer, n: nat)
    returns (s: State, row: Row)
    requires ValidConfig(cfg) && |key| == KEY_LENGTH && DetectFileType(content) == Some(fileType) && n >= 1
    ensures Reachable(cfg, s) && Alone(s, s.db.now, row, content) && FirstJob(s) && 0 <= s.db.now
    ensures row.status == SCANNING && row.scanStartedAt == Some(s.db.now) && row.scanAttempts == n
    decreases n
  {
    if n == 1 {
      var waiting := WaitingRow(fileType, key, content, 0);
      var s1, _ := ClaimedAgain(cfg, fileType, key, content, 0);
      s, row := s1, ClaimedRow(waiting, 0);
    } else {
      var before, last := AttemptsExceed(cfg, fileType, key, content, n - 1);
      var now := before.db.now + cfg.lease + 1;
      var s1 := Expires(cfg, before, before.db.now, last, content);
      s := TakenOver(cfg, s1, before.nextHandler, now, last, content);
      row := ClaimedRow(last, now);
    }
  }

  /** A handler that could not read its document, and one that takes its claim over. */
  lemma Overtakes(cfg: Config, s: State, h: nat, row: Row, c: ScanClaim, content: Buffer) returns (next: State)
    requires Reachable(cfg, s) && Alone(s, 0, row, content) && FirstJob(s) && s.nextHandler == h + 1
    requires row.status == SCANNING && row.scanStartedAt == Some(0)
    requires s.scanners == map[h := Scanner(0, 0, Reading(c))]
    ensures Reachable(cfg, next) && Alone(next, cfg.lease + 1, ClaimedRow(row, cfg.lease + 1), content)
    ensures h in next.scanners && next.scanners[h].pc == Failing(c)
  {
    var s1 := Unread(cfg, s, h, c, 0, row, content);
    var s2 := Expires(cfg, s1, 0, row, content);
    next := TakenOver(cfg, s2, h + 1, cfg.lease + 1, row, content);
  }

  /** A handler in its catch block on the last attempt, and another that holds the document by now. */
  lemma LastAttemptOvertaken(cfg: Config, fileType: FileType, key: Key, content: Buffer)
    returns (s: State, h: nat, c: ScanClaim)
    requires ValidConfig(cfg) && |key| == KEY_LENGTH && DetectFileType(content) == Some(fileType)
    ensures Reachable(cfg, s) && s.db.rows.Keys == {0} && s.db.rows[0].status == SCANNING
    ensures s.db.rows[0].scanAttempts == cfg.maxAttempts + 1
    ensures h in s.scanners && s.scanners[h].pc == Failing(c)
    ensures c.doc == 0 && c.attempts == cfg.maxAttempts && !HoldsScan(s.db, c)
  {
    var s1, h1, row, claim := LastAttempt(cfg, fileType, key, content);
    h, c := h1, claim;
    s := Overtakes(cfg, s1, h, row, c, content);
  }

  /**
   And a handler that ends as one that answers "failed" does, its last markFailed returning, while the
   document goes on being scanned.
   */
  lemma FailedWhileScanning(cfg: Config, fileType: FileType, key: Key, content: Buffer) returns (s: State, h: nat)
    requires ValidConfig(cfg) && |key| == KEY_LENGTH && DetectFileType(content) == Some(fileType)
    ensures Reachable(cfg, s) && h in s.scanners && EndsFailed(cfg, s.scanners[h].pc)
    ensures var next := Next(cfg, s, Step(h, Done));
            && h in next.scanners && next.scanners[h].pc == Finished && HasStatus(next.db, 0, SCANNING)
            && next.db == s.db
  {
    var s1, h1, c := LastAttemptOvertaken(cfg, fileType, key, content);
    s, h := s1, h1;
  }

  /** What a handler does next is markFailed: if it returns, the answer is "failed". */
  predicate EndsFailed(cfg: Config, pc: ScanPc) {
    pc.Failing? && pc.claim.attempts >= cfg.maxAttempts
  }

  // ----- The OCR -----

  /** CLEAN, with the first job of its OCR still there and the OCR where a job of it finds it to be claimed. */
  predicate OcrDue(cfg: Config, s: State, attempts: nat) {
    && s.ocrOn && 0 in s.db.rows && OcrClaimable(s.db.rows[0], cfg.ocrLease, s.db.now)
    && s.db.rows[0].ocrAttempts == attempts
    && 0 <= s.db.now && 1 in s.db.jobs && s.db.jobs[1] == Job(OcrQueue, 0, 0)
  }

  predicate OcrClaimed(s: State, attempts: nat) {
    && s.ocrOn && HasStatus(s.db, 0, CLEAN) && s.db.rows[0].ocrStatus == PROCESSING
    && s.db.rows[0].ocrStartedAt == Some(s.db.now) && s.db.rows[0].ocrAttempts == attempts
    && 0 <= s.db.now && 1 in s.db.jobs && s.db.jobs[1] == Job(OcrQueue, 0, 0)
  }

  /** The treatment can clear it: a PDF, or an image that can be stripped. */
  predicate CanBeCleared(fileType: FileType, content: Buffer) {
    fileType == PDF || Sanitized(fileType, content).Some?
  }

  /** Up to the result of the scan, to be written. */
  lemma ToBeMarked(cfg: Config, s: State, h: nat, row: Row, c: ScanClaim, content: Buffer) returns (next: State)
    requires Reachable(cfg, s) && Alone(s, 0, row, content) && CanBeCleared(row.fileType, content)
    requires h in s.scanners && s.scanners[h].pc == Reading(c)
    requires c.storageKey == row.storageKey && c.fileType == row.fileType && c.fileSize == |content|
    ensures Reachable(cfg, next) && next.db == s.db && SameOcr(s, next)
    ensures h in next.scanners && next.scanners[h].pc.Marking? && next.scanners[h].pc.claim == c
    ensures next.scanners[h].pc.verdict.Clean?
  {
    if row.fileType == PDF {
      next := PdfToBeMarked(cfg, s, h, row, c, content);
    } else {
      var copy := Sanitized(row.fileType, content).value;
      var s1 := Analysed(cfg, s, h, row, c, content, copy);
      next := StoredToBeMarked(cfg, s1, h, c, copy);
    }
  }

  lemma PdfToBeMarked(cfg: Config, s: State, h: nat, row: Row, c: ScanClaim, content: Buffer) returns (next: State)
    requires Reachable(cfg, s) && Alone(s, 0, row, content) && c.fileType == PDF
    requires h in s.scanners && s.scanners[h].pc == Reading(c)
    requires c.storageKey == row.storageKey && c.fileSize == |content|
    ensures Reachable(cfg, next) && next.db == s.db && SameOcr(s, next)
    ensures h in next.scanners && next.scanners[h].pc == Marking(c, Clean(None))
  {
    Then(cfg, s, Step(h, Done));
    var s1 := Next(cfg, s, Step(h, Done));
    Then(cfg, s1, Step(h, Done));
    next := Next(cfg, s1, Step(h, Done));
  }

  lemma StoredToBeMarked(cfg: Config, s: State, h: nat, c: ScanClaim, copy: Buffer) returns (next: State)
    requires Reachable(cfg, s) && h in s.scanners && s.scanners[h].pc == Storing(c, copy)
    ensures Reachable(cfg, next) && next.db == s.db && SameOcr(s, next)
    ensures h in next.scanners && next.scanners[h].pc == Marking(c, Clean(Some(SanitizedKeyOf(c.storageKey))))
  {
    Then(cfg, s, Step(h, Done));
    next := Next(cfg, s, Step(h, Done));
  }

  /** The document becomes CLEAN and its OCR starts to wait, with its job. */
  lemma OcrStarts(cfg: Config, s: State, h: nat, row: Row) returns (next: State)
    requires Reachable(cfg, s) && s.ocrOn && s.db.rows == map[0 := row] && s.db.now == 0 && s.db.nextJob == 1
    requires row.status == SCANNING && row.scanStartedAt == Some(0) && row.ocrAttempts == 0
    requires h in s.scanners && s.scanners[h].pc.Marking? && s.scanners[h].pc.verdict.Clean?
    requires s.scanners[h].pc.claim.doc == 0 && s.scanners[h].pc.claim.token == 0
    ensures Reachable(cfg, next) && OcrDue(cfg, next, 0)
  {
    Then(cfg, s, ScanStep(h, Done, SaysClean, true));
    next := Next(cfg, s, ScanStep(h, Done, SaysClean, true));
  }

  lemma Cleared(cfg: Config, fileType: FileType, key: Key, content: Buffer) returns (s: State)
    requires |key| == KEY_LENGTH && DetectFileType(content) == Some(fileType) && CanBeCleared(fileType, content)
    ensures Reachable(cfg, s) && OcrDue(cfg, s, 0)
  {
    var waiting := WaitingRow(fileType, key, content, 0);
    var s1 := Uploaded(cfg, fileType, key, content, true);
    var s2 := Started(cfg, s1, waiting, content);
    var s3 := ToBeMarked(cfg, s2, s1.nextHandler, ClaimedRow(waiting, 0), ClaimOf(waiting, 0), content);
    s := OcrStarts(cfg, s3, s1.nextHandler, ClaimedRow(waiting, 0));
  }

  /** A job of the OCR is delivered, and its handler claims, whatever the attempts. */
  lemma OcrClaims(cfg: Config, s: State, attempts: nat) returns (next: State)
    requires Reachable(cfg, s) && OcrDue(cfg, s, attempts)
    ensures Reachable(cfg, next) && OcrClaimed(next, attempts + 1)
  {
    Then(cfg, s, DeliverOcr(1, true));
    var s1 := Next(cfg, s, DeliverOcr(1, true));
    Then(cfg, s1, OcrStep(s.nextHandler, Done, Malformed));
    next := Next(cfg, s1, OcrStep(s.nextHandler, Done, Malformed));
  }

  lemma OcrExpires(cfg: Config, s: State, attempts: nat) returns (next: State)
    requires Reachable(cfg, s) && OcrClaimed(s, attempts)
    ensures Reachable(cfg, next) && OcrDue(cfg, next, attempts)
  {
    Then(cfg, s, Tick(s.db.now + cfg.ocrLease + 1));
    next := Next(cfg, s, Tick(s.db.now + cfg.ocrLease + 1));
  }

  /**
   For every document that can be cleared and any limits, a reachable state whose OCR is on its n-th attempt,
   for every n: each claim takes the one before over, and the maximum stops none of them.
   */
  lemma {:induction false} OcrAttemptsExceed(cfg: Config, fileType: FileType, key: Key, content: Buffer, n: nat)
    returns (s: State)
    requires |key| == KEY_LENGTH && DetectFileType(content) == Some(fileType) && CanBeCleared(fileType, content)
    requires n >= 1
    ensures Reachable(cfg, s) && OcrClaimed(s, n)
    decreases n
  {
    if n == 1 {
      var s1 := Cleared(cfg, fileType, key, content);
      s := OcrClaims(cfg, s1, 0);
    } else {
      var before := OcrAttemptsExceed(cfg, fileType, key, content, n - 1);
      var s1 := OcrExpires(cfg, before, n - 1);
      s := OcrClaims(cfg, s1, n - 1);
    }
  }
}
