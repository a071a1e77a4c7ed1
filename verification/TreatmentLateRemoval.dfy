/**
 A run that leaves a CLEAN image without its copy, for every image that can be stripped and any limit of
 attempts: a worker fails the document on its last attempt, an ADMIN reprocesses it, a second worker stores
 the copy and marks the document CLEAN, and only then the first worker removes the copy.
 */
module TreatmentLateRemoval {
  import opened Wrappers
  import opened Bytes
  import opened FileType
  import opened Sanitizer
  import opened TreatmentDb
  import opened TreatmentRows
  import opened TreatmentLedger
  import opened TreatmentMachine
  import opened TreatmentReachable
  import opened TreatmentCopies
  import opened TreatmentAlone

  /** The copy cannot be stored. */
  lemma Unstored(cfg: Config, s: State, h: nat, row: Row, c: ScanClaim, content: Buffer, copy: Buffer)
    returns (next: State)
    requires Reachable(cfg, s) && Alone(s, 0, row, content)
    requires h in s.scanners && s.scanners[h].pc == Storing(c, copy)
    ensures Reachable(cfg, next) && Alone(next, 0, row, content)
    ensures next.db.nextJob == s.db.nextJob && next.nextHandler == s.nextHandler
    ensures next.scanners == s.scanners[h := s.scanners[h].(pc := Failing(c))]
  {
    Then(cfg, s, Step(h, Threw(false)));
    next := Next(cfg, s, Step(h, Threw(false)));
  }

  /** And no attempt is left: SCAN_FAILED, its handler about to remove the copy. */
  lemma FailedLate(cfg: Config, s: State, h: nat, row: Row, c: ScanClaim, content: Buffer, copy: Buffer)
    returns (next: State)
    requires Reachable(cfg, s) && Alone(s, 0, row, content) && c.attempts >= cfg.maxAttempts
    requires row.status == SCANNING && row.scanStartedAt == Some(c.token) && c.doc == 0 && c.fileType != PDF
    requires h in s.scanners && s.scanners[h].pc == Storing(c, copy)
    ensures Reachable(cfg, next) && next.db.nextJob == s.db.nextJob && next.nextHandler == s.nextHandler
    ensures next.scanners == s.scanners[h := s.scanners[h].(pc := Deleting(c))]
    ensures Alone(next, 0, FinishScanRow(row, Failed, None, 0), content)
  {
    var s1 := Unstored(cfg, s, h, row, c, content, copy);
    Then(cfg, s1, Step(h, Done));
    next := Next(cfg, s1, Step(h, Done));
  }

  /** An ADMIN's reprocessing, delivered to another worker. */
  lemma Reprocessed(cfg: Config, s: State, row: Row, content: Buffer) returns (next: State)
    requires Reachable(cfg, s) && Alone(s, 0, row, content) && row.status == SCAN_FAILED
    ensures Reachable(cfg, next)
    ensures next.scanners == s.scanners[s.nextHandler := Scanner(s.db.nextJob, 0, Delivered)]
    ensures Alone(next, 0, NewRow(cfg, row, 0, ReprocessScan(0)), content)
  {
    Then(cfg, s, Reprocess(0));
    var s1 := Next(cfg, s, Reprocess(0));
    Then(cfg, s1, DeliverScan(s.db.nextJob));
    next := Next(cfg, s1, DeliverScan(s.db.nextJob));
  }

  /** Which stores the copy and marks the document CLEAN. */
  lemma MarkedClean(cfg: Config, s: State, h: nat, row: Row, c: ScanClaim, content: Buffer, copy: Buffer)
    returns (next: State)
    requires Reachable(cfg, s) && Alone(s, 0, row, content)
    requires row.status == SCANNING && row.scanStartedAt == Some(c.token) && c.doc == 0
    requires c.storageKey == row.storageKey
    requires h in s.scanners && s.scanners[h].pc == Storing(c, copy)
    ensures Reachable(cfg, next) && HasStatus(next.db, 0, CLEAN) && SanitizedKeyOf(row.storageKey) in next.objects
    ensures next.db.rows.Keys == {0}
    ensures next.db.rows[0].storageKey == row.storageKey && next.db.rows[0].fileType == row.fileType
    ensures next.scanners == s.scanners[h := s.scanners[h].(pc := Finished)]
  {
    Then(cfg, s, Step(h, Done));
    var s1 := Next(cfg, s, Step(h, Done));
    Then(cfg, s1, Step(h, Done));
    next := Next(cfg, s1, Step(h, Done));
  }

  /** A last attempt that has its copy to store and fails. */
  lemma LastAttemptFails(cfg: Config, s: State, h: nat, row: Row, c: ScanClaim, content: Buffer, copy: Buffer)
    returns (next: State)
    requires Reachable(cfg, s) && Alone(s, 0, row, content) && c.attempts >= cfg.maxAttempts
    requires row.fileType != PDF && Sanitized(row.fileType, content) == Some(copy)
    requires row.status == SCANNING && row.scanStartedAt == Some(c.token)
    requires c.doc == 0 && c.storageKey == row.storageKey && c.fileType == row.fileType && c.fileSize == |content|
    requires s.scanners == map[h := Scanner(0, 0, Reading(c))]
    ensures Reachable(cfg, next) && Alone(next, 0, FinishScanRow(row, Failed, None, 0), content)
    ensures next.scanners == map[h := Scanner(0, 0, Deleting(c))] && next.nextHandler == s.nextHandler
  {
    var s1 := Analysed(cfg, s, h, row, c, content, copy);
    next := FailedLate(cfg, s1, h, row, c, content, copy);
  }

  /** Up to the failure of the first worker, whose last step is still to come. */
  lemma FirstWorker(cfg: Config, fileType: FileType, key: Key, content: Buffer, copy: Buffer)
    returns (s: State, h: nat, row: Row)
    requires cfg.maxAttempts >= 1 && |key| == KEY_LENGTH && fileType != PDF
    requires DetectFileType(content) == Some(fileType) && Sanitized(fileType, content) == Some(copy)
    ensures Reachable(cfg, s) && Alone(s, 0, row, content) && s.nextHandler == h + 1
    ensures row.status == SCAN_FAILED && row.storageKey == key && row.fileType == fileType
    ensures s.scanners == map[h := Scanner(0, 0, Deleting(ScanClaim(0, fileType, key, |content|, cfg.maxAttempts, 0)))]
  {
    var s1, h1, claimed, c := LastAttempt(cfg, fileType, key, content);
    h, row := h1, FinishScanRow(claimed, Failed, None, 0);
    s := LastAttemptFails(cfg, s1, h, claimed, c, content, copy);
  }

  /** A first attempt that has its copy to store and marks the document CLEAN. */
  lemma AttemptSucceeds(cfg: Config, s: State, h: nat, row: Row, c: ScanClaim, content: Buffer, copy: Buffer)
    returns (next: State)
    requires Reachable(cfg, s) && Alone(s, 0, row, content)
    requires row.fileType != PDF && Sanitized(row.fileType, content) == Some(copy)
    requires row.status == SCANNING && row.scanStartedAt == Some(c.token)
    requires c.doc == 0 && c.storageKey == row.storageKey && c.fileType == row.fileType && c.fileSize == |content|
    requires h in s.scanners && s.scanners[h].pc == Reading(c)
    ensures Reachable(cfg, next) && HasStatus(next.db, 0, CLEAN) && SanitizedKeyOf(row.storageKey) in next.objects
    ensures next.db.rows.Keys == {0}
    ensures next.db.rows[0].storageKey == row.storageKey && next.db.rows[0].fileType == row.fileType
    ensures next.scanners == s.scanners[h := s.scanners[h].(pc := Finished)]
  {
    var s1 := Analysed(cfg, s, h, row, c, content, copy);
    next := MarkedClean(cfg, s1, h, row, c, content, copy);
  }

  /** Up to the result of the second. */
  lemma SecondWorker(cfg: Config, s: State, h: nat, row: Row, content: Buffer, copy: Buffer) returns (next: State)
    requires Reachable(cfg, s) && Alone(s, 0, row, content) && row.status == SCAN_FAILED
    requires h in s.scanners && h != s.nextHandler
    requires row.fileType != PDF && Sanitized(row.fileType, content) == Some(copy)
    ensures Reachable(cfg, next) && HasStatus(next.db, 0, CLEAN) && SanitizedKeyOf(row.storageKey) in next.objects
    ensures next.db.rows.Keys == {0}
    ensures next.db.rows[0].storageKey == row.storageKey && next.db.rows[0].fileType == row.fileType
    ensures next.scanners == s.scanners[s.nextHandler := Scanner(s.db.nextJob, 0, Finished)]
  {
    var k, waiting := s.nextHandler, NewRow(cfg, row, 0, ReprocessScan(0));
    var c := ClaimOf(waiting, 0);
    var s1 := Reprocessed(cfg, s, row, content);
    var s2 := Claimed(cfg, s1, k, 0, waiting, content);
    next := AttemptSucceeds(cfg, s2, k, ClaimedRow(waiting, 0), c, content, copy);
  }

  /** The removal that is still to come. */
  lemma RemovedLate(cfg: Config, s: State, h: nat, k: nat, key: Key)
    requires s.db.rows.Keys == {0} && HasStatus(s.db, 0, CLEAN) && s.db.rows[0].storageKey == key
    requires SanitizedKeyOf(key) in s.objects && s.scanners.Keys == {h, k} && h != k
    requires s.scanners[h].pc.Deleting? && s.scanners[h].pc.claim.storageKey == key && s.scanners[k].pc.Finished?
    ensures CopiesThere(s) && Enabled(s, Step(h, Done)) && Next(cfg, s, Step(h, Done)).db == s.db
    ensures SanitizedKeyOf(key) !in Next(cfg, s, Step(h, Done)).objects
  {
  }

  /**
   For every image that can be stripped, a run in which the first worker's removal comes after the
   second worker's result: the document is CLEAN, and there is no copy to serve.
   */
  lemma CleanWithoutCopy(cfg: Config, fileType: FileType, key: Key, content: Buffer, copy: Buffer)
    returns (s: State, a: Act)
    requires ValidConfig(cfg) && |key| == KEY_LENGTH && fileType != PDF
    requires DetectFileType(content) == Some(fileType) && Sanitized(fileType, content) == Some(copy)
    ensures Reachable(cfg, s) && CopiesThere(s) && Enabled(s, a)
    ensures HasStatus(Next(cfg, s, a).db, 0, CLEAN) && Next(cfg, s, a).db.rows[0].fileType == fileType
    ensures Next(cfg, s, a).db.rows[0].storageKey == key && SanitizedKeyOf(key) !in Next(cfg, s, a).objects
  {
    var s1, h, row := FirstWorker(cfg, fileType, key, content, copy);
    s := SecondWorker(cfg, s1, h, row, content, copy);
    a := Step(h, Done);
    RemovedLate(cfg, s, h, s1.nextHandler, key);
  }
}
