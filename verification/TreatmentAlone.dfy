/**
 Runs of one document, of any type and any limit of attempts: uploaded, delivered, claimed, given back
 and claimed again. The runs that show what the treatment does not guarantee start with one of these.
 */
module TreatmentAlone {
  import opened Wrappers
  import opened Bytes
  import opened FileType
  import opened Sanitizer
  import opened TreatmentDb
  import opened TreatmentRows
  import opened TreatmentLedger
  import opened TreatmentMachine
  import opened TreatmentReachable

  function Step(h: nat, o: Outcome): Act {
    ScanStep(h, o, SaysClean, false)
  }

  /** The one document, waiting after this many attempts. */
  function WaitingRow(fileType: FileType, key: Key, content: Buffer, attempts: nat): Row {
    Row(fileType, key, |content|, PENDING_SCAN, attempts, None, None, None, None, NOT_STARTED, 0, None)
  }

  function ClaimedRow(row: Row, now: Time): Row {
    row.(status := SCANNING, scanAttempts := row.scanAttempts + 1, scanStartedAt := Some(now))
  }

  function ClaimOf(row: Row, now: Time): ScanClaim {
    ScanClaim(0, row.fileType, row.storageKey, row.fileSize, row.scanAttempts + 1, now)
  }

  predicate Alone(s: State, now: Time, row: Row, content: Buffer) {
    && s.db.now == now && s.db.rows == map[0 := row] && row.fileSize == |content|
    && row.storageKey in s.objects && s.objects[row.storageKey] == content && |row.storageKey| == KEY_LENGTH
  }

  /** Its first job is still there, and the only one there has been. */
  predicate FirstJob(s: State) {
    s.db.jobs == map[0 := Job(ScanQueue, 0, 0)] && s.db.nextJob == 1
  }

  predicate SameOcr(s: State, next: State) {
    next.ocrOn == s.ocrOn && next.readers == s.readers
  }

  lemma Uploaded(cfg: Config, fileType: FileType, key: Key, content: Buffer, ocrOn: bool) returns (s: State)
    requires |key| == KEY_LENGTH && DetectFileType(content) == Some(fileType)
    ensures Reachable(cfg, s) && Alone(s, 0, WaitingRow(fileType, key, content, 0), content)
    ensures FirstJob(s) && s.scanners == map[] && s.readers == map[] && s.ocrOn == ocrOn
  {
    var s0 := Initial(0);
    assert CanRun(cfg, s0, []) && s0 == Run(cfg, s0, []);
    if ocrOn {
      Then(cfg, s0, Activate);
      s0 := Next(cfg, s0, Activate);
    }
    var a := Upload(0, fileType, key, content, false);
    Then(cfg, s0, a);
    s := Next(cfg, s0, a);
  }

  lemma DeliveredTo(cfg: Config, s: State, now: Time, row: Row, content: Buffer) returns (next: State)
    requires Reachable(cfg, s) && Alone(s, now, row, content) && FirstJob(s) && 0 <= now
    ensures Reachable(cfg, next) && Alone(next, now, row, content) && FirstJob(next)
    ensures next.scanners == s.scanners[s.nextHandler := Scanner(0, 0, Delivered)]
    ensures next.nextHandler == s.nextHandler + 1 && SameOcr(s, next)
  {
    Then(cfg, s, DeliverScan(0));
    next := Next(cfg, s, DeliverScan(0));
  }

  /** A waiting document is claimed. */
  lemma Claimed(cfg: Config, s: State, h: nat, now: Time, row: Row, content: Buffer) returns (next: State)
    requires Reachable(cfg, s) && Alone(s, now, row, content) && row.status == PENDING_SCAN
    requires h in s.scanners && s.scanners[h].pc == Delivered && s.scanners[h].doc == 0
    ensures Reachable(cfg, next) && Alone(next, now, ClaimedRow(row, now), content)
    ensures next.scanners == s.scanners[h := s.scanners[h].(pc := Reading(ClaimOf(row, now)))]
    ensures next.db.jobs == s.db.jobs && next.db.nextJob == s.db.nextJob && next.nextHandler == s.nextHandler
    ensures SameOcr(s, next)
  {
    Then(cfg, s, Step(h, Done));
    next := Next(cfg, s, Step(h, Done));
  }

  /** A handler that has claimed reads the original, is told it is clean, and has a copy to store. */
  lemma Analysed(cfg: Config, s: State, h: nat, row: Row, c: ScanClaim, content: Buffer, copy: Buffer)
    returns (next: State)
    requires Reachable(cfg, s) && Alone(s, 0, row, content)
    requires row.fileType != PDF && Sanitized(row.fileType, content) == Some(copy)
    requires h in s.scanners && s.scanners[h].pc == Reading(c)
    requires c.storageKey == row.storageKey && c.fileType == row.fileType && c.fileSize == |content|
    ensures Reachable(cfg, next) && Alone(next, 0, row, content)
    ensures next.scanners == s.scanners[h := s.scanners[h].(pc := Storing(c, copy))]
    ensures next.db == s.db && next.nextHandler == s.nextHandler && SameOcr(s, next)
  {
    Then(cfg, s, Step(h, Done));
    var s1 := Next(cfg, s, Step(h, Done));
    Then(cfg, s1, Step(h, Done));
    next := Next(cfg, s1, Step(h, Done));
  }

  /** The original cannot be read just now. */
  lemma Unread(cfg: Config, s: State, h: nat, c: ScanClaim, now: Time, row: Row, content: Buffer)
    returns (next: State)
    requires Reachable(cfg, s) && Alone(s, now, row, content)
    requires h in s.scanners && s.scanners[h].pc == Reading(c)
    ensures Reachable(cfg, next) && Alone(next, now, row, content)
    ensures next.scanners == s.scanners[h := s.scanners[h].(pc := Failing(c))]
    ensures next.db.jobs == s.db.jobs && next.db.nextJob == s.db.nextJob && next.nextHandler == s.nextHandler
  {
    Then(cfg, s, Step(h, Threw(false)));
    next := Next(cfg, s, Step(h, Threw(false)));
  }

  /** With an attempt left, the claim is given back and the handler rethrows. */
  lemma GivenBack(cfg: Config, s: State, h: nat, c: ScanClaim, now: Time, row: Row, content: Buffer)
    returns (next: State)
    requires Reachable(cfg, s) && Alone(s, now, row, content)
    requires row.status == SCANNING && row.scanStartedAt == Some(c.token) && c.doc == 0 && c.attempts < cfg.maxAttempts
    requires h in s.scanners && s.scanners[h].pc == Failing(c)
    ensures Reachable(cfg, next) && next.scanners == s.scanners - {h}
    ensures Alone(next, now, row.(status := PENDING_SCAN, scanStartedAt := None), content)
    ensures next.db.jobs == s.db.jobs && next.db.nextJob == s.db.nextJob && next.nextHandler == s.nextHandler
  {
    Then(cfg, s, Step(h, Done));
    var s1 := Next(cfg, s, Step(h, Done));
    Then(cfg, s1, ScanCrash(h));
    next := Next(cfg, s1, ScanCrash(h));
  }

  /** Its job is delivered to a handler that claims it. */
  lemma Started(cfg: Config, s: State, row: Row, content: Buffer) returns (next: State)
    requires Reachable(cfg, s) && Alone(s, 0, row, content) && FirstJob(s) && row.status == PENDING_SCAN
    ensures Reachable(cfg, next) && FirstJob(next) && Alone(next, 0, ClaimedRow(row, 0), content)
    ensures next.scanners == s.scanners[s.nextHandler := Scanner(0, 0, Reading(ClaimOf(row, 0)))]
    ensures next.nextHandler == s.nextHandler + 1 && SameOcr(s, next)
  {
    var s1 := DeliveredTo(cfg, s, 0, row, content);
    next := Claimed(cfg, s1, s.nextHandler, 0, row, content);
  }

  /** And cannot read it, and gives it back. */
  lemma Dropped(cfg: Config, s: State, h: nat, c: ScanClaim, row: Row, content: Buffer) returns (next: State)
    requires Reachable(cfg, s) && Alone(s, 0, row, content) && s.scanners == map[h := Scanner(0, 0, Reading(c))]
    requires row.status == SCANNING && row.scanStartedAt == Some(c.token) && c.doc == 0 && c.attempts < cfg.maxAttempts
    ensures Reachable(cfg, next) && next.scanners == map[]
    ensures Alone(next, 0, row.(status := PENDING_SCAN, scanStartedAt := None), content)
    ensures next.db.jobs == s.db.jobs && next.db.nextJob == s.db.nextJob
  {
    var s1 := Unread(cfg, s, h, c, 0, row, content);
    next := GivenBack(cfg, s1, h, c, 0, row, content);
  }

  /** One attempt more: delivered, claimed, not read, given back. */
  lemma TriedOnce(cfg: Config, s: State, row: Row, content: Buffer) returns (next: State)
    requires Reachable(cfg, s) && Alone(s, 0, row, content) && FirstJob(s) && s.scanners == map[]
    requires row.status == PENDING_SCAN && row.scanStartedAt.None? && row.scanAttempts + 1 < cfg.maxAttempts
    ensures Reachable(cfg, next) && FirstJob(next) && next.scanners == map[]
    ensures Alone(next, 0, row.(scanAttempts := row.scanAttempts + 1), content)
  {
    var s1 := Started(cfg, s, row, content);
    next := Dropped(cfg, s1, s.nextHandler, ClaimOf(row, 0), ClaimedRow(row, 0), content);
    assert ClaimedRow(row, 0).(status := PENDING_SCAN, scanStartedAt := None)
        == row.(scanAttempts := row.scanAttempts + 1);
  }

  /** Waiting after any number of attempts below the maximum. */
  lemma {:induction false} Waiting(cfg: Config, fileType: FileType, key: Key, content: Buffer, attempts: nat)
    returns (s: State)
    requires |key| == KEY_LENGTH && DetectFileType(content) == Some(fileType) && attempts < cfg.maxAttempts
    ensures Reachable(cfg, s) && FirstJob(s) && s.scanners == map[]
    ensures Alone(s, 0, WaitingRow(fileType, key, content, attempts), content)
    decreases attempts
  {
    if attempts == 0 {
      s := Uploaded(cfg, fileType, key, content, false);
    } else {
      var before := Waiting(cfg, fileType, key, content, attempts - 1);
      s := TriedOnce(cfg, before, WaitingRow(fileType, key, content, attempts - 1), content);
    }
  }

  /** Claimed by the only handler there is, on any attempt up to the last. */
  lemma ClaimedAgain(cfg: Config, fileType: FileType, key: Key, content: Buffer, attempts: nat)
    returns (s: State, h: nat)
    requires |key| == KEY_LENGTH && DetectFileType(content) == Some(fileType) && attempts < cfg.maxAttempts
    ensures var row := WaitingRow(fileType, key, content, attempts);
            && Reachable(cfg, s) && Alone(s, 0, ClaimedRow(row, 0), content) && FirstJob(s)
            && s.scanners == map[h := Scanner(0, 0, Reading(ClaimOf(row, 0)))] && s.nextHandler == h + 1
  {
    var row := WaitingRow(fileType, key, content, attempts);
    var s1 := Waiting(cfg, fileType, key, content, attempts);
    h := s1.nextHandler;
    s := Started(cfg, s1, row, content);
  }

  /** Claimed on its last attempt. */
  lemma LastAttempt(cfg: Config, fileType: FileType, key: Key, content: Buffer)
    returns (s: State, h: nat, row: Row, c: ScanClaim)
    requires cfg.maxAttempts >= 1 && |key| == KEY_LENGTH && DetectFileType(content) == Some(fileType)
    ensures Reachable(cfg, s) && Alone(s, 0, row, content) && FirstJob(s) && s.nextHandler == h + 1
    ensures s.scanners == map[h := Scanner(0, 0, Reading(c))]
    ensures c == ScanClaim(0, fileType, key, |content|, cfg.maxAttempts, 0)
    ensures row.status == SCANNING && row.scanStartedAt == Some(0) && row.scanAttempts == cfg.maxAttempts
    ensures row.fileType == fileType && row.storageKey == key
  {
    var waiting := WaitingRow(fileType, key, content, cfg.maxAttempts - 1);
    row, c := ClaimedRow(waiting, 0), ClaimOf(waiting, 0);
    var s1, h1 := ClaimedAgain(cfg, fileType, key, content, cfg.maxAttempts - 1);
    s, h := s1, h1;
  }
}
