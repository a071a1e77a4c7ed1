/** What every row of `documents` satisfies in every reachable state, and what one write does to it. */
module TreatmentRows {
  import opened Wrappers
  import opened FileType
  import opened TreatmentDb

  /** cases/<36 characters>/documents/<36 characters>. */
  const KEY_LENGTH := 89

  /** The copy without metadata lives next to the original. */
  function SanitizedKeyOf(storageKey: Key): (key: Key)
    ensures |key| == |storageKey| + 10
  {
    storageKey + ".sanitized"
  }

  lemma SanitizedKeysDiffer(k1: Key, k2: Key)
    requires SanitizedKeyOf(k1) == SanitizedKeyOf(k2)
    ensures k1 == k2
  {
    assert k1 == SanitizedKeyOf(k1)[..|k1|];
    assert k2 == SanitizedKeyOf(k2)[..|k2|];
  }

  /** The key a clean document is served under besides the original: only images have one. */
  function CopyKey(row: Row): Option<Key> {
    if row.fileType == PDF then None else Some(SanitizedKeyOf(row.storageKey))
  }

  predicate ScanRowOk(cfg: Config, now: Time, row: Row) {
    && |row.storageKey| == KEY_LENGTH
    && (row.status == SCANNING ==>
          row.scanStartedAt.Some? && row.scanStartedAt.value <= now && row.scanAttempts >= 1)
    && (row.status == PENDING_SCAN || row.status == UPLOADED ==> row.scanAttempts < cfg.maxAttempts)
    && row.sanitizedKey == (if row.status == CLEAN then CopyKey(row) else None)
    && (row.scanSignature.Some? <==> row.status == INFECTED)
    && (row.scannedAt.Some? <==> row.status == CLEAN || row.status == INFECTED || row.status == SCAN_FAILED)
  }

  /** How the two state machines of a document go together. */
  predicate JointOk(ocrOn: bool, row: Row) {
    && (row.ocrStatus != NOT_STARTED ==> ocrOn && (row.status == CLEAN || row.status == INFECTED))
    && (row.status == INFECTED ==> row.ocrStatus == NOT_STARTED || row.ocrStatus == NOT_APPLICABLE)
    && (row.status == CLEAN ==> row.ocrStatus != NOT_APPLICABLE)
    && (ocrOn && (row.status == CLEAN || row.status == INFECTED) ==> row.ocrStatus != NOT_STARTED)
  }

  predicate OcrRowOk(cfg: Config, now: Time, row: Row) {
    && (row.ocrStatus == NOT_STARTED ==> row.ocrAttempts == 0)
    && (row.ocrStatus == PENDING ==> row.ocrAttempts < cfg.ocrMaxAttempts)
    && (row.ocrStatus == PROCESSING ==>
          row.ocrStartedAt.Some? && row.ocrStartedAt.value <= now && row.ocrAttempts >= 1)
  }

  predicate RowOk(cfg: Config, ocrOn: bool, now: Time, row: Row) {
    ScanRowOk(cfg, now, row) && JointOk(ocrOn, row) && OcrRowOk(cfg, now, row)
  }

  /** What the handlers guarantee about the transactions they issue, when the claim is still theirs. */
  predicate Justified(cfg: Config, ocrOn: bool, row: Row, tx: Tx) {
    match tx
    case FinishScan(claim, verdict, ocr) =>
      && ocr.Some? == ocrOn
      && claim.fileType == row.fileType
      && (verdict.Clean? ==> verdict.sanitizedKey == CopyKey(row))
    case ReleaseScan(_) => row.scanAttempts < cfg.maxAttempts
    case CompleteOcr(_, texts) => 1 <= |texts| <= cfg.maxPages
    case ReleaseOcr(_, _) => row.ocrAttempts < cfg.ocrMaxAttempts
    case _ => true
  }

  /** Every statement keeps its row's invariant. */
  lemma RowKept(cfg: Config, ocrOn: bool, now: Time, row: Row, tx: Tx)
    requires ValidConfig(cfg) && RowOk(cfg, ocrOn, now, row)
    requires Matches(cfg, row, now, tx) && Justified(cfg, ocrOn, row, tx)
    ensures RowOk(cfg, ocrOn, now, NewRow(cfg, row, now, tx))
  {
  }

  /** What no transaction ever changes, and the states it never leaves. */
  predicate Continues(row: Row, next: Row) {
    && next.fileType == row.fileType && next.storageKey == row.storageKey && next.fileSize == row.fileSize
    && (row.status == CLEAN ==> next.status == CLEAN && next.sanitizedKey == row.sanitizedKey)
    && (row.status == INFECTED ==> next.status == INFECTED && next.scanSignature == row.scanSignature)
    && (row.ocrStatus == COMPLETED ==> next.ocrStatus == COMPLETED)
    && (row.ocrStatus == EXCLUDED ==> next.ocrStatus == EXCLUDED)
    && (row.ocrStatus == NOT_APPLICABLE ==> next.ocrStatus == NOT_APPLICABLE)
  }

  lemma RowContinues(cfg: Config, ocrOn: bool, now: Time, row: Row, tx: Tx)
    requires RowOk(cfg, ocrOn, now, row) && Matches(cfg, row, now, tx)
    ensures Continues(row, NewRow(cfg, row, now, tx))
  {
  }

  // ----- The audit events a change of state comes with -----

  function Bit(b: bool): nat {
    if b then 1 else 0
  }

  predicate IsFailure(r: Option<NewResult>) {
    r.Some? && r.value.errorCode.Some?
  }

  predicate IsCompletion(r: Option<NewResult>) {
    r.Some? && r.value.errorCode.None?
  }

  predicate ScanBalanced(row: Row, next: Row, e: Option<Action>) {
    && Bit(next.status == SCAN_FAILED) + Bit(e == Some(ScanReprocessed))
    == Bit(row.status == SCAN_FAILED) + Bit(e == Some(ScanFailed))
    && Bit(next.status == CLEAN) == Bit(row.status == CLEAN) + Bit(e == Some(ScanClean))
    && Bit(next.status == INFECTED) == Bit(row.status == INFECTED) + Bit(e == Some(ScanInfected))
  }

  predicate OcrBalanced(row: Row, next: Row, e: Option<Action>, r: Option<NewResult>) {
    && Bit(next.ocrStatus == FAILED) + Bit(e == Some(OcrReprocessed))
    == Bit(row.ocrStatus == FAILED) + Bit(e == Some(OcrFailed))
    && Bit(next.ocrStatus == COMPLETED) == Bit(row.ocrStatus == COMPLETED) + Bit(e == Some(OcrCompleted))
    && (e == Some(OcrFailed) <==> IsFailure(r))
    && (e == Some(OcrCompleted) <==> IsCompletion(r))
  }

  lemma ScanEventsMatch(cfg: Config, ocrOn: bool, now: Time, row: Row, tx: Tx)
    requires RowOk(cfg, ocrOn, now, row) && Matches(cfg, row, now, tx)
    ensures ScanBalanced(row, NewRow(cfg, row, now, tx), EventOf(cfg, row, tx))
  {
  }

  lemma OcrEventsMatch(cfg: Config, ocrOn: bool, now: Time, row: Row, tx: Tx)
    requires RowOk(cfg, ocrOn, now, row) && Matches(cfg, row, now, tx)
    requires Justified(cfg, ocrOn, row, tx)
    ensures OcrBalanced(row, NewRow(cfg, row, now, tx), EventOf(cfg, row, tx), ResultOf(cfg, row, tx))
  {
  }

  /** Whoever leaves an OCR to be done leaves a job for it; nothing else reaches PENDING. */
  lemma PendingHasJob(cfg: Config, ocrOn: bool, now: Time, row: Row, tx: Tx)
    requires RowOk(cfg, ocrOn, now, row) && Matches(cfg, row, now, tx)
    requires Justified(cfg, ocrOn, row, tx)
    ensures var next := NewRow(cfg, row, now, tx);
            next.ocrStatus == PENDING ==>
              JobOf(cfg, row, tx) == Some(NewJob(OcrQueue, if tx.ReleaseOcr? then tx.delay else 0))
  {
  }
}
