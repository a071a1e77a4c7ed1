/** What holds of every reachable state of the treatment, in the words of its documentation. */
module TreatmentTheorems {
  import opened Wrappers
  import opened FileType
  import opened TreatmentDb
  import opened TreatmentRows
  import opened TreatmentLedger
  import opened TreatmentMachine
  import opened TreatmentInvariants
  import opened TreatmentReachable

  /** The two states of a document only combine in these ways. */
  lemma JointState(cfg: Config, s: State, d: DocId)
    requires ValidConfig(cfg) && Reachable(cfg, s) && d in s.db.rows
    ensures var row := s.db.rows[d];
            && (row.ocrStatus != NOT_STARTED ==> s.ocrOn && (row.status == CLEAN || row.status == INFECTED))
            && (row.ocrStatus == NOT_APPLICABLE <==> s.ocrOn && row.status == INFECTED)
            && (row.sanitizedKey.Some? <==> row.status == CLEAN && row.fileType != PDF)
            && (row.sanitizedKey.Some? ==> row.sanitizedKey.value == row.storageKey + ".sanitized")
            && (row.scanSignature.Some? <==> row.status == INFECTED)
            && (row.scannedAt.Some? <==> row.status == CLEAN || row.status == INFECTED || row.status == SCAN_FAILED)
  {
    ReachableOk(cfg, s);
    assert RowOk(cfg, s.ocrOn, s.db.now, s.db.rows[d]);
  }

  /** Every failure, reprocessing and result of the security treatment is in the audit log exactly once. */
  lemma ScanAuditConserved(cfg: Config, s: State, d: DocId)
    requires ValidConfig(cfg) && Reachable(cfg, s)
    ensures Count(s.db.audit, ScanFailed, d)
         == Count(s.db.audit, ScanReprocessed, d) + Bit(HasStatus(s.db, d, SCAN_FAILED))
    ensures Count(s.db.audit, ScanClean, d) + Count(s.db.audit, ScanInfected, d)
         == Bit(HasStatus(s.db, d, CLEAN) || HasStatus(s.db, d, INFECTED))
    ensures Count(s.db.audit, ScanClean, d) == 1 <==> HasStatus(s.db, d, CLEAN)
  {
    ReachableOk(cfg, s);
    assert ScanAccounted(s.db, d);
  }

  /** The same for the OCR, whose results are counted too. */
  lemma OcrAuditConserved(cfg: Config, s: State, d: DocId)
    requires ValidConfig(cfg) && Reachable(cfg, s)
    ensures Count(s.db.audit, OcrFailed, d) == CountResults(s.db.results, false, d)
         == Count(s.db.audit, OcrReprocessed, d) + Bit(HasOcr(s.db, d, FAILED))
    ensures Count(s.db.audit, OcrCompleted, d) == CountResults(s.db.results, true, d)
         == Bit(HasOcr(s.db, d, COMPLETED))
  {
    ReachableOk(cfg, s);
    assert OcrAccounted(s.db, d);
  }

  /**
   An OCR to be done always has a job that will do it: in the queue, delayed, or delivered only to
   handlers that have claimed nothing with it and will not make it go away before they do.
   */
  lemma NoStrandedOcr(cfg: Config, s: State, d: DocId)
    requires ValidConfig(cfg) && Reachable(cfg, s) && HasOcr(s.db, d, PENDING)
    ensures HasStatus(s.db, d, CLEAN)
    ensures exists job :: Waiting(s.db, s.readers, job, d)
  {
    ReachableOk(cfg, s);
    assert RowOk(cfg, s.ocrOn, s.db.now, s.db.rows[d]);
  }

  lemma PendingIsClaimed(cfg: Config, s: State, h: nat, answer: OcrAnswer)
    requires h in s.readers && s.readers[h].pc.OcrDelivered? && HasOcr(s.db, s.readers[h].doc, PENDING)
    requires RowOk(cfg, s.ocrOn, s.db.now, s.db.rows[s.readers[h].doc])
    ensures OcrHoldsIn(OcrStepped(cfg, s, h, Done, answer).db, OcrStepped(cfg, s, h, Done, answer).readers[h].pc)
  {
  }

  /** And claiming with a delivered job of it succeeds: the handler's first transaction makes it the holder. */
  lemma WaitingJobClaims(cfg: Config, s: State, h: nat, answer: OcrAnswer)
    requires ValidConfig(cfg) && Reachable(cfg, s)
    requires h in s.readers && s.readers[h].pc.OcrDelivered? && HasOcr(s.db, s.readers[h].doc, PENDING)
    ensures OcrHoldsIn(OcrStepped(cfg, s, h, Done, answer).db, OcrStepped(cfg, s, h, Done, answer).readers[h].pc)
  {
    ReachableOk(cfg, s);
    PendingIsClaimed(cfg, s, h, answer);
  }

  /** What assertOcrStartupPreconditions and activateOcr count. */
  predicate NoViolations(db: Db) {
    forall d :: d in db.rows ==> !ViolatesActivation(db.rows[d])
  }

  /** The check inside the activation never aborts it, whatever the table holds. */
  lemma ActivationNeverAborts(db: Db)
    ensures NoViolations(Activated(db))
    ensures forall d :: d in db.rows && !ViolatesActivation(db.rows[d]) ==>
              Activated(db).rows[d] == db.rows[d] || db.rows[d].status == INFECTED
  {
  }

  /** A worker with the OCR on starts exactly when the activation has run, or had nothing to do. */
  lemma StartsExactlyWhenActivated(cfg: Config, s: State)
    requires ValidConfig(cfg) && Reachable(cfg, s)
    ensures NoViolations(s.db) <==> s.ocrOn || forall d :: d in s.db.rows ==> s.db.rows[d].status != CLEAN
  {
    ReachableOk(cfg, s);
    forall d | d in s.db.rows
      ensures s.ocrOn ==> !ViolatesActivation(s.db.rows[d])
      ensures !s.ocrOn ==> (ViolatesActivation(s.db.rows[d]) <==> s.db.rows[d].status == CLEAN)
    {
      assert RowOk(cfg, s.ocrOn, s.db.now, s.db.rows[d]);
    }
  }
}
