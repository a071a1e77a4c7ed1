/**
 Fencing: a claim is a token written in its row. These lemmas say, for one transaction, what happens
 to a claim somebody else is holding: it stays theirs or is lost, and once lost it stays lost.
 They use nothing but a clock that does not go back.
 */
module TreatmentFencing {
  import opened Wrappers
  import opened TreatmentDb
  import opened TreatmentRows

  /** Nothing can make this claim the row's again. */
  predicate ScanOvertaken(db: Db, c: ScanClaim) {
    && !HoldsScan(db, c)
    && c.doc in db.rows
    && (c.token < db.now || db.rows[c.doc].status == CLEAN || db.rows[c.doc].status == INFECTED)
  }

  /** What is true of the claim of every handler that may still write. */
  predicate ScanFence(db: Db, c: ScanClaim) {
    && c.doc in db.rows
    && var row := db.rows[c.doc];
    && c.fileType == row.fileType && c.storageKey == row.storageKey && c.fileSize == row.fileSize
    && c.token <= db.now
    && (HoldsScan(db, c) ==> row.scanAttempts == c.attempts)
    && (HoldsScan(db, c) || ScanOvertaken(db, c))
  }

  predicate OcrOvertaken(db: Db, c: OcrClaim) {
    !HoldsOcr(db, c) && c.token < db.now
  }

  predicate OcrFence(db: Db, c: OcrClaim) {
    && c.doc in db.rows
    && var row := db.rows[c.doc];
    && row.status == CLEAN
    && c.fileType == row.fileType && c.storageKey == row.storageKey && c.fileSize == row.fileSize
    && c.sanitizedKey == row.sanitizedKey
    && c.token <= db.now
    && (HoldsOcr(db, c) ==> row.ocrAttempts == c.attempts)
    && (HoldsOcr(db, c) || OcrOvertaken(db, c))
  }

  /** The claim this transaction gives back or turns into a result that can be undone. */
  predicate EndsScan(tx: Tx, c: ScanClaim) {
    match tx
    case FinishScan(claim, verdict, _) => verdict.Failed? && claim.doc == c.doc && claim.token == c.token
    case ReleaseScan(claim) => claim.doc == c.doc && claim.token == c.token
    case _ => false
  }

  predicate EndsOcr(tx: Tx, c: OcrClaim) {
    match tx
    case CompleteOcr(claim, _) => claim.doc == c.doc && claim.token == c.token
    case FailOcr(claim, _) => claim.doc == c.doc && claim.token == c.token
    case ReleaseOcr(claim, _) => claim.doc == c.doc && claim.token == c.token
    case ExcludeOcr(claim) => claim.doc == c.doc && claim.token == c.token
    case _ => false
  }

  /** A transaction that hits another document leaves a claim exactly as it was. */
  lemma OtherDocument(cfg: Config, db: Db, tx: Tx, d: DocId)
    requires DocOf(tx) != d
    ensures d in Commit(cfg, db, tx).rows <==> d in db.rows
    ensures d in db.rows ==> Commit(cfg, db, tx).rows[d] == db.rows[d]
  {
  }

  lemma ScanFenceRow(cfg: Config, ocrOn: bool, db: Db, tx: Tx, c: ScanClaim)
    requires Hits(cfg, db, tx) && DocOf(tx) == c.doc && RowOk(cfg, ocrOn, db.now, db.rows[c.doc])
    requires ScanFence(db, c) && !(HoldsScan(db, c) && EndsScan(tx, c))
    ensures ScanFence(Write(db, WritesOf(cfg, db, tx)), c)
    ensures HoldsScan(Write(db, WritesOf(cfg, db, tx)), c) ==> HoldsScan(db, c)
  {
  }

  /** A claim its handler does not end itself survives a transaction or is overtaken by it. */
  lemma ScanFenceKept(cfg: Config, ocrOn: bool, db: Db, tx: Tx, c: ScanClaim)
    requires c.doc in db.rows && RowOk(cfg, ocrOn, db.now, db.rows[c.doc])
    requires ScanFence(db, c) && !(HoldsScan(db, c) && EndsScan(tx, c))
    ensures ScanFence(Commit(cfg, db, tx), c)
    ensures HoldsScan(Commit(cfg, db, tx), c) ==> HoldsScan(db, c)
  {
    if DocOf(tx) != c.doc {
      OtherDocument(cfg, db, tx, c.doc);
    } else if Hits(cfg, db, tx) {
      ScanFenceRow(cfg, ocrOn, db, tx, c);
    }
  }

  /** A new claim is its row's, and no other claim is any more. */
  lemma NewScanClaim(cfg: Config, ocrOn: bool, db: Db, d: DocId)
    requires d in db.rows && RowOk(cfg, ocrOn, db.now, db.rows[d])
    requires ScanClaimOf(cfg, db, d).Some?
    ensures var next, c := Commit(cfg, db, ClaimScan(d)), ScanClaimOf(cfg, db, d).value;
            c.doc == d && ScanFence(next, c) && HoldsScan(next, c)
  {
  }

  lemma ClaimOvertakes(cfg: Config, ocrOn: bool, db: Db, d: DocId, c: ScanClaim)
    requires d in db.rows && RowOk(cfg, ocrOn, db.now, db.rows[d])
    requires ScanClaimOf(cfg, db, d).Some? && ScanFence(db, c) && c.doc == d
    ensures ScanOvertaken(Commit(cfg, db, ClaimScan(d)), c)
  {
  }

  lemma OcrFenceRow(cfg: Config, ocrOn: bool, db: Db, tx: Tx, c: OcrClaim)
    requires Hits(cfg, db, tx) && DocOf(tx) == c.doc && RowOk(cfg, ocrOn, db.now, db.rows[c.doc])
    requires OcrFence(db, c) && !(HoldsOcr(db, c) && EndsOcr(tx, c))
    ensures OcrFence(Write(db, WritesOf(cfg, db, tx)), c)
    ensures HoldsOcr(Write(db, WritesOf(cfg, db, tx)), c) ==> HoldsOcr(db, c)
  {
  }

  lemma OcrFenceKept(cfg: Config, ocrOn: bool, db: Db, tx: Tx, c: OcrClaim)
    requires c.doc in db.rows && RowOk(cfg, ocrOn, db.now, db.rows[c.doc])
    requires OcrFence(db, c) && !(HoldsOcr(db, c) && EndsOcr(tx, c))
    ensures OcrFence(Commit(cfg, db, tx), c)
    ensures HoldsOcr(Commit(cfg, db, tx), c) ==> HoldsOcr(db, c)
  {
    if DocOf(tx) != c.doc {
      OtherDocument(cfg, db, tx, c.doc);
    } else if Hits(cfg, db, tx) {
      OcrFenceRow(cfg, ocrOn, db, tx, c);
    }
  }

  lemma NewOcrClaim(cfg: Config, ocrOn: bool, db: Db, d: DocId)
    requires d in db.rows && RowOk(cfg, ocrOn, db.now, db.rows[d])
    requires OcrClaimOf(cfg, db, d).Some?
    ensures var next, c := Commit(cfg, db, ClaimOcr(d)), OcrClaimOf(cfg, db, d).value;
            c.doc == d && OcrFence(next, c) && HoldsOcr(next, c)
  {
  }

  lemma OcrClaimOvertakes(cfg: Config, ocrOn: bool, db: Db, d: DocId, c: OcrClaim)
    requires d in db.rows && RowOk(cfg, ocrOn, db.now, db.rows[d])
    requires OcrClaimOf(cfg, db, d).Some? && OcrFence(db, c) && c.doc == d
    ensures OcrOvertaken(Commit(cfg, db, ClaimOcr(d)), c)
  {
  }
}
