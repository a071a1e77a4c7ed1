/** The invariant of the treatment: what is true of every reachable state. */
module TreatmentInvariants {
  import opened Wrappers
  import opened Bytes
  import opened FileType
  import opened Sanitizer
  import opened TreatmentDb
  import opened TreatmentRows
  import opened TreatmentLedger
  import opened TreatmentFencing
  import opened TreatmentMachine

  // ----- Claims in flight -----

  /** The claim of a handler that may still write its document's row. */
  function ClaimIn(pc: ScanPc): Option<ScanClaim> {
    match pc
    case Reading(c) => Some(c)
    case Analysing(c, _) => Some(c)
    case Storing(c, _) => Some(c)
    case Marking(c, _) => Some(c)
    case Failing(c) => Some(c)
    case _ => None
  }

  function OcrClaimIn(pc: OcrPc): Option<OcrClaim> {
    match pc
    case Excluding(c) => Some(c)
    case OcrReading(c) => Some(c)
    case Recognizing(c, _) => Some(c)
    case Completing(c, _) => Some(c)
    case OcrFailing(c, _, _) => Some(c)
    case _ => None
  }

  predicate HoldsIn(db: Db, pc: ScanPc) {
    ClaimIn(pc).Some? && HoldsScan(db, ClaimIn(pc).value)
  }

  predicate OcrHoldsIn(db: Db, pc: OcrPc) {
    OcrClaimIn(pc).Some? && HoldsOcr(db, OcrClaimIn(pc).value)
  }

  predicate BothHold(db: Db, p: ScanPc, q: ScanPc) {
    HoldsIn(db, p) && HoldsIn(db, q) && ClaimIn(p).value.doc == ClaimIn(q).value.doc
  }

  predicate OcrBothHold(db: Db, p: OcrPc, q: OcrPc) {
    OcrHoldsIn(db, p) && OcrHoldsIn(db, q) && OcrClaimIn(p).value.doc == OcrClaimIn(q).value.doc
  }

  /** At most one handler in flight holds a claim that is still a given row's. */
  predicate OneHolder(db: Db, scanners: map<nat, Scanner>) {
    forall h, k :: h in scanners && k in scanners && h != k ==> !BothHold(db, scanners[h].pc, scanners[k].pc)
  }

  predicate OneOcrHolder(db: Db, readers: map<nat, Reader>) {
    forall h, k :: h in readers && k in readers && h != k ==> !OcrBothHold(db, readers[h].pc, readers[k].pc)
  }

  // ----- Handlers -----

  predicate JobIs(db: Db, job: nat, queue: Queue, d: DocId) {
    job < db.nextJob && (job in db.jobs ==> db.jobs[job].queue == queue && db.jobs[job].doc == d)
  }

  predicate WasCleared(uploaded: map<DocId, Buffer>, answers: Answers, d: DocId) {
    d in uploaded && (uploaded[d], SaysClean) in answers
  }

  predicate WasFlagged(uploaded: map<DocId, Buffer>, answers: Answers, d: DocId, signature: Option<string>) {
    d in uploaded && signature.Some? && (uploaded[d], SaysInfected(signature.value)) in answers
  }

  predicate IsCopy(uploaded: map<DocId, Buffer>, fileType: FileType, d: DocId, copy: Buffer) {
    d in uploaded && Sanitized(fileType, uploaded[d]) == Some(copy)
  }

  /** What a handler carries: the uploaded bytes, their copy, a verdict the antivirus gave. */
  predicate ScanDataOk(uploaded: map<DocId, Buffer>, answers: Answers, pc: ScanPc) {
    match pc
    case Analysing(c, content) => c.doc in uploaded && content == uploaded[c.doc]
    case Storing(c, copy) => IsCopy(uploaded, c.fileType, c.doc, copy) && WasCleared(uploaded, answers, c.doc)
    case Marking(c, verdict) =>
      && !verdict.Failed?
      && (verdict.Infected? ==> WasFlagged(uploaded, answers, c.doc, Some(verdict.signature)))
      && (verdict.Clean? ==>
            && WasCleared(uploaded, answers, c.doc)
            && verdict.sanitizedKey == if c.fileType == PDF then None else Some(SanitizedKeyOf(c.storageKey)))
    case _ => true
  }

  predicate OwnsKey(db: Db, c: ScanClaim) {
    c.doc in db.rows && db.rows[c.doc].storageKey == c.storageKey
  }

  predicate ScannerOk(db: Db, uploaded: map<DocId, Buffer>, answers: Answers, sc: Scanner) {
    && JobIs(db, sc.job, ScanQueue, sc.doc)
    && (ClaimIn(sc.pc).Some? ==> ScanFence(db, ClaimIn(sc.pc).value) && ClaimIn(sc.pc).value.doc == sc.doc)
    && ScanDataOk(uploaded, answers, sc.pc)
    && (sc.pc.Deleting? ==> OwnsKey(db, sc.pc.claim))
  }

  /** What the OCR provider is given: the bytes that were cleared, or their copy without metadata. */
  predicate OcrDataOk(cfg: Config, uploaded: map<DocId, Buffer>, answers: Answers, pc: OcrPc) {
    match pc
    case Recognizing(c, content) =>
      && WasCleared(uploaded, answers, c.doc)
      && if ProcessesOriginal(cfg, c) then content == uploaded[c.doc] else IsCopy(uploaded, c.fileType, c.doc, content)
    case Completing(_, texts) => 1 <= |texts| <= cfg.maxPages
    case _ => true
  }

  predicate ReaderOk(cfg: Config, db: Db, uploaded: map<DocId, Buffer>, answers: Answers, r: Reader) {
    && JobIs(db, r.job, OcrQueue, r.doc)
    && (OcrClaimIn(r.pc).Some? ==> OcrFence(db, OcrClaimIn(r.pc).value))
    && OcrDataOk(cfg, uploaded, answers, r.pc)
  }

  // ----- Object storage -----

  predicate DistinctKeys(db: Db) {
    forall d, e :: d in db.rows && e in db.rows && d != e ==> db.rows[d].storageKey != db.rows[e].storageKey
  }

  /** A document's original is what was uploaded, and its copy is the original without metadata. */
  predicate ObjectsOk(row: Row, d: DocId, objects: map<Key, Buffer>, uploaded: map<DocId, Buffer>,
                      answers: Answers) {
    && d in uploaded && |uploaded[d]| == row.fileSize
    && (row.storageKey in objects ==> objects[row.storageKey] == uploaded[d])
    && (SanitizedKeyOf(row.storageKey) in objects ==>
          && IsCopy(uploaded, row.fileType, d, objects[SanitizedKeyOf(row.storageKey)])
          && WasCleared(uploaded, answers, d))
    && (row.status == CLEAN ==> WasCleared(uploaded, answers, d))
    && (row.status == INFECTED ==> WasFlagged(uploaded, answers, d, row.scanSignature))
  }

  predicate StorageOk(db: Db, objects: map<Key, Buffer>, uploaded: map<DocId, Buffer>, answers: Answers) {
    forall d :: d in db.rows ==> ObjectsOk(db.rows[d], d, objects, uploaded, answers)
  }

  // ----- Jobs -----

  /** This OCR job is queued, delayed, or with handlers that have claimed nothing with it. */
  predicate Waiting(db: Db, readers: map<nat, Reader>, job: nat, d: DocId) {
    && job in db.jobs && db.jobs[job].queue == OcrQueue && db.jobs[job].doc == d
    && forall h :: h in readers && readers[h].job == job ==> readers[h].pc.OcrDelivered? || readers[h].pc.OcrThrowing?
  }

  /** No OCR is left to be done without a job that will do it. */
  ghost predicate NoneStranded(db: Db, readers: map<nat, Reader>) {
    forall d :: HasOcr(db, d, PENDING) ==> exists job :: Waiting(db, readers, job, d)
  }

  predicate JobsOk(db: Db) {
    forall job :: job in db.jobs ==> job < db.nextJob
  }

  // ----- All of it -----

  predicate ScannersOk(s: State) {
    forall h :: h in s.scanners ==> h < s.nextHandler && ScannerOk(s.db, s.uploaded, s.answers, s.scanners[h])
  }

  predicate ReadersOk(cfg: Config, s: State) {
    forall h :: h in s.readers ==> h < s.nextHandler && ReaderOk(cfg, s.db, s.uploaded, s.answers, s.readers[h])
  }

  ghost predicate Inv(cfg: Config, s: State) {
    && DbOk(cfg, s.ocrOn, s.db)
    && DistinctKeys(s.db)
    && StorageOk(s.db, s.objects, s.uploaded, s.answers)
    && ScannersOk(s) && OneHolder(s.db, s.scanners)
    && ReadersOk(cfg, s) && OneOcrHolder(s.db, s.readers)
    && JobsOk(s.db) && NoneStranded(s.db, s.readers)
  }

  // ----- One transaction, seen by everybody else -----

  /** What a transaction leaves of a database, whoever asked for it. */
  predicate Extends(db: Db, next: Db) {
    && next.now == db.now && next.nextJob >= db.nextJob
    && db.rows.Keys == next.rows.Keys
    && (forall d :: d in db.rows ==> Continues(db.rows[d], next.rows[d]))
    && (forall job :: job in db.jobs ==> job in next.jobs && next.jobs[job] == db.jobs[job])
    && (forall job :: job in next.jobs && job < db.nextJob ==> job in db.jobs)
  }

  lemma WriteExtends(db: Db, w: Writes)
    requires JobsOk(db) && w.doc in db.rows && Continues(db.rows[w.doc], w.row)
    ensures Extends(db, Write(db, w)) && JobsOk(Write(db, w))
  {
  }

  lemma CommitExtends(cfg: Config, ocrOn: bool, db: Db, tx: Tx)
    requires DbOk(cfg, ocrOn, db) && JobsOk(db)
    ensures Extends(db, Commit(cfg, db, tx)) && JobsOk(Commit(cfg, db, tx))
  {
    if Hits(cfg, db, tx) {
      RowContinues(cfg, ocrOn, db.now, db.rows[DocOf(tx)], tx);
      WriteExtends(db, WritesOf(cfg, db, tx));
    }
  }

  lemma KeysStayDistinct(db: Db, next: Db)
    requires DistinctKeys(db) && Extends(db, next)
    ensures DistinctKeys(next)
  {
  }

  /** Only the transaction that records a verdict makes a document CLEAN or INFECTED. */
  lemma OnlyByVerdict(cfg: Config, db: Db, tx: Tx, d: DocId)
    ensures HasStatus(Commit(cfg, db, tx), d, CLEAN) && !HasStatus(db, d, CLEAN) ==>
              tx.FinishScan? && tx.verdict.Clean? && HoldsScan(db, tx.claim) && tx.claim.doc == d
    ensures HasStatus(Commit(cfg, db, tx), d, INFECTED) && !HasStatus(db, d, INFECTED) ==>
              && tx.FinishScan? && tx.verdict.Infected? && HoldsScan(db, tx.claim) && tx.claim.doc == d
              && Commit(cfg, db, tx).rows[d].scanSignature == Some(tx.verdict.signature)
  {
  }

  /** The verdict a transaction records is one the antivirus gave for exactly the document's bytes. */
  predicate VerdictGiven(s: State, tx: Tx) {
    tx.FinishScan? && HoldsScan(s.db, tx.claim) ==>
      && (tx.verdict.Clean? ==> WasCleared(s.uploaded, s.answers, tx.claim.doc))
      && (tx.verdict.Infected? ==> WasFlagged(s.uploaded, s.answers, tx.claim.doc, Some(tx.verdict.signature)))
  }

  lemma StorageAfterCommit(cfg: Config, s: State, tx: Tx)
    requires Inv(cfg, s) && VerdictGiven(s, tx)
    ensures StorageOk(Commit(cfg, s.db, tx), s.objects, s.uploaded, s.answers)
  {
    var next := Commit(cfg, s.db, tx);
    CommitExtends(cfg, s.ocrOn, s.db, tx);
    forall d | d in next.rows
      ensures ObjectsOk(next.rows[d], d, s.objects, s.uploaded, s.answers)
    {
      assert ObjectsOk(s.db.rows[d], d, s.objects, s.uploaded, s.answers);
      OnlyByVerdict(cfg, s.db, tx, d);
    }
  }

  lemma ScannerAfterCommit(cfg: Config, s: State, tx: Tx, h: nat)
    requires Inv(cfg, s) && h in s.scanners
    requires HoldsIn(s.db, s.scanners[h].pc) ==> !EndsScan(tx, ClaimIn(s.scanners[h].pc).value)
    ensures ScannerOk(Commit(cfg, s.db, tx), s.uploaded, s.answers, s.scanners[h])
    ensures HoldsIn(Commit(cfg, s.db, tx), s.scanners[h].pc) ==> HoldsIn(s.db, s.scanners[h].pc)
  {
    CommitExtends(cfg, s.ocrOn, s.db, tx);
    var pc := s.scanners[h].pc;
    if ClaimIn(pc).Some? {
      ScanFenceKept(cfg, s.ocrOn, s.db, tx, ClaimIn(pc).value);
    }
  }

  lemma ReaderAfterCommit(cfg: Config, s: State, tx: Tx, h: nat)
    requires Inv(cfg, s) && h in s.readers
    requires OcrHoldsIn(s.db, s.readers[h].pc) ==> !EndsOcr(tx, OcrClaimIn(s.readers[h].pc).value)
    ensures ReaderOk(cfg, Commit(cfg, s.db, tx), s.uploaded, s.answers, s.readers[h])
    ensures OcrHoldsIn(Commit(cfg, s.db, tx), s.readers[h].pc) ==> OcrHoldsIn(s.db, s.readers[h].pc)
  {
    CommitExtends(cfg, s.ocrOn, s.db, tx);
    var pc := s.readers[h].pc;
    if OcrClaimIn(pc).Some? {
      OcrFenceKept(cfg, s.ocrOn, s.db, tx, OcrClaimIn(pc).value);
    }
  }

  /** A transaction leaves a job for every OCR it leaves to be done. */
  lemma PendingAfterCommit(cfg: Config, s: State, tx: Tx, d: DocId)
    requires Inv(cfg, s) && JustifiedIn(cfg, s.ocrOn, s.db, tx)
    requires HasOcr(Commit(cfg, s.db, tx), d, PENDING)
    ensures
      var next := Commit(cfg, s.db, tx);
      || (DocOf(tx) == d && Hits(cfg, s.db, tx) && Waiting(next, s.readers, s.db.nextJob, d))
      || (HasOcr(s.db, d, PENDING) && !(DocOf(tx) == d && Hits(cfg, s.db, tx)))
  {
    if DocOf(tx) == d && Hits(cfg, s.db, tx) {
      PendingHasJob(cfg, s.ocrOn, s.db.now, s.db.rows[d], tx);
      forall h | h in s.readers
        ensures s.readers[h].job < s.db.nextJob
      {
      }
    }
  }

  lemma StillWaiting(db: Db, next: Db, readers: map<nat, Reader>, job: nat, d: DocId)
    requires Extends(db, next) && Waiting(db, readers, job, d)
    ensures Waiting(next, readers, job, d)
  {
  }

  lemma NoneStrandedAfterCommit(cfg: Config, s: State, tx: Tx)
    requires Inv(cfg, s) && JustifiedIn(cfg, s.ocrOn, s.db, tx)
    ensures NoneStranded(Commit(cfg, s.db, tx), s.readers)
  {
    var next := Commit(cfg, s.db, tx);
    CommitExtends(cfg, s.ocrOn, s.db, tx);
    forall d | HasOcr(next, d, PENDING)
      ensures exists job :: Waiting(next, s.readers, job, d)
    {
      PendingAfterCommit(cfg, s, tx, d);
      if HasOcr(s.db, d, PENDING) && !(DocOf(tx) == d && Hits(cfg, s.db, tx)) {
        var job :| Waiting(s.db, s.readers, job, d);
        StillWaiting(s.db, next, s.readers, job, d);
      }
    }
  }

  /** Transactions no handler asked for: sweeps and an ADMIN's reprocessings. */
  predicate FromOutside(tx: Tx) {
    tx.SweepFail? || tx.SweepRequeue? || tx.ReprocessScan? || tx.SweepOcr? || tx.ReprocessOcr?
  }

  predicate ByScanner(tx: Tx) {
    tx.FinishScan? || tx.ReleaseScan?
  }

  predicate ByReader(tx: Tx) {
    tx.CompleteOcr? || tx.FailOcr? || tx.ReleaseOcr? || tx.ExcludeOcr?
  }

  lemma ScannersAfterCommit(cfg: Config, s: State, tx: Tx)
    requires Inv(cfg, s) && !ByScanner(tx)
    ensures var next := s.(db := Commit(cfg, s.db, tx)); ScannersOk(next) && OneHolder(next.db, s.scanners)
  {
    forall h | h in s.scanners
      ensures ScannerOk(Commit(cfg, s.db, tx), s.uploaded, s.answers, s.scanners[h])
      ensures HoldsIn(Commit(cfg, s.db, tx), s.scanners[h].pc) ==> HoldsIn(s.db, s.scanners[h].pc)
    {
      ScannerAfterCommit(cfg, s, tx, h);
    }
  }

  lemma ReadersAfterCommit(cfg: Config, s: State, tx: Tx)
    requires Inv(cfg, s) && !ByReader(tx)
    ensures var next := s.(db := Commit(cfg, s.db, tx)); ReadersOk(cfg, next) && OneOcrHolder(next.db, s.readers)
  {
    forall h | h in s.readers
      ensures ReaderOk(cfg, Commit(cfg, s.db, tx), s.uploaded, s.answers, s.readers[h])
      ensures OcrHoldsIn(Commit(cfg, s.db, tx), s.readers[h].pc) ==> OcrHoldsIn(s.db, s.readers[h].pc)
    {
      ReaderAfterCommit(cfg, s, tx, h);
    }
  }

  lemma OutsideKeeps(cfg: Config, s: State, tx: Tx)
    requires ValidConfig(cfg) && Inv(cfg, s) && FromOutside(tx)
    ensures Inv(cfg, s.(db := Commit(cfg, s.db, tx)))
  {
    DbKept(cfg, s.ocrOn, s.db, tx);
    CommitExtends(cfg, s.ocrOn, s.db, tx);
    KeysStayDistinct(s.db, Commit(cfg, s.db, tx));
    StorageAfterCommit(cfg, s, tx);
    ScannersAfterCommit(cfg, s, tx);
    ReadersAfterCommit(cfg, s, tx);
    NoneStrandedAfterCommit(cfg, s, tx);
  }

  /** A sweep is several of them at one instant. */
  lemma {:induction false} OutsideAllKeep(cfg: Config, s: State, txs: seq<Tx>)
    requires ValidConfig(cfg) && Inv(cfg, s) && forall i :: 0 <= i < |txs| ==> FromOutside(txs[i])
    ensures Inv(cfg, s.(db := CommitAll(cfg, s.db, txs)))
    decreases |txs|
  {
    if txs != [] {
      OutsideKeeps(cfg, s, txs[0]);
      OutsideAllKeep(cfg, s.(db := Commit(cfg, s.db, txs[0])), txs[1..]);
    } else {
      assert s.(db := CommitAll(cfg, s.db, txs)) == s;
    }
  }
}
