/**
 The worker's repositories over in-memory tables, updated in place as the SQL does it: each method is
 one transaction, and is proved to do to the tables exactly what the transactions of TreatmentDb do.
 */
module WorkerDatabase {
  import opened Wrappers
  import opened TreatmentDb

  /** The documents the transactions of a sweep act on, in their order. */
  function DocsHit(cfg: Config, db: Db, txs: seq<Tx>): seq<DocId>
    decreases |txs|
  {
    if txs == [] then []
    else (if Hits(cfg, db, txs[0]) then [DocOf(txs[0])] else []) + DocsHit(cfg, Commit(cfg, db, txs[0]), txs[1..])
  }

  lemma {:induction false} CommitAllAppend(cfg: Config, db: Db, txs: seq<Tx>, tx: Tx)
    ensures CommitAll(cfg, db, txs + [tx]) == Commit(cfg, CommitAll(cfg, db, txs), tx)
    ensures DocsHit(cfg, db, txs + [tx])
         == DocsHit(cfg, db, txs) + if Hits(cfg, CommitAll(cfg, db, txs), tx) then [DocOf(tx)] else []
    decreases |txs|
  {
    if txs == [] {
      assert [] + [tx] == [tx] && [tx][1..] == [];
    } else {
      assert (txs + [tx])[1..] == txs[1..] + [tx];
      CommitAllAppend(cfg, Commit(cfg, db, txs[0]), txs[1..], tx);
    }
  }

  lemma {:induction false} CommitAllJoin(cfg: Config, db: Db, a: seq<Tx>, b: seq<Tx>)
    ensures CommitAll(cfg, db, a + b) == CommitAll(cfg, CommitAll(cfg, db, a), b)
    decreases |a|
  {
    if a == [] {
      assert a + b == b;
    } else {
      assert (a + b)[1..] == a[1..] + b;
      CommitAllJoin(cfg, Commit(cfg, db, a[0]), a[1..], b);
    }
  }

  /** What the sweep does about one document. */
  datatype Recovery = LeftAlone | SentBack | GivenUp

  function RecoveryOf(cfg: Config, db: Db, d: DocId): Recovery {
    if !Hits(cfg, db, SweepOcr(d)) then LeftAlone
    else if db.rows[d].ocrAttempts >= cfg.ocrMaxAttempts then GivenUp
    else SentBack
  }

  /** The documents of a sweep it does this about, in order. */
  function DocsGiven(cfg: Config, db: Db, docs: seq<DocId>, recovery: Recovery): seq<DocId> {
    if docs == [] then []
    else
      var last := |docs| - 1;
      DocsGiven(cfg, db, docs[..last], recovery)
      + if RecoveryOf(cfg, CommitAll(cfg, db, OcrSweepAll(docs[..last])), docs[last]) == recovery
        then [docs[last]] else []
  }

  lemma DocsGivenNext(cfg: Config, db: Db, docs: seq<DocId>, i: nat, recovery: Recovery)
    requires i < |docs|
    ensures DocsGiven(cfg, db, docs[..i + 1], recovery)
         == DocsGiven(cfg, db, docs[..i], recovery)
          + if RecoveryOf(cfg, CommitAll(cfg, db, OcrSweepAll(docs[..i])), docs[i]) == recovery then [docs[i]] else []
  {
    assert docs[..i + 1][..i] == docs[..i];
  }

  lemma OcrSweepNext(cfg: Config, db: Db, docs: seq<DocId>, i: nat)
    requires i < |docs|
    ensures CommitAll(cfg, db, OcrSweepAll(docs[..i + 1]))
         == Commit(cfg, CommitAll(cfg, db, OcrSweepAll(docs[..i])), SweepOcr(docs[i]))
  {
    CommitAllAppend(cfg, db, OcrSweepAll(docs[..i]), SweepOcr(docs[i]));
    assert OcrSweepAll(docs[..i + 1]) == OcrSweepAll(docs[..i]) + [SweepOcr(docs[i])];
  }

  lemma PageRowsNext(result: nat, texts: seq<string>, i: nat)
    requires i < |texts|
    ensures PageRows(result, texts[..i + 1]) == PageRows(result, texts[..i])[(result, i + 1) := texts[i]]
  {
  }

  lemma MergeInsert<K, V>(a: map<K, V>, b: map<K, V>, k: K, v: V)
    ensures a + b[k := v] == (a + b)[k := v]
  {
  }

  lemma NoPages(pages: map<(nat, nat), string>, result: nat)
    ensures pages + PageRows(result, []) == pages
  {
  }

  function ExcludedRow(row: Row): Row {
    if row.status == CLEAN && row.ocrStatus == NOT_STARTED then row.(ocrStatus := EXCLUDED) else row
  }

  /** The documents of this status whose OCR is not decided yet. */
  function Undecided(rows: map<DocId, Row>, status: DocStatus): set<DocId> {
    set d | d in rows && rows[d].status == status && rows[d].ocrStatus == NOT_STARTED
  }

  function NotApplicableRow(row: Row): Row {
    if row.status == INFECTED && row.ocrStatus == NOT_STARTED then row.(ocrStatus := NOT_APPLICABLE) else row
  }

  class Database {
    var rows: map<DocId, Row>
    var audit: seq<Event>
    var results: seq<OcrResult>
    var pages: map<(nat, nat), string>
    var jobs: map<nat, Job>
    var nextJob: nat
    var now: Time
    const cfg: Config

    constructor (cfg: Config, now: Time)
      ensures View() == Db(map[], [], [], map[], map[], 0, now) && this.cfg == cfg
    {
      this.cfg := cfg;
      this.now := now;
      rows, audit, results, pages, jobs, nextJob := map[], [], [], map[], map[], 0;
    }

    function View(): Db
      reads this
    {
      Db(rows, audit, results, pages, jobs, nextJob, now)
    }

    /** boss.send with the transaction's connection. */
    method Send(queue: Queue, d: DocId, delay: nat)
      modifies `jobs, `nextJob
      ensures jobs == old(jobs)[old(nextJob) := Job(queue, d, now + delay)] && nextJob == old(nextJob) + 1
    {
      jobs := jobs[nextJob := Job(queue, d, now + delay)];
      nextJob := nextJob + 1;
    }

    method InsertEvent(action: Action, d: DocId)
      modifies `audit
      ensures audit == old(audit) + [Event(action, d, now)]
    {
      audit := audit + [Event(action, d, now)];
    }

    // ----- scan.repository.ts -----

    method Claim(d: DocId) returns (claim: Option<ScanClaim>)
      modifies this
      ensures View() == Commit(cfg, old(View()), ClaimScan(d))
      ensures claim == ScanClaimOf(cfg, old(View()), d)
    {
      if d !in rows {
        return None;
      }
      var row := rows[d];
      if row.status != PENDING_SCAN && !(row.status == SCANNING && Expired(row.scanStartedAt, cfg.lease, now)) {
        return None;
      }
      rows := rows[d := row.(status := SCANNING, scanAttempts := row.scanAttempts + 1, scanStartedAt := Some(now))];
      return Some(ScanClaim(d, row.fileType, row.storageKey, row.fileSize, row.scanAttempts + 1, now));
    }

    method Finish(claim: ScanClaim, verdict: ScanVerdict, ocr: OcrActivation) returns (recorded: bool)
      modifies this
      ensures View() == Commit(cfg, old(View()), FinishScan(claim, verdict, ocr))
      ensures recorded == old(HoldsScan(View(), claim))
    {
      var ocrStatus := OcrStatusFor(claim.fileType, verdict, ocr);
      if !HoldsScan(View(), claim) {
        return false;
      }
      var row := rows[claim.doc];
      row := row.(status := StatusOf(verdict), scannedAt := Some(now));
      row := row.(scanSignature := if verdict.Infected? then Some(verdict.signature) else None);
      row := row.(sanitizedKey := if verdict.Clean? then verdict.sanitizedKey else None);
      if ocrStatus.Some? {
        row := row.(ocrStatus := ocrStatus.value);
      }
      rows := rows[claim.doc := row];
      if ocrStatus == Some(PENDING) {
        Send(OcrQueue, claim.doc, 0);
      }
      InsertEvent(ActionOf(verdict), claim.doc);
      return true;
    }

    method Release(claim: ScanClaim) returns (released: bool)
      modifies this
      ensures View() == Commit(cfg, old(View()), ReleaseScan(claim))
      ensures released == old(HoldsScan(View(), claim))
    {
      if !HoldsScan(View(), claim) {
        return false;
      }
      rows := rows[claim.doc := rows[claim.doc].(status := PENDING_SCAN, scanStartedAt := None)];
      return true;
    }

    // ----- queue.ts -----

    method FailAbandoned(d: DocId) returns (failed: bool)
      modifies this
      ensures View() == Commit(cfg, old(View()), SweepFail(d)) && failed == old(Hits(cfg, View(), SweepFail(d)))
    {
      if d !in rows || !ScanAbandoned(rows[d], cfg.lease, now) || rows[d].scanAttempts < cfg.maxAttempts {
        return false;
      }
      rows := rows[d := rows[d].(status := SCAN_FAILED, scannedAt := Some(now))];
      InsertEvent(ScanFailed, d);
      return true;
    }

    method RequeueUntreated(d: DocId) returns (requeued: bool)
      modifies this
      ensures View() == Commit(cfg, old(View()), SweepRequeue(d))
      ensures requeued == old(Hits(cfg, View(), SweepRequeue(d)))
    {
      if d !in rows {
        return false;
      }
      var row := rows[d];
      if row.status != UPLOADED && !(ScanAbandoned(row, cfg.lease, now) && row.scanAttempts < cfg.maxAttempts) {
        return false;
      }
      rows := rows[d := row.(status := PENDING_SCAN, scanStartedAt := None)];
      Send(ScanQueue, d, 0);
      return true;
    }

    /** `locked` are the rows no other transaction holds. */
    method SweepUntreatedDocuments(locked: seq<DocId>) returns (requeued: seq<DocId>, failed: seq<DocId>)
      modifies this
      ensures View() == CommitAll(cfg, old(View()), FailAll(locked) + RequeueAll(locked))
      ensures failed == DocsHit(cfg, old(View()), FailAll(locked))
      ensures requeued == DocsHit(cfg, CommitAll(cfg, old(View()), FailAll(locked)), RequeueAll(locked))
    {
      requeued, failed := [], [];
      ghost var start := View();
      for i := 0 to |locked|
        invariant View() == CommitAll(cfg, start, FailAll(locked[..i]))
        invariant failed == DocsHit(cfg, start, FailAll(locked[..i]))
      {
        var hit := FailAbandoned(locked[i]);
        if hit {
          failed := failed + [locked[i]];
        }
        CommitAllAppend(cfg, start, FailAll(locked[..i]), SweepFail(locked[i]));
        assert FailAll(locked[..i + 1]) == FailAll(locked[..i]) + [SweepFail(locked[i])];
      }
      ghost var middle := View();
      assert locked[..|locked|] == locked;
      for i := 0 to |locked|
        invariant View() == CommitAll(cfg, middle, RequeueAll(locked[..i]))
        invariant requeued == DocsHit(cfg, middle, RequeueAll(locked[..i]))
      {
        var hit := RequeueUntreated(locked[i]);
        if hit {
          requeued := requeued + [locked[i]];
        }
        CommitAllAppend(cfg, middle, RequeueAll(locked[..i]), SweepRequeue(locked[i]));
        assert RequeueAll(locked[..i + 1]) == RequeueAll(locked[..i]) + [SweepRequeue(locked[i])];
      }
      CommitAllJoin(cfg, start, FailAll(locked), RequeueAll(locked));
    }

    method ReprocessDocument(d: DocId) returns (reprocessed: bool)
      modifies this
      ensures View() == Commit(cfg, old(View()), ReprocessScan(d))
      ensures reprocessed == old(d in rows && rows[d].status == SCAN_FAILED)
    {
      if d !in rows || rows[d].status != SCAN_FAILED {
        return false;
      }
      rows := rows[d := rows[d].(status := PENDING_SCAN, scanAttempts := 0, scanStartedAt := None,
                                 scannedAt := None, scanSignature := None, sanitizedKey := None)];
      Send(ScanQueue, d, 0);
      InsertEvent(ScanReprocessed, d);
      return true;
    }

    // ----- ocr.repository.ts -----

    method ClaimForOcr(d: DocId) returns (claim: Option<OcrClaim>)
      modifies this
      ensures View() == Commit(cfg, old(View()), ClaimOcr(d))
      ensures claim == OcrClaimOf(cfg, old(View()), d)
    {
      if d !in rows {
        return None;
      }
      var row := rows[d];
      if row.status != CLEAN {
        return None;
      }
      if row.ocrStatus != PENDING && !OcrAbandoned(row, cfg.ocrLease, now) {
        return None;
      }
      rows := rows[d := row.(ocrStatus := PROCESSING, ocrAttempts := row.ocrAttempts + 1, ocrStartedAt := Some(now))];
      return Some(OcrClaim(d, row.fileType, row.storageKey, row.sanitizedKey, row.fileSize, row.ocrAttempts + 1, now));
    }

    method InsertPages(result: nat, texts: seq<string>)
      modifies `pages
      ensures pages == old(pages) + PageRows(result, texts)
    {
      NoPages(pages, result);
      for i := 0 to |texts|
        invariant pages == old(pages) + PageRows(result, texts[..i])
      {
        PageRowsNext(result, texts, i);
        MergeInsert(old(pages), PageRows(result, texts[..i]), (result, i + 1), texts[i]);
        pages := pages[(result, i + 1) := texts[i]];
      }
      assert texts[..|texts|] == texts;
    }

    method MarkCompleted(claim: OcrClaim, texts: seq<string>) returns (recorded: bool)
      modifies this
      ensures View() == Commit(cfg, old(View()), CompleteOcr(claim, texts))
      ensures recorded == old(HoldsOcr(View(), claim))
    {
      if !HoldsOcr(View(), claim) {
        return false;
      }
      rows := rows[claim.doc := rows[claim.doc].(ocrStatus := COMPLETED)];
      InsertPages(|results|, texts);
      results := results + [OcrResult(claim.doc, None, |texts|, claim.attempts, now)];
      InsertEvent(OcrCompleted, claim.doc);
      return true;
    }

    method MarkOcrFailed(claim: OcrClaim, code: ErrorCode) returns (recorded: bool)
      modifies this
      ensures View() == Commit(cfg, old(View()), FailOcr(claim, code))
      ensures recorded == old(HoldsOcr(View(), claim))
    {
      if !HoldsOcr(View(), claim) {
        return false;
      }
      rows := rows[claim.doc := rows[claim.doc].(ocrStatus := FAILED)];
      results := results + [OcrResult(claim.doc, Some(code), 0, claim.attempts, now)];
      InsertEvent(OcrFailed, claim.doc);
      NoPages(pages, |results| - 1);
      return true;
    }

    method MarkExcluded(claim: OcrClaim) returns (excluded: bool)
      modifies this
      ensures View() == Commit(cfg, old(View()), ExcludeOcr(claim))
      ensures excluded == old(HoldsOcr(View(), claim))
    {
      if !HoldsOcr(View(), claim) {
        return false;
      }
      rows := rows[claim.doc := rows[claim.doc].(ocrStatus := EXCLUDED)];
      return true;
    }

    method ReleaseForRetry(claim: OcrClaim, delay: nat) returns (released: bool)
      modifies this
      ensures View() == Commit(cfg, old(View()), ReleaseOcr(claim, delay))
      ensures released == old(HoldsOcr(View(), claim))
    {
      if !HoldsOcr(View(), claim) {
        return false;
      }
      rows := rows[claim.doc := rows[claim.doc].(ocrStatus := PENDING, ocrStartedAt := None)];
      Send(OcrQueue, claim.doc, delay);
      return true;
    }

    // ----- ocr-queue.ts -----

    method RecoverAbandoned(d: DocId) returns (recovery: Recovery)
      modifies this
      ensures View() == Commit(cfg, old(View()), SweepOcr(d))
      ensures recovery == RecoveryOf(cfg, old(View()), d)
    {
      if d !in rows || !OcrAbandoned(rows[d], cfg.ocrLease, now) {
        return LeftAlone;
      }
      if rows[d].ocrAttempts >= cfg.ocrMaxAttempts {
        NoPages(pages, |results|);
        results := results + [OcrResult(d, Some(Abandoned), 0, rows[d].ocrAttempts, now)];
        rows := rows[d := rows[d].(ocrStatus := FAILED)];
        InsertEvent(OcrFailed, d);
        return GivenUp;
      }
      rows := rows[d := rows[d].(ocrStatus := PENDING, ocrStartedAt := None)];
      Send(OcrQueue, d, 0);
      return SentBack;
    }

    method SweepAbandonedOcr(locked: seq<DocId>) returns (requeued: seq<DocId>, failed: seq<DocId>)
      modifies this
      ensures View() == CommitAll(cfg, old(View()), OcrSweepAll(locked))
      ensures requeued == DocsGiven(cfg, old(View()), locked, SentBack)
      ensures failed == DocsGiven(cfg, old(View()), locked, GivenUp)
    {
      requeued, failed := [], [];
      ghost var start := View();
      for i := 0 to |locked|
        invariant View() == CommitAll(cfg, start, OcrSweepAll(locked[..i]))
        invariant requeued == DocsGiven(cfg, start, locked[..i], SentBack)
        invariant failed == DocsGiven(cfg, start, locked[..i], GivenUp)
      {
        var recovery := RecoverAbandoned(locked[i]);
        if recovery.GivenUp? {
          failed := failed + [locked[i]];
        } else if recovery.SentBack? {
          requeued := requeued + [locked[i]];
        }
        OcrSweepNext(cfg, start, locked, i);
        DocsGivenNext(cfg, start, locked, i, SentBack);
        DocsGivenNext(cfg, start, locked, i, GivenUp);
      }
      assert locked[..|locked|] == locked;
    }

    method ReprocessDocumentOcr(d: DocId) returns (reprocessed: bool)
      modifies this
      ensures View() == Commit(cfg, old(View()), ReprocessOcr(d))
      ensures reprocessed == old(d in rows && rows[d].status == CLEAN && rows[d].ocrStatus == FAILED)
    {
      if d !in rows || rows[d].status != CLEAN || rows[d].ocrStatus != FAILED {
        return false;
      }
      rows := rows[d := rows[d].(ocrStatus := PENDING, ocrAttempts := 0, ocrStartedAt := None)];
      Send(OcrQueue, d, 0);
      InsertEvent(OcrReprocessed, d);
      return true;
    }

    // ----- ocr-activation.ts -----

    method CountViolations() returns (violations: nat)
      ensures violations == 0 <==> forall d :: d in rows ==> !ViolatesActivation(rows[d])
    {
      var broken := set d | d in rows && ViolatesActivation(rows[d]);
      violations := |broken|;
      assert violations == 0 <==> broken == {};
      assert forall d :: d in rows && ViolatesActivation(rows[d]) ==> d in broken;
    }

    method ExcludeClean() returns (changed: nat)
      modifies `rows
      ensures rows == map d | d in old(rows) :: ExcludedRow(old(rows)[d])
      ensures changed == |Undecided(old(rows), CLEAN)|
    {
      var clean := Undecided(rows, CLEAN);
      rows := map d | d in rows :: if d in clean then rows[d].(ocrStatus := EXCLUDED) else rows[d];
      return |clean|;
    }

    method MarkInfectedNotApplicable() returns (changed: nat)
      modifies `rows
      ensures rows == map d | d in old(rows) :: NotApplicableRow(old(rows)[d])
      ensures changed == |Undecided(old(rows), INFECTED)|
    {
      var infected := Undecided(rows, INFECTED);
      rows := map d | d in rows :: if d in infected then rows[d].(ocrStatus := NOT_APPLICABLE) else rows[d];
      return |infected|;
    }

    /** Two bulk updates, then the check that would abort the transaction: it never does. */
    method ActivateOcr() returns (excluded: nat, notApplicable: nat)
      modifies `rows
      ensures View() == Activated(old(View()))
      ensures excluded == |Undecided(old(rows), CLEAN)| && notApplicable == |Undecided(old(rows), INFECTED)|
      ensures forall d :: d in rows ==> !ViolatesActivation(rows[d])
    {
      excluded := ExcludeClean();
      assert Undecided(rows, INFECTED) == Undecided(old(rows), INFECTED);
      notApplicable := MarkInfectedNotApplicable();
      var violations := CountViolations();
      assert violations == 0;
    }
  }
}
