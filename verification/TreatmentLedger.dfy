/** The audit log, the OCR results and their pages: what they say about every document. */
module TreatmentLedger {
  import opened Wrappers
  import opened TreatmentDb
  import opened TreatmentRows

  function Count(audit: seq<Event>, action: Action, d: DocId): nat {
    if audit == [] then 0
    else
      var last := audit[|audit| - 1];
      Count(audit[..|audit| - 1], action, d) + Bit(last.action == action && last.doc == d)
  }

  lemma CountAppend(audit: seq<Event>, e: Event, action: Action, d: DocId)
    ensures Count(audit + [e], action, d) == Count(audit, action, d) + Bit(e.action == action && e.doc == d)
  {
    assert (audit + [e])[..|audit|] == audit;
  }

  predicate IsResult(r: OcrResult, completed: bool, d: DocId) {
    r.errorCode.None? == completed && r.doc == d
  }

  function CountResults(results: seq<OcrResult>, completed: bool, d: DocId): nat {
    if results == [] then 0
    else
      CountResults(results[..|results| - 1], completed, d) + Bit(IsResult(results[|results| - 1], completed, d))
  }

  lemma CountResultsAppend(results: seq<OcrResult>, r: OcrResult, completed: bool, d: DocId)
    ensures CountResults(results + [r], completed, d)
         == CountResults(results, completed, d) + Bit(IsResult(r, completed, d))
  {
    assert (results + [r])[..|results|] == results;
  }

  lemma CountWrite(db: Db, w: Writes, action: Action, d: DocId)
    ensures Count(Write(db, w).audit, action, d)
         == Count(db.audit, action, d) + Bit(w.doc == d && w.event == Some(action))
  {
    if w.event.Some? {
      CountAppend(db.audit, Event(w.event.value, w.doc, db.now), action, d);
    }
  }

  lemma CountResultsWrite(db: Db, w: Writes, completed: bool, d: DocId)
    ensures CountResults(Write(db, w).results, completed, d)
         == CountResults(db.results, completed, d)
          + Bit(w.doc == d && if completed then IsCompletion(w.result) else IsFailure(w.result))
  {
    if w.result.Some? {
      var r := w.result.value;
      CountResultsAppend(db.results, OcrResult(w.doc, r.errorCode, |r.texts|, r.attempts, db.now), completed, d);
    }
  }

  predicate HasStatus(db: Db, d: DocId, status: DocStatus) {
    d in db.rows && db.rows[d].status == status
  }

  predicate HasOcr(db: Db, d: DocId, status: OcrStatus) {
    d in db.rows && db.rows[d].ocrStatus == status
  }

  /** The security treatment's events account exactly for the document's state. */
  ghost predicate ScanAccounted(db: Db, d: DocId) {
    && Count(db.audit, ScanFailed, d)
    == Count(db.audit, ScanReprocessed, d) + Bit(HasStatus(db, d, SCAN_FAILED))
    && Count(db.audit, ScanClean, d) == Bit(HasStatus(db, d, CLEAN))
    && Count(db.audit, ScanInfected, d) == Bit(HasStatus(db, d, INFECTED))
  }

  /** And the OCR's events and results for its OCR state. */
  ghost predicate OcrAccounted(db: Db, d: DocId) {
    && Count(db.audit, OcrFailed, d) == CountResults(db.results, false, d)
    && Count(db.audit, OcrFailed, d) == Count(db.audit, OcrReprocessed, d) + Bit(HasOcr(db, d, FAILED))
    && Count(db.audit, OcrCompleted, d) == CountResults(db.results, true, d)
    && CountResults(db.results, true, d) == Bit(HasOcr(db, d, COMPLETED))
  }

  /** Completed results have between 1 and maxPages pages, failed ones have none. */
  predicate ResultOk(cfg: Config, r: OcrResult) {
    if r.errorCode.None? then 1 <= r.pages <= cfg.maxPages else r.pages == 0
  }

  /** Every result has exactly its pages, numbered from 1. */
  ghost predicate PagesOk(db: Db) {
    forall r: nat, n: nat :: (r, n) in db.pages <==> r < |db.results| && 1 <= n <= db.results[r].pages
  }

  ghost predicate DbOk(cfg: Config, ocrOn: bool, db: Db) {
    && (forall d :: d in db.rows ==> RowOk(cfg, ocrOn, db.now, db.rows[d]))
    && (forall d: DocId :: ScanAccounted(db, d) && OcrAccounted(db, d))
    && (forall k :: 0 <= k < |db.results| ==> ResultOk(cfg, db.results[k]))
    && PagesOk(db)
  }

  lemma ScanAccountKept(db: Db, w: Writes, d: DocId)
    requires ScanAccounted(db, d) && w.doc in db.rows && ScanBalanced(db.rows[w.doc], w.row, w.event)
    ensures ScanAccounted(Write(db, w), d)
  {
    CountWrite(db, w, ScanFailed, d);
    CountWrite(db, w, ScanReprocessed, d);
    CountWrite(db, w, ScanClean, d);
    CountWrite(db, w, ScanInfected, d);
  }

  lemma OcrAccountKept(db: Db, w: Writes, d: DocId)
    requires OcrAccounted(db, d) && w.doc in db.rows && OcrBalanced(db.rows[w.doc], w.row, w.event, w.result)
    ensures OcrAccounted(Write(db, w), d)
  {
    CountWrite(db, w, OcrFailed, d);
    CountWrite(db, w, OcrReprocessed, d);
    CountWrite(db, w, OcrCompleted, d);
    CountResultsWrite(db, w, true, d);
    CountResultsWrite(db, w, false, d);
  }

  lemma PageKeys(result: nat, texts: seq<string>, r: nat, n: nat)
    ensures (r, n) in PageRows(result, texts) <==> r == result && 1 <= n <= |texts|
    ensures r == result && 1 <= n <= |texts| ==> PageRows(result, texts)[(r, n)] == texts[n - 1]
  {
  }

  lemma PagesKept(db: Db, w: Writes)
    requires PagesOk(db)
    ensures PagesOk(Write(db, w))
  {
    var next := Write(db, w);
    if w.result.Some? {
      forall r: nat, n: nat
        ensures (r, n) in next.pages <==> r < |next.results| && 1 <= n <= next.results[r].pages
      {
        PageKeys(|db.results|, w.result.value.texts, r, n);
      }
    }
  }

  lemma ResultsKept(cfg: Config, ocrOn: bool, db: Db, tx: Tx)
    requires forall k :: 0 <= k < |db.results| ==> ResultOk(cfg, db.results[k])
    requires Hits(cfg, db, tx) && Justified(cfg, ocrOn, db.rows[DocOf(tx)], tx)
    ensures var next := Write(db, WritesOf(cfg, db, tx));
            forall k :: 0 <= k < |next.results| ==> ResultOk(cfg, next.results[k])
  {
  }

  predicate JustifiedIn(cfg: Config, ocrOn: bool, db: Db, tx: Tx) {
    Hits(cfg, db, tx) ==> Justified(cfg, ocrOn, db.rows[DocOf(tx)], tx)
  }

  /** Every transaction of the worker keeps the tables' invariant. */
  lemma DbKept(cfg: Config, ocrOn: bool, db: Db, tx: Tx)
    requires ValidConfig(cfg) && DbOk(cfg, ocrOn, db) && JustifiedIn(cfg, ocrOn, db, tx)
    ensures DbOk(cfg, ocrOn, Commit(cfg, db, tx))
  {
    if Hits(cfg, db, tx) {
      var next := Write(db, WritesOf(cfg, db, tx));
      RowKept(cfg, ocrOn, db.now, db.rows[DocOf(tx)], tx);
      ScanEventsMatch(cfg, ocrOn, db.now, db.rows[DocOf(tx)], tx);
      OcrEventsMatch(cfg, ocrOn, db.now, db.rows[DocOf(tx)], tx);
      forall d: DocId
        ensures ScanAccounted(next, d) && OcrAccounted(next, d)
      {
        ScanAccountKept(db, WritesOf(cfg, db, tx), d);
        OcrAccountKept(db, WritesOf(cfg, db, tx), d);
      }
      ResultsKept(cfg, ocrOn, db, tx);
      PagesKept(db, WritesOf(cfg, db, tx));
    }
  }
}
