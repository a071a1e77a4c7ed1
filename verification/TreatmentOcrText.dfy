/** What the owner reads of a completed OCR: documents.repository.ts, findOwnDocumentOcr. */
module TreatmentOcrText {
  import opened Wrappers
  import opened TreatmentDb
  import opened TreatmentRows
  import opened TreatmentLedger
  import opened TreatmentMachine
  import opened TreatmentInvariants
  import opened TreatmentSteps
  import opened TreatmentReachable
  import opened TreatmentHistory

  /** The latest completed result of a document, by its end; ties go to the later row. */
  function Latest(results: seq<OcrResult>, d: DocId): (r: Option<nat>)
    ensures r.Some? ==> r.value < |results|
  {
    if results == [] then None
    else
      var last := |results| - 1;
      var before := Latest(results[..last], d);
      if !IsResult(results[last], true, d) then before
      else if before.Some? && results[before.value].finishedAt > results[last].finishedAt then before
      else Some(last)
  }

  /** The rows of one result's pages, ordered by page number. */
  ghost predicate IsListing(pages: map<(nat, nat), string>, r: nat, rows: seq<(nat, string)>) {
    && (forall i, j :: 0 <= i < j < |rows| ==> rows[i].0 < rows[j].0)
    && (forall i :: 0 <= i < |rows| ==> (r, rows[i].0) in pages && pages[(r, rows[i].0)] == rows[i].1)
    && (forall n: nat :: (r, n) in pages ==> exists i :: 0 <= i < |rows| && rows[i].0 == n)
  }

  /** The pages the owner's read answers with. */
  ghost predicate Reads(db: Db, d: DocId, rows: seq<(nat, string)>) {
    if !HasOcr(db, d, COMPLETED) || Latest(db.results, d).None? then rows == []
    else IsListing(db.pages, Latest(db.results, d).value, rows)
  }

  function Numbered(texts: seq<string>): seq<(nat, string)> {
    seq(|texts|, i requires 0 <= i < |texts| => (i + 1, texts[i]))
  }

  /** Result r has exactly these pages. */
  ghost predicate HasPages(pages: map<(nat, nat), string>, r: nat, texts: seq<string>) {
    && (forall n: nat :: (r, n) in pages <==> 1 <= n <= |texts|)
    && (forall n: nat :: (r, n) in pages ==> pages[(r, n)] == texts[n - 1])
  }

  lemma {:induction false} ListingNumbers(pages: map<(nat, nat), string>, r: nat, texts: seq<string>,
                                          rows: seq<(nat, string)>, i: nat)
    requires HasPages(pages, r, texts) && IsListing(pages, r, rows) && i < |rows|
    ensures forall k :: 0 <= k <= i ==> rows[k].0 == k + 1
  {
    if i > 0 {
      ListingNumbers(pages, r, texts, rows, i - 1);
    }
    assert (r, rows[i].0) in pages;
    assert i > 0 ==> rows[i - 1].0 == i;
    assert i + 1 <= rows[i].0 <= |texts|;
    assert (r, i + 1) in pages;
    var j :| 0 <= j < |rows| && rows[j].0 == i + 1;
  }

  /** The listing of numbered pages is the numbered pages: each once, in order, and nothing else. */
  lemma ListingIsNumbered(pages: map<(nat, nat), string>, r: nat, texts: seq<string>, rows: seq<(nat, string)>)
    requires HasPages(pages, r, texts)
    ensures IsListing(pages, r, rows) <==> rows == Numbered(texts)
  {
    if IsListing(pages, r, rows) {
      if |rows| > 0 {
        ListingNumbers(pages, r, texts, rows, |rows| - 1);
        assert (r, rows[|rows| - 1].0) in pages;
      }
      if |texts| > 0 {
        assert (r, |texts|) in pages;
      }
      assert |rows| == |texts|;
    }
    if rows == Numbered(texts) {
      forall n: nat | (r, n) in pages
        ensures exists i :: 0 <= i < |rows| && rows[i].0 == n
      {
        assert rows[n - 1].0 == n;
      }
    }
  }

  lemma {:induction false} OnlyOne(results: seq<OcrResult>, d: DocId, k: nat)
    requires k < |results| && IsResult(results[k], true, d)
    ensures CountResults(results, true, d) >= 1
    ensures CountResults(results, true, d) == 1 ==> Latest(results, d) == Some(k)
  {
    var last := |results| - 1;
    if k < last {
      OnlyOne(results[..last], d, k);
    } else {
      NoneLatest(results[..last], d);
    }
  }

  lemma {:induction false} NoneLatest(results: seq<OcrResult>, d: DocId)
    ensures CountResults(results, true, d) == 0 ==> Latest(results, d).None?
  {
    if results != [] {
      NoneLatest(results[..|results| - 1], d);
    }
  }

  /** A state that holds a completed execution of a document, with these texts, as result r. */
  ghost predicate Recorded(db: Db, d: DocId, r: nat, texts: seq<string>) {
    && HasOcr(db, d, COMPLETED)
    && r < |db.results| && IsResult(db.results[r], true, d) && db.results[r].pages == |texts|
    && HasPages(db.pages, r, texts)
  }

  lemma RecordedReads(cfg: Config, ocrOn: bool, db: Db, d: DocId, r: nat, texts: seq<string>, rows: seq<(nat, string)>)
    requires DbOk(cfg, ocrOn, db) && Recorded(db, d, r, texts)
    ensures Reads(db, d, rows) <==> rows == Numbered(texts)
  {
    assert OcrAccounted(db, d);
    OnlyOne(db.results, d, r);
    ListingIsNumbered(db.pages, r, texts, rows);
  }

  lemma RecordedLater(db: Db, next: Db, d: DocId, r: nat, texts: seq<string>)
    requires Later(db, next) && PagesOk(next) && Recorded(db, d, r, texts)
    ensures Recorded(next, d, r, texts)
  {
    assert RowLater(db.rows[d], next.rows[d], db.now);
    forall n: nat
      ensures (r, n) in next.pages <==> 1 <= n <= |texts|
      ensures 1 <= n <= |texts| ==> next.pages[(r, n)] == texts[n - 1]
    {
      if 1 <= n <= |texts| {
        assert (r, n) in db.pages;
      }
    }
  }

  lemma CompletionRecords(cfg: Config, db: Db, c: OcrClaim, texts: seq<string>)
    requires HoldsOcr(db, c) && PagesOk(db)
    ensures Recorded(Commit(cfg, db, CompleteOcr(c, texts)), c.doc, |db.results|, texts)
  {
    var next := Commit(cfg, db, CompleteOcr(c, texts));
    forall n: nat
      ensures (|db.results|, n) in next.pages <==> 1 <= n <= |texts|
      ensures 1 <= n <= |texts| ==> next.pages[(|db.results|, n)] == texts[n - 1]
    {
      PageKeys(|db.results|, texts, |db.results|, n);
    }
  }

  /**
   Once a current handler has recorded its execution, the owner reads exactly its normalized pages,
   numbered in order, in that state and in every state after it, whatever other workers do.
   */
  lemma OwnerReadsWhatWasRecorded(cfg: Config, s: State, h: nat, o: Outcome, answer: OcrAnswer, run: seq<Act>,
                                  rows: seq<(nat, string)>)
    requires ValidConfig(cfg) && Reachable(cfg, s) && h in s.readers && s.readers[h].pc.Completing?
    requires OcrHoldsIn(s.db, s.readers[h].pc) && Happened(o)
    requires CanRun(cfg, OcrStepped(cfg, s, h, o, answer), run)
    ensures var r := s.readers[h];
            Reads(Run(cfg, OcrStepped(cfg, s, h, o, answer), run).db, r.pc.ocrClaim.doc, rows)
            <==> rows == Numbered(r.pc.texts)
  {
    var next, pc := OcrStepped(cfg, s, h, o, answer), s.readers[h].pc;
    ReachableOk(cfg, s);
    OcrStepKeeps(cfg, s, h, o, answer);
    RunKeeps(cfg, next, run);
    RunIsLater(cfg, next, run);
    CompletionRecords(cfg, s.db, pc.ocrClaim, pc.texts);
    var d, later := pc.ocrClaim.doc, Run(cfg, next, run);
    RecordedLater(next.db, later.db, d, |s.db.results|, pc.texts);
    RecordedReads(cfg, later.ocrOn, later.db, d, |s.db.results|, pc.texts, rows);
  }

  lemma {:induction false} SomeCompleted(results: seq<OcrResult>, d: DocId) returns (r: nat)
    requires CountResults(results, true, d) >= 1
    ensures r < |results| && IsResult(results[r], true, d)
  {
    var last := |results| - 1;
    if IsResult(results[last], true, d) {
      r := last;
    } else {
      r := SomeCompleted(results[..last], d);
    }
  }

  lemma CompletedIsRecorded(db: Db, d: DocId) returns (r: nat, texts: seq<string>)
    requires OcrAccounted(db, d) && PagesOk(db) && HasOcr(db, d, COMPLETED)
    ensures Recorded(db, d, r, texts)
  {
    r := SomeCompleted(db.results, d);
    texts := seq(db.results[r].pages, i requires 0 <= i < db.results[r].pages =>
                   if (r, i + 1) in db.pages then db.pages[(r, i + 1)] else []);
  }

  /** Exactly one completed result, with 1 to maxPages pages, when the OCR is COMPLETED; else no page is read. */
  lemma ReadsPagesExactlyWhenCompleted(cfg: Config, s: State, d: DocId, rows: seq<(nat, string)>)
    requires ValidConfig(cfg) && Reachable(cfg, s) && Reads(s.db, d, rows)
    ensures CountResults(s.db.results, true, d) == Bit(HasOcr(s.db, d, COMPLETED))
    ensures |rows| <= cfg.maxPages && (rows != [] <==> HasOcr(s.db, d, COMPLETED))
  {
    ReachableOk(cfg, s);
    assert OcrAccounted(s.db, d);
    if HasOcr(s.db, d, COMPLETED) {
      var r, texts := CompletedIsRecorded(s.db, d);
      RecordedReads(cfg, s.ocrOn, s.db, d, r, texts, rows);
    }
  }
}
