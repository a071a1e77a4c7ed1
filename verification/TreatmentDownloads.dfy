/**
 What a download serves: documents.service.ts, downloadableKey. Here the treatment meets the metadata
 strippers.
 */
module TreatmentDownloads {
  import opened Wrappers
  import opened Bytes
  import opened FileType
  import opened Sanitizer
  import opened TreatmentDb
  import opened TreatmentRows
  import opened TreatmentLedger
  import opened TreatmentMachine
  import opened TreatmentInvariants
  import opened TreatmentReachable
  import opened TreatmentHistory
  import Jpeg
  import JpegTheorems
  import JpegIdempotence
  import Png
  import PngTheorems

  function DownloadableKey(row: Row): Option<Key> {
    if row.status != CLEAN then None
    else if row.fileType == PDF then Some(row.storageKey)
    else row.sanitizedKey
  }

  /** Exactly the CLEAN documents can be downloaded, and an image never under its original's key. */
  lemma DownloadableExactlyClean(cfg: Config, s: State, d: DocId)
    requires ValidConfig(cfg) && Reachable(cfg, s) && d in s.db.rows
    ensures var row := s.db.rows[d];
            DownloadableKey(row) == if row.status != CLEAN then None
                                    else if row.fileType == PDF then Some(row.storageKey)
                                    else Some(row.storageKey + ".sanitized")
  {
    ReachableOk(cfg, s);
    assert RowOk(cfg, s.ocrOn, s.db.now, s.db.rows[d]);
  }

  // ----- The originals -----

  /** A document keeps the type its bytes were detected to have. */
  predicate TypesOk(s: State) {
    forall d :: d in s.db.rows ==> d in s.uploaded && DetectFileType(s.uploaded[d]) == Some(s.db.rows[d].fileType)
  }

  lemma StepKeepsUploads(cfg: Config, s: State, a: Act)
    requires Enabled(s, a)
    ensures Next(cfg, s, a).uploaded == if a.Upload? then s.uploaded[a.doc := a.content] else s.uploaded
    ensures a.Upload? ==> Next(cfg, s, a).db.rows[a.doc].fileType == a.fileType
  {
  }

  lemma TypesStay(s: State, a: Act, next: State)
    requires TypesOk(s) && Enabled(s, a) && Later(s.db, next.db)
    requires next.uploaded == if a.Upload? then s.uploaded[a.doc := a.content] else s.uploaded
    requires next.db.rows.Keys == if a.Upload? then s.db.rows.Keys + {a.doc} else s.db.rows.Keys
    requires a.Upload? ==> next.db.rows[a.doc].fileType == a.fileType
    ensures TypesOk(next)
  {
    forall d | d in next.db.rows
      ensures d in next.uploaded && DetectFileType(next.uploaded[d]) == Some(next.db.rows[d].fileType)
    {
      if d in s.db.rows {
        assert RowLater(s.db.rows[d], next.db.rows[d], s.db.now);
      }
    }
  }

  lemma StepKeepsTypes(cfg: Config, s: State, a: Act)
    requires ValidConfig(cfg) && Inv(cfg, s) && Enabled(s, a) && TypesOk(s)
    ensures TypesOk(Next(cfg, s, a))
  {
    StepIsLater(cfg, s, a);
    StepKeepsDocuments(cfg, s, a);
    StepKeepsUploads(cfg, s, a);
    TypesStay(s, a, Next(cfg, s, a));
  }

  lemma CommitKeepsDocuments(cfg: Config, db: Db, tx: Tx)
    ensures Commit(cfg, db, tx).rows.Keys == db.rows.Keys
  {
  }

  lemma {:induction false} CommitAllKeepsDocuments(cfg: Config, db: Db, txs: seq<Tx>)
    ensures CommitAll(cfg, db, txs).rows.Keys == db.rows.Keys
    decreases |txs|
  {
    if txs != [] {
      CommitKeepsDocuments(cfg, db, txs[0]);
      CommitAllKeepsDocuments(cfg, Commit(cfg, db, txs[0]), txs[1..]);
    }
  }

  /** Only an upload adds a document. */
  lemma StepKeepsDocuments(cfg: Config, s: State, a: Act)
    requires Enabled(s, a)
    ensures Next(cfg, s, a).db.rows.Keys == if a.Upload? then s.db.rows.Keys + {a.doc} else s.db.rows.Keys
  {
    match a
    case Sweep(docs) => CommitAllKeepsDocuments(cfg, s.db, FailAll(docs) + RequeueAll(docs));
    case OcrSweep(docs) => CommitAllKeepsDocuments(cfg, s.db, OcrSweepAll(docs));
    case _ =>
  }

  lemma {:induction false} RunKeepsTypes(cfg: Config, s: State, run: seq<Act>)
    requires ValidConfig(cfg) && Inv(cfg, s) && CanRun(cfg, s, run) && TypesOk(s)
    ensures TypesOk(Run(cfg, s, run))
    decreases |run|
  {
    if run != [] {
      StepKeepsTypes(cfg, s, run[0]);
      StepKeeps(cfg, s, run[0]);
      RunKeepsTypes(cfg, Next(cfg, s, run[0]), run[1..]);
    }
  }

  lemma ReachableTypes(cfg: Config, s: State)
    requires ValidConfig(cfg) && Reachable(cfg, s)
    ensures TypesOk(s)
  {
    var now, run :| CanRun(cfg, Initial(now), run) && s == Run(cfg, Initial(now), run);
    InitialOk(cfg, now);
    RunKeepsTypes(cfg, Initial(now), run);
  }

  lemma ScanStepSparesOriginals(cfg: Config, s: State, h: nat, o: Outcome, d: DocId)
    requires Inv(cfg, s) && h in s.scanners && d in s.db.rows
    ensures Fetch(ScanObjects(s.objects, s.scanners[h], o), s.db.rows[d].storageKey)
         == Fetch(s.objects, s.db.rows[d].storageKey)
  {
    var sc := s.scanners[h];
    assert ScannerOk(s.db, s.uploaded, s.answers, sc);
    assert RowOk(cfg, s.ocrOn, s.db.now, s.db.rows[d]);
    if sc.pc.Storing? || sc.pc.Deleting? {
      assert RowOk(cfg, s.ocrOn, s.db.now, s.db.rows[sc.pc.claim.doc]);
    }
  }

  lemma OtherSparesOriginals(cfg: Config, s: State, a: Act, d: DocId)
    requires DistinctKeys(s.db) && Enabled(s, a) && !a.ScanStep? && d in s.db.rows && a != RemoveOriginal(d)
    ensures Fetch(Next(cfg, s, a).objects, s.db.rows[d].storageKey) == Fetch(s.objects, s.db.rows[d].storageKey)
  {
    if a.RemoveOriginal? {
      assert s.db.rows[a.doc].storageKey != s.db.rows[d].storageKey;
    }
  }

  lemma StepSparesOriginals(cfg: Config, s: State, a: Act, d: DocId)
    requires Inv(cfg, s) && Enabled(s, a) && d in s.db.rows && a != RemoveOriginal(d)
    ensures Fetch(Next(cfg, s, a).objects, s.db.rows[d].storageKey) == Fetch(s.objects, s.db.rows[d].storageKey)
  {
    if a.ScanStep? {
      ScanStepSparesOriginals(cfg, s, a.scanner, a.outcome, d);
    } else {
      OtherSparesOriginals(cfg, s, a, d);
    }
  }

  /** No worker, current or overtaken, ever writes or removes an original. */
  lemma {:induction false} OriginalsUntouched(cfg: Config, s: State, run: seq<Act>, d: DocId)
    requires ValidConfig(cfg) && Inv(cfg, s) && CanRun(cfg, s, run) && d in s.db.rows && RemoveOriginal(d) !in run
    ensures Fetch(Run(cfg, s, run).objects, s.db.rows[d].storageKey) == Fetch(s.objects, s.db.rows[d].storageKey)
    decreases |run|
  {
    if run != [] {
      var next := Next(cfg, s, run[0]);
      StepSparesOriginals(cfg, s, run[0], d);
      StepKeeps(cfg, s, run[0]);
      StepIsLater(cfg, s, run[0]);
      assert RowLater(s.db.rows[d], next.db.rows[d], s.db.now);
      OriginalsUntouched(cfg, next, run[1..], d);
    }
  }

  // ----- What is served -----

  /** A CLEAN document's bytes are exactly those the antivirus called clean. */
  lemma CleanWasCleared(cfg: Config, s: State, d: DocId)
    requires ValidConfig(cfg) && Reachable(cfg, s) && HasStatus(s.db, d, CLEAN)
    ensures WasCleared(s.uploaded, s.answers, d) && |s.uploaded[d]| == s.db.rows[d].fileSize
    ensures s.db.rows[d].storageKey in s.objects ==> s.objects[s.db.rows[d].storageKey] == s.uploaded[d]
  {
    ReachableOk(cfg, s);
    assert ObjectsOk(s.db.rows[d], d, s.objects, s.uploaded, s.answers);
  }

  /** And INFECTED only if it named this signature in exactly those bytes. */
  lemma InfectedWasFlagged(cfg: Config, s: State, d: DocId)
    requires ValidConfig(cfg) && Reachable(cfg, s) && HasStatus(s.db, d, INFECTED)
    ensures d in s.uploaded && s.db.rows[d].scanSignature.Some?
    ensures (s.uploaded[d], SaysInfected(s.db.rows[d].scanSignature.value)) in s.answers
  {
    ReachableOk(cfg, s);
    assert ObjectsOk(s.db.rows[d], d, s.objects, s.uploaded, s.answers);
  }

  /** What is stored under the copy's key, if anything, is the stripped original, in any state of the document. */
  lemma CopyIsStrippedOriginal(cfg: Config, s: State, d: DocId)
    requires ValidConfig(cfg) && Reachable(cfg, s) && d in s.db.rows
    requires SanitizedKeyOf(s.db.rows[d].storageKey) in s.objects
    ensures IsCopy(s.uploaded, s.db.rows[d].fileType, d, s.objects[SanitizedKeyOf(s.db.rows[d].storageKey)])
    ensures WasCleared(s.uploaded, s.answers, d)
  {
    ReachableOk(cfg, s);
    assert ObjectsOk(s.db.rows[d], d, s.objects, s.uploaded, s.answers);
  }

  /** The image without its metadata, whatever followed it in the file it came from. */
  ghost predicate IsCleanedJpeg(original: Buffer, served: Buffer) {
    exists image, trailer ::
      && Jpeg.ValidImage(image) && original == Jpeg.PrintImage(image) + trailer
      && served == Jpeg.PrintImage(Jpeg.CleanImage(image))
  }

  ghost predicate IsCleanedPng(original: Buffer, served: Buffer) {
    exists image, trailer: Buffer ::
      && Png.ValidImage(image) && original == Png.PrintImage(image) + trailer
      && served == Png.PrintImage(Png.CleanImage(image))
  }

  lemma SanitizedIsCleaned(fileType: FileType, original: Buffer, copy: Buffer)
    requires Sanitized(fileType, original) == Some(copy)
    ensures fileType == JPEG ==> IsCleanedJpeg(original, copy)
    ensures fileType == PNG ==> IsCleanedPng(original, copy)
    ensures DetectFileType(copy) == Some(fileType)
  {
    match fileType
    case JPEG =>
      JpegTheorems.StripExactly(original, copy);
      JpegIdempotence.FileTypePreserved(original, copy);
    case PNG =>
      PngTheorems.StripExactly(original, copy);
      PngTheorems.FileTypePreserved(original, copy);
  }

  /**
   The object a download serves, under every interleaving: a PDF exactly as uploaded, an image as
   uploaded but for its metadata, of the detected type, and only if the antivirus cleared the upload.
   */
  lemma ServedIsTreated(cfg: Config, s: State, d: DocId)
    requires ValidConfig(cfg) && Reachable(cfg, s) && d in s.db.rows
    requires var key := DownloadableKey(s.db.rows[d]); key.Some? && key.value in s.objects
    ensures var row, served := s.db.rows[d], s.objects[DownloadableKey(s.db.rows[d]).value];
            && WasCleared(s.uploaded, s.answers, d)
            && (row.fileType == PDF ==> served == s.uploaded[d])
            && (row.fileType == JPEG ==> IsCleanedJpeg(s.uploaded[d], served))
            && (row.fileType == PNG ==> IsCleanedPng(s.uploaded[d], served))
            && DetectFileType(served) == Some(row.fileType)
  {
    DownloadableExactlyClean(cfg, s, d);
    CleanWasCleared(cfg, s, d);
    var row := s.db.rows[d];
    if row.fileType == PDF {
      ReachableTypes(cfg, s);
    } else {
      CopyIsStrippedOriginal(cfg, s, d);
      SanitizedIsCleaned(row.fileType, s.uploaded[d], s.objects[DownloadableKey(row).value]);
    }
  }

  /** The OCR provider is only ever given cleared bytes: the original, or its copy without metadata. */
  lemma ProviderSeesClearedBytes(cfg: Config, s: State, h: nat)
    requires ValidConfig(cfg) && Reachable(cfg, s) && h in s.readers && s.readers[h].pc.Recognizing?
    ensures var c, content := s.readers[h].pc.ocrClaim, s.readers[h].pc.content;
            && WasCleared(s.uploaded, s.answers, c.doc)
            && if ProcessesOriginal(cfg, c) then content == s.uploaded[c.doc]
               else IsCopy(s.uploaded, c.fileType, c.doc, content)
  {
    ReachableOk(cfg, s);
    assert ReaderOk(cfg, s.db, s.uploaded, s.answers, s.readers[h]);
  }
}
