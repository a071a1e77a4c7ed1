/**
 Whether the copy a CLEAN image needs is there. It is not always: a worker that failed a document
 removes its copy in a second step, and by then a reprocessing may have made the document CLEAN.
 These are exactly the steps that break it, TreatmentLateRemoval has a run that takes one, and a run
 that takes none, as when every removal is prompt, leaves every CLEAN image its copy.
 */
module TreatmentCopies {
  import opened Wrappers
  import opened Bytes
  import opened FileType
  import opened Sanitizer
  import opened TreatmentDb
  import opened TreatmentRows
  import opened TreatmentLedger
  import opened TreatmentMachine
  import opened TreatmentInvariants
  import opened TreatmentSteps
  import opened TreatmentReachable

  /** A handler that holds its claim and is about to mark an image CLEAN. */
  predicate AboutToClean(db: Db, pc: ScanPc) {
    pc.Marking? && pc.verdict.Clean? && HoldsScan(db, pc.claim) && pc.claim.fileType != PDF
  }

  predicate CleanHasCopy(row: Row, objects: map<Key, Buffer>) {
    row.status == CLEAN && row.fileType != PDF ==> SanitizedKeyOf(row.storageKey) in objects
  }

  predicate MarkingHasCopy(db: Db, pc: ScanPc, objects: map<Key, Buffer>) {
    AboutToClean(db, pc) ==> SanitizedKeyOf(pc.claim.storageKey) in objects
  }

  /** Every CLEAN image has its copy, and so has every image about to be CLEAN. */
  predicate CopiesThere(s: State) {
    && (forall d :: d in s.db.rows ==> CleanHasCopy(s.db.rows[d], s.objects))
    && (forall h :: h in s.scanners ==> MarkingHasCopy(s.db, s.scanners[h].pc, s.objects))
  }

  /** A handler that failed a document removes the copy of one that is CLEAN, or about to be. */
  predicate RemovesNeededCopy(s: State, a: Act) {
    && a.ScanStep? && a.scanner in s.scanners && Happened(a.outcome)
    && var pc := s.scanners[a.scanner].pc;
    && pc.Deleting?
    && (|| (HasStatus(s.db, pc.claim.doc, CLEAN) && s.db.rows[pc.claim.doc].fileType != PDF)
        || exists k :: k in s.scanners && AboutToClean(s.db, s.scanners[k].pc)
                    && s.scanners[k].pc.claim.doc == pc.claim.doc)
  }

  // ----- Steps that keep every copy -----

  lemma CommitKeepsCopies(cfg: Config, s: State, tx: Tx)
    requires Inv(cfg, s) && CopiesThere(s)
    requires tx.FinishScan? && tx.verdict.Clean? ==>
               exists h :: h in s.scanners && s.scanners[h].pc == Marking(tx.claim, tx.verdict)
    ensures var next := Commit(cfg, s.db, tx);
            forall d :: d in next.rows ==> CleanHasCopy(next.rows[d], s.objects)
  {
    var next := Commit(cfg, s.db, tx);
    CommitExtends(cfg, s.ocrOn, s.db, tx);
    forall d | d in next.rows
      ensures CleanHasCopy(next.rows[d], s.objects)
    {
      if HasStatus(next, d, CLEAN) && !HasStatus(s.db, d, CLEAN) {
        OnlyByVerdict(cfg, s.db, tx, d);
        var h :| h in s.scanners && s.scanners[h].pc == Marking(tx.claim, tx.verdict);
        assert ScannerOk(s.db, s.uploaded, s.answers, s.scanners[h]);
        assert MarkingHasCopy(s.db, s.scanners[h].pc, s.objects);
      } else {
        assert CleanHasCopy(s.db.rows[d], s.objects);
      }
    }
  }

  lemma OthersKeepCopies(cfg: Config, s: State, tx: Tx)
    requires Inv(cfg, s) && CopiesThere(s) && !ByScanner(tx)
    ensures CopiesThere(s.(db := Commit(cfg, s.db, tx)))
  {
    CommitKeepsCopies(cfg, s, tx);
    forall h | h in s.scanners
      ensures MarkingHasCopy(Commit(cfg, s.db, tx), s.scanners[h].pc, s.objects)
    {
      ScannerAfterCommit(cfg, s, tx, h);
      assert MarkingHasCopy(s.db, s.scanners[h].pc, s.objects);
    }
  }

  lemma {:induction false} OutsideAllKeepCopies(cfg: Config, s: State, txs: seq<Tx>)
    requires ValidConfig(cfg) && Inv(cfg, s) && CopiesThere(s)
    requires forall i :: 0 <= i < |txs| ==> FromOutside(txs[i])
    ensures CopiesThere(s.(db := CommitAll(cfg, s.db, txs)))
    decreases |txs|
  {
    if txs != [] {
      OutsideKeeps(cfg, s, txs[0]);
      OthersKeepCopies(cfg, s, txs[0]);
      OutsideAllKeepCopies(cfg, s.(db := Commit(cfg, s.db, txs[0])), txs[1..]);
    }
  }

  lemma OcrStepKeepsCopies(cfg: Config, s: State, h: nat, o: Outcome, answer: OcrAnswer)
    requires Inv(cfg, s) && CopiesThere(s) && h in s.readers
    ensures CopiesThere(OcrStepped(cfg, s, h, o, answer))
  {
    var tx := OcrTx(cfg, s.readers[h]);
    if tx.Some? && Happened(o) {
      OthersKeepCopies(cfg, s, tx.value);
    }
  }

  /** The rows after a handler's transaction. */
  lemma ScanStepKeepsRows(cfg: Config, s: State, h: nat, ocr: OcrActivation, o: Outcome, objects: map<Key, Buffer>)
    requires Inv(cfg, s) && CopiesThere(s) && h in s.scanners && s.objects.Keys <= objects.Keys
    ensures var next := CommitIf(cfg, s.db, ScanTx(cfg, s.scanners[h], ocr), o);
            forall d :: d in next.rows ==> CleanHasCopy(next.rows[d], objects)
  {
    var tx := ScanTx(cfg, s.scanners[h], ocr);
    if tx.Some? && Happened(o) {
      CommitKeepsCopies(cfg, s, tx.value);
    }
  }

  lemma OtherMarkingsKept(cfg: Config, s: State, h: nat, ocr: OcrActivation, o: Outcome, k: nat,
                          objects: map<Key, Buffer>)
    requires Inv(cfg, s) && CopiesThere(s) && h in s.scanners && s.objects.Keys <= objects.Keys
    requires k in s.scanners && k != h
    ensures MarkingHasCopy(CommitIf(cfg, s.db, ScanTx(cfg, s.scanners[h], ocr), o), s.scanners[k].pc, objects)
  {
    assert MarkingHasCopy(s.db, s.scanners[k].pc, s.objects);
    if ScanTx(cfg, s.scanners[h], ocr).Some? && Happened(o) {
      OtherScanners(cfg, s, h, ocr, k);
    }
  }

  lemma OwnMarkingHasCopy(cfg: Config, s: State, h: nat, o: Outcome, answer: Answer)
    requires h in s.scanners && ScannerOk(s.db, s.uploaded, s.answers, s.scanners[h])
    ensures var pc := ScanPcAfter(cfg, s, s.scanners[h], o, answer);
            pc.Marking? && pc.verdict.Clean? && pc.claim.fileType != PDF ==>
              SanitizedKeyOf(pc.claim.storageKey) in ScanObjects(s.objects, s.scanners[h], o)
  {
  }

  lemma ScanStepKeepsCopies(cfg: Config, s: State, h: nat, o: Outcome, answer: Answer, pdfEnabled: bool)
    requires ValidConfig(cfg) && Inv(cfg, s) && CopiesThere(s) && h in s.scanners
    requires s.scanners[h].pc.Deleting? ==> !Happened(o)
    ensures CopiesThere(ScanStepped(cfg, s, h, o, answer, pdfEnabled))
  {
    var ocr := if s.ocrOn then Some(pdfEnabled) else None;
    var next := ScanStepped(cfg, s, h, o, answer, pdfEnabled);
    ScanStepKeepsRows(cfg, s, h, ocr, o, next.objects);
    OwnMarkingHasCopy(cfg, s, h, o, answer);
    forall k | k in s.scanners && k != h
      ensures MarkingHasCopy(next.db, s.scanners[k].pc, next.objects)
    {
      OtherMarkingsKept(cfg, s, h, ocr, o, k, next.objects);
    }
  }

  lemma QuietKeepsCopies(cfg: Config, s: State, a: Act)
    requires Inv(cfg, s) && CopiesThere(s) && Enabled(s, a)
    requires a.ScanEnd? || a.ScanCrash? || a.DeliverScan? || a.DeliverOcr? || a.OcrEnd? || a.OcrCrash? || a.Tick?
    ensures CopiesThere(Next(cfg, s, a))
  {
    var next := Next(cfg, s, a);
    forall d | d in next.db.rows
      ensures CleanHasCopy(next.db.rows[d], next.objects)
    {
      assert CleanHasCopy(s.db.rows[d], s.objects);
    }
    forall h | h in next.scanners
      ensures MarkingHasCopy(next.db, next.scanners[h].pc, next.objects)
    {
      assert h in s.scanners ==> MarkingHasCopy(s.db, s.scanners[h].pc, s.objects);
    }
  }

  lemma UploadKeepsCopies(cfg: Config, s: State, a: Act)
    requires Inv(cfg, s) && CopiesThere(s) && Enabled(s, a) && a.Upload?
    ensures CopiesThere(Next(cfg, s, a))
  {
    var next := Next(cfg, s, a);
    forall d | d in next.db.rows
      ensures CleanHasCopy(next.db.rows[d], next.objects)
    {
      assert d in s.db.rows ==> CleanHasCopy(s.db.rows[d], s.objects);
    }
    forall h | h in next.scanners
      ensures MarkingHasCopy(next.db, next.scanners[h].pc, next.objects)
    {
      assert ScannerOk(s.db, s.uploaded, s.answers, s.scanners[h]);
      assert MarkingHasCopy(s.db, s.scanners[h].pc, s.objects);
    }
  }

  lemma ActivationKeepsCopies(cfg: Config, s: State)
    requires Inv(cfg, s) && CopiesThere(s) && Enabled(s, Activate)
    ensures CopiesThere(Next(cfg, s, Activate))
  {
    var next := Next(cfg, s, Activate);
    forall d | d in next.db.rows
      ensures CleanHasCopy(next.db.rows[d], next.objects)
    {
      assert CleanHasCopy(s.db.rows[d], s.objects);
    }
  }

  /** An object that is no document's copy. */
  lemma RemovalKeepsCopies(cfg: Config, s: State, key: Key)
    requires Inv(cfg, s) && CopiesThere(s)
    requires forall d :: d in s.db.rows && SanitizedKeyOf(s.db.rows[d].storageKey) == key ==>
               && (s.db.rows[d].status == CLEAN ==> s.db.rows[d].fileType == PDF)
               && forall k :: k in s.scanners && AboutToClean(s.db, s.scanners[k].pc) ==>
                    s.scanners[k].pc.claim.doc != d
    ensures CopiesThere(s.(objects := s.objects - {key}))
  {
    forall d | d in s.db.rows
      ensures CleanHasCopy(s.db.rows[d], s.objects - {key})
    {
      assert CleanHasCopy(s.db.rows[d], s.objects);
    }
    forall h | h in s.scanners
      ensures MarkingHasCopy(s.db, s.scanners[h].pc, s.objects - {key})
    {
      assert MarkingHasCopy(s.db, s.scanners[h].pc, s.objects);
      assert ScannerOk(s.db, s.uploaded, s.answers, s.scanners[h]);
    }
  }

  // ----- The steps that remove one -----

  lemma DeletingOwnsKey(cfg: Config, s: State, h: nat, d: DocId)
    requires Inv(cfg, s) && h in s.scanners && s.scanners[h].pc.Deleting? && d in s.db.rows
    requires SanitizedKeyOf(s.db.rows[d].storageKey) == SanitizedKeyOf(s.scanners[h].pc.claim.storageKey)
    ensures d == s.scanners[h].pc.claim.doc
  {
    var c := s.scanners[h].pc.claim;
    assert ScannerOk(s.db, s.uploaded, s.answers, s.scanners[h]);
    SanitizedKeysDiffer(s.db.rows[d].storageKey, c.storageKey);
  }

  lemma HarmlessDeletion(cfg: Config, s: State, a: Act)
    requires Inv(cfg, s) && CopiesThere(s) && Enabled(s, a) && a.ScanStep? && Happened(a.outcome)
    requires s.scanners[a.scanner].pc.Deleting? && !RemovesNeededCopy(s, a)
    ensures CopiesThere(Next(cfg, s, a))
  {
    var key := SanitizedKeyOf(s.scanners[a.scanner].pc.claim.storageKey);
    forall d | d in s.db.rows && SanitizedKeyOf(s.db.rows[d].storageKey) == key
      ensures d == s.scanners[a.scanner].pc.claim.doc
    {
      DeletingOwnsKey(cfg, s, a.scanner, d);
    }
    RemovalKeepsCopies(cfg, s, key);
  }

  lemma NeededCopyGone(cfg: Config, s: State, a: Act)
    requires Inv(cfg, s) && Enabled(s, a) && RemovesNeededCopy(s, a)
    ensures !CopiesThere(Next(cfg, s, a))
  {
    var next := Next(cfg, s, a);
    var c := s.scanners[a.scanner].pc.claim;
    assert ScannerOk(s.db, s.uploaded, s.answers, s.scanners[a.scanner]);
    if HasStatus(s.db, c.doc, CLEAN) && s.db.rows[c.doc].fileType != PDF {
      assert !CleanHasCopy(next.db.rows[c.doc], next.objects);
    } else {
      var k :| k in s.scanners && AboutToClean(s.db, s.scanners[k].pc) && s.scanners[k].pc.claim.doc == c.doc;
      assert ScannerOk(s.db, s.uploaded, s.answers, s.scanners[k]);
      assert !MarkingHasCopy(next.db, next.scanners[k].pc, next.objects);
    }
  }

  lemma RemovalOfOriginalKeepsCopies(cfg: Config, s: State, d: DocId)
    requires Inv(cfg, s) && CopiesThere(s) && d in s.db.rows
    ensures CopiesThere(Next(cfg, s, RemoveOriginal(d)))
  {
    forall e | e in s.db.rows
      ensures SanitizedKeyOf(s.db.rows[e].storageKey) != s.db.rows[d].storageKey
    {
      assert RowOk(cfg, s.ocrOn, s.db.now, s.db.rows[e]) && RowOk(cfg, s.ocrOn, s.db.now, s.db.rows[d]);
    }
    RemovalKeepsCopies(cfg, s, s.db.rows[d].storageKey);
  }

  lemma StepKeepsCopies(cfg: Config, s: State, a: Act)
    requires ValidConfig(cfg) && Inv(cfg, s) && CopiesThere(s) && Enabled(s, a) && !RemovesNeededCopy(s, a)
    ensures CopiesThere(Next(cfg, s, a))
  {
    match a
    case ScanStep(h, o, answer, pdfEnabled) =>
      if s.scanners[h].pc.Deleting? && Happened(o) {
        HarmlessDeletion(cfg, s, a);
      } else {
        ScanStepKeepsCopies(cfg, s, h, o, answer, pdfEnabled);
      }
    case OcrStep(h, o, answer) => OcrStepKeepsCopies(cfg, s, h, o, answer);
    case Sweep(docs) => OutsideAllKeepCopies(cfg, s, FailAll(docs) + RequeueAll(docs));
    case OcrSweep(docs) => OutsideAllKeepCopies(cfg, s, OcrSweepAll(docs));
    case Reprocess(d) => OthersKeepCopies(cfg, s, ReprocessScan(d));
    case OcrReprocess(d) => OthersKeepCopies(cfg, s, ReprocessOcr(d));
    case Activate => ActivationKeepsCopies(cfg, s);
    case Upload(_, _, _, _, _) => UploadKeepsCopies(cfg, s, a);
    case RemoveOriginal(d) => RemovalOfOriginalKeepsCopies(cfg, s, d);
    case _ => QuietKeepsCopies(cfg, s, a);
  }

  /** A step leaves every needed copy in place exactly when it is not such a late removal. */
  lemma CopyLostExactly(cfg: Config, s: State, a: Act)
    requires ValidConfig(cfg) && Reachable(cfg, s) && CopiesThere(s) && Enabled(s, a)
    ensures CopiesThere(Next(cfg, s, a)) <==> !RemovesNeededCopy(s, a)
  {
    ReachableOk(cfg, s);
    if RemovesNeededCopy(s, a) {
      NeededCopyGone(cfg, s, a);
    } else {
      StepKeepsCopies(cfg, s, a);
    }
  }

  // ----- Over whole runs -----

  /** If the action removes a copy, then while the document it was removed for is still SCAN_FAILED. */
  predicate RemovesPromptly(s: State, a: Act)
    requires Enabled(s, a)
  {
    a.ScanStep? && Happened(a.outcome) && s.scanners[a.scanner].pc.Deleting? ==>
      HasStatus(s.db, s.scanners[a.scanner].pc.claim.doc, SCAN_FAILED)
  }

  predicate AllPrompt(cfg: Config, s: State, run: seq<Act>)
    requires CanRun(cfg, s, run)
    decreases |run|
  {
    run == [] || (RemovesPromptly(s, run[0]) && AllPrompt(cfg, Next(cfg, s, run[0]), run[1..]))
  }

  lemma {:induction false} PromptRunKeepsCopies(cfg: Config, s: State, run: seq<Act>)
    requires ValidConfig(cfg) && Inv(cfg, s) && CopiesThere(s) && CanRun(cfg, s, run) && AllPrompt(cfg, s, run)
    ensures CopiesThere(Run(cfg, s, run))
    decreases |run|
  {
    if run != [] {
      StepKeepsCopies(cfg, s, run[0]);
      StepKeeps(cfg, s, run[0]);
      PromptRunKeepsCopies(cfg, Next(cfg, s, run[0]), run[1..]);
    }
  }

  /**
   After any run in which every removal of a copy took effect before its document was reprocessed, every
   CLEAN image has its copy, and the copy is its original stripped.
   */
  lemma CleanImagesHaveCopies(cfg: Config, now: Time, run: seq<Act>, d: DocId)
    requires ValidConfig(cfg) && CanRun(cfg, Initial(now), run) && AllPrompt(cfg, Initial(now), run)
    ensures var s := Run(cfg, Initial(now), run);
            HasStatus(s.db, d, CLEAN) && s.db.rows[d].fileType != PDF ==>
              && SanitizedKeyOf(s.db.rows[d].storageKey) in s.objects && d in s.uploaded
              && Sanitized(s.db.rows[d].fileType, s.uploaded[d])
                 == Some(s.objects[SanitizedKeyOf(s.db.rows[d].storageKey)])
  {
    var s := Run(cfg, Initial(now), run);
    InitialOk(cfg, now);
    RunKeeps(cfg, Initial(now), run);
    PromptRunKeepsCopies(cfg, Initial(now), run);
    if HasStatus(s.db, d, CLEAN) {
      assert CleanHasCopy(s.db.rows[d], s.objects);
      assert ObjectsOk(s.db.rows[d], d, s.objects, s.uploaded, s.answers);
    }
  }
}
