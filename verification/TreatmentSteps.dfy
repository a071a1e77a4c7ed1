/** Every action keeps the invariant; so it holds in every reachable state. */
module TreatmentSteps {
  import opened Wrappers
  import opened Bytes
  import opened TreatmentDb
  import opened TreatmentRows
  import opened TreatmentLedger
  import opened TreatmentFencing
  import opened TreatmentMachine
  import opened TreatmentInvariants

  // ----- A step of a document.scan handler -----

  /** A handler asks only for transactions its claim justifies. */
  lemma ScanTxJustified(cfg: Config, s: State, h: nat, ocr: OcrActivation)
    requires h in s.scanners && ScannerOk(s.db, s.uploaded, s.answers, s.scanners[h]) && ocr.Some? == s.ocrOn
    requires ScanTx(cfg, s.scanners[h], ocr).Some?
    ensures var tx := ScanTx(cfg, s.scanners[h], ocr).value;
            JustifiedIn(cfg, s.ocrOn, s.db, tx) && VerdictGiven(s, tx) && !ByReader(tx)
  {
  }

  /** It never gives back or fails a claim that another handler holds. */
  lemma ScanTxSparesOthers(cfg: Config, s: State, h: nat, ocr: OcrActivation, k: nat)
    requires OneHolder(s.db, s.scanners) && h in s.scanners && k in s.scanners && h != k
    requires ScanTx(cfg, s.scanners[h], ocr).Some? && HoldsIn(s.db, s.scanners[k].pc)
    ensures !EndsScan(ScanTx(cfg, s.scanners[h], ocr).value, ClaimIn(s.scanners[k].pc).value)
  {
    assert !BothHold(s.db, s.scanners[h].pc, s.scanners[k].pc);
  }

  lemma OtherScanners(cfg: Config, s: State, h: nat, ocr: OcrActivation, k: nat)
    requires Inv(cfg, s) && h in s.scanners && k in s.scanners && h != k
    requires ScanTx(cfg, s.scanners[h], ocr).Some?
    ensures var next := Commit(cfg, s.db, ScanTx(cfg, s.scanners[h], ocr).value);
            && ScannerOk(next, s.uploaded, s.answers, s.scanners[k])
            && (HoldsIn(next, s.scanners[k].pc) ==> HoldsIn(s.db, s.scanners[k].pc))
  {
    if HoldsIn(s.db, s.scanners[k].pc) {
      ScanTxSparesOthers(cfg, s, h, ocr, k);
    }
    ScannerAfterCommit(cfg, s, ScanTx(cfg, s.scanners[h], ocr).value, k);
  }

  lemma ScannerClearedMore(db: Db, uploaded: map<DocId, Buffer>, answers: Answers, more: Answers, sc: Scanner)
    requires ScannerOk(db, uploaded, answers, sc) && answers <= more
    ensures ScannerOk(db, uploaded, more, sc)
  {
  }

  /** A claim being granted: the handler holds it alone. */
  lemma ClaimGranted(cfg: Config, s: State, h: nat, k: nat)
    requires Inv(cfg, s) && h in s.scanners && k in s.scanners && h != k
    requires s.scanners[h].pc.Delivered? && ScanClaimOf(cfg, s.db, s.scanners[h].doc).Some?
    ensures var d := s.scanners[h].doc;
            var pc := s.scanners[k].pc;
            HoldsIn(Commit(cfg, s.db, ClaimScan(d)), pc) ==> ClaimIn(pc).value.doc != d
  {
    var d, pc := s.scanners[h].doc, s.scanners[k].pc;
    if ClaimIn(pc).Some? && ClaimIn(pc).value.doc == d {
      assert ScannerOk(s.db, s.uploaded, s.answers, s.scanners[k]);
      ClaimOvertakes(cfg, s.ocrOn, s.db, d, ClaimIn(pc).value);
    }
  }

  /** A step of the handler itself: its job is unchanged, whatever the database becomes. */
  lemma Moved(db: Db, next: Db, uploaded: map<DocId, Buffer>, answers: Answers, sc: Scanner, pc: ScanPc)
    requires Extends(db, next) && ScannerOk(db, uploaded, answers, sc)
    requires ClaimIn(pc).Some? ==> ScanFence(next, ClaimIn(pc).value) && ClaimIn(pc).value.doc == sc.doc
    requires ScanDataOk(uploaded, answers, pc) && (pc.Deleting? ==> OwnsKey(next, pc.claim))
    ensures ScannerOk(next, uploaded, answers, sc.(pc := pc))
  {
  }

  lemma OwnQuietData(cfg: Config, s: State, h: nat, o: Outcome, answer: Answer)
    requires h in s.scanners && ScannerOk(s.db, s.uploaded, s.answers, s.scanners[h])
    requires StorageOk(s.db, s.objects, s.uploaded, s.answers)
    requires var pc := s.scanners[h].pc; !pc.Delivered? && !pc.Marking? && !pc.Failing?
    ensures var sc := s.scanners[h];
            var pc := ScanPcAfter(cfg, s, sc, o, answer);
            && ScanDataOk(s.uploaded, ScanAnswers(s.answers, sc, o, answer), pc)
            && !pc.Deleting?
            && (ClaimIn(pc).Some? ==> ClaimIn(pc) == ClaimIn(sc.pc))
  {
    var pc := s.scanners[h].pc;
    if pc.Reading? {
      assert ObjectsOk(s.db.rows[pc.claim.doc], pc.claim.doc, s.objects, s.uploaded, s.answers);
    }
  }

  lemma OwnQuietStep(cfg: Config, s: State, h: nat, o: Outcome, answer: Answer)
    requires Inv(cfg, s) && h in s.scanners
    requires var pc := s.scanners[h].pc; !pc.Delivered? && !pc.Marking? && !pc.Failing?
    ensures var sc := s.scanners[h];
            var pc := ScanPcAfter(cfg, s, sc, o, answer);
            && ScannerOk(s.db, s.uploaded, ScanAnswers(s.answers, sc, o, answer), sc.(pc := pc))
            && (ClaimIn(pc).Some? ==> ClaimIn(pc) == ClaimIn(sc.pc))
  {
    var sc := s.scanners[h];
    OwnQuietData(cfg, s, h, o, answer);
    var more := ScanAnswers(s.answers, sc, o, answer);
    ScannerClearedMore(s.db, s.uploaded, s.answers, more, sc);
    Moved(s.db, s.db, s.uploaded, more, sc, ScanPcAfter(cfg, s, sc, o, answer));
  }

  lemma CommitIfExtends(cfg: Config, ocrOn: bool, db: Db, tx: Option<Tx>, o: Outcome)
    requires DbOk(cfg, ocrOn, db) && JobsOk(db)
    ensures Extends(db, CommitIf(cfg, db, tx, o))
  {
    if tx.Some? {
      CommitExtends(cfg, ocrOn, db, tx.value);
    }
  }

  lemma OwnClaimStep(cfg: Config, s: State, h: nat, o: Outcome, answer: Answer, next: Db)
    requires h in s.scanners && ScannerOk(s.db, s.uploaded, s.answers, s.scanners[h])
    requires s.scanners[h].pc.Delivered? && Extends(s.db, next)
    requires var c := ScanClaimOf(cfg, s.db, s.scanners[h].doc); o.Done? && c.Some? ==> ScanFence(next, c.value)
    ensures var sc := s.scanners[h];
            ScannerOk(next, s.uploaded, s.answers, sc.(pc := ScanPcAfter(cfg, s, sc, o, answer)))
  {
    Moved(s.db, next, s.uploaded, s.answers, s.scanners[h], ScanPcAfter(cfg, s, s.scanners[h], o, answer));
  }

  lemma OwnMarkingStep(cfg: Config, s: State, h: nat, o: Outcome, answer: Answer, next: Db)
    requires h in s.scanners && ScannerOk(s.db, s.uploaded, s.answers, s.scanners[h])
    requires s.scanners[h].pc.Marking? && Extends(s.db, next)
    requires ScanFence(next, s.scanners[h].pc.claim)
    ensures var sc := s.scanners[h];
            var pc := ScanPcAfter(cfg, s, sc, o, answer);
            && ScannerOk(next, s.uploaded, s.answers, sc.(pc := pc))
            && (ClaimIn(pc).Some? ==> ClaimIn(pc) == ClaimIn(sc.pc))
  {
    Moved(s.db, next, s.uploaded, s.answers, s.scanners[h], ScanPcAfter(cfg, s, s.scanners[h], o, answer));
  }

  lemma OwnFailingStep(cfg: Config, s: State, h: nat, o: Outcome, answer: Answer, next: Db)
    requires h in s.scanners && ScannerOk(s.db, s.uploaded, s.answers, s.scanners[h])
    requires s.scanners[h].pc.Failing? && Extends(s.db, next)
    ensures var sc := s.scanners[h];
            var pc := ScanPcAfter(cfg, s, sc, o, answer);
            ScannerOk(next, s.uploaded, s.answers, sc.(pc := pc)) && ClaimIn(pc).None?
  {
    Moved(s.db, next, s.uploaded, s.answers, s.scanners[h], ScanPcAfter(cfg, s, s.scanners[h], o, answer));
  }

  lemma OwnStep(cfg: Config, s: State, h: nat, ocr: OcrActivation, o: Outcome, answer: Answer)
    requires Inv(cfg, s) && h in s.scanners
    ensures var sc := s.scanners[h];
            var pc := ScanPcAfter(cfg, s, sc, o, answer);
            var next := CommitIf(cfg, s.db, ScanTx(cfg, sc, ocr), o);
            && ScannerOk(next, s.uploaded, ScanAnswers(s.answers, sc, o, answer), sc.(pc := pc))
            && (HoldsIn(next, pc) ==> sc.pc.Delivered? || (ClaimIn(pc) == ClaimIn(sc.pc) && HoldsIn(s.db, sc.pc)))
  {
    var sc := s.scanners[h];
    var pc := sc.pc;
    var tx := ScanTx(cfg, sc, ocr);
    var next := CommitIf(cfg, s.db, tx, o);
    CommitIfExtends(cfg, s.ocrOn, s.db, tx, o);
    if pc.Delivered? {
      if ScanClaimOf(cfg, s.db, sc.doc).Some? {
        NewScanClaim(cfg, s.ocrOn, s.db, sc.doc);
      }
      OwnClaimStep(cfg, s, h, o, answer, next);
    } else if pc.Marking? {
      assert ScannerOk(s.db, s.uploaded, s.answers, sc);
      ScanFenceKept(cfg, s.ocrOn, s.db, tx.value, pc.claim);
      OwnMarkingStep(cfg, s, h, o, answer, next);
    } else if pc.Failing? {
      OwnFailingStep(cfg, s, h, o, answer, next);
    } else {
      OwnQuietStep(cfg, s, h, o, answer);
    }
  }

  /** After the step, whoever holds the document this handler holds is this handler. */
  lemma StillOneHolder(cfg: Config, s: State, h: nat, ocr: OcrActivation, o: Outcome, answer: Answer, k: nat)
    requires Inv(cfg, s) && h in s.scanners && k in s.scanners && h != k
    ensures var sc := s.scanners[h];
            var next := CommitIf(cfg, s.db, ScanTx(cfg, sc, ocr), o);
            !BothHold(next, ScanPcAfter(cfg, s, sc, o, answer), s.scanners[k].pc)
  {
    var sc := s.scanners[h];
    OwnStep(cfg, s, h, ocr, o, answer);
    assert !BothHold(s.db, sc.pc, s.scanners[k].pc);
    if ScanTx(cfg, sc, ocr).Some? && Happened(o) {
      OtherScanners(cfg, s, h, ocr, k);
    }
    if sc.pc.Delivered? && ScanClaimOf(cfg, s.db, sc.doc).Some? && o.Done? {
      ClaimGranted(cfg, s, h, k);
    }
  }

  lemma CopyStored(db: Db, objects: map<Key, Buffer>, uploaded: map<DocId, Buffer>, answers: Answers,
                   c: ScanClaim, copy: Buffer, d: DocId)
    requires d in db.rows && ObjectsOk(db.rows[d], d, objects, uploaded, answers)
    requires DistinctKeys(db) && OwnsKey(db, c) && db.rows[c.doc].fileType == c.fileType
    requires |db.rows[d].storageKey| == |c.storageKey|
    requires IsCopy(uploaded, c.fileType, c.doc, copy) && WasCleared(uploaded, answers, c.doc)
    ensures ObjectsOk(db.rows[d], d, objects[SanitizedKeyOf(c.storageKey) := copy], uploaded, answers)
  {
    if SanitizedKeyOf(db.rows[d].storageKey) == SanitizedKeyOf(c.storageKey) {
      SanitizedKeysDiffer(db.rows[d].storageKey, c.storageKey);
    }
  }

  lemma CopyStoredAll(cfg: Config, s: State, c: ScanClaim, copy: Buffer)
    requires Inv(cfg, s) && ScanFence(s.db, c)
    requires IsCopy(s.uploaded, c.fileType, c.doc, copy) && WasCleared(s.uploaded, s.answers, c.doc)
    ensures StorageOk(s.db, s.objects[SanitizedKeyOf(c.storageKey) := copy], s.uploaded, s.answers)
  {
    forall d | d in s.db.rows
      ensures ObjectsOk(s.db.rows[d], d, s.objects[SanitizedKeyOf(c.storageKey) := copy], s.uploaded, s.answers)
    {
      CopyStored(s.db, s.objects, s.uploaded, s.answers, c, copy, d);
    }
  }

  lemma ObjectRemoved(db: Db, objects: map<Key, Buffer>, uploaded: map<DocId, Buffer>, answers: Answers, key: Key)
    requires StorageOk(db, objects, uploaded, answers)
    ensures StorageOk(db, objects - {key}, uploaded, answers)
  {
  }

  lemma MoreCleared(db: Db, objects: map<Key, Buffer>, uploaded: map<DocId, Buffer>, answers: Answers,
                    more: Answers)
    requires StorageOk(db, objects, uploaded, answers) && answers <= more
    ensures StorageOk(db, objects, uploaded, more)
  {
  }

  lemma StorageAfterStep(cfg: Config, s: State, h: nat, o: Outcome, answer: Answer, db: Db)
    requires Inv(cfg, s) && h in s.scanners
    requires StorageOk(db, s.objects, s.uploaded, s.answers) && (s.scanners[h].pc.Storing? ==> db == s.db)
    ensures var sc := s.scanners[h];
            StorageOk(db, ScanObjects(s.objects, sc, o), s.uploaded, ScanAnswers(s.answers, sc, o, answer))
  {
    var sc := s.scanners[h];
    if sc.pc.Storing? {
      assert ScannerOk(s.db, s.uploaded, s.answers, sc);
      CopyStoredAll(cfg, s, sc.pc.claim, sc.pc.copy);
    } else if sc.pc.Deleting? {
      ObjectRemoved(db, s.objects, s.uploaded, s.answers, SanitizedKeyOf(sc.pc.claim.storageKey));
    } else {
      MoreCleared(db, s.objects, s.uploaded, s.answers, ScanAnswers(s.answers, sc, o, answer));
    }
  }

  /** The database after the step, as everybody but the handler sees it. */
  lemma DbAfterScanStep(cfg: Config, s: State, h: nat, ocr: OcrActivation, o: Outcome)
    requires ValidConfig(cfg) && Inv(cfg, s) && h in s.scanners && ocr.Some? == s.ocrOn
    ensures var next := CommitIf(cfg, s.db, ScanTx(cfg, s.scanners[h], ocr), o);
            && DbOk(cfg, s.ocrOn, next) && DistinctKeys(next) && JobsOk(next)
            && StorageOk(next, s.objects, s.uploaded, s.answers)
            && NoneStranded(next, s.readers)
  {
    var tx := ScanTx(cfg, s.scanners[h], ocr);
    if tx.Some? && Happened(o) {
      ScanTxJustified(cfg, s, h, ocr);
      DbKept(cfg, s.ocrOn, s.db, tx.value);
      CommitExtends(cfg, s.ocrOn, s.db, tx.value);
      KeysStayDistinct(s.db, Commit(cfg, s.db, tx.value));
      StorageAfterCommit(cfg, s, tx.value);
      NoneStrandedAfterCommit(cfg, s, tx.value);
    }
  }

  lemma ScannersAfterStep(cfg: Config, s: State, h: nat, o: Outcome, answer: Answer, pdfEnabled: bool)
    requires Inv(cfg, s) && h in s.scanners
    ensures var next := ScanStepped(cfg, s, h, o, answer, pdfEnabled);
            ScannersOk(next) && OneHolder(next.db, next.scanners)
  {
    var ocr := if s.ocrOn then Some(pdfEnabled) else None;
    var next := ScanStepped(cfg, s, h, o, answer, pdfEnabled);
    OwnStep(cfg, s, h, ocr, o, answer);
    forall k | k in s.scanners && k != h
      ensures ScannerOk(next.db, s.uploaded, next.answers, s.scanners[k])
      ensures HoldsIn(next.db, s.scanners[k].pc) ==> HoldsIn(s.db, s.scanners[k].pc)
      ensures !BothHold(next.db, next.scanners[h].pc, s.scanners[k].pc)
    {
      StillOneHolder(cfg, s, h, ocr, o, answer, k);
      if ScanTx(cfg, s.scanners[h], ocr).Some? && Happened(o) {
        OtherScanners(cfg, s, h, ocr, k);
      }
      ScannerClearedMore(next.db, s.uploaded, s.answers, next.answers, s.scanners[k]);
    }
  }

  lemma ReadersAfterScanStep(cfg: Config, s: State, h: nat, ocr: OcrActivation, o: Outcome, more: Answers)
    requires Inv(cfg, s) && h in s.scanners && ocr.Some? == s.ocrOn && s.answers <= more
    ensures var next := s.(db := CommitIf(cfg, s.db, ScanTx(cfg, s.scanners[h], ocr), o), answers := more);
            ReadersOk(cfg, next) && OneOcrHolder(next.db, s.readers)
  {
    var tx := ScanTx(cfg, s.scanners[h], ocr);
    if tx.Some? && Happened(o) {
      ScanTxJustified(cfg, s, h, ocr);
      ReadersAfterCommit(cfg, s, tx.value);
    }
  }

  lemma ScanStepKeeps(cfg: Config, s: State, h: nat, o: Outcome, answer: Answer, pdfEnabled: bool)
    requires ValidConfig(cfg) && Inv(cfg, s) && h in s.scanners
    ensures Inv(cfg, ScanStepped(cfg, s, h, o, answer, pdfEnabled))
  {
    var ocr := if s.ocrOn then Some(pdfEnabled) else None;
    var next := ScanStepped(cfg, s, h, o, answer, pdfEnabled);
    DbAfterScanStep(cfg, s, h, ocr, o);
    StorageAfterStep(cfg, s, h, o, answer, next.db);
    ScannersAfterStep(cfg, s, h, o, answer, pdfEnabled);
    ReadersAfterScanStep(cfg, s, h, ocr, o, next.answers);
  }

  // ----- A step of a document.ocr handler -----

  lemma OcrTxJustified(cfg: Config, s: State, h: nat)
    requires h in s.readers && ReaderOk(cfg, s.db, s.uploaded, s.answers, s.readers[h])
    requires OcrTx(cfg, s.readers[h]).Some?
    ensures var tx := OcrTx(cfg, s.readers[h]).value;
            JustifiedIn(cfg, s.ocrOn, s.db, tx) && VerdictGiven(s, tx) && !ByScanner(tx)
  {
  }

  lemma OcrTxSparesOthers(cfg: Config, s: State, h: nat, k: nat)
    requires OneOcrHolder(s.db, s.readers) && h in s.readers && k in s.readers && h != k
    requires OcrTx(cfg, s.readers[h]).Some? && OcrHoldsIn(s.db, s.readers[k].pc)
    ensures !EndsOcr(OcrTx(cfg, s.readers[h]).value, OcrClaimIn(s.readers[k].pc).value)
  {
    assert !OcrBothHold(s.db, s.readers[h].pc, s.readers[k].pc);
  }

  lemma OtherReaders(cfg: Config, s: State, h: nat, k: nat)
    requires Inv(cfg, s) && h in s.readers && k in s.readers && h != k
    requires OcrTx(cfg, s.readers[h]).Some?
    ensures var next := Commit(cfg, s.db, OcrTx(cfg, s.readers[h]).value);
            && ReaderOk(cfg, next, s.uploaded, s.answers, s.readers[k])
            && (OcrHoldsIn(next, s.readers[k].pc) ==> OcrHoldsIn(s.db, s.readers[k].pc))
  {
    if OcrHoldsIn(s.db, s.readers[k].pc) {
      OcrTxSparesOthers(cfg, s, h, k);
    }
    ReaderAfterCommit(cfg, s, OcrTx(cfg, s.readers[h]).value, k);
  }

  lemma OcrClaimGranted(cfg: Config, s: State, h: nat, k: nat)
    requires Inv(cfg, s) && h in s.readers && k in s.readers && h != k
    requires s.readers[h].pc.OcrDelivered? && OcrClaimOf(cfg, s.db, s.readers[h].doc).Some?
    ensures var d := s.readers[h].doc;
            var pc := s.readers[k].pc;
            OcrHoldsIn(Commit(cfg, s.db, ClaimOcr(d)), pc) ==> OcrClaimIn(pc).value.doc != d
  {
    var d, pc := s.readers[h].doc, s.readers[k].pc;
    if OcrClaimIn(pc).Some? && OcrClaimIn(pc).value.doc == d {
      assert ReaderOk(cfg, s.db, s.uploaded, s.answers, s.readers[k]);
      OcrClaimOvertakes(cfg, s.ocrOn, s.db, d, OcrClaimIn(pc).value);
    }
  }

  lemma OcrMoved(cfg: Config, db: Db, next: Db, uploaded: map<DocId, Buffer>, answers: Answers,
                 r: Reader, pc: OcrPc)
    requires Extends(db, next) && ReaderOk(cfg, db, uploaded, answers, r)
    requires OcrClaimIn(pc).Some? ==> OcrFence(next, OcrClaimIn(pc).value)
    requires OcrDataOk(cfg, uploaded, answers, pc)
    ensures ReaderOk(cfg, next, uploaded, answers, r.(pc := pc))
  {
  }

  /** The object read is the cleared original or its copy: the storage holds nothing else under those keys. */
  lemma OcrReadData(cfg: Config, s: State, c: OcrClaim)
    requires OcrFence(s.db, c) && ScanRowOk(cfg, s.db.now, s.db.rows[c.doc])
    requires ObjectsOk(s.db.rows[c.doc], c.doc, s.objects, s.uploaded, s.answers)
    ensures OcrDataOk(cfg, s.uploaded, s.answers, AfterOcrRead(cfg, s.objects, c))
    ensures OcrClaimIn(AfterOcrRead(cfg, s.objects, c)) == Some(c)
  {
  }

  lemma OwnOcrData(cfg: Config, s: State, h: nat, o: Outcome, answer: OcrAnswer)
    requires h in s.readers && ReaderOk(cfg, s.db, s.uploaded, s.answers, s.readers[h])
    requires StorageOk(s.db, s.objects, s.uploaded, s.answers)
    requires forall d :: d in s.db.rows ==> ScanRowOk(cfg, s.db.now, s.db.rows[d])
    requires !s.readers[h].pc.OcrDelivered?
    ensures var r := s.readers[h];
            var pc := OcrPcAfter(cfg, s, r, o, answer);
            && OcrDataOk(cfg, s.uploaded, s.answers, pc)
            && (OcrClaimIn(pc).Some? ==> OcrClaimIn(pc) == OcrClaimIn(r.pc) && OcrTx(cfg, r).None?)
  {
    var pc := s.readers[h].pc;
    if pc.OcrReading? {
      OcrReadData(cfg, s, pc.ocrClaim);
    }
  }

  lemma OwnOcrClaimStep(cfg: Config, s: State, h: nat, o: Outcome, answer: OcrAnswer, next: Db)
    requires h in s.readers && ReaderOk(cfg, s.db, s.uploaded, s.answers, s.readers[h])
    requires s.readers[h].pc.OcrDelivered? && Extends(s.db, next)
    requires var c := OcrClaimOf(cfg, s.db, s.readers[h].doc); o.Done? && c.Some? ==> OcrFence(next, c.value)
    ensures var r := s.readers[h];
            ReaderOk(cfg, next, s.uploaded, s.answers, r.(pc := OcrPcAfter(cfg, s, r, o, answer)))
  {
    OcrMoved(cfg, s.db, next, s.uploaded, s.answers, s.readers[h], OcrPcAfter(cfg, s, s.readers[h], o, answer));
  }

  lemma OwnOcrLaterStep(cfg: Config, s: State, h: nat, o: Outcome, answer: OcrAnswer, next: Db)
    requires Inv(cfg, s) && h in s.readers && !s.readers[h].pc.OcrDelivered? && Extends(s.db, next)
    requires OcrTx(cfg, s.readers[h]).None? ==> next == s.db
    ensures var r := s.readers[h];
            var pc := OcrPcAfter(cfg, s, r, o, answer);
            && ReaderOk(cfg, next, s.uploaded, s.answers, r.(pc := pc))
            && (OcrClaimIn(pc).Some? ==> OcrClaimIn(pc) == OcrClaimIn(r.pc) && next == s.db)
  {
    OwnOcrData(cfg, s, h, o, answer);
    OcrMoved(cfg, s.db, next, s.uploaded, s.answers, s.readers[h], OcrPcAfter(cfg, s, s.readers[h], o, answer));
  }

  lemma OwnOcrStep(cfg: Config, s: State, h: nat, o: Outcome, answer: OcrAnswer)
    requires Inv(cfg, s) && h in s.readers
    ensures var r := s.readers[h];
            var pc := OcrPcAfter(cfg, s, r, o, answer);
            var next := CommitIf(cfg, s.db, OcrTx(cfg, r), o);
            && ReaderOk(cfg, next, s.uploaded, s.answers, r.(pc := pc))
            && (OcrHoldsIn(next, pc) ==> r.pc.OcrDelivered? || (OcrClaimIn(pc) == OcrClaimIn(r.pc) && next == s.db))
  {
    var r := s.readers[h];
    var next := CommitIf(cfg, s.db, OcrTx(cfg, r), o);
    CommitIfExtends(cfg, s.ocrOn, s.db, OcrTx(cfg, r), o);
    if r.pc.OcrDelivered? {
      if OcrClaimOf(cfg, s.db, r.doc).Some? {
        NewOcrClaim(cfg, s.ocrOn, s.db, r.doc);
      }
      OwnOcrClaimStep(cfg, s, h, o, answer, next);
    } else {
      OwnOcrLaterStep(cfg, s, h, o, answer, next);
    }
  }

  lemma ClaimsItsDocument(cfg: Config, s: State, h: nat, o: Outcome, answer: OcrAnswer)
    requires h in s.readers && s.readers[h].pc.OcrDelivered?
    ensures var pc := OcrPcAfter(cfg, s, s.readers[h], o, answer);
            OcrClaimIn(pc).Some? ==>
              o.Done? && OcrClaimOf(cfg, s.db, s.readers[h].doc).Some? && OcrClaimIn(pc).value.doc == s.readers[h].doc
  {
  }

  lemma DifferentDocuments(next: Db, p: OcrPc, q: OcrPc, d: DocId)
    requires OcrClaimIn(p).Some? ==> OcrClaimIn(p).value.doc == d
    requires OcrHoldsIn(next, q) ==> OcrClaimIn(q).value.doc != d
    ensures !OcrBothHold(next, p, q)
  {
  }

  lemma StillOneOcrHolder(cfg: Config, s: State, h: nat, o: Outcome, answer: OcrAnswer, k: nat)
    requires Inv(cfg, s) && h in s.readers && k in s.readers && h != k
    ensures var r := s.readers[h];
            var next := CommitIf(cfg, s.db, OcrTx(cfg, r), o);
            !OcrBothHold(next, OcrPcAfter(cfg, s, r, o, answer), s.readers[k].pc)
  {
    var r := s.readers[h];
    if r.pc.OcrDelivered? {
      ClaimsItsDocument(cfg, s, h, o, answer);
      if OcrClaimIn(OcrPcAfter(cfg, s, r, o, answer)).Some? {
        OcrClaimGranted(cfg, s, h, k);
        var claimed := Commit(cfg, s.db, ClaimOcr(r.doc));
        DifferentDocuments(claimed, OcrPcAfter(cfg, s, r, o, answer), s.readers[k].pc, r.doc);
      }
    } else {
      OwnOcrStep(cfg, s, h, o, answer);
      assert !OcrBothHold(s.db, r.pc, s.readers[k].pc);
    }
  }

  lemma ReadersAfterStep(cfg: Config, s: State, h: nat, o: Outcome, answer: OcrAnswer)
    requires Inv(cfg, s) && h in s.readers
    ensures var next := OcrStepped(cfg, s, h, o, answer);
            ReadersOk(cfg, next) && OneOcrHolder(next.db, next.readers)
  {
    var next := OcrStepped(cfg, s, h, o, answer);
    OwnOcrStep(cfg, s, h, o, answer);
    forall k | k in s.readers && k != h
      ensures ReaderOk(cfg, next.db, s.uploaded, s.answers, s.readers[k])
      ensures OcrHoldsIn(next.db, s.readers[k].pc) ==> OcrHoldsIn(s.db, s.readers[k].pc)
      ensures !OcrBothHold(next.db, next.readers[h].pc, s.readers[k].pc)
    {
      StillOneOcrHolder(cfg, s, h, o, answer, k);
      if OcrTx(cfg, s.readers[h]).Some? && Happened(o) {
        OtherReaders(cfg, s, h, k);
      }
    }
  }

  /** A handler that goes past its claim with an OCR still pending will throw, and keep its job. */
  lemma WaitingAfterStep(cfg: Config, s: State, h: nat, o: Outcome, answer: OcrAnswer, job: nat, d: DocId)
    requires h in s.readers && ReaderOk(cfg, s.db, s.uploaded, s.answers, s.readers[h])
    requires HasOcr(s.db, d, PENDING) && RowOk(cfg, s.ocrOn, s.db.now, s.db.rows[d])
    requires Waiting(s.db, s.readers, job, d)
    requires var next := OcrStepped(cfg, s, h, o, answer).db; Extends(s.db, next) && HasOcr(next, d, PENDING)
    ensures var next := OcrStepped(cfg, s, h, o, answer); Waiting(next.db, next.readers, job, d)
  {
    if s.readers[h].job == job && s.readers[h].pc.OcrDelivered? {
      assert Hits(cfg, s.db, ClaimOcr(d));
    }
  }

  lemma WaitingForNewJob(db: Db, readers: map<nat, Reader>, h: nat, r: Reader, job: nat, d: DocId)
    requires Waiting(db, readers, job, d) && r.job != job
    ensures Waiting(db, readers[h := r], job, d)
  {
  }

  predicate HitsHere(cfg: Config, db: Db, tx: Option<Tx>, o: Outcome, d: DocId) {
    tx.Some? && Happened(o) && DocOf(tx.value) == d && Hits(cfg, db, tx.value)
  }

  lemma PendingBefore(cfg: Config, db: Db, tx: Option<Tx>, o: Outcome, d: DocId)
    requires HasOcr(CommitIf(cfg, db, tx, o), d, PENDING) && !HitsHere(cfg, db, tx, o, d)
    ensures HasOcr(db, d, PENDING)
  {
  }

  lemma PendingByStep(cfg: Config, s: State, h: nat, o: Outcome, d: DocId, r: Reader)
    requires Inv(cfg, s) && h in s.readers && HitsHere(cfg, s.db, OcrTx(cfg, s.readers[h]), o, d)
    requires HasOcr(Commit(cfg, s.db, OcrTx(cfg, s.readers[h]).value), d, PENDING)
    requires r.job == s.readers[h].job
    ensures Waiting(Commit(cfg, s.db, OcrTx(cfg, s.readers[h]).value), s.readers[h := r], s.db.nextJob, d)
  {
    var tx := OcrTx(cfg, s.readers[h]).value;
    assert ReaderOk(cfg, s.db, s.uploaded, s.answers, s.readers[h]);
    OcrTxJustified(cfg, s, h);
    PendingAfterCommit(cfg, s, tx, d);
    WaitingForNewJob(Commit(cfg, s.db, tx), s.readers, h, r, s.db.nextJob, d);
  }

  lemma PendingAfterStep(cfg: Config, s: State, h: nat, o: Outcome, answer: OcrAnswer, d: DocId)
    requires Inv(cfg, s) && h in s.readers && Extends(s.db, OcrStepped(cfg, s, h, o, answer).db)
    requires HasOcr(OcrStepped(cfg, s, h, o, answer).db, d, PENDING)
    ensures var next := OcrStepped(cfg, s, h, o, answer); exists job :: Waiting(next.db, next.readers, job, d)
  {
    var tx := OcrTx(cfg, s.readers[h]);
    if HitsHere(cfg, s.db, tx, o, d) {
      PendingByStep(cfg, s, h, o, d, OcrStepped(cfg, s, h, o, answer).readers[h]);
    } else {
      PendingBefore(cfg, s.db, tx, o, d);
      var job :| Waiting(s.db, s.readers, job, d);
      WaitingAfterStep(cfg, s, h, o, answer, job, d);
    }
  }

  lemma NoneStrandedAfterOcrStep(cfg: Config, s: State, h: nat, o: Outcome, answer: OcrAnswer)
    requires Inv(cfg, s) && h in s.readers
    ensures var next := OcrStepped(cfg, s, h, o, answer); NoneStranded(next.db, next.readers)
  {
    var next := OcrStepped(cfg, s, h, o, answer);
    CommitIfExtends(cfg, s.ocrOn, s.db, OcrTx(cfg, s.readers[h]), o);
    forall d | HasOcr(next.db, d, PENDING)
      ensures exists job :: Waiting(next.db, next.readers, job, d)
    {
      PendingAfterStep(cfg, s, h, o, answer, d);
    }
  }

  lemma DbAfterOcrStep(cfg: Config, s: State, h: nat, o: Outcome)
    requires ValidConfig(cfg) && Inv(cfg, s) && h in s.readers
    ensures var next := s.(db := CommitIf(cfg, s.db, OcrTx(cfg, s.readers[h]), o));
            && DbOk(cfg, s.ocrOn, next.db) && DistinctKeys(next.db) && JobsOk(next.db)
            && StorageOk(next.db, s.objects, s.uploaded, s.answers)
            && ScannersOk(next) && OneHolder(next.db, s.scanners)
  {
    var tx := OcrTx(cfg, s.readers[h]);
    if tx.Some? && Happened(o) {
      OcrTxJustified(cfg, s, h);
      DbKept(cfg, s.ocrOn, s.db, tx.value);
      CommitExtends(cfg, s.ocrOn, s.db, tx.value);
      KeysStayDistinct(s.db, Commit(cfg, s.db, tx.value));
      StorageAfterCommit(cfg, s, tx.value);
      ScannersAfterCommit(cfg, s, tx.value);
    }
  }

  lemma OcrStepKeeps(cfg: Config, s: State, h: nat, o: Outcome, answer: OcrAnswer)
    requires ValidConfig(cfg) && Inv(cfg, s) && h in s.readers
    ensures Inv(cfg, OcrStepped(cfg, s, h, o, answer))
  {
    DbAfterOcrStep(cfg, s, h, o);
    ReadersAfterStep(cfg, s, h, o, answer);
    NoneStrandedAfterOcrStep(cfg, s, h, o, answer);
  }
}
