/** The actions around the handlers, and the invariant over every run. */
module TreatmentReachable {
  import opened Wrappers
  import opened Bytes
  import opened TreatmentDb
  import opened TreatmentRows
  import opened TreatmentLedger
  import opened TreatmentMachine
  import opened TreatmentInvariants
  import opened TreatmentSteps

  /** Nothing newly pending, and whoever waited still waits. */
  lemma NoneStrandedStill(db: Db, readers: map<nat, Reader>, next: Db, readers': map<nat, Reader>)
    requires NoneStranded(db, readers)
    requires forall d :: HasOcr(next, d, PENDING) ==> HasOcr(db, d, PENDING)
    requires forall job, d :: Waiting(db, readers, job, d) ==> Waiting(next, readers', job, d)
    ensures NoneStranded(next, readers')
  {
    forall d | HasOcr(next, d, PENDING)
      ensures exists job :: Waiting(next, readers', job, d)
    {
      var job :| Waiting(db, readers, job, d);
      assert Waiting(next, readers', job, d);
    }
  }

  lemma ScanDeliveryKeeps(cfg: Config, s: State, job: nat)
    requires Inv(cfg, s) && Enabled(s, DeliverScan(job))
    ensures Inv(cfg, Next(cfg, s, DeliverScan(job)))
  {
  }

  lemma NewReaderWaits(db: Db, readers: map<nat, Reader>, h: nat, r: Reader)
    requires NoneStranded(db, readers) && h !in readers && r.pc.OcrDelivered?
    ensures NoneStranded(db, readers[h := r])
  {
    NoneStrandedStill(db, readers, db, readers[h := r]);
  }

  lemma OcrDeliveryKeeps(cfg: Config, s: State, job: nat, pdfAllowed: bool)
    requires Inv(cfg, s) && Enabled(s, DeliverOcr(job, pdfAllowed))
    ensures Inv(cfg, Next(cfg, s, DeliverOcr(job, pdfAllowed)))
  {
    NewReaderWaits(s.db, s.readers, s.nextHandler, Reader(job, s.db.jobs[job].doc, pdfAllowed, OcrDelivered));
  }

  lemma DropKeepsDb(cfg: Config, ocrOn: bool, db: Db, gone: nat)
    requires DbOk(cfg, ocrOn, db)
    ensures DbOk(cfg, ocrOn, DropJob(db, gone))
  {
    forall d: DocId
      ensures ScanAccounted(DropJob(db, gone), d) && OcrAccounted(DropJob(db, gone), d)
    {
      assert ScanAccounted(db, d) && OcrAccounted(db, d);
    }
  }

  lemma DropKeepsHandlers(cfg: Config, s: State, gone: nat)
    requires ScannersOk(s) && OneHolder(s.db, s.scanners) && ReadersOk(cfg, s) && OneOcrHolder(s.db, s.readers)
    ensures var next := s.(db := DropJob(s.db, gone));
            && ScannersOk(next) && OneHolder(next.db, s.scanners)
            && ReadersOk(cfg, next) && OneOcrHolder(next.db, s.readers)
  {
  }

  lemma DropKeeps(cfg: Config, s: State, gone: nat)
    requires Inv(cfg, s)
    requires forall job, d :: Waiting(s.db, s.readers, job, d) ==> job != gone
    ensures Inv(cfg, s.(db := DropJob(s.db, gone)))
  {
    DropKeepsDb(cfg, s.ocrOn, s.db, gone);
    DropKeepsHandlers(cfg, s, gone);
    NoneStrandedStill(s.db, s.readers, DropJob(s.db, gone), s.readers);
  }

  lemma ScannerGone(cfg: Config, s: State, h: nat)
    requires Inv(cfg, s)
    ensures Inv(cfg, s.(scanners := s.scanners - {h}))
  {
  }

  lemma ReaderGone(cfg: Config, s: State, h: nat)
    requires Inv(cfg, s)
    ensures Inv(cfg, s.(readers := s.readers - {h}))
  {
    NoneStrandedStill(s.db, s.readers, s.db, s.readers - {h});
  }

  lemma EndKeeps(cfg: Config, s: State, a: Act)
    requires Inv(cfg, s) && Enabled(s, a) && (a.ScanEnd? || a.OcrEnd?)
    ensures Inv(cfg, Next(cfg, s, a))
  {
    if a.ScanEnd? {
      assert ScannerOk(s.db, s.uploaded, s.answers, s.scanners[a.scanner]);
      DropKeeps(cfg, s, s.scanners[a.scanner].job);
      ScannerGone(cfg, s.(db := DropJob(s.db, s.scanners[a.scanner].job)), a.scanner);
    } else {
      DropKeeps(cfg, s, s.readers[a.reader].job);
      ReaderGone(cfg, s.(db := DropJob(s.db, s.readers[a.reader].job)), a.reader);
    }
  }

  predicate SameAccounts(row: Row, next: Row) {
    && next.status == row.status
    && (next.ocrStatus == FAILED <==> row.ocrStatus == FAILED)
    && (next.ocrStatus == COMPLETED <==> row.ocrStatus == COMPLETED)
    && (next.ocrStatus == PENDING <==> row.ocrStatus == PENDING)
  }

  lemma ActivatedRowOk(cfg: Config, ocrOn: bool, now: Time, row: Row)
    requires RowOk(cfg, ocrOn, now, row)
    ensures RowOk(cfg, true, now, ActivatedRow(row))
    ensures Continues(row, ActivatedRow(row)) && SameAccounts(row, ActivatedRow(row))
  {
  }

  lemma AccountsStay(db: Db, next: Db, d: DocId)
    requires ScanAccounted(db, d) && OcrAccounted(db, d)
    requires next.audit == db.audit && next.results == db.results && next.rows.Keys == db.rows.Keys
    requires d in db.rows ==> SameAccounts(db.rows[d], next.rows[d])
    ensures ScanAccounted(next, d) && OcrAccounted(next, d)
  {
  }

  lemma ActivationKeepsDb(cfg: Config, ocrOn: bool, db: Db)
    requires DbOk(cfg, ocrOn, db)
    ensures DbOk(cfg, true, Activated(db))
    ensures forall d :: d in db.rows ==> Continues(db.rows[d], Activated(db).rows[d])
    ensures forall d :: d in db.rows ==> SameAccounts(db.rows[d], Activated(db).rows[d])
  {
    var next := Activated(db);
    forall d | d in db.rows
      ensures RowOk(cfg, true, db.now, next.rows[d])
      ensures Continues(db.rows[d], next.rows[d]) && SameAccounts(db.rows[d], next.rows[d])
    {
      ActivatedRowOk(cfg, ocrOn, db.now, db.rows[d]);
    }
    forall d: DocId
      ensures ScanAccounted(next, d) && OcrAccounted(next, d)
    {
      AccountsStay(db, next, d);
    }
  }

  /** Storage, and who waits, when rows keep their place and jobs do not change. */
  lemma RestStays(s: State, next: Db)
    requires StorageOk(s.db, s.objects, s.uploaded, s.answers) && NoneStranded(s.db, s.readers) && JobsOk(s.db)
    requires DistinctKeys(s.db)
    requires next.rows.Keys == s.db.rows.Keys && next.jobs == s.db.jobs && next.nextJob == s.db.nextJob
    requires forall d :: d in s.db.rows ==> Continues(s.db.rows[d], next.rows[d])
    requires forall d :: d in s.db.rows ==> SameAccounts(s.db.rows[d], next.rows[d])
    ensures StorageOk(next, s.objects, s.uploaded, s.answers) && NoneStranded(next, s.readers) && JobsOk(next)
    ensures DistinctKeys(next)
  {
    forall d | d in next.rows
      ensures ObjectsOk(next.rows[d], d, s.objects, s.uploaded, s.answers)
    {
      assert ObjectsOk(s.db.rows[d], d, s.objects, s.uploaded, s.answers);
    }
    NoneStrandedStill(s.db, s.readers, next, s.readers);
  }

  lemma ActivationKeeps(cfg: Config, s: State)
    requires Inv(cfg, s) && Enabled(s, Activate)
    ensures Inv(cfg, Next(cfg, s, Activate))
  {
    ActivationKeepsDb(cfg, s.ocrOn, s.db);
    RestStays(s, Activated(s.db));
  }

  lemma TickKeepsScans(cfg: Config, s: State, time: Time)
    requires Inv(cfg, s) && s.db.now <= time
    ensures var next := s.(db := s.db.(now := time));
            ScannersOk(next) && OneHolder(next.db, next.scanners)
  {
    var next := s.db.(now := time);
    forall h | h in s.scanners
      ensures ScannerOk(next, s.uploaded, s.answers, s.scanners[h])
      ensures HoldsIn(next, s.scanners[h].pc) <==> HoldsIn(s.db, s.scanners[h].pc)
    {
      assert ScannerOk(s.db, s.uploaded, s.answers, s.scanners[h]);
    }
  }

  lemma TickKeepsReaders(cfg: Config, s: State, time: Time)
    requires Inv(cfg, s) && s.db.now <= time
    ensures var next := s.(db := s.db.(now := time));
            ReadersOk(cfg, next) && OneOcrHolder(next.db, next.readers)
  {
    var next := s.db.(now := time);
    forall h | h in s.readers
      ensures ReaderOk(cfg, next, s.uploaded, s.answers, s.readers[h])
      ensures OcrHoldsIn(next, s.readers[h].pc) <==> OcrHoldsIn(s.db, s.readers[h].pc)
    {
      assert ReaderOk(cfg, s.db, s.uploaded, s.answers, s.readers[h]);
    }
  }

  lemma TickKeepsDb(cfg: Config, ocrOn: bool, db: Db, time: Time)
    requires DbOk(cfg, ocrOn, db) && db.now <= time
    ensures DbOk(cfg, ocrOn, db.(now := time))
  {
    var next := db.(now := time);
    forall d: DocId
      ensures ScanAccounted(next, d) && OcrAccounted(next, d)
    {
      assert ScanAccounted(db, d) && OcrAccounted(db, d);
    }
  }

  lemma TickKeeps(cfg: Config, s: State, time: Time)
    requires Inv(cfg, s) && s.db.now <= time
    ensures Inv(cfg, s.(db := s.db.(now := time)))
  {
    TickKeepsDb(cfg, s.ocrOn, s.db, time);
    TickKeepsScans(cfg, s, time);
    TickKeepsReaders(cfg, s, time);
    NoneStrandedStill(s.db, s.readers, s.db.(now := time), s.readers);
  }

  /** A write about a document that did not exist. */
  lemma NewRowKeepsDb(cfg: Config, ocrOn: bool, db: Db, w: Writes)
    requires DbOk(cfg, ocrOn, db) && w.doc !in db.rows && w.event.None? && w.result.None?
    requires RowOk(cfg, ocrOn, db.now, w.row) && w.row.ocrStatus == NOT_STARTED
    requires w.row.status == UPLOADED || w.row.status == PENDING_SCAN
    ensures DbOk(cfg, ocrOn, Write(db, w))
  {
    var next := Write(db, w);
    forall d: DocId
      ensures ScanAccounted(next, d) && OcrAccounted(next, d)
    {
      assert ScanAccounted(db, d) && OcrAccounted(db, d);
    }
  }

  predicate Extends1(db: Db, next: Db) {
    && next.now == db.now && next.nextJob >= db.nextJob
    && (forall d :: d in db.rows ==> d in next.rows && next.rows[d] == db.rows[d])
    && (forall job :: job in db.jobs ==> job in next.jobs && next.jobs[job] == db.jobs[job])
    && (forall job :: job in next.jobs && job < db.nextJob ==> job in db.jobs)
  }

  lemma NewRowExtends(db: Db, w: Writes)
    requires JobsOk(db) && w.doc !in db.rows
    ensures Extends1(db, Write(db, w)) && JobsOk(Write(db, w))
  {
  }

  lemma NewRowKeepsHandlers(cfg: Config, s: State, next: State)
    requires Inv(cfg, s) && Extends1(s.db, next.db)
    requires next.scanners == s.scanners && next.readers == s.readers && next.nextHandler == s.nextHandler
    requires next.answers == s.answers
    requires forall d :: d in s.db.rows ==> d in s.uploaded && d in next.uploaded && next.uploaded[d] == s.uploaded[d]
    ensures ScannersOk(next) && OneHolder(next.db, next.scanners)
  {
    forall h | h in s.scanners
      ensures ScannerOk(next.db, next.uploaded, s.answers, s.scanners[h])
      ensures HoldsIn(next.db, s.scanners[h].pc) ==> HoldsIn(s.db, s.scanners[h].pc)
    {
      assert ScannerOk(s.db, s.uploaded, s.answers, s.scanners[h]);
    }
  }

  lemma NewRowKeepsReaders(cfg: Config, s: State, next: State)
    requires Inv(cfg, s) && Extends1(s.db, next.db)
    requires next.scanners == s.scanners && next.readers == s.readers && next.nextHandler == s.nextHandler
    requires next.answers == s.answers
    requires forall d :: d in s.db.rows ==> d in s.uploaded && d in next.uploaded && next.uploaded[d] == s.uploaded[d]
    ensures ReadersOk(cfg, next) && OneOcrHolder(next.db, next.readers)
  {
    forall h | h in s.readers
      ensures ReaderOk(cfg, next.db, next.uploaded, s.answers, s.readers[h])
      ensures OcrHoldsIn(next.db, s.readers[h].pc) ==> OcrHoldsIn(s.db, s.readers[h].pc)
    {
      assert ReaderOk(cfg, s.db, s.uploaded, s.answers, s.readers[h]);
    }
  }

  /** The new object is the new document's original and nobody else's original or copy. */
  lemma NewObject(row: Row, d: DocId, s: State, key: Key, content: Buffer, doc: DocId)
    requires ObjectsOk(row, d, s.objects, s.uploaded, s.answers) && d != doc
    requires |row.storageKey| == |key| == KEY_LENGTH && row.storageKey != key
    ensures ObjectsOk(row, d, s.objects[key := content], s.uploaded[doc := content], s.answers)
  {
  }

  lemma UploadKeepsStorage(cfg: Config, s: State, a: Act)
    requires Inv(cfg, s) && a.Upload? && Enabled(s, a)
    ensures var next := Next(cfg, s, a);
            DistinctKeys(next.db) && StorageOk(next.db, next.objects, next.uploaded, next.answers)
  {
    var next := Next(cfg, s, a);
    forall d | d in next.db.rows
      ensures ObjectsOk(next.db.rows[d], d, next.objects, next.uploaded, next.answers)
    {
      if d == a.doc {
        assert a.key <= SanitizedKeyOf(a.key);
      } else {
        assert RowOk(cfg, s.ocrOn, s.db.now, s.db.rows[d]);
        NewObject(s.db.rows[d], d, s, a.key, a.content, a.doc);
      }
    }
  }

  lemma UploadKeepsJobs(s: State, w: Writes)
    requires NoneStranded(s.db, s.readers) && JobsOk(s.db) && w.doc !in s.db.rows && w.row.ocrStatus == NOT_STARTED
    ensures NoneStranded(Write(s.db, w), s.readers)
  {
    NoneStrandedStill(s.db, s.readers, Write(s.db, w), s.readers);
  }

  lemma UploadKeeps(cfg: Config, s: State, a: Act, w: Writes)
    requires ValidConfig(cfg) && Inv(cfg, s) && a.Upload? && Enabled(s, a)
    requires Next(cfg, s, a).db == Write(s.db, w) && w.doc == a.doc
    requires w.event.None? && w.result.None? && w.row.ocrStatus == NOT_STARTED
    requires w.row.status == UPLOADED || w.row.status == PENDING_SCAN
    requires RowOk(cfg, s.ocrOn, s.db.now, w.row)
    ensures Inv(cfg, Next(cfg, s, a))
  {
    NewRowKeepsDb(cfg, s.ocrOn, s.db, w);
    NewRowExtends(s.db, w);
    UploadKeepsStorage(cfg, s, a);
    UploadKeepsJobs(s, w);
    UploadKeepsHandlers(cfg, s, a);
  }

  lemma UploadKeepsHandlers(cfg: Config, s: State, a: Act)
    requires Inv(cfg, s) && a.Upload? && Enabled(s, a) && Extends1(s.db, Next(cfg, s, a).db)
    ensures var next := Next(cfg, s, a);
            && ScannersOk(next) && OneHolder(next.db, next.scanners)
            && ReadersOk(cfg, next) && OneOcrHolder(next.db, next.readers)
  {
    assert forall d :: d in s.db.rows ==> ObjectsOk(s.db.rows[d], d, s.objects, s.uploaded, s.answers);
    NewRowKeepsHandlers(cfg, s, Next(cfg, s, a));
    NewRowKeepsReaders(cfg, s, Next(cfg, s, a));
  }

  lemma UploadWrites(cfg: Config, s: State, a: Act) returns (w: Writes)
    requires ValidConfig(cfg) && a.Upload? && Enabled(s, a)
    ensures Next(cfg, s, a).db == Write(s.db, w) && w.doc == a.doc
    ensures w.event.None? && w.result.None? && w.row.ocrStatus == NOT_STARTED
    ensures w.row.status == UPLOADED || w.row.status == PENDING_SCAN
    ensures RowOk(cfg, s.ocrOn, s.db.now, w.row)
  {
    w := Writes(a.doc, Next(cfg, s, a).db.rows[a.doc], None, None,
                if a.legacy then None else Some(NewJob(ScanQueue, 0)));
  }

  /** Every enabled action, whoever takes it, keeps the invariant. */
  lemma StepKeeps(cfg: Config, s: State, a: Act)
    requires ValidConfig(cfg) && Inv(cfg, s) && Enabled(s, a)
    ensures Inv(cfg, Next(cfg, s, a))
  {
    match a
    case DeliverScan(job) => ScanDeliveryKeeps(cfg, s, job);
    case ScanStep(h, o, answer, pdfEnabled) => ScanStepKeeps(cfg, s, h, o, answer, pdfEnabled);
    case ScanEnd(_) => EndKeeps(cfg, s, a);
    case ScanCrash(h) => ScannerGone(cfg, s, h);
    case DeliverOcr(job, pdfAllowed) => OcrDeliveryKeeps(cfg, s, job, pdfAllowed);
    case OcrStep(h, o, answer) => OcrStepKeeps(cfg, s, h, o, answer);
    case OcrEnd(_) => EndKeeps(cfg, s, a);
    case OcrCrash(h) => ReaderGone(cfg, s, h);
    case Sweep(docs) => OutsideAllKeep(cfg, s, FailAll(docs) + RequeueAll(docs));
    case OcrSweep(docs) => OutsideAllKeep(cfg, s, OcrSweepAll(docs));
    case Reprocess(d) => OutsideKeeps(cfg, s, ReprocessScan(d));
    case OcrReprocess(d) => OutsideKeeps(cfg, s, ReprocessOcr(d));
    case Activate => ActivationKeeps(cfg, s);
    case Upload(_, _, _, _, _) =>
      var w := UploadWrites(cfg, s, a);
      UploadKeeps(cfg, s, a, w);
    case RemoveOriginal(d) => ObjectRemoved(s.db, s.objects, s.uploaded, s.answers, s.db.rows[d].storageKey);
    case Tick(time) => TickKeeps(cfg, s, time);
  }

  lemma InitialOk(cfg: Config, now: Time)
    ensures Inv(cfg, Initial(now))
  {
  }

  lemma {:induction false} RunKeeps(cfg: Config, s: State, run: seq<Act>)
    requires ValidConfig(cfg) && Inv(cfg, s) && CanRun(cfg, s, run)
    ensures Inv(cfg, Run(cfg, s, run))
    decreases |run|
  {
    if run != [] {
      StepKeeps(cfg, s, run[0]);
      RunKeeps(cfg, Next(cfg, s, run[0]), run[1..]);
    }
  }

  /** The states some run from an empty database leads to. */
  ghost predicate Reachable(cfg: Config, s: State) {
    exists now, run :: CanRun(cfg, Initial(now), run) && s == Run(cfg, Initial(now), run)
  }

  lemma ReachableOk(cfg: Config, s: State)
    requires ValidConfig(cfg) && Reachable(cfg, s)
    ensures Inv(cfg, s)
  {
    var now, run :| CanRun(cfg, Initial(now), run) && s == Run(cfg, Initial(now), run);
    InitialOk(cfg, now);
    RunKeeps(cfg, Initial(now), run);
  }

  /** One more action of a run. */
  lemma {:induction false} RunAppend(cfg: Config, s: State, run: seq<Act>, a: Act)
    requires CanRun(cfg, s, run) && Enabled(Run(cfg, s, run), a)
    ensures CanRun(cfg, s, run + [a]) && Run(cfg, s, run + [a]) == Next(cfg, Run(cfg, s, run), a)
    decreases |run|
  {
    if run == [] {
      assert [] + [a] == [a];
    } else {
      assert (run + [a])[1..] == run[1..] + [a];
      RunAppend(cfg, Next(cfg, s, run[0]), run[1..], a);
    }
  }

  lemma Then(cfg: Config, s: State, a: Act)
    requires Reachable(cfg, s) && Enabled(s, a)
    ensures Reachable(cfg, Next(cfg, s, a))
  {
    var now, run :| CanRun(cfg, Initial(now), run) && s == Run(cfg, Initial(now), run);
    RunAppend(cfg, Initial(now), run, a);
  }
}
