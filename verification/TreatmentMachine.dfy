/**
 The treatment of documents as a state machine: the database, the object storage, and the handlers
 of `document.scan` and `document.ocr` jobs in flight on any number of workers. Each action is one
 transaction, one storage, antivirus or provider call, or something that happens around them: a
 delivery, a crash, a sweep, an ADMIN's reprocessing, the clock.

 A call returns or throws, and one that throws may have taken effect. A job goes away only when a
 handler of it ends without throwing; it may be delivered again at any time before that.
 */
module TreatmentMachine {
  import opened Wrappers
  import opened Arithmetic
  import opened Bytes
  import opened FileType
  import opened Sanitizer
  import opened OcrText
  import opened TreatmentDb
  import opened TreatmentRows

  // ----- Handlers -----

  /** Where a `document.scan` handler is: what it does next. */
  datatype ScanPc =
    | Delivered
    | Reading(claim: ScanClaim)
    | Analysing(claim: ScanClaim, content: Buffer)
    | Storing(claim: ScanClaim, copy: Buffer)
    | Marking(claim: ScanClaim, verdict: ScanVerdict)
    | Failing(claim: ScanClaim)   // in the catch block
    | Deleting(claim: ScanClaim)  // removeSanitizedCopy
    | Finished
    | Throwing

  datatype Scanner = Scanner(job: nat, doc: DocId, pc: ScanPc)

  datatype OcrPc =
    | OcrDelivered
    | Excluding(ocrClaim: OcrClaim)
    | OcrReading(ocrClaim: OcrClaim)
    | Recognizing(ocrClaim: OcrClaim, content: Buffer)
    | Completing(ocrClaim: OcrClaim, texts: seq<string>)
    | OcrFailing(ocrClaim: OcrClaim, permanent: bool, code: ErrorCode)
    | OcrFinished
    | OcrThrowing

  /** `pdfAllowed` is the configuration of the worker the job was delivered to. */
  datatype Reader = Reader(job: nat, doc: DocId, pdfAllowed: bool, pc: OcrPc)

  /** What the antivirus says of a content. */
  datatype Answer = SaysClean | SaysInfected(signature: string)

  type Answers = set<(Buffer, Answer)>

  /**
   `uploaded` and `answers` only record the past: the bytes each document was uploaded with, and what
   the antivirus has said of which content.
   */
  datatype State = State(
    db: Db,
    objects: map<Key, Buffer>,
    uploaded: map<DocId, Buffer>,
    answers: Answers,
    scanners: map<nat, Scanner>,
    readers: map<nat, Reader>,
    nextHandler: nat,
    ocrOn: bool)

  datatype OcrAnswer = Pages(pages: seq<string>) | Malformed | Refused(permanent: bool, code: ErrorCode)

  // ----- scan-document.ts -----

  /** The transaction a handler asks for at this point, if any. */
  function ScanTx(cfg: Config, sc: Scanner, ocr: OcrActivation): Option<Tx> {
    match sc.pc
    case Delivered => Some(ClaimScan(sc.doc))
    case Marking(c, verdict) => Some(FinishScan(c, verdict, ocr))
    case Failing(c) =>
      Some(if c.attempts >= cfg.maxAttempts then FinishScan(c, Failed, ocr) else ReleaseScan(c))
    case _ => None
  }

  function AfterRead(c: ScanClaim, content: Option<Buffer>): ScanPc {
    if content.Some? && |content.value| == c.fileSize then Analysing(c, content.value) else Failing(c)
  }

  function AfterVerdict(c: ScanClaim, content: Buffer, answer: Answer): ScanPc {
    match answer
    case SaysInfected(signature) => Marking(c, Infected(signature))
    case SaysClean =>
      if c.fileType == PDF then Marking(c, Clean(None))
      else
        match Sanitized(c.fileType, content)
        case None => Failing(c)
        case Some(copy) => Storing(c, copy)
  }

  function Fetch(objects: map<Key, Buffer>, key: Key): Option<Buffer> {
    if key in objects then Some(objects[key]) else None
  }

  function ScanPcAfter(cfg: Config, s: State, sc: Scanner, o: Outcome, answer: Answer): ScanPc {
    match sc.pc
    case Delivered =>
      if o.Threw? then Throwing
      else
        var claim := ScanClaimOf(cfg, s.db, sc.doc);
        if claim.None? then Finished else Reading(claim.value)
    case Reading(c) => if o.Threw? then Failing(c) else AfterRead(c, Fetch(s.objects, c.storageKey))
    case Analysing(c, content) => if o.Threw? then Failing(c) else AfterVerdict(c, content, answer)
    case Storing(c, _) => if o.Threw? then Failing(c) else Marking(c, Clean(Some(SanitizedKeyOf(c.storageKey))))
    case Marking(c, _) => if o.Threw? then Failing(c) else Finished
    case Failing(c) =>
      if o.Threw? || c.attempts < cfg.maxAttempts then Throwing
      else if HoldsScan(s.db, c) && c.fileType != PDF then Deleting(c)
      else Finished
    case Deleting(_) => Finished
    case Finished => Finished
    case Throwing => Throwing
  }

  function ScanObjects(objects: map<Key, Buffer>, sc: Scanner, o: Outcome): map<Key, Buffer> {
    if !Happened(o) then objects
    else
      match sc.pc
      case Storing(c, copy) => objects[SanitizedKeyOf(c.storageKey) := copy]
      case Deleting(c) => objects - {SanitizedKeyOf(c.storageKey)}
      case _ => objects
  }

  function ScanAnswers(answers: Answers, sc: Scanner, o: Outcome, answer: Answer): Answers {
    if sc.pc.Analysing? && o.Done? then answers + {(sc.pc.content, answer)} else answers
  }

  function CommitIf(cfg: Config, db: Db, tx: Option<Tx>, o: Outcome): Db {
    if tx.Some? && Happened(o) then Commit(cfg, db, tx.value) else db
  }

  /** `pdfEnabled` matters only with the OCR on. */
  function ScanStepped(cfg: Config, s: State, h: nat, o: Outcome, answer: Answer, pdfEnabled: bool): State
    requires h in s.scanners
  {
    var sc := s.scanners[h];
    s.(db := CommitIf(cfg, s.db, ScanTx(cfg, sc, if s.ocrOn then Some(pdfEnabled) else None), o),
       objects := ScanObjects(s.objects, sc, o),
       answers := ScanAnswers(s.answers, sc, o, answer),
       scanners := s.scanners[h := sc.(pc := ScanPcAfter(cfg, s, sc, o, answer))])
  }

  // ----- ocr-document.ts -----

  const MAX_RETRY_DELAY := 3600

  /** The first delay, doubled with each attempt, never above an hour; a claim has at least one attempt. */
  function RetryDelay(cfg: Config, attempts: nat): nat {
    Min(if attempts == 0 then cfg.retryDelay else Doubled(cfg.retryDelay, attempts - 1), MAX_RETRY_DELAY)
  }

  predicate GivesUp(cfg: Config, c: OcrClaim, permanent: bool) {
    permanent || c.attempts >= cfg.ocrMaxAttempts
  }

  function OcrTx(cfg: Config, r: Reader): Option<Tx> {
    match r.pc
    case OcrDelivered => Some(ClaimOcr(r.doc))
    case Excluding(c) => Some(ExcludeOcr(c))
    case Completing(c, texts) => Some(CompleteOcr(c, texts))
    case OcrFailing(c, permanent, code) =>
      Some(if GivesUp(cfg, c, permanent) then FailOcr(c, code) else ReleaseOcr(c, RetryDelay(cfg, c.attempts)))
    case _ => None
  }

  /** Whether the representation to process is the object as uploaded. */
  predicate ProcessesOriginal(cfg: Config, c: OcrClaim) {
    c.fileType == PDF || cfg.processOriginals
  }

  function AfterOcrRead(cfg: Config, objects: map<Key, Buffer>, c: OcrClaim): OcrPc {
    var key := if ProcessesOriginal(cfg, c) then Some(c.storageKey) else c.sanitizedKey;
    if key.None? || key.value !in objects then OcrFailing(c, true, ObjectMissing)
    else if ProcessesOriginal(cfg, c) && |objects[key.value]| != c.fileSize then OcrFailing(c, true, ObjectMismatch)
    else Recognizing(c, objects[key.value])
  }

  function AfterRecognition(cfg: Config, c: OcrClaim, answer: OcrAnswer): OcrPc {
    match answer
    case Refused(permanent, code) => OcrFailing(c, permanent, code)
    case Malformed => OcrFailing(c, false, InvalidResponse)
    case Pages(pages) =>
      if pages == [] then OcrFailing(c, false, InvalidResponse)
      else if exists i :: 0 <= i < |pages| && '\0' in pages[i] then OcrFailing(c, true, InvalidResponse)
      else if |pages| > cfg.maxPages then OcrFailing(c, true, TooManyPages)
      else Completing(c, NormalizePages(pages))
  }

  function OcrPcAfter(cfg: Config, s: State, r: Reader, o: Outcome, answer: OcrAnswer): OcrPc {
    match r.pc
    case OcrDelivered =>
      if o.Threw? then OcrThrowing
      else
        var claim := OcrClaimOf(cfg, s.db, r.doc);
        if claim.None? then OcrFinished
        else if claim.value.fileType == PDF && !r.pdfAllowed then Excluding(claim.value)
        else OcrReading(claim.value)
    case OcrReading(c) =>
      if o.Threw? then OcrFailing(c, false, StorageUnavailable) else AfterOcrRead(cfg, s.objects, c)
    case Recognizing(c, _) =>
      if o.Threw? then OcrFailing(c, false, ProviderError) else AfterRecognition(cfg, c, answer)
    case OcrFinished => OcrFinished
    case OcrThrowing => OcrThrowing
    case _ => if o.Threw? then OcrThrowing else OcrFinished
  }

  function OcrStepped(cfg: Config, s: State, h: nat, o: Outcome, answer: OcrAnswer): State
    requires h in s.readers
  {
    var r := s.readers[h];
    s.(db := CommitIf(cfg, s.db, OcrTx(cfg, r), o),
       readers := s.readers[h := r.(pc := OcrPcAfter(cfg, s, r, o, answer))])
  }

  // ----- Actions -----

  datatype Act =
    | DeliverScan(job: nat)
    | ScanStep(scanner: nat, outcome: Outcome, answer: Answer, pdfEnabled: bool)
    | ScanEnd(scanner: nat)
    | ScanCrash(scanner: nat)
    | DeliverOcr(job: nat, pdfAllowed: bool)
    | OcrStep(reader: nat, outcome: Outcome, ocrAnswer: OcrAnswer)
    | OcrEnd(reader: nat)
    | OcrCrash(reader: nat)
    | Sweep(docs: seq<DocId>)  // any rows: they are locked with SKIP LOCKED
    | OcrSweep(docs: seq<DocId>)
    | Reprocess(doc: DocId)
    | OcrReprocess(doc: DocId)
    | Activate
    | Upload(doc: DocId, fileType: FileType, key: Key, content: Buffer, legacy: bool)
    | RemoveOriginal(doc: DocId)
    | Tick(time: Time)

  predicate Deliverable(s: State, job: nat, queue: Queue) {
    job in s.db.jobs && s.db.jobs[job].queue == queue && s.db.jobs[job].startAfter <= s.db.now
  }

  /** Keys end in a new random id: no row has it and no object's key starts with it. */
  predicate FreshKey(s: State, key: Key) {
    && |key| == KEY_LENGTH
    && (forall d :: d in s.db.rows ==> s.db.rows[d].storageKey != key)
    && (forall k :: k in s.objects ==> !(key <= k))
  }

  predicate Enabled(s: State, a: Act) {
    match a
    case DeliverScan(job) => Deliverable(s, job, ScanQueue)
    case ScanStep(h, _, _, _) => h in s.scanners
    case ScanEnd(h) => h in s.scanners && s.scanners[h].pc.Finished?
    case ScanCrash(h) => h in s.scanners
    case DeliverOcr(job, _) => s.ocrOn && Deliverable(s, job, OcrQueue)
    case OcrStep(h, _, _) => h in s.readers
    case OcrEnd(h) => h in s.readers && s.readers[h].pc.OcrFinished?
    case OcrCrash(h) => h in s.readers
    // With the worker stopped; it then starts with the OCR on.
    case Activate => s.scanners == map[] && s.readers == map[]
    case Upload(d, fileType, key, content, _) =>
      d !in s.db.rows && FreshKey(s, key) && DetectFileType(content) == Some(fileType)
    case RemoveOriginal(d) => d in s.db.rows
    case Tick(time) => s.db.now <= time
    case _ => true
  }

  function DropJob(db: Db, job: nat): Db {
    db.(jobs := db.jobs - {job})
  }

  /** The state after an enabled action. A crash and a rethrow both leave the job where it was. */
  function Next(cfg: Config, s: State, a: Act): State
    requires Enabled(s, a)
  {
    match a
    case DeliverScan(job) =>
      s.(scanners := s.scanners[s.nextHandler := Scanner(job, s.db.jobs[job].doc, Delivered)],
         nextHandler := s.nextHandler + 1)
    case ScanStep(h, o, answer, pdfEnabled) => ScanStepped(cfg, s, h, o, answer, pdfEnabled)
    case ScanEnd(h) => s.(db := DropJob(s.db, s.scanners[h].job), scanners := s.scanners - {h})
    case ScanCrash(h) => s.(scanners := s.scanners - {h})
    case DeliverOcr(job, pdfAllowed) =>
      s.(readers := s.readers[s.nextHandler := Reader(job, s.db.jobs[job].doc, pdfAllowed, OcrDelivered)],
         nextHandler := s.nextHandler + 1)
    case OcrStep(h, o, answer) => OcrStepped(cfg, s, h, o, answer)
    case OcrEnd(h) => s.(db := DropJob(s.db, s.readers[h].job), readers := s.readers - {h})
    case OcrCrash(h) => s.(readers := s.readers - {h})
    case Sweep(docs) => s.(db := CommitAll(cfg, s.db, FailAll(docs) + RequeueAll(docs)))
    case OcrSweep(docs) => s.(db := CommitAll(cfg, s.db, OcrSweepAll(docs)))
    case Reprocess(d) => s.(db := Commit(cfg, s.db, ReprocessScan(d)))
    case OcrReprocess(d) => s.(db := Commit(cfg, s.db, ReprocessOcr(d)))
    case Activate => s.(db := Activated(s.db), ocrOn := true)
    case Upload(d, fileType, key, content, legacy) =>
      s.(db := Created(s.db, d, fileType, key, |content|, legacy),
         objects := s.objects[key := content],
         uploaded := s.uploaded[d := content])
    case RemoveOriginal(d) => s.(objects := s.objects - {s.db.rows[d].storageKey})
    case Tick(time) => s.(db := s.db.(now := time))
  }

  function Initial(now: Time): State {
    State(Db(map[], [], [], map[], map[], 0, now), map[], map[], {}, map[], map[], 0, false)
  }

  /** The actions can be taken one after the other from this state. */
  predicate CanRun(cfg: Config, s: State, run: seq<Act>)
    decreases |run|
  {
    run == [] || (Enabled(s, run[0]) && CanRun(cfg, Next(cfg, s, run[0]), run[1..]))
  }

  function Run(cfg: Config, s: State, run: seq<Act>): State
    requires CanRun(cfg, s, run)
    decreases |run|
  {
    if run == [] then s else Run(cfg, Next(cfg, s, run[0]), run[1..])
  }
}
