# Verification of the legal-tech platform's document treatment and account security

A Dafny model of what this repository guarantees where many processes act at once, and proofs that it
does. `dafny verify dfyconfig.toml` checks all of it.

**Documents.** A user uploads a file; it goes to object storage, then its row is written under the user's
quota (`Uploads`, `UploadTheorems`, `UploadHandler`). A worker claims the row by a conditional update,
asks the antivirus, stores a copy without metadata of an image, and records the verdict only while its
claim is still the row's; the OCR is a second such state machine, started in the same transaction.

- `TreatmentDb` has the tables and every transaction: its WHERE clause, its SET clause, and the event,
  result and job written with it. `WorkerDatabase` does the same in place, with the source's loops.
- `TreatmentMachine` is the whole system: rows, clock, jobs, object storage, and any number of handlers,
  each at a point of its program. An action is one transaction, one storage, antivirus or provider call,
  or a delivery, crash, sweep, reprocessing, activation, upload or tick. Any call may throw, having taken
  effect or not. A job goes away only when a handler of it ends without throwing.
- `TreatmentInvariants`, `TreatmentSteps` and `TreatmentReachable` prove the invariant over every run;
  `TreatmentHistory`, `TreatmentRetries`, `TreatmentTheorems`, `TreatmentOcrText`, `TreatmentDownloads`,
  `TreatmentCopies` and `TreatmentScanJobs` say what follows from it. `TreatmentAlone` builds runs of one
  document, which `TreatmentLateRemoval`, `TreatmentStranding` and `TreatmentOvertaken` continue to states a
  reader would not expect. `ScanHandler` and `OcrHandler` are the handlers as the programs they are, with
  everything else interleaved between two calls, proved to be runs of the machine.

**Image metadata.** `Jpeg` and `Png` hold the two byte walks, proved to compute parse, filter and print
(sections B.1.1.2, B.1.1.4 and B.1.1.5 of ITU-T T.81; sections 5.2 and 5.3 of the W3C PNG specification).
`TreatmentDownloads.ServedIsTreated` is where they meet the treatment.

**Accounts.** `ProgressiveDelay` and `AttemptLimiter` are the delay over a sliding window, `Sessions`,
`SessionMachine`, `SessionTheorems` and `SessionEndings` the sliding expiry, the rotation and the revocation under
concurrent requests and logins with stale reads, `RateLimiter` the fixed-window limiter with its lazy sweep, `Tokens` and `Outbox` the single-use
tokens and the dispatch of emails. `ClamAv` and `ClamReply` are clamd's framing and the socket's events.

## Assumptions

- A PostgreSQL transaction is one atomic step, and the database's clock does not go back. Nothing else is
  assumed of it: two transactions may see the same instant. The leases may even be zero.
- One deployment gives every worker the same limits; whether PDFs enter the OCR may differ from one
  handler to the next, and the OCR is switched on only with no handler in flight.
- Jobs are delivered at least once, and may be delivered again while a handler of them is in flight.
- New ids, keys, tokens and hashes are fresh. Hashing and randomness are not modelled otherwise.
- The limits of attempts and pages are at least 1.

## Where the code does less than its words

Each of these has a run or an input that shows it and an exact condition, both proved.

- "Nobody else treats it" (`scan-document.ts:69-73`): by the time a failed treatment removes its copy, a
  reprocessing may have made the document CLEAN. `TreatmentLateRemoval.CleanWithoutCopy` is such a run for
  every image; `TreatmentCopies.CopyLostExactly` says exactly which steps do it, and `CleanImagesHaveCopies` that
  without a removal that late every CLEAN image has its copy.
- "Recovery of documents whose job can no longer move them" (`queue.ts:67-78`): the sweep does not look at a
  waiting document. If its job is delivered again while its handler is in flight, the job may go away before
  that handler gives its claim back, and the document then waits for ever: `TreatmentStranding`.
  `TreatmentScanJobs.StrandedExactly` says which steps do it; without such a delivery none does. The OCR is not
  affected: its release enqueues a job (`TreatmentTheorems.NoStrandedOcr`).
- "Undoes a stored upload whose row was not written" (`documents.service.ts:199-204`): a row may have been
  written by a call that threw, and the undoing then removes a document's object: `UploadTheorems.CommittedButThrown`
  and `RowLosesObjectExactly`. A process that dies in between undoes nothing and logs nothing:
  `OrphanedByCrash` and `OrphanedExactly`.
- "Every session of the user is revoked" (`auth.types.ts:191-192`, ADR-002): a login that had checked the old
  password inserts its session after the reset. `SessionEndings.OldPasswordEnters` and `OldPasswordEndsExactly`.
- "The image data is copied byte for byte" holds, but an accepted JPEG whose top level has a code 0x00, which
  T.81 does not define, may be read differently after stripping: `JpegIdempotence.ExposedExample` and
  `IdempotentShapes`.
- "Rotation never extends a session's lifetime" holds, but a request that straddles the end of it rotates once
  more, into a session that is never valid: `SessionTheorems.OneRotationTooMany` and `RotationIsUsableExactly`.
- A document's attempts may exceed the maximum, of the scan and of the OCR: `TreatmentOvertaken.AttemptsExceed` and
  `OcrAttemptsExceed`, and `TreatmentRetries.ExceedsByTakeoverOnly` for both.
- `scanDocument` may answer "failed" while the document is not SCAN_FAILED:
  `TreatmentOvertaken.FailedWhileScanning`, and the contract of `ScanHandler.ScanDocument` says exactly when.

## Model

| member | source | states |
|---|---|---|
| Jpeg.StripJpegMetadata | apps/worker/src/sanitize/image-metadata.ts:32-86 | the byte walk, with its fill-byte, segment and scan loops and every refusal, computes parse, filter and print; the loops terminate |
| JpegTheorems.ParsePrint | apps/worker/src/sanitize/image-metadata.ts:32-86 | printing any valid list of segments and scans, with any fill bytes and any trailer, and parsing it gives the list back |
| JpegTheorems.StripPrinted | apps/worker/src/sanitize/image-metadata.ts:32-86 | the strip of a printed image and any trailer is the image printed without APP1, APP13 and COM, without fill bytes and without the trailer |
| JpegTheorems.AcceptedIsPrinted | apps/worker/src/sanitize/image-metadata.ts:32-86 | everything accepted is some valid image, printed, followed by a trailer |
| JpegTheorems.StripExactly | apps/worker/src/sanitize/image-metadata.ts:27-86 | an input gives an output if and only if the input is a printed image with a trailer and the output its cleaned form |
| JpegIdempotence.StripTwice | apps/worker/src/sanitize/image-metadata.ts:32-86 | an output in which no code 0x00 stands after a scan is read again with the same bytes and no removed marker |
| JpegIdempotence.StripIsIdempotent | apps/worker/src/sanitize/image-metadata.ts:32-86 | stripping an accepted file of real markers (no code 0x00 at top level) a second time changes nothing |
| JpegIdempotence.IdempotentShapes | apps/worker/src/sanitize/image-metadata.ts:52-83 | exactly which sequences of markers always come back unchanged: those that leave no code 0x00 directly after scan data |
| JpegIdempotence.ExposedExample | apps/worker/src/sanitize/image-metadata.ts:52-83 | a concrete accepted file whose output does not come back unchanged |
| JpegIdempotence.OutputIsSlices | apps/worker/src/sanitize/image-metadata.ts:36-83 | every output is slices of the input, in order and without overlap |
| JpegIdempotence.FileTypePreserved | apps/api/src/modules/documents/file-type.ts:25-31 | input and output of an accepted strip are both detected as JPEG |
| Png.StripPngMetadata | apps/worker/src/sanitize/image-metadata.ts:96-114 | the chunk walk, with every refusal, computes parse, filter and print |
| PngTheorems.ParsePrint | apps/worker/src/sanitize/image-metadata.ts:96-114 | printing any valid list of chunks and IEND, with any trailer, and parsing it gives them back |
| PngTheorems.StripExactly | apps/worker/src/sanitize/image-metadata.ts:88-114 | an input gives an output if and only if the input is a printed PNG with a trailer and the output is printed without eXIf, tEXt, zTXt and iTXt |
| PngTheorems.StripIsIdempotent | apps/worker/src/sanitize/image-metadata.ts:96-114 | stripping an accepted output again always returns it unchanged |
| PngTheorems.OutputIsSlices | apps/worker/src/sanitize/image-metadata.ts:100-111 | every output is slices of the input, in order |
| PngTheorems.FileTypePreserved | apps/api/src/modules/documents/file-type.ts:25-31 | input and output of an accepted strip are both detected as PNG |
| FileType.DetectsBySignature | apps/api/src/modules/documents/file-type.ts:8-31 | a type is detected exactly when the content starts with its signature; the order of the table does not matter |
| TreatmentRows.RowKept | apps/worker/src/scan/scan.repository.ts:39-149 | every conditional update of the worker keeps the joint invariant of the two state machines of a row |
| TreatmentRows.OcrEventsMatch | apps/worker/src/ocr/ocr.repository.ts:129-176 | each change of OCR state comes with exactly its event and its result |
| TreatmentRows.ScanEventsMatch | apps/worker/src/scan/scan.repository.ts:104-149 | each change of status comes with exactly its audit event |
| TreatmentLedger.DbKept | apps/worker/src/scan/scan.repository.ts:108-149 | any transaction a handler justifies keeps the rows, the accounting of events and results, and the numbering of pages |
| TreatmentFencing.ScanFenceKept | apps/worker/src/scan/scan.repository.ts:95-138 | a claim its handler does not end itself stays its row's or is overtaken, and never comes back |
| TreatmentFencing.ClaimOvertakes | apps/worker/src/scan/scan.repository.ts:39-53 | a granted claim overtakes every other claim of the document |
| TreatmentFencing.OcrFenceKept | apps/worker/src/ocr/ocr.repository.ts:38-150 | the same fencing for the OCR's claims |
| TreatmentFencing.OcrClaimOvertakes | apps/worker/src/ocr/ocr.repository.ts:38-66 | a granted OCR claim overtakes every other one of the document |
| TreatmentReachable.StepKeeps | apps/worker/src/scan/scan-document.ts:40-91 | every action of the machine (handler steps, deliveries, crashes, sweeps, reprocessings, activation, uploads, the clock) keeps the whole invariant |
| TreatmentReachable.ReachableOk | apps/worker/src/scan/scan-document.ts:40-109 | the invariant holds in every state of every run |
| TreatmentHistory.AtMostOneCurrent | apps/worker/src/scan/scan.repository.ts:39-102 | of two handlers in flight, at most one holds a document's current claim, for scan and OCR |
| TreatmentHistory.OvertakenForever | apps/worker/src/scan/scan.repository.ts:104-138 | a handler whose claim is no longer its row's never changes the database with it again, in any continuation |
| TreatmentHistory.OcrOvertakenForever | apps/worker/src/ocr/ocr.repository.ts:96-150 | the same for OCR handlers |
| TreatmentHistory.FinalStates | apps/worker/src/queue.ts:165-190 | over every run CLEAN and INFECTED are final, COMPLETED, EXCLUDED and NOT_APPLICABLE are final, and the audit log only grows |
| TreatmentRetries.BoundedRetries | apps/worker/src/queue.ts:67-113 | until a reprocessing, a document returns from a claim to waiting at most maxAttempts - 1 times, by release or sweep; the same for the OCR |
| TreatmentRetries.WaitingHasAttempt | apps/worker/src/scan/scan-document.ts:59-65 | a document that waits, and an OCR that waits, always has an attempt left |
| TreatmentRetries.ExceedsByTakeoverOnly | apps/worker/src/scan/scan.repository.ts:39-53 | for the scan and for the OCR alike: a step takes a document above the maximum of attempts if and only if it takes over an expired claim on its last one |
| TreatmentOvertaken.AttemptsExceed | apps/worker/src/scan/scan.repository.ts:39-53 | for every document, any limits and every n, a reachable state whose scan is on its n-th attempt: the maximum bounds nothing |
| TreatmentOvertaken.OcrAttemptsExceed | apps/worker/src/ocr/ocr.repository.ts:38-66 | the same for the OCR of every document that can be cleared |
| TreatmentRetries.RetryDelayDoubles | apps/worker/src/ocr/ocr-document.ts:110-113 | each retry of a transient error waits twice as long as the one before, up to an hour |
| TreatmentScanJobs.WaitingScanHasJob | apps/worker/src/scan/scan-document.ts:59-66 | a waiting document has a job that will treat it, in every run that delivers no job while a handler of it is in flight |
| TreatmentScanJobs.StrandedExactly | apps/worker/src/scan/scan-document.ts:59-66 | a step leaves every waiting document its job if and only if it is not a release whose job will not come back and that leaves no other |
| TreatmentStranding.DeliveredTwiceStrands | apps/worker/src/queue.ts:67-114 | for every document of any type and every maximum above one attempt, a run with a job delivered twice that leaves it waiting with no job |
| TreatmentStranding.StrandedForever | apps/worker/src/queue.ts:104-114 | no continuation treats such a document any more: no sweep or reprocessing acts on it |
| TreatmentOcrText.OwnerReadsWhatWasRecorded | apps/api/src/modules/documents/documents.repository.ts:93-126 | once recorded, the owner's read is exactly the normalized pages of that execution, numbered in order, in every later state |
| TreatmentOcrText.ReadsPagesExactlyWhenCompleted | apps/api/src/modules/documents/documents.repository.ts:103-121 | there is one completed result exactly when the OCR is COMPLETED, with 1 to maxPages pages; no page is read in any other state |
| TreatmentOcrText.ListingIsNumbered | apps/worker/src/ocr/ocr.repository.ts:160-168 | the ordered listing of the pages stored for n texts is those texts numbered from 1, and nothing else |
| TreatmentTheorems.JointState | apps/worker/src/scan/scan.repository.ts:151-165 | how the two states of a document combine; a copy key exactly on a CLEAN image, a signature exactly on an INFECTED document |
| TreatmentTheorems.ScanAuditConserved | apps/worker/src/queue.ts:96-103 | #scan_failed = #scan_reprocessed + [SCAN_FAILED], and #scan_clean + #scan_infected = [CLEAN or INFECTED] |
| TreatmentTheorems.OcrAuditConserved | apps/worker/src/ocr/ocr-queue.ts:80-95 | #ocr_failed = #FAILED results = #ocr_reprocessed + [FAILED], and #ocr_completed = #COMPLETED results = [COMPLETED] |
| TreatmentTheorems.NoStrandedOcr | apps/worker/src/ocr/ocr-queue.ts:96-135 | a pending OCR always has a job queued, delayed or delivered that no handler has claimed anything with |
| TreatmentTheorems.WaitingJobClaims | apps/worker/src/ocr/ocr.repository.ts:38-66 | the first transaction of a handler delivered for a pending OCR makes it the holder |
| TreatmentTheorems.ActivationNeverAborts | apps/worker/src/ocr/ocr-activation.ts:18-32 | after the two updates no row violates the activation invariant, whatever the table held |
| TreatmentTheorems.StartsExactlyWhenActivated | apps/worker/src/ocr/ocr-activation.ts:61-77 | the start-up check passes exactly when the activation has run or there is nothing CLEAN |
| TreatmentDownloads.DownloadableExactlyClean | apps/api/src/modules/documents/documents.service.ts:57-68 | exactly the CLEAN documents have a key, and an image's is its copy's |
| TreatmentDownloads.OriginalsUntouched | apps/worker/src/scan/scan-document.ts:28-31 | over every run no worker, current or overtaken, writes or removes an original |
| TreatmentDownloads.CleanWasCleared | apps/worker/src/scan/scan-document.ts:47-58 | a document is CLEAN only if the antivirus called exactly its uploaded bytes clean |
| TreatmentDownloads.InfectedWasFlagged | apps/worker/src/scan/scan-document.ts:52-56 | a document is INFECTED only if the antivirus named that signature in exactly its uploaded bytes |
| TreatmentDownloads.CopyIsStrippedOriginal | apps/worker/src/scan/scan-document.ts:93-109 | whatever is stored under the copy's key is the strip of the original, in any state of the document |
| TreatmentDownloads.ServedIsTreated | apps/api/src/modules/documents/documents.service.ts:57-68 | what a download serves: a PDF as uploaded, an image printed without its metadata, of its detected type, and cleared |
| TreatmentDownloads.ProviderSeesClearedBytes | apps/worker/src/ocr/ocr-document.ts:135-156 | the OCR provider is given only the cleared original or its copy, as configured |
| TreatmentCopies.CopyLostExactly | apps/worker/src/scan/scan-document.ts:59-91 | a step leaves every needed copy in place if and only if it is not the removal of a copy whose document is CLEAN or about to be |
| TreatmentCopies.CleanImagesHaveCopies | apps/worker/src/scan/scan-document.ts:59-79 | after every run in which each removal of a copy takes effect while its document is still SCAN_FAILED, every CLEAN image has its copy, and it is the stripped original |
| TreatmentLateRemoval.CleanWithoutCopy | apps/worker/src/scan/scan-document.ts:59-79 | for every JPEG or PNG that can be stripped and any maximum of attempts, a run that ends CLEAN without its copy |
| OcrText.NormalizeChangesExactly | apps/worker/src/ocr/normalize-text.ts:6-8 | the normalization changes a text exactly when it holds a carriage return or is not in NFC, for any NFC that neither adds nor removes carriage returns |
| WorkerDatabase.Database.Claim | apps/worker/src/scan/scan.repository.ts:39-64 | the in-place claim is the claim transaction, and answers its claim |
| WorkerDatabase.Database.Finish | apps/worker/src/scan/scan.repository.ts:108-149 | the result, the joint OCR state, its job and its event are written together, only while the claim is ours |
| WorkerDatabase.Database.Release | apps/worker/src/scan/scan.repository.ts:95-102 | the release is fenced by the token |
| WorkerDatabase.Database.SweepUntreatedDocuments | apps/worker/src/queue.ts:79-125 | the two statements of the sweep over the locked rows, and the ids each acted on |
| WorkerDatabase.Database.ReprocessDocument | apps/worker/src/queue.ts:172-207 | a SCAN_FAILED document gets a new round, a job and an event; anything else changes nothing |
| WorkerDatabase.Database.ClaimForOcr | apps/worker/src/ocr/ocr.repository.ts:38-66 | the OCR claim is the claim transaction |
| WorkerDatabase.Database.InsertPages | apps/worker/src/ocr/ocr.repository.ts:160-168 | the loop stores the texts under one result, numbered from 1 |
| WorkerDatabase.Database.MarkCompleted | apps/worker/src/ocr/ocr.repository.ts:68-84 | state, result, pages and event together, only while the claim is ours |
| WorkerDatabase.Database.MarkOcrFailed | apps/worker/src/ocr/ocr.repository.ts:86-94 | state, result and event together, only while the claim is ours |
| WorkerDatabase.Database.MarkExcluded | apps/worker/src/ocr/ocr.repository.ts:96-103 | the exclusion is fenced by the token and writes nothing else |
| WorkerDatabase.Database.ReleaseForRetry | apps/worker/src/ocr/ocr.repository.ts:105-122 | PENDING and its delayed job together, only while the claim is ours |
| WorkerDatabase.Database.SweepAbandonedOcr | apps/worker/src/ocr/ocr-queue.ts:63-106 | the loop over abandoned claims, with the ids sent back and given up |
| WorkerDatabase.Database.ReprocessDocumentOcr | apps/worker/src/ocr/ocr-queue.ts:115-144 | a CLEAN document with a FAILED OCR gets a new round, a job and an event |
| WorkerDatabase.Database.ActivateOcr | apps/worker/src/ocr/ocr-activation.ts:18-32 | the bulk updates with their counts; the check after them never fails |
| WorkerDatabase.Database.CountViolations | apps/worker/src/ocr/ocr-activation.ts:42-47 | the count is zero exactly when no CLEAN document is NOT_STARTED |
| ScanHandler.ScanDocument | apps/worker/src/scan/scan-document.ts:40-67 | the whole handler, with its try block and catch, is a run of the machine under any interleaving; "clean" and "infected" are the document's status, "skipped" and "lost" mean that the last transaction wrote nothing, and "failed" that on its last attempt the handler set SCAN_FAILED if and only if its claim was still the row's at that moment |
| ScanHandler.StoreSanitizedCopy | apps/worker/src/scan/scan-document.ts:93-109 | none for a PDF, the stripped copy under its key for an image, an error if it is refused or not stored |
| ScanHandler.Treat | apps/worker/src/scan/scan-document.ts:47-58 | the try block: which outcome, and that every failure leads to the catch block |
| ScanHandler.AfterFailure | apps/worker/src/scan/scan-document.ts:59-66 | the catch block: "failed" only on the last attempt, the document SCAN_FAILED by it if and only if the claim was still the row's when it asked; released and rethrown otherwise |
| TreatmentOvertaken.FailedWhileScanning | apps/worker/src/scan/scan-document.ts:59-66 | for every document and any limits, a run with a handler overtaken on its last attempt that ends as one answering "failed" does while the document is SCANNING |
| OcrHandler.OcrDocument | apps/worker/src/ocr/ocr-document.ts:54-133 | the whole handler is a run of the machine; every outcome but "skipped" and "lost" is the document's OCR state |
| OcrHandler.ReadRepresentation | apps/worker/src/ocr/ocr-document.ts:135-156 | missing, unavailable and mismatched objects as classified, or the content |
| OcrHandler.RecognizedPages | apps/worker/src/ocr/ocr-document.ts:162-193 | malformed, empty, unstorable and too many pages as classified, or the normalized pages |
| OcrHandler.AfterError | apps/worker/src/ocr/ocr-document.ts:87-115 | a permanent error or the last attempt ends FAILED, any other a delayed retry |
| ProgressiveDelay.SpanAtLeast | apps/api/src/modules/auth/auth.email-settings.ts:33-42 | n events of a log the rule let through within one window span at least the delays served |
| ProgressiveDelay.EventsInWindowExactly | apps/api/src/modules/auth/auth.email-settings.ts:33-42 | n events fit in one window if and only if the sum of their delays is less than the window |
| ProgressiveDelay.ApprovedBound | apps/api/src/modules/auth/auth.email-settings.ts:22-27 | with the approved values, exactly free + 99 events fit in 24 hours |
| ProgressiveDelay.DailyBounds | apps/api/src/modules/auth/auth.service.ts:131-144 | 104 failed logins of an account in 24 hours, 102 verification emails or reset requests |
| AttemptLimiter.Limiter.Recent | apps/api/src/modules/auth/auth.repository.fake.ts:366-378 | the loop over the audit log counts the key's events in the window and finds the latest |
| AttemptLimiter.Limiter.Attempt | apps/api/src/modules/auth/auth.service.ts:227-266 | refused with its retry time exactly while the delay lasts; only a counted event enters the key's log, which stays one the rule allows |
| AttemptLimiter.RetryAfterIsEnough | apps/api/src/modules/auth/auth.service.ts:236-239 | whoever waits what the answer says is let through, and nobody sooner while no event leaves the window |
| Sessions.SessionStore.LoadValidSession | apps/api/src/modules/auth/auth.session.ts:84-113 | refused exactly when not valid; otherwise slid forward by the window it had |
| Sessions.SessionStore.RotateSession | apps/api/src/modules/auth/auth.repository.ts:334-362 | the mark, the cleanup loop and the successor together, only for a session not revoked nor rotated |
| Sessions.SessionStore.RotateSessionForUser | apps/api/src/modules/auth/auth.session.ts:119-168 | a new session exactly when it is due and nobody rotated it meanwhile, with the same absolute expiry |
| Sessions.SessionStore.RevokeOwnSession | apps/api/src/modules/auth/auth.repository.ts:309-332 | revokes exactly the user's own session that is neither revoked nor expired |
| Sessions.SessionStore.RevokeAllOwnSessions | apps/api/src/modules/auth/auth.repository.ts:364-377 | the loop revokes every session of the user not yet revoked, counts them, and touches no other |
| Sessions.SessionStore.CreateSessionForUser | apps/api/src/modules/auth/auth.session.ts:50-74 | a new session with its role's durations, valid from its creation |
| SessionMachine.SlideRefinesRole | apps/api/src/modules/auth/auth.session.ts:106-110 | the role-free slide of a stale read equals the role-aware one |
| SessionTheorems.SlidingRefinesRole | apps/api/src/modules/auth/auth.session.ts:76-113 | in every reachable state idleExpiresAt = min(lastSeenAt + idleMs(role), absoluteExpiresAt) |
| SessionTheorems.ChainExpiresTogether | apps/api/src/modules/auth/auth.session.ts:127-168 | all sessions of a rotation chain are one user's and share the absolute expiry |
| SessionTheorems.AtMostOneSuccessor | apps/api/src/modules/auth/auth.repository.ts:342-351 | a session has at most one successor, under concurrent rotations |
| SessionTheorems.AtMostTwoValid | apps/api/src/modules/auth/auth.session.ts:95-101 | at most two sessions of a chain are valid at any instant |
| SessionTheorems.CleanupIsInvisible | apps/api/src/modules/auth/auth.repository.ts:352-359 | the cleanup of a rotation changes no other session's validity, now or later |
| SessionTheorems.RotationsBounded | apps/api/src/modules/auth/auth.session.ts:15-38 | a chain has at most lifetime / interval rotations, and fewer while each is stamped before the lifetime ends |
| SessionTheorems.UserRotations | apps/api/src/modules/auth/auth.session.ts:15-38 | a USER chain has at most 720 rotations, and the 720th session is never valid |
| SessionTheorems.RotationIsUsableExactly | apps/api/src/modules/auth/auth.session.ts:133-168 | a rotation gives a usable session exactly when it is stamped before the absolute expiry |
| SessionTheorems.OneRotationTooMany | apps/api/src/modules/auth/auth.session.ts:84-168 | a run in which a USER chain has 720 rotations |
| SessionEndings.NeverValidAgain | apps/api/src/modules/auth/auth.repository.ts:364-377 | after logging out everywhere or a reset, in every continuation with stale slides and rotations in flight, no session of a chain of the user's that had begun is ever valid |
| SessionEndings.OldPasswordEndsExactly | apps/api/src/modules/auth/auth.service.ts:227-305 | after a reset no session given for an earlier password is ever valid, in any continuation, if and only if no login of the user's was between checking the password and inserting a session that could be used |
| SessionEndings.OldPasswordEnters | apps/api/src/modules/auth/auth.service.ts:227-305 | a run in which the old password opens a valid session after the reset |
| RateLimiter.FixedWindowRateLimiter.Consume | apps/api/src/security/rate-limiter.ts:29-41 | the in-place limiter answers and moves as its specification |
| RateLimiter.FixedWindowRateLimiter.SweepExpired | apps/api/src/security/rate-limiter.ts:48-54 | the loop drops exactly the expired buckets, at most once per window |
| RateLimiter.SweepIsInvisible | apps/api/src/security/rate-limiter.ts:29-54 | for every sequence of calls in time order, the answers are those of a map never swept |
| RateLimiter.AtMostTwiceLessOne | apps/api/src/security/rate-limiter.ts:29-41 | any interval as long as the window admits at most 2 * max - 1 calls of a key |
| RateLimiter.TwiceLessOneIsAdmitted | apps/api/src/security/rate-limiter.ts:29-41 | and that many can be admitted |
| RateLimiter.TrackedIsRecent | apps/api/src/security/rate-limiter.ts:43-54 | every tracked bucket was opened less than two windows ago |
| ClamAv.WriteStream | apps/worker/src/antivirus/clamav.ts:80-91 | the chunk loop writes exactly the command, the frames of the content and the zero length |
| ClamAv.ChunksOfContent | apps/worker/src/antivirus/clamav.ts:82-88 | no chunk is empty, none is over 64 KiB, and together they are the content |
| ClamAv.StreamRoundTrip | apps/worker/src/antivirus/clamav.ts:80-91 | what is written decodes to the content, whatever follows it |
| ClamReply.CleanReplyExactly | apps/worker/src/antivirus/clamav.ts:23-25 | only "stream: OK", with its NUL or without, is clean |
| ClamReply.InfectedReplyExactly | apps/worker/src/antivirus/clamav.ts:26-28 | only "stream: <name> FOUND" with a plausible name is infected, with that name |
| ClamReply.Scan.Handle | apps/worker/src/antivirus/clamav.ts:35-92 | for any events in any order the promise settles at most once, with what the first settling event decides |
| ClamReply.CleanExactly | apps/worker/src/antivirus/clamav.ts:56-79 | a scan is clean exactly when only reply bytes came before the end and they were the clean line |
| ClamReply.InfectedExactly | apps/worker/src/antivirus/clamav.ts:56-79 | and infected exactly when they were a found line |
| UploadTheorems.QuotaHolds | apps/api/src/modules/documents/documents.repository.ts:24-68 | whatever uploads run at once, a user's files never exceed 100 MiB |
| UploadTheorems.ObjectsAreExplained | apps/api/src/modules/documents/documents.service.ts:199-213 | in every reachable state, an object without a row belongs to an upload in flight, a logged failed removal, or a process that died |
| UploadTheorems.ObjectsAreTidy | apps/api/src/modules/documents/documents.service.ts:199-213 | after every run in which no process dies, an object without a row belongs to an upload in flight or a logged failed removal |
| UploadTheorems.OrphanedExactly | apps/api/src/modules/documents/documents.service.ts:162-213 | a step leaves an object with no row, no upload and no log if and only if it is the death of a process that has stored its object, written no row and logged nothing |
| UploadTheorems.OrphanedByCrash | apps/api/src/modules/documents/documents.service.ts:162-213 | for every acceptable file, a run that leaves its object so |
| UploadTheorems.AcceptedIsKept | apps/api/src/modules/documents/documents.service.ts:162-197 | an upload answered with its document has its row and its object, and keeps them |
| UploadTheorems.RowLosesObjectExactly | apps/api/src/modules/documents/documents.service.ts:186-189 | a step leaves every row its object if and only if it is not the removal of a row's object by the upload that wrote it |
| UploadTheorems.RowWithoutObject | apps/api/src/modules/documents/documents.service.ts:186-189 | a row without its object was written by a call that threw |
| UploadTheorems.RowsKeepTheirObjects | apps/api/src/modules/documents/documents.service.ts:162-197 | after every run in which no createDocument writes its row and then throws, every row has its object and was answered for |
| UploadTheorems.AnyWrittenAndThrownIsLost | apps/api/src/modules/documents/documents.service.ts:186-189 | whenever one does, the next call of its upload removes the row's object if it takes effect |
| UploadTheorems.CommittedButThrown | apps/api/src/modules/documents/documents.service.ts:162-189 | for every acceptable file, a run that leaves its row without its object |
| UploadHandler.DocumentsRepository.CreateDocument | apps/api/src/modules/documents/documents.repository.ts:24-68 | the row is written exactly for a writable case within the quota |
| UploadHandler.DocumentsRepository.UsedBytes | apps/api/src/modules/documents/documents.repository.ts:70-76 | the sum of the user's file sizes |
| UploadHandler.UploadDocument | apps/api/src/modules/documents/documents.service.ts:140-197 | an upload under any interleaving; it answers with a document exactly when it ends accepted, and otherwise with what refused it |
| UploadHandler.RemoveOrphan | apps/api/src/modules/documents/documents.service.ts:204-213 | what could not be removed is logged |
| UploadHandler.CheckFile | apps/api/src/modules/documents/documents.service.ts:122-139 | which refusal: an empty file first, then one that is too large, then one that starts with no accepted signature |
| Tokens.TokenStore.ReplaceVerificationToken | apps/api/src/modules/notifications/outbox.repository.fake.ts:18-30 | the user's unused tokens are used up and the new one added |
| Tokens.TokenStore.ReplaceResetToken | apps/api/src/modules/notifications/outbox.repository.ts:55-61 | the same for password resets |
| Tokens.TokenStore.ConsumeVerificationToken | apps/api/src/modules/auth/auth.repository.fake.ts:51-66 | the first usable token of the hash is used, or nothing changes |
| Tokens.TokenStore.ResetPassword | apps/api/src/modules/auth/auth.repository.fake.ts:184-208 | the token, the other tokens, the password and the sessions together, or nothing |
| Tokens.SingleUse | apps/api/src/modules/auth/auth.repository.ts:123-145 | in every reachable state a user has at most one unused token, and each was used at most once |
| Tokens.SessionsRun | apps/api/src/modules/auth/auth.repository.ts:229-261 | seen from the sessions, every run of tokens and sessions is a run of the session machine, a completed reset being its Reset |
| Tokens.ResetEndsEverything | apps/api/src/modules/auth/auth.repository.ts:229-261 | after a completed reset, in every continuation: every token the user had is used for good, and no session of a chain that had begun is ever valid, at any instant |
| Tokens.UsedStaysUsed | apps/api/src/modules/auth/auth.repository.ts:235-241 | a used token changes nothing any more, in any continuation |
| Outbox.FakeOutbox.Enqueue | apps/api/src/modules/notifications/outbox.repository.fake.ts:47-57 | a new entry, pending, after the others |
| Outbox.FakeOutbox.Oldest | apps/api/src/modules/notifications/outbox.repository.fake.ts:63-65 | the first pending entry not excluded, by creation and id |
| Outbox.FakeOutbox.DispatchNext | apps/api/src/modules/notifications/outbox.repository.fake.ts:59-90 | an entry is marked sent, and its token changes kept, only if everything about it went well |
| Outbox.FakeOutbox.DispatchPendingEmails | apps/api/src/modules/notifications/dispatch.ts:19-44 | the run ends within its limit, tries the oldest first and none twice, and marks sent exactly those that went out |

## Left out

- The running flag of `startPeriodicSweep`: sweeps are safe whenever they run, several at once included.
- pg-boss's retry limits, expiry and dead letters, and its `startAfter` precision: a job is delivered any number of times once it is due.
- Anomalies between concurrent PostgreSQL transactions, advisory locks, constraints, roles, privileges and triggers.
- The values inside audit events and OCR results other than action, document, outcome, pages, attempts and time (engine, version, SHA-256, IP, user agent).
- What Unicode NFC does to a text: it is a parameter of `OcrText.NormalizeOcrText`, and the pages a provider answers with are in NFC in the rest of the model.
- The mapping of exceptions to HTTP answers, cookies, CSRF tokens, Origin checks, request schemas, environment loading and logging formats: one-branch plumbing.
- The access policies and the case status table: without loops or state.
- Argon2, opaque token generation, and the timing of answers.
- The notice email and the audit event of a completed password reset, and the audit events of sessions.
- The provider's and P7's checks at start-up, which read two configuration values.
- A write to object storage that lands after the call that made it has thrown and the object has been removed.
- Other dispatchers of the outbox at the same time: SKIP LOCKED gives each entry to one of them.
- The decoding of clamd's reply as UTF-8: it is compared as bytes, and only ASCII is accepted.
- The order of several requests' own instants on different application servers: sessions are modelled on one clock.
- The case and its status: whether a case is still writable is an input of each upload.
- The web application, the evaluation tools and the labels.
