# Verification of the document intake service

The service receives documents over WhatsApp, stores them durably, lets a
background worker read and file them under clients, and lets admins review what
the worker would not decide. These Dafny modules model its decisions, its
protocols and its self-contained algorithms, and prove what they promise, for
all inputs and all runs.

| module | what it models |
|---|---|
| `Lease` | one submission's lease: claim, renew (also in a transaction that is rolled back), release, try again later, give up, finish, admin retry, over a clock that never goes back; stale attempts keep running |
| `Attempts` | what the lease conserves: how attempts are counted, and how many of them enter the pipeline |
| `Handover` | who may write, an undisturbed attempt, and when the next attempt can follow |
| `SubmissionQueue` | the worker's code around the lease: finding and claiming by compare-and-swap, the claim object, processing one submission, draining the queue, shutdown |
| `Stores`, `Worker` | many submissions, the documents table and the object store together, with crashes, lost leases, copies that land late, and the admins' store and remove actions |
| `Filing` | what the steps of `Worker` come to: checksum outcomes, an undisturbed attempt, one that is resumed, and the effect of each step |
| `CopyLoop`, `Naming` | copying under a free name, reuse of an interrupted attempt's copy, candidate names |
| `Review` | the admins' review actions and corrections, many at once, with row locks and re-checks; completeness of a client |
| `ReviewEffects` | when each review action goes through and all it changes; locks, conservation, the truth of the log |
| `Pipeline` | type, confidence band, identity, passport acceptance, status, placement and review reason of one document |
| `Outcomes` | the same decisions in terms of the inputs, each in both directions |
| `Webhook`, `MessageCache` | acknowledgement of deliveries, and the expiring message-ID cache it uses |
| `Answers` | which answer a delivery gets, in both directions, and a delivery that nobody disturbs |
| `Limiter` | the limit on concurrent jobs |
| `Mrz`, `EditDistance`, `Calendar`, `Sorting`, `Paging` | check digits and parsing of a TD3 machine-readable zone (ICAO Doc 9303 Part 3 section 4.9, Part 4 section 4.2.2), edit distance, calendar arithmetic and the police countdown, the paged review queue |

What the code updates in place is a class here (`SubmissionQueue.Table`,
`SubmissionQueue.Claim`, `CopyLoop.Bucket`, `Limiter.ConcurrencyLimiter`,
`MessageCache.MessageIdCache`, `Calendar.UtcDate`, the row array of
`EditDistance`); each method is proved against a function of the state, and the
theorems are about that function. Interleaving protocols are transition systems:
`Apply` is one step, `Exec` a run, `None` a step that is not possible.

Results where the code falls short of what its comments say, each with the exact
condition:

- A renewal inside a transaction moves the attempt's own lease start before the
  transaction ends. When the transaction fails, the row has the old one again, and
  the attempt has lost its claim, unless the clock still shows the time of its last
  renewal (`SubmissionQueue.Claim.RenewRolledBack`). So "if the database write
  fails, the copy is removed again" holds only in that case
  (`Worker.CleanUpFollowsIff`); otherwise the copy stays, no duplicate or failure
  is recorded, and the row waits for its lease to run out
  (`Worker.FailedInsertKeepsItsCopy`).
- "Every write is conditional on its claim" keeps stale attempts out under three
  conditions, and each is needed: released attempts are gone soon (the lease is at
  most twice the retry delay, or they are gone within the retry delay); rolled back
  attempts are over soon (the lease is at most the retry delay, or they are over
  within the lease less the retry delay); and no claim falls into the millisecond
  of a rolled back renewal. Otherwise the row can come back to a stale attempt's
  number and lease start. The three together are exact for the fencing
  (`Lease.FencedIff`), for counting attempts (`Attempts.CountedIff`) and for the
  agreement of the two stores (`Worker.ConsistentIff`); the first and the last are
  exact for storing a submission once (`Worker.ExactlyOnceIff`), as rolled back
  attempts store nothing any more. As shipped, src/shutdown.js exits within 8
  seconds of the signal, and the retry delay is one minute: with claims apart from
  rolled back renewals, storing once holds, and the rest exactly if an attempt is
  over within 9 minutes of a failed transaction
  (`Lease.DefaultsAsShipped`, `Worker.DefaultsAsShipped`). Transactions are limited
  to 30 seconds; the one statement that follows a failed one has no limit.
- "Attempts are bounded" holds for all settings, however long stale attempts run
  on, if no claim gets the time stamp of a running attempt, and for no settings
  without that condition (`Attempts.BoundedIff`).
- An insert that was committed although it reported an error costs a received file:
  the upload is removed, and the redelivery is acknowledged because the row exists
  (`Webhook.AcknowledgedFileCanBeLost`). No other recorded file goes missing
  (`Webhook.RecordedFilesExistIff`).
- A delivery waits for another one's handler only while that handler is in the map of
  running ones. An earlier delivery whose handler failed takes the entry of the next
  one out; then a third answers 500 at once instead of waiting (`Answers.GivesUpOnly`).
- An approval works the police date out before it locks the row. When the type is
  corrected to police slip in between, a VERIFIED slip has no date
  (`Review.CommitKeepsSlipsDatedIff`); when it is corrected from police slip to
  another type, that document gets one (`Review.CommitKeepsOnlySlipsDatedIff`).
- The worker checks for a VERIFIED document of the type outside the transaction
  that inserts; an unchecked insert breaks the one-verified rule exactly when
  there is one (`Review.UncheckedInsertIff`).
- A waiting file has no review reason exactly when nothing holds it back but its
  confirmed sender's empty passport ID (`Pipeline.PendingHasReasonIff`).
- The dates of the years 1 to 99 are refused as business days, because Date.UTC
  takes them for 1901 to 1999 (`Calendar.SurvivingPartsAreReal`).
- The personal number's check digit is a digit-only position that is not
  corrected: a lookalike there spoils a valid composite check, except L and G
  (`Mrz.PersonalCheckMisread`).
- The admitted pages show the whole review queue exactly when it fits into the
  full pages inside the window (`Paging.AllPagesAdmittedIff`).

## Model

| member | source | states |
|---|---|---|
| `Lease.PlainOwnerIsLatest` | src/services/submissionQueue.js:98-141 | while released attempts are safe: an attempt whose conditional write matches, and of which no transaction was rolled back, is the latest claim and was not released |
| `Lease.OnlyLatestOwns` | src/services/submissionQueue.js:98-141 | while rolled back attempts are safe as well, any attempt whose conditional write matches is the latest claim and was not released |
| `Lease.StepKeepsInv` | src/services/submissionQueue.js:74-141 | every protocol step keeps, also while rolled back attempts own the row: an older claim's attempt was overtaken later than its last renewal plus the lease, or its number stays out of reach for the delay after its release |
| `Lease.StepKeepsQuiet` | src/services/submissionQueue.js:118-126 | every step keeps, while rolled back attempts are safe: none of them owns the row but the latest, and that one only if its lease start did not change |
| `Lease.SafeRunIsFenced` | src/services/submissionQueue.js:21-27 | in every run in which releases are safe, of any number of stale attempts none writes of which no transaction was rolled back; if those are safe too, none at all |
| `Lease.LimitsAreSafe` | src/services/submissionQueue.js:269-292 | attempts that end within limits that suit the settings never make a state unsafe |
| `Lease.LostForGood` | src/services/clientDocumentService.js:169-173 | in such a run an attempt that lost its claim by a rolled back renewal never gets it back |
| `Lease.FencedIff` | src/services/submissionQueue.js:18-29 | main theorem: over all runs within limits on released and rolled back attempts, every matching write is the latest unreleased claim's if and only if the settings suit the limits and no claim falls into the millisecond of a rolled back renewal |
| `Lease.PlainFencedIff` | src/services/submissionQueue.js:127-139 | main theorem: for the attempts that may still store something, if and only if they suit the limit on releases and claims are apart from rolled back renewals, however long rolled back attempts run on |
| `Lease.FencedMeansOneOwner` | src/services/submissionQueue.js:9-11 | where the fencing holds, at most one attempt's writes match the row |
| `Lease.Revival` | src/services/submissionQueue.js:130-139 | under settings that do not suit the limit on releases, a run within it after which a released attempt's key is the row's again |
| `Lease.OrphanRevived` | src/services/submissionQueue.js:180-185 | the same for a rolled back renewal, without any release |
| `Lease.TwoOwners` | src/services/submissionQueue.js:84-92 | with a claim in the millisecond of a rolled back renewal, a run after which an overtaken attempt owns the row of which nothing was rolled back |
| `Lease.NoSettingsFenceAllRuns` | src/services/submissionQueue.js:45-52 | over all runs whatever, no settings fence |
| `Lease.DefaultsAsShipped` | src/shutdown.js:15-17 | with the default settings and the shutdown deadline, all runs are fenced if and only if attempts are over within 9 minutes of a rolled back renewal; without the deadline not |
| `Attempts.ClaimsMinusReleases` | src/services/submissionQueue.js:84-139 | in all runs, claims minus releases since the last reset is the row's attempt count |
| `Attempts.SafeRunIsCounted` | src/services/submissionQueue.js:84-93 | in every safe run the unreleased claims are as many as the attempt count, have distinct numbers, and at most maxAttempts of them enter the pipeline |
| `Attempts.CountedIff` | src/services/submissionQueue.js:12-13 | main theorem: that holds in all runs within the limits if and only if the settings suit all of them |
| `Attempts.StepKeepsBound` | src/services/submissionQueue.js:84-186 | every step keeps the number of a claim that was neither released nor put back to that claim alone, for any settings |
| `Attempts.AttemptsAreBounded` | src/services/submissionQueue.js:12-13 | main theorem: for any settings, however long stale attempts run on, at most maxAttempts unreleased claims enter the pipeline, unless a claim gets the time stamp of a running attempt |
| `Attempts.SameMillisecondBreaksTheBound` | src/services/submissionQueue.js:84-92 | for any settings, a run with equal stamps in which maxAttempts + 1 claims enter |
| `Attempts.BoundedIff` | src/services/submissionQueue.js:12-13 | so the bound holds in all runs for all settings with fresh stamps, and for none without |
| `Attempts.StepKeepsLedger` | src/services/submissionQueue.js:84-139 | every step of a safe run keeps the unreleased claims numbered 1 to the attempt count, although a release hands its number on |
| `Handover.OwnersWrite` | src/services/submissionQueue.js:98-141 | each write of an attempt is possible if and only if it owns the row and the step is one of its own (try later before the pipeline, a rolled back transaction inside it, entering within maxAttempts); a claim if and only if the row waits |
| `Handover.UndisturbedAttempt` | src/services/submissionQueue.js:98-126 | main theorem: an attempt nobody disturbs keeps its row through any number of renewals, whatever the lease time, and writes its result under the next attempt number |
| `Handover.NextAttempt` | src/services/submissionQueue.js:127-139 | main theorem: after a crash, a release or a later try, the row can be claimed exactly from the end of the lease or of the retry delay on, and the next number counts the attempt unless it was released |
| `Handover.RetriedStartsAfresh` | src/services/adminReviewActionService.js:930-992 | a failed submission that is retried is claimable at once, as attempt 1 |
| `SubmissionQueue.Table.FindFirst` | src/services/submissionQueue.js:77-82 | finds the oldest waiting submission, ties by ID, or none is waiting |
| `SubmissionQueue.Table.UpdateMany` | src/services/submissionQueue.js:84-92 | writes the row and counts 1 exactly when status, attempts and lease start are still the given ones |
| `SubmissionQueue.Table.ClaimNext` | src/services/submissionQueue.js:74-96 | under any writes of others between its reads and updates: the claim of the first won race, or nothing waiting, or five lost races |
| `SubmissionQueue.ClaimIsAtomic` | src/services/submissionQueue.js:83-93 | a won race is one atomic claim: at the update the row was claimable, and only its attempts and lease start changed |
| `SubmissionQueue.NextMeaning` | src/services/submissionQueue.js:77-82 | one submission is next whenever any waits: received longest ago, and among those the one with the smallest ID |
| `SubmissionQueue.SecondUpdateMisses` | src/services/submissionQueue.js:19-20 | of two workers that read the same candidate, the second update misses and the first owns the row |
| `SubmissionQueue.QuietClaimTakesTheOldest` | src/services/submissionQueue.js:72-73 | undisturbed, the one oldest waiting submission is claimed, and null is returned exactly when none waits |
| `SubmissionQueue.Claim.Holds` | src/services/submissionQueue.js:106-111 | where() matches exactly when the attempt owns its row |
| `SubmissionQueue.Claim.constructor` | src/services/submissionQueue.js:104-117 | a claim starts with the row's attempt number, lease start and earlier placement path |
| `SubmissionQueue.Claim.Renew` | src/services/submissionQueue.js:118-126 | a committed renewal: only an owner gets a fresh lease (and its recorded path), and owns the row afterwards; otherwise nothing changes |
| `SubmissionQueue.Claim.RenewRolledBack` | src/services/clientDocumentService.js:161-173 | a renewal whose transaction is rolled back: the row is as before, and the claim is kept if and only if the clock shows the time of the last renewal |
| `SubmissionQueue.Claim.Release` | src/services/submissionQueue.js:130-139 | only an owner hands the row back, the attempt not counted |
| `SubmissionQueue.Claim.RetryLater` | src/services/submissionQueue.js:180-185 | only an owner puts the lease start back, counted from its claim |
| `SubmissionQueue.Claim.Finish` | src/services/temporaryDataService.js:69-84 | the final update is written only while the attempt owns the row |
| `SubmissionQueue.GiveUp` | src/services/submissionQueue.js:145-155 | FAILED is recorded for an owner; a stale attempt is discarded |
| `SubmissionQueue.ProcessClaimed` | src/services/submissionQueue.js:162-210 | the method computes the table and outcome that the processing function gives |
| `SubmissionQueue.StaleAttemptWritesNothing` | src/services/submissionQueue.js:26-27 | an attempt that lost its row changes nothing, whatever download and pipeline do |
| `SubmissionQueue.OwnedAttemptOutcome` | src/services/submissionQueue.js:157-210 | an owner's submission is given up exactly past maxAttempts, on a mismatch, or unreadable at the last attempt; it is discarded exactly after a transaction rolled back at a later time, and keeps its last committed lease start then; tried again later it is claimable from retryDelayMs after the claim; other rows stay |
| `SubmissionQueue.ReleasedIsClaimableSoon` | src/services/submissionQueue.js:127-129 | a released row is claimable retryDelayMs later, under the same attempt number |
| `SubmissionQueue.AttemptSpendsBudget` | src/services/submissionQueue.js:12-13 | every claim brings a row closer to leaving the queue |
| `SubmissionQueue.Drain` | src/services/submissionQueue.js:215-229 | an undisturbed drain takes the oldest waiting submission each time and processes it as specified; it never goes on after a storage outage or when asked to stop, ends for one of these reasons or with nothing left to claim, and within the queue's attempt budget |
| `SubmissionQueue.ReleaseAll` | src/services/submissionQueue.js:285-292 | the shutdown loop releases every active claim in turn |
| `SubmissionQueue.StopHandsBack` | src/services/submissionQueue.js:269-272 | after a shutdown each active claim that still owned its row has handed it back; all other rows are as they were |
| `SubmissionQueue.WrittenMeaning` | src/services/submissionQueue.js:118-126 | a conditional write changes one row's key, and its placement path exactly when one is given; every other row and column stays |
| `SubmissionQueue.PipelineRecordsLastPath` | src/services/submissionQueue.js:116-125 | the path the next attempt finds is that of the last committed renewal with a path that the owner made, and the earlier one when there was none |
| `CopyLoop.FirstUsable` | src/services/permanentStorageService.js:25-33 | the first candidate that is free or may be reused; none exactly when every name is taken by something else |
| `CopyLoop.Bucket.Copy` | src/services/permanentStorageService.js:11-16 | a copy never overwrites: an existing key is a collision |
| `CopyLoop.Bucket.CopyToFreeName` | src/services/permanentStorageService.js:34-67 | the loop's result and store are the outcome function's, with failing checks, lost claims, failing copies and names taken meanwhile |
| `CopyLoop.ObjectsOnlyGrow` | src/services/permanentStorageService.js:1-3 | no object is changed or removed, and what is added has a candidate name |
| `CopyLoop.ResultIsTheFile` | src/services/permanentStorageService.js:42-66 | the returned path holds this file's bytes; giving up means every candidate is taken |
| `CopyLoop.OutcomeMeaning` | src/services/permanentStorageService.js:42-67 | main theorem: the loop stops at the first candidate that is not passed over, and each result, a copy, a reuse, a failing check, a lost claim, a failing copy and no free name, is returned if and only if the event there is that one; the store gains the file under that name only when it was copied, and otherwise only what others put there |
| `CopyLoop.QuietIsFirstUsable` | src/services/permanentStorageService.js:25-33 | undisturbed, the first usable candidate is returned, and the loop fails only when there is none |
| `CopyLoop.RerunReusesTheCopy` | src/services/placementRecovery.js:3-14 | main theorem: re-run after an interrupted attempt whose copy call succeeded, or failed and took effect late, the loop returns that object and creates none, whatever was stored meanwhile |
| `CopyLoop.LateCopyIsReused` | src/services/permanentStorageService.js:51-61 | the same when the late object lands only during the re-run, between its check and its copy call |
| `CopyLoop.StandardCandidatesDistinct` | src/services/clientDocumentService.js:122-134 | the standard names tried from any first version on are pairwise distinct |
| `CopyLoop.KeptCandidatesDistinct` | src/services/clientDocumentService.js:115-121 | the suffixed names tried for a kept name are pairwise distinct |
| `Naming.DecimalRoundTrip` | src/utils/storageNaming.js:69-72 | the number in a name is read back, and has digits only and no leading zero |
| `Naming.StandardNamesDistinct` | src/utils/storageNaming.js:61-73 | no two versions share a standard name |
| `Naming.SuffixedNamesDistinct` | src/utils/storageNaming.js:110-118 | no two attempts share a suffixed name |
| `Worker.OwnerIsHolder` | src/services/submissionQueue.js:98-126 | in safe states, among all attempts on a submission only the latest unreleased one writes |
| `Worker.ChoiceIsFreeOrOwn` | src/services/placementRecovery.js:17-37 | the chosen name is free, or holds this submission's own bytes, recorded by it and referred to by nothing else |
| `Worker.NewMeansUnstored` | src/services/documentChecksumService.js:25-60 | a check that answers NEW, for whatever client was identified, means no document of this submission by the worker exists: a resumed attempt sees ALREADY_STORED or CROSS_CLIENT_CONFLICT |
| `Worker.CheckKeepsInv` | src/services/documentChecksumService.js:20-61 | a checksum check tells the truth: NEW means the worker has not stored this submission |
| `Worker.CopyKeepsInv` | src/services/placementRecovery.js:41-47 | a copy made right after the renewal keeps the two stores consistent |
| `Worker.ReuseKeepsInv` | src/services/placementRecovery.js:8-14 | taking over an interrupted attempt's copy keeps the two stores consistent |
| `Worker.CopyTimesOutKeepsInv` | src/services/submissionQueue.js:23-25 | a copy whose call failed, and may still land, keeps the two stores consistent |
| `Worker.InsertKeepsInv` | src/services/clientDocumentService.js:138-167 | the insert with its renewal, or the rollback on a duplicate, keeps every invariant: no path loses its object, no submission gets a second document |
| `Worker.InsertFailsKeepsInv` | src/services/clientDocumentService.js:161-168 | a failed insert leaves row, copy and documents as they were, and keeps every invariant |
| `Worker.CleanUpKeepsInv` | src/services/clientDocumentService.js:169-187 | the clean-up after it, with the claim renewed, removes only a copy that no record refers to |
| `Worker.CleanUpFollowsIff` | src/services/clientDocumentService.js:79-83 | a failed insert can be followed by its clean-up if and only if the clock shows the time of the attempt's last renewal |
| `Worker.FailedInsertIsAdrift` | src/services/clientDocumentService.js:161-173 | a failed insert at any other time loses the claim and keeps every invariant |
| `Worker.FailedInsertKeepsItsCopy` | src/services/clientDocumentService.js:86-88 | main theorem: otherwise the attempt never removes its copy, in any safe run while the submission exists |
| `Worker.FinishPendingKeepsInv` | src/services/documentProcessingService.js:344-356 | the final update that records a pending copy keeps the two stores consistent |
| `Worker.StorePendingKeepsInv` | src/services/adminReviewActionService.js:361-457 | approving, replacing or keeping as a version moves a waiting file without a dangling or shared path |
| `Worker.RemovePendingKeepsInv` | src/services/adminReviewActionService.js:994-1039 | removing a waiting file deletes no object that another record needs |
| `Worker.RemoveDocumentKeepsInv` | src/services/adminReviewActionService.js:1041-1085 | removing a stored document deletes its file only when nothing else refers to it |
| `Worker.StepKeepsOnce` | src/services/submissionQueue.js:14-17 | every step keeps, wherever the objects are and even while rolled back attempts own rows: the holder's NEW is true and each submission is stored once |
| `Worker.SafeRunStoresOnce` | src/services/submissionQueue.js:14-17 | main theorem: in every run in which releases are safe, over crashes, lost leases, retries, late copies, rolled back transactions and admin actions, the worker never has two documents for one submission |
| `Worker.SafeRunIsConsistent` | src/services/submissionQueue.js:18-30 | main theorem: when rolled back attempts are safe as well, every recorded path names an existing object with the recorded checksum, and no two records share one |
| `Worker.ObjectsAreNeverOverwritten` | src/services/permanentStorageService.js:1-3 | no step changes an object's bytes, and only removals and clean-ups take one away |
| `Worker.StoredTwice` | src/services/submissionQueue.js:130-139 | under settings that do not suit the limit on releases, a run within it that stores one submission for two clients |
| `Worker.StoredTwiceInOneMillisecond` | src/services/submissionQueue.js:84-92 | the same with a claim in the millisecond of a rolled back renewal, for any settings |
| `Worker.DanglingAfterRelease` | src/services/adminReviewActionService.js:1041-1085 | a run within the limit on releases after which a document's path names no object: it was removed with a document of another attempt |
| `Worker.DanglingAfterRollback` | src/services/clientDocumentService.js:169-176 | a run within the limit on rolled back attempts after which it was removed by a late clean-up |
| `Worker.DanglingInOneMillisecond` | src/services/clientDocumentService.js:169-176 | a run in which two attempts of one key clean up and store the same copy |
| `Worker.ExactlyOnceIff` | src/services/submissionQueue.js:14-17 | main theorem: over all runs within the limits, each submission is stored at most once by the worker if and only if the settings suit the limit on releases and claims are apart from rolled back renewals |
| `Worker.ConsistentIff` | src/services/submissionQueue.js:18-29 | main theorem: over all runs within the limits, the documents table and the object store agree if and only if the settings suit all of them |
| `Worker.DefaultsAsShipped` | src/shutdown.js:3-14 | with the default settings and the shutdown deadline each submission is stored once, and the two stores agree if and only if attempts are over within 9 minutes of a rolled back transaction |
| `Filing.ChecksumMeaning` | src/services/documentChecksumService.js:21-61 | each of the four outcomes if and only if: this client has the file from this submission, has it from elsewhere, only others have it, nobody has it |
| `Filing.StoredIsRecognised` | src/services/documentChecksumService.js:25-37 | main theorem: once the worker stored a submission, every later check of it answers ALREADY_STORED for that client and never NEW for another, whatever happens in between, while the document and the submission exist |
| `Filing.UndisturbedFiling` | src/services/clientDocumentService.js:90-190 | main theorem: an attempt nobody disturbs claims, checks, copies, inserts and finishes: one copy under the first name that is free or its own, one document, the final status, and nothing else is different |
| `Filing.InterruptedFilingIsResumed` | src/services/placementRecovery.js:3-14 | main theorem: an attempt dies after its copy; the next one files the submission under that same copy, so that both together create one object and one document |
| `Filing.FinishPendingMeaning` | src/services/documentProcessingService.js:344-356 | the final update of a waiting file: when it is possible, and all it changes |
| `Filing.StorePendingMeaning` | src/services/adminReviewActionService.js:361-457 | a waiting file moves into the client folder if and only if it is there unchanged, the client has no such file and a name is free; then one object changed its name and one document is new |
| `Filing.RemovePendingMeaning` | src/services/adminReviewActionService.js:994-1039 | a removed waiting file takes its submission and its object with it; documents only lose the reference |
| `Filing.RemoveDocumentMeaning` | src/services/adminReviewActionService.js:1041-1085 | a removed document takes its object with it if and only if no other document names it |
| `Filing.CleanUpMeaning` | src/services/clientDocumentService.js:169-187 | the clean-up takes the attempt's copy away if and only if the removal works and no document names it, and renews the lease in any case |
| `Filing.CopyTimesOutMeaning` | src/services/placementRecovery.js:41-47 | a copy call that fails leaves the recorded path and a copy that may land, and closes the attempt |
| `Filing.LandsMeaning` | src/services/permanentStorageService.js:11-16 | a late copy appears under its name if that is still free, and overwrites nothing |
| `Filing.InsertMeaning` | src/services/clientDocumentService.js:138-168 | the insert adds exactly this document if and only if the client has no such file; otherwise it changes no more than a failed one, the attempt's own stamp |
| `Stores.AddDocument` | src/services/clientDocumentService.js:136-168 | a document whose path holds its bytes and is referred to by nothing else keeps the stores consistent |
| `Stores.DropObject` | src/services/permanentStorageService.js:69-79 | an object no record and no owner refers to can be removed |
| `Stores.ForgetSubmission` | src/services/adminReviewActionService.js:1022-1024 | documents that lose their submission keep paths and files consistent |
| `Review.LockingKeepsInv` | src/services/adminReviewActionService.js:155-172 | opening, locking and giving up change no database row, and what a session read under its locks stays true |
| `Review.RecheckKeepsInv` | src/services/adminReviewActionService.js:363-374 | what a re-check under the locks established holds until the commit |
| `Review.CommitKeepsInv` | src/services/adminReviewActionService.js:388-424 | a commit respects the locks of all other sessions and moves documents only forward |
| `Review.CommitDocumentKeepsInv` | src/services/adminReviewActionService.js:782-820 | approving a stored document leaves one VERIFIED document of its type |
| `Review.RowStepKeepsInv` | src/services/adminCorrectionService.js:120-198 | keep, remove, retype, assign and retry change no document and append one entry |
| `Review.SetPoliceDateKeepsInv` | src/services/adminCorrectionService.js:210-248 | correcting a slip's date touches no status and no other document |
| `Review.RemoveDocumentKeepsInv` | src/services/adminReviewActionService.js:1061-1065 | only a REVIEW_REQUIRED document disappears |
| `Review.WorkerStoreKeepsInv` | src/services/documentProcessingService.js:302-335 | the worker's checked insert respects the client locks of all sessions |
| `Review.OneCurrentInEveryRun` | src/services/adminReviewActionService.js:496-498 | main theorem: under every interleaving no client has two VERIFIED documents of one type, one approval wins per client and type, one replacement per document |
| `Review.VerifiedIsAbsorbing` | src/services/adminReviewActionService.js:579-585 | main theorem: from any reachable state on, statuses only move REVIEW_REQUIRED, VERIFIED, SUPERSEDED; only REVIEW_REQUIRED rows disappear; a VERIFIED type stays VERIFIED |
| `Review.OneEntryPerAction` | src/services/adminReviewActionService.js:287-298 | an action that takes effect appends one entry; one that does not changes no row |
| `Review.AuditCountsActions` | src/services/adminReviewActionService.js:905-907 | over any run the log is append-only and counts exactly the actions that took effect |
| `Review.VerifiedMeaning` | src/services/adminClientService.js:30-36 | a requirement is VERIFIED exactly when the client has a VERIFIED document of the type |
| `Review.MissingMeaning` | src/services/adminClientService.js:38-51 | a requirement is MISSING exactly when nothing of the type is stored or waiting |
| `Review.CompleteStaysComplete` | src/services/adminClientService.js:53-55 | a COMPLETE client is COMPLETE in every later state |
| `Review.UncheckedInsertIff` | src/services/clientDocumentService.js:66-77 | an insert without its check keeps the one-verified rule if and only if the client has no VERIFIED document of the type |
| `Review.CommitKeepsSlipsDatedIff` | src/services/adminReviewActionService.js:336-408 | a commit keeps every VERIFIED slip dated if and only if the type did not become police slip after the date was worked out |
| `Review.OtherStepsKeepSlipsDated` | src/services/adminReviewActionService.js:795-804 | no other step leaves a VERIFIED slip without a date |
| `Review.CommitKeepsOnlySlipsDatedIff` | src/services/adminReviewActionService.js:336-408 | a commit leaves dates on police slips only if and only if the type did not become another than police slip after the date was worked out |
| `Review.OtherStepsKeepOnlySlipsDated` | src/services/adminReviewActionService.js:795-804 | no other step gives a document of another type a date |
| `Review.RetypingKeepsTheOldDate` | src/services/adminReviewActionService.js:337-342 | for any two types, a run in which a file approved while its type changes is stored with the date, or the missing date, of the type it had before |
| `Review.RetypingBreaksBoth` | src/services/adminReviewActionService.js:337-342 | runs from the empty database that break either rule |
| `ReviewEffects.NoLockIsLeft` | src/services/adminReviewActionService.js:155-172 | main theorem: in every run each lock belongs to an action that is still at the row, client or document it locked |
| `ReviewEffects.SomebodyMoves` | src/services/adminReviewActionService.js:155-157 | main theorem: the actions never deadlock: in every reachable state with an action under way, one of them waits for no lock |
| `ReviewEffects.CommitMeaning` | src/services/adminReviewActionService.js:388-424 | main theorem: all that a commit does: the file waits no longer; one document is new, with the row's client, type and file, VERIFIED or for a version REVIEW_REQUIRED; only the replacement's target became SUPERSEDED; the entry names action, both documents, client and type; its locks are gone, and nothing else changed |
| `ReviewEffects.AbortMeaning` | src/services/adminReviewActionService.js:336-460 | an action that is given up changes no row and frees its own locks only |
| `ReviewEffects.OpenMeaning` | src/services/adminReviewActionService.js:337-350 | what is refused before anything is locked |
| `ReviewEffects.ApprovalMeaning` | src/services/adminReviewActionService.js:336-460 | main theorem: in every reachable state, with its row and client free, an approval, replacement or version goes through if and only if the decision is right for what is stored and waiting, and then has exactly the effect of a commit |
| `ReviewEffects.CommitDocumentMeaning` | src/services/adminReviewActionService.js:795-812 | all that the approval of a stored document changes |
| `ReviewEffects.DocumentApprovalMeaning` | src/services/adminReviewActionService.js:782-820 | main theorem: the approval of a stored document, it and its client being free, goes through if and only if it is under review, of a known type of which the client has no VERIFIED document, and the date fits; only its status changes, and the date of a slip that had none |
| `ReviewEffects.KeepPendingMeaning` | src/services/adminReviewActionService.js:849-903 | keeping a file pending is possible while it waits and nobody is at it, and is only noted |
| `ReviewEffects.KeepDocumentPendingMeaning` | src/services/adminReviewActionService.js:849-903 | the same for a stored document under review |
| `ReviewEffects.RemovePendingMeaning` | src/services/adminReviewActionService.js:994-1039 | when a waiting file can be removed, and that its row alone is gone |
| `ReviewEffects.RemoveDocumentMeaning` | src/services/adminReviewActionService.js:1041-1085 | when a stored document can be removed, and that it alone is gone |
| `ReviewEffects.SetDocumentTypeMeaning` | src/services/adminCorrectionService.js:120-150 | a waiting file gets any other known type while nobody is at it, and goes on waiting with everything else as it was |
| `ReviewEffects.AssignClientMeaning` | src/services/adminCorrectionService.js:159-198 | a waiting file gets any other existing client that nobody is at, and goes on waiting with everything else as it was |
| `ReviewEffects.SetPoliceDateMeaning` | src/services/adminCorrectionService.js:210-248 | any slip nobody is at gets any other date; its status and everything else stays |
| `ReviewEffects.RetryProcessingMeaning` | src/services/adminReviewActionService.js:930-992 | a failed submission that is not in review starts afresh with its file |
| `ReviewEffects.WorkerPendingMeaning` | src/services/documentProcessingService.js:344-356 | the worker's result reaches a row that is not in review, and nothing else |
| `ReviewEffects.WorkerStoreMeaning` | src/services/clientDocumentService.js:136-168 | when the worker may store a document, and that it is the only new one |
| `ReviewEffects.FileIsDecidedOnce` | src/services/adminReviewActionService.js:361-366 | main theorem: in every run a row's file leaves review once for each time it arrives, by one decision or one removal, or still waits |
| `ReviewEffects.DocumentsAreConserved` | src/services/adminReviewActionService.js:388-408 | main theorem: in every run the documents are the commits and the worker's inserts less the removals |
| `ReviewEffects.LogIsTrueInEveryRun` | src/services/adminReviewActionService.js:287-298 | main theorem: in every run each entry's client and type are those of the document it names, an approved document is VERIFIED or SUPERSEDED, a replaced one SUPERSEDED, and a removed one never comes back |
| `ReviewEffects.RequirementMeaning` | src/services/adminClientService.js:3-51 | main theorem: in every reachable state each of the four statuses has exactly its documented meaning; REVIEW_REQUIRED means stored only as REVIEW_REQUIRED, although SUPERSEDED documents are counted too |
| `Pipeline.FallThroughIff` | src/services/storagePlacementService.js:90-92 | the last placement rule is reached exactly when the sender's record (and the passport's) has an empty passport ID, the band is not UNDEFINED and nothing else asks for review |
| `Pipeline.FallThroughUnreachable` | src/services/storagePlacementService.js:37-92 | it is never reached when every user has a passport ID |
| `Pipeline.PendingHasReasonIff` | src/services/reviewReason.js:47-73 | main theorem: a document waits without a review reason if and only if its sender has an empty passport ID, nothing else asks for review, its measured band asks for none, and it is not waiting already |
| `Pipeline.StoredAgreesWithReason` | src/services/clientDocumentService.js:79-104 | main theorem: a freshly stored document is REVIEW_REQUIRED with LOW_CONFIDENCE exactly when its band is UNCLEAR, and otherwise VERIFIED without a reason |
| `Pipeline.StoredIsProven` | src/services/identityVerificationService.js:45-136 | what enters a client folder on its own has a type read from its content and one client confirmed by WhatsApp, and by the passport number when it is a passport |
| `Pipeline.UnknownIsUndefined` | src/services/confidenceService.js:62-68 | an unknown type, or one known from the file name only, always ends in the UNDEFINED band |
| `Pipeline.AcceptanceOnlyLiftsToUnclear` | src/services/passportAcceptanceService.js:55-78 | acceptance only lifts to UNCLEAR and leaves the measured confidence; below 40 nothing else enters a client folder |
| `Pipeline.NamelessSenderHasNoReason` | src/services/documentProcessingService.js:245-250 | the input that waits without a reason |
| `Outcomes.TypeMeaning` | src/services/documentClassificationService.js:264-296 | the content decides the type, the file name only for a document without any text |
| `Outcomes.BandMeaning` | src/services/confidenceService.js:30-42 | the band for every value, with its four limits |
| `Outcomes.DocumentMeaning` | src/services/confidenceService.js:44-110 | the confidence is the weaker of reading and classification, and when each band is reached |
| `Outcomes.FlagsMeaning` | src/services/confidenceService.js:84-110 | each flag if and only if |
| `Outcomes.IdentityMeaning` | src/services/identityVerificationService.js:45-136 | each identity status if and only if, over what the two lookups found |
| `Outcomes.IdentifiedMeaning` | src/services/documentProcessingService.js:245-262 | when a document has one existing, non-provisional client |
| `Outcomes.AcceptedMeaning` | src/services/passportAcceptanceService.js:31-78 | the acceptance rule over the inputs |
| `Outcomes.PlacementMeaning` | src/services/storagePlacementService.js:37-92 | main theorem: over everything that is read, looked up and found, a document goes into the client folder, waits or is dropped, each if and only if; it is dropped exactly as a duplicate of the identified client's unverified document, when it would wait and is waiting already, or when it would be stored and was stored meanwhile |
| `Outcomes.NeverDropped` | src/services/storagePlacementService.js:57-65 | what is dropped has status DUPLICATE, and every other document is in the client folder or waits |
| `Outcomes.StatusMeaning` | src/services/documentProcessingService.js:71-84 | main theorem: each status if and only if, over the inputs |
| `Outcomes.ReasonMeaning` | src/services/reviewReason.js:47-73 | main theorem: the reason is the first of the nine that applies, each in terms of the inputs, and there is none exactly when none applies |
| `MessageCache.MessageIdCache.PruneExpired` | src/utils/messageIdempotency.js:31-37 | the loop that stops at the first live entry computes the prune function |
| `MessageCache.MessageIdCache.SetState` | src/utils/messageIdempotency.js:39-45 | re-inserts at the end and evicts the oldest beyond the limit |
| `MessageCache.MessageIdCache.TryClaim` | src/utils/messageIdempotency.js:50-56 | the object's claim is the claim function's, with its three clock readings |
| `MessageCache.PruneIsFilter` | src/utils/messageIdempotency.js:31-37 | on entries in expiry order, stopping at the first live one removes every expired one |
| `MessageCache.RunKeepsOrder` | src/utils/messageIdempotency.js:28-45 | in every run under a clock that never goes back, insertion order is expiry order, every prune is a full filter, and the size limit holds |
| `MessageCache.ClaimIffNotLive` | src/utils/messageIdempotency.js:48-56 | a claim succeeds if and only if the ID has no live entry |
| `MessageCache.DroppedBySet` | src/utils/messageIdempotency.js:42-44 | setting an ID drops another entry if and only if maxEntries - 1 or more entries are newer than that one |
| `MessageCache.LiveIsForgottenOnlyWhenFull` | src/utils/messageIdempotency.js:10-13 | a live ID is forgotten only by its own release, or by a newer ID when the cache is full of newer ones |
| `MessageCache.CacheRefinesIdeal` | src/utils/messageIdempotency.js:23-71 | main theorem: while at most maxEntries messages are live, the bounded cache answers every operation as an unbounded one |
| `MessageCache.MapStepIsIdealStep` | src/routes/whatsapp.js:271-285 | while nothing expires, that cache is a plain map from ID to state |
| `Webhook.AcknowledgedMeansSettled` | src/routes/whatsapp.js:246-253 | main theorem: over concurrent and repeated deliveries to processes that may die, one handler runs per message and process, 200 means every media message with ID and sender is recorded or refused, of the recorded files exactly the lost ones are missing, and every file is accounted for |
| `Webhook.StepKeepsHandlers` | src/routes/whatsapp.js:228-244 | every step keeps one running handler per claimed ID, and PROCESSED means settled |
| `Webhook.StepKeepsDeliveries` | src/routes/whatsapp.js:299-313 | every step keeps: what a delivery counts as handled is settled |
| `Webhook.HandlerStepKeepsFiles` | src/routes/whatsapp.js:81-180 | every step of a handler keeps each uploaded file recorded, held by one handler, or known to be left over |
| `Webhook.UnrecordedUploadsAreRemoved` | src/routes/whatsapp.js:169-178 | unless a removal fails, an upload lands despite its error, or a process dies, no unrecorded upload is left behind |
| `Webhook.RedeliveryIsAcknowledged` | src/routes/whatsapp.js:310-312 | a delivery sent again after all its messages were handled is answered 200 and changes no record, file or cache entry |
| `Webhook.RecordsAreStable` | src/services/temporaryDataService.js:6-10 | a message once recorded keeps its first file, whatever is delivered again |
| `Webhook.RecordedFilesExistIff` | src/routes/whatsapp.js:164-178 | in every run all recorded files exist if and only if none was lost, which needs an insert that was committed but reported an error |
| `Webhook.AcknowledgedFileCanBeLost` | src/routes/whatsapp.js:169-178 | with one, a run after which a message is acknowledged and recorded, and its file is gone |
| `Answers.AnswersMeaning` | src/routes/whatsapp.js:228-313 | main theorem: over all runs a handler ends as failed if and only if its own download, upload or insert failed, and otherwise its ID is PROCESSED in its process; a delivery is answered 200 if and only if none of its handlers failed and it gave up waiting for none |
| `Answers.GivesUpOnly` | src/routes/whatsapp.js:285-297 | a delivery gives up waiting only for a message another handler of its process is at, and before the time is over only after an earlier handler of it failed |
| `Answers.OneDelivery` | src/routes/whatsapp.js:246-313 | main theorem: in any state, a delivery of one message that nobody is at goes through, whatever happens to its file; the answer, the cache entry, the record, the file and everything that stays, for each of the seven ways it may go |
| `Answers.RestartMeaning` | src/routes/whatsapp.js:193-197 | a process that dies takes its cache, handlers and open deliveries with it, leaves the files its handlers were at, and nothing else is lost |
| `Limiter.ConcurrencyLimiter.AcquireSlot` | src/utils/concurrencyLimiter.js:33-52 | admits, queues or refuses as the specification says |
| `Limiter.ConcurrencyLimiter.StartWaiting` | src/utils/concurrencyLimiter.js:23-31 | the loop admits waiting entries while slots are free |
| `Limiter.ConcurrencyLimiter.WaitTimeout` | src/utils/concurrencyLimiter.js:46-49 | a timeout splices the entry it finds, with the negative-index behaviour of splice |
| `Limiter.ConcurrencyLimiter.ReleaseSlot` | src/utils/concurrencyLimiter.js:54-57 | frees the slot and admits the next |
| `Limiter.AdmittedIffSlotFree` | src/utils/concurrencyLimiter.js:15-17 | a task starts at once if and only if a slot is free, and is refused if and only if all slots and waiting places are taken |
| `Limiter.TimerRemovesItsEntry` | src/utils/concurrencyLimiter.js:46-49 | a timeout removes exactly its own, still queued entry |
| `Limiter.SpliceMeaning` | src/utils/concurrencyLimiter.js:46-49 | indexOf and splice take out a queued entry and no other; for one that is not queued, the last |
| `Limiter.BurstIsSorted` | src/utils/concurrencyLimiter.js:15-17 | main theorem: of any burst of tasks at an idle limiter the first maxConcurrent run, the next maxWaiting wait in order, and the rest is refused |
| `Limiter.EveryRunIsFair` | src/utils/concurrencyLimiter.js:18-72 | main theorem: in every run active equals the running tasks and stays within the limit, nobody waits while a slot is free, admission is arrival order minus timeouts, each task starts at most once |
| `Mrz.ComputeCheckDigit` | src/utils/mrz.js:47-61 | the loop computes the 7-3-1 weighted sum modulo 10 |
| `Mrz.CharValueMeaning` | src/utils/mrz.js:46-57 | digits count as themselves, letters from 10 to 35, fillers nothing |
| `Mrz.SpecimenNumber` | test/mrz.test.js:10-15 | the check digit of the specimen passport's number |
| `Mrz.SpecimenDates` | test/mrz.test.js:10-15 | those of its dates |
| `Mrz.DigitOfMeaning` | src/utils/mrz.js:63-68 | for each digit, the characters that are read as it |
| `Mrz.CheckMeaning` | src/utils/mrz.js:70-73 | a check digit is valid if and only if it, or the digit it is misread for, is the computed one; a filler stands for 0 |
| `Mrz.SurnameAlone` | src/utils/mrz.js:112-116 | without two fillers in a row everything from position 5 on is the surname |
| `Mrz.ReadMeaning` | src/utils/mrz.js:99-145 | what is read at all: no number, date or check below 28 characters, the composite check of full lines only, no number of fillers alone |
| `Mrz.DatesNeedDigits` | src/utils/mrz.js:77-90 | no date is read from a field with a character that is no digit after the correction |
| `Mrz.Line1Grammar` | src/utils/mrz.js:8-12 | the first line is recognised if and only if it is of the published form |
| `Mrz.Line2Grammar` | src/utils/mrz.js:13-19 | the same for the second line |
| `Mrz.First1Meaning` | src/utils/mrz.js:30-37 | of all lines of 30 to 50 characters the first of that form is taken, and none only when there is none |
| `Mrz.First2Meaning` | src/utils/mrz.js:36-43 | the same for the second line, never the same line twice |
| `Mrz.SubstitutionUnnoticedIff` | src/utils/mrz.js:47-61 | replacing one character of a string of any length goes unnoticed if and only if the values agree modulo 10 |
| `Mrz.SwapUnnoticedIff` | src/utils/mrz.js:47-61 | swapping neighbours goes unnoticed if and only if the values agree modulo 5 |
| `Mrz.NameIsItsWords` | src/utils/mrz.js:92-95 | replacing, squeezing and trimming gives the words with single spaces between them |
| `Mrz.NamesRoundTrip` | src/utils/mrz.js:112-116 | surname and given names are read back from a printed first line, also without given names |
| `Mrz.DatesRoundTrip` | src/utils/mrz.js:77-90 | births within the last 99 years and expiries from 2000 to 2099 are read back |
| `Mrz.ParseRoundTrip` | src/utils/mrz.js:99-145 | main theorem: parsing a TD3 zone gives back number, names and dates with all four checks valid |
| `Mrz.LookalikesChangeNothing` | src/utils/mrz.js:63-68 | any number of digit lookalikes in the corrected positions of any line changes no field and no check |
| `Mrz.PersonalCheckMisread` | src/utils/mrz.js:132-141 | a lookalike at the personal number's check digit keeps the composite check valid if and only if it is L or G |
| `Mrz.LookalikesStillMatch` | src/utils/mrz.js:8-18 | lookalikes in corrected positions keep a line recognisable as a second line |
| `Mrz.PageRoundTrip` | src/utils/mrz.js:28-44 | the two lines are found among unrelated ones, even with lookalikes, and read correctly |
| `EditDistance.Levenshtein` | src/utils/ocrDiagnostics.js:27-42 | the one-row loop in place returns the recursive minimum, for all strings |
| `EditDistance.NextRow` | src/utils/ocrDiagnostics.js:31-39 | one pass of the inner loop turns a row of the table into the next |
| `EditDistance.ZeroIffEqual` | src/utils/ocrDiagnostics.js:28-42 | the distance is 0 if and only if the strings are equal |
| `EditDistance.Symmetric` | src/utils/ocrDiagnostics.js:28-42 | the distance is symmetric |
| `EditDistance.Triangle` | src/utils/ocrDiagnostics.js:28-42 | the distance satisfies the triangle inequality |
| `EditDistance.DistanceCountsEdits` | src/utils/ocrDiagnostics.js:27-42 | main theorem: the distance is at most n if and only if n single-character edits lead from one string to the other |
| `EditDistance.LengthTestRejectsNoNearMatch` | src/utils/ocrDiagnostics.js:57-62 | the length test rejects no true near match |
| `EditDistance.ReportedByLength` | src/utils/ocrDiagnostics.js:44-62 | short words are reported only when read exactly, those of 5 to 7 characters within one edit, longer ones within two |
| `EditDistance.ReportedIffWithinAllowance` | src/utils/ocrDiagnostics.js:44-66 | a word is reported if and only if some token is within its allowed edits, and never both as exact and near |
| `Calendar.ToCivil` | src/utils/dateParsing.js:23-27 | every day number is the number of a real date |
| `Calendar.CivilRoundTrip` | src/utils/dateParsing.js:23-27 | a real date comes back from its day number |
| `Calendar.DateUtcCarries` | src/utils/dateParsing.js:18-30 | months and days out of range carry over, and the years 0 to 99 are taken for 1900 to 1999 |
| `Calendar.SurvivingPartsAreReal` | src/utils/businessDay.js:23-30 | the parts of a date survive Date.UTC if and only if the date is real and from the year 100 on |
| `Calendar.ToIsoDate` | src/utils/dateParsing.js:18-30 | a date is written exactly when it is real and from 1900 to 2100 |
| `Calendar.IsoReadsBack` | src/utils/dateParsing.js:18-30 | the written date is YYYY-MM-DD and is read back |
| `Calendar.DayNumberIsMonotone` | src/services/policeCountdownService.js:61-64 | earlier dates have smaller day numbers, equal ones the same |
| `Calendar.IsoOrderIsDateOrder` | src/services/policeCountdownService.js:86-90 | string order of YYYY-MM-DD is date order |
| `Calendar.UtcDate.SetUtcDate` | src/services/policeWorkflowService.js:20-24 | days beyond the month's end carry over |
| `Calendar.PoliceReportDueDate` | src/services/policeWorkflowService.js:19-24 | the due date is the real date 21 days after the submitted one |
| `Calendar.LatestSlipCounts` | src/services/policeCountdownService.js:82-91 | the slip that counts has the latest submitted date of all, if any has one |
| `Calendar.CountdownByDays` | src/services/policeCountdownService.js:66-101 | main theorem: PENDING to day 13, DUE_SOON on days 14 to 20, DUE_TODAY on day 21, then OVERDUE |
| `Calendar.CountdownDates` | src/services/policeCountdownService.js:92-115 | submitted and due date are shown whenever a slip has a date, 21 days apart, the days until then while the report is missing |
| `Calendar.CountdownWithoutDays` | src/services/policeCountdownService.js:98-109 | COMPLETED, DATE_MISSING and NOT_UPLOADED, each exactly when |
| `Calendar.BusinessDayContains` | src/utils/businessDay.js:32-41 | exactly the real days from the year 100 on have a range, and an instant lies in it if and only if that day is its date in Sri Lanka |
| `Paging.QueueOrderMeaning` | src/services/adminReviewService.js:197-203 | oldest or newest first; of two items of one date the document before the waiting file, within one table the smaller ID first |
| `Paging.TableSortIsQueueSort` | src/services/adminReviewService.js:197-203 | within one table the database's order is the queue's, for both orders |
| `Paging.WholeQueueInOrder` | src/services/adminReviewService.js:197-203 | the queue is all items of both tables, by date in the given direction, ties by review ID |
| `Paging.MergeTake` | src/services/adminReviewService.js:257-288 | the first n of a merge need only the first n of each list |
| `Paging.PageIsSliceOfWholeQueue` | src/services/adminReviewService.js:252-307 | a page from the windowed fetches is the slice of the whole sorted queue |
| `Paging.PagesAreAPrefix` | src/services/adminReviewService.js:288-292 | the first n pages, one after the other, are the first items of the queue |
| `Paging.PagesPartitionTheQueue` | src/services/adminReviewService.js:293-298 | main theorem: all pages together are the whole queue, every item once |
| `Paging.AllPagesAdmittedIff` | src/services/adminReviewService.js:116-118 | all pages are admitted if and only if the queue fits into the full pages inside the window |
| `Sorting.SortedOnce` | src/services/adminReviewService.js:197-203 | where ties are broken there is only one sorted order |
| `Sorting.FirstRanksFirst` | src/services/policeCountdownService.js:86-90 | the first element after sorting ranks before all others |

## Left out

- Text recognition, PDF, canvas, HTTP fetches, the storage and database clients, e-mail, logging, the admin user interface, query parsing, rate limits, CSRF and tokens. Storage is a map with a copy that never overwrites; SHA-256 is taken as injective; the database is a set of tables with atomic transactions.
- The design described in the repository's README (roles, due soon at 3 days). The code is followed.
- ReviewEffects.SomebodyMoves: covers the locks an action takes one after the other; assigning a client takes its row and its client in one step here. The code locks row, client and target in this order; one of its comments names another.
- The documents insert is assumed to wait for the client's locked users row (its foreign key); the worker's check for a VERIFIED document and its insert are one step in `Review`, and `Review.UncheckedInsertIff` says what the separation costs.
- A placement (choosing the name, recording it, copying) is one step of `Worker`; `CopyLoop` has the steps between.
- A commit and its file removals are one step of `Worker`, also when the action fails: the race in which a failed admin action removes a copy that another writer has come to use is not modelled. The temporary/ originals and deleteTemporaryDocument, which removes files inside its transaction, are not modelled either.
- A name recorded as placement path and then lost to another writer between check and copy is not a step of `Worker`; `CopyLoop` has it.
- Claim timestamps are read in the claim step; the claim's row in `Worker` is the one that was updated, in `SubmissionQueue` its other columns are those of the read before.
- Waking, polling and the set of active claims of the worker loops; the summary and error texts that are written along.
- A documents insert that reports an error although it was committed is no step of its own in `Worker`: what follows it there (the claim renewed, the copy kept, FAILED recorded) is an insert, a renewal and a final write. `Webhook` has the step for the received row.
- An attempt's stamp and the rollback of its transaction are one step; the row is locked in between.
- WhatsApp is taken to give a message ID to one message only, and the cache of `Webhook` to neither expire nor evict within a run; `MessageCache` says when that is so.
- A delivery that waits for another one takes no step of its own in `Webhook`; giving up is allowed whenever the code may give up.
- Finding police dates in text, classification scores, field extraction from printed text, name reconciliation, invitations and password resets: short or heuristic.
- Time-zone history: Sri Lanka is taken at +05:30 throughout.
- Review IDs are compared with localeCompare in the code; they are taken as a kind and a number, in that order.
- Mrz.ParseRoundTrip: names longer than the line are truncated by issuers and not read back; document numbers longer than nine characters do not occur in TD3.
- The steps of an attempt end with its process: a database statement that was sent before the exit and executed later is not modelled (a storage copy that lands late is). Timers fire on time.
- Lease.SafeRunIsFenced: for safe runs only, because in all runs it is false (Lease.NoSettingsFenceAllRuns); Lease.FencedIff and Lease.PlainFencedIff are the exact conditions.
- Worker.SafeRunStoresOnce: for safe runs only, for the same reason; Worker.ExactlyOnceIff is the exact condition.
- Worker.SafeRunIsConsistent: for safe runs only, for the same reason; Worker.ConsistentIff is the exact condition.
- Worker.FailedInsertKeepsItsCopy: for safe runs only; Worker.DanglingAfterRollback is a run in which a late clean-up takes place.
- Attempts.SafeRunIsCounted: for safe runs only, for the same reason; Attempts.CountedIff is the exact condition.
- Attempts.AttemptsAreBounded: for runs in which no claim gets the time stamp of a running attempt; Attempts.BoundedIff says that this is needed for all settings.
