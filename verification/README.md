# Verified model of the Axum scaffold's row protocols

The service keeps its protocol state in Postgres rows, and several small concurrent protocols run over those
rows. This project models them in Dafny and proves what they keep, over every run and every interleaving.

Two kinds of module go together:

- **Classes** (`AuthStore`, `KeyStore`, `FileStore`, `Store`, `Queue`, `Account`, `VerificationTable`) hold the
  tables as fields. Each method is one handler or one transaction, with the source's branches in the source's
  order, and its contract states the whole new state.
- **Machines** (`RefreshRace`, `Idempotency`, `FileLifecycle`, `Workers`, `LockoutRace`, and the transaction-level ones
  in `Sessions` and `RecoveryTokens`) take one SQL statement, object access or commit per step and let any number of
  requests interleave. A run is a sequence of states and a sequence of events; every theorem about runs quantifies
  over all of them.

| module | what it covers |
|---|---|
| `Sessions`, `RefreshRace` | sign-in, refresh-token rotation with replay detection, all revocations, row locks |
| `Idempotency`, `ScopeHash` | claim, complete and release of an idempotency key; what the key is bound to |
| `FileLifecycle`, `UploadStream` | reserve, upload, complete, delete and reap over rows and objects; the upload loop and type sniffing |
| `JobQueue`, `Workers`, `Bypass`, `Outbox` | the job table, the worker loop, its fairness and the webhook outbox |
| `Keyset`, `Cursors` | keyset paging against page numbers; the cursor codec |
| `EncryptionKey`, `Text`, `Utf8` | key parsing; base64, hex, decimal, UUID and UTF-8 text |
| `Lockout`, `LockoutRace`, `RecoveryTokens` | the failed-login lockout, with atomic and with overlapping sign-ins; single-use recovery tokens |

Assumptions that hold throughout: one monotone clock for service and database; ids and tokens are never minted
twice; a token's digest determines the token (`Sessions.Sha256`) and a URL signature what it signs
(`FileLifecycle.Hmac`). In `ScopeHash` the digest is an arbitrary function, and the texts that must not collide
under it are named in each hypothesis.

What the proofs showed to be different from what the code or its documentation says:

- **Idempotency.** It is not enough that neither of two overlapping requests came through the `None => Fresh`
  arm. A third request that came through it and fails releases a row it does not own, and after that two
  requests that both inserted their row overlap. `OwnersCanOverlap` is such a run; `GuardKeptIff` says that this
  release is the only step that breaks the guard. The queries follow src/middleware/idempotency.rs; the table in
  migrations/20260901000001_core_identity.sql:97 has other columns.
- **Refresh.** Only one superseded digest is kept. An older token is refused, but the family is not revoked
  (`OlderTokenIsRefused`). A loser revokes the family if and only if the winner's session was not rotated again
  before the loser locked it (`LoserRevokesTheFamilyIff`). The revoking UPDATE covers the rows committed when it
  starts.
- **Storage.** An object can be stranded, with no live row and nobody left to remove it, in three ways and no other
  (`StrandedNeedsCause`): a signed upload checks its row and writes after the file has been deleted
  (`UploadCanOutliveItsFile`), a handler is dropped between its two stores, or an upload is refused for its
  visibility after its object is stored (`RefusedSaveIsStranded`). The last is against the comment at
  src/services/storage.rs:115-117; `RefusedLateIff` says for which uploads, `UnknownVisibilityIsRefusedLate` gives
  one.
- **Reaping.** The comment at src/main.rs:266-267 promises that an upload under way is not reaped. A file whose
  completion commits after the reaper has selected it is (`ReadyFileCanBeReaped`), and exactly such a file
  (`ReadyFileIsReapedIff`); if the reaper is dropped in between, it stays readable without bytes
  (`ReadableFileCanLoseItsBytes`).
- **Type sniffing.** A text file with a character across byte 16 is typed as `application/octet-stream`,
  and so refused unless that type is allowed (`StraddledTextIsMissed`; `TextIsRecognisedIff` gives the exact
  condition).
- **Request bodies** enter the scope hash as lossily decoded text, so two bodies can share a scope; exactly the
  bodies that show U+FFFD are affected (`BodyIsBoundIff`).
- **Page numbers.** The offset of a page is a 64-bit product that the lists bind as a signed number. It is the true
  offset if and only if the product is below 2^63; beyond, the query fails or serves another page
  (`OffsetExactIff`, and `HugePagesGoWrong` for an example of each).
- **Job queue.** src/services/job_queue.rs:5 speaks of exactly-once processing. A refused delivery is sent again
  (`DeliveryIsSentTwice`), and so is one that was accepted but could not be recorded
  (`AcceptedDeliveryIsSentAgain`); a job whose worker crashes, or whose type the loop does not know, is never touched
  again (`CrashAfterDelivery`, `UnknownJobGetsStuck`, `StuckForEver`). What holds is one holder at a time, one run
  more than the job was requeued (`RunsAreRequeues`), requeued only by a reported failure below the limit
  (`QueuedAgainIff`), and no run after a recorded success (`DeliveredIsNeverSentAgain`).

`dafny verify dfyconfig.toml` checks the whole project.

## Model

| member | source | states |
|---|---|---|
| Sessions.AnswerUnique | src/services/auth.rs:245-271 | a refresh has exactly one answer: the two digest lookups cannot lead to different outcomes |
| Sessions.RotatesIffResolves | src/services/auth.rs:294-321 | a session its current digest finds is rotated exactly when a request would resolve it |
| Sessions.SpentTokenIsReplayed | src/services/auth.rs:257-346 | after a rotation, until the next, the spent token is answered as a replay for that user and nothing else, and the new one leads to that session |
| Sessions.ApplyValid | src/services/auth.rs:148-174 | every transaction keeps each digest in one session and one column, and everything stored is in the issuance history |
| Sessions.ApplyKeepsDead | src/services/auth.rs:359-412 | no transaction brings a revoked or reaped session back, and each revocation kills what it covers |
| Sessions.RevocationIsPermanent | src/services/auth.rs:273-301 | over every run, a session taken by sign-out, reset, change, deletion or detected replay never resolves or refreshes again |
| Sessions.ChangePasswordKeepsOnlyTheCaller | src/services/auth.rs:894-904 | after a password change only the caller's of the user's existing sessions can ever be used, and it is untouched |
| Sessions.KeptStaysUsable | src/services/auth.rs:894-902 | the caller's session is usable after the password change exactly when it was before |
| Sessions.AuthStore.CreateSession | src/services/auth.rs:148-174 | a fresh row holding only the digest is added and nothing else changes |
| Sessions.AuthStore.ResolveSession | src/services/auth.rs:191-230 | accepted exactly when the row is the user's, unrevoked and unexpired and the user is live and not banned |
| Sessions.AuthStore.RefreshSession | src/services/auth.rs:234-357 | the unique answer; a rotation keeps user and spent digest and stores the new digest and expiry, a replay revokes the family, a refusal changes nothing |
| Sessions.AuthStore.SignOut | src/services/auth.rs:359-385 | the named session of that user is revoked, and no other row changes |
| Sessions.AuthStore.SignOutAll | src/services/auth.rs:387-412 | every session of the user is revoked, and no other row changes |
| Sessions.AuthStore.ChangePassword | src/services/auth.rs:855-917 | nothing happens unless the password verified; then all of the user's sessions but the current one are revoked |
| Sessions.AuthStore.DeleteUser | src/services/auth.rs:922-973 | refused for a user who is gone; otherwise the user is marked deleted and every session revoked |
| RefreshRace.ApplyInv | src/services/auth.rs:240-346 | each statement-level step keeps chains, exclusive row locks and what every waiting transaction relies on |
| RefreshRace.AtMostOneWinner | src/services/auth.rs:240-346 | of any number of refreshes of one token, under every interleaving of the row locks, at most one rotates |
| RefreshRace.AcceptedTokensAreTheChain | src/services/auth.rs:323-346 | the tokens a session accepted are its issuance chain in order, each once; the row holds the newest two |
| RefreshRace.LookupsNeverClash | src/services/auth.rs:245-271 | no digest is current or previous in two sessions, nor both current and previous |
| RefreshRace.ChainOnlyGrows | src/services/auth.rs:325-344 | a chain is only ever extended at its end, also while transactions interleave |
| RefreshRace.OlderTokenIsForgotten | src/services/auth.rs:257-271 | a token superseded twice is found by neither lookup, in this or any later state |
| RefreshRace.OlderTokenIsRefused | src/services/auth.rs:245-295 | a refresh presenting such a token never locks, rotates or revokes anything; if it ends, it has lost |
| RefreshRace.ReplayDetectedIff | src/services/auth.rs:257-273 | a locker holds a compromised row exactly when its token is the one before the newest of that chain |
| RefreshRace.LoserCatchesReplayIff | src/services/auth.rs:257-273 | whoever looks up a token already spent gets the compromised row exactly when the winner's session is still there and not rotated again at the lock |
| RefreshRace.CommittedRevocationCoversSnapshot | src/services/auth.rs:277-283 | once a revoking transaction has committed, every session its UPDATE could see is gone for good |
| RefreshRace.LoserRevokesTheFamilyIff | src/services/auth.rs:257-292 | a loser that presents the winner's token, is not rolled back and ends: it has revoked the family exactly when the session was not rotated again before its lock, else merely lost; revoked means every session of the user that existed when the UPDATE began is gone in every later state |
| RefreshRace.LoserRevokesTheFamily | src/services/auth.rs:273-283 | from the start of its UPDATE: a committed replay detection has withdrawn every session of the user the UPDATE could see |
| RefreshRace.RevokedForGood | src/services/auth.rs:297-346 | under interleaving, a session once revoked stays so and no later commit rotates it |
| RefreshRace.CaughtReplayIsNeverWaved | src/services/auth.rs:273-292 | a transaction that found a replay can only revoke the family or be rolled back, never rotate |
| Idempotency.GuardKeptIff | src/middleware/idempotency.rs:160-236 | with handlers inside the TTL, a step leaves every running owner its row if and only if it is not a stray release |
| Idempotency.OverlapNeedsRowless | src/middleware/idempotency.rs:160-203 | without a stray release, two executions of a scope overlap only if one came through the arm without a row |
| Idempotency.StrayReleaseBreaksExclusion | src/middleware/idempotency.rs:228-236 | right after any stray release the next claim overlaps the owner whose row was removed |
| Idempotency.OwnersCanOverlap | src/middleware/idempotency.rs:194-236 | a complete timely run in which two owners overlap |
| Idempotency.RowlessMeansRemoved | src/middleware/idempotency.rs:181-202 | the arm without a row fires only if the row vanished between that request's failed insert and its select |
| Idempotency.AtomicClaimsOwnTheirRow | src/middleware/idempotency.rs:160-203 | with insert and select back to back no execution is without a row |
| Idempotency.StoredResponseIsReplayed | src/middleware/idempotency.rs:78-142 | with handlers inside the TTL and no execution of the scope without a row so far, once a settled response is stored, until expiry every claim gets that very response and nothing of the scope runs |
| Idempotency.ReplaysARealAnswer | src/middleware/idempotency.rs:186-226 | a stored response was produced earlier by an execution of the same scope, and was settled |
| Idempotency.FinishSettles | src/middleware/idempotency.rs:103-142 | in the machine too: what finishing stores or releases, by status class and size |
| Idempotency.KeyStore.ClaimKey | src/middleware/idempotency.rs:160-203 | fresh exactly when no live row exists; otherwise in flight or the stored response; the new table |
| Idempotency.KeyStore.CompleteKey | src/middleware/idempotency.rs:205-226 | the response is written to an existing row only, and no other row changes |
| Idempotency.KeyStore.ReleaseKey | src/middleware/idempotency.rs:228-236 | exactly that row is removed |
| Idempotency.KeyStore.Guard | src/middleware/idempotency.rs:78-143 | the handler runs exactly when no live row exists; a 2xx or 4xx answer of at most 1048576 bytes is stored, any other releases the key |
| ScopeHash.SameScopeIff | src/middleware/idempotency.rs:48-74 | two requests share a scope exactly when caller, method, path, client key and lossily read body agree |
| ScopeHash.PreimageIs | src/middleware/idempotency.rs:50-74 | the five lines that are hashed, written out |
| ScopeHash.ValidBodiesAreBound | src/middleware/idempotency.rs:69-74 | with UTF-8 bodies the scope determines the whole request |
| ScopeHash.BodyIsBoundIff | src/middleware/idempotency.rs:71-74 | a body is told from every other by the scope exactly when it shows no replacement character |
| ScopeHash.ReplayStaysWithItsCall | src/middleware/idempotency.rs:69-86 | over every run, a replayed response was produced by an execution of the very same call |
| Utf8.RoundTrip | src/middleware/idempotency.rs:73 | encoded text decodes to itself, strictly and lossily |
| Utf8.EncodedIs | src/middleware/idempotency.rs:73 | the encoding of a character, by ranges and bits |
| Utf8.AcceptedIff | src/middleware/idempotency.rs:73 | bytes start with a character exactly when they start with the encoding of one |
| Utf8.ReplacedPieces | src/middleware/idempotency.rs:73 | how far an ill-formed piece reaches, at bytes for each case |
| Utf8.Canonical | src/services/storage.rs:72-76 | strictly accepted bytes are the encoding of their text, and lossy reading agrees on them |
| Utf8.LossyDistinguishesIff | src/middleware/idempotency.rs:73 | lossy reading separates a byte string from all others exactly when its text has no U+FFFD |
| Utf8.CutIff | src/services/storage.rs:72-73 | a prefix of a text is text exactly when the cut is not inside a character |
| FileLifecycle.ApplyInv | src/services/storage.rs:359-378 | every statement of every handler keeps rows and objects in agreement |
| FileLifecycle.ReadableFilesHaveBytes | src/services/storage.rs:519-575 | in every reachable state a readable row has its object, or a handler has deleted it and owes that row its tombstone, or was dropped owing it |
| FileLifecycle.QuietStoresAgree | src/services/storage.rs:278-287 | with no tombstone owed, by a handler under way or a dropped one, every readable file has bytes |
| FileLifecycle.NoUploadWhenOverdue | src/services/storage.rs:482-514 | a reservation past twice the URL lifetime has no upload under way |
| FileLifecycle.ReaperLeavesNoOrphan | src/main.rs:264-298 | after the reaper deletes an object, no later step of the run writes it and it stays absent |
| FileLifecycle.ObjectsHaveRows | src/services/storage.rs:201-238 | in every reachable state an object has a row, or its save is still to insert one, or that save was refused for its visibility or dropped |
| FileLifecycle.StrandedIff | src/services/storage.rs:201-238 | an object that no live row owns, and that no handler will remove or give a row, is one whose row bears a tombstone or whose save was given up |
| FileLifecycle.StrandedNeedsCause | src/services/storage.rs:201-209 | on the local backend with prompt uploads, every such object is due to an upload that wrote after the tombstone, a save refused for its visibility, or a save or deletion dropped between its stores |
| FileLifecycle.CauseStrandsIff | src/services/storage.rs:201-209 | each of these steps strands its object exactly when the object is there and no deletion is still to remove it |
| FileLifecycle.RefusedSaveIsStranded | src/services/storage.rs:201-209 | a reachable state with one stranded object, no row and one refused save |
| FileLifecycle.LateWriteStrandsIff | src/services/storage.rs:513 | such a late write strands its object exactly when no deletion of the file is still to remove it |
| FileLifecycle.UploadCanOutliveItsFile | src/services/storage.rs:482-575 | a reachable state with no handler left and a stranded object |
| FileLifecycle.ReadyFileIsReapedIff | src/main.rs:269-297 | a file that becomes ready while a reaper is at work is tombstoned by it, if it finishes, exactly when it was in its selection at that moment |
| FileLifecycle.ReadySelectedWasCompleted | src/main.rs:269-276 | a ready file in a reaper's selection was selected while pending and completed since |
| FileLifecycle.ReadyFileCanBeReaped | src/main.rs:285-297 | a reachable state in which a completed file has been reaped |
| FileLifecycle.ReadableFileCanLoseItsBytes | src/main.rs:285-297 | a reachable state, with no handler left, in which a readable file has no bytes |
| FileLifecycle.FileStore.SaveFile | src/services/storage.rs:201-238 | object first; an unknown visibility leaves it without a row, a failed insert removes it, otherwise a ready row with its size |
| FileLifecycle.FileStore.GeneratePresignedUpload | src/services/storage.rs:392-478 | the refusals for type, declared size, membership and visibility in their order; otherwise a pending row and a signature that lives for the configured lifetime, less than a second short |
| FileLifecycle.GrantLasts | src/services/storage.rs:418-419 | the expiry is the lifetime from now, cut down to a whole second |
| FileLifecycle.FileStore.AcceptSignedUpload | src/services/storage.rs:482-514 | which of the three refusals or the write happens, and exactly when; rows do not change |
| FileLifecycle.FileStore.CompleteUpload | src/services/storage.rs:519-575 | each answer exactly when it is given, the one to an unauthorized caller included; ready with the stored size, or object and row of an oversized upload removed |
| FileLifecycle.FileStore.DeleteFile | src/services/storage.rs:359-378 | a readable file loses row and object and nothing else changes |
| FileLifecycle.FileStore.ReapAbandonedUploads | src/main.rs:264-298 | exactly the reservations older than two lifetimes lose object and row |
| UploadStream.Store.ReceiveChunks | src/services/storage.rs:150-180 | size, first 16 bytes, digest input and file are those of the concatenation; it fails exactly when that is over the limit |
| UploadStream.Store.SaveUploadField | src/services/storage.rs:147-238 | the outcome is a function of the bytes, not the chunks; no temporary file is left; which failures leave an object |
| UploadStream.RefusedLateIff | src/services/storage.rs:156-209 | a failed upload leaves its object exactly when size, stream, type and backend are in order and the visibility is none of the three accepted spellings |
| UploadStream.RechunkingIsInvisible | src/services/storage.rs:156-178 | merging or splitting chunks anywhere leaves the bytes, and so the outcome, the same |
| UploadStream.MagicIsInTheHead | src/services/storage.rs:46-68 | 12 bytes are enough for every magic number |
| UploadStream.KnownMagic | src/services/storage.rs:47-68 | each magic number, in bytes and whatever follows, gives its type |
| UploadStream.MagicIff | src/services/storage.rs:47-68 | and nothing else does |
| UploadStream.NamedType | src/services/storage.rs:78-88 | the type a name gives, by what follows its last dot |
| UploadStream.PrintableIff | src/services/storage.rs:72-76 | which characters a text may hold |
| UploadStream.KeyExtensions | src/services/storage.rs:100-111 | the extension of a stored key, type by type |
| UploadStream.VisibilityIs | src/services/storage.rs:655-663 | which spellings mean public and which private |
| UploadStream.KeptDrops | src/services/storage.rs:641-646 | exactly control characters and separators are dropped from a name |
| UploadStream.PlainNamesAreKept | src/services/storage.rs:641-653 | a short plain name is recorded as it is, trimmed, and an empty one replaced |
| UploadStream.TextIsRecognisedIff | src/services/storage.rs:70-88 | the first bytes of a text show its type exactly when it has a magic number, its name gives no text type, or the cut is not inside a character |
| UploadStream.StraddledTextIsMissed | src/services/storage.rs:70-88 | a text of 17 bytes named "a.txt" whose type is missed by its head and found by the whole |
| UploadStream.UnknownVisibilityIsRefusedLate | src/services/storage.rs:209 | a PDF with visibility "team" is refused for its visibility, after it has been stored |
| UploadStream.HeadDecidesIff | src/services/storage.rs:70-88 | when sniffing 16 bytes of a text and sniffing all of it agree |
| UploadStream.SanitizedNames | src/services/storage.rs:641-653 | a recorded name is non-empty, at most 255 characters, without separators or control characters |
| JobQueue.BackoffRange | src/services/job_queue.rs:150-152 | every backoff is between 5 and 5120 seconds, whatever the attempt count, so nothing overflows |
| JobQueue.BackoffTable | src/services/job_queue.rs:150-152 | the backoff for every attempt count, in seconds |
| JobQueue.PollFindsWork | src/services/job_queue.rs:60-76 | a poll can take a job exactly when some unlocked job is due |
| JobQueue.MatchingCounts | src/services/webhook.rs:179-196 | as many webhooks match as are active, of the application, of the organization or of none, and subscribed to the event |
| JobQueue.OneJobPerDelivery | src/services/webhook.rs:198-234 | each new delivery gets exactly one job, queued and due at once |
| JobQueue.DispatchAddsJobs | src/services/webhook.rs:198-234 | a dispatch adds as many jobs as there are matching webhooks |
| JobQueue.DispatchAddsDeliveries | src/services/webhook.rs:198-234 | a dispatch adds as many delivery rows as there are matching webhooks |
| JobQueue.Queue.Enqueue | src/services/job_queue.rs:18-50 | one queued row with the defaults filled in |
| JobQueue.Queue.PollNextJob | src/services/job_queue.rs:53-104 | the earliest due job of the queue becomes running for the worker with one attempt more, or none of the queue is due |
| JobQueue.Queue.CompleteJob | src/services/job_queue.rs:107-123 | the row is completed whatever its status was, and nothing else changes |
| JobQueue.Queue.FailJob | src/services/job_queue.rs:126-174 | failed for good at the limit, otherwise queued again strictly in the future |
| JobQueue.Queue.ReapOldJobs | src/services/job_queue.rs:177-191 | exactly the finished rows past retention go, and their number is returned |
| JobQueue.Queue.DispatchEvent | src/services/webhook.rs:167-237 | for each matching webhook one pending delivery and one job for it, due at once on the webhook queue with five attempts |
| JobQueue.Queue.ExecuteDelivery | src/services/webhook.rs:240-314 | success is a 2xx answer and one attempt is recorded on the delivery if it still exists; an outcome that cannot be recorded is an error |
| JobQueue.Queue.ProcessJob | src/main.rs:187-247 | what becomes of the claimed job and its delivery, for every kind of payload, answer and recording error |
| Workers.NobodyElsesJob | src/main.rs:183-250 | no step writes a job that another worker has in hand, though the updates do not check |
| Workers.ApplyInv | src/services/job_queue.rs:53-174 | every step of workers, dispatches and cleanup keeps the queue's invariant |
| Workers.OneHolderPerJob | src/services/job_queue.rs:60-104 | a job is held by at most one of any number of workers, and its row says by whom |
| Workers.RunsAreBounded | src/services/job_queue.rs:126-174 | a job with limit m runs at most max(1, m) times, and the row counts its runs |
| Workers.DelaySumClosed | src/services/job_queue.rs:150-152 | the sum of the backoffs is 10(2^(n-1) - 1) up to 11 runs and 10230 + 5120(n - 11) beyond |
| Workers.TotalDelayIsBounded | src/services/job_queue.rs:149-170 | a job's waits add up to at most that closed form |
| Workers.TerminalIsAbsorbing | src/services/job_queue.rs:107-191 | a completed or failed job never changes again; it can only be reaped |
| Workers.ReapableIff | src/main.rs:160 | cleanup may take exactly the completed and failed jobs untouched for 14 days |
| Workers.QueuedAgainIff | src/services/job_queue.rs:126-174 | after a claim and until the next, a job is queued, so claimable, exactly when a run of it was reported failed below the limit |
| Workers.ClaimedAgainOnlyIfRequeued | src/services/job_queue.rs:60-96 | between two claims of one job there is such a report |
| Workers.RunsAreRequeues | src/main.rs:183-250 | over every run, a job's runs are one more than its requeues, or as many while it is queued |
| Outbox.DeliveredIsNeverSentAgain | src/services/webhook.rs:266-292 | once a delivery is recorded as delivered it is never executed again, whatever is deleted or crashes |
| Workers.StuckForEver | src/main.rs:185-250 | a running job that no worker has in hand keeps its row unchanged in every later state |
| Workers.DroppedJobIsStuck | src/main.rs:187-249 | a worker that drops a claimed job leaves it in that condition |
| Workers.UnknownJobGetsStuck | src/main.rs:186-249 | a run of three steps in which a job of unknown type gets stuck |
| Workers.CrashAfterDelivery | src/main.rs:199-212 | a run in which a delivery is made and its job is stuck |
| Workers.DeliveryIsSentTwice | src/main.rs:214-224 | a run in which one delivery is executed twice |
| Workers.AcceptedDeliveryIsSentAgain | src/main.rs:225-235 | a run in which a delivery is accepted, cannot be recorded, and is accepted again |
| Bypass.BoundedBypass | src/services/job_queue.rs:60-76 | however two-step polls interleave, a due job is taken by a locking SELECT after at most as many of them as there were unlocked jobs due no later |
| Bypass.LineShrinks | src/services/job_queue.rs:149-170 | the decreasing measure: unlocked jobs ahead plus locking SELECTs made never exceed the jobs ahead at the start |
| Outbox.AttemptsAddUp | src/services/webhook.rs:266-313 | job attempts are delivery attempts, plus the runs whose outcome was lost, plus one exactly while a claim is unrecorded; completed means delivered, failed means not delivered, and recorded as failed if none was lost |
| Outbox.OneCarrierPerDelivery | src/services/webhook.rs:215-233 | no two jobs ever carry the same delivery |
| Outbox.DispatchInStep | src/services/webhook.rs:198-234 | during a dispatch, inserted deliveries exceed enqueued jobs by 0 or 1 |
| Lockout.LockoutBound | src/services/auth.rs:612-642 | in any window of length T without a reset at most max(1, h) + floor(T / L) failed verifications |
| Lockout.LockoutBoundIsTight | src/services/auth.rs:669-690 | some sequence of attempts reaches that bound exactly |
| LockoutRace.ConcurrentLockoutBound | src/services/auth.rs:581-632 | reading the lock and registering a failure being separate statements, with at most c sign-ins in flight, at most max(1, h) - 1 + c(1 + floor(T / L)) failures in a window without a reset |
| LockoutRace.ConcurrentBoundIsTight | src/services/auth.rs:581-690 | some interleaving against a fresh account reaches that bound exactly |
| LockoutRace.FailuresSinceLock | src/services/auth.rs:612-690 | from a locking failure on: those in flight that can still fail, and one wave of c per lockout |
| LockoutRace.OneAtATime | src/services/auth.rs:612-690 | with one sign-in at a time it is the bound of atomic sign-ins |
| Lockout.FailuresWithinBudget | src/services/auth.rs:612-690 | from any counter state, the failures still possible in a window |
| Lockout.Account.RegisterFailedLogin | src/services/auth.rs:669-690 | the counter goes up, and from the threshold on the lock is renewed |
| Lockout.Account.SignInEmail | src/services/auth.rs:574-664 | the verdict, in the order of the checks, and the counters afterwards |
| RecoveryTokens.ConsumeMatchesHistory | src/services/auth.rs:455-479 | a token is accepted exactly when the history says: issued for this purpose, unexpired, the latest, not redeemed |
| RecoveryTokens.RedeemedAtMostOnce | src/services/auth.rs:460-474 | in a whole run a token is redeemed at most once, under any purpose |
| RecoveryTokens.ReapingIsUnobservable | src/main.rs:135-138 | bisimulation: deleting rows expired for seven days changes no later answer |
| RecoveryTokens.ReapRemoves | src/main.rs:135-138 | exactly the rows expired for seven days go |
| RecoveryTokens.VerificationTable.IssueVerificationToken | src/services/auth.rs:418-451 | earlier tokens of the identifier and purpose end, and the new one is redeemable |
| RecoveryTokens.VerificationTable.ConsumeVerificationToken | src/services/auth.rs:455-479 | the identifier is returned exactly when the history allows it, and the row is used up |
| Text.Base64RoundTrip | src/crypto/mod.rs:164-180 | decoding inverts encoding for both alphabets, padded or not |
| Text.Base64Canonical | src/crypto/mod.rs:177-180 | nothing but the encoding of a value decodes to it |
| Text.SymbolTable | src/crypto/mod.rs:168-179 | the symbols of both alphabets are those of tables 1 and 2 of RFC 4648 |
| Text.GroupDigits | src/crypto/mod.rs:168-179 | three bytes are one 24-bit number in base 64, by the table |
| Text.GroupAt | src/crypto/mod.rs:168-179 | the k-th three bytes are the k-th four symbols |
| Text.LastTwoDigits | src/crypto/mod.rs:168-179 | the last two bytes, with zero bits and padding |
| Text.LastByteDigits | src/crypto/mod.rs:168-179 | a last single byte, with zero bits and padding |
| Text.HexAccepts | src/crypto/mod.rs:205-213 | accepted exactly: an even number of hex digits; half as many bytes |
| Text.HexRoundTrip | src/crypto/mod.rs:205-213 | printed hex decodes to the bytes |
| Text.HexPrintAt | src/crypto/mod.rs:72-80 | each byte is printed as its two lower-case digits, the higher first |
| Text.HexDecodeAt | src/crypto/mod.rs:205-213 | each decoded byte has the two characters as its digits, in either case |
| Text.PrintHex | src/crypto/mod.rs:72-80 | the appending loop prints exactly the hex of the digest |
| Text.I64RoundTrip | src/models/pagination.rs:106-121 | every 64-bit integer, negative ones included, is read back from its decimal text |
| Text.DecimalDigit | src/models/pagination.rs:108-110 | the k-th character from the right is the k-th decimal digit |
| Text.DecimalForm | src/models/pagination.rs:108-110 | no leading zeros, and a minus sign exactly before negative numbers |
| Text.UuidRoundTrip | src/models/pagination.rs:106-122 | every UUID is read back from its hyphenated text |
| Text.UuidSlices | src/models/pagination.rs:108-111 | a printed UUID is five groups of hex digits, joined by hyphens |
| Text.UuidForms | src/models/pagination.rs:122 | plain, braced and URN forms are read as well |
| Cursors.RoundTrip | src/models/pagination.rs:105-124 | decode(encode(c)) is c for every microsecond timestamp and every UUID |
| Cursors.EncodeInjective | src/models/pagination.rs:105-112 | no two keys share a cursor |
| Cursors.AcceptedIff | src/models/pagination.rs:114-124 | what decodes to a cursor is exactly the wrapping of a timestamp in range, a bar and a UUID |
| Cursors.EncodedIsUrlSafe | src/models/pagination.rs:106-112 | a cursor consists of letters, digits, hyphens and underscores |
| Cursors.EncodeWraps | src/models/pagination.rs:106-112 | what is wrapped: the decimal microseconds, a bar and the hyphenated UUID |
| Text.SplitOnceIff | src/models/pagination.rs:119 | the first-separator split undoes joining exactly when the left part lacks the separator |
| EncryptionKey.AcceptedIff | src/crypto/mod.rs:172-192 | a text is read as k exactly when, trimmed, it is one of the three spellings of k |
| Text.TrimIs | src/crypto/mod.rs:173 | trimming removes white space at both ends, all of it and nothing else |
| Text.SpaceIff | src/crypto/mod.rs:173 | which characters are white space |
| EncryptionKey.RefusedIff | src/crypto/mod.rs:177-187 | the encoding error is reported exactly for texts that encode nothing, and a reported length is that of bytes the text encodes |
| EncryptionKey.EarlierDecodersRefuse | src/crypto/mod.rs:175-180 | length parity and '=' keep each spelling from the decoders tried before its own |
| EncryptionKey.SpellingsAreUnambiguous | src/crypto/mod.rs:172-192 | no text spells two keys |
| EncryptionKey.RecoveredFromEverySpelling | src/crypto/mod.rs:172-192 | every key is read back from each of its spellings, with any white space around it |
| EncryptionKey.HexReadAsBase64 | src/crypto/mod.rs:175-178 | hex digits are also base64, of three quarters their number of bytes: why the order matters |
| EncryptionKey.ParseEncryptionKey | src/crypto/mod.rs:172-192 | key, wrong length or bad encoding, after copying into a 32-byte array |
| EncryptionKey.GenerateEncryptionKey | src/crypto/mod.rs:163-169 | 43 characters that parse back to the bytes generated |
| Keyset.PageCovers | src/routes/v1/audit.rs:62-81 | a page holds only wanted rows in descending order, and a wanted row left out is below its last row |
| Keyset.LessIff | src/routes/v1/audit.rs:66-70 | the key comparison: by time, then by the first byte of the ids that differs |
| Keyset.WalkDescends | src/routes/v1/audit.rs:51-85 | following next_cursor over a changing table, keys strictly descend along and between pages |
| Keyset.WalkShowsOnce | src/routes/v1/notifications.rs:52-83 | a finished walk shows every row that matched throughout exactly once |
| Keyset.SeekIsSkip | src/routes/v1/audit.rs:66-70 | starting below the m-th key is starting at offset m of the sorted list |
| Keyset.WalkIsSlicing | src/models/pagination.rs:127-142 | on an unchanging table page k is the k-th slice, and has_next is false exactly on the last |
| Keyset.WalkAgreesWithPages | src/models/pagination.rs:16-61 | the same rows as the query for page number k + 1 with the offset the database gets, and the same has_next |
| Keyset.WalkLength | src/models/pagination.rs:46-61 | a finished walk makes total_pages requests, and one for an empty list |
| Keyset.OffsetExactIff | src/services/org.rs:76-77 | the offset that reaches the query is the true one if and only if the product is below 2^63, and when the query fails |
| Keyset.PageMetaIff | src/models/pagination.rs:46-61 | page metadata: whether a page lies before and after |
| Keyset.HugePagesGoWrong | src/models/pagination.rs:25-27 | one page number whose query is refused, and one that shows the rows at offset 84 |
| Keyset.ListAuditLogs | src/routes/v1/audit.rs:44-85 | the page the walks are about: only rows of the actor and action asked for, newest first, none passed over, with its limit and next cursor |
| Keyset.ListNotifications | src/routes/v1/notifications.rs:42-100 | the same for the caller's own rows of the organization asked for, with the number of unread ones; refused to outsiders |

## Left out

- SHA-256, HMAC, Argon2, ChaCha20-Poly1305, JWT and random generation are foreign libraries; digests and signatures are idealised as said above, and whether a password verifies is a parameter.
- HTTP, extractors, headers, mail, metrics, audit writes, realtime events and rate limits are plumbing around the protocols.
- Role checks, membership lookups and CRUD services are easy case splits; where a handler depends on one, its answer is a parameter.
- Object stores that presign uploads themselves: `NativePut` covers them in the agreement of rows and objects, but the timing facts are for the local backend, where every write passes through the service.
- FileLifecycle.ReaperLeavesNoOrphan: assumes the local backend and that a signed-upload request lasts no longer than the signed-URL lifetime; without that a slow request may write later.
- FileLifecycle.FileStore.CompleteUpload: the recorded size equals the stored length with handlers taken one at a time only, because src/services/storage.rs:503-513 checks the row and writes afterwards.
- FileLifecycle.StrandedNeedsCause: assumes the local backend and prompt uploads (`LocalRun`); with native uploads a client may write at any time.
- FileLifecycle.FileStore.SaveFile: the size and type checks before it are in UploadStream, so it takes a length already checked.
- RefreshRace.LoserRevokesTheFamily: covers the sessions committed when the revoking UPDATE starts; a sign-in that commits during it is not withdrawn, by the isolation level the service uses.
- Deadlocks, failed statements, crashes and client disconnects are steps without a cause (`Abort`, `Crash`, `Drop`, `Abandon`); of failing statements only the insert of an upload and the record of a delivery have a step of their own.
- Idempotency.StoredResponseIsReplayed: assumes that no execution of the scope has been without a row, as AtomicClaimsOwnTheirRow shows for claims whose insert and select are back to back.
- Idempotency.OverlapNeedsRowless: assumes handlers finish within the TTL and no stray release, which the code does not enforce; GuardKeptIff and OwnersCanOverlap show that the second is needed.
- A request served without protection because the idempotency store is down runs outside the protocol.
- Bypass.BoundedBypass: assumes that no poll is rolled back after its locking SELECT and that new jobs are not backdated, as no caller does.
- Keyset.OffsetExactIff: is about builds without overflow checks, which the release profile makes; a debug build panics once the product passes 2^64.
- Job liveness is not claimed: an abandoned job stays running, and `cancelled` is a status that no code writes.
- Lockout.LockoutBound: each sign-in is one step; LockoutRace has the bound for sign-ins that overlap. The service itself does not limit how many do.
- Cascading deletes other than of deliveries, and clock skew between service and database.
- Utf8 and Text do not model Unicode normalisation; lower-casing is ASCII only, as in the service.
- UploadStream.TextIsRecognisedIff: is about content that is text throughout; for other content the type is what the first 16 bytes show.
- Cursors.RoundTrip: timestamps are whole microseconds, as the tables store them; finer ones would be rounded down by the encoder.
- The page-number lists themselves (users, apps, organizations); only their arithmetic is compared with the keyset walk.
