# Verified model of the Agentic Researcher companion

A Dafny 4.11 model of the parts of the companion and its tooling that other parts
rely on, with proofs about every input, every run or every reachable state.
`dafny verify dfyconfig.toml` checks the whole project.

- **The coordinator store** (`companion/coordinator_store.py`). `StoreTables`,
  `Ledger`, `ScanQueue` and `Coordinator` say what each call does to the tables, as
  one atomic step. `CoordinatorStore` is the object itself: its methods update the
  table fields row by row inside a transaction, and each public method is proved to
  do, and to answer, exactly what the step says. `StoreInvariant`, `StoreSteps` and
  `QueueSteps` prove the invariant. `LedgerEffects`, `LedgerDocs`, `ClaimRules`,
  `ReadbackJobs` and `QueueEffects` say what each call leaves and answers, column by
  column and field by field. `LeaseRuns`, `QuarantineRuns`, `QueueRuns`,
  `ScanRuns`, `RescanRuns`, `HeartbeatRuns`, `QueueLog`, `CandidateRuns` and
  `IssueRuns` prove the theorems about runs; `StoreIntegrity`, `Restarts` and
  `ScanReports` those about one call on arbitrary tables, tampered ones included.
  `Witnesses` holds concrete inputs, in the environment of `PlainStore`.
- **Canonical JSON** (`companion/persisted_data.py`): the serializer
  (`Canonical`), its text code point by code point (`CanonicalText`), a reader that
  undoes it (`CanonicalParse`), when it depends on key order (`CanonicalOrder`), what
  fingerprints bind (`Bindings`), and the filters through which stored data passes
  (`SanitizedData`, and what they let through: `SanitizerRules`).
- **Event replay by pages** (`companion/server.py`): `Replay`, and `ReplayRuns`, which
  ties it to the store's runs.
- **Process selection and kill order** (`scripts/e2e-obsidian-sweep.js`):
  `ProcessTree`, `KillOrder`.
- **The streaming edit** (`src/obsidianEditorFollow.ts`): `MinimalEdit`,
  `EditorFollow`.
- **PDF text** (`companion/pdf_extract.py`): `PdfText`, `PdfRender`, `PdfExtract`.
- **Conversation history** (`src/conversationHistory.ts`): `Conversation`.
- **Signed browser decisions** (`companion/browser_security.py`):
  `SafetyDecisions`.

What is assumed rather than modelled is a parameter of the model, and the theorems
hold for every value of it: the digest and the authenticator, timestamp parsing and
printing, the regular expressions on text, the part of the validation of requests that
does not read the clock, fresh ids and tokens, and the clock. A theorem that needs the digest to be collision free says so
(`IdealHash`), as does one that needs tokens never to repeat (`FreshTokens`,
`FreshScanIds`), the clock never to go back (`Clock`, `Clocked`), or a restart's clock not
to be behind that of an earlier call (`RestartsOnTime`). In queue runs every
report has passed its schema (`ReportChecked`). Times are whole microseconds. Text is
a sequence of Unicode code points in the Python parts and of UTF-16 code units in the
TypeScript parts.

## Findings

Where the code and its documentation or name disagree, the model follows the code:

- `selectOwnedObsidianPidsV1` documents that nothing a foreign root reaches can be
  selected. It is selected when one of our own roots reaches it too, for example when
  our root is a foreign root's child (`ProcessTree.ForeignReachedYetSelected`; exactly
  when: `ProcessTree.ForeignSelectedOnlyIfOurs`).
- `claim_job` looks at authorization expiry before it looks at the active lease, so a
  stranger's claim can end a live lease, and it raises after that block has committed.
  Both happen exactly when the authorization has expired, no receipt of the prepared
  attempt is stored, and the event of the block is accepted
  (`StoreIntegrity.ClaimEndsLeaseExactlyWhen`,
  `StoreIntegrity.FailedClaimChangesExactlyWhen`, `StoreIntegrity.ErrorsRollBack`; a
  concrete run: `Witnesses.LiveLeaseIsBlocked`).
- A holder's own heartbeat cuts its lease short exactly when it promises an earlier
  expiry than the lease had (`LeaseRuns.HeartbeatShortensExactlyWhen`; a concrete run:
  `Witnesses.LeaseIsCutShort`).
- A rescan requested while a scan is live can be lost: a report on that scan overwrites
  it (`RescanRuns.RescanLost`, `RescanRuns.LostRescanRefused`; a concrete run:
  `Witnesses.RescanIsLost`). The next claim is certain to be answered with a scan,
  however the run goes on, if and only if no scan is live when the rescan is requested
  (`RescanRuns.RescanCertainExactlyWhen`).
- A restart cannot remove a bad row that a candidate refers to, and stops there; it
  completes exactly when there is no such row (`Restarts.RestartRestores`; a concrete
  row: `Witnesses.RestartIsStuck`).
- A restart validates every stored job again, by its own clock: it leaves untampered
  tables alone exactly when no stored authorization was issued more than 5 seconds
  after that clock, so a clock set back loses jobs
  (`Restarts.RestartKeepsExactlyWhen`, `Restarts.RejectsOnlyFuture`; a concrete run:
  `Witnesses.EarlyRestartQuarantines`).
- A candidate's fingerprint binds the issue as it was seen and nothing of the queue's
  configuration (`IssueRuns.FingerprintBindsIssue`). After a reconfiguration a report
  that lists an unchanged, still stored issue is refused as a whole
  (`IssueRuns.UnchangedIssueRefused`; concrete tables: `Witnesses.OldIssueIsRefused`;
  exactly when a report is accepted: `ScanReports.CompletionSucceedsExactlyWhen`).
- A completion is not atomic: it fails and yet changes the tables if and only if, in its
  time window and with the live scan's credential, it meets a readback job with a wrong
  authenticator that no candidate refers to. Then it commits what the candidates before left, and keeps the cursor and the live scan
  (`ScanReports.FailedCompletionChangesExactlyWhen`, `ScanReports.ScanStopsAtMismatch`;
  concrete tables: `Witnesses.TamperedReadbackStopsScan`).
- Two object keys with one UTF-16 encoding, possible only with surrogates as separate
  code points, keep their insertion order in canonical text
  (`CanonicalOrder.AmbiguousKeysDepend`; exactly when:
  `CanonicalOrder.OrderIndependentExactlyWhen`).
- `sanitize_completion_output` accepts a top-level name that only normalizes to an
  allowed one, and then drops the field (`SanitizedData.NothingLostExactlyWhen`,
  `SanitizedData.CapitalLosesStatus`).
- A message limit of 0 keeps every message (`Conversation.ZeroKeepsEverything`;
  exactly when: `Conversation.MessageLimitExactlyWhen`).

## Model

| member | source | states |
|---|---|---|
| CoordinatorStoreObject.CoordinatorStore.constructor | companion/coordinator_store.py:70-81 | a new store has empty tables and meets the schema's uniqueness rules |
| CoordinatorStoreObject.CoordinatorStore.Begin | companion/coordinator_store.py:1622-1631 | the transaction starts from the tables as they are |
| CoordinatorStoreObject.CoordinatorStore.End | companion/coordinator_store.py:1632-1639 | success and JobIntegrityInvalid commit, every other exception restores the tables of the start |
| CoordinatorStoreObject.CoordinatorStore.QuarantineJobLocked | companion/coordinator_store.py:1559-1577 | the quarantine row is written, then the job with its events and receipts goes, unless a candidate refers to it and the delete fails |
| CoordinatorStoreObject.CoordinatorStore.RequireIntegrityLocked | companion/coordinator_store.py:1516-1530 | an authentic row is returned; any other is quarantined and the call raises |
| CoordinatorStoreObject.CoordinatorStore.AppendEventLocked | companion/coordinator_store.py:1481-1497 | a sanitized event gets the next sequence number, or nothing is written |
| CoordinatorStoreObject.CoordinatorStore.InsertJobLocked | companion/coordinator_store.py:245-275 | one queued row, its job_queued event, and an authenticator over the row |
| CoordinatorStoreObject.CoordinatorStore.CreateJob | companion/coordinator_store.py:220-275 | the tables and the answer after create_job are those of the CreateJob step, commit or rollback included |
| CoordinatorStoreObject.CoordinatorStore.GetJob | companion/coordinator_store.py:277-284 | get_job is the ReadJob step |
| CoordinatorStoreObject.CoordinatorStore.ListJobsLocked | companion/coordinator_store.py:286-301 | the rows of the query are verified in order, and the first failure ends the call |
| CoordinatorStoreObject.CoordinatorStore.ListJobs | companion/coordinator_store.py:286-301 | list_jobs is the ReadJobs step |
| CoordinatorStoreObject.CoordinatorStore.HasMarkerLocked | companion/coordinator_store.py:401-562 | the loop over receipts finds a dispatched or ambiguous receipt of the exact prepared attempt if and only if there is one |
| CoordinatorStoreObject.CoordinatorStore.AnyExpiredLocked | companion/coordinator_store.py:322-343 | the first expired field decides; a field that does not parse before it makes the call fail |
| CoordinatorStoreObject.CoordinatorStore.ClaimJobLocked | companion/coordinator_store.py:303-398 | the branches of claim_job in the code's order: terminal, authorization, expiry, active lease, grant |
| CoordinatorStoreObject.CoordinatorStore.ClaimJob | companion/coordinator_store.py:303-398 | claim_job is the ClaimJob step, with the conflict raised after an expiry block has committed |
| CoordinatorStoreObject.CoordinatorStore.AssertLeaseLocked | companion/coordinator_store.py:1458-1479 | it passes only the row itself, unchanged tables, and only a valid lease |
| CoordinatorStoreObject.CoordinatorStore.HeartbeatJob | companion/coordinator_store.py:564-591 | heartbeat_job is the HeartbeatJob step |
| CoordinatorStoreObject.CoordinatorStore.CompleteJob | companion/coordinator_store.py:593-646 | complete_job is the CompleteJob step |
| CoordinatorStoreObject.CoordinatorStore.AppendEvent | companion/coordinator_store.py:648-664 | append_event is the AddEvent step |
| CoordinatorStoreObject.CoordinatorStore.AppendReceipt | companion/coordinator_store.py:680-753 | append_receipt is the AddReceipt step, INSERT OR IGNORE included |
| HeartbeatRuns.HeartbeatAnswered | companion/coordinator_store.py:782-829 | a heartbeat is accepted exactly when its poll is fresh and of the expected catalog and no other coordinator's heartbeat is less than 45 s old; a refused one changes nothing |
| HeartbeatRuns.HeartbeatsApart | companion/coordinator_store.py:799-811 | over a run, accepted heartbeats of two different coordinators are at least 45 s apart |
| HeartbeatRuns.ScansGoToNewestHeartbeat | companion/coordinator_store.py:976-988 | over a run, a scan is granted only to the coordinator of the newest accepted heartbeat, of its catalog, within its 45 s |
| CoordinatorStoreObject.CoordinatorStore.ConfigureQueue | companion/coordinator_store.py:849-924 | configure_linear_queue is the ConfigureQueue step |
| CoordinatorStoreObject.CoordinatorStore.DisableQueue | companion/coordinator_store.py:926-957 | disable_linear_queue is the DisableQueue step |
| CoordinatorStoreObject.CoordinatorStore.ClaimQueueScan | companion/coordinator_store.py:962-1083 | claim_linear_queue_scan is the ClaimQueueScan step |
| CoordinatorStoreObject.CoordinatorStore.ScheduleOneLocked | companion/coordinator_store.py:1104-1193 | one turn of the candidate loop: binding checks, upsert, and the readback job |
| CoordinatorStoreObject.CoordinatorStore.CompleteScanLocked | companion/coordinator_store.py:1085-1241 | the candidate loop and then the queue row, or the failure of the first candidate that fails |
| CoordinatorStoreObject.CoordinatorStore.CompleteQueueScan | companion/coordinator_store.py:1085-1241 | complete_linear_queue_scan is the CompleteQueueScan step |
| CoordinatorStoreObject.CoordinatorStore.FailQueueScan | companion/coordinator_store.py:1243-1285 | fail_linear_queue_scan is the FailQueueScan step |
| CoordinatorStoreObject.CoordinatorStore.RequestRescan | companion/coordinator_store.py:1287-1335 | request_linear_queue_rescan is the RequestRescan step |
| CoordinatorStoreObject.CoordinatorStore.Restart | companion/coordinator_store.py:1579-1620 | the restart pass is the Restart step, outside any transaction |
| LedgerEffects.CreateLeaves | companion/coordinator_store.py:220-275 | creating a job under a new key stores one queued row with the request, its fingerprint over six fields, empty output, no lease and both times, and one event with the host; the answer is that row |
| LedgerEffects.ClaimLeaves | companion/coordinator_store.py:378-398 | a successful claim stores the running row with its caller, the token's digest, the expiry and one attempt more, and the event with coordinator and expiry; the answer is the row and the token |
| LedgerEffects.BlockLeaves | companion/coordinator_store.py:344-368 | a claim that fails and yet changes the tables stores the blocked row without a lease and the event with its four texts, and answers with a conflict |
| LedgerEffects.HeartbeatLeaves | companion/coordinator_store.py:564-591 | a heartbeat changes the expiry and the time of the row, logs the expiry, and answers with the row |
| LedgerEffects.CompleteLeaves | companion/coordinator_store.py:593-646 | a completion stores the sanitized output field for field, with a fingerprint over the job's identity and the other fields, ends the lease, logs job_STATE with the fingerprint, and answers with the row |
| LedgerEffects.CompletionStoredAsSent | companion/coordinator_store.py:604-646 | with the store's own filter the stored output holds what was sent under the six exact names, and nothing else |
| LedgerEffects.EventLeaves | companion/coordinator_store.py:648-664 | an accepted event is stored once, with its kind, its sanitized payload and its time, and its number is the answer |
| LedgerEffects.ReceiptLeaves | companion/coordinator_store.py:680-753 | an accepted receipt is stored as asked, with an event of five fields, unless one of the same job, provider, operation, status and fingerprint is there, which is then the answer; its fingerprint is over six fields |
| LedgerEffects.QuarantineLeaves | companion/coordinator_store.py:1559-1577 | the record of a quarantined row holds the reason, the time, and the row's fingerprint or, where that does not look like one, the digest of a document that holds it |
| ClaimRules.ClaimGrantedExactlyWhen | companion/coordinator_store.py:303-398 | a claim succeeds if and only if the job is queued or running under an authorization, no lease runs on, and each of the five documents has no expiry or one ahead, or else a receipt of the prepared attempt is stored; and its event is accepted |
| ClaimRules.ClaimBlockedExactlyWhen | companion/coordinator_store.py:303-368 | a claim blocks the job if and only if one of the five documents has expired, those read before it stand, no such receipt is stored, and the event is accepted |
| ClaimRules.ExpiredClaimNeedsReceipt | companion/coordinator_store.py:400-562 | a claim that succeeds although one of the five documents has expired rests on a stored receipt of that job with the provider, operation, status, attempt id and bound fingerprint of its domain |
| ClaimRules.StandingNeverBlocked | companion/coordinator_store.py:318-368 | with every expiry absent or ahead no claim is blocked |
| QueueSteps.StepSound | companion/coordinator_store.py:220-1335 | every call but tampering keeps the invariant of the tables and leaves each job as it is or takes it through one of six named changes |
| QueueSteps.RestartSound | companion/coordinator_store.py:1579-1620 | a restart changes nothing in untampered tables whose authorizations were all issued by its clock, within the skew |
| QueueSteps.ScheduleManySound | companion/coordinator_store.py:1104-1193 | the candidate loop never quarantines in untampered tables and only adds queued jobs, candidates and their links |
| LeaseRuns.RunSound | companion/coordinator_store.py:220-1335 | in every reachable state of an untampered run every row is authentic, valid and shaped by its state, keys are unique, receipts are bound to their jobs, and links name their candidates |
| LeaseRuns.TerminalFrozen | companion/coordinator_store.py:593-646 | once complete, blocked, cancelled or failed, a job's row, events and receipts never change again; token and expiry are null; its newest event is job_STATE |
| LeaseRuns.HolderIsLastClaim | companion/coordinator_store.py:374-398 | in every reachable state a stored token and owner are those of the newest successful claim of the job |
| LeaseRuns.LeaseFencing | companion/coordinator_store.py:1458-1479 | whoever passes the lease check is the coordinator of the newest successful claim, with the token that claim was given |
| LeaseRuns.ReplacedTokenIsDead | companion/coordinator_store.py:1458-1479 | a token that a later claim replaced never passes again, for anyone |
| LeaseRuns.OneHolder | companion/coordinator_store.py:1458-1479 | at most one (coordinator, token) passes the check for a job |
| LeaseRuns.LeaseEndsOnlyBy | companion/coordinator_store.py:303-646 | every call leaves a live lease as it is, its expiry included, except its holder's heartbeat, which sets the expiry it promises, its holder's completion, and the authorization-expiry block |
| LeaseRuns.LeaseHeld | companion/coordinator_store.py:303-646 | over a run without a heartbeat, completion or expiry block of the job, the holder passes up to the expiry the lease had at the start |
| LeaseRuns.HeartbeatSetsExpiry | companion/coordinator_store.py:564-591 | after a heartbeat exactly the holder passes, strictly before the newly promised expiry |
| LeaseRuns.HeartbeatShortensExactlyWhen | companion/coordinator_store.py:564-591 | a heartbeat takes some time from its holder at which it would have passed if and only if it promises an earlier expiry than the lease had |
| Witnesses.LeaseIsCutShort | companion/coordinator_store.py:564-591 | a concrete run: created, leased for 300 s, renewed for 5 s, and the holder no longer passes at a time it would have |
| LeaseRuns.ClaimGivesLease | companion/coordinator_store.py:374-398 | after a successful claim exactly its caller passes, up to but not including the promised expiry |
| LeaseRuns.LiveLeaseExcludes | companion/coordinator_store.py:374-377 | no claim succeeds while a lease is live |
| LeaseRuns.AttemptsCountClaims | companion/coordinator_store.py:378-398 | the attempts column is the number of successful claims |
| LeaseRuns.LateClaimNeedsReceipt | companion/coordinator_store.py:322-368 | a claim that succeeds after a prepared authority expired rests on a dispatched or ambiguous receipt of that exact attempt, and is never the first claim |
| QuarantineRuns.NothingQuarantined | companion/coordinator_store.py:1504-1577 | in every reachable state of an untampered run whose restarts read a clock that no earlier call was ahead of, the quarantine table is empty |
| QuarantineRuns.ReceiptsCarryTheirFingerprint | companion/coordinator_store.py:680-753 | in every reachable state each stored receipt carries the fingerprint of its own job and payload, and receipts are unique |
| StoreIntegrity.ErrorsRollBack | companion/coordinator_store.py:1622-1642 | a call that raises anything but JobIntegrityInvalid leaves all tables unchanged if and only if it is not a claim that blocks an expired job |
| StoreIntegrity.FailedClaimChangesExactlyWhen | companion/coordinator_store.py:344-398 | a claim fails and yet changes untampered tables if and only if the authorization has expired, no receipt of the prepared attempt is stored, and the event of the block is accepted |
| StoreIntegrity.ClaimEndsLeaseExactlyWhen | companion/coordinator_store.py:344-377 | a claim ends a live lease under the same condition and no other, and then the job is blocked |
| Witnesses.LiveLeaseIsBlocked | companion/coordinator_store.py:344-377 | a concrete run: created, leased, and then blocked under its live lease by another coordinator's claim, in sound tables |
| StoreIntegrity.MismatchRefused | companion/coordinator_store.py:1516-1530 | in any tables, tampered ones included, no read, claim, heartbeat, completion, event or receipt acts on a row whose authenticator does not match |
| StoreIntegrity.MismatchRefusedOnCreate | companion/coordinator_store.py:232-244 | nor does creating a job whose key such a row holds |
| StoreIntegrity.MismatchRefusedInList | companion/coordinator_store.py:286-301 | a listing that meets such a row returns nothing and removes the first one |
| StoreIntegrity.ChangedColumnFails | companion/coordinator_store.py:1532-1557 | changing any column under an old authenticator makes the row fail verification |
| Restarts.RestartRestores | companion/coordinator_store.py:1579-1620 | a restart completes exactly when no row it must remove is referred to by a candidate; then exactly the acceptable rows remain, and all verify; otherwise the rows before the first such row are done with and that row is quarantined yet still there |
| Restarts.RejectsOnlyFuture | companion/schemas.py:1293-1304 | the only row of untampered tables that a restart rejects is one whose authorization was issued more than 5 s after the restart's clock |
| Restarts.RestartKeepsExactlyWhen | companion/coordinator_store.py:1579-1620 | a restart leaves untampered tables as they are if and only if there is no such row |
| Witnesses.RestartIsStuck | companion/coordinator_store.py:1579-1620 | a concrete job that a restart quarantines without removing it |
| Witnesses.EarlyRestartQuarantines | companion/schemas.py:1293-1298 | a concrete job that is created and then lost in a restart ten seconds earlier by the clock |
| StoreIntegrity.DuplicateReceipt | companion/coordinator_store.py:680-753 | a receipt dropped as a duplicate changes no table, and the stored one carries the payload that was sent |
| StoreIntegrity.ReceiptStoredAsSent | companion/coordinator_store.py:680-753 | with the store's own filter, the receipt returned by an accepted call carries the payload that was sent, new or not |
| StoreIntegrity.RepeatedCreate | companion/coordinator_store.py:227-244 | creating again under a key returns the stored row, with the same host, envelope, payload and ids, or conflicts, and changes nothing |
| StoreIntegrity.CompletionVerifies | companion/coordinator_store.py:604-646 | a stored completion carries the fingerprint of the job's identity and of the rest of itself |
| QueueEffects.HeartbeatRule | companion/coordinator_store.py:782-829 | when a worker heartbeat is accepted, with its 45 and 5 seconds, and what it stores |
| QueueEffects.ConfigureRule | companion/coordinator_store.py:849-924 | when a configuration is accepted, and the whole row and event of one that differs |
| QueueEffects.DisableRule | companion/coordinator_store.py:926-957 | what disabling leaves |
| QueueEffects.ClaimRule | companion/coordinator_store.py:962-1083 | the answer to a scan claim in every case, with its reason, and the scan of 120 seconds that a grant stores |
| QueueEffects.FailureRule | companion/coordinator_store.py:1243-1285 | a failure report is accepted if and only if it is at most 10 minutes old and 5 seconds ahead and credited to the live scan; the next scan is due 15 minutes after it |
| QueueEffects.RescanRule | companion/coordinator_store.py:1287-1335 | when a rescan is accepted, and that the next scan is then due at once |
| QueueEffects.CompletionFinishes | companion/coordinator_store.py:1194-1225 | the row after an accepted completion: the reported cursor if it is of a later time or of the same time and a later issue, and the next scan due 15 minutes after this one |
| QueueEffects.AheadIs | companion/coordinator_store.py:1736-1752 | the order of cursors: by instant, and then by issue id at the first difference |
| QueueEffects.BindingRules | companion/coordinator_store.py:1115-1130 | when a stored candidate is bound to other content, and when another row holds the same state of the issue |
| QueueEffects.FingerprintOfIssue | companion/schemas.py:455-466 | a candidate's fingerprint is over exactly its seven other fields |
| QueueEffects.ValidationRule | companion/schemas.py:1291-1304 | the times of a valid request's authorization, with a skew of 5 seconds |
| QueueRuns.QueueStepCases | companion/coordinator_store.py:849-1335 | every call but tampering leaves the queue row or makes one of seven named changes with their exact guards |
| QueueRuns.ChangesExactlyWhen | companion/coordinator_store.py:849-957 | a rescan request, a configuration that differs, and the disabling of an enabled queue take effect exactly under the named guards |
| QueueRuns.ExpiryLoggedExactlyWhen | companion/coordinator_store.py:962-1026 | so does the logging of an expired authority |
| QueueRuns.GrantAnswered | companion/coordinator_store.py:962-1083 | the caller is told of a grant exactly when the row records one, with the queue's own configuration and cursor |
| QueueRuns.ReportAnswered | companion/coordinator_store.py:1085-1285 | a completion or failure report succeeds exactly when the row after it records the end of the live scan |
| ScanReports.CandidateTakenExactlyWhen | companion/coordinator_store.py:1104-1193 | one candidate is taken if and only if it is of the configured project, bound to nothing else, and its readback job, where it needs one, is stored with the same content or can be created |
| ScanReports.CompletionSucceedsExactlyWhen | companion/coordinator_store.py:1085-1241 | a completion succeeds if and only if its time is in the window, its credential is that of the live scan, every candidate can be taken after those before it, and its cursor parses |
| ScanReports.BoundElsewhereRefused | companion/coordinator_store.py:1104-1140 | a report that repeats a candidate stored under other bindings is refused as a whole and changes nothing |
| ScanReports.StoredUnderOldConfigurationRefused | companion/coordinator_store.py:1115-1130 | so is a report that repeats a fingerprint stored under another configuration |
| IssueRuns.FingerprintBindsIssue | companion/schemas.py:455-466 | two observations that passed the schema have one fingerprint if and only if they agree in every other field |
| IssueRuns.UnchangedIssueRefused | companion/coordinator_store.py:1115-1130 | in a run, a report that lists an issue as it is still stored from another configuration is refused as a whole and changes nothing |
| Witnesses.OldIssueIsRefused | companion/coordinator_store.py:1115-1130 | concrete tables in which a report that lists such an issue is refused and the same report without it accepted |
| ScanReports.FailedCompletionChangesExactlyWhen | companion/coordinator_store.py:1085-1241 | in any tables a completion fails and yet changes them, equivalently fails with JobIntegrityInvalid, if and only if it meets a mismatching readback job that no candidate refers to |
| Witnesses.TamperedReadbackStopsScan | companion/coordinator_store.py:1104-1193 | concrete tables in which a report fails, its issue is stored all the same, and the scan stays live |
| ScanReports.ScanStopsAtMismatch | companion/coordinator_store.py:1104-1193 | a completion that meets a mismatching readback job at its i-th candidate keeps what the candidates before it left and the queue row, and removes that job |
| RescanRuns.ClaimAnsweredExactlyWhen | companion/coordinator_store.py:993-1056 | a scan claim of the live worker under a live authority is granted if and only if a scan is due and none is live |
| RescanRuns.RescanHonouredExactlyWhen | companion/coordinator_store.py:1287-1335 | after a rescan request the next such claim is granted if and only if the scan that was there at the request is no longer live |
| RescanRuns.RescanHonouredInRun | companion/coordinator_store.py:1027-1056 | the same over a run, as long as no completion, failure or new configuration comes between |
| RescanRuns.RescanIsCertain | companion/coordinator_store.py:1287-1335 | over a run, a rescan requested while no scan is live is what the next claim is answered with, whatever calls come between |
| RescanRuns.RescanCertainExactlyWhen | companion/coordinator_store.py:1027-1335 | the next claim is answered with a scan in every continuation of a run if and only if no scan is live when the rescan is requested |
| RescanRuns.RescanLost | companion/coordinator_store.py:1204-1225 | a completion or a failure leaves the queue row as if the rescan had not been requested |
| RescanRuns.LostRescanRefused | companion/coordinator_store.py:1027-1056 | a claim in the minutes after such a report is told that no scan is due |
| Witnesses.RescanIsLost | companion/coordinator_store.py:1204-1335 | a concrete run in which an accepted request is followed by a refused claim |
| ScanRuns.ScanFencing | companion/coordinator_store.py:1357-1388 | a report is accepted only from the holder of the scan granted last, under the same revision, within its 120 seconds |
| ScanRuns.ScanEndsOnce | companion/coordinator_store.py:1085-1285 | no scan ends twice in a run |
| ScanRuns.RevisionGrows | companion/coordinator_store.py:849-924 | the queue row stays and its revision never falls |
| ScanRuns.StoredCursor | companion/coordinator_store.py:1194-1225 | in every reachable state the stored cursor is the greatest cursor accepted under the revision, by instant and then issue id |
| ScanRuns.ScanSpacing | companion/coordinator_store.py:1027-1056 | without a reconfiguration or rescan between, grants are at least 120 s apart, and a grant after an ending comes at least 300 s after it |
| QueueLog.RevisionsAreLogged | companion/coordinator_store.py:849-924 | in every reachable state the revision is the number of configuration entries in the log of queue events |
| QueueLog.ExpiryLoggedOnce | companion/coordinator_store.py:999-1026 | between any two expiry entries of that log there is a configuration entry |
| CandidateRuns.CandidateFrozen | companion/coordinator_store.py:1104-1193 | over any untampered run a stored candidate keeps its configuration and observation, and its readback job once it has one |
| CandidateRuns.DistinctReadbacks | companion/coordinator_store.py:1649-1721 | distinct candidates have distinct readback jobs in every reachable state |
| CandidateRuns.NoJobAfterExpiry | companion/coordinator_store.py:1098-1193 | a completion after the authority expired creates no job |
| CandidateRuns.CompletionSchedules | companion/coordinator_store.py:1104-1241 | an accepted completion stores every reported candidate, under a live authority each with a readback job, and its event names the scan, the configuration, the cursor and the time and counts exactly the new rows and jobs |
| ReadbackJobs.CompletionReadsBack | companion/coordinator_store.py:1104-1193 | an accepted completion stores each listed observation, changes no other candidate row, and every job it creates for a candidate reads back that candidate |
| ReadbackJobs.RequestReadsBack | companion/coordinator_store.py:1649-1721 | that job's host, ids, five inputs, one tool, one capability, binding, authorization, times, envelope and key, each field equal to its field of the observation or the configuration |
| PyText.SortKeyOrdersByCodeUnit | companion/persisted_data.py:308-310 | comparing the UTF-16BE sort keys byte by byte is the code-unit order of section 3.2.3 of RFC 8785, and keys tie exactly when their code units are equal |
| CanonicalParse.EmitRoundTrip | companion/persisted_data.py:269-321 | reading a serialized value gives it back and leaves what follows, for every value |
| CanonicalParse.ParseUndoesCanonicalJson | companion/persisted_data.py:261-321 | the reader recovers the value from canonical_json, objects in canonical order |
| CanonicalText.ScalarText | companion/persisted_data.py:269-291 | the text of null, the booleans and integers, code point by code point |
| CanonicalText.CharacterText | companion/persisted_data.py:312-321 | how each character stands in text: seven two-character escapes, four lower-case hexadecimal digits for other controls and surrogates, and itself otherwise |
| CanonicalText.StringText | companion/persisted_data.py:312-321 | text is quoted once and its characters follow one another |
| CanonicalText.ListText | companion/persisted_data.py:286-292 | a list is bracketed, with single commas between its items |
| CanonicalText.ObjectText | companion/persisted_data.py:293-310 | an object is braced, an entry is its quoted key, a colon and its value, and the entry with the last key in code-unit order stands last wherever it was put |
| CanonicalText.UnitsDecode | companion/persisted_data.py:308-310 | the code units of a character: itself, or the surrogates that decode to it |
| CanonicalText.LexByFirstDifference | companion/persisted_data.py:308-310 | keys are ordered by their first difference, and a prefix comes first |
| CanonicalOrder.SortSpec | companion/persisted_data.py:293-305 | the sort of the entries is ordered, a permutation, and stable |
| CanonicalOrder.CanonicalJsonInjective | companion/persisted_data.py:261-321 | equal canonical text means equal values up to the order of keys |
| CanonicalOrder.OrderIndependentExactlyWhen | companion/persisted_data.py:293-310 | canonical text is independent of insertion order if and only if no object holds two keys with one UTF-16 encoding |
| CanonicalOrder.EncodableKeysUnambiguous | companion/persisted_data.py:308-310 | keys without lone surrogates are never ambiguous |
| CanonicalOrder.AmbiguousKeysDepend | companion/persisted_data.py:308-310 | an astral character and its two surrogates as keys: a concrete object whose text depends on insertion order |
| CanonicalOrder.CanonicalTextEncodable | companion/persisted_data.py:312-321 | canonical text never holds a surrogate, so its UTF-8 encoding cannot fail |
| Bindings.FieldsBound | companion/persisted_data.py:265-266 | with a collision-free digest, equal fingerprints of documents with one set of fields mean equal fields |
| Bindings.ReceiptFingerprintBinds | companion/coordinator_store.py:1812-1851 | a receipt's fingerprint determines its payload |
| Bindings.RequestFingerprintBinds | companion/coordinator_store.py:1751-1753 | a request fingerprint determines everything but the job id, the execution host included |
| Bindings.ReadbackKeyBinds | companion/coordinator_store.py:1649-1721 | the key of a readback job determines its candidate |
| SanitizedData.JsonValue | companion/persisted_data.py:557-622 | the filter returns the very value, or refuses it exactly when some text, list or field at any depth is not allowed |
| SanitizedData.ClosedPayload | companion/persisted_data.py:501-511 | the same, with a closed set of top-level names |
| SanitizedData.StoredAsSent | companion/persisted_data.py:417-422 | an accepted event or receipt payload is stored as sent |
| SanitizedData.SanitizeCompletionOutput | companion/persisted_data.py:424-491 | the result is the fields with the six exact names, each checked by its own rule, or a refusal |
| SanitizedData.OutputKeepsExactNames | companion/persisted_data.py:424-491 | each exactly named field keeps its value and nothing else is kept |
| SanitizedData.NothingLostExactlyWhen | companion/persisted_data.py:424-491 | an accepted output loses no field if and only if every name is exact |
| SanitizedData.OutputSanitizedOnce | companion/persisted_data.py:424-491 | sanitizing a sanitized output changes nothing |
| SanitizedData.CapitalLosesStatus | companion/persisted_data.py:424-432 | a status under a capitalized name is accepted and dropped |
| SanitizerRules.StoredIsHarmless | companion/persisted_data.py:557-622 | a stored event or receipt holds at no depth a field whose name contains a secret or vault word or is a command, but for opaque references, and no text that looks like a path, a command or a secret |
| SanitizerRules.OutputAcceptedExactlyWhen | companion/persisted_data.py:424-555 | a completion output is accepted if and only if its names are known and status, outputs, evidence, receipt ids, blocker and fingerprint each meet their written-out rule |
| Replay.ReplayChecksIntegrity | companion/coordinator_store.py:666-678 | a page is refused exactly when get_job refuses the job, with the same error |
| Replay.LogExact | companion/coordinator_store.py:669-676 | the query's log holds exactly the job's events in the range, each once, in increasing order |
| Replay.EventStream | companion/server.py:583-624 | a segment shows the rows of its pages of at most 500, each read from where the last ended, once and in order; without following, every poll but the last gave rows, fewer than 10,000 in all, before the time limit; it ends drained on an empty page, or at a boundary that names the last row, only past a limit and with that limit as its reason; while following, a keepalive stands after every sixtieth idle poll in a row and nowhere else |
| Replay.ResumedExactlyOnce | companion/server.py:583-624 | segments that follow the boundaries until one drains hold every event after the first cursor, in order, once each, whatever was appended between the pages |
| ReplayRuns.RunGrows | companion/coordinator_store.py:1481-1497 | later in an untampered run a job's log holds the same events and possibly more, with higher numbers |
| ReplayRuns.RunPolls | companion/coordinator_store.py:666-678 | in an untampered run no poll of a known job is refused and every stream's polls grow |
| ReplayRuns.RunReplayExactlyOnce | companion/server.py:583-624 | exactly-once delivery over every untampered run of the store |
| ProcessTree.IndexChildren | scripts/e2e-obsidian-sweep.js:399-403 | the map lists a child under a parent exactly when some row links them |
| ProcessTree.CollectTree | scripts/e2e-obsidian-sweep.js:404-408 | the search ends on cyclic tables, adds only reachable pids, and leaves no child of an added pid out |
| ProcessTree.SelectOwned | scripts/e2e-obsidian-sweep.js:388-443 | the result, ascending, is exactly what our roots reach together with the stranded helpers that no foreign root reaches |
| ProcessTree.PortRule | scripts/e2e-obsidian-sweep.js:308-322 | a command line names our port exactly when it holds the flag with that port's digits and no further digit |
| ProcessTree.RootRule | scripts/e2e-obsidian-sweep.js:410-443 | which rows are our roots, foreign roots and stranded helpers |
| ProcessTree.SelectionOrderIndependent | scripts/e2e-obsidian-sweep.js:388-443 | the order and repetition of rows do not matter |
| ProcessTree.ForeignSelectedOnlyIfOurs | scripts/e2e-obsidian-sweep.js:418-424 | what a foreign root reaches is selected if and only if one of our roots reaches it |
| ProcessTree.ForeignReachedYetSelected | scripts/e2e-obsidian-sweep.js:384-386 | a concrete table where something a foreign root reaches is selected |
| ProcessTree.IndexSpawns | scripts/e2e-obsidian-sweep.js:847-853 | each pid maps to its newest spawn |
| ProcessTree.SelectJournalOwnedResidue | scripts/e2e-obsidian-sweep.js:839-876 | the result, ascending, is exactly what the journal's own processes reach; rows without a creation time are not claimed |
| ProcessTree.SpawnRule | scripts/e2e-obsidian-sweep.js:839-876 | which rows the journal's spawns claim, and which pids are usable |
| KillOrder.Depth | scripts/e2e-obsidian-sweep.js:204-217 | the walk ends on any parent table; its steps are the distinct processes it meets, less one unless it runs into a cycle |
| KillOrder.ParentRule | scripts/e2e-obsidian-sweep.js:200-204 | of several rows with one pid the last gives the parent |
| KillOrder.OrderKillsLeafFirst | scripts/e2e-obsidian-sweep.js:200-219 | the result is a permutation of the list, deeper first and then by pid |
| KillOrder.LeavesFirst | scripts/e2e-obsidian-sweep.js:191-199 | a process on no parent cycle is killed before every one of its listed ancestors |
| KillOrder.BeforeParentExactlyWhen | scripts/e2e-obsidian-sweep.js:200-219 | a process goes before its listed parent if and only if it is on no cycle or has the smaller pid |
| MinimalEdit.ScanPrefix | src/obsidianEditorFollow.ts:95-106 | the longest common prefix that ends at a document position |
| MinimalEdit.ScanSuffix | src/obsidianEditorFollow.ts:108-123 | a common suffix that does not overlap the prefix, does not start inside a pair, and is the longest such unless the prefix is met |
| MinimalEdit.ComputeMinimalEditRange | src/obsidianEditorFollow.ts:87-130 | none exactly for equal strings; otherwise the edit turns one string into the other, and on well-formed strings splits no pair and no pair-respecting replacement is shorter in span or text; a string that only grew gives exactly the insertion of the new text at its end, if and only if it did not end with half of a pair |
| MinimalEdit.AppendIsInsertion | src/obsidianEditorFollow.ts:81-86 | the two scans of a string that only grew give that insertion at the tail |
| MinimalEdit.MappedOffset | src/obsidianEditorFollow.ts:145-160 | an offset outside the replaced span keeps the text on its side, one inside moves to the end of the new text, and the order of offsets is kept |
| MinimalEdit.MappedBoundary | src/obsidianEditorFollow.ts:145-160 | a caret that splits no surrogate pair is mapped to one that splits none |
| MinimalEdit.BoundaryRule | src/obsidianEditorFollow.ts:131-137 | a document position is one that no surrogate pair spans |
| EditorFollow.Editor.RestoreSelectionAfterEdit | src/obsidianEditorFollow.ts:248-277 | when the selection is left alone, when it is set to the mapped one, and when only the caret is |
| EditorFollow.Editor.ApplyStreamingContent | src/obsidianEditorFollow.ts:183-224 | which mode is reported exactly when; after a write the editor holds the content, and a capable editor's carets stand where the smallest edit takes them |
| PdfText.NormalizedIsNormal | companion/pdf_extract.py:133-148 | no control characters, no outer or doubled spaces in a line, no three newlines in a row, nothing blank at the ends |
| PdfText.NormalizeIdempotent | companion/pdf_extract.py:133-148 | exactly such texts are left alone, so twice equals once |
| PdfText.NormalizeKeepsInk | companion/pdf_extract.py:133-148 | every character that is neither whitespace nor a control survives, in order |
| PdfRender.NormalizeRenders | companion/pdf_extract.py:133-148 | normalizing is one pass: between two visible characters stands nothing, one space, one newline or two, as the whitespace between them held no newline, one or more; line ends count once, a form feed twice, control characters not at all |
| PdfExtract.BodiesExact | companion/pdf_extract.py:78-86 | the bodies are exactly the decodable, not empty pages, in page order |
| PdfExtract.FragmentHoldsBody | companion/pdf_extract.py:93-100 | a cut section that is kept still holds text of its page |
| PdfExtract.SectionsRead | companion/pdf_extract.py:84-110 | a section is "## Page", its number, a blank line and the text, with a blank line between sections |
| PdfExtract.ExtractSections | companion/pdf_extract.py:78-106 | within the character budget; whole sections of the first pages with text, then possibly one cut section, stopped only where the next whole section does not fit; extracted and skipped pages are at most those considered |
| PdfExtract.ExtractPages | companion/pdf_extract.py:67-130 | the same for the whole document; truncated if and only if there are more pages than allowed or the sections of those considered exceed the budget; otherwise every decodable, not empty page is present whole |
| PdfExtract.ExtractPdfText | companion/pdf_extract.py:37-130 | each reason for having no text exactly where it applies, and the budget for every document |
| Conversation.TrimConversationHistory | src/conversationHistory.ts:67-85 | the shift loop leaves what dropping from the front until the count fits leaves |
| Conversation.ShortenedMessage | src/conversationHistory.ts:128-138 | a long message keeps its beginning and ends with the notice where that fits |
| Conversation.NormalizedEntry | src/conversationHistory.ts:67-126 | normalization goes entry by entry: a message that is not all blank keeps its role, anything else is dropped |
| Conversation.TrimIsLongestSuffix | src/conversationHistory.ts:67-85 | the longest suffix of the normalized messages within both limits |
| Conversation.TrimIdempotent | src/conversationHistory.ts:67-85 | trimming twice equals once |
| Conversation.OnlineIsBatch | src/conversationHistory.ts:44-50 | appending one message at a time keeps what trimming all at once keeps, for every limit |
| Conversation.MessageLimitExactlyWhen | src/conversationHistory.ts:72-78 | the message limit holds if and only if it is at least 1, or no entry is a usable message, or the newest usable one, shortened, is longer than the total allows |
| Conversation.ZeroKeepsEverything | src/conversationHistory.ts:78 | a limit of 0 keeps both messages of a concrete history |
| SafetyDecisions.BrowserSafetyVerifier.PurgeNonces | companion/browser_security.py:94-96 | exactly the expired nonces are forgotten |
| SafetyDecisions.BrowserSafetyVerifier.Verify | companion/browser_security.py:46-92 | the checks in the code's order, then purge, replay test and consumption |
| SafetyDecisions.AcceptedOnlyWhen | companion/browser_security.py:46-92 | a decision is accepted only for the action it names, only if it allows, for the payload whose digest it carries, signed over its eight fields, in time, and with a nonce that is not remembered |
| SafetyDecisions.NonceReuseOnlyAfterExpiry | companion/browser_security.py:84-96 | a nonce is accepted again only after the first decision with it expired |
| SafetyDecisions.NeverAcceptedTwice | companion/browser_security.py:46-96 | with a clock that does not go back no signed decision is accepted twice, even under another signature |
| SafetyDecisions.RememberedIsRecent | companion/browser_security.py:60-96 | after an accepted call every remembered nonce was accepted less than 65 s before |
| SafetyDecisions.SignedAccepted | companion/browser_security.py:99-124 | a signed decision is accepted exactly when it is in time, at most 60 s wide, and its nonce is not remembered |
| SafetyDecisions.AcceptedOnlyForItsPayload | companion/browser_security.py:56-61 | a decision is accepted only for the payload it was signed for |
| SafetyDecisions.SignatureBinds | companion/browser_security.py:72-83 | a signature made for a decision is valid for no other |

## Left out

- The digest and the authenticators are uninterpreted functions. `IdealHash` is met
  only by an ideal digest with outputs of any length; nothing is assumed about the
  shape of a digest.
- A row that is replaced by an older authentic copy of itself is not detected by the
  code, so the run theorems are about runs without tampering; what the store does on
  tampered tables is in `StoreIntegrity`.
- Floats and `_javascript_number`: canonical JSON is proved over null, booleans,
  integers, strings, lists and objects.
- The wording of errors and their HTTP status; an exception is one of nine kinds.
- Request validation (`companion/schemas.py`) is a predicate of the request, but for
  the times of its authorization, which are compared with the clock as the code does; a
  prepared payload that is not an object counts as absent.
- Of a report's schema, the patterns of identifiers and the timezone of an
  observation's timestamp; its limit of ten, distinctness, fingerprints and cursor are
  modelled.
- `status_counts`, `worker_status`, `linear_queue_status` and
  `replay_linear_queue_events`: reads without effect on the tables.
- `_quarantine_job_locked` reads the clock again; in the model it uses the reading of
  its call.
- `_require_job_integrity_locked` and the query of `replay_events` are two statements;
  one poll of the model reads one state of the tables.
- The objective text of a readback job is a parameter.
- Timestamps in requests and in the queue's configuration arrive parsed; a malformed one
  is refused by the code before it reads a table.
- Queue events carry the fields that the theorems speak of, not the copies of
  configuration and candidate fields; the status that the queue calls return is not
  modelled.
- A creation time that is `undefined` rather than `null`, and parent pids that are not
  numbers, in process rows.
- Positions of the editor are offsets; `posToOffset` and `offsetToPos` are not
  modelled, nor is following the viewport.
- `normalizeConversationHistory`, which normalizes twice, and message limits that are
  not integers.
- HTTP routing, browser I/O, secret storage, service management, the user interface
  and process enumeration.
