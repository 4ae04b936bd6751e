/**
 Theorems about whole runs of the scan queue: which scan may report, what the
 cursor is, how far apart scans are, and how often expiry is logged.  Apart from
 tampering, they hold for every sequence of calls on the store.
 */
module QueueRuns {
  import opened Outcomes
  import opened PyText
  import opened Canonical
  import opened StoreTables
  import opened Ledger
  import opened ScanQueue
  import opened Coordinator

  // -------------------------------------- the job calls leave the queue alone

  ghost predicate QueueSideSame(db: Tables, after: Tables) {
    && after.queue == db.queue && after.candidates == db.candidates && after.queueEvents == db.queueEvents
    && after.heartbeat == db.heartbeat
  }

  lemma VerifyKeepsQueue(env: Env, db: Tables, id: Text, now: Instant)
    ensures QueueSideSame(db, GetJob(env, db, id, now).db)
  {
    hide QuarantineRow, Authentic, Referenced;
  }

  lemma LeaseKeepsQueue(env: Env, db: Tables, id: Text, c: Text, t: Text, now: Instant)
    ensures QueueSideSame(db, AssertLease(env, db, id, c, t, now).db)
  {
    hide GetJob, LeaseValid;
    VerifyKeepsQueue(env, db, id, now);
  }

  lemma CreateKeepsQueue(env: Env, db: Tables, r: Request, now: Instant)
    ensures QueueSideSame(db, CreateLocked(env, db, r, now).db)
  {
    hide RequireIntegrity, Fingerprint, RequestDoc, QueuedNotice;
    match FindByKey(db.jobs, r.idempotencyKey)
    case Some(id) => VerifyKeepsQueue(env, db, id, now);
    case None =>
  }

  lemma {:induction false} ListKeepsQueue(env: Env, db: Tables, rows: seq<Text>, n: nat, now: Instant)
    requires n <= |rows| && forall i :: 0 <= i < |rows| ==> rows[i] in db.jobs
    ensures QueueSideSame(db, ListJobs(env, db, rows, n, now).db)
  {
    hide RequireIntegrity;
    if n > 0 {
      ListKeepsQueue(env, db, rows, n - 1, now);
      VerifyKeepsQueue(env, db, rows[n - 1], now);
    }
  }

  lemma QuarantineKeepsQueue(env: Env, db: Tables, id: Text, reason: string, now: Instant)
    requires id in db.jobs
    ensures QueueSideSame(db, QuarantineJob(env, db, id, reason, now).db)
  {
    hide QuarantineRow, Referenced;
  }

  lemma RestartRowKeepsQueue(env: Env, db: Tables, id: Text, now: Instant)
    requires id in db.jobs
    ensures QueueSideSame(db, RestartRow(env, db, id, now).db)
  {
    hide Fingerprint, RequestDoc, Authentic, QuarantineJob;
    QuarantineKeepsQueue(env, db, id, "invalid_persisted_contract", now);
    QuarantineKeepsQueue(env, db, id, "integrity_authenticator_mismatch", now);
    QuarantineKeepsQueue(env, db, id, "legacy_effectful_job_missing_integrity", now);
  }

  lemma {:induction false} RestartKeepsQueue(env: Env, db: Tables, rows: seq<Text>, n: nat, now: Instant)
    requires n <= |rows|
    ensures QueueSideSame(db, RestartRows(env, db, rows, n, now).db)
  {
    hide RestartRow;
    if n > 0 {
      RestartKeepsQueue(env, db, rows, n - 1, now);
      match RestartRows(env, db, rows, n - 1, now)
      case Raised(_, _) =>
      case Done(d, _) => if rows[n - 1] in d.jobs { RestartRowKeepsQueue(env, d, rows[n - 1], now); }
    }
  }

  /** The calls of the job ledger. */
  predicate LedgerCall(op: Op) {
    || op.action.CreateJob? || op.action.ReadJob? || op.action.ReadJobs? || op.action.ClaimJob?
    || op.action.HeartbeatJob?
    || op.action.CompleteJob? || op.action.AddEvent? || op.action.AddReceipt? || op.action.Restart?
  }

  lemma ReceiptKeepsQueue(env: Env, db: Tables, id: Text, q: ReceiptRequest, receiptId: Text, now: Instant)
    ensures QueueSideSame(db, AppendReceiptLocked(env, db, id, q, receiptId, now).db)
  {
    hide AssertLease, Fingerprint, ReceiptDoc, ReceiptNotice, FindReceipt;
    LeaseKeepsQueue(env, db, id, q.coordinatorId, q.leaseToken, now);
  }

  lemma CompletionKeepsQueue(env: Env, db: Tables, id: Text, c: Text, t: Text, state: JobState, output: Json,
                             now: Instant)
    ensures QueueSideSame(db, CompleteLocked(env, db, id, c, t, state, output, now).db)
  {
    hide AssertLease, Fingerprint, CompletionDoc, ResultNotice, ResultBody, WithFingerprint, Sign, Get, Terminal;
    LeaseKeepsQueue(env, db, id, c, t, now);
  }

  lemma LeaseCallKeepsQueue(env: Env, db: Tables, op: Op)
    requires op.action.HeartbeatJob? || op.action.CompleteJob? || op.action.AddEvent? || op.action.AddReceipt?
    ensures QueueSideSame(db, After(env, db, op))
  {
    hide AssertLease, RenewalNotice, Sign, CompleteLocked, AppendReceiptLocked;
    match op.action
    case HeartbeatJob(id, c, t, _) => LeaseKeepsQueue(env, db, id, c, t, op.now);
    case CompleteJob(id, c, t, s, o) => CompletionKeepsQueue(env, db, id, c, t, s, o, op.now);
    case AddEvent(id, c, t, _, _) => LeaseKeepsQueue(env, db, id, c, t, op.now);
    case AddReceipt(id, r, receiptId) => ReceiptKeepsQueue(env, db, id, r, receiptId, op.now);
  }

  lemma ClaimKeepsQueue(env: Env, db: Tables, id: Text, c: Text, seconds: nat, token: Text, now: Instant)
    ensures QueueSideSame(db, ClaimLocked(env, db, id, c, seconds, token, now).db)
  {
    hide GetJob, Decide, LeaseNotice, ExpiryNotice, BlockedRow, LeasedRow, Journal;
    VerifyKeepsQueue(env, db, id, now);
    JournalKeepsQueue(env);
  }

  lemma JournalKeepsQueue(env: Env)
    ensures forall db: Tables, row: Job, kind: string, payload: Json, now: Instant ::
      QueueSideSame(db, Journal(env, db, row, kind, payload, now).db)
  {
    hide Sign;
  }

  lemma LedgerCallKeepsQueue(env: Env, db: Tables, op: Op)
    requires LedgerCall(op)
    ensures QueueSideSame(db, After(env, db, op))
  {
    hide GetJob, CreateLocked, ListJobs, RestartRows, ClaimLocked,
         HeartbeatLocked, CompleteLocked, AppendEventLocked, AppendReceiptLocked;
    match op.action
    case CreateJob(r) => CreateKeepsQueue(env, db, r, op.now);
    case ReadJob(id) => VerifyKeepsQueue(env, db, id, op.now);
    case ReadJobs(rows) =>
      if forall i :: 0 <= i < |rows| ==> rows[i] in db.jobs { ListKeepsQueue(env, db, rows, |rows|, op.now); }
    case ClaimJob(id, c, seconds, token) => ClaimKeepsQueue(env, db, id, c, seconds, token, op.now);
    case Restart(rows) => RestartKeepsQueue(env, db, rows, |rows|, op.now);
    case _ => LeaseCallKeepsQueue(env, db, op);
  }

  lemma {:induction false} ScheduleKeepsQueueRow(env: Env, db: Tables, c: Configuration, os: seq<Observation>, n: nat,
                                                 active: bool, now: Instant)
    requires n <= |os|
    ensures ScheduleMany(env, db, c, os, n, active, now).db.queue == db.queue
    ensures ScheduleMany(env, db, c, os, n, active, now).db.heartbeat == db.heartbeat
  {
    hide ScheduleOne;
    if n > 0 {
      ScheduleKeepsQueueRow(env, db, c, os, n - 1, active, now);
      match ScheduleMany(env, db, c, os, n - 1, active, now)
      case Raised(_, _) =>
      case Done(d, t) => ScheduleOneKeepsQueueRow(env, d, c, os[n - 1], active, t, now);
    }
  }

  lemma ScheduleOneKeepsQueueRow(env: Env, db: Tables, c: Configuration, o: Observation, active: bool, t: Tally,
                                 now: Instant)
    ensures ScheduleOne(env, db, c, o, active, t, now).db.queue == db.queue
    ensures ScheduleOne(env, db, c, o, active, t, now).db.heartbeat == db.heartbeat
  {
    hide CreateLocked, ReadbackRequest, BoundElsewhere, OtherCandidateSameContent;
    CreateKeepsQueue(env, Upsert(db, c.configurationFingerprint, o, now), ReadbackRequest(env, c, o, now), now);
  }

  // ------------------------------------------------ what a call does to the row

  /** A configuration that differs from the enabled one starts a new revision. */
  ghost predicate Reconfigures(db: Tables, op: Op, after: Tables) {
    && op.action.ConfigureQueue? && !Unchanged(db, op.action.configuration) && after.queue.Some?
    && var (c, q') := (op.action.configuration, after.queue.value);
    && q'.enabled && q'.configuration == c && c.authorityExpiresAt > op.now
    && q'.revision == (match db.queue case Some(q) => q.revision + 1 case None => 1)
    && q'.cursor.None? && q'.scan.None? && q'.lastError.None? && q'.nextScanAt == op.now && q'.updatedAt == op.now
  }

  ghost predicate Disables(db: Tables, op: Op, after: Tables) {
    && op.action.DisableQueue? && db.queue.Some? && db.queue.value.enabled
    && after.queue == Some(db.queue.value.(enabled := false, scan := None, updatedAt := op.now))
  }

  /** A scan claim in its time window, from the live worker, on an enabled queue. */
  predicate Claimable(db: Tables, op: Op) {
    && op.action.ClaimQueueScan?
    && op.now - WORKER_TTL <= op.action.claim.claimedAt <= op.now + FUTURE_SKEW
    && LiveWorker(db, op.action.claim, op.action.expected, op.now)
    && db.queue.Some? && db.queue.value.enabled
  }

  /** The claim finds the authority expired, and that is not on record. */
  predicate ExpiryNew(db: Tables, op: Op) {
    && Claimable(db, op) && db.queue.value.configuration.authorityExpiresAt <= op.now
    && db.queue.value.lastError != Some(AUTHORITY_EXPIRED)
  }

  ghost predicate LogsExpiry(db: Tables, op: Op, after: Tables) {
    && ExpiryNew(db, op)
    && after.queue == Some(db.queue.value.(lastError := Some(AUTHORITY_EXPIRED), scan := None, updatedAt := op.now))
    && after.queueEvents
         == db.queueEvents + [AuthorityExpired(db.queue.value.configuration.configurationFingerprint, op.now)]
  }

  predicate LiveScan(q: Queue, now: Instant) {
    q.scan.Some? && q.scan.value.id != [] && q.scan.value.expiresAt > now
  }

  /** A scan is granted: enabled, authorized, due, and no live scan. */
  ghost predicate Grants(env: Env, db: Tables, op: Op, after: Tables) {
    && Claimable(db, op)
    && var (q, a) := (db.queue.value, op.action);
    && q.configuration.authorityExpiresAt > op.now && q.nextScanAt <= op.now
    && !LiveScan(q, op.now)
    && var scan := Scan(a.scanId, a.claim.coordinatorId, env.sha256(a.token), op.now + SCAN_LEASE);
    && after.queue == Some(q.(scan := Some(scan), lastScanStartedAt := Some(op.now), lastError := None,
                              updatedAt := op.now))
  }

  /** A completion is accepted, and the cursor moved forward or kept. */
  ghost predicate Completes(env: Env, db: Tables, op: Op, after: Tables) {
    && op.action.CompleteQueueScan? && ScanValid(env, db.queue, op.action.completion.credential, op.now)
    && var (q, r) := (db.queue.value, op.action.completion);
    && op.now - STALENESS <= r.scannedAt <= op.now + FUTURE_SKEW
    && after.queue.Some?
    && after.queue.value
         == FinishScan(q, after.queue.value.cursor, r.scannedAt, q.configuration.authorityExpiresAt > op.now, op.now)
    && (if r.cursor.Some? && CursorAfter(env, r.cursor.value, q.cursor) == Some(true)
        then after.queue.value.cursor == r.cursor
        else
          && after.queue.value.cursor == q.cursor
          && (r.cursor.Some? ==> CursorAfter(env, r.cursor.value, q.cursor) == Some(false)))
  }

  ghost predicate Fails(env: Env, db: Tables, op: Op, after: Tables) {
    && op.action.FailQueueScan? && ScanValid(env, db.queue, op.action.credential, op.now)
    && op.now - STALENESS <= op.action.failedAt <= op.now + FUTURE_SKEW
    && after.queue == Some(db.queue.value.(nextScanAt := op.action.failedAt + SCAN_INTERVAL,
                                           lastError := Some(op.action.errorCode), scan := None, updatedAt := op.now))
  }

  ghost predicate Rescans(db: Tables, op: Op, after: Tables) {
    && op.action.RequestRescan? && db.queue.Some? && db.queue.value.enabled
    && op.now - STALENESS <= op.action.requestedAt <= op.now + FUTURE_SKEW
    && db.queue.value.configuration.configurationFingerprint == op.action.configurationFingerprint
    && db.queue.value.configuration.authorityExpiresAt > op.now
    && after.queue == Some(db.queue.value.(nextScanAt := Min(db.queue.value.nextScanAt, op.now),
                                           lastError := Some(TERMINAL_READBACK), updatedAt := op.now))
  }

  ghost predicate QueueStep(env: Env, db: Tables, op: Op, after: Tables) {
    || after.queue == db.queue
    || Reconfigures(db, op, after) || Disables(db, op, after) || LogsExpiry(db, op, after) || Grants(env, db, op, after)
    || Completes(env, db, op, after) || Fails(env, db, op, after) || Rescans(db, op, after)
  }

  lemma CompleteCase(env: Env, db: Tables, op: Op)
    requires op.action.CompleteQueueScan?
    ensures Succeeds(env, db, op) ==> Completes(env, db, op, After(env, db, op))
    ensures !Succeeds(env, db, op) ==> After(env, db, op).queue == db.queue
  {
    hide ScheduleMany, ScanValid, CursorAfter;
    var r := op.action.completion;
    ValidQueue(env, db.queue, r.credential, op.now);
    if db.queue.Some? {
      var q := db.queue.value;
      ScheduleKeepsQueueRow(env, db, q.configuration, r.candidates, |r.candidates|,
                            q.configuration.authorityExpiresAt > op.now, op.now);
    }
  }

  lemma ValidQueue(env: Env, queue: Option<Queue>, c: ScanCredential, now: Instant)
    ensures ScanValid(env, queue, c, now) ==>
      queue.Some? && queue.value.scan.Some? && queue.value.scan.value.id == c.scanId
  {
  }

  lemma ClaimScanCase(env: Env, db: Tables, op: Op)
    requires op.action.ClaimQueueScan?
    ensures var after := After(env, db, op);
      after.queue == db.queue || LogsExpiry(db, op, after) || Grants(env, db, op, after)
  {
    hide LiveWorker, After;
    ClaimScanAfter(env, db, op);
  }

  lemma ClaimScanAfter(env: Env, db: Tables, op: Op)
    requires op.action.ClaimQueueScan?
    ensures var (r, a) := (op.action.claim, op.action);
      After(env, db, op) == Commit(db, ClaimScan(env, db, r, a.expected, a.scanId, a.token, op.now)).0
  {
    hide ClaimScan;
  }

  /** The caller is told of a grant exactly when there is one, with the queue's own
      configuration and cursor. */
  lemma GrantAnswered(env: Env, db: Tables, op: Op)
    requires op.action.ClaimQueueScan?
    ensures var (after, r) := Step(env, db, op);
      if r.Ok? && r.value.claim.ScanGranted?
      then Grants(env, db, op, after)
        && r.value.claim == ScanGranted(op.action.scanId, db.queue.value.configuration, db.queue.value.cursor)
      else after.queue == db.queue || LogsExpiry(db, op, after)
  {
    hide LiveWorker;
    var r := op.action.claim;
    var scan := ClaimScan(env, db, r, op.action.expected, op.action.scanId, op.action.token, op.now);
    assert Step(env, db, op).0 == Commit(db, scan).0;
  }

  /** A report on a scan succeeds exactly when it ends that scan; what it takes for a
      completion to succeed is in ScanReports. */
  lemma ReportAnswered(env: Env, db: Tables, op: Op)
    requires op.action.CompleteQueueScan? || op.action.FailQueueScan?
    ensures op.action.CompleteQueueScan? ==> (Succeeds(env, db, op) <==> Completes(env, db, op, After(env, db, op)))
    ensures op.action.FailQueueScan? ==> (Succeeds(env, db, op) <==> Fails(env, db, op, After(env, db, op)))
  {
    if op.action.CompleteQueueScan? {
      hide After, Succeeds, ScanValid, CursorAfter;
      CompleteCase(env, db, op);
      ValidQueue(env, db.queue, op.action.completion.credential, op.now);
    } else {
      hide ScanValid;
      ValidQueue(env, db.queue, op.action.credential, op.now);
    }
  }

  /** The other guards are exact too: a rescan request succeeds, a configuration that
      differs is taken, and an enabled queue is disabled, exactly when the row changes
      in the way named. */
  lemma ChangesExactlyWhen(env: Env, db: Tables, op: Op)
    ensures var after := After(env, db, op);
      && (op.action.RequestRescan? ==> (Succeeds(env, db, op) <==> Rescans(db, op, after)))
      && (op.action.ConfigureQueue? ==>
            (Succeeds(env, db, op) && !Unchanged(db, op.action.configuration) <==> Reconfigures(db, op, after)))
      && (op.action.DisableQueue? ==> (db.queue.Some? && db.queue.value.enabled <==> Disables(db, op, after)))
  {
    hide Unchanged;
  }

  /** An expired authority is logged exactly when a claim finds it and it is not yet on
      record. */
  lemma ExpiryLoggedExactlyWhen(env: Env, db: Tables, op: Op)
    requires op.action.ClaimQueueScan?
    ensures ExpiryNew(db, op) <==> LogsExpiry(db, op, After(env, db, op))
  {
    hide LiveWorker, After;
    ClaimScanAfter(env, db, op);
  }

  lemma OtherQueueCase(env: Env, db: Tables, op: Op)
    requires op.action.BeatWorker? || op.action.ConfigureQueue? || op.action.DisableQueue?
    ensures var after := After(env, db, op);
      after.queue == db.queue || Reconfigures(db, op, after) || Disables(db, op, after)
  {
    hide Unchanged;
  }

  lemma EndQueueCase(env: Env, db: Tables, op: Op)
    requires op.action.FailQueueScan? || op.action.RequestRescan?
    ensures var after := After(env, db, op);
      after.queue == db.queue || Fails(env, db, op, after) || Rescans(db, op, after)
  {
    hide ScanValid;
    if op.action.FailQueueScan? { ValidQueue(env, db.queue, op.action.credential, op.now); }
  }

  /** Every call but tampering leaves the queue row or makes one of seven changes. */
  lemma QueueStepCases(env: Env, db: Tables, op: Op)
    requires !op.action.Tamper?
    ensures QueueStep(env, db, op, After(env, db, op))
  {
    hide After, Completes, Grants, LogsExpiry, Disables, Reconfigures, Fails, Rescans, Succeeds;
    if LedgerCall(op) { LedgerCallKeepsQueue(env, db, op); }
    else if op.action.CompleteQueueScan? { CompleteCase(env, db, op); }
    else if op.action.ClaimQueueScan? { ClaimScanCase(env, db, op); }
    else if op.action.FailQueueScan? || op.action.RequestRescan? { EndQueueCase(env, db, op); }
    else { OtherQueueCase(env, db, op); }
  }
}
