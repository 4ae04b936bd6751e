/**
 In a run without tampering the quarantine table stays empty: no call ever finds a
 row whose authenticator does not match, and no job is ever removed.
 */
module QuarantineRuns {
  import opened Outcomes
  import opened PyText
  import opened Canonical
  import opened StoreTables
  import opened Ledger
  import opened ScanQueue
  import opened Coordinator
  import opened StoreInvariant
  import opened StoreSteps
  import opened QueueSteps
  import opened LeaseRuns

  ghost predicate NoneAdded(db: Tables, after: Tables) {
    after.quarantined == db.quarantined
  }

  lemma JournalAddsNone(env: Env, db: Tables, row: Job, kind: string, payload: Json, now: Instant)
    ensures NoneAdded(db, Journal(env, db, row, kind, payload, now).db)
  {
  }

  lemma CreateAddsNone(env: Env, db: Tables, r: Request, now: Instant)
    requires Sound(env, db)
    ensures NoneAdded(db, CreateLocked(env, db, r, now).db)
  {
    hide Sound, Fingerprint, RequestDoc, RequireIntegrity, InsertJob;
    match FindByKey(db.jobs, r.idempotencyKey)
    case Some(id) => NoQuarantine(env, db, id, now);
    case None => InsertAddsNone(env, db, r, now);
  }

  lemma InsertAddsNone(env: Env, db: Tables, r: Request, now: Instant)
    ensures forall fp :: NoneAdded(db, InsertJob(env, db, r, fp, now).db)
  {
    hide QueuedNotice, NewRow, Sign;
  }

  lemma ClaimAddsNone(env: Env, db: Tables, op: Op)
    requires Sound(env, db) && op.action.ClaimJob?
    ensures NoneAdded(db, After(env, db, op))
  {
    hide Sound, After, Succeeds, Decide, Journal, BlockedRow, LeasedRow, ExpiryNotice, LeaseNotice;
    var (id, a, now) := (op.action.id, op.action, op.now);
    if id in db.jobs {
      SoundRow(env, db, id);
      ClaimEffect(env, db, op);
      JournalAddsNone(env, db, BlockedRow(db.jobs[id], now), "job_blocked", ExpiryNotice(), now);
      JournalAddsNone(env, db, LeasedRow(env, db.jobs[id], a.coordinator, a.token, a.leaseSeconds, now),
                      "lease_acquired",
                      LeaseNotice(env, a.coordinator, now + a.leaseSeconds * SECOND), now);
    } else {
      UnknownClaim(env, db, op);
    }
  }

  lemma CompletionAddsNone(env: Env, db: Tables, id: Text, c: Text, t: Text, state: JobState, output: Json,
                           now: Instant)
    requires Sound(env, db)
    ensures NoneAdded(db, CompleteLocked(env, db, id, c, t, state, output, now).db)
  {
    hide Sound, AssertLease, LeaseValid, Fingerprint, CompletionDoc, ResultNotice, ResultBody, WithFingerprint, Sign,
         Get, Terminal;
    LeaseChecked(env, db, id, c, t, now);
  }

  lemma ReceiptAddsNone(env: Env, db: Tables, id: Text, q: ReceiptRequest, receiptId: Text, now: Instant)
    requires Sound(env, db)
    ensures NoneAdded(db, AppendReceiptLocked(env, db, id, q, receiptId, now).db)
  {
    hide Sound, AssertLease, LeaseValid, Fingerprint, ReceiptDoc, ReceiptNotice, FindReceipt;
    LeaseChecked(env, db, id, q.coordinatorId, q.leaseToken, now);
  }

  lemma LeaseCallAddsNone(env: Env, db: Tables, op: Op)
    requires Sound(env, db)
    requires op.action.HeartbeatJob? || op.action.CompleteJob? || op.action.AddEvent? || op.action.AddReceipt?
    ensures NoneAdded(db, After(env, db, op))
  {
    hide Sound, AssertLease, LeaseValid, RenewalNotice, Sign, CompleteLocked, AppendReceiptLocked;
    match op.action
    case HeartbeatJob(id, c, t, _) => LeaseChecked(env, db, id, c, t, op.now);
    case CompleteJob(id, c, t, s, o) => CompletionAddsNone(env, db, id, c, t, s, o, op.now);
    case AddEvent(id, c, t, _, _) => LeaseChecked(env, db, id, c, t, op.now);
    case AddReceipt(id, q, receiptId) => ReceiptAddsNone(env, db, id, q, receiptId, op.now);
  }

  lemma ScheduleOneAddsNone(env: Env, db: Tables, c: Configuration, o: Observation, active: bool, t: Tally,
                            now: Instant)
    requires Sound(env, db)
    ensures NoneAdded(db, ScheduleOne(env, db, c, o, active, t, now).db)
  {
    hide Sound, CreateLocked, ReadbackRequest, BoundElsewhere, OtherCandidateSameContent, AllKept, CandidatesKept;
    var seen := Upsert(db, c.configurationFingerprint, o, now);
    UpsertSound(env, db, c.configurationFingerprint, o, now);
    CreateAddsNone(env, seen, ReadbackRequest(env, c, o, now), now);
  }

  lemma {:induction false} ScheduleManyAddsNone(env: Env, db: Tables, c: Configuration, os: seq<Observation>, n: nat,
                                                active: bool, now: Instant)
    requires Sound(env, db) && n <= |os|
    ensures NoneAdded(db, ScheduleMany(env, db, c, os, n, active, now).db)
  {
    hide Sound, ScheduleOne, Scheduled;
    if n > 0 {
      ScheduleManyAddsNone(env, db, c, os, n - 1, active, now);
      ScheduleManySound(env, db, c, os, n - 1, active, now);
      match ScheduleMany(env, db, c, os, n - 1, active, now)
      case Raised(_, _) =>
      case Done(d, t) =>
        ScheduledIsSound(env, db, d, active, now);
        ScheduleOneAddsNone(env, d, c, os[n - 1], active, t, now);
    }
  }

  lemma CompleteScanAddsNone(env: Env, db: Tables, r: CompleteRequest, now: Instant)
    requires Sound(env, db)
    ensures NoneAdded(db, CompleteScan(env, db, r, now).db)
  {
    hide Sound, ScheduleMany, CursorAfter, FinishScan;
    if db.queue.Some? {
      var q := db.queue.value;
      ScheduleManyAddsNone(env, db, q.configuration, r.candidates, |r.candidates|,
                           q.configuration.authorityExpiresAt > now, now);
    }
  }

  lemma ClaimScanAddsNone(env: Env, db: Tables, r: ClaimRequest, expected: Text, scanId: Text, token: Text,
                          now: Instant)
    ensures NoneAdded(db, ClaimScan(env, db, r, expected, scanId, token, now).db)
  {
    hide LiveWorker;
  }

  lemma SettingCallAddsNone(env: Env, db: Tables, op: Op)
    requires op.action.BeatWorker? || op.action.ConfigureQueue? || op.action.DisableQueue?
    ensures NoneAdded(db, After(env, db, op))
  {
    hide Configure, HeartbeatWorker;
    match op.action
    case ConfigureQueue(c) => SettingsAddNone(db, c, [], [], 0, [], op.now);
    case BeatWorker(coordinator, catalog, polledAt, expected) =>
      SettingsAddNone(db, Configuration([], [], Null, [], 0, [], []), coordinator, catalog, polledAt, expected, op.now);
    case DisableQueue =>
  }

  lemma ScanCallAddsNone(env: Env, db: Tables, op: Op)
    requires Sound(env, db)
    requires op.action.ClaimQueueScan? || op.action.CompleteQueueScan? || op.action.FailQueueScan?
      || op.action.RequestRescan?
    ensures NoneAdded(db, After(env, db, op))
  {
    hide Sound, CompleteScan, ClaimScan, FailScan, Rescan;
    match op.action
    case ClaimQueueScan(r, expected, scanId, token) => ClaimScanAddsNone(env, db, r, expected, scanId, token, op.now);
    case CompleteQueueScan(r) => CompleteScanAddsNone(env, db, r, op.now);
    case FailQueueScan(c, failedAt, errorCode) => ReportsAddNone(env, db, c, failedAt, errorCode, [], op.now);
    case RequestRescan(cfp, at) => ReportsAddNone(env, db, ScanCredential([], [], [], []), at, "", cfp, op.now);
  }

  lemma SettingsAddNone(db: Tables, c: Configuration, coordinator: Text, catalog: Text, polledAt: Instant,
                        expected: Text, now: Instant)
    ensures NoneAdded(db, Configure(db, c, now).db)
    ensures NoneAdded(db, HeartbeatWorker(db, coordinator, catalog, polledAt, expected, now).db)
  {
    hide Unchanged;
  }

  lemma ReportsAddNone(env: Env, db: Tables, c: ScanCredential, at: Instant, errorCode: string, cfp: Text, now: Instant)
    ensures NoneAdded(db, FailScan(env, db, c, at, errorCode, now).db)
    ensures NoneAdded(db, Rescan(db, cfp, at, now).db)
  {
    hide Min;
  }

  lemma StepAddsNone(env: Env, db: Tables, op: Op)
    requires Sound(env, db) && Signing(env) && !op.action.Tamper? && Timely(db, op)
    ensures NoneAdded(db, After(env, db, op))
  {
    hide Sound, CreateLocked, RestartRows;
    match op.action
    case CreateJob(r) => CreateAddsNone(env, db, r, op.now);
    case ReadJob(_) => ReadStepSound(env, db, op);
    case ReadJobs(_) => ReadStepSound(env, db, op);
    case ClaimJob(_, _, _, _) => ClaimAddsNone(env, db, op);
    case Restart(rows) =>
      TimelyIssued(env, db, op);
      RestartSound(env, db, rows, |rows|, op.now);
    case _ =>
      if op.action.HeartbeatJob? || op.action.CompleteJob? || op.action.AddEvent? || op.action.AddReceipt? {
        LeaseCallAddsNone(env, db, op);
      } else if op.action.BeatWorker? || op.action.ConfigureQueue? || op.action.DisableQueue? {
        SettingCallAddsNone(env, db, op);
      } else {
        ScanCallAddsNone(env, db, op);
      }
  }

  /** Quarantine never fires: after any untampered run its table is empty. */
  lemma {:induction false} NothingQuarantined(env: Env, trace: seq<Tables>, ops: seq<Op>, k: nat)
    requires Lawful(env, trace, ops) && k <= |ops| && |trace| == |ops| + 1
    ensures trace[k].quarantined == map[]
  {
    hide Sound, JobSteps, After, Validated, Signing, CreatedDuring, Timely, RestartsOnTime;
    if k > 0 {
      NothingQuarantined(env, trace, ops, k - 1);
      RunSound(env, trace, ops, k - 1);
      RestartTimely(trace[k - 1], ops, k - 1);
      RunStep(env, trace, ops, k - 1);
      StepAddsNone(env, trace[k - 1], ops[k - 1]);
    }
  }

  /** Every stored receipt, in every reachable state, carries the fingerprint of its
      own job and payload, and no two agree in all that makes a receipt unique. */
  lemma ReceiptsCarryTheirFingerprint(env: Env, trace: seq<Tables>, ops: seq<Op>, k: nat, rid: Text, other: Text)
    requires Lawful(env, trace, ops) && k <= |ops| && |trace| == |ops| + 1
    requires rid in trace[k].receipts && other in trace[k].receipts
    ensures var r := trace[k].receipts[rid];
      && r.jobId in trace[k].jobs && r.provider == trace[k].jobs[r.jobId].request.executionHost
      && Fingerprint(env, ReceiptDoc(trace[k].jobs[r.jobId].request, r.provider, r.operation, r.status, r.payload))
           == Some(r.fingerprint)
    ensures SameReceiptKey(trace[k].receipts[rid], trace[k].receipts[other]) ==> rid == other
  {
    hide Lawful, Fingerprint, ReceiptDoc, RowsSound, KeysUnique, EventsSound, TerminalLogged, LinksSound;
    RunSound(env, trace, ops, k);
  }
}
