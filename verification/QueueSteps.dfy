/**
 What the scan-queue calls and a restart can do: no job there was is touched, the
 candidate rows only grow, and the invariant is kept.
 */
module QueueSteps {
  import opened Outcomes
  import opened PyText
  import opened StoreTables
  import opened Ledger
  import opened ScanQueue
  import opened Coordinator
  import opened StoreInvariant
  import opened StoreSteps

  /** The row's bindings are the same, and a readback job once set stays. */
  predicate CandidateKept(before: Candidate, after: Candidate) {
    && after.configurationFingerprint == before.configurationFingerprint
    && after.observation == before.observation && after.firstSeenAt == before.firstSeenAt
    && (before.readbackJobId.Some? ==> after.readbackJobId == before.readbackJobId)
  }

  ghost predicate CandidatesKept(db: Tables, after: Tables) {
    forall k :: k in db.candidates ==> k in after.candidates && CandidateKept(db.candidates[k], after.candidates[k])
  }

  lemma CandidatesOnlySound(env: Env, db: Tables, after: Tables)
    requires Sound(env, db) && after == db.(candidates := after.candidates) && LinksSound(env, after)
    ensures Sound(env, after) && AllKept(db, after)
  {
    hide LinksSound, TerminalLogged, ReceiptBound, RowsSound, KeysUnique;
    SameJobs(env, db, after);
    TerminalKept(db, after);
  }

  lemma UpsertSound(env: Env, db: Tables, cfp: Text, o: Observation, now: Instant)
    requires Sound(env, db)
    ensures var after := Upsert(db, cfp, o, now);
            Sound(env, after) && AllKept(db, after) && CandidatesKept(db, after)
  {
    hide NamesCandidate, RowsSound, KeysUnique, EventsSound, TerminalLogged, ReceiptsSound;
    var after := Upsert(db, cfp, o, now);
    forall k | k in after.candidates ensures LinkSound(env, after, k) {
      if k in db.candidates { assert LinkSound(env, db, k); }
    }
    CandidatesOnlySound(env, db, after);
  }

  lemma LinkKeepsSound(env: Env, db: Tables, k: Text, jobId: Text)
    requires Sound(env, db) && k in db.candidates && db.candidates[k].readbackJobId.None?
    requires jobId in db.jobs && NamesCandidate(env, db.jobs[jobId].request.idempotencyKey, k)
    ensures var after := Link(db, k, jobId);
            Sound(env, after) && AllKept(db, after) && CandidatesKept(db, after)
  {
    hide NamesCandidate, RowsSound, KeysUnique, EventsSound, TerminalLogged, ReceiptsSound;
    var after := Link(db, k, jobId);
    forall i | i in after.candidates ensures LinkSound(env, after, i) {
      assert LinkSound(env, db, i);
    }
    CandidatesOnlySound(env, db, after);
  }

  lemma KeptTransitive(a: Tables, b: Tables, c: Tables, now: Instant)
    requires AllKept(a, b) && AllKept(b, c)
    ensures AllKept(a, c)
    ensures NewQueued(a, b, now) && NewQueued(b, c, now) ==> NewQueued(a, c, now)
  {
    forall j | j in a.jobs ensures Kept(a, c, j) {
      assert Kept(a, b, j) && Kept(b, c, j);
    }
  }

  lemma CandidatesTransitive(a: Tables, b: Tables, c: Tables)
    requires CandidatesKept(a, b) && CandidatesKept(b, c)
    ensures CandidatesKept(a, c)
  {
  }

  /** What the candidate loop leaves, compared with what it found. */
  ghost predicate Scheduled(env: Env, db: Tables, after: Tables, active: bool, now: Instant) {
    && Sound(env, after) && AllKept(db, after) && NewQueued(db, after, now) && CandidatesKept(db, after)
    && after.queue == db.queue && after.heartbeat == db.heartbeat && after.quarantined == db.quarantined
    && (!active ==> after.jobs == db.jobs)
  }

  lemma ScheduledTransitive(env: Env, a: Tables, b: Tables, c: Tables, active: bool, now: Instant)
    requires Scheduled(env, a, b, active, now) && Scheduled(env, b, c, active, now)
    ensures Scheduled(env, a, c, active, now)
  {
    hide Sound, Kept, CandidateKept;
    KeptTransitive(a, b, c, now);
    CandidatesTransitive(a, b, c);
  }

  lemma ReadbackNames(env: Env, c: Configuration, o: Observation, now: Instant)
    ensures ReadbackRequest(env, c, o, now).idempotencyKey == ReadbackKey(env, c, o)
    ensures NamesCandidate(env, ReadbackKey(env, c, o), o.candidateFingerprint)
  {
    hide ReadbackKey, ReadbackPayload, CapabilityDoc, MissionId, NodeId;
  }

  lemma UpsertedStep(env: Env, db: Tables, c: Configuration, o: Observation, active: bool, now: Instant)
    requires Sound(env, db)
    ensures Scheduled(env, db, Upsert(db, c.configurationFingerprint, o, now), active, now)
  {
    hide Sound, AllKept, CandidatesKept;
    UpsertSound(env, db, c.configurationFingerprint, o, now);
  }

  /** A readback job created for a candidate that has none, and linked to it. */
  lemma LinkedStep(env: Env, db: Tables, k: Text, r: Request, now: Instant)
    requires Sound(env, db) && Validates(env, r, now, false) && k in db.candidates
    requires db.candidates[k].readbackJobId.None?
    requires NamesCandidate(env, r.idempotencyKey, k)
    ensures match CreateLocked(env, db, r, now)
            case Raised(_, e) => !e.JobIntegrityInvalid?
            case Done(d, job) =>
              && k in d.candidates && Scheduled(env, db, Link(d, k, job.row.request.id), true, now)
              && forall e :: Scheduled(env, db, LogQueue(Link(d, k, job.row.request.id), e), true, now)
  {
    hide Sound, Kept, CandidatesKept, NamesCandidate, CreateLocked, Fingerprint, RequestDoc;
    CreateSound(env, db, r, now);
    match CreateLocked(env, db, r, now)
    case Raised(_, _) =>
    case Done(d, job) =>
      var linked := Link(d, k, job.row.request.id);
      LinkKeepsSound(env, d, k, job.row.request.id);
      KeptTransitive(db, d, linked, now);
      SameCandidates(db, d, linked);
      forall e ensures Scheduled(env, db, LogQueue(linked, e), true, now) {
        QueueOnlySound(env, linked, LogQueue(linked, e));
        KeptTransitive(db, linked, LogQueue(linked, e), now);
        SameCandidates(linked, LogQueue(linked, e), LogQueue(linked, e));
        CandidatesTransitive(db, linked, LogQueue(linked, e));
      }
  }

  lemma SameCandidates(a: Tables, b: Tables, c: Tables)
    requires a.candidates == b.candidates
    requires CandidatesKept(b, c) || b.candidates == c.candidates
    ensures CandidatesKept(a, c)
  {
  }

  lemma ScheduleOneSound(env: Env, db: Tables, c: Configuration, o: Observation, active: bool, t: Tally, now: Instant)
    requires Sound(env, db)
    ensures match ScheduleOne(env, db, c, o, active, t, now)
            case Raised(_, e) => !e.JobIntegrityInvalid?
            case Done(d, _) => Scheduled(env, db, d, active, now)
  {
    hide Sound, Scheduled, CreateLocked, ReadbackRequest, ReadbackKey, NamesCandidate, BoundElsewhere,
         OtherCandidateSameContent, LogQueue, Link;
    var k := o.candidateFingerprint;
    var seen := Upsert(db, c.configurationFingerprint, o, now);
    UpsertedStep(env, db, c, o, active, now);
    ScheduledIsSound(env, db, seen, active, now);
    var request := ReadbackRequest(env, c, o, now);
    ReadbackNames(env, c, o, now);
    if active && seen.candidates[k].readbackJobId.None? && Validates(env, request, now, false) {
      LinkedStep(env, seen, k, request, now);
      match CreateLocked(env, seen, request, now)
      case Raised(_, _) =>
      case Done(d, job) =>
        var linked := Link(d, k, job.row.request.id);
        ScheduledTransitive(env, db, seen, linked, active, now);
        var logged := CandidateScheduled(c.configurationFingerprint, k, job.row.request.id, now);
        ScheduledTransitive(env, db, seen, LogQueue(linked, logged), active, now);
    }
  }

  lemma ScheduledIsSound(env: Env, db: Tables, after: Tables, active: bool, now: Instant)
    requires Scheduled(env, db, after, active, now)
    ensures Sound(env, after) && after.queue == db.queue && CandidatesKept(db, after)
  {
  }

  lemma ScheduledReflexive(env: Env, db: Tables, active: bool, now: Instant)
    requires Sound(env, db)
    ensures Scheduled(env, db, db, active, now)
  {
    forall j | j in db.jobs ensures Kept(db, db, j) {}
  }

  /** The whole loop: it never quarantines, and what it leaves is Scheduled. */
  lemma {:induction false} ScheduleManySound(env: Env, db: Tables, c: Configuration, os: seq<Observation>, n: nat,
                                             active: bool, now: Instant)
    requires Sound(env, db) && n <= |os|
    ensures match ScheduleMany(env, db, c, os, n, active, now)
            case Raised(_, e) => !e.JobIntegrityInvalid?
            case Done(d, _) => Scheduled(env, db, d, active, now)
  {
    hide Sound, Scheduled, ScheduleOne;
    if n == 0 {
      ScheduledReflexive(env, db, active, now);
    } else {
      ScheduleManySound(env, db, c, os, n - 1, active, now);
      match ScheduleMany(env, db, c, os, n - 1, active, now)
      case Raised(_, _) =>
      case Done(d, t) =>
        ScheduledIsSound(env, db, d, active, now);
        ScheduleOneSound(env, d, c, os[n - 1], active, t, now);
        if ScheduleOne(env, d, c, os[n - 1], active, t, now).Done? {
          ScheduledTransitive(env, db, d, ScheduleOne(env, d, c, os[n - 1], active, t, now).db, active, now);
        }
    }
  }

  // ---------------------------------------------------------- scan completion

  /** A completed scan: what the loop left, with the queue row finished. */
  lemma CompleteScanSound(env: Env, db: Tables, r: CompleteRequest, now: Instant)
    requires Sound(env, db)
    ensures match CompleteScan(env, db, r, now)
            case Raised(_, e) => !e.JobIntegrityInvalid?
            case Done(d, _) =>
              && Sound(env, d) && AllKept(db, d) && NewQueued(db, d, now) && CandidatesKept(db, d)
              && d.heartbeat == db.heartbeat
              && (db.queue.Some? && db.queue.value.configuration.authorityExpiresAt <= now ==> d.jobs == db.jobs)
  {
    hide Sound, Kept, CandidateKept, ScanValid, CursorAfter, ScheduleMany;
    if ScanValid(env, db.queue, r.credential, now) {
      ValidHasQueue(env, db.queue, r.credential, now);
      var q := db.queue.value;
      var active := q.configuration.authorityExpiresAt > now;
      ScheduleManySound(env, db, q.configuration, r.candidates, |r.candidates|, active, now);
      var many := ScheduleMany(env, db, q.configuration, r.candidates, |r.candidates|, active, now);
      if CompleteScan(env, db, r, now).Done? {
        var d := CompleteScan(env, db, r, now).db;
        QueueOnlySound(env, many.db, d);
        KeptTransitive(db, many.db, d, now);
      }
    }
  }

  lemma ValidHasQueue(env: Env, queue: Option<Queue>, c: ScanCredential, now: Instant)
    ensures ScanValid(env, queue, c, now) ==> queue.Some?
  {
  }

  // ------------------------------------------------------------------ restart

  /** Authenticators are never empty. */
  ghost predicate Signing(env: Env) {
    forall row :: env.hmac(row) != []
  }

  /** The grant of the stored request was not issued in the future. */
  predicate IssuedBy(env: Env, row: Job, now: Instant) {
    AuthorizedAt(env, row.request).Some? && AuthorizedAt(env, row.request).value <= now + GRANT_SKEW
  }

  ghost predicate AllIssuedBy(env: Env, db: Tables, now: Instant) {
    forall id :: id in db.jobs ==> IssuedBy(env, db.jobs[id], now)
  }

  lemma RestartRowSound(env: Env, db: Tables, id: Text, now: Instant)
    requires Sound(env, db) && Signing(env) && id in db.jobs && IssuedBy(env, db.jobs[id], now)
    ensures RestartRow(env, db, id, now) == Done(db, ())
  {
    hide Fingerprint, RequestDoc, AuthorizedAt, StateShaped, KeysUnique, EventsSound, TerminalLogged, ReceiptsSound,
         LinksSound, QuarantineJob;
  }

  /** Restarting on sound tables changes nothing, while the clock has not been set
      back before the issue of a grant. */
  lemma {:induction false} RestartSound(env: Env, db: Tables, rows: seq<Text>, n: nat, now: Instant)
    requires Sound(env, db) && Signing(env) && n <= |rows| && AllIssuedBy(env, db, now)
    ensures RestartRows(env, db, rows, n, now) == Done(db, ())
  {
    hide Sound, RestartRow, IssuedBy;
    if n > 0 {
      RestartSound(env, db, rows, n - 1, now);
      if rows[n - 1] in db.jobs { RestartRowSound(env, db, rows[n - 1], now); }
    }
  }

  // ------------------------------------------------------------------ any call

  /** What the request schemas have checked before a call. */
  predicate Validated(env: Env, op: Op) {
    && (op.action.CreateJob? ==> Validates(env, op.action.request, op.now, false))
    && (op.action.ClaimJob? ==> op.action.coordinator != [] && 5 <= op.action.leaseSeconds <= 300)
    && (op.action.HeartbeatJob? ==> 5 <= op.action.leaseSeconds <= 300)
  }

  /** A restart reads a clock that no stored job's creation is ahead of. */
  ghost predicate Timely(db: Tables, op: Op) {
    op.action.Restart? ==> forall id :: id in db.jobs ==> db.jobs[id].createdAt <= op.now
  }

  lemma TimelyIssued(env: Env, db: Tables, op: Op)
    requires Sound(env, db) && op.action.Restart? && Timely(db, op)
    ensures AllIssuedBy(env, db, op.now)
  {
    hide KeysUnique, EventsSound, TerminalLogged, ReceiptsSound, LinksSound, StateShaped, Authentic, Fingerprint,
         ExpiryAllowed;
  }

  ghost predicate LedgerSame(db: Tables, after: Tables) {
    && after.jobs == db.jobs && after.events == db.events && after.eventSeq == db.eventSeq
    && after.receipts == db.receipts && after.candidates == db.candidates
  }

  lemma ConfigureFrame(db: Tables, c: Configuration, now: Instant)
    ensures LedgerSame(db, Configure(db, c, now).db)
  {
  }

  lemma WorkerFrame(db: Tables, coordinator: Text, catalog: Text, polledAt: Instant, expected: Text, now: Instant)
    ensures LedgerSame(db, HeartbeatWorker(db, coordinator, catalog, polledAt, expected, now).db)
  {
  }

  lemma ConfigureCallFrame(env: Env, db: Tables, op: Op)
    requires op.action.BeatWorker? || op.action.ConfigureQueue? || op.action.DisableQueue?
    ensures LedgerSame(db, After(env, db, op))
  {
    hide Configure, HeartbeatWorker;
    match op.action
    case ConfigureQueue(c) => ConfigureFrame(db, c, op.now);
    case BeatWorker(coordinator, catalog, polledAt, expected) =>
      WorkerFrame(db, coordinator, catalog, polledAt, expected, op.now);
    case DisableQueue =>
  }

  lemma ClaimScanFrame(env: Env, db: Tables, r: ClaimRequest, expected: Text, scanId: Text, token: Text, now: Instant)
    ensures LedgerSame(db, ClaimScan(env, db, r, expected, scanId, token, now).db)
  {
    hide LiveWorker;
  }

  lemma FailScanFrame(env: Env, db: Tables, c: ScanCredential, failedAt: Instant, errorCode: string, now: Instant)
    ensures LedgerSame(db, FailScan(env, db, c, failedAt, errorCode, now).db)
  {
  }

  lemma RescanFrame(db: Tables, cfp: Text, requestedAt: Instant, now: Instant)
    ensures LedgerSame(db, Rescan(db, cfp, requestedAt, now).db)
  {
    hide Min;
  }

  lemma ScanCallFrame(env: Env, db: Tables, op: Op)
    requires op.action.ClaimQueueScan? || op.action.FailQueueScan? || op.action.RequestRescan?
    ensures LedgerSame(db, After(env, db, op))
  {
    hide ClaimScan, FailScan, Rescan;
    match op.action
    case ClaimQueueScan(r, expected, scanId, token) => ClaimScanFrame(env, db, r, expected, scanId, token, op.now);
    case FailQueueScan(c, failedAt, errorCode) => FailScanFrame(env, db, c, failedAt, errorCode, op.now);
    case RequestRescan(cfp, requestedAt) => RescanFrame(db, cfp, requestedAt, op.now);
  }

  lemma QueueCallSound(env: Env, db: Tables, op: Op)
    requires Sound(env, db) && LedgerSame(db, After(env, db, op))
    ensures Sound(env, After(env, db, op)) && JobSteps(env, db, op, After(env, db, op))
  {
    hide Sound, JobSteps, AllKept, After;
    QueueOnlySound(env, db, After(env, db, op));
    KeptStep(env, db, op, After(env, db, op));
  }

  lemma CompleteScanStepSound(env: Env, db: Tables, op: Op)
    requires Sound(env, db) && op.action.CompleteQueueScan?
    ensures Sound(env, After(env, db, op)) && JobSteps(env, db, op, After(env, db, op))
    ensures CandidatesKept(db, After(env, db, op))
  {
    hide Sound, JobSteps, Kept, CompleteScan;
    CompleteScanSound(env, db, op.action.completion, op.now);
    SameTablesStep(env, db, op);
    if CompleteScan(env, db, op.action.completion, op.now).Done? {
      KeptStep(env, db, op, After(env, db, op));
    }
  }

  /** Every call, short of tampering, keeps the invariant and takes each job
      through one of the changes of JobStep. */
  lemma StepSound(env: Env, db: Tables, op: Op)
    requires Sound(env, db) && Signing(env) && Validated(env, op) && !op.action.Tamper? && Timely(db, op)
    ensures Sound(env, After(env, db, op)) && JobSteps(env, db, op, After(env, db, op))
  {
    hide Sound, JobSteps, LedgerSame;
    match op.action
    case CreateJob(_) => CreateStepSound(env, db, op);
    case ReadJob(_) => ReadStepSound(env, db, op);
    case ReadJobs(_) => ReadStepSound(env, db, op);
    case ClaimJob(_, _, _, _) => ClaimStepSound(env, db, op);
    case HeartbeatJob(_, _, _, _) => HeartbeatStepSound(env, db, op);
    case CompleteJob(_, _, _, _, _) => CompleteStepSound(env, db, op);
    case AddEvent(_, _, _, _, _) => EventStepSound(env, db, op);
    case AddReceipt(_, _, _) => ReceiptStepSound(env, db, op);
    case CompleteQueueScan(_) => CompleteScanStepSound(env, db, op);
    case Restart(rows) =>
      TimelyIssued(env, db, op);
      RestartSound(env, db, rows, |rows|, op.now);
      SameTablesStep(env, db, op);
    case BeatWorker(_, _, _, _) => ConfigureCallFrame(env, db, op); QueueCallSound(env, db, op);
    case ConfigureQueue(_) => ConfigureCallFrame(env, db, op); QueueCallSound(env, db, op);
    case DisableQueue => ConfigureCallFrame(env, db, op); QueueCallSound(env, db, op);
    case _ => ScanCallFrame(env, db, op); QueueCallSound(env, db, op);
  }
}
