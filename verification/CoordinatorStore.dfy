/**
 The coordinator store itself: an object whose methods update its tables row by
 row inside transactions.  Each method is proved to do to the tables, and to
 answer, exactly what the functions of Ledger and ScanQueue say.
 */
module CoordinatorStoreObject {
  import opened Outcomes
  import opened PyText
  import opened Canonical
  import opened StoreTables
  import opened Ledger
  import opened ScanQueue
  import opened Coordinator
  import opened StoreInvariant

  /** A method raised or returned where the function does, with its tables. */
  ghost predicate Matches<T>(a: Attempt<T>, db: Tables, r: Result<T>) {
    match a
    case Done(d, v) => db == d && r == Ok(v)
    case Raised(d, e) => db == d && r == Err(e)
  }

  /** The UNIQUE constraints of the schema, and ids stored under themselves. */
  ghost predicate Schema(db: Tables) {
    && (forall id :: id in db.jobs ==> db.jobs[id].request.id == id)
    && KeysUnique(db)
    && (forall j, k :: j in db.receipts && k in db.receipts && SameReceiptKey(db.receipts[j], db.receipts[k]) ==>
        j == k)
  }

  class CoordinatorStore {
    const env: Env

    var jobs: map<Text, Job>
    var events: map<nat, Event>
    var eventSeq: nat
    var receipts: map<Text, Receipt>
    var quarantined: map<Text, Quarantine>
    var heartbeat: Option<Heartbeat>
    var queue: Option<Queue>
    var candidates: map<Text, Candidate>
    var queueEvents: seq<QueueEvent>

    /** The tables as they were at BEGIN IMMEDIATE. */
    var snapshot: Tables

    function Contents(): Tables
      reads this
    {
      Tables(jobs, events, eventSeq, receipts, quarantined, heartbeat, queue, candidates, queueEvents)
    }

    ghost predicate Valid()
      reads this
    {
      Schema(Contents())
    }

    constructor (env: Env)
      ensures this.env == env && Contents() == EMPTY && Valid()
    {
      this.env := env;
      jobs, events, eventSeq, receipts, quarantined := map[], map[], 0, map[], map[];
      heartbeat, queue, candidates, queueEvents := None, None, map[], [];
      snapshot := EMPTY;
    }

    // ---------------------------------------------------------- transactions

    method Begin()
      modifies this
      ensures Contents() == old(Contents()) && snapshot == old(Contents())
    {
      snapshot := Contents();
    }

    /** COMMIT, or ROLLBACK to the snapshot. */
    method End<T>(r: Result<T>)
      modifies this
      ensures Contents() == if r.Ok? || r.error.JobIntegrityInvalid? then old(Contents()) else old(snapshot)
    {
      if r.Err? && !r.error.JobIntegrityInvalid? {
        jobs, events, eventSeq, receipts, quarantined :=
          snapshot.jobs, snapshot.events, snapshot.eventSeq, snapshot.receipts, snapshot.quarantined;
        heartbeat, queue, candidates, queueEvents :=
          snapshot.heartbeat, snapshot.queue, snapshot.candidates, snapshot.queueEvents;
      }
    }

    // ------------------------------------------------------ rows and integrity

    method QuarantineJobLocked(id: Text, reason: string, now: Instant) returns (r: Result<()>)
      requires Valid() && id in jobs
      modifies this
      ensures Valid() && snapshot == old(snapshot)
      ensures Matches(QuarantineJob(env, old(Contents()), id, reason, now), Contents(), r)
    {
      quarantined := quarantined[id := QuarantineRow(env, jobs[id], reason, now)];
      if Referenced(Contents(), id) {
        return Err(ConstraintFailed);
      }
      jobs := jobs - {id};
      events := map s | s in events && events[s].jobId != id :: events[s];
      receipts := map k | k in receipts && receipts[k].jobId != id :: receipts[k];
      return Ok(());
    }

    method RequireIntegrityLocked(id: Text, now: Instant) returns (r: Result<Job>)
      requires Valid() && id in jobs
      modifies this
      ensures Valid() && snapshot == old(snapshot)
      ensures Matches(RequireIntegrity(env, old(Contents()), id, now), Contents(), r)
      ensures r.Ok? ==> Contents() == old(Contents())
    {
      if Authentic(env, jobs[id]) {
        return Ok(jobs[id]);
      }
      var gone :- QuarantineJobLocked(id, "integrity_authenticator_mismatch", now);
      return Err(JobIntegrityInvalid);
    }

    method AppendEventLocked(id: Text, kind: string, payload: Json, now: Instant) returns (r: Result<nat>)
      requires Valid()
      modifies this
      ensures Valid() && snapshot == old(snapshot)
      ensures Matches(Ledger.AppendEvent(env, old(Contents()), id, kind, payload, now), Contents(), r)
    {
      var clean := env.sanitizeEvent(kind, payload);
      if clean.None? || !Safe(clean.value) {
        return Err(Rejected);
      }
      if id !in jobs {
        return Err(ConstraintFailed);
      }
      eventSeq := eventSeq + 1;
      events := events[eventSeq := Event(id, kind, clean.value, now)];
      return Ok(eventSeq);
    }

    /** UPDATE jobs, refresh the authenticator, append the event. */
    method JournalLocked(row: Job, kind: string, payload: Json, now: Instant) returns (r: Result<nat>)
      requires Valid() && row.request.id in jobs && row.request == jobs[row.request.id].request
      modifies this
      ensures Valid() && snapshot == old(snapshot)
      ensures Matches(Journal(env, old(Contents()), row, kind, payload, now), Contents(), r)
      ensures r.Ok? ==> row.request.id in jobs && jobs[row.request.id] == Sign(env, row)
    {
      hide Schema;
      jobs := jobs[row.request.id := row];
      jobs := jobs[row.request.id := row.(authenticator := env.hmac(Unsigned(jobs[row.request.id])))];
      assert Contents() == Store(env, old(Contents()), row);
      SchemaRewrite(old(Contents()), Contents(), Sign(env, row));
      r := AppendEventLocked(row.request.id, kind, payload, now);
    }

    /** The row, its first event, and then the row's authenticator. */
    method InsertJobLocked(request: Request, fingerprint: Text, now: Instant) returns (r: Result<Created>)
      requires Valid() && forall id :: id in jobs ==> jobs[id].request.idempotencyKey != request.idempotencyKey
      modifies this
      ensures Valid() && snapshot == old(snapshot)
      ensures Matches(InsertJob(env, old(Contents()), request, fingerprint, now), Contents(), r)
    {
      hide QueuedNotice, Schema;
      if request.id in jobs {
        return Err(ConstraintFailed);
      }
      var row := NewRow(request, fingerprint, now);
      jobs := jobs[request.id := row];
      SchemaInsert(old(Contents()), Contents(), row);
      var queued :- AppendEventLocked(request.id, "job_queued", QueuedNotice(request), now);
      ghost var queuedTables := Contents();
      row := row.(authenticator := env.hmac(Unsigned(row)));
      jobs := jobs[request.id := row];
      SchemaRewrite(queuedTables, Contents(), row);
      return Ok(Created(row, true));
    }

    method CreateJobLocked(request: Request, now: Instant) returns (r: Result<Created>)
      requires Valid()
      modifies this
      ensures Valid() && snapshot == old(snapshot)
      ensures Matches(CreateLocked(env, old(Contents()), request, now), Contents(), r)
    {
      hide Fingerprint, RequestDoc, RequireIntegrity, InsertJob;
      var fingerprint := Fingerprint(env, RequestDoc(request));
      if fingerprint.None? {
        return Err(Rejected);
      }
      if exists id :: id in jobs && jobs[id].request.idempotencyKey == request.idempotencyKey {
        var id :| id in jobs && jobs[id].request.idempotencyKey == request.idempotencyKey;
        assert FindByKey(jobs, request.idempotencyKey) == Some(id);
        var row :- RequireIntegrityLocked(id, now);
        if row.requestFingerprint != fingerprint.value {
          return Err(IdempotencyConflict);
        }
        return Ok(Created(row, false));
      }
      assert FindByKey(jobs, request.idempotencyKey) == None;
      r := InsertJobLocked(request, fingerprint.value, now);
    }

    // ------------------------------------------------------------------- reading

    method GetJobLocked(id: Text, now: Instant) returns (r: Result<Job>)
      requires Valid()
      modifies this
      ensures Valid() && snapshot == old(snapshot)
      ensures Matches(Ledger.GetJob(env, old(Contents()), id, now), Contents(), r)
    {
      if id !in jobs {
        return Err(JobNotFound);
      }
      r := RequireIntegrityLocked(id, now);
    }

    method ListJobsLocked(rows: seq<Text>, now: Instant) returns (r: Result<seq<Job>>)
      requires Valid() && forall i :: 0 <= i < |rows| ==> rows[i] in jobs
      modifies this
      ensures Valid() && snapshot == old(snapshot)
      ensures Matches(Ledger.ListJobs(env, old(Contents()), rows, |rows|, now), Contents(), r)
    {
      hide RequireIntegrity;
      var found := [];
      for i := 0 to |rows|
        invariant Contents() == old(Contents()) && snapshot == old(snapshot)
        invariant Ledger.ListJobs(env, old(Contents()), rows, i, now) == Done(old(Contents()), found)
      {
        ListFailureStays(env, old(Contents()), rows, i + 1, now);
        var row :- RequireIntegrityLocked(rows[i], now);
        found := found + [row];
      }
      return Ok(found);
    }

    method AssertLeaseLocked(id: Text, coordinator: Text, token: Text, now: Instant) returns (r: Result<Job>)
      requires Valid()
      modifies this
      ensures Valid() && snapshot == old(snapshot)
      ensures Matches(AssertLease(env, old(Contents()), id, coordinator, token, now), Contents(), r)
      ensures r.Ok? ==> Contents() == old(Contents()) && id in jobs && r.value == jobs[id] && r.value.request.id == id
    {
      var row :- GetJobLocked(id, now);
      if !LeaseValid(env, row, coordinator, token, now) {
        return Err(JobLeaseInvalid);
      }
      return Ok(row);
    }

    // --------------------------------------------------------------------- claim

    /** The search of the receipts table for the attempt's marker. */
    method HasMarkerLocked(row: Job) returns (found: bool)
      ensures found == HasMarker(env, Contents(), row)
    {
      var attempt := PreparedAttemptOf(row);
      if attempt.None? {
        return false;
      }
      var todo := receipts.Keys;
      while todo != {}
        invariant todo <= receipts.Keys
        invariant forall k :: k in receipts && k !in todo ==> !Marks(env, attempt.value, row.request.id, receipts[k])
        decreases |todo|
      {
        var k :| k in todo;
        if Marks(env, attempt.value, row.request.id, receipts[k]) {
          return true;
        }
        todo := todo - {k};
      }
      return false;
    }

    /** any(...) over the expiry fields; None is a field that does not parse. */
    method AnyExpiredLocked(fields: seq<Json>, now: Instant) returns (r: Option<bool>)
      ensures r == AnyExpired(env, fields, now)
    {
      for i := 0 to |fields|
        invariant AnyExpired(env, fields, now) == AnyExpired(env, fields[i..], now)
      {
        if fields[i].Str? {
          var at := env.instant(fields[i].s);
          if at.None? {
            return None;
          }
          if at.value <= now {
            return Some(true);
          }
        }
        assert fields[i..][1..] == fields[i + 1..];
      }
      return Some(false);
    }

    method ClaimJobLocked(id: Text, coordinator: Text, leaseSeconds: nat, token: Text, now: Instant)
      returns (r: Result<Claimed>)
      requires Valid()
      modifies this
      ensures Valid() && snapshot == old(snapshot)
      ensures Matches(ClaimLocked(env, old(Contents()), id, coordinator, leaseSeconds, token, now), Contents(), r)
    {
      hide Ledger.AppendEvent, Get, AnyExpired, ExpiryFields, HasMarker, ExpiryNotice, LeaseNotice;
      var row :- GetJobLocked(id, now);
      assert Contents() == old(Contents()) && row == jobs[id];
      if Terminal(row.state) {
        return Err(JobLeaseConflict);
      }
      if !Get(row.request.payload, "authorization").Obj? {
        return Err(Malformed);
      }
      var expired := AnyExpiredLocked(ExpiryFields(row.request.payload), now);
      if expired.None? {
        return Err(Malformed);
      }
      var marked := HasMarkerLocked(row);
      if expired.value && !marked {
        var blocked :- JournalLocked(BlockedRow(row, now), "job_blocked", ExpiryNotice(), now);
        return Ok(AuthorizationExpired);
      }
      if ActivelyOwned(row, now) {
        return Err(JobLeaseConflict);
      }
      var leased := LeasedRow(env, row, coordinator, token, leaseSeconds, now);
      var logged :- JournalLocked(leased, "lease_acquired", LeaseNotice(env, coordinator, now + leaseSeconds * SECOND),
                                  now);
      return Ok(Leased(jobs[id]));
    }

    // ------------------------------------------- heartbeat, complete and append

    method HeartbeatJobLocked(id: Text, coordinator: Text, token: Text, leaseSeconds: nat, now: Instant)
      returns (r: Result<Job>)
      requires Valid()
      modifies this
      ensures Valid() && snapshot == old(snapshot)
      ensures Matches(HeartbeatLocked(env, old(Contents()), id, coordinator, token, leaseSeconds, now), Contents(), r)
    {
      hide Schema, Get, AssertLease, Ledger.Journal;
      var row :- AssertLeaseLocked(id, coordinator, token, now);
      var expires := now + leaseSeconds * SECOND;
      var renewed := row.(expiresAt := Some(expires), updatedAt := now);
      var logged :- JournalLocked(renewed, "lease_renewed", RenewalNotice(env, expires), now);
      return Ok(jobs[id]);
    }

    method CompleteJobLocked(id: Text, coordinator: Text, token: Text, state: JobState, output: Json, now: Instant)
      returns (r: Result<Job>)
      requires Valid() && Terminal(state)
      modifies this
      ensures Valid() && snapshot == old(snapshot)
      ensures Matches(CompleteLocked(env, old(Contents()), id, coordinator, token, state, output, now), Contents(), r)
    {
      hide Schema, Get, AssertLease, Ledger.Journal, ResultBody, Fingerprint, CompletionDoc, ResultNotice, TerminalKind,
           WithFingerprint;
      var row :- AssertLeaseLocked(id, coordinator, token, now);
      var clean := env.sanitizeOutput(row.request.executionHost, output);
      if clean.None? {
        return Err(Rejected);
      }
      var body := ResultBody(clean.value);
      var fingerprint := Fingerprint(env, CompletionDoc(row.request, body));
      if fingerprint.None? {
        return Err(Rejected);
      }
      if Get(clean.value, "resultFingerprint") != Str(fingerprint.value) {
        return Err(StoreError);
      }
      var done := CompletedRow(row, state, WithFingerprint(body, fingerprint.value), now);
      var logged :- JournalLocked(done, TerminalKind(state), ResultNotice(fingerprint.value), now);
      return Ok(jobs[id]);
    }

    method AddEventLocked(id: Text, coordinator: Text, token: Text, kind: string, payload: Json, now: Instant)
      returns (r: Result<nat>)
      requires Valid()
      modifies this
      ensures Valid() && snapshot == old(snapshot)
      ensures Matches(Ledger.AppendEventLocked(env, old(Contents()), id, coordinator, token, kind, payload, now),
                      Contents(), r)
    {
      var row :- AssertLeaseLocked(id, coordinator, token, now);
      r := AppendEventLocked(id, kind, payload, now);
    }

    method AddReceiptLocked(id: Text, q: ReceiptRequest, receiptId: Text, now: Instant) returns (r: Result<Recorded>)
      requires Valid()
      modifies this
      ensures Valid() && snapshot == old(snapshot)
      ensures Matches(AppendReceiptLocked(env, old(Contents()), id, q, receiptId, now), Contents(), r)
    {
      hide Ledger.AppendEvent, Fingerprint, ReceiptDoc, ReceiptNotice, Ledger.GetJob, LeaseValid;
      var row :- AssertLeaseLocked(id, q.coordinatorId, q.leaseToken, now);
      if q.provider != row.request.executionHost {
        return Err(StoreError);
      }
      var clean := env.sanitizeReceipt(q.provider, q.payload);
      if clean.None? {
        return Err(Rejected);
      }
      var fingerprint := Fingerprint(env, ReceiptDoc(row.request, q.provider, q.operation, q.status, clean.value));
      if fingerprint.None? {
        return Err(Rejected);
      }
      if q.fingerprint != fingerprint.value {
        return Err(StoreError);
      }
      var receipt := Receipt(id, q.provider, q.operation, q.status, q.fingerprint, clean.value, now);
      if exists k :: k in receipts && SameReceiptKey(receipts[k], receipt) {
        var k :| k in receipts && SameReceiptKey(receipts[k], receipt);
        assert FindReceipt(receipts, receipt) == Some(k);
        return Ok(Recorded(k, receipts[k], false));
      }
      assert FindReceipt(receipts, receipt) == None;
      if receiptId in receipts {
        return Err(Malformed);
      }
      receipts := receipts[receiptId := receipt];
      var logged :- AppendEventLocked(id, "external_receipt_recorded", ReceiptNotice(receiptId, q), now);
      return Ok(Recorded(receiptId, receipt, true));
    }

    // ------------------------------------------------------------ the scan queue

    method HeartbeatWorkerLocked(coordinator: Text, catalog: Text, polledAt: Instant, expected: Text, now: Instant)
      returns (r: Result<()>)
      requires Valid()
      modifies this
      ensures Valid() && snapshot == old(snapshot)
      ensures Matches(HeartbeatWorker(old(Contents()), coordinator, catalog, polledAt, expected, now), Contents(), r)
    {
      if catalog != expected || polledAt > now + FUTURE_SKEW || polledAt < now - WORKER_TTL {
        return Err(StoreError);
      }
      if heartbeat.Some? && heartbeat.value.coordinatorId != coordinator
        && heartbeat.value.receivedAt + WORKER_TTL > now {
        return Err(JobLeaseConflict);
      }
      heartbeat := Some(Heartbeat(coordinator, catalog, polledAt, now));
      return Ok(());
    }

    method ConfigureLocked(c: Configuration, now: Instant) returns (r: Result<()>)
      requires Valid()
      modifies this
      ensures Valid() && snapshot == old(snapshot)
      ensures Matches(Configure(old(Contents()), c, now), Contents(), r)
    {
      if c.authorityExpiresAt <= now {
        return Err(StoreError);
      }
      var revision, createdAt := 1, now;
      if queue.Some? {
        if queue.value.enabled && queue.value.configuration.configurationFingerprint == c.configurationFingerprint {
          return Ok(());
        }
        revision, createdAt := queue.value.revision + 1, queue.value.createdAt;
      }
      queue := Some(Queue(true, c, revision, None, now, None, None, None, None, createdAt, now));
      queueEvents := queueEvents + [Configured(c.configurationFingerprint, now)];
      return Ok(());
    }

    method DisableLocked(now: Instant) returns (r: Result<()>)
      requires Valid()
      modifies this
      ensures Valid() && snapshot == old(snapshot)
      ensures Matches(Disable(old(Contents()), now), Contents(), r)
    {
      if queue.Some? && queue.value.enabled {
        queue := Some(queue.value.(enabled := false, scan := None, updatedAt := now));
        queueEvents := queueEvents + [Disabled(queue.value.configuration.configurationFingerprint, now)];
      }
      return Ok(());
    }

    method ClaimScanLocked(q: ClaimRequest, expected: Text, scanId: Text, token: Text, now: Instant)
      returns (r: Result<ScanClaim>)
      requires Valid()
      modifies this
      ensures Valid() && snapshot == old(snapshot)
      ensures Matches(ClaimScan(env, old(Contents()), q, expected, scanId, token, now), Contents(), r)
    {
      if q.claimedAt > now + FUTURE_SKEW || q.claimedAt < now - WORKER_TTL {
        return Err(StoreError);
      }
      if heartbeat.None? || heartbeat.value.coordinatorId != q.coordinatorId
        || heartbeat.value.catalogFingerprint != q.catalogFingerprint || q.catalogFingerprint != expected
        || heartbeat.value.receivedAt + WORKER_TTL <= now
      {
        return Err(StoreError);
      }
      if queue.None? || !queue.value.enabled {
        return Ok(NotClaimed(QueueDisabled));
      }
      var fingerprint := queue.value.configuration.configurationFingerprint;
      if queue.value.configuration.authorityExpiresAt <= now {
        if queue.value.lastError != Some(AUTHORITY_EXPIRED) {
          queue := Some(queue.value.(lastError := Some(AUTHORITY_EXPIRED), scan := None, updatedAt := now));
          queueEvents := queueEvents + [AuthorityExpired(fingerprint, now)];
        }
        return Ok(NotClaimed(AuthorityGone));
      }
      if queue.value.scan.Some? && queue.value.scan.value.id != [] && queue.value.scan.value.expiresAt > now {
        return Ok(NotClaimed(ScanInProgress));
      }
      if queue.value.nextScanAt > now {
        return Ok(NotClaimed(NotDue));
      }
      var scan := Scan(scanId, q.coordinatorId, env.sha256(token), now + SCAN_LEASE);
      queue := Some(queue.value.(scan := Some(scan), lastScanStartedAt := Some(now), lastError := None,
                                 updatedAt := now));
      queueEvents := queueEvents + [ScanStarted(scanId, fingerprint, now)];
      return Ok(ScanGranted(scanId, queue.value.configuration, queue.value.cursor));
    }

    /** The body of the loop over request.candidates. */
    method ScheduleOneLocked(c: Configuration, o: Observation, active: bool, t: Tally, now: Instant)
      returns (r: Result<Tally>)
      requires Valid()
      modifies this
      ensures Valid() && snapshot == old(snapshot)
      ensures Matches(ScheduleOne(env, old(Contents()), c, o, active, t, now), Contents(), r)
    {
      hide Schema, ScheduleJob, BoundElsewhere, OtherCandidateSameContent;
      var k, fingerprint := o.candidateFingerprint, c.configurationFingerprint;
      var upserted := t.upserted;
      if o.queueProjectId != c.queueProjectId {
        return Err(StoreError);
      }
      if k in candidates {
        if BoundElsewhere(candidates[k], fingerprint, o) {
          return Err(IdempotencyConflict);
        }
        candidates := candidates[k := candidates[k].(lastSeenAt := now)];
      } else {
        if OtherCandidateSameContent(Contents(), fingerprint, o) {
          return Err(ConstraintFailed);
        }
        candidates := candidates[k := Candidate(fingerprint, o, None, now, now)];
        upserted := upserted + 1;
      }
      SameSchema(old(Contents()), Contents());
      if !active || candidates[k].readbackJobId.Some? {
        return Ok(Tally(upserted, t.scheduled));
      }
      r := ScheduleJobLocked(c, o, Tally(upserted, t.scheduled), now);
    }

    /** The job of a candidate that has none: created or found, and linked. */
    method ScheduleJobLocked(c: Configuration, o: Observation, t: Tally, now: Instant) returns (r: Result<Tally>)
      requires Valid() && o.candidateFingerprint in candidates
      modifies this
      ensures Valid() && snapshot == old(snapshot)
      ensures Matches(ScheduleJob(env, old(Contents()), c, o, t, now), Contents(), r)
    {
      hide Schema, CreateLocked, ReadbackRequest;
      var k := o.candidateFingerprint;
      var request := ReadbackRequest(env, c, o, now);
      if !Validates(env, request, now, false) {
        return Err(Rejected);
      }
      CreateKeepsCandidates(env, Contents(), request, now);
      var job :- CreateJobLocked(request, now);
      ghost var created := Contents();
      candidates := candidates[k := candidates[k].(readbackJobId := Some(job.row.request.id))];
      if !job.isNew {
        SameSchema(created, Contents());
        return Ok(t);
      }
      queueEvents := queueEvents + [CandidateScheduled(c.configurationFingerprint, k, job.row.request.id, now)];
      SameSchema(created, Contents());
      return Ok(t.(scheduled := t.scheduled + 1));
    }

    method CompleteScanLocked(q: CompleteRequest, now: Instant) returns (r: Result<Tally>)
      requires Valid()
      modifies this
      ensures Valid() && snapshot == old(snapshot)
      ensures Matches(CompleteScan(env, old(Contents()), q, now), Contents(), r)
    {
      hide Schema, ScheduleOne, CursorAfter, FinishScan;
      if q.scannedAt > now + FUTURE_SKEW || q.scannedAt < now - STALENESS {
        return Err(StoreError);
      }
      if !ScanValid(env, queue, q.credential, now) {
        return Err(JobLeaseInvalid);
      }
      var was := queue.value;
      var c, active := was.configuration, was.configuration.authorityExpiresAt > now;
      var t := Tally(0, 0);
      for i := 0 to |q.candidates|
        invariant Valid() && snapshot == old(snapshot)
        invariant ScheduleMany(env, old(Contents()), c, q.candidates, i, active, now) == Done(Contents(), t)
      {
        ScheduleFailureStays(env, old(Contents()), c, q.candidates, i + 1, active, now);
        t :- ScheduleOneLocked(c, q.candidates[i], active, t, now);
      }
      var later := Some(false);
      if q.cursor.Some? {
        later := CursorAfter(env, q.cursor.value, was.cursor);
      }
      if later.None? {
        return Err(StoreError);
      }
      var cursor := if later.value then q.cursor else was.cursor;
      ghost var scheduled := Contents();
      queue := Some(FinishScan(was, cursor, q.scannedAt, active, now));
      queueEvents := queueEvents
        + [ScanCompleted(q.credential.scanId, c.configurationFingerprint, |q.candidates|, t.upserted, t.scheduled,
                         cursor, now)];
      SameSchema(scheduled, Contents());
      return Ok(t);
    }

    method FailScanLocked(c: ScanCredential, failedAt: Instant, errorCode: string, now: Instant) returns (r: Result<()>)
      requires Valid()
      modifies this
      ensures Valid() && snapshot == old(snapshot)
      ensures Matches(FailScan(env, old(Contents()), c, failedAt, errorCode, now), Contents(), r)
    {
      if failedAt > now + FUTURE_SKEW || failedAt < now - STALENESS {
        return Err(StoreError);
      }
      if !ScanValid(env, queue, c, now) {
        return Err(JobLeaseInvalid);
      }
      queue := Some(queue.value.(nextScanAt := failedAt + SCAN_INTERVAL, lastError := Some(errorCode), scan := None,
                                 updatedAt := now));
      var cfp := queue.value.configuration.configurationFingerprint;
      queueEvents := queueEvents + [ScanFailed(c.scanId, cfp, errorCode, now)];
      return Ok(());
    }

    method RescanLocked(fingerprint: Text, requestedAt: Instant, now: Instant) returns (r: Result<()>)
      requires Valid()
      modifies this
      ensures Valid() && snapshot == old(snapshot)
      ensures Matches(Rescan(old(Contents()), fingerprint, requestedAt, now), Contents(), r)
    {
      if requestedAt > now + FUTURE_SKEW || requestedAt < now - STALENESS {
        return Err(StoreError);
      }
      if queue.None? || !queue.value.enabled
        || queue.value.configuration.configurationFingerprint != fingerprint
        || queue.value.configuration.authorityExpiresAt <= now
      {
        return Err(StoreError);
      }
      queue := Some(queue.value.(nextScanAt := Min(queue.value.nextScanAt, now), lastError := Some(TERMINAL_READBACK),
                                 updatedAt := now));
      queueEvents := queueEvents + [RescanRequested(fingerprint, now)];
      return Ok(());
    }

    // -------------------------------------------------------------------- restart

    method RestartRowLocked(id: Text, now: Instant) returns (r: Result<()>)
      requires Valid() && id in jobs
      modifies this
      ensures Valid()
      ensures Matches(RestartRow(env, old(Contents()), id, now), Contents(), r)
    {
      var row := jobs[id];
      if !Validates(env, row.request, now, true)
        || Fingerprint(env, RequestDoc(row.request)) != Some(row.requestFingerprint) {
        r := QuarantineJobLocked(id, "invalid_persisted_contract", now);
      } else if row.authenticator != [] {
        if !Authentic(env, row) {
          r := QuarantineJobLocked(id, "integrity_authenticator_mismatch", now);
          return;
        }
        r := Ok(());
      } else if !row.request.executionHost.Research? {
        r := QuarantineJobLocked(id, "legacy_effectful_job_missing_integrity", now);
      } else {
        jobs := jobs[id := row.(authenticator := env.hmac(Unsigned(row)))];
        r := Ok(());
      }
    }

    /** _quarantine_invalid_jobs over the rows of one query, outside any
        transaction. */
    method Restart(rows: seq<Text>, now: Instant) returns (r: Result<Reply>)
      requires Valid()
      modifies this
      ensures Valid() && (Contents(), r) == Step(env, old(Contents()), Op(Action.Restart(rows), now))
    {
      hide Schema, RestartRow;
      for i := 0 to |rows|
        invariant Valid()
        invariant RestartRows(env, old(Contents()), rows, i, now) == Done(Contents(), ())
      {
        RestartFailureStays(env, old(Contents()), rows, i + 1, now);
        if rows[i] in jobs {
          var kept :- RestartRowLocked(rows[i], now);
        }
      }
      return Ok(NoReply);
    }

    // ----------------------------------------------------------- the public calls

    method CreateJob(request: Request, now: Instant) returns (r: Result<Reply>)
      requires Valid()
      modifies this
      ensures Valid() && (Contents(), r) == Step(env, old(Contents()), Op(Action.CreateJob(request), now))
    {
      hide Schema, CreateLocked;
      Begin();
      var done := CreateJobLocked(request, now);
      End(done);
      return if done.Ok? then Ok(JobReply(done.value.row)) else Err(done.error);
    }

    method GetJob(id: Text, now: Instant) returns (r: Result<Reply>)
      requires Valid()
      modifies this
      ensures Valid() && (Contents(), r) == Step(env, old(Contents()), Op(Action.ReadJob(id), now))
    {
      hide Schema, Ledger.GetJob;
      Begin();
      var done := GetJobLocked(id, now);
      End(done);
      return if done.Ok? then Ok(JobReply(done.value)) else Err(done.error);
    }

    method ListJobs(rows: seq<Text>, now: Instant) returns (r: Result<Reply>)
      requires Valid() && forall i :: 0 <= i < |rows| ==> rows[i] in jobs
      modifies this
      ensures Valid() && (Contents(), r) == Step(env, old(Contents()), Op(Action.ReadJobs(rows), now))
    {
      hide Schema, Ledger.ListJobs;
      Begin();
      var done := ListJobsLocked(rows, now);
      End(done);
      return if done.Ok? then Ok(JobsReply(done.value)) else Err(done.error);
    }

    method ClaimJob(id: Text, coordinator: Text, leaseSeconds: nat, token: Text, now: Instant)
      returns (r: Result<Reply>)
      requires Valid()
      modifies this
      ensures Valid()
      ensures (Contents(), r)
        == Step(env, old(Contents()), Op(Action.ClaimJob(id, coordinator, leaseSeconds, token), now))
    {
      hide Schema, ClaimLocked;
      Begin();
      var done := ClaimJobLocked(id, coordinator, leaseSeconds, token, now);
      End(done);
      if done.Err? {
        return Err(done.error);
      }
      return if done.value.Leased? then Ok(LeaseReply(done.value.row, token)) else Err(JobLeaseConflict);
    }

    method HeartbeatJob(id: Text, coordinator: Text, token: Text, leaseSeconds: nat, now: Instant)
      returns (r: Result<Reply>)
      requires Valid()
      modifies this
      ensures Valid()
      ensures (Contents(), r)
        == Step(env, old(Contents()), Op(Action.HeartbeatJob(id, coordinator, token, leaseSeconds), now))
    {
      hide Schema, HeartbeatLocked;
      Begin();
      var done := HeartbeatJobLocked(id, coordinator, token, leaseSeconds, now);
      End(done);
      return if done.Ok? then Ok(JobReply(done.value)) else Err(done.error);
    }

    method CompleteJob(id: Text, coordinator: Text, token: Text, state: JobState, output: Json, now: Instant)
      returns (r: Result<Reply>)
      requires Valid()
      modifies this
      ensures Valid()
      ensures (Contents(), r)
        == Step(env, old(Contents()), Op(Action.CompleteJob(id, coordinator, token, state, output), now))
    {
      hide Schema, CompleteLocked;
      if !Terminal(state) {
        UnfinishedRefused(env, Contents(), id, coordinator, token, state, output, now);
        return Err(Malformed);
      }
      Begin();
      var done := CompleteJobLocked(id, coordinator, token, state, output, now);
      End(done);
      return if done.Ok? then Ok(JobReply(done.value)) else Err(done.error);
    }

    method AppendEvent(id: Text, coordinator: Text, token: Text, kind: string, payload: Json, now: Instant)
      returns (r: Result<Reply>)
      requires Valid()
      modifies this
      ensures Valid()
      ensures (Contents(), r)
        == Step(env, old(Contents()), Op(Action.AddEvent(id, coordinator, token, kind, payload), now))
    {
      hide Schema, Ledger.AppendEventLocked;
      Begin();
      var done := AddEventLocked(id, coordinator, token, kind, payload, now);
      End(done);
      return if done.Ok? then Ok(EventReply(done.value)) else Err(done.error);
    }

    method AppendReceipt(id: Text, receipt: ReceiptRequest, receiptId: Text, now: Instant) returns (r: Result<Reply>)
      requires Valid()
      modifies this
      ensures Valid()
      ensures (Contents(), r) == Step(env, old(Contents()), Op(Action.AddReceipt(id, receipt, receiptId), now))
    {
      hide Schema, AppendReceiptLocked;
      Begin();
      var done := AddReceiptLocked(id, receipt, receiptId, now);
      End(done);
      return if done.Ok? then Ok(ReceiptReply(done.value)) else Err(done.error);
    }

    method RecordWorkerHeartbeat(coordinator: Text, catalog: Text, polledAt: Instant, expected: Text, now: Instant)
      returns (r: Result<Reply>)
      requires Valid()
      modifies this
      ensures Valid()
      ensures (Contents(), r)
        == Step(env, old(Contents()), Op(Action.BeatWorker(coordinator, catalog, polledAt, expected), now))
    {
      hide Schema, HeartbeatWorker;
      Begin();
      var done := HeartbeatWorkerLocked(coordinator, catalog, polledAt, expected, now);
      End(done);
      return if done.Ok? then Ok(NoReply) else Err(done.error);
    }

    method ConfigureQueue(c: Configuration, now: Instant) returns (r: Result<Reply>)
      requires Valid()
      modifies this
      ensures Valid() && (Contents(), r) == Step(env, old(Contents()), Op(Action.ConfigureQueue(c), now))
    {
      hide Schema, Configure;
      Begin();
      var done := ConfigureLocked(c, now);
      End(done);
      return if done.Ok? then Ok(NoReply) else Err(done.error);
    }

    method DisableQueue(now: Instant) returns (r: Result<Reply>)
      requires Valid()
      modifies this
      ensures Valid() && (Contents(), r) == Step(env, old(Contents()), Op(Action.DisableQueue, now))
    {
      hide Schema, Disable;
      Begin();
      var done := DisableLocked(now);
      End(done);
      return if done.Ok? then Ok(NoReply) else Err(done.error);
    }

    method ClaimQueueScan(q: ClaimRequest, expected: Text, scanId: Text, token: Text, now: Instant)
      returns (r: Result<Reply>)
      requires Valid()
      modifies this
      ensures Valid()
      ensures (Contents(), r) == Step(env, old(Contents()), Op(Action.ClaimQueueScan(q, expected, scanId, token), now))
    {
      hide Schema, ClaimScan;
      Begin();
      var done := ClaimScanLocked(q, expected, scanId, token, now);
      End(done);
      return if done.Ok? then Ok(ScanReply(done.value)) else Err(done.error);
    }

    method CompleteQueueScan(q: CompleteRequest, now: Instant) returns (r: Result<Reply>)
      requires Valid()
      modifies this
      ensures Valid() && (Contents(), r) == Step(env, old(Contents()), Op(Action.CompleteQueueScan(q), now))
    {
      hide Schema, CompleteScan;
      Begin();
      var done := CompleteScanLocked(q, now);
      End(done);
      return if done.Ok? then Ok(NoReply) else Err(done.error);
    }

    method FailQueueScan(c: ScanCredential, failedAt: Instant, errorCode: string, now: Instant)
      returns (r: Result<Reply>)
      requires Valid()
      modifies this
      ensures Valid()
      ensures (Contents(), r) == Step(env, old(Contents()), Op(Action.FailQueueScan(c, failedAt, errorCode), now))
    {
      hide Schema, FailScan;
      Begin();
      var done := FailScanLocked(c, failedAt, errorCode, now);
      End(done);
      return if done.Ok? then Ok(NoReply) else Err(done.error);
    }

    method RequestRescan(fingerprint: Text, requestedAt: Instant, now: Instant) returns (r: Result<Reply>)
      requires Valid()
      modifies this
      ensures Valid()
      ensures (Contents(), r) == Step(env, old(Contents()), Op(Action.RequestRescan(fingerprint, requestedAt), now))
    {
      hide Schema, Rescan;
      Begin();
      var done := RescanLocked(fingerprint, requestedAt, now);
      End(done);
      return if done.Ok? then Ok(NoReply) else Err(done.error);
    }
  }

  lemma SchemaInsert(db: Tables, after: Tables, row: Job)
    requires Schema(db) && row.request.id !in db.jobs
    requires forall id :: id in db.jobs ==> db.jobs[id].request.idempotencyKey != row.request.idempotencyKey
    requires after.jobs == db.jobs[row.request.id := row] && after.receipts == db.receipts
    ensures Schema(after)
  {
  }

  lemma SchemaRewrite(db: Tables, after: Tables, row: Job)
    requires Schema(db) && row.request.id in db.jobs && row.request == db.jobs[row.request.id].request
    requires after.jobs == db.jobs[row.request.id := row] && after.receipts == db.receipts
    ensures Schema(after)
  {
    KeysKept(db, after);
  }

  lemma UnfinishedRefused(env: Env, db: Tables, id: Text, coordinator: Text, token: Text, state: JobState, output: Json,
                          now: Instant)
    requires !Terminal(state)
    ensures CompleteLocked(env, db, id, coordinator, token, state, output, now) == Raised(db, Malformed)
  {
  }

  lemma SameSchema(db: Tables, after: Tables)
    requires Schema(db) && after.jobs == db.jobs && after.receipts == db.receipts
    ensures Schema(after)
  {
  }

  lemma CreateKeepsCandidates(env: Env, db: Tables, r: Request, now: Instant)
    ensures CreateLocked(env, db, r, now).db.candidates == db.candidates
  {
    hide Fingerprint, RequestDoc, RequireIntegrity, InsertJob;
    match FindByKey(db.jobs, r.idempotencyKey)
    case Some(id) => VerifyKeepsCandidates(env, db, id, now);
    case None => InsertKeepsCandidates(env, db, r, now);
  }

  lemma VerifyKeepsCandidates(env: Env, db: Tables, id: Text, now: Instant)
    requires id in db.jobs
    ensures RequireIntegrity(env, db, id, now).db.candidates == db.candidates
  {
  }

  lemma InsertKeepsCandidates(env: Env, db: Tables, r: Request, now: Instant)
    ensures forall fp :: InsertJob(env, db, r, fp, now).db.candidates == db.candidates
  {
    hide QueuedNotice, NewRow, Sign;
  }

  lemma {:induction false} RestartFailureStays(env: Env, db: Tables, rows: seq<Text>, n: nat, now: Instant)
    requires n <= |rows|
    ensures RestartRows(env, db, rows, n, now).Raised? ==>
      RestartRows(env, db, rows, |rows|, now) == RestartRows(env, db, rows, n, now)
    decreases |rows| - n
  {
    if n < |rows| { RestartFailureStays(env, db, rows, n + 1, now); }
  }

  /** Where a prefix of the query fails, the whole query does. */
  lemma {:induction false} ListFailureStays(env: Env, db: Tables, rows: seq<Text>, n: nat, now: Instant)
    requires n <= |rows| && forall i :: 0 <= i < |rows| ==> rows[i] in db.jobs
    ensures ListJobs(env, db, rows, n, now).Raised? ==>
      ListJobs(env, db, rows, |rows|, now) == ListJobs(env, db, rows, n, now)
    decreases |rows| - n
  {
    if n < |rows| { ListFailureStays(env, db, rows, n + 1, now); }
  }
}
