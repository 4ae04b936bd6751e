/**
 The singleton Linear scan queue of the coordinator store: its configuration,
 the scan lease, the cursor, and the readback jobs that a completed scan
 schedules.
 */
module ScanQueue {
  import opened Outcomes
  import opened PyText
  import opened Canonical
  import opened StoreTables
  import opened Ledger

  const SCAN_INTERVAL: Instant := 15 * 60 * SECOND
  const SCAN_LEASE: Instant := 120 * SECOND
  const WORKER_TTL: Instant := 45 * SECOND
  const FUTURE_SKEW: Instant := 5 * SECOND
  const STALENESS: Instant := 10 * 60 * SECOND

  const AUTHORITY_EXPIRED := "linear_queue_authority_expired"
  const TERMINAL_READBACK := "linear_queue_terminal_readback"

  // -------------------------------------------------------- worker heartbeat

  function HeartbeatWorker(db: Tables, coordinator: Text, catalog: Text, polledAt: Instant, expected: Text,
                           now: Instant): Attempt<()> {
    if catalog != expected || polledAt > now + FUTURE_SKEW || polledAt < now - WORKER_TTL then Raised(db, StoreError)
    else if db.heartbeat.Some? && db.heartbeat.value.coordinatorId != coordinator
      && db.heartbeat.value.receivedAt + WORKER_TTL > now then Raised(db, JobLeaseConflict)
    else Done(db.(heartbeat := Some(Heartbeat(coordinator, catalog, polledAt, now))), ())
  }

  // ----------------------------------------------------------- configuration

  function Unchanged(db: Tables, c: Configuration): bool {
    && db.queue.Some? && db.queue.value.enabled
    && db.queue.value.configuration.configurationFingerprint == c.configurationFingerprint
  }

  function LogQueue(db: Tables, e: QueueEvent): Tables {
    db.(queueEvents := db.queueEvents + [e])
  }

  function Configure(db: Tables, c: Configuration, now: Instant): Attempt<()> {
    if c.authorityExpiresAt <= now then Raised(db, StoreError)
    else if Unchanged(db, c) then Done(db, ())
    else
      var revision := match db.queue case Some(q) => q.revision + 1 case None => 1;
      var createdAt := match db.queue case Some(q) => q.createdAt case None => now;
      var q := Queue(true, c, revision, None, now, None, None, None, None, createdAt, now);
      Done(LogQueue(db.(queue := Some(q)), Configured(c.configurationFingerprint, now)), ())
  }

  function Disable(db: Tables, now: Instant): Attempt<()> {
    match db.queue
    case None => Done(db, ())
    case Some(q) =>
      if !q.enabled then Done(db, ())
      else Done(LogQueue(db.(queue := Some(q.(enabled := false, scan := None, updatedAt := now))),
                         Disabled(q.configuration.configurationFingerprint, now)), ())
  }

  // --------------------------------------------------------------- scan lease

  datatype Refusal = QueueDisabled | NotDue | AuthorityGone | ScanInProgress

  datatype ScanClaim =
    | NotClaimed(reason: Refusal)
    | ScanGranted(scanId: Text, configuration: Configuration, cursor: Option<Cursor>)

  datatype ClaimRequest = ClaimRequest(coordinatorId: Text, catalogFingerprint: Text, claimedAt: Instant)

  predicate LiveWorker(db: Tables, q: ClaimRequest, expected: Text, now: Instant) {
    && db.heartbeat.Some?
    && db.heartbeat.value.coordinatorId == q.coordinatorId
    && db.heartbeat.value.catalogFingerprint == q.catalogFingerprint == expected
    && db.heartbeat.value.receivedAt + WORKER_TTL > now
  }

  function ClaimScan(env: Env, db: Tables, r: ClaimRequest, expected: Text, scanId: Text, token: Text,
                     now: Instant): Attempt<ScanClaim> {
    if r.claimedAt > now + FUTURE_SKEW || r.claimedAt < now - WORKER_TTL then Raised(db, StoreError)
    else if !LiveWorker(db, r, expected, now) then Raised(db, StoreError)
    else if db.queue.None? || !db.queue.value.enabled then Done(db, NotClaimed(QueueDisabled))
    else
      var q := db.queue.value;
      var cfp := q.configuration.configurationFingerprint;
      if q.configuration.authorityExpiresAt <= now then
        if q.lastError == Some(AUTHORITY_EXPIRED) then Done(db, NotClaimed(AuthorityGone))
        else
          Done(LogQueue(db.(queue := Some(q.(lastError := Some(AUTHORITY_EXPIRED), scan := None, updatedAt := now))),
                        AuthorityExpired(cfp, now)), NotClaimed(AuthorityGone))
      else if q.scan.Some? && q.scan.value.id != [] && q.scan.value.expiresAt > now
        then Done(db, NotClaimed(ScanInProgress))
      else if q.nextScanAt > now then Done(db, NotClaimed(NotDue))
      else
        var scan := Scan(scanId, r.coordinatorId, env.sha256(token), now + SCAN_LEASE);
        Done(LogQueue(db.(queue := Some(q.(scan := Some(scan), lastScanStartedAt := Some(now), lastError := None,
                                           updatedAt := now))),
                      ScanStarted(scanId, cfp, now)),
             ScanGranted(scanId, q.configuration, q.cursor))
  }

  datatype ScanCredential = ScanCredential(coordinatorId: Text, scanId: Text, scanToken: Text,
                                           configurationFingerprint: Text)

  predicate ScanValid(env: Env, queue: Option<Queue>, c: ScanCredential, now: Instant) {
    && queue.Some? && queue.value.enabled && queue.value.scan.Some?
    && var s := queue.value.scan.value;
    && s.id == c.scanId && s.owner == c.coordinatorId
    && s.tokenHash != [] && s.tokenHash == env.sha256(c.scanToken)
    && s.expiresAt > now
    && queue.value.configuration.configurationFingerprint == c.configurationFingerprint
  }

  // ------------------------------------------------------------- readback job

  /** removeprefix("sha256:")[:32]. */
  function Suffix32(fp: Text): Text {
    var hex := if A("sha256:") <= fp then fp[7..] else fp;
    if |hex| <= 32 then hex else hex[..32]
  }

  function CapabilityDoc(c: Configuration, o: Observation): Json {
    Doc(["version", "kind", "configurationFingerprint", "queueBindingFingerprint", "candidateFingerprint",
         "authorityFingerprint"],
        [Int(1), Str(A("linear_queue_candidate_readback")), Str(c.configurationFingerprint),
         Str(c.queueBindingFingerprint), Str(o.candidateFingerprint), Str(c.authorityFingerprint)])
  }

  function MissionId(c: Configuration): Text { A("linear-queue-") + Suffix32(c.configurationFingerprint) }

  function NodeId(o: Observation): Text { A("linear-candidate-") + Suffix32(o.candidateFingerprint) }

  function IdentityDoc(env: Env, c: Configuration, o: Observation): Json {
    Doc(["version", "missionId", "nodeId", "graphRevision", "capabilityEnvelopeFingerprint",
         "authorizationFingerprint"],
        [Int(1), Str(MissionId(c)), Str(NodeId(o)), Int(0),
         Str(Digest(env, CapabilityDoc(c, o))), Str(c.authorityFingerprint)])
  }

  function ReadbackKey(env: Env, c: Configuration, o: Observation): Text {
    Digest(env, IdentityDoc(env, c, o))
  }

  function ReadbackInputs(c: Configuration, o: Observation): Json {
    Doc(["issueId", "credentialReferenceId", "projectBindingId", "contractFingerprint", "queueCandidateFingerprint"],
        [Str(o.issueId), Str(c.credentialReferenceId), Str(c.queueProjectId),
         Str(o.workItemFingerprint), Str(o.candidateFingerprint)])
  }

  function ReadbackBinding(c: Configuration): Json {
    Doc(["id", "kind", "destinationFingerprint"],
        [Str(c.queueProjectId), Str(A("linear-project")), Str(c.queueBindingFingerprint)])
  }

  /** The fixed objective text is a parameter of the environment. */
  function ReadbackPayload(env: Env, c: Configuration, o: Observation, now: Instant): Json {
    var at := Str(env.iso(now));
    Doc(["version", "graphRevision", "executionHost", "objective", "inputs", "allowedTools",
         "requiredCapabilities", "bindings", "authorization", "preparedExternalActionHandoff",
         "createdAt", "updatedAt"],
        [Int(1), Int(0), Str(A("headless_runtime")), Str(env.readbackObjective), ReadbackInputs(c, o),
         Arr([Str(A("linear_get_issue"))]), Arr([Str(A("linear.issue.read"))]),
         Arr([ReadbackBinding(c)]), c.authority, Null, at, at])
  }

  function ReadbackRequest(env: Env, c: Configuration, o: Observation, now: Instant): Request {
    var key := ReadbackKey(env, c, o);
    Request(A("companion-") + Suffix32(key), MissionId(c), NodeId(o), Linear,
            ReadbackPayload(env, c, o, now),
            Envelope(Digest(env, CapabilityDoc(c, o)), c.authorityFingerprint), key)
  }

  // ---------------------------------------------------------- scan completion

  datatype Tally = Tally(upserted: nat, scheduled: nat)

  predicate OtherCandidateSameContent(db: Tables, cfp: Text, o: Observation) {
    exists k :: k in db.candidates && k != o.candidateFingerprint
      && db.candidates[k].configurationFingerprint == cfp
      && var p := db.candidates[k].observation;
         p.issueId == o.issueId && p.remoteUpdatedAt == o.remoteUpdatedAt
         && p.workItemFingerprint == o.workItemFingerprint && p.readbackFingerprint == o.readbackFingerprint
  }

  predicate BoundElsewhere(row: Candidate, cfp: Text, o: Observation) {
    row.configurationFingerprint != cfp || row.observation.issueId != o.issueId
    || row.observation.readbackFingerprint != o.readbackFingerprint
  }

  /** The upsert of one candidate row. */
  function Upsert(db: Tables, cfp: Text, o: Observation, now: Instant): Tables {
    var k := o.candidateFingerprint;
    var row := if k in db.candidates then db.candidates[k].(lastSeenAt := now)
               else Candidate(cfp, o, None, now, now);
    db.(candidates := db.candidates[k := row])
  }

  /** An UPDATE of the candidate's row, where there is one. */
  function Link(db: Tables, k: Text, jobId: Text): Tables {
    if k in db.candidates
    then db.(candidates := db.candidates[k := db.candidates[k].(readbackJobId := Some(jobId))])
    else db
  }

  /** The job of a candidate that has none: created or found, and linked. */
  ghost function ScheduleJob(env: Env, db: Tables, c: Configuration, o: Observation, t: Tally,
                             now: Instant): Attempt<Tally> {
    var k := o.candidateFingerprint;
    var request := ReadbackRequest(env, c, o, now);
    if !Validates(env, request, now, false) then Raised(db, Rejected)
    else match CreateLocked(env, db, request, now)
      case Raised(d, e) => Raised(d, e)
      case Done(d, job) =>
        var linked := Link(d, k, job.row.request.id);
        if !job.isNew then Done(linked, t)
        else Done(LogQueue(linked, CandidateScheduled(c.configurationFingerprint, k, job.row.request.id, now)),
                  t.(scheduled := t.scheduled + 1))
  }

  /** The body of the loop over request.candidates. */
  ghost function ScheduleOne(env: Env, db: Tables, c: Configuration, o: Observation, active: bool, t: Tally,
                             now: Instant): Attempt<Tally> {
    var (k, cfp) := (o.candidateFingerprint, c.configurationFingerprint);
    if o.queueProjectId != c.queueProjectId then Raised(db, StoreError)
    else if k in db.candidates && BoundElsewhere(db.candidates[k], cfp, o) then Raised(db, IdempotencyConflict)
    else if k !in db.candidates && OtherCandidateSameContent(db, cfp, o) then Raised(db, ConstraintFailed)
    else
      var seen := Upsert(db, cfp, o, now);
      var t' := if k in db.candidates then t else t.(upserted := t.upserted + 1);
      if !active || seen.candidates[k].readbackJobId.Some? then Done(seen, t')
      else ScheduleJob(env, seen, c, o, t', now)
  }

  /** The loop over the first n candidates. */
  ghost function ScheduleMany(env: Env, db: Tables, c: Configuration, os: seq<Observation>, n: nat, active: bool,
                              now: Instant): Attempt<Tally>
    requires n <= |os|
  {
    if n == 0 then Done(db, Tally(0, 0))
    else match ScheduleMany(env, db, c, os, n - 1, active, now)
      case Raised(d, e) => Raised(d, e)
      case Done(d, t) => ScheduleOne(env, d, c, os[n - 1], active, t, now)
  }

  /** Where a prefix of the loop over candidates fails, the whole loop does. */
  lemma {:induction false} ScheduleFailureStays(env: Env, db: Tables, c: Configuration, os: seq<Observation>, n: nat,
                                                active: bool, now: Instant)
    requires n <= |os|
    ensures ScheduleMany(env, db, c, os, n, active, now).Raised? ==>
      ScheduleMany(env, db, c, os, |os|, active, now) == ScheduleMany(env, db, c, os, n, active, now)
    decreases |os| - n
  {
    if n < |os| { ScheduleFailureStays(env, db, c, os, n + 1, active, now); }
  }

  /** _cursor_after; None when a timestamp does not parse. */
  function CursorAfter(env: Env, c: Cursor, current: Option<Cursor>): Option<bool> {
    if current.None? then Some(true)
    else match (env.instant(c.updatedAt), env.instant(current.value.updatedAt))
      case (Some(t), Some(u)) => Some(t > u || (t == u && !LexLe(c.issueId, current.value.issueId)))
      case _ => None
  }

  datatype CompleteRequest = CompleteRequest(
    credential: ScanCredential, scannedAt: Instant, candidates: seq<Observation>, cursor: Option<Cursor>)

  /** What a candidate's fingerprint is taken over: the issue as it was seen, and
      nothing of the queue's configuration. */
  function CandidateDoc(o: Observation): Json {
    Doc(["issueId", "identifier", "queueProjectId", "remoteStateId", "remoteUpdatedAt", "workItemFingerprint",
         "readbackFingerprint"],
        [Str(o.issueId), Str(o.identifier), Str(o.queueProjectId), Str(o.remoteStateId), Str(o.remoteUpdatedAt),
         Str(o.workItemFingerprint), Str(o.readbackFingerprint)])
  }

  predicate Fingerprinted(env: Env, o: Observation) {
    o.candidateFingerprint == Digest(env, CandidateDoc(o))
  }

  /** What the request schema asks of a report: at most ten candidates, all different,
      each with its own fingerprint, and a cursor whose timestamp parses. */
  predicate ReportChecked(env: Env, r: CompleteRequest) {
    && |r.candidates| <= 10
    && (forall i, j :: 0 <= i < j < |r.candidates| ==>
          r.candidates[i].candidateFingerprint != r.candidates[j].candidateFingerprint)
    && (forall i :: 0 <= i < |r.candidates| ==> Fingerprinted(env, r.candidates[i]))
    && (r.cursor.Some? ==> env.instant(r.cursor.value.updatedAt).Some?)
  }

  function FinishScan(q: Queue, cursor: Option<Cursor>, scannedAt: Instant, active: bool, now: Instant): Queue {
    q.(cursor := cursor, nextScanAt := scannedAt + SCAN_INTERVAL, lastScanCompletedAt := Some(scannedAt),
       lastError := if active then None else Some(AUTHORITY_EXPIRED), scan := None, updatedAt := now)
  }

  ghost function CompleteScan(env: Env, db: Tables, r: CompleteRequest, now: Instant): Attempt<Tally> {
    if r.scannedAt > now + FUTURE_SKEW || r.scannedAt < now - STALENESS then Raised(db, StoreError)
    else if !ScanValid(env, db.queue, r.credential, now) then Raised(db, JobLeaseInvalid)
    else
      var q := db.queue.value;
      var active := q.configuration.authorityExpiresAt > now;
      match ScheduleMany(env, db, q.configuration, r.candidates, |r.candidates|, active, now)
      case Raised(d, e) => Raised(d, e)
      case Done(d, t) =>
        var later := if r.cursor.None? then Some(false) else CursorAfter(env, r.cursor.value, q.cursor);
        if later.None? then Raised(d, StoreError)
        else
          var cursor := if later.value then r.cursor else q.cursor;
          Done(LogQueue(d.(queue := Some(FinishScan(q, cursor, r.scannedAt, active, now))),
                        ScanCompleted(r.credential.scanId, q.configuration.configurationFingerprint,
                                      |r.candidates|, t.upserted, t.scheduled, cursor, now)), t)
  }

  function FailScan(env: Env, db: Tables, c: ScanCredential, failedAt: Instant, errorCode: string,
                    now: Instant): Attempt<()> {
    if failedAt > now + FUTURE_SKEW || failedAt < now - STALENESS then Raised(db, StoreError)
    else if !ScanValid(env, db.queue, c, now) then Raised(db, JobLeaseInvalid)
    else
      var q := db.queue.value;
      Done(LogQueue(db.(queue := Some(q.(nextScanAt := failedAt + SCAN_INTERVAL, lastError := Some(errorCode),
                                         scan := None, updatedAt := now))),
                    ScanFailed(c.scanId, q.configuration.configurationFingerprint, errorCode, now)), ())
  }

  function Min(a: Instant, b: Instant): Instant { if a <= b then a else b }

  function Rescan(db: Tables, cfp: Text, requestedAt: Instant, now: Instant): Attempt<()> {
    if requestedAt > now + FUTURE_SKEW || requestedAt < now - STALENESS then Raised(db, StoreError)
    else if db.queue.None? || !db.queue.value.enabled then Raised(db, StoreError)
    else
      var q := db.queue.value;
      if q.configuration.configurationFingerprint != cfp || q.configuration.authorityExpiresAt <= now
        then Raised(db, StoreError)
      else Done(LogQueue(db.(queue := Some(q.(nextScanAt := Min(q.nextScanAt, now),
                                              lastError := Some(TERMINAL_READBACK), updatedAt := now))),
                         RescanRequested(cfp, now)), ())
  }
}
