/**
 The coordinator store's tables, and the outside functions that its methods use.
 Every theorem about the store holds for any such functions; where a theorem
 needs the hash to be collision free it says so.
 */
module StoreTables {
  import opened Outcomes
  import opened PyText
  import opened Canonical

  /** A point in time, in microseconds since the epoch. */
  type Instant = int
  const SECOND: Instant := 1_000_000

  datatype Domain = Research | Code | Linear | GitHub | Companion
  datatype JobState = Queued | Running | Complete | Blocked | Cancelled | Failed

  predicate Terminal(s: JobState) {
    s.Complete? || s.Blocked? || s.Cancelled? || s.Failed?
  }

  function StateName(s: JobState): string {
    match s
    case Queued => "queued" case Running => "running" case Complete => "complete"
    case Blocked => "blocked" case Cancelled => "cancelled" case Failed => "failed"
  }

  function DomainName(d: Domain): string {
    match d
    case Research => "research" case Code => "code" case Linear => "linear"
    case GitHub => "github" case Companion => "companion"
  }

  datatype Envelope = Envelope(fingerprint: Text, authorizationFingerprint: Text)

  /** A validated JobCreateRequest. */
  datatype Request = Request(
    id: Text, missionId: Text, nodeId: Text, executionHost: Domain,
    payload: Json, envelope: Envelope, idempotencyKey: Text)

  /** A row of jobs: the columns of the request, then the columns that change. */
  datatype Job = Job(
    request: Request, requestFingerprint: Text,
    state: JobState, output: Json,
    owner: Option<Text>, tokenHash: Option<Text>, expiresAt: Option<Instant>,
    attempts: nat, createdAt: Instant, updatedAt: Instant,
    authenticator: Text)

  datatype Event = Event(jobId: Text, kind: string, payload: Json, createdAt: Instant)

  datatype ReceiptStatus = Prepared | Dispatched | Verified | Ambiguous | NotDelivered

  datatype Receipt = Receipt(
    jobId: Text, provider: Domain, operation: Text, status: ReceiptStatus,
    fingerprint: Text, payload: Json, createdAt: Instant)

  datatype Quarantine = Quarantine(requestFingerprint: Text, reason: string, at: Instant)

  datatype Heartbeat = Heartbeat(coordinatorId: Text, catalogFingerprint: Text, polledAt: Instant, receivedAt: Instant)

  datatype Configuration = Configuration(
    queueProjectId: Text, credentialReferenceId: Text,
    authority: Json, authorityFingerprint: Text, authorityExpiresAt: Instant,
    queueBindingFingerprint: Text, configurationFingerprint: Text)

  datatype Cursor = Cursor(updatedAt: Text, issueId: Text)

  datatype Scan = Scan(id: Text, owner: Text, tokenHash: Text, expiresAt: Instant)

  datatype Queue = Queue(
    enabled: bool, configuration: Configuration, revision: nat,
    cursor: Option<Cursor>, nextScanAt: Instant,
    lastScanStartedAt: Option<Instant>, lastScanCompletedAt: Option<Instant>,
    lastError: Option<string>, scan: Option<Scan>,
    createdAt: Instant, updatedAt: Instant)

  /** What one scan saw of one issue. */
  datatype Observation = Observation(
    issueId: Text, identifier: Text, queueProjectId: Text, remoteStateId: Text,
    remoteUpdatedAt: Text, workItemFingerprint: Text, readbackFingerprint: Text,
    candidateFingerprint: Text)

  datatype Candidate = Candidate(
    configurationFingerprint: Text, observation: Observation,
    readbackJobId: Option<Text>, firstSeenAt: Instant, lastSeenAt: Instant)

  datatype QueueEvent =
    | Configured(configurationFingerprint: Text, at: Instant)
    | Disabled(configurationFingerprint: Text, at: Instant)
    | ScanStarted(scanId: Text, configurationFingerprint: Text, at: Instant)
    | ScanCompleted(scanId: Text, configurationFingerprint: Text, candidates: nat, upserted: nat, scheduled: nat,
                    cursor: Option<Cursor>, at: Instant)
    | ScanFailed(scanId: Text, configurationFingerprint: Text, errorCode: string, at: Instant)
    | RescanRequested(configurationFingerprint: Text, at: Instant)
    | AuthorityExpired(configurationFingerprint: Text, at: Instant)
    | CandidateScheduled(configurationFingerprint: Text, candidateFingerprint: Text, jobId: Text, at: Instant)

  /** Everything the database holds.  Tables are keyed by their primary keys;
      eventSeq is the AUTOINCREMENT counter of job_events, which deletions do not
      lower. */
  datatype Tables = Tables(
    jobs: map<Text, Job>,
    events: map<nat, Event>, eventSeq: nat,
    receipts: map<Text, Receipt>,
    quarantined: map<Text, Quarantine>,
    heartbeat: Option<Heartbeat>,
    queue: Option<Queue>,
    candidates: map<Text, Candidate>,
    queueEvents: seq<QueueEvent>)

  const EMPTY := Tables(map[], map[], 0, map[], map[], None, None, map[], [])

  /** The functions the store calls but does not define: the digest, the keyed
      authenticator of a job row (of all its columns but its own), timestamp
      parsing and printing, the fixed objective of readback jobs, the payload
      filters, and what the request validator asks apart from the clock. */
  datatype Env = Env(
    sha256: Text -> Text,
    hmac: Job -> Text,
    instant: Text -> Option<Instant>,
    iso: Instant -> Text,
    readbackObjective: Text,
    sanitizeEvent: (string, Json) -> Option<Json>,
    sanitizeReceipt: (Domain, Json) -> Option<Json>,
    sanitizeOutput: (Domain, Json) -> Option<Json>,
    contract: Request -> bool)

  /** The idealized digest: collision free and never empty. */
  ghost predicate IdealHash(env: Env) {
    && (forall s, t :: env.sha256(s) == env.sha256(t) ==> s == t)
    && (forall s :: env.sha256(s) != [])
  }

  datatype Error =
    | JobNotFound | JobLeaseConflict | JobLeaseInvalid | IdempotencyConflict
    | JobIntegrityInvalid | StoreError
    | Rejected          // PersistedDataRejected or a validation error
    | ConstraintFailed  // sqlite3.IntegrityError
    | Malformed         // KeyError, TypeError or ValueError on stored data

  datatype Result<+T> = Ok(value: T) | Err(error: Error) {
    predicate IsFailure() { Err? }

    function PropagateFailure<U>(): Result<U>
      requires Err?
    {
      Err(error)
    }

    function Extract(): T
      requires Ok?
    {
      value
    }
  }

  /** A transaction body: it may have written before it raised. */
  datatype Attempt<+T> = Done(db: Tables, value: T) | Raised(db: Tables, error: Error)

  /** _Transaction.__exit__: commit on success and on JobIntegrityInvalid, roll
      back on every other exception. */
  function Commit<T>(before: Tables, body: Attempt<T>): (r: (Tables, Result<T>))
  {
    match body
    case Done(db, v) => (db, Ok(v))
    case Raised(db, e) => (if e.JobIntegrityInvalid? then db else before, Err(e))
  }

  // ---------------------------------------------------------- JSON documents

  function Find(entries: seq<Keyed<Json>>, k: Text): Option<Json> {
    if entries == [] then None
    else if entries[0].key == k then Some(entries[0].value)
    else Find(entries[1..], k)
  }

  /** dict.get; a value that is not an object has no fields. */
  function Get(v: Json, k: string): Json {
    if !v.Obj? then Null
    else match Find(v.entries, A(k)) case Some(x) => x case None => Null
  }

  function Without(entries: seq<Keyed<Json>>, k: Text): seq<Keyed<Json>> {
    if entries == [] then []
    else (if entries[0].key == k then [] else [entries[0]]) + Without(entries[1..], k)
  }

  /** An object with the given literal keys. */
  function Doc(keys: seq<string>, values: seq<Json>): (v: Json)
    requires |keys| == |values|
  {
    Obj(seq(|keys|, i requires 0 <= i < |keys| => Keyed(A(keys[i]), values[i])))
  }

  function Digest(env: Env, v: Json): Text
    requires Safe(v)
  {
    A("sha256:") + env.sha256(Serialize(v))
  }

  /** canonical_fingerprint; None when the value holds an unsafe integer. */
  function Fingerprint(env: Env, v: Json): Option<Text> {
    if Safe(v) then Some(Digest(env, v)) else None
  }
}
