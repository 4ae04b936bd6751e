/**
 The job, lease, event and receipt operations of the coordinator store, as
 functions from tables to tables.  Each body follows the transaction it models
 statement by statement; Commit decides what of it stays.
 */
module Ledger {
  import opened Outcomes
  import opened PyText
  import opened Canonical
  import opened StoreTables

  // ---------------------------------------------------------------- integrity

  function Unsigned(row: Job): Job {
    row.(authenticator := [])
  }

  function Sign(env: Env, row: Job): Job {
    row.(authenticator := env.hmac(Unsigned(row)))
  }

  predicate Authentic(env: Env, row: Job) {
    row.authenticator == env.hmac(Unsigned(row))
  }

  /** Some candidate's readback_job_id refers to the job. */
  predicate Referenced(db: Tables, id: Text) {
    exists c :: c in db.candidates && db.candidates[c].readbackJobId == Some(id)
  }

  /** DELETE FROM jobs, with the cascades to events and receipts. */
  function DeleteJob(db: Tables, id: Text): Tables {
    db.(jobs := db.jobs - {id},
        events := map s | s in db.events && db.events[s].jobId != id :: db.events[s],
        receipts := map r | r in db.receipts && db.receipts[r].jobId != id :: db.receipts[r])
  }

  function QuarantineRow(env: Env, row: Job, reason: string, now: Instant): Quarantine {
    var fp := row.requestFingerprint;
    var stored :=
      if A("sha256:") <= fp && |fp| == 71 then fp
      else Digest(env, Doc(["version", "storedRequestFingerprint"], [Int(1), Str(fp)]));
    Quarantine(stored, reason, now)
  }

  /** The quarantine row is written first; deleting a job that a candidate
      refers to fails, because that foreign key has no delete action. */
  ghost function QuarantineJob(env: Env, db: Tables, id: Text, reason: string, now: Instant): Attempt<()>
    requires id in db.jobs
  {
    var recorded := db.(quarantined := db.quarantined[id := QuarantineRow(env, db.jobs[id], reason, now)]);
    if Referenced(db, id) then Raised(recorded, ConstraintFailed)
    else Done(DeleteJob(recorded, id), ())
  }

  ghost function RequireIntegrity(env: Env, db: Tables, id: Text, now: Instant): Attempt<Job>
    requires id in db.jobs
  {
    if Authentic(env, db.jobs[id]) then Done(db, db.jobs[id])
    else match QuarantineJob(env, db, id, "integrity_authenticator_mismatch", now)
      case Raised(d, e) => Raised(d, e)
      case Done(d, _) => Raised(d, JobIntegrityInvalid)
  }

  /** An UPDATE of one row followed by _refresh_job_integrity_locked. */
  function Store(env: Env, db: Tables, row: Job): Tables {
    db.(jobs := db.jobs[row.request.id := Sign(env, row)])
  }

  // --------------------------------------------------------- request validation

  /** How far in the future a grant may have been issued. */
  const GRANT_SKEW: Instant := 5 * SECOND

  function GrantField(r: Request, name: string): Json {
    Get(Get(r.payload, "authorization"), name)
  }

  /** When the request's grant was issued. */
  function AuthorizedAt(env: Env, r: Request): Option<Instant> {
    if GrantField(r, "authorizedAt").Str? then env.instant(GrantField(r, "authorizedAt").s) else None
  }

  /** The grant's expiry lies after its issue and, for a new request, ahead. */
  predicate ExpiryAllowed(env: Env, r: Request, issued: Instant, now: Instant, allowExpired: bool) {
    match GrantField(r, "expiresAt")
    case Null => true
    case Str(s) => (match env.instant(s) case Some(t) => t > issued && (allowExpired || t > now) case None => false)
    case _ => false
  }

  /** JobCreateRequest.model_validate, with the context of a restart or without. */
  predicate Validates(env: Env, r: Request, now: Instant, allowExpired: bool) {
    && env.contract(r)
    && AuthorizedAt(env, r).Some?
    && AuthorizedAt(env, r).value <= now + GRANT_SKEW
    && ExpiryAllowed(env, r, AuthorizedAt(env, r).value, now, allowExpired)
  }

  // ------------------------------------------------------------------- events

  /** The filter takes the event, and it can be stored. */
  predicate EventAccepted(env: Env, kind: string, payload: Json) {
    env.sanitizeEvent(kind, payload).Some? && Safe(env.sanitizeEvent(kind, payload).value)
  }

  function AppendEvent(env: Env, db: Tables, id: Text, kind: string, payload: Json, now: Instant): Attempt<nat> {
    match env.sanitizeEvent(kind, payload)
    case None => Raised(db, Rejected)
    case Some(clean) =>
      if !Safe(clean) then Raised(db, Rejected)
      else if id !in db.jobs then Raised(db, ConstraintFailed)
      else
        var s := db.eventSeq + 1;
        Done(db.(eventSeq := s, events := db.events[s := Event(id, kind, clean, now)]), s)
  }

  /** An UPDATE of one row, its refreshed authenticator, and its event. */
  function Journal(env: Env, db: Tables, row: Job, kind: string, payload: Json, now: Instant): Attempt<nat> {
    AppendEvent(env, Store(env, db, row), row.request.id, kind, payload, now)
  }

  // ------------------------------------------------------------------- create

  function RequestDoc(r: Request): Json {
    Doc(["missionId", "nodeId", "executionHost", "payload", "capabilityEnvelope", "idempotencyKey"],
        [Str(r.missionId), Str(r.nodeId), Str(A(DomainName(r.executionHost))), r.payload,
         Doc(["fingerprint", "authorizationFingerprint"],
             [Str(r.envelope.fingerprint), Str(r.envelope.authorizationFingerprint)]),
         Str(r.idempotencyKey)])
  }

  ghost function FindByKey(jobs: map<Text, Job>, key: Text): (r: Option<Text>)
    ensures r.Some? ==> r.value in jobs && jobs[r.value].request.idempotencyKey == key
    ensures r.None? ==> forall id :: id in jobs ==> jobs[id].request.idempotencyKey != key
  {
    if exists id :: id in jobs && jobs[id].request.idempotencyKey == key
    then var id :| id in jobs && jobs[id].request.idempotencyKey == key; Some(id)
    else None
  }

  datatype Created = Created(row: Job, isNew: bool)

  function NewRow(r: Request, fp: Text, now: Instant): Job {
    Job(r, fp, Queued, Obj([]), None, None, None, 0, now, now, [])
  }

  function QueuedNotice(r: Request): Json {
    Doc(["executionHost"], [Str(A(DomainName(r.executionHost)))])
  }

  /** The row, its first event, and then the row's authenticator. */
  function InsertJob(env: Env, db: Tables, r: Request, fp: Text, now: Instant): Attempt<Created> {
    if r.id in db.jobs then Raised(db, ConstraintFailed)
    else
      var inserted := db.(jobs := db.jobs[r.id := NewRow(r, fp, now)]);
      match AppendEvent(env, inserted, r.id, "job_queued", QueuedNotice(r), now)
      case Raised(d, e) => Raised(d, e)
      case Done(d, _) => Done(Store(env, d, NewRow(r, fp, now)), Created(Sign(env, NewRow(r, fp, now)), true))
  }

  ghost function CreateLocked(env: Env, db: Tables, r: Request, now: Instant): Attempt<Created> {
    match Fingerprint(env, RequestDoc(r))
    case None => Raised(db, Rejected)
    case Some(fp) =>
      match FindByKey(db.jobs, r.idempotencyKey)
      case Some(id) =>
        (match RequireIntegrity(env, db, id, now)
         case Raised(d, e) => Raised(d, e)
         case Done(d, row) =>
           if row.requestFingerprint != fp then Raised(d, IdempotencyConflict)
           else Done(d, Created(row, false)))
      case None => InsertJob(env, db, r, fp, now)
  }

  // --------------------------------------------------------------------- read

  ghost function GetJob(env: Env, db: Tables, id: Text, now: Instant): Attempt<Job> {
    if id !in db.jobs then Raised(db, JobNotFound) else RequireIntegrity(env, db, id, now)
  }

  /** The first n rows of one query, verified in the order the query returned
      them. */
  ghost function ListJobs(env: Env, db: Tables, rows: seq<Text>, n: nat, now: Instant): (r: Attempt<seq<Job>>)
    requires n <= |rows| && forall i :: 0 <= i < |rows| ==> rows[i] in db.jobs
    ensures r.Done? ==> r.db == db && |r.value| == n
  {
    if n == 0 then Done(db, [])
    else match ListJobs(env, db, rows, n - 1, now)
      case Raised(d, e) => Raised(d, e)
      case Done(d, found) =>
        match RequireIntegrity(env, d, rows[n - 1], now)
        case Raised(d', e) => Raised(d', e)
        case Done(d', row) => Done(d', found + [row])
  }

  // -------------------------------------------------------------------- lease

  /** What _assert_lease_locked asks of a row. */
  predicate LeaseValid(env: Env, row: Job, coordinator: Text, token: Text, now: Instant) {
    && row.state.Running?
    && row.owner == Some(coordinator)
    && row.tokenHash.Some? && row.tokenHash.value != []
    && row.tokenHash.value == env.sha256(token)
    && (match row.expiresAt case Some(t) => t case None => 0) > now
  }

  ghost function AssertLease(env: Env, db: Tables, id: Text, coordinator: Text, token: Text,
                             now: Instant): Attempt<Job> {
    match GetJob(env, db, id, now)
    case Raised(d, e) => Raised(d, e)
    case Done(d, row) =>
      if LeaseValid(env, row, coordinator, token, now) then Done(d, row) else Raised(d, JobLeaseInvalid)
  }

  // -------------------------------------------------------------------- claim

  /** The expiry fields in the order claim_job looks at them. */
  function ExpiryFields(payload: Json): seq<Json> {
    [Get(Get(payload, "authorization"), "expiresAt")]
    + OptionalExpiry(Get(payload, "preparedBackgroundCodeAction"))
    + OptionalExpiry(Get(payload, "preparedBackgroundCodePackage"))
    + OptionalExpiry(Get(payload, "preparedBackgroundGitHubAction"))
    + OptionalExpiry(Get(payload, "preparedBackgroundGitHubPackage"))
  }

  function OptionalExpiry(v: Json): seq<Json> {
    if v.Obj? then [Get(v, "expiresAt")] else []
  }

  /** any(...): stops at the first expired field; None when a field before it is
      not a timestamp. */
  function AnyExpired(env: Env, fields: seq<Json>, now: Instant): Option<bool> {
    if fields == [] then Some(false)
    else if !fields[0].Str? then AnyExpired(env, fields[1..], now)
    else match env.instant(fields[0].s)
      case None => None
      case Some(t) => if t <= now then Some(true) else AnyExpired(env, fields[1..], now)
  }

  /** The one effect attempt that a prepared job authorizes, and the receipt field
      that must repeat the prepared action's fingerprint. */
  datatype PreparedAttempt = PreparedAttempt(
    provider: Domain, operation: Text, dispatchedCounts: bool,
    identity: Json, boundField: string, boundFingerprint: Text)

  predicate TruthyText(v: Json) {
    v.Str? && v.s != []
  }

  function PreparedAttemptOf(row: Job): Option<PreparedAttempt> {
    var payload := row.request.payload;
    var id := Str(row.request.id);
    match row.request.executionHost
    case Code =>
      var (h, p) := (Get(payload, "preparedBackgroundCodeAction"), Get(payload, "preparedBackgroundCodePackage"));
      var (fp, cp, rk) := (Get(h, "fingerprint"), Get(Get(h, "payload"), "repairCheckpointId"),
                           Get(h, "reconciliationKey"));
      if !h.Obj? || !p.Obj? || Get(h, "operation") != Str(A("prepared_code_validation_commit_v1"))
        || Get(h, "status") != Str(A("prepared")) || Get(p, "handoffFingerprint") != fp
        || !TruthyText(fp) || !TruthyText(cp) || !TruthyText(rk) then None
      else Some(PreparedAttempt(Code, A("prepared_code_validation_commit_v1"), false,
        Doc(["version", "jobId", "handoffFingerprint", "repairCheckpointId", "reconciliationKey"],
            [Int(1), id, fp, cp, rk]), "handoffFingerprint", fp.s))
    case GitHub =>
      var (a, p) := (Get(payload, "preparedBackgroundGitHubAction"), Get(payload, "preparedBackgroundGitHubPackage"));
      var (op, fp) := (Get(a, "operation"), Get(a, "fingerprint"));
      var (pf, rk) := (Get(a, "preparedActionFingerprint"), Get(a, "reconciliationKey"));
      if !a.Obj? || !p.Obj? || Get(a, "status") != Str(A("prepared")) || Get(p, "actionFingerprint") != fp
        || !TruthyText(op) || !TruthyText(fp) || !TruthyText(pf) || !TruthyText(rk) then None
      else Some(PreparedAttempt(GitHub, op.s, true,
        Doc(["version", "jobId", "operation", "actionFingerprint", "preparedActionFingerprint", "reconciliationKey"],
            [Int(1), id, op, fp, pf, rk]), "actionFingerprint", fp.s))
    case Linear =>
      var h := Get(payload, "preparedExternalActionHandoff");
      var (fp, pf, rk) := (Get(h, "fingerprint"), Get(h, "preparedActionFingerprint"), Get(h, "reconciliationKey"));
      if !h.Obj? || Get(h, "operation") != Str(A("linear_issue_state_update_v1"))
        || Get(h, "status") != Str(A("prepared"))
        || !TruthyText(fp) || !TruthyText(pf) || !TruthyText(rk) then None
      else Some(PreparedAttempt(Linear, A("linear_issue_state_update_v1"), true,
        Doc(["version", "jobId", "handoffFingerprint", "preparedActionFingerprint", "reconciliationKey"],
            [Int(1), id, fp, pf, rk]), "handoffFingerprint", fp.s))
    case _ => None
  }

  /** The receipt records that this very attempt was dispatched or is ambiguous. */
  predicate Marks(env: Env, p: PreparedAttempt, jobId: Text, r: Receipt) {
    && r.jobId == jobId && r.provider == p.provider && r.operation == p.operation
    && (r.status.Ambiguous? || (p.dispatchedCounts && r.status.Dispatched?))
    && Fingerprint(env, p.identity).Some?
    && Get(r.payload, "attemptId") == Str(Fingerprint(env, p.identity).value)
    && Get(r.payload, p.boundField) == Str(p.boundFingerprint)
  }

  ghost predicate HasMarker(env: Env, db: Tables, row: Job) {
    && PreparedAttemptOf(row).Some?
    && exists k :: k in db.receipts && Marks(env, PreparedAttemptOf(row).value, row.request.id, db.receipts[k])
  }

  datatype Claimed = Leased(row: Job) | AuthorizationExpired

  function BlockedRow(row: Job, now: Instant): Job {
    row.(state := Blocked, owner := None, tokenHash := None, expiresAt := None, updatedAt := now)
  }

  function LeasedRow(env: Env, row: Job, coordinator: Text, token: Text, leaseSeconds: nat, now: Instant): Job {
    row.(state := Running, owner := Some(coordinator), tokenHash := Some(env.sha256(token)),
         expiresAt := Some(now + leaseSeconds * SECOND), attempts := row.attempts + 1, updatedAt := now)
  }

  predicate ActivelyOwned(row: Job, now: Instant) {
    row.owner.Some? && row.owner.value != [] && (match row.expiresAt case Some(t) => t case None => 0) > now
  }

  function ExpiryNotice(): Json {
    Doc(["code", "message", "requiredAction", "status"],
        [Str(A("authorization_expired")), Str(A("Background authorization expired before claim.")),
         Str(A("Issue a fresh scoped grant before retrying.")), Str(A("blocked"))])
  }

  function LeaseNotice(env: Env, coordinator: Text, expires: Instant): Json {
    Doc(["coordinatorId", "leaseExpiresAt"], [Str(coordinator), Str(env.iso(expires))])
  }

  datatype Decision = Refuse(error: Error) | Expire | Grant

  /** The branches of claim_job; expiry is looked at before the active lease. */
  ghost function Decide(env: Env, db: Tables, row: Job, now: Instant): Decision {
    if Terminal(row.state) then Refuse(JobLeaseConflict)
    else if !Get(row.request.payload, "authorization").Obj? then Refuse(Malformed)
    else match AnyExpired(env, ExpiryFields(row.request.payload), now)
      case None => Refuse(Malformed)
      case Some(expired) =>
        if expired && !HasMarker(env, db, row) then Expire
        else if ActivelyOwned(row, now) then Refuse(JobLeaseConflict)
        else Grant
  }

  ghost function ClaimLocked(env: Env, db: Tables, id: Text, coordinator: Text, leaseSeconds: nat, token: Text,
                             now: Instant): Attempt<Claimed> {
    match GetJob(env, db, id, now)
    case Raised(d, e) => Raised(d, e)
    case Done(d, row) =>
      match Decide(env, d, row, now)
      case Refuse(e) => Raised(d, e)
      case Expire =>
        (match Journal(env, d, BlockedRow(row, now), "job_blocked", ExpiryNotice(), now)
         case Raised(d', e) => Raised(d', e)
         case Done(d', _) => Done(d', AuthorizationExpired))
      case Grant =>
        var leased := LeasedRow(env, row, coordinator, token, leaseSeconds, now);
        match Journal(env, d, leased, "lease_acquired", LeaseNotice(env, coordinator, now + leaseSeconds * SECOND), now)
        case Raised(d', e) => Raised(d', e)
        case Done(d', _) => Done(d', Leased(Sign(env, leased)))
  }

  // ---------------------------------------------------- heartbeat and complete

  function RenewalNotice(env: Env, expires: Instant): Json {
    Doc(["leaseExpiresAt"], [Str(env.iso(expires))])
  }

  ghost function HeartbeatLocked(env: Env, db: Tables, id: Text, coordinator: Text, token: Text, leaseSeconds: nat,
                                 now: Instant): Attempt<Job> {
    match AssertLease(env, db, id, coordinator, token, now)
    case Raised(d, e) => Raised(d, e)
    case Done(d, row) =>
      var expires := now + leaseSeconds * SECOND;
      var renewed := row.(expiresAt := Some(expires), updatedAt := now);
      match Journal(env, d, renewed, "lease_renewed", RenewalNotice(env, expires), now)
      case Raised(d', e) => Raised(d', e)
      case Done(d', _) => Done(d', Sign(env, renewed))
  }

  function JobDoc(r: Request): Json {
    Doc(["id", "missionId", "nodeId", "idempotencyKey", "capabilityEnvelopeFingerprint", "authorizationFingerprint"],
        [Str(r.id), Str(r.missionId), Str(r.nodeId), Str(r.idempotencyKey),
         Str(r.envelope.fingerprint), Str(r.envelope.authorizationFingerprint)])
  }

  function CompletionDoc(r: Request, result: Json): Json {
    Doc(["version", "job", "result"], [Int(1), JobDoc(r), result])
  }

  /** sanitized_output.pop("resultFingerprint"). */
  function ResultBody(output: Json): Json {
    if output.Obj? then Obj(Without(output.entries, A("resultFingerprint"))) else output
  }

  function WithFingerprint(body: Json, fp: Text): Json {
    if body.Obj? then Obj(body.entries + [Keyed(A("resultFingerprint"), Str(fp))]) else body
  }

  function CompletedRow(row: Job, state: JobState, output: Json, now: Instant): Job {
    row.(state := state, output := output, tokenHash := None, expiresAt := None, updatedAt := now)
  }

  function ResultNotice(fp: Text): Json {
    Doc(["resultFingerprint"], [Str(fp)])
  }

  function TerminalKind(state: JobState): string {
    "job_" + StateName(state)
  }

  ghost function CompleteLocked(env: Env, db: Tables, id: Text, coordinator: Text, token: Text, state: JobState,
                                output: Json, now: Instant): Attempt<Job> {
    if !Terminal(state) then Raised(db, Malformed)
    else match AssertLease(env, db, id, coordinator, token, now)
      case Raised(d, e) => Raised(d, e)
      case Done(d, row) =>
        match env.sanitizeOutput(row.request.executionHost, output)
        case None => Raised(d, Rejected)
        case Some(clean) =>
          var body := ResultBody(clean);
          match Fingerprint(env, CompletionDoc(row.request, body))
          case None => Raised(d, Rejected)
          case Some(fp) =>
            if Get(clean, "resultFingerprint") != Str(fp) then Raised(d, StoreError)
            else
              var done := CompletedRow(row, state, WithFingerprint(body, fp), now);
              match Journal(env, d, done, TerminalKind(state), ResultNotice(fp), now)
              case Raised(d', e) => Raised(d', e)
              case Done(d', _) => Done(d', Sign(env, done))
  }

  // ------------------------------------------------------ events and receipts

  ghost function AppendEventLocked(env: Env, db: Tables, id: Text, coordinator: Text, token: Text, kind: string,
                                   payload: Json, now: Instant): Attempt<nat> {
    match AssertLease(env, db, id, coordinator, token, now)
    case Raised(d, e) => Raised(d, e)
    case Done(d, _) => AppendEvent(env, d, id, kind, payload, now)
  }

  datatype ReceiptRequest = ReceiptRequest(
    coordinatorId: Text, leaseToken: Text,
    provider: Domain, operation: Text, status: ReceiptStatus, fingerprint: Text, payload: Json)

  function StatusName(s: ReceiptStatus): string {
    match s
    case Prepared => "prepared" case Dispatched => "dispatched" case Verified => "verified"
    case Ambiguous => "ambiguous" case NotDelivered => "failed"
  }

  function ReceiptDoc(r: Request, provider: Domain, operation: Text, status: ReceiptStatus, payload: Json): Json {
    Doc(["version", "job", "provider", "operation", "status", "payload"],
        [Int(1), JobDoc(r), Str(A(DomainName(provider))), Str(operation), Str(A(StatusName(status))), payload])
  }

  /** The columns of the UNIQUE constraint on external_receipts. */
  predicate SameReceiptKey(a: Receipt, b: Receipt) {
    && a.jobId == b.jobId && a.provider == b.provider && a.operation == b.operation
    && a.status == b.status && a.fingerprint == b.fingerprint
  }

  ghost function FindReceipt(receipts: map<Text, Receipt>, like: Receipt): (r: Option<Text>)
    ensures r.Some? ==> r.value in receipts && SameReceiptKey(receipts[r.value], like)
    ensures r.None? ==> forall k :: k in receipts ==> !SameReceiptKey(receipts[k], like)
  {
    if exists k :: k in receipts && SameReceiptKey(receipts[k], like)
    then var k :| k in receipts && SameReceiptKey(receipts[k], like); Some(k)
    else None
  }

  datatype Recorded = Recorded(id: Text, receipt: Receipt, isNew: bool)

  function ReceiptNotice(receiptId: Text, q: ReceiptRequest): Json {
    Doc(["receiptId", "provider", "operation", "status", "fingerprint"],
        [Str(receiptId), Str(A(DomainName(q.provider))), Str(q.operation),
         Str(A(StatusName(q.status))), Str(q.fingerprint)])
  }

  ghost function AppendReceiptLocked(env: Env, db: Tables, id: Text, q: ReceiptRequest, receiptId: Text,
                                     now: Instant): Attempt<Recorded> {
    match AssertLease(env, db, id, q.coordinatorId, q.leaseToken, now)
    case Raised(d, e) => Raised(d, e)
    case Done(d, row) =>
      if q.provider != row.request.executionHost then Raised(d, StoreError)
      else match env.sanitizeReceipt(q.provider, q.payload)
        case None => Raised(d, Rejected)
        case Some(clean) =>
          match Fingerprint(env, ReceiptDoc(row.request, q.provider, q.operation, q.status, clean))
          case None => Raised(d, Rejected)
          case Some(fp) =>
            if q.fingerprint != fp then Raised(d, StoreError)
            else
              var receipt := Receipt(id, q.provider, q.operation, q.status, q.fingerprint, clean, now);
              match FindReceipt(d.receipts, receipt)
              case Some(k) => Done(d, Recorded(k, d.receipts[k], false))  // INSERT OR IGNORE
              case None =>
                if receiptId in d.receipts then Raised(d, Malformed)
                else
                  match AppendEvent(env, d.(receipts := d.receipts[receiptId := receipt]), id,
                                    "external_receipt_recorded",
                          ReceiptNotice(receiptId, q), now)
                  case Raised(d', e) => Raised(d', e)
                  case Done(d', _) => Done(d', Recorded(receiptId, receipt, true))
  }

  // ------------------------------------------------------------------ restart

  /** _quarantine_invalid_jobs on one row. */
  ghost function RestartRow(env: Env, db: Tables, id: Text, now: Instant): Attempt<()>
    requires id in db.jobs
  {
    var row := db.jobs[id];
    if !Validates(env, row.request, now, true)
      || Fingerprint(env, RequestDoc(row.request)) != Some(row.requestFingerprint) then
      QuarantineJob(env, db, id, "invalid_persisted_contract", now)
    else if row.authenticator != [] then
      if Authentic(env, row) then Done(db, ())
      else QuarantineJob(env, db, id, "integrity_authenticator_mismatch", now)
    else if !row.request.executionHost.Research? then
      QuarantineJob(env, db, id, "legacy_effectful_job_missing_integrity", now)
    else Done(Store(env, db, row), ())
  }

  /** The restart pass over the first n rows; it runs outside a transaction. */
  ghost function RestartRows(env: Env, db: Tables, rows: seq<Text>, n: nat, now: Instant): Attempt<()>
    requires n <= |rows|
  {
    if n == 0 then Done(db, ())
    else match RestartRows(env, db, rows, n - 1, now)
      case Raised(d, e) => Raised(d, e)
      case Done(d, _) => if rows[n - 1] in d.jobs then RestartRow(env, d, rows[n - 1], now) else Done(d, ())
  }
}
