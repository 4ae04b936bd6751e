/**
 One call on the coordinator store as an atomic step, and runs of steps.
 */
module Coordinator {
  import opened PyText
  import opened Canonical
  import opened StoreTables
  import opened Ledger
  import opened ScanQueue

  datatype Action =
    | CreateJob(request: Request)
    | ReadJob(id: Text)                    // get_job, and the check in replay_events and list_receipts
    | ReadJobs(rows: seq<Text>)            // list_jobs
    | ClaimJob(id: Text, coordinator: Text, leaseSeconds: nat, token: Text)
    | HeartbeatJob(id: Text, coordinator: Text, token: Text, leaseSeconds: nat)
    | CompleteJob(id: Text, coordinator: Text, token: Text, state: JobState, output: Json)
    | AddEvent(id: Text, coordinator: Text, token: Text, kind: string, payload: Json)
    | AddReceipt(id: Text, receipt: ReceiptRequest, receiptId: Text)
    | BeatWorker(coordinator: Text, catalog: Text, polledAt: Instant, expected: Text)
    | ConfigureQueue(configuration: Configuration)
    | DisableQueue
    | ClaimQueueScan(claim: ClaimRequest, expected: Text, scanId: Text, token: Text)
    | CompleteQueueScan(completion: CompleteRequest)
    | FailQueueScan(credential: ScanCredential, failedAt: Instant, errorCode: string)
    | RequestRescan(configurationFingerprint: Text, requestedAt: Instant)
    | Restart(rows: seq<Text>)             // initialize, over the rows of SELECT * FROM jobs
    | Tamper(tables: Tables)               // the database file is replaced

  /** One call, with the clock reading it uses. */
  datatype Op = Op(action: Action, now: Instant)

  datatype Reply =
    | NoReply
    | JobReply(row: Job)
    | JobsReply(rows: seq<Job>)
    | LeaseReply(row: Job, token: Text)
    | EventReply(sequence: nat)
    | ReceiptReply(recorded: Recorded)
    | ScanReply(claim: ScanClaim)

  function Answer<T>(r: (Tables, Result<T>), wrap: T -> Reply): (Tables, Result<Reply>) {
    match r.1
    case Ok(v) => (r.0, Ok(wrap(v)))
    case Err(e) => (r.0, Err(e))
  }

  /** claim_job raises after the transaction that blocked the job has committed. */
  ghost function ClaimStep(env: Env, db: Tables, id: Text, coordinator: Text, leaseSeconds: nat, token: Text,
                           now: Instant): (Tables, Result<Reply>) {
    var r: (Tables, Result<Claimed>) := Commit(db, ClaimLocked(env, db, id, coordinator, leaseSeconds, token, now));
    match r.1
    case Err(e) => (r.0, Err(e))
    case Ok(claimed) =>
      match claimed
      case AuthorizationExpired => (r.0, Err(JobLeaseConflict))
      case Leased(row) => (r.0, Ok(LeaseReply(row, token)))
  }

  /** Outside a transaction every statement stays. */
  ghost function RestartStep(env: Env, db: Tables, rows: seq<Text>, now: Instant): (Tables, Result<Reply>) {
    match RestartRows(env, db, rows, |rows|, now)
    case Done(d, _) => (d, Ok(NoReply))
    case Raised(d, e) => (d, Err(e))
  }

  ghost function Step(env: Env, db: Tables, op: Op): (Tables, Result<Reply>) {
    var now := op.now;
    match op.action
    case CreateJob(r) => Answer(Commit(db, CreateLocked(env, db, r, now)), (c: Created) => JobReply(c.row))
    case ReadJob(id) => Answer(Commit(db, GetJob(env, db, id, now)), (j: Job) => JobReply(j))
    case ReadJobs(rows) =>
      if exists i :: 0 <= i < |rows| && rows[i] !in db.jobs then (db, Err(Malformed))
      else Answer(Commit(db, ListJobs(env, db, rows, |rows|, now)), (js: seq<Job>) => JobsReply(js))
    case ClaimJob(id, c, l, t) => ClaimStep(env, db, id, c, l, t, now)
    case HeartbeatJob(id, c, t, l) => Answer(Commit(db, HeartbeatLocked(env, db, id, c, t, l, now)),
                                             (j: Job) => JobReply(j))
    case CompleteJob(id, c, t, s, o) => Answer(Commit(db, CompleteLocked(env, db, id, c, t, s, o, now)),
                                               (j: Job) => JobReply(j))
    case AddEvent(id, c, t, k, p) => Answer(Commit(db, AppendEventLocked(env, db, id, c, t, k, p, now)),
                                            (n: nat) => EventReply(n))
    case AddReceipt(id, r, rid) => Answer(Commit(db, AppendReceiptLocked(env, db, id, r, rid, now)),
                                          (r: Recorded) => ReceiptReply(r))
    case BeatWorker(c, f, p, x) => Answer(Commit(db, HeartbeatWorker(db, c, f, p, x, now)), (_: ()) => NoReply)
    case ConfigureQueue(c) => Answer(Commit(db, Configure(db, c, now)), (_: ()) => NoReply)
    case DisableQueue => Answer(Commit(db, Disable(db, now)), (_: ()) => NoReply)
    case ClaimQueueScan(r, x, s, t) => Answer(Commit(db, ClaimScan(env, db, r, x, s, t, now)),
                                              (c: ScanClaim) => ScanReply(c))
    case CompleteQueueScan(r) => Answer(Commit(db, CompleteScan(env, db, r, now)), (_: Tally) => NoReply)
    case FailQueueScan(c, f, e) => Answer(Commit(db, FailScan(env, db, c, f, e, now)), (_: ()) => NoReply)
    case RequestRescan(f, at) => Answer(Commit(db, Rescan(db, f, at, now)), (_: ()) => NoReply)
    case Restart(rows) => RestartStep(env, db, rows, now)
    case Tamper(d) => (d, Ok(NoReply))
  }

  ghost function After(env: Env, db: Tables, op: Op): Tables { Step(env, db, op).0 }

  ghost predicate Succeeds(env: Env, db: Tables, op: Op) { Step(env, db, op).1.Ok? }

  /** trace[i] is what the tables hold before the i-th call. */
  ghost predicate Run(env: Env, trace: seq<Tables>, ops: seq<Op>) {
    && |trace| == |ops| + 1 && trace[0] == EMPTY
    && forall i :: 0 <= i < |ops| ==> trace[i + 1] == After(env, trace[i], ops[i])
  }
}
