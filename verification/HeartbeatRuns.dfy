/**
 The worker heartbeat over runs: one coordinator at a time, and only the one with
 the newest heartbeat is granted scans.
 */
module HeartbeatRuns {
  import opened Outcomes
  import opened StoreTables
  import opened ScanQueue
  import opened Coordinator
  import opened QueueRuns
  import opened ScanRuns

  /** The poll is of the expected catalog, recent, and not in the future. */
  predicate FreshPoll(op: Op) {
    && op.action.BeatWorker? && op.action.catalog == op.action.expected
    && op.now - WORKER_TTL <= op.action.polledAt <= op.now + FUTURE_SKEW
  }

  /** Another coordinator's heartbeat is less than 45 seconds old. */
  predicate HeldByAnother(db: Tables, op: Op) {
    && op.action.BeatWorker? && db.heartbeat.Some?
    && db.heartbeat.value.coordinatorId != op.action.coordinator
    && op.now < db.heartbeat.value.receivedAt + WORKER_TTL
  }

  /** The call records this coordinator's heartbeat. */
  ghost predicate Beats(db: Tables, op: Op, after: Tables) {
    && FreshPoll(op) && !HeldByAnother(db, op)
    && after.heartbeat == Some(Heartbeat(op.action.coordinator, op.action.catalog, op.action.polledAt, op.now))
  }

  /** A heartbeat is accepted exactly when the poll is fresh and no other coordinator
      holds the place; nothing else touches the record. */
  lemma HeartbeatAnswered(env: Env, db: Tables, op: Op)
    requires op.action.BeatWorker?
    ensures Succeeds(env, db, op) <==> FreshPoll(op) && !HeldByAnother(db, op)
    ensures if Succeeds(env, db, op) then Beats(db, op, After(env, db, op)) else After(env, db, op) == db
  {
  }

  lemma SettingKeepsHeartbeat(env: Env, db: Tables, op: Op)
    requires op.action.ConfigureQueue? || op.action.DisableQueue?
    ensures After(env, db, op).heartbeat == db.heartbeat
  {
    hide Unchanged;
  }

  lemma ClaimKeepsHeartbeat(env: Env, db: Tables, op: Op)
    requires op.action.ClaimQueueScan?
    ensures After(env, db, op).heartbeat == db.heartbeat
  {
    hide LiveWorker, After;
    ClaimScanAfter(env, db, op);
  }

  lemma ReportKeepsHeartbeat(env: Env, db: Tables, op: Op)
    requires op.action.FailQueueScan? || op.action.RequestRescan?
    ensures After(env, db, op).heartbeat == db.heartbeat
  {
    hide ScanValid, Min;
  }

  lemma CompletionKeepsHeartbeat(env: Env, db: Tables, op: Op)
    requires op.action.CompleteQueueScan?
    ensures After(env, db, op).heartbeat == db.heartbeat
  {
    hide ScheduleMany, ScanValid, CursorAfter, FinishScan;
    var r := op.action.completion;
    if db.queue.Some? {
      var q := db.queue.value;
      ScheduleKeepsQueueRow(env, db, q.configuration, r.candidates, |r.candidates|,
                            q.configuration.authorityExpiresAt > op.now, op.now);
    }
    ValidQueue(env, db.queue, r.credential, op.now);
  }

  lemma HeartbeatStep(env: Env, db: Tables, op: Op)
    requires !op.action.Tamper?
    ensures After(env, db, op).heartbeat == db.heartbeat || Beats(db, op, After(env, db, op))
  {
    hide After, Succeeds;
    if LedgerCall(op) { LedgerCallKeepsQueue(env, db, op); }
    else if op.action.BeatWorker? { HeartbeatAnswered(env, db, op); }
    else if op.action.ClaimQueueScan? { ClaimKeepsHeartbeat(env, db, op); }
    else if op.action.CompleteQueueScan? { CompletionKeepsHeartbeat(env, db, op); }
    else if op.action.ConfigureQueue? || op.action.DisableQueue? { SettingKeepsHeartbeat(env, db, op); }
    else { ReportKeepsHeartbeat(env, db, op); }
  }

  // ------------------------------------------------------------------ over runs

  ghost predicate BeatsAt(trace: seq<Tables>, ops: seq<Op>, m: nat)
    requires m < |ops| && |trace| == |ops| + 1
  {
    Beats(trace[m], ops[m], trace[m + 1])
  }

  /** The m-th call recorded the heartbeat that the store holds before the k-th, and no
      call recorded one since. */
  ghost predicate NewestBeat(trace: seq<Tables>, ops: seq<Op>, k: nat, m: nat)
    requires |trace| == |ops| + 1 && k <= |ops|
  {
    && m < k && BeatsAt(trace, ops, m) && trace[k].heartbeat == trace[m + 1].heartbeat
    && forall j :: m < j < k ==> !BeatsAt(trace, ops, j)
  }

  /** A recorded heartbeat is the newest accepted one. */
  lemma {:induction false} HeartbeatProvenance(env: Env, trace: seq<Tables>, ops: seq<Op>, k: nat) returns (m: nat)
    requires QueueRun(env, trace, ops) && |trace| == |ops| + 1 && k <= |ops| && trace[k].heartbeat.Some?
    ensures NewestBeat(trace, ops, k, m)
  {
    hide After, Beats;
    assert k > 0;
    HeartbeatStep(env, trace[k - 1], ops[k - 1]);
    if BeatsAt(trace, ops, k - 1) {
      m := k - 1;
    } else {
      m := HeartbeatProvenance(env, trace, ops, k - 1);
    }
  }

  /** Once recorded, a heartbeat is only ever replaced. */
  lemma {:induction false} HeartbeatStays(env: Env, trace: seq<Tables>, ops: seq<Op>, i: nat, k: nat)
    requires QueueRun(env, trace, ops) && |trace| == |ops| + 1 && i < k <= |ops| && BeatsAt(trace, ops, i)
    ensures trace[k].heartbeat.Some?
  {
    hide After;
    if k > i + 1 {
      HeartbeatStays(env, trace, ops, i, k - 1);
      HeartbeatStep(env, trace[k - 1], ops[k - 1]);
    }
  }

  /** Heartbeats of two different coordinators are accepted at least 45 seconds apart. */
  lemma {:induction false} HeartbeatsApart(env: Env, trace: seq<Tables>, ops: seq<Op>, i: nat, j: nat)
    requires QueueRun(env, trace, ops) && |trace| == |ops| + 1 && Clock(ops) && i < j < |ops|
    requires BeatsAt(trace, ops, i) && BeatsAt(trace, ops, j)
    requires ops[i].action.coordinator != ops[j].action.coordinator
    ensures ops[j].now >= ops[i].now + WORKER_TTL
    decreases j
  {
    hide After, QueueRun;
    HeartbeatStays(env, trace, ops, i, j);
    var m := HeartbeatProvenance(env, trace, ops, j);
    assert m >= i;
    if ops[m].action.coordinator == ops[j].action.coordinator {
      HeartbeatsApart(env, trace, ops, i, m);
      assert ops[m].now <= ops[j].now;
    } else {
      assert ops[i].now <= ops[m].now;
    }
  }

  /** A scan is granted only to the coordinator of the newest accepted heartbeat, of
      that heartbeat's catalog, and within its 45 seconds. */
  lemma ScansGoToNewestHeartbeat(env: Env, trace: seq<Tables>, ops: seq<Op>, k: nat) returns (m: nat)
    requires QueueRun(env, trace, ops) && |trace| == |ops| + 1 && k < |ops| && GrantsAt(env, trace, ops, k)
    ensures NewestBeat(trace, ops, k, m)
    ensures ops[m].action.coordinator == ops[k].action.claim.coordinatorId
    ensures ops[m].action.catalog == ops[k].action.claim.catalogFingerprint == ops[k].action.expected
    ensures ops[k].now < ops[m].now + WORKER_TTL
  {
    hide After, QueueRun;
    m := HeartbeatProvenance(env, trace, ops, k);
  }
}
