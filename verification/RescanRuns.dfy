/**
 When a requested rescan is honoured, and when it is lost.
 */
module RescanRuns {
  import opened Outcomes
  import opened PyText
  import opened StoreTables
  import opened ScanQueue
  import opened Coordinator
  import opened QueueRuns
  import opened ScanRuns

  /** The claim comes from the live worker, within its time window, under an enabled
      configuration whose authority has not expired. */
  predicate MayClaim(db: Tables, op: Op) {
    Claimable(db, op) && db.queue.value.configuration.authorityExpiresAt > op.now
  }

  ghost predicate AnsweredWithScan(env: Env, db: Tables, op: Op) {
    && op.action.ClaimQueueScan?
    && Step(env, db, op).1.Ok? && Step(env, db, op).1.value.claim.ScanGranted?
  }

  /** Such a claim is answered with a scan exactly when one is due and none is live. */
  lemma ClaimAnsweredExactlyWhen(env: Env, db: Tables, op: Op)
    requires MayClaim(db, op)
    ensures AnsweredWithScan(env, db, op) <==>
      db.queue.value.nextScanAt <= op.now && !LiveScan(db.queue.value, op.now)
  {
    hide LiveWorker;
  }

  /** After a rescan request the next claim is answered with a scan exactly when the
      request met no scan that is still live. */
  lemma RescanHonouredExactlyWhen(env: Env, db: Tables, request: Op, between: Tables, claim: Op)
    requires Rescans(db, request, between) && request.now <= claim.now && MayClaim(between, claim)
    ensures AnsweredWithScan(env, between, claim) <==> !LiveScan(db.queue.value, claim.now)
  {
    hide LiveWorker, Step;
    ClaimAnsweredExactlyWhen(env, between, claim);
  }

  // ------------------------------------------------------------------ over runs

  ghost predicate ReconfiguresAt(trace: seq<Tables>, ops: seq<Op>, m: nat)
    requires m < |ops| && |trace| == |ops| + 1
  {
    Reconfigures(trace[m], ops[m], trace[m + 1])
  }

  lemma RescanStepDue(env: Env, db: Tables, op: Op, after: Tables, t: Instant)
    requires QueueStep(env, db, op, after) && db.queue.Some? && db.queue.value.nextScanAt <= t
    requires !Completes(env, db, op, after) && !Fails(env, db, op, after) && !Reconfigures(db, op, after)
    ensures after.queue.Some? && after.queue.value.nextScanAt <= t
  {
    hide Unchanged, ScanValid, LiveWorker, CursorAfter;
  }

  /** A requested rescan stays due until a completion, a failure or a new
      configuration. */
  lemma {:induction false} RescanStaysDue(env: Env, trace: seq<Tables>, ops: seq<Op>, j: nat, k: nat)
    requires QueueRun(env, trace, ops) && |trace| == |ops| + 1 && j < k <= |ops|
    requires Rescans(trace[j], ops[j], trace[j + 1])
    requires forall m :: j < m < k ==> !EndsAt(env, trace, ops, m) && !ReconfiguresAt(trace, ops, m)
    ensures trace[k].queue.Some? && trace[k].queue.value.nextScanAt <= ops[j].now
    decreases k
  {
    hide After, QueueStep, Completes, Fails, Reconfigures;
    if k > j + 1 {
      RescanStaysDue(env, trace, ops, j, k - 1);
      RunQueueStep(env, trace, ops, k - 1);
      assert !EndsAt(env, trace, ops, k - 1) && !ReconfiguresAt(trace, ops, k - 1);
      RescanStepDue(env, trace[k - 1], ops[k - 1], trace[k], ops[j].now);
    }
  }

  /** Over a run: until a completion, a failure or a new configuration, a requested
      rescan is what the next claim is answered with, unless a scan is live. */
  lemma RescanHonouredInRun(env: Env, trace: seq<Tables>, ops: seq<Op>, j: nat, k: nat)
    requires QueueRun(env, trace, ops) && |trace| == |ops| + 1 && j < k < |ops|
    requires Rescans(trace[j], ops[j], trace[j + 1]) && ops[j].now <= ops[k].now
    requires forall m :: j < m < k ==> !EndsAt(env, trace, ops, m) && !ReconfiguresAt(trace, ops, m)
    requires MayClaim(trace[k], ops[k])
    ensures AnsweredWithScan(env, trace[k], ops[k]) <==> !LiveScan(trace[k].queue.value, ops[k].now)
  {
    hide QueueRun, Rescans, MayClaim, AnsweredWithScan;
    RescanStaysDue(env, trace, ops, j, k);
    ClaimAnsweredExactlyWhen(env, trace[k], ops[k]);
  }

  // -------------------------------------------------------------- certain rescans

  /** Whatever reports come, a scan stays due from now on: none is live that could be
      reported on. */
  predicate Settled(queue: Option<Queue>, now: Instant) {
    queue.Some? && queue.value.nextScanAt <= now
    && (queue.value.scan.Some? ==> queue.value.scan.value.expiresAt <= now)
  }

  lemma SettledStep(env: Env, db: Tables, op: Op, after: Tables, before: Instant)
    requires QueueStep(env, db, op, after) && Settled(db.queue, before) && before <= op.now
    requires !Grants(env, db, op, after)
    ensures Settled(after.queue, op.now)
  {
    hide Unchanged, LiveWorker, CursorAfter;
  }

  /** The scan stored at the request is not live at the request. */
  lemma RequestSettles(env: Env, trace: seq<Tables>, ops: seq<Op>, j: nat)
    requires QueueRun(env, trace, ops) && |trace| == |ops| + 1 && j < |ops|
    requires Rescans(trace[j], ops[j], trace[j + 1]) && !LiveScan(trace[j].queue.value, ops[j].now)
    ensures Settled(trace[j + 1].queue, ops[j].now)
  {
    hide After;
    if trace[j].queue.value.scan.Some? {
      var m := ScanProvenance(env, trace, ops, j);
      assert ScanChecked(env, ops[m]);
    }
  }

  lemma {:induction false} SettledRun(env: Env, trace: seq<Tables>, ops: seq<Op>, j: nat, k: nat)
    requires QueueRun(env, trace, ops) && |trace| == |ops| + 1 && Clock(ops) && j < k <= |ops|
    requires Rescans(trace[j], ops[j], trace[j + 1]) && !LiveScan(trace[j].queue.value, ops[j].now)
    requires forall m :: j < m < k ==> !GrantsAt(env, trace, ops, m)
    ensures Settled(trace[k].queue, ops[k - 1].now)
    decreases k
  {
    hide QueueRun, Settled, QueueStep, Rescans;
    if k == j + 1 {
      RequestSettles(env, trace, ops, j);
    } else {
      SettledRun(env, trace, ops, j, k - 1);
      RunQueueStep(env, trace, ops, k - 1);
      assert !GrantsAt(env, trace, ops, k - 1);
      SettledStep(env, trace[k - 1], ops[k - 1], trace[k], ops[k - 2].now);
    }
  }

  /** A rescan that is requested while no scan is live is what the next claim that may
      claim is answered with, whatever calls come between. */
  lemma RescanIsCertain(env: Env, trace: seq<Tables>, ops: seq<Op>, j: nat, k: nat)
    requires QueueRun(env, trace, ops) && |trace| == |ops| + 1 && Clock(ops) && j < k < |ops|
    requires Rescans(trace[j], ops[j], trace[j + 1]) && !LiveScan(trace[j].queue.value, ops[j].now)
    requires forall m :: j < m < k ==> !GrantsAt(env, trace, ops, m)
    requires MayClaim(trace[k], ops[k])
    ensures AnsweredWithScan(env, trace[k], ops[k])
  {
    hide QueueRun, Rescans, AnsweredWithScan, LiveWorker;
    SettledRun(env, trace, ops, j, k);
    assert ops[k - 1].now <= ops[k].now;
    ClaimAnsweredExactlyWhen(env, trace[k], ops[k]);
  }

  /** A run that goes on from the given one, up to the first claim that may be answered
      with a scan. */
  ghost predicate NextMayClaim(env: Env, trace: seq<Tables>, ops: seq<Op>, t: seq<Tables>, o: seq<Op>) {
    && QueueRun(env, t, o) && |t| == |o| + 1 && Clock(o)
    && |ops| < |o| && |trace| == |ops| + 1 && trace == t[..|trace|] && ops == o[..|ops|]
    && (forall m :: |ops| <= m < |o| - 1 ==> !GrantsAt(env, t, o, m))
    && MayClaim(t[|o| - 1], o[|o| - 1])
  }

  /** However the run goes on, the next claim that may claim is answered with a scan. */
  ghost predicate RescanCertain(env: Env, trace: seq<Tables>, ops: seq<Op>) {
    forall t, o :: NextMayClaim(env, trace, ops, t, o) ==> AnsweredWithScan(env, t[|o| - 1], o[|o| - 1])
  }

  /** The exact condition, known at the request: a rescan is honoured in every
      continuation if and only if no scan is live when it is requested. */
  lemma RescanCertainExactlyWhen(env: Env, trace: seq<Tables>, ops: seq<Op>)
    requires QueueRun(env, trace, ops) && |trace| == |ops| + 1 && Clock(ops) && IdealHash(env) && ops != []
    requires var j := |ops| - 1; Rescans(trace[j], ops[j], trace[j + 1])
    ensures var j := |ops| - 1;
      RescanCertain(env, trace, ops) <==> !LiveScan(trace[j].queue.value, ops[j].now)
  {
    hide QueueRun, LiveScan, MayClaim, AnsweredWithScan, IdealHash, After;
    var j := |ops| - 1;
    if LiveScan(trace[j].queue.value, ops[j].now) {
      var t, o := RescanCanBeLost(env, trace, ops);
      assert NextMayClaim(env, trace, ops, t, o);
    } else {
      forall t, o | NextMayClaim(env, trace, ops, t, o) ensures AnsweredWithScan(env, t[|o| - 1], o[|o| - 1]) {
        assert t[j] == trace[j] && t[j + 1] == trace[j + 1] && o[j] == ops[j];
        RescanIsCertain(env, t, o, j, |o| - 1);
      }
    }
  }

  /** One more call of a run. */
  lemma Extended(env: Env, trace: seq<Tables>, ops: seq<Op>, op: Op) returns (t: seq<Tables>, o: seq<Op>)
    requires QueueRun(env, trace, ops) && |trace| == |ops| + 1 && Clock(ops) && ops != []
    requires !op.action.Tamper? && ScanChecked(env, op) && op.now == ops[|ops| - 1].now
    ensures o == ops + [op] && t == trace + [After(env, trace[|ops|], op)]
    ensures QueueRun(env, t, o) && Clock(o) && |t| == |o| + 1
  {
    hide After, ScanChecked;
    o, t := ops + [op], trace + [After(env, trace[|ops|], op)];
  }

  /** A live scan can be reported on as failed; then the rescan is gone. */
  lemma RescanCanBeLost(env: Env, trace: seq<Tables>, ops: seq<Op>) returns (t: seq<Tables>, o: seq<Op>)
    requires QueueRun(env, trace, ops) && |trace| == |ops| + 1 && Clock(ops) && IdealHash(env) && ops != []
    requires var j := |ops| - 1;
      Rescans(trace[j], ops[j], trace[j + 1]) && LiveScan(trace[j].queue.value, ops[j].now)
    ensures NextMayClaim(env, trace, ops, t, o)
    ensures !AnsweredWithScan(env, t[|o| - 1], o[|o| - 1])
  {
    hide After, QueueRun, AnsweredWithScan, IdealHash;
    var (j, now) := (|ops| - 1, ops[|ops| - 1].now);
    var m := ScanProvenance(env, trace, ops, j);
    var db := trace[|ops|];
    var report := FailureOf(db.queue.value, ops[m].action.token, now);
    var t1, o1 := Extended(env, trace, ops, report);
    FailureEnds(env, db, ops[m].action.token, now);
    var d1 := t1[|o1|];
    var beat := BeatAgain(d1, now);
    var t2, o2 := Extended(env, t1, o1, beat);
    BeatMayClaim(env, d1, now);
    t, o := Extended(env, t2, o2, ClaimAfter(d1, now));
    ClaimAnsweredExactlyWhen(env, t2[|o2|], ClaimAfter(d1, now));
    assert t[|o| - 1] == t2[|o2|] && o[|o| - 1] == ClaimAfter(d1, now);
    forall n | |ops| <= n < |o| - 1 ensures !GrantsAt(env, t, o, n) {
      assert o[n] == report || o[n] == beat;
    }
    assert trace == t[..|trace|] && ops == o[..|ops|];
  }

  /** The holder reports its scan as failed. */
  function FailureOf(q: Queue, token: Text, now: Instant): Op
    requires q.scan.Some?
  {
    var s := q.scan.value;
    Op(FailQueueScan(ScanCredential(s.owner, s.id, token, q.configuration.configurationFingerprint), now, ""), now)
  }

  lemma FailureEnds(env: Env, db: Tables, token: Text, now: Instant)
    requires IdealHash(env) && db.queue.Some? && db.queue.value.enabled && LiveScan(db.queue.value, now)
    requires db.queue.value.scan.value.tokenHash == env.sha256(token)
    ensures var after := After(env, db, FailureOf(db.queue.value, token, now));
      && after.queue.Some? && after.queue.value.enabled && after.queue.value.nextScanAt == now + SCAN_INTERVAL
      && after.queue.value.configuration == db.queue.value.configuration
  {
  }

  /** The worker that beat last, or any where none did. */
  function WorkerOf(db: Tables): Text {
    if db.heartbeat.Some? then db.heartbeat.value.coordinatorId else []
  }

  function BeatAgain(db: Tables, now: Instant): Op {
    Op(BeatWorker(WorkerOf(db), [], now, []), now)
  }

  function ClaimAfter(db: Tables, now: Instant): Op {
    Op(ClaimQueueScan(ClaimRequest(WorkerOf(db), [], now), [], [0x73], []), now)
  }

  lemma BeatMayClaim(env: Env, db: Tables, now: Instant)
    requires db.queue.Some? && db.queue.value.enabled && db.queue.value.configuration.authorityExpiresAt > now
    ensures var after := After(env, db, BeatAgain(db, now));
      after.queue == db.queue && MayClaim(after, ClaimAfter(db, now))
  {
    BeatStored(env, db, now);
    hide After;
  }

  lemma BeatStored(env: Env, db: Tables, now: Instant)
    ensures After(env, db, BeatAgain(db, now)) == db.(heartbeat := Some(Heartbeat(WorkerOf(db), [], now, now)))
  {
  }

  // ----------------------------------------------------------------- lost rescans

  /** A rescan requested while a scan is live leaves no trace once a report ends that
      scan: the queue row is the one the report alone would have left, and no scan is
      due for the whole interval. */
  lemma RescanLost(env: Env, db: Tables, request: Op, between: Tables, report: Op, after: Tables)
    requires Rescans(db, request, between)
    requires Completes(env, between, report, after) || Fails(env, between, report, after)
    ensures after.queue.Some?
    ensures Completes(env, between, report, after) ==>
      after.queue.value == FinishScan(db.queue.value, after.queue.value.cursor, report.action.completion.scannedAt,
                                      db.queue.value.configuration.authorityExpiresAt > report.now, report.now)
    ensures Completes(env, between, report, after) ==>
      after.queue.value.nextScanAt == report.action.completion.scannedAt + SCAN_INTERVAL
    ensures Fails(env, between, report, after) ==>
      after.queue.value == db.queue.value.(nextScanAt := report.action.failedAt + SCAN_INTERVAL,
                                           lastError := Some(report.action.errorCode), scan := None,
                                           updatedAt := report.now)
  {
    hide ScanValid, CursorAfter;
  }

  /** So a claim within five minutes of that report is refused as not due. */
  lemma LostRescanRefused(env: Env, db: Tables, request: Op, between: Tables, report: Op, after: Tables, claim: Op)
    requires Rescans(db, request, between)
    requires Completes(env, between, report, after) || Fails(env, between, report, after)
    requires MayClaim(after, claim) && claim.now < report.now + (SCAN_INTERVAL - STALENESS)
    ensures Step(env, after, claim).1 == Ok(ScanReply(NotClaimed(NotDue)))
  {
    hide ScanValid, CursorAfter, LiveWorker;
    RescanLost(env, db, request, between, report, after);
    hide Rescans, FinishScan;
    assert after.queue.value.scan.None? by { ReportEndsScan(env, between, report, after); }
    assert after.queue.value.nextScanAt > claim.now;
  }

  lemma ReportEndsScan(env: Env, db: Tables, op: Op, after: Tables)
    requires Completes(env, db, op, after) || Fails(env, db, op, after)
    ensures after.queue.Some? && after.queue.value.scan.None?
  {
    hide ScanValid, CursorAfter;
  }
}
