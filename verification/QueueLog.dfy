/**
 The log of queue events over runs: what each call appends, that it counts the
 revisions, and that the expiry of an authority is logged once for each of them.
 */
module QueueLog {
  import opened Outcomes
  import opened StoreTables
  import opened Ledger
  import opened ScanQueue
  import opened Coordinator
  import opened QueueRuns
  import opened ScanRuns

  /** Events that neither configure nor log an expiry. */
  ghost predicate Ordinary(events: seq<QueueEvent>) {
    forall i :: 0 <= i < |events| ==> !events[i].AuthorityExpired? && !events[i].Configured?
  }

  ghost predicate Appends(before: seq<QueueEvent>, after: seq<QueueEvent>) {
    exists added :: Ordinary(added) && after == before + added
  }

  lemma AppendsJoin(a: seq<QueueEvent>, b: seq<QueueEvent>, c: seq<QueueEvent>)
    requires Appends(a, b) && Appends(b, c)
    ensures Appends(a, c)
  {
    var x :| Ordinary(x) && b == a + x;
    var y :| Ordinary(y) && c == b + y;
    assert Ordinary(x + y) && c == a + (x + y);
  }

  lemma AppendsOne(a: seq<QueueEvent>, e: QueueEvent)
    ensures Appends(a, a)
    ensures !e.AuthorityExpired? && !e.Configured? ==> Appends(a, a + [e])
  {
    assert Ordinary([]) && a == a + [];
    if !e.AuthorityExpired? && !e.Configured? { assert Ordinary([e]); }
  }

  lemma ScheduleOneAppends(env: Env, db: Tables, c: Configuration, o: Observation, active: bool, t: Tally, now: Instant)
    ensures Appends(db.queueEvents, ScheduleOne(env, db, c, o, active, t, now).db.queueEvents)
  {
    hide CreateLocked, ReadbackRequest, BoundElsewhere, OtherCandidateSameContent, Validates, Appends;
    var seen := Upsert(db, c.configurationFingerprint, o, now);
    var request := ReadbackRequest(env, c, o, now);
    CreateKeepsQueue(env, seen, request, now);
    AppendsOne(db.queueEvents, RescanRequested([], 0));
    if CreateLocked(env, seen, request, now).Done? {
      AppendsOne(db.queueEvents, CandidateScheduled(c.configurationFingerprint, o.candidateFingerprint,
                                                    CreateLocked(env, seen, request, now).value.row.request.id, now));
    }
  }

  lemma {:induction false} ScheduleManyAppends(
      env: Env, db: Tables, c: Configuration, os: seq<Observation>, n: nat, active: bool, now: Instant)
    requires n <= |os|
    ensures Appends(db.queueEvents, ScheduleMany(env, db, c, os, n, active, now).db.queueEvents)
  {
    hide ScheduleOne, Appends;
    if n == 0 {
      AppendsOne(db.queueEvents, RescanRequested([], 0));
    } else {
      ScheduleManyAppends(env, db, c, os, n - 1, active, now);
      match ScheduleMany(env, db, c, os, n - 1, active, now)
      case Raised(_, _) =>
      case Done(d, t) =>
        ScheduleOneAppends(env, d, c, os[n - 1], active, t, now);
        AppendsJoin(db.queueEvents, d.queueEvents, ScheduleOne(env, d, c, os[n - 1], active, t, now).db.queueEvents);
    }
  }

  /** What one call does to the log: a new configuration and a noticed expiry append
      just their own entry, and every other call only ordinary ones. */
  ghost predicate LogStep(db: Tables, op: Op, after: Tables) {
    if LogsExpiry(db, op, after) then
      after.queueEvents == db.queueEvents + [AuthorityExpired(db.queue.value.configuration.configurationFingerprint,
                                                              op.now)]
    else if Reconfigures(db, op, after) then
      after.queueEvents == db.queueEvents + [Configured(op.action.configuration.configurationFingerprint, op.now)]
    else Appends(db.queueEvents, after.queueEvents)
  }

  lemma CompletionLogs(env: Env, db: Tables, op: Op)
    requires op.action.CompleteQueueScan?
    ensures LogStep(db, op, After(env, db, op))
  {
    hide ScheduleMany, ScanValid, CursorAfter, FinishScan, Appends;
    var r := op.action.completion;
    ValidQueue(env, db.queue, r.credential, op.now);
    AppendsOne(db.queueEvents, RescanRequested([], 0));
    if Succeeds(env, db, op) {
      var q := db.queue.value;
      var active := q.configuration.authorityExpiresAt > op.now;
      ScheduleManyAppends(env, db, q.configuration, r.candidates, |r.candidates|, active, op.now);
      var many := ScheduleMany(env, db, q.configuration, r.candidates, |r.candidates|, active, op.now);
      var after := After(env, db, op);
      AppendsOne(many.db.queueEvents, after.queueEvents[|after.queueEvents| - 1]);
      AppendsJoin(db.queueEvents, many.db.queueEvents, after.queueEvents);
    } else {
      FailedCompletionLogs(env, db, op);
    }
  }

  lemma FailedCompletionLogs(env: Env, db: Tables, op: Op)
    requires op.action.CompleteQueueScan? && !Succeeds(env, db, op)
    ensures Appends(db.queueEvents, After(env, db, op).queueEvents)
  {
    hide ScheduleMany, ScanValid, CursorAfter, FinishScan, Appends;
    var r := op.action.completion;
    ValidQueue(env, db.queue, r.credential, op.now);
    AppendsOne(db.queueEvents, RescanRequested([], 0));
    if db.queue.Some? {
      var q := db.queue.value;
      ScheduleManyAppends(env, db, q.configuration, r.candidates, |r.candidates|,
                          q.configuration.authorityExpiresAt > op.now, op.now);
    }
  }

  lemma ClaimScanLogs(env: Env, db: Tables, op: Op)
    requires op.action.ClaimQueueScan?
    ensures LogStep(db, op, After(env, db, op))
  {
    hide LiveWorker, Appends, After;
    ClaimScanAfter(env, db, op);
    if db.queue.Some? {
      var cfp := db.queue.value.configuration.configurationFingerprint;
      AppendsOne(db.queueEvents, ScanStarted(op.action.scanId, cfp, op.now));
    } else {
      AppendsOne(db.queueEvents, RescanRequested([], 0));
    }
  }

  lemma SettingLogs(env: Env, db: Tables, op: Op)
    requires op.action.BeatWorker? || op.action.ConfigureQueue? || op.action.DisableQueue?
    ensures LogStep(db, op, After(env, db, op))
  {
    hide Unchanged, Appends;
    AppendsOne(db.queueEvents,
               Disabled(if db.queue.Some? then db.queue.value.configuration.configurationFingerprint else [], op.now));
  }

  lemma ReportLogs(env: Env, db: Tables, op: Op)
    requires op.action.FailQueueScan? || op.action.RequestRescan?
    ensures LogStep(db, op, After(env, db, op))
  {
    hide ScanValid, Appends, Min;
    if op.action.FailQueueScan? {
      ValidQueue(env, db.queue, op.action.credential, op.now);
      if db.queue.Some? {
        AppendsOne(db.queueEvents,
                   ScanFailed(op.action.credential.scanId, db.queue.value.configuration.configurationFingerprint,
                                              op.action.errorCode, op.now));
      }
    } else {
      AppendsOne(db.queueEvents, RescanRequested(op.action.configurationFingerprint, op.now));
    }
    AppendsOne(db.queueEvents, RescanRequested([], 0));
  }

  lemma LogStepCases(env: Env, db: Tables, op: Op)
    requires !op.action.Tamper?
    ensures LogStep(db, op, After(env, db, op))
  {
    hide After, LogStep, Succeeds;
    if LedgerCall(op) { LedgerLogs(env, db, op); }
    else if op.action.CompleteQueueScan? { CompletionLogs(env, db, op); }
    else if op.action.ClaimQueueScan? { ClaimScanLogs(env, db, op); }
    else if op.action.FailQueueScan? || op.action.RequestRescan? { ReportLogs(env, db, op); }
    else { SettingLogs(env, db, op); }
  }

  lemma LedgerLogs(env: Env, db: Tables, op: Op)
    requires LedgerCall(op)
    ensures LogStep(db, op, After(env, db, op))
  {
    hide After, Appends;
    LedgerCallKeepsQueue(env, db, op);
    AppendsOne(db.queueEvents, RescanRequested([], 0));
  }

  // --------------------------------------------------------- counting revisions

  function Configurations(events: seq<QueueEvent>): nat {
    if events == [] then 0
    else Configurations(events[..|events| - 1]) + (if events[|events| - 1].Configured? then 1 else 0)
  }

  lemma {:induction false} ConfigurationsJoin(a: seq<QueueEvent>, b: seq<QueueEvent>)
    requires Ordinary(b)
    ensures Configurations(a + b) == Configurations(a)
  {
    if b == [] {
      assert a + b == a;
    } else {
      ConfigurationsJoin(a, b[..|b| - 1]);
      assert (a + b)[..|a + b| - 1] == a + b[..|b| - 1];
    }
  }

  function Revision(queue: Option<Queue>): nat {
    match queue case Some(q) => q.revision case None => 0
  }

  lemma RevisionStep(env: Env, db: Tables, op: Op, after: Tables)
    requires QueueStep(env, db, op, after)
    ensures Revision(after.queue) == Revision(db.queue) + if Reconfigures(db, op, after) then 1 else 0
    ensures LogsExpiry(db, op, after) ==> !Reconfigures(db, op, after)
  {
    hide Unchanged, LiveWorker, CursorAfter;
  }

  /** The log holds one configuration entry for each revision. */
  lemma {:induction false} RevisionsAreLogged(env: Env, trace: seq<Tables>, ops: seq<Op>, k: nat)
    requires QueueRun(env, trace, ops) && |trace| == |ops| + 1 && k <= |ops|
    ensures Configurations(trace[k].queueEvents) == Revision(trace[k].queue)
  {
    hide After, QueueStep, Reconfigures, LogsExpiry, LogStep;
    if k > 0 {
      hide Configurations, Revision;
      var (db, op, after) := (trace[k - 1], ops[k - 1], trace[k]);
      RevisionsAreLogged(env, trace, ops, k - 1);
      RunQueueStep(env, trace, ops, k - 1);
      RevisionStep(env, db, op, after);
      LogStepCases(env, db, op);
      LogStepCounts(db, op, after);
    }
  }

  lemma {:induction false} LogStepCounts(db: Tables, op: Op, after: Tables)
    requires LogStep(db, op, after) && (LogsExpiry(db, op, after) ==> !Reconfigures(db, op, after))
    ensures Configurations(after.queueEvents)
      == Configurations(db.queueEvents) + if Reconfigures(db, op, after) then 1 else 0
  {
    hide Reconfigures, LogsExpiry;
    if LogsExpiry(db, op, after) || Reconfigures(db, op, after) {
      assert after.queueEvents[..|after.queueEvents| - 1] == db.queueEvents;
    } else {
      var added :| Ordinary(added) && after.queueEvents == db.queueEvents + added;
      ConfigurationsJoin(db.queueEvents, added);
    }
  }

  // ------------------------------------------------------------- logging expiry

  ghost predicate ConfiguredBetween(events: seq<QueueEvent>, p: nat, q: nat) {
    exists c :: p < c < q && c < |events| && events[c].Configured?
  }

  /** The current authority's expiry is on record and nothing can undo that. */
  predicate ExpiryStands(queue: Option<Queue>, now: Instant) {
    && queue.Some? && queue.value.lastError == Some(AUTHORITY_EXPIRED)
    && queue.value.configuration.authorityExpiresAt <= now && queue.value.scan.None?
  }

  /** Between two logged expiries there is a configuration; after one without any, the
      expiry stands. */
  ghost predicate ExpiriesSettled(db: Tables, now: Instant) {
    var events := db.queueEvents;
    && (forall p, q :: 0 <= p < q < |events| && events[p].AuthorityExpired? && events[q].AuthorityExpired? ==>
          ConfiguredBetween(events, p, q))
    && (forall p :: 0 <= p < |events| && events[p].AuthorityExpired? && !ConfiguredBetween(events, p, |events|) ==>
          ExpiryStands(db.queue, now))
  }

  lemma StandsStep(env: Env, db: Tables, op: Op, after: Tables, before: Instant)
    requires QueueStep(env, db, op, after) && before <= op.now && ExpiryStands(db.queue, before)
    ensures Reconfigures(db, op, after) || ExpiryStands(after.queue, op.now)
    ensures !LogsExpiry(db, op, after)
  {
    hide Unchanged, LiveWorker, CursorAfter;
  }

  lemma BetweenGrows(events: seq<QueueEvent>, added: seq<QueueEvent>, p: nat, q: nat)
    requires q <= |events| && ConfiguredBetween(events, p, q)
    ensures ConfiguredBetween(events + added, p, q) && forall r :: q <= r ==> ConfiguredBetween(events + added, p, r)
  {
    var c :| p < c < q && c < |events| && events[c].Configured?;
    assert (events + added)[c].Configured?;
  }

  lemma SettledOrdinary(db: Tables, after: Tables, added: seq<QueueEvent>, before: Instant, now: Instant)
    requires ExpiriesSettled(db, before) && Ordinary(added) && after.queueEvents == db.queueEvents + added
    requires ExpiryStands(db.queue, before) ==> ExpiryStands(after.queue, now)
    ensures ExpiriesSettled(after, now)
  {
    hide ConfiguredBetween, ExpiryStands;
    var (es, fs) := (db.queueEvents, after.queueEvents);
    forall p, q | 0 <= p < q < |fs| && fs[p].AuthorityExpired? && fs[q].AuthorityExpired?
      ensures ConfiguredBetween(fs, p, q) {
      assert q < |es| && es[p] == fs[p] && es[q] == fs[q];
      BetweenGrows(es, added, p, q);
    }
    forall p | 0 <= p < |fs| && fs[p].AuthorityExpired? && !ConfiguredBetween(fs, p, |fs|)
      ensures ExpiryStands(after.queue, now) {
      assert p < |es| && es[p] == fs[p];
      if ConfiguredBetween(es, p, |es|) { BetweenGrows(es, added, p, |es|); }
    }
  }

  lemma SettledConfigured(db: Tables, after: Tables, e: QueueEvent, before: Instant, now: Instant)
    requires ExpiriesSettled(db, before) && e.Configured? && after.queueEvents == db.queueEvents + [e]
    ensures ExpiriesSettled(after, now)
  {
    hide ExpiryStands;
    var (es, fs) := (db.queueEvents, after.queueEvents);
    forall p, q | 0 <= p < q < |fs| && fs[p].AuthorityExpired? && fs[q].AuthorityExpired?
      ensures ConfiguredBetween(fs, p, q) {
      assert q < |es| && es[p] == fs[p] && es[q] == fs[q];
      BetweenGrows(es, [e], p, q);
    }
    assert fs[|es|].Configured?;
  }

  lemma SettledExpired(db: Tables, after: Tables, e: QueueEvent, before: Instant, now: Instant)
    requires ExpiriesSettled(db, before) && after.queueEvents == db.queueEvents + [e]
    requires !ExpiryStands(db.queue, before) && ExpiryStands(after.queue, now)
    ensures ExpiriesSettled(after, now)
  {
    hide ExpiryStands, ConfiguredBetween;
    var (es, fs) := (db.queueEvents, after.queueEvents);
    forall p, q | 0 <= p < q < |fs| && fs[p].AuthorityExpired? && fs[q].AuthorityExpired?
      ensures ConfiguredBetween(fs, p, q) {
      assert es[p] == fs[p];
      if q < |es| {
        assert es[q] == fs[q];
        BetweenGrows(es, [e], p, q);
      } else {
        BetweenGrows(es, [e], p, |es|);
      }
    }
  }

  lemma ExpiryIsNew(db: Tables, op: Op, after: Tables, before: Instant)
    requires LogsExpiry(db, op, after)
    ensures !ExpiryStands(db.queue, before) && ExpiryStands(after.queue, op.now)
  {
  }

  lemma {:induction false} RunExpiriesSettled(env: Env, trace: seq<Tables>, ops: seq<Op>, k: nat)
    requires QueueRun(env, trace, ops) && |trace| == |ops| + 1 && Clock(ops) && k <= |ops|
    ensures ExpiriesSettled(trace[k], if k == 0 then 0 else ops[k - 1].now)
  {
    hide After, QueueStep, Reconfigures, LogsExpiry, ExpiryStands, ConfiguredBetween, QueueRun;
    EmptyLog(env, trace, ops);
    if k > 0 {
      hide ExpiriesSettled;
      var (db, op, after) := (trace[k - 1], ops[k - 1], trace[k]);
      var before := if k == 1 then 0 else ops[k - 2].now;
      RunExpiriesSettled(env, trace, ops, k - 1);
      assert k > 1 ==> ops[k - 2].now <= ops[k - 1].now;
      SettledStep(env, trace, ops, k - 1, before);
    }
  }

  lemma EmptyLog(env: Env, trace: seq<Tables>, ops: seq<Op>)
    requires QueueRun(env, trace, ops)
    ensures trace[0].queueEvents == [] && trace[0].queue.None?
  {
  }

  lemma SettledStep(env: Env, trace: seq<Tables>, ops: seq<Op>, k: nat, before: Instant)
    requires QueueRun(env, trace, ops) && |trace| == |ops| + 1 && k < |ops|
    requires ExpiriesSettled(trace[k], before) && (trace[k].queue.Some? ==> before <= ops[k].now)
    ensures ExpiriesSettled(trace[k + 1], ops[k].now)
  {
    hide After, QueueStep, Reconfigures, ExpiriesSettled, QueueRun, ConfiguredBetween;
    var (db, op, after) := (trace[k], ops[k], trace[k + 1]);
    RunQueueStep(env, trace, ops, k);
    RunLogStep(env, trace, ops, k);
    RevisionStep(env, db, op, after);
    if ExpiryStands(db.queue, before) { StandsStep(env, db, op, after, before); }
    if LogsExpiry(db, op, after) {
      ExpiryIsNew(db, op, after, before);
      var cfp := db.queue.value.configuration.configurationFingerprint;
      SettledExpired(db, after, AuthorityExpired(cfp, op.now), before, op.now);
    } else if Reconfigures(db, op, after) {
      SettledConfigured(db, after, after.queueEvents[|db.queueEvents|], before, op.now);
    } else {
      var added :| Ordinary(added) && after.queueEvents == db.queueEvents + added;
      SettledOrdinary(db, after, added, before, op.now);
    }
  }

  lemma RunLogStep(env: Env, trace: seq<Tables>, ops: seq<Op>, k: nat)
    requires QueueRun(env, trace, ops) && |trace| == |ops| + 1 && k < |ops|
    ensures LogStep(trace[k], ops[k], trace[k + 1])
  {
    hide After, LogStep;
    LogStepCases(env, trace[k], ops[k]);
  }

  /** Each revision logs the expiry of its authority at most once: between any two
      such entries of the log there is a configuration entry. */
  lemma ExpiryLoggedOnce(env: Env, trace: seq<Tables>, ops: seq<Op>, k: nat, p: nat, q: nat)
    requires QueueRun(env, trace, ops) && |trace| == |ops| + 1 && Clock(ops) && k <= |ops|
    requires p < q < |trace[k].queueEvents|
    requires trace[k].queueEvents[p].AuthorityExpired? && trace[k].queueEvents[q].AuthorityExpired?
    ensures ConfiguredBetween(trace[k].queueEvents, p, q)
  {
    hide QueueRun, ConfiguredBetween;
    RunExpiriesSettled(env, trace, ops, k);
  }
}
