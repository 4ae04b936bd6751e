/**
 Readback scheduling: what the candidate rows of the scan queue keep over a run,
 and exactly what one accepted scan schedules.
 */
module CandidateRuns {
  import opened PyText
  import opened StoreTables
  import opened Ledger
  import opened ScanQueue
  import opened Coordinator
  import opened StoreInvariant
  import opened StoreSteps
  import opened QueueSteps
  import opened QueueRuns
  import opened LeaseRuns
  import opened Bindings

  lemma StepKeepsCandidates(env: Env, db: Tables, op: Op)
    requires Sound(env, db) && !op.action.Tamper?
    ensures CandidatesKept(db, After(env, db, op))
  {
    hide Sound, After;
    if LedgerCall(op) { LedgerCallKeepsQueue(env, db, op); }
    else if op.action.CompleteQueueScan? { CompleteScanStepSound(env, db, op); }
    else if op.action.ClaimQueueScan? || op.action.FailQueueScan? || op.action.RequestRescan? {
      ScanCallFrame(env, db, op);
    }
    else { ConfigureCallFrame(env, db, op); }
  }

  /** Over any run a stored candidate keeps its configuration, its observation and,
      once it has one, its readback job. */
  lemma {:induction false} CandidateFrozen(env: Env, trace: seq<Tables>, ops: seq<Op>, i: nat, k: nat)
    requires Lawful(env, trace, ops) && |trace| == |ops| + 1 && i <= k <= |ops|
    ensures CandidatesKept(trace[i], trace[k])
  {
    hide Sound, After, JobSteps, Validated, Signing, CandidatesKept;
    if k == i {
      CandidatesReflexive(trace[i]);
    } else {
      CandidateFrozen(env, trace, ops, i, k - 1);
      RunStep(env, trace, ops, k - 1);
      StepKeepsCandidates(env, trace[k - 1], ops[k - 1]);
      CandidatesTransitive(trace[i], trace[k - 1], trace[k]);
    }
  }

  lemma CandidatesReflexive(db: Tables)
    ensures CandidatesKept(db, db)
  {
  }

  /** In every reachable state distinct candidates have distinct readback jobs. */
  lemma DistinctReadbacks(env: Env, trace: seq<Tables>, ops: seq<Op>, n: nat, k: Text, k': Text)
    requires Lawful(env, trace, ops) && IdealHash(env) && |trace| == |ops| + 1 && n <= |ops|
    requires k in trace[n].candidates && k' in trace[n].candidates && k != k'
    requires trace[n].candidates[k].readbackJobId.Some?
    ensures trace[n].candidates[k].readbackJobId != trace[n].candidates[k'].readbackJobId
  {
    hide Lawful, IdealHash, ReadbackKey, RowsSound, KeysUnique, EventsSound, TerminalLogged, ReceiptsSound;
    RunSound(env, trace, ops, n);
    var db := trace[n];
    if db.candidates[k].readbackJobId == db.candidates[k'].readbackJobId {
      assert LinkSound(env, db, k) && LinkSound(env, db, k');
      var key := db.jobs[db.candidates[k].readbackJobId.value].request.idempotencyKey;
      var c: Configuration, o: Observation :| o.candidateFingerprint == k && key == ReadbackKey(env, c, o);
      var c': Configuration, o': Observation :| o'.candidateFingerprint == k' && key == ReadbackKey(env, c', o');
      ReadbackKeyBinds(env, c, o, c', o');
      assert false;
    }
  }

  /** Once the authority has expired, a completed scan creates no job. */
  lemma NoJobAfterExpiry(env: Env, db: Tables, op: Op)
    requires Sound(env, db) && op.action.CompleteQueueScan? && db.queue.Some?
    requires db.queue.value.configuration.authorityExpiresAt <= op.now
    ensures After(env, db, op).jobs == db.jobs
  {
    hide Sound, CompleteScan;
    CompleteScanSound(env, db, op.action.completion, op.now);
  }

  // ---------------------------------------------- exactly what a scan schedules

  predicate Settled(d: Tables, k: Text, active: bool) {
    k in d.candidates && (active ==> d.candidates[k].readbackJobId.Some?)
  }

  /** Every candidate looked at so far is stored; under a live authority each has
      its readback job; the tally counts exactly the new rows and the new jobs. */
  ghost predicate Accounted(db: Tables, d: Tables, os: seq<Observation>, n: nat, active: bool, t: Tally)
    requires n <= |os|
  {
    && (forall i :: 0 <= i < n ==> Settled(d, os[i].candidateFingerprint, active))
    && |d.candidates| == |db.candidates| + t.upserted
    && |d.jobs| == |db.jobs| + t.scheduled
  }

  lemma CreateCounts(env: Env, db: Tables, r: Request, now: Instant)
    requires Sound(env, db) && CreateLocked(env, db, r, now).Done?
    ensures var (d, job) := (CreateLocked(env, db, r, now).db, CreateLocked(env, db, r, now).value);
      |d.jobs| == |db.jobs| + (if job.isNew then 1 else 0) && d.candidates == db.candidates
  {
    hide Sound, Fingerprint, RequestDoc, QueuedNotice, NewRow;
    match FindByKey(db.jobs, r.idempotencyKey)
    case Some(id) => NoQuarantine(env, db, id, now);
    case None => InsertCounts(env, db, r, Fingerprint(env, RequestDoc(r)).value, now);
  }

  lemma InsertCounts(env: Env, db: Tables, r: Request, fp: Text, now: Instant)
    requires InsertJob(env, db, r, fp, now).Done?
    ensures |InsertJob(env, db, r, fp, now).db.jobs| == |db.jobs| + 1
    ensures InsertJob(env, db, r, fp, now).db.candidates == db.candidates
  {
    hide QueuedNotice;
    assert InsertJob(env, db, r, fp, now).db.jobs.Keys == db.jobs.Keys + {r.id};
  }

  lemma ScheduleOneCounts(env: Env, db: Tables, c: Configuration, o: Observation, active: bool, t: Tally, now: Instant)
    requires Sound(env, db) && ScheduleOne(env, db, c, o, active, t, now).Done?
    ensures var (d, t') := (ScheduleOne(env, db, c, o, active, t, now).db,
                            ScheduleOne(env, db, c, o, active, t, now).value);
      && |d.candidates| + t.upserted == |db.candidates| + t'.upserted
      && |d.jobs| + t.scheduled == |db.jobs| + t'.scheduled
      && Settled(d, o.candidateFingerprint, active)
  {
    hide Sound, ScheduleJob, BoundElsewhere, OtherCandidateSameContent, AllKept, CandidatesKept, Upsert;
    var (k, cfp) := (o.candidateFingerprint, c.configurationFingerprint);
    var seen := Upsert(db, cfp, o, now);
    UpsertCounts(db, cfp, o, now);
    UpsertSound(env, db, cfp, o, now);
    var t' := if k in db.candidates then t else t.(upserted := t.upserted + 1);
    if ScheduleJob(env, seen, c, o, t', now).Done? {
      ScheduleJobCounts(env, seen, c, o, t', now);
    }
  }

  lemma UpsertCounts(db: Tables, cfp: Text, o: Observation, now: Instant)
    ensures var (k, seen) := (o.candidateFingerprint, Upsert(db, cfp, o, now));
      && |seen.candidates| == |db.candidates| + (if k in db.candidates then 0 else 1)
      && seen.jobs == db.jobs && k in seen.candidates
  {
    var (k, seen) := (o.candidateFingerprint, Upsert(db, cfp, o, now));
    assert seen.candidates.Keys == db.candidates.Keys + {k};
  }

  lemma ScheduleJobCounts(env: Env, db: Tables, c: Configuration, o: Observation, t: Tally, now: Instant)
    requires Sound(env, db) && o.candidateFingerprint in db.candidates && ScheduleJob(env, db, c, o, t, now).Done?
    ensures var (d, t') := (ScheduleJob(env, db, c, o, t, now).db, ScheduleJob(env, db, c, o, t, now).value);
      && |d.candidates| == |db.candidates| && t'.upserted == t.upserted
      && |d.jobs| + t.scheduled == |db.jobs| + t'.scheduled
      && Settled(d, o.candidateFingerprint, true)
  {
    hide Sound, CreateLocked, ReadbackRequest;
    var request := ReadbackRequest(env, c, o, now);
    CreateCounts(env, db, request, now);
    var (k, d) := (o.candidateFingerprint, ScheduleJob(env, db, c, o, t, now).db);
    assert d.candidates.Keys == db.candidates.Keys;
  }

  lemma AccountedNext(db: Tables, d: Tables, after: Tables, os: seq<Observation>, n: nat, active: bool, t: Tally,
                      t': Tally)
    requires n < |os| && Accounted(db, d, os, n, active, t) && CandidatesKept(d, after)
    requires |after.candidates| + t.upserted == |d.candidates| + t'.upserted
    requires |after.jobs| + t.scheduled == |d.jobs| + t'.scheduled
    requires Settled(after, os[n].candidateFingerprint, active)
    ensures Accounted(db, after, os, n + 1, active, t')
  {
    forall i | 0 <= i < n + 1 ensures Settled(after, os[i].candidateFingerprint, active) {
      if i < n { assert Settled(d, os[i].candidateFingerprint, active); }
    }
  }

  lemma {:induction false} ScheduleManyCounts(env: Env, db: Tables, c: Configuration, os: seq<Observation>, n: nat,
                                              active: bool, now: Instant)
    requires Sound(env, db) && n <= |os| && ScheduleMany(env, db, c, os, n, active, now).Done?
    ensures Accounted(db, ScheduleMany(env, db, c, os, n, active, now).db, os, n, active,
                      ScheduleMany(env, db, c, os, n, active, now).value)
  {
    hide Sound, ScheduleOne, Settled;
    if n > 0 {
      hide Accounted;
      ScheduleManyCounts(env, db, c, os, n - 1, active, now);
      ScheduleManySound(env, db, c, os, n - 1, active, now);
      var many := ScheduleMany(env, db, c, os, n - 1, active, now);
      ScheduledIsSound(env, db, many.db, active, now);
      NextCounts(env, db, many.db, c, os, n - 1, active, many.value, now);
    }
  }

  lemma NextCounts(env: Env, db: Tables, d: Tables, c: Configuration, os: seq<Observation>, n: nat, active: bool,
                   t: Tally, now: Instant)
    requires Sound(env, d) && n < |os| && Accounted(db, d, os, n, active, t)
    requires ScheduleOne(env, d, c, os[n], active, t, now).Done?
    ensures var one := ScheduleOne(env, d, c, os[n], active, t, now);
      Accounted(db, one.db, os, n + 1, active, one.value)
  {
    hide Sound, ScheduleOne, Settled, Accounted, CandidatesKept;
    ScheduleOneCounts(env, d, c, os[n], active, t, now);
    ScheduleOneSound(env, d, c, os[n], active, t, now);
    var one := ScheduleOne(env, d, c, os[n], active, t, now);
    ScheduledIsSound(env, d, one.db, active, now);
    AccountedNext(db, d, one.db, os, n, active, t, one.value);
  }

  /** An accepted completion under a live authority stores every reported candidate
      with a readback job; its event counts exactly the candidate rows and the jobs
      that are new. */
  lemma CompletionSchedules(env: Env, db: Tables, op: Op)
    requires Sound(env, db) && op.action.CompleteQueueScan? && Succeeds(env, db, op)
    ensures var (after, os) := (After(env, db, op), op.action.completion.candidates);
      && db.queue.Some? && after.queue.Some? && after.queueEvents != []
      && after.queueEvents[|after.queueEvents| - 1].ScanCompleted?
      && var e := after.queueEvents[|after.queueEvents| - 1];
      && e == ScanCompleted(op.action.completion.credential.scanId,
                            db.queue.value.configuration.configurationFingerprint, |os|, e.upserted, e.scheduled,
                            after.queue.value.cursor, op.now)
      && Accounted(db, after, os, |os|, db.queue.value.configuration.authorityExpiresAt > op.now,
                   Tally(e.upserted, e.scheduled))
  {
    hide Sound, ScheduleMany, ScanValid, CursorAfter;
    var r := op.action.completion;
    ValidQueue(env, db.queue, r.credential, op.now);
    var q := db.queue.value;
    ScheduleManyCounts(env, db, q.configuration, r.candidates, |r.candidates|,
                       q.configuration.authorityExpiresAt > op.now, op.now);
  }
}
