/**
 What it takes for a scan's completion to be accepted, candidate by candidate, and
 what is left when it is not.
 */
module ScanReports {
  import opened Outcomes
  import opened PyText
  import opened StoreTables
  import opened Ledger
  import opened ScanQueue
  import opened Coordinator
  import opened StoreInvariant
  import opened StoreIntegrity
  import opened QueueSteps
  import opened QueueRuns

  /** The readback job can be created, or is there with the same content. */
  ghost predicate JobAvailable(env: Env, db: Tables, r: Request, now: Instant) {
    && Validates(env, r, now, false)
    && Fingerprint(env, RequestDoc(r)).Some?
    && match FindByKey(db.jobs, r.idempotencyKey)
       case Some(id) =>
         Authentic(env, db.jobs[id]) && db.jobs[id].requestFingerprint == Fingerprint(env, RequestDoc(r)).value
       case None =>
         r.id !in db.jobs && EventAccepted(env, "job_queued", QueuedNotice(r))
  }

  /** The candidate is of the configured project and bound to nothing else. */
  predicate WellBound(db: Tables, c: Configuration, o: Observation) {
    && o.queueProjectId == c.queueProjectId
    && (if o.candidateFingerprint in db.candidates
        then !BoundElsewhere(db.candidates[o.candidateFingerprint], c.configurationFingerprint, o)
        else !OtherCandidateSameContent(db, c.configurationFingerprint, o))
  }

  predicate NeedsJob(db: Tables, o: Observation, active: bool) {
    active && (o.candidateFingerprint in db.candidates ==> db.candidates[o.candidateFingerprint].readbackJobId.None?)
  }

  ghost predicate CandidateAccepted(env: Env, db: Tables, c: Configuration, o: Observation, active: bool,
                                    now: Instant) {
    WellBound(db, c, o) && (NeedsJob(db, o, active) ==> JobAvailable(env, db, ReadbackRequest(env, c, o, now), now))
  }

  lemma JobCreated(env: Env, db: Tables, r: Request, now: Instant)
    requires Validates(env, r, now, false)
    ensures CreateLocked(env, db, r, now).Done? <==> JobAvailable(env, db, r, now)
  {
    hide Fingerprint, RequestDoc, QueuedNotice, Validates, Authentic, QuarantineJob, NewRow, Sign;
  }

  lemma SameJobAvailable(env: Env, db: Tables, seen: Tables, r: Request, now: Instant)
    requires seen.jobs == db.jobs
    ensures JobAvailable(env, seen, r, now) <==> JobAvailable(env, db, r, now)
  {
    hide Fingerprint, RequestDoc, QueuedNotice, Validates, Authentic;
  }

  /** One candidate is taken exactly when it is well bound and, where it needs a
      readback job, that job is available. */
  lemma CandidateTakenExactlyWhen(env: Env, db: Tables, c: Configuration, o: Observation, active: bool, t: Tally,
                                  now: Instant)
    ensures ScheduleOne(env, db, c, o, active, t, now).Done? <==> CandidateAccepted(env, db, c, o, active, now)
  {
    hide CreateLocked, ReadbackRequest, BoundElsewhere, OtherCandidateSameContent, Validates, JobAvailable;
    var seen := Upsert(db, c.configurationFingerprint, o, now);
    var request := ReadbackRequest(env, c, o, now);
    SameJobAvailable(env, db, seen, request, now);
    if Validates(env, request, now, false) { JobCreated(env, seen, request, now); }
    else { NotAvailable(env, db, request, now); }
  }

  lemma NotAvailable(env: Env, db: Tables, r: Request, now: Instant)
    requires !Validates(env, r, now, false)
    ensures !JobAvailable(env, db, r, now)
  {
    hide Validates;
  }

  /** Each candidate is taken in the tables that the earlier ones left. */
  ghost predicate AllAccepted(env: Env, db: Tables, c: Configuration, os: seq<Observation>, n: nat, active: bool,
                              now: Instant)
    requires n <= |os|
  {
    forall i: nat :: i < n ==>
      CandidateAccepted(env, ScheduleMany(env, db, c, os, i, active, now).db, c, os[i], active, now)
  }

  lemma {:induction false} AllTakenExactlyWhen(
      env: Env, db: Tables, c: Configuration, os: seq<Observation>, n: nat, active: bool, now: Instant)
    requires n <= |os|
    ensures ScheduleMany(env, db, c, os, n, active, now).Done? <==> AllAccepted(env, db, c, os, n, active, now)
  {
    hide ScheduleOne, CandidateAccepted;
    if n > 0 {
      AllTakenExactlyWhen(env, db, c, os, n - 1, active, now);
      match ScheduleMany(env, db, c, os, n - 1, active, now)
      case Raised(_, _) =>
      case Done(d, t) => CandidateTakenExactlyWhen(env, d, c, os[n - 1], active, t, now);
    }
  }

  predicate CursorParses(env: Env, reported: Option<Cursor>, stored: Option<Cursor>) {
    reported.Some? ==> CursorAfter(env, reported.value, stored).Some?
  }

  /** The report is in its time window, holds the live scan, and every candidate and
      the cursor can be taken. */
  ghost predicate CompletionAccepted(env: Env, db: Tables, r: CompleteRequest, now: Instant) {
    && now - STALENESS <= r.scannedAt <= now + FUTURE_SKEW
    && ScanValid(env, db.queue, r.credential, now)
    && var q := db.queue.value;
    && AllAccepted(env, db, q.configuration, r.candidates, |r.candidates|, q.configuration.authorityExpiresAt > now,
                   now)
    && CursorParses(env, r.cursor, q.cursor)
  }

  /** A completion succeeds exactly when what it reports can be taken, read off the
      tables before the call. */
  lemma CompletionSucceedsExactlyWhen(env: Env, db: Tables, op: Op)
    requires op.action.CompleteQueueScan?
    ensures Succeeds(env, db, op) <==> CompletionAccepted(env, db, op.action.completion, op.now)
  {
    hide ScheduleMany, ScanValid, CursorAfter, FinishScan, AllAccepted;
    var r := op.action.completion;
    ValidQueue(env, db.queue, r.credential, op.now);
    if db.queue.Some? {
      var q := db.queue.value;
      AllTakenExactlyWhen(env, db, q.configuration, r.candidates, |r.candidates|,
                          q.configuration.authorityExpiresAt > op.now, op.now);
    }
  }

  // --------------------------------------------------------- candidates kept out

  /** A report that repeats a candidate stored under other bindings is refused as a
      whole and changes nothing. */
  lemma BoundElsewhereRefused(env: Env, db: Tables, op: Op, i: nat)
    requires Sound(env, db) && op.action.CompleteQueueScan? && db.queue.Some? && i < |op.action.completion.candidates|
    requires var o := op.action.completion.candidates[i];
      && o.candidateFingerprint in db.candidates
      && BoundElsewhere(db.candidates[o.candidateFingerprint], db.queue.value.configuration.configurationFingerprint, o)
    ensures !Succeeds(env, db, op) && After(env, db, op) == db
  {
    hide Sound, BoundElsewhere, CompleteScan, JobAvailable, ScanValid, CursorParses, After, Succeeds;
    var r := op.action.completion;
    var c := db.queue.value.configuration;
    var (active, os) := (c.authorityExpiresAt > op.now, r.candidates);
    CompletionSucceedsExactlyWhen(env, db, op);
    BoundElsewhereNotTaken(env, db, c, os, i, active, op.now);
    FailedCompletionRollsBack(env, db, op);
  }

  lemma BoundElsewhereNotTaken(
      env: Env, db: Tables, c: Configuration, os: seq<Observation>, i: nat, active: bool, now: Instant)
    requires Sound(env, db) && i < |os| && os[i].candidateFingerprint in db.candidates
    requires BoundElsewhere(db.candidates[os[i].candidateFingerprint], c.configurationFingerprint, os[i])
    ensures !AllAccepted(env, db, c, os, |os|, active, now)
  {
    hide Sound, BoundElsewhere, JobAvailable, Scheduled;
    var many := ScheduleMany(env, db, c, os, i, active, now);
    if many.Done? {
      ScheduleManySound(env, db, c, os, i, active, now);
      ScheduledIsSound(env, db, many.db, active, now);
      KeptBoundElsewhere(db, many.db, c.configurationFingerprint, os[i]);
    } else {
      AllTakenExactlyWhen(env, db, c, os, i, active, now);
    }
  }

  lemma KeptBoundElsewhere(db: Tables, d: Tables, cfp: Text, o: Observation)
    requires CandidatesKept(db, d) && o.candidateFingerprint in db.candidates
    requires BoundElsewhere(db.candidates[o.candidateFingerprint], cfp, o)
    ensures o.candidateFingerprint in d.candidates && BoundElsewhere(d.candidates[o.candidateFingerprint], cfp, o)
  {
  }

  lemma FailedCompletionRollsBack(env: Env, db: Tables, op: Op)
    requires Sound(env, db) && op.action.CompleteQueueScan? && !Succeeds(env, db, op)
    ensures After(env, db, op) == db
  {
    hide Sound, CompleteScan, Kept, CandidatesKept;
    CompleteScanSound(env, db, op.action.completion, op.now);
  }

  /** In particular, after a change of configuration every report of an issue whose
      candidate is still stored from before is refused. */
  lemma StoredUnderOldConfigurationRefused(env: Env, db: Tables, op: Op, i: nat)
    requires Sound(env, db) && op.action.CompleteQueueScan? && db.queue.Some? && i < |op.action.completion.candidates|
    requires var (k, c) := (op.action.completion.candidates[i].candidateFingerprint, db.queue.value.configuration);
      k in db.candidates && db.candidates[k].configurationFingerprint != c.configurationFingerprint
    ensures !Succeeds(env, db, op) && After(env, db, op) == db
  {
    hide Sound, After, Succeeds;
    BoundElsewhereRefused(env, db, op, i);
  }

  // ------------------------------------------------------------- tampered readbacks

  /** The i-th candidate is well bound and needs a readback job, which is stored with a
      wrong authenticator. */
  ghost predicate MeetsMismatch(env: Env, d: Tables, c: Configuration, o: Observation, active: bool, now: Instant,
                                id: Text) {
    && WellBound(d, c, o) && NeedsJob(d, o, active)
    && Validates(env, ReadbackRequest(env, c, o, now), now, false)
    && Fingerprint(env, RequestDoc(ReadbackRequest(env, c, o, now))).Some?
    && FindByKey(d.jobs, ReadbackRequest(env, c, o, now).idempotencyKey) == Some(id)
    && id in d.jobs && !Authentic(env, d.jobs[id])
  }

  lemma MismatchStopsCandidate(
      env: Env, d: Tables, c: Configuration, o: Observation, active: bool, t: Tally, now: Instant, id: Text)
    requires MeetsMismatch(env, d, c, o, active, now, id)
    ensures var (r, seen) := (ScheduleOne(env, d, c, o, active, t, now), Upsert(d, c.configurationFingerprint, o, now));
      && r.Raised?
      && if Referenced(d, id) then r.error.ConstraintFailed?
           else r.error.JobIntegrityInvalid? && Removed(seen, r.db, id)
  {
    hide RequireIntegrity, ReadbackRequest, BoundElsewhere, OtherCandidateSameContent, Validates, Authentic,
         Fingerprint, RequestDoc,
         InsertJob, Referenced, Removed;
    var seen := Upsert(d, c.configurationFingerprint, o, now);
    CheckFails(env, seen, id, now);
    UpsertReferences(d, c.configurationFingerprint, o, now, id);
  }

  lemma UpsertReferences(d: Tables, cfp: Text, o: Observation, now: Instant, id: Text)
    ensures Referenced(Upsert(d, cfp, o, now), id) <==> Referenced(d, id)
  {
    var (k, seen) := (o.candidateFingerprint, Upsert(d, cfp, o, now));
    if Referenced(d, id) {
      var c :| c in d.candidates && d.candidates[c].readbackJobId == Some(id);
      assert c in seen.candidates && seen.candidates[c].readbackJobId == Some(id);
    }
  }

  /** A completion that meets such a job at its i-th candidate commits what the
      candidates before it left, this candidate's row included, removes that job, and
      keeps the queue row, its cursor and its live scan; where a candidate refers to
      the job nothing is changed. */
  lemma {:induction false} ScanStopsAtMismatch(env: Env, db: Tables, op: Op, i: nat, id: Text)
    requires op.action.CompleteQueueScan? && i < |op.action.completion.candidates|
    requires var (r, now) := (op.action.completion, op.now);
      && now - STALENESS <= r.scannedAt <= now + FUTURE_SKEW
      && ScanValid(env, db.queue, r.credential, now)
      && var c := db.queue.value.configuration;
      && AllAccepted(env, db, c, r.candidates, i, c.authorityExpiresAt > now, now)
      && MeetsMismatch(env, ScheduleMany(env, db, c, r.candidates, i, c.authorityExpiresAt > now, now).db, c,
                       r.candidates[i],
                       c.authorityExpiresAt > now, now, id)
    ensures var (after, reply) := Step(env, db, op);
      var c := db.queue.value.configuration;
      var d := ScheduleMany(env, db, c, op.action.completion.candidates, i, c.authorityExpiresAt > op.now, op.now).db;
      var seen := Upsert(d, c.configurationFingerprint, op.action.completion.candidates[i], op.now);
      if Referenced(d, id) then after == db && reply == Err(ConstraintFailed)
      else Removed(seen, after, id) && reply == Err(JobIntegrityInvalid) && after.queue == db.queue
  {
    hide ScheduleOne, ScanValid, CursorAfter, FinishScan, MeetsMismatch, AllAccepted, Referenced, Removed, Upsert;
    var r := op.action.completion;
    ValidQueue(env, db.queue, r.credential, op.now);
    var c := db.queue.value.configuration;
    var active := c.authorityExpiresAt > op.now;
    AllTakenExactlyWhen(env, db, c, r.candidates, i, active, op.now);
    var many := ScheduleMany(env, db, c, r.candidates, i, active, op.now);
    MismatchStopsCandidate(env, many.db, c, r.candidates[i], active, many.value, op.now, id);
    ScheduleFailureStays(env, db, c, r.candidates, i + 1, active, op.now);
    ScheduleKeepsQueueRow(env, db, c, r.candidates, i + 1, active, op.now);
  }

  /** The loop over candidates meets such a job at its i-th candidate, and no candidate
      refers to the job. */
  ghost predicate MismatchAt(env: Env, db: Tables, c: Configuration, os: seq<Observation>, active: bool, now: Instant,
                             i: nat, id: Text)
    requires i < |os|
  {
    && AllAccepted(env, db, c, os, i, active, now)
    && MeetsMismatch(env, ScheduleMany(env, db, c, os, i, active, now).db, c, os[i], active, now, id)
    && !Referenced(ScheduleMany(env, db, c, os, i, active, now).db, id)
  }

  lemma MismatchStopped(env: Env, d: Tables, c: Configuration, o: Observation, active: bool, t: Tally, now: Instant)
    returns (id: Text)
    requires ScheduleOne(env, d, c, o, active, t, now).Raised?
    requires ScheduleOne(env, d, c, o, active, t, now).error.JobIntegrityInvalid?
    ensures MeetsMismatch(env, d, c, o, active, now, id) && !Referenced(d, id)
  {
    hide ReadbackRequest, BoundElsewhere, OtherCandidateSameContent, Validates, Authentic, Fingerprint, RequestDoc,
         QuarantineRow, Referenced;
    var seen := Upsert(d, c.configurationFingerprint, o, now);
    var request := ReadbackRequest(env, c, o, now);
    id := FindByKey(seen.jobs, request.idempotencyKey).value;
    UpsertReferences(d, c.configurationFingerprint, o, now, id);
  }

  lemma {:induction false} LoopMismatch(env: Env, db: Tables, c: Configuration, os: seq<Observation>, n: nat,
                                        active: bool, now: Instant) returns (i: nat, id: Text)
    requires n <= |os| && ScheduleMany(env, db, c, os, n, active, now).Raised?
    requires ScheduleMany(env, db, c, os, n, active, now).error.JobIntegrityInvalid?
    ensures i < n && MismatchAt(env, db, c, os, active, now, i, id)
  {
    hide ScheduleOne, AllAccepted, MeetsMismatch, Referenced;
    match ScheduleMany(env, db, c, os, n - 1, active, now)
    case Raised(_, _) =>
      i, id := LoopMismatch(env, db, c, os, n - 1, active, now);
    case Done(d, t) =>
      i := n - 1;
      id := MismatchStopped(env, d, c, os[i], active, t, now);
      AllTakenExactlyWhen(env, db, c, os, n - 1, active, now);
  }

  /** The loop adds and changes only authentic jobs. */
  ghost predicate OnlyAuthenticAdded(env: Env, db: Tables, d: Tables) {
    forall id :: id in d.jobs && !Authentic(env, d.jobs[id]) ==> id in db.jobs && db.jobs[id] == d.jobs[id]
  }

  lemma ScheduleOneAdds(env: Env, db: Tables, c: Configuration, o: Observation, active: bool, t: Tally, now: Instant)
    requires ScheduleOne(env, db, c, o, active, t, now).Done?
    ensures OnlyAuthenticAdded(env, db, ScheduleOne(env, db, c, o, active, t, now).db)
  {
    hide ReadbackRequest, BoundElsewhere, OtherCandidateSameContent, Validates, CreateLocked, Authentic;
    var (seen, request) := (Upsert(db, c.configurationFingerprint, o, now), ReadbackRequest(env, c, o, now));
    if CreateLocked(env, seen, request, now).Done? { CreateAdds(env, seen, request, now); }
  }

  lemma CreateAdds(env: Env, db: Tables, r: Request, now: Instant)
    requires CreateLocked(env, db, r, now).Done?
    ensures OnlyAuthenticAdded(env, db, CreateLocked(env, db, r, now).db)
  {
    hide Fingerprint, RequestDoc, QueuedNotice, QuarantineJob;
  }

  lemma {:induction false} ScheduleManyAdds(env: Env, db: Tables, c: Configuration, os: seq<Observation>, n: nat,
                                            active: bool, now: Instant)
    requires n <= |os| && ScheduleMany(env, db, c, os, n, active, now).Done?
    ensures OnlyAuthenticAdded(env, db, ScheduleMany(env, db, c, os, n, active, now).db)
  {
    hide ScheduleOne, Authentic;
    if n > 0 {
      ScheduleManyAdds(env, db, c, os, n - 1, active, now);
      var d := ScheduleMany(env, db, c, os, n - 1, active, now);
      ScheduleOneAdds(env, d.db, c, os[n - 1], active, d.value, now);
    }
  }

  /** In its time window, with the live scan's credential, a report meets a mismatching
      readback job that no candidate refers to. */
  ghost predicate ReportMismatch(env: Env, db: Tables, op: Op, i: nat, id: Text) {
    && op.action.CompleteQueueScan?
    && var (r, now) := (op.action.completion, op.now);
    && now - STALENESS <= r.scannedAt <= now + FUTURE_SKEW
    && ScanValid(env, db.queue, r.credential, now) && i < |r.candidates|
    && var c := db.queue.value.configuration;
    && MismatchAt(env, db, c, r.candidates, c.authorityExpiresAt > now, now, i, id)
  }

  ghost predicate StopsAtMismatch(env: Env, db: Tables, op: Op) {
    exists i: nat, id: Text :: ReportMismatch(env, db, op, i, id)
  }

  /** In any tables, a completion fails and yet changes them if and only if it stops at
      a mismatching readback job; and that is the only way it can fail with
      JobIntegrityInvalid. */
  lemma FailedCompletionChangesExactlyWhen(env: Env, db: Tables, op: Op)
    requires op.action.CompleteQueueScan?
    ensures !Succeeds(env, db, op) && After(env, db, op) != db <==> StopsAtMismatch(env, db, op)
    ensures Step(env, db, op).1 == Err(JobIntegrityInvalid) <==> StopsAtMismatch(env, db, op)
  {
    hide ReportMismatch, Step;
    SucceedsOk(env, db, op);
    if StopsAtMismatch(env, db, op) {
      var i: nat, id: Text :| ReportMismatch(env, db, op, i, id);
      MismatchChanges(env, db, op, i, id);
    } else if !Succeeds(env, db, op) {
      if Step(env, db, op).1.error.JobIntegrityInvalid? {
        IntegrityOnlyAtMismatch(env, db, op);
      } else {
        OtherErrors(env, db, op);
      }
    }
  }

  lemma IntegrityOnlyAtMismatch(env: Env, db: Tables, op: Op)
    requires op.action.CompleteQueueScan? && Step(env, db, op).1 == Err(JobIntegrityInvalid)
    ensures StopsAtMismatch(env, db, op)
  {
    hide ScanValid, CursorAfter, FinishScan, ScheduleMany, MismatchAt;
    var r := op.action.completion;
    ValidQueue(env, db.queue, r.credential, op.now);
    var c := db.queue.value.configuration;
    var i, id := LoopMismatch(env, db, c, r.candidates, |r.candidates|, c.authorityExpiresAt > op.now, op.now);
    assert ReportMismatch(env, db, op, i, id);
  }

  lemma MismatchChanges(env: Env, db: Tables, op: Op, i: nat, id: Text)
    requires ReportMismatch(env, db, op, i, id)
    ensures Step(env, db, op).1 == Err(JobIntegrityInvalid)
    ensures id in db.jobs && id !in After(env, db, op).jobs
  {
    hide ScanValid, AllAccepted, MeetsMismatch, ScheduleMany, Step, Referenced;
    SucceedsOk(env, db, op);
    ValidQueue(env, db.queue, op.action.completion.credential, op.now);
    ScanStopsAtMismatch(env, db, op, i, id);
    var (c, os) := (db.queue.value.configuration, op.action.completion.candidates);
    var active := c.authorityExpiresAt > op.now;
    AllTakenExactlyWhen(env, db, c, os, i, active, op.now);
    ScheduleManyAdds(env, db, c, os, i, active, op.now);
    MismatchStored(env, ScheduleMany(env, db, c, os, i, active, op.now).db, c, os[i], active, op.now, id);
  }

  lemma MismatchStored(env: Env, d: Tables, c: Configuration, o: Observation, active: bool, now: Instant, id: Text)
    requires MeetsMismatch(env, d, c, o, active, now, id)
    ensures id in d.jobs && !Authentic(env, d.jobs[id])
  {
    hide WellBound, NeedsJob, Validates, ReadbackRequest, Fingerprint, RequestDoc;
  }
}
