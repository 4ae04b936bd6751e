/**
 Candidate fingerprints over runs: what they bind, and what becomes of an issue that
 is still stored from an earlier configuration.
 */
module IssueRuns {
  import opened PyText
  import opened Canonical
  import opened CanonicalOrder
  import opened StoreTables
  import opened Ledger
  import opened ScanQueue
  import opened Coordinator
  import opened StoreInvariant
  import opened QueueSteps
  import opened QueueRuns
  import opened ScanRuns
  import opened LeaseRuns
  import opened ScanReports
  import opened Bindings

  /** The same issue, seen in the same state. */
  predicate SameIssue(o: Observation, p: Observation) {
    o == p.(candidateFingerprint := o.candidateFingerprint)
  }

  lemma SameDoc(o: Observation, p: Observation)
    requires SameIssue(o, p)
    ensures CandidateDoc(o) == CandidateDoc(p)
  {
  }

  /** The fingerprint binds the issue as it was seen, and nothing else. */
  lemma FingerprintBindsIssue(env: Env, o: Observation, p: Observation)
    requires IdealHash(env) && Fingerprinted(env, o) && Fingerprinted(env, p)
    ensures o.candidateFingerprint == p.candidateFingerprint <==> SameIssue(o, p)
  {
    hide Serialize, IdealHash;
    if SameIssue(o, p) { SameDoc(o, p); }
    if o.candidateFingerprint == p.candidateFingerprint { EqualFingerprints(env, o, p); }
  }

  lemma EqualFingerprints(env: Env, o: Observation, p: Observation)
    requires IdealHash(env) && Safe(CandidateDoc(o)) && Safe(CandidateDoc(p))
    requires Digest(env, CandidateDoc(o)) == Digest(env, CandidateDoc(p))
    ensures SameIssue(o, p)
  {
    hide Serialize, Digest, IdealHash, Safe, Doc;
    var keys := ["issueId", "identifier", "queueProjectId", "remoteStateId", "remoteUpdatedAt",
                 "workItemFingerprint", "readbackFingerprint"];
    assert "workItemFingerprint"[0] != "readbackFingerprint"[0];
    var (vs, ws) := (IssueFields(o), IssueFields(p));
    assert CandidateDoc(o) == Doc(keys, vs) && CandidateDoc(p) == Doc(keys, ws);
    FieldsBound(env, keys, vs, ws);
    assert Same(vs[0], ws[0]) && Same(vs[1], ws[1]) && Same(vs[2], ws[2]) && Same(vs[3], ws[3]);
    assert Same(vs[4], ws[4]) && Same(vs[5], ws[5]) && Same(vs[6], ws[6]);
  }

  function IssueFields(o: Observation): seq<Json> {
    [Str(o.issueId), Str(o.identifier), Str(o.queueProjectId), Str(o.remoteStateId), Str(o.remoteUpdatedAt),
     Str(o.workItemFingerprint), Str(o.readbackFingerprint)]
  }

  // ------------------------------------------------- what is stored is fingerprinted

  /** Every stored candidate has its own fingerprint as its key. */
  ghost predicate IssuesBound(env: Env, db: Tables) {
    forall k :: k in db.candidates ==>
      db.candidates[k].observation.candidateFingerprint == k && Fingerprinted(env, db.candidates[k].observation)
  }

  lemma ScheduleOneBinds(env: Env, db: Tables, c: Configuration, o: Observation, active: bool, t: Tally, now: Instant)
    requires IssuesBound(env, db) && Fingerprinted(env, o)
    ensures IssuesBound(env, ScheduleOne(env, db, c, o, active, t, now).db)
  {
    hide ScheduleJob, BoundElsewhere, OtherCandidateSameContent, Fingerprinted;
    var seen := Upsert(db, c.configurationFingerprint, o, now);
    assert IssuesBound(env, seen);
    var t' := if o.candidateFingerprint in db.candidates then t else t.(upserted := t.upserted + 1);
    ScheduleJobBinds(env, seen, c, o, t', now);
  }

  lemma ScheduleJobBinds(env: Env, db: Tables, c: Configuration, o: Observation, t: Tally, now: Instant)
    requires IssuesBound(env, db)
    ensures IssuesBound(env, ScheduleJob(env, db, c, o, t, now).db)
  {
    hide CreateLocked, ReadbackRequest, Validates, Fingerprinted;
    CreateKeepsQueue(env, db, ReadbackRequest(env, c, o, now), now);
  }

  lemma {:induction false} ScheduleManyBinds(env: Env, db: Tables, c: Configuration, os: seq<Observation>, n: nat,
                                             active: bool, now: Instant)
    requires n <= |os| && IssuesBound(env, db) && forall i :: 0 <= i < |os| ==> Fingerprinted(env, os[i])
    ensures IssuesBound(env, ScheduleMany(env, db, c, os, n, active, now).db)
  {
    hide ScheduleOne, IssuesBound, Fingerprinted;
    if n > 0 {
      ScheduleManyBinds(env, db, c, os, n - 1, active, now);
      match ScheduleMany(env, db, c, os, n - 1, active, now)
      case Raised(_, _) =>
      case Done(d, t) => ScheduleOneBinds(env, d, c, os[n - 1], active, t, now);
    }
  }

  lemma CompletionBinds(env: Env, db: Tables, op: Op)
    requires op.action.CompleteQueueScan? && IssuesBound(env, db) && ReportChecked(env, op.action.completion)
    ensures IssuesBound(env, After(env, db, op))
  {
    hide ScheduleMany, ScanValid, CursorAfter, FinishScan, Fingerprinted;
    var r := op.action.completion;
    ValidQueue(env, db.queue, r.credential, op.now);
    if db.queue.Some? {
      var c := db.queue.value.configuration;
      ScheduleManyBinds(env, db, c, r.candidates, |r.candidates|, c.authorityExpiresAt > op.now, op.now);
    }
  }

  lemma StepBinds(env: Env, db: Tables, op: Op)
    requires IssuesBound(env, db) && !op.action.Tamper? && ScanChecked(env, op)
    ensures IssuesBound(env, After(env, db, op))
  {
    hide After, IssuesBound, ReportChecked;
    if op.action.CompleteQueueScan? { CompletionBinds(env, db, op); }
    else {
      if LedgerCall(op) { LedgerCallKeepsQueue(env, db, op); }
      else if op.action.ClaimQueueScan? || op.action.FailQueueScan? || op.action.RequestRescan? {
        ScanCallFrame(env, db, op);
      }
      else { ConfigureCallFrame(env, db, op); }
      SameCandidatesBound(env, db, After(env, db, op));
    }
  }

  lemma SameCandidatesBound(env: Env, db: Tables, after: Tables)
    requires IssuesBound(env, db) && after.candidates == db.candidates
    ensures IssuesBound(env, after)
  {
  }

  lemma {:induction false} RunBinds(env: Env, trace: seq<Tables>, ops: seq<Op>, k: nat)
    requires QueueRun(env, trace, ops) && |trace| == |ops| + 1 && k <= |ops|
    ensures IssuesBound(env, trace[k])
  {
    hide After, ScanChecked;
    if k > 0 {
      hide IssuesBound;
      RunBinds(env, trace, ops, k - 1);
      StepBinds(env, trace[k - 1], ops[k - 1]);
    }
  }

  /** In a run, a report that lists an issue as it is still stored from another
      configuration is refused as a whole and changes nothing: the fingerprint repeats,
      and the row is bound to that configuration. */
  lemma UnchangedIssueRefused(env: Env, trace: seq<Tables>, ops: seq<Op>, m: nat, i: nat, k: Text)
    requires Lawful(env, trace, ops) && QueueRun(env, trace, ops) && |trace| == |ops| + 1 && m < |ops|
    requires ops[m].action.CompleteQueueScan? && trace[m].queue.Some? && i < |ops[m].action.completion.candidates|
    requires k in trace[m].candidates
    requires SameIssue(trace[m].candidates[k].observation, ops[m].action.completion.candidates[i])
    requires trace[m].candidates[k].configurationFingerprint
      != trace[m].queue.value.configuration.configurationFingerprint
    ensures !Coordinator.Succeeds(env, trace[m], ops[m]) && trace[m + 1] == trace[m]
  {
    hide After, Coordinator.Succeeds, Sound, CandidateDoc, Lawful, Digest;
    RunSound(env, trace, ops, m);
    RunBinds(env, trace, ops, m);
    var (p, o) := (trace[m].candidates[k].observation, ops[m].action.completion.candidates[i]);
    assert ScanChecked(env, ops[m]) && Fingerprinted(env, o) && Fingerprinted(env, p);
    SameDoc(p, o);
    StoredUnderOldConfigurationRefused(env, trace[m], ops[m], i);
  }
}
