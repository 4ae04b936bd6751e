/**
 Concrete inputs, for the properties that do not hold of every call, in the
 environment of PlainStore.
 */
module Witnesses {
  import opened Outcomes
  import opened PyText
  import opened Canonical
  import opened StoreTables
  import opened Ledger
  import opened ScanQueue
  import opened Coordinator
  import opened StoreInvariant
  import opened StoreIntegrity
  import opened LeaseRuns
  import opened QueueRuns
  import opened RescanRuns
  import opened ScanReports
  import opened Restarts
  import opened PlainStore

  // ------------------------------------------------------ a live lease is blocked

  const CLAIM := Op(ClaimJob(ID, A("other"), 60, A("new")), 10 * SECOND)

  /** A job is created and leased for 60 seconds; another coordinator's claim blocks it
      under its holder's live lease, because its grant expired at the 9th. */
  lemma LiveLeaseIsBlocked()
    ensures Succeeds(PLAIN, EMPTY, OPENING) && Succeeds(PLAIN, OPENED, LeaseFor(60))
    ensures var db := LeasedTables(60);
      && Sound(PLAIN, db) && ID in db.jobs && LeaseValid(PLAIN, db.jobs[ID], A("worker"), A("token"), CLAIM.now)
      && BlocksExpired(PLAIN, db, CLAIM) && !Succeeds(PLAIN, db, CLAIM) && After(PLAIN, db, CLAIM) != db
      && ID in After(PLAIN, db, CLAIM).jobs && After(PLAIN, db, CLAIM).jobs[ID].state.Blocked?
  {
    hide Sound, After, Succeeds, Decide, SHORT, EventAccepted;
    var db := LeasedTables(60);
    LeasedIs(60);
    SoundRow(PLAIN, db, ID);
    DecidesByGrant(db, db.jobs[ID], CLAIM.now);
    NoticesAccepted([], 0);
    FailedClaimChangesExactlyWhen(PLAIN, db, CLAIM);
    ClaimEndsLeaseExactlyWhen(PLAIN, db, CLAIM, A("worker"), A("token"));
  }

  // ------------------------------------------------------ a lease cut short

  const RENEWAL := Op(HeartbeatJob(ID, A("worker"), A("token"), 5), 2 * SECOND)

  lemma LeaseIsValid(seconds: nat, now: Instant)
    requires 5 <= seconds <= 300 && now < SECOND + seconds * SECOND
    ensures var db := LeasedTables(seconds);
      ID in db.jobs && LeaseValid(PLAIN, db.jobs[ID], A("worker"), A("token"), now)
  {
    hide LeasedTables, Sound, SHORT;
    LeasedIs(seconds);
  }

  lemma RenewalSucceeds()
    ensures Succeeds(PLAIN, LeasedTables(300), RENEWAL)
  {
    hide LeasedTables, Sound, SHORT, PLAIN, Authentic, LeaseValid, EventAccepted, RenewalNotice, LeaseNotice,
         ExpiryNotice, Succeeds;
    LeasedIs(300);
    SoundRow(PLAIN, LeasedTables(300), ID);
    NoticesAccepted([], 7 * SECOND);
    LeaseIsValid(300, 2 * SECOND);
    HeartbeatGoes(PLAIN, LeasedTables(300), RENEWAL);
  }

  /** A job is created, leased for 300 seconds, and renewed for 5: at the 100th second
      its holder would have passed, and no longer does. */
  lemma LeaseIsCutShort()
    ensures Succeeds(PLAIN, EMPTY, OPENING) && Succeeds(PLAIN, OPENED, LeaseFor(300))
    ensures var (db, after) := (LeasedTables(300), After(PLAIN, LeasedTables(300), RENEWAL));
      && Succeeds(PLAIN, db, RENEWAL) && ID in db.jobs && ID in after.jobs
      && LostAt(PLAIN, db.jobs[ID], after.jobs[ID], A("worker"), A("token"), 100 * SECOND)
  {
    hide Sound, After, Succeeds, SHORT, IdealHash;
    LeasedIs(300);
    RenewalSucceeds();
    PlainIsIdeal();
    HeartbeatSetsExpiry(PLAIN, LeasedTables(300), RENEWAL, A("worker"), A("token"), 100 * SECOND);
  }

  // ------------------------------------------------------------ a lost rescan

  /** A configuration under a four-hour authority. */
  const SETTINGS := Configuration([], [], GrantTerms(0, Str(Strokes(14_400))), [], 14_400 * SECOND, [], A("cfp"))

  /** A scan is live until the 120th second. */
  const SCANNING := EMPTY.(
    heartbeat := Some(Heartbeat(A("worker"), A("catalog"), 0, 0)),
    queue := Some(Queue(true, SETTINGS, 1, None, 0, Some(0), None, None,
                        Some(Scan(A("scan"), A("worker"), PLAIN.sha256(A("token")), 120 * SECOND)), 0, 0)))

  const REQUEST := Op(RequestRescan(A("cfp"), 10 * SECOND), 10 * SECOND)

  const REPORT := Op(
    CompleteQueueScan(CompleteRequest(ScanCredential(A("worker"), A("scan"), A("token"), A("cfp")), 20 * SECOND, [],
                                      None)),
    20 * SECOND)

  const NEXT_CLAIM := Op(
    ClaimQueueScan(ClaimRequest(A("worker"), A("catalog"), 30 * SECOND), A("catalog"), A("scan-2"), A("new")),
    30 * SECOND)

  /** The request is accepted, the scan completes, and the next claim is told that no
      scan is due. */
  lemma RescanIsLost()
    ensures Succeeds(PLAIN, SCANNING, REQUEST)
    ensures var between := After(PLAIN, SCANNING, REQUEST);
      && Succeeds(PLAIN, between, REPORT)
      && Step(PLAIN, After(PLAIN, between, REPORT), NEXT_CLAIM).1 == Ok(ScanReply(NotClaimed(NotDue)))
  {
    RequestAccepted();
    var between := After(PLAIN, SCANNING, REQUEST);
    hide After, Succeeds, Step, FinishScan;
    ReportAccepted(between);
    CompleteCase(PLAIN, between, REPORT);
    CompletionKeeps(between);
    LostRescanRefused(PLAIN, SCANNING, REQUEST, between, REPORT, After(PLAIN, between, REPORT), NEXT_CLAIM);
  }

  lemma RequestAccepted()
    ensures Succeeds(PLAIN, SCANNING, REQUEST)
    ensures var between := After(PLAIN, SCANNING, REQUEST);
      Rescans(SCANNING, REQUEST, between) && between.heartbeat == SCANNING.heartbeat
  {
  }

  lemma ReportAccepted(between: Tables)
    requires Rescans(SCANNING, REQUEST, between)
    ensures Succeeds(PLAIN, between, REPORT)
  {
    assert ScanValid(PLAIN, between.queue, REPORT.action.completion.credential, REPORT.now);
    hide ScanValid;
    assert ScheduleMany(PLAIN, between, between.queue.value.configuration, [], 0, true, REPORT.now).Done?;
  }

  lemma CompletionKeeps(between: Tables)
    requires Rescans(SCANNING, REQUEST, between) && between.heartbeat == SCANNING.heartbeat
    requires Completes(PLAIN, between, REPORT, After(PLAIN, between, REPORT))
    ensures MayClaim(After(PLAIN, between, REPORT), NEXT_CLAIM)
  {
    hide ScanValid;
    assert ScheduleMany(PLAIN, between, between.queue.value.configuration, [], 0, true, REPORT.now).db == between;
  }

  // --------------------------------------------------- an issue stored from before

  const SEEN := Observation(A("issue"), A("ABC-1"), [], A("open"), A("monday"), A("work"), A("read"), [])

  const ISSUE := SEEN.(candidateFingerprint := Digest(PLAIN, CandidateDoc(SEEN)))

  /** The issue is stored from a configuration that has since been replaced. */
  const RECONFIGURED := SCANNING.(
    candidates := map[ISSUE.candidateFingerprint := Candidate(A("old"), ISSUE, None, 0, 0)])

  const ISSUE_REPORT := Op(
    CompleteQueueScan(REPORT.action.completion.(candidates := [ISSUE])),
    20 * SECOND)

  lemma IssueIsFingerprinted()
    ensures Fingerprinted(PLAIN, ISSUE)
  {
    assert CandidateDoc(ISSUE) == CandidateDoc(SEEN);
  }

  lemma ReconfiguredIsSound()
    ensures Sound(PLAIN, RECONFIGURED)
  {
    hide Digest;
  }

  /** A report that lists the issue has passed its schema and is refused; without the
      issue it is accepted. */
  lemma OldIssueIsRefused()
    ensures ReportChecked(PLAIN, ISSUE_REPORT.action.completion)
    ensures !Succeeds(PLAIN, RECONFIGURED, ISSUE_REPORT) && After(PLAIN, RECONFIGURED, ISSUE_REPORT) == RECONFIGURED
    ensures Succeeds(PLAIN, RECONFIGURED, REPORT)
  {
    IssueIsFingerprinted();
    ReconfiguredIsSound();
    assert ReportChecked(PLAIN, ISSUE_REPORT.action.completion) by { hide Fingerprinted, Digest; }
    hide After, Succeeds, Sound, Digest, ReportChecked;
    Different("old", "cfp", 0);
    StoredUnderOldConfigurationRefused(PLAIN, RECONFIGURED, ISSUE_REPORT, 0);
    assert ScanValid(PLAIN, RECONFIGURED.queue, REPORT.action.completion.credential, REPORT.now);
    CompletionSucceedsExactlyWhen(PLAIN, RECONFIGURED, REPORT);
  }

  // ------------------------------------------------------------ a stopped scan

  /** A row with a wrong authenticator. */
  const TAMPERED: Job := Job(
    SHORT, [], Running, Obj([]), Some(A("worker")), Some(PLAIN.sha256(A("token"))), Some(60 * SECOND), 1, 0, 0, [0x78])

  /** The issue's readback job is such a row. */
  const MEETING := SCANNING.(
    jobs := map[ID := TAMPERED.(request := SHORT.(idempotencyKey := ReadbackKey(PLAIN, SETTINGS, ISSUE)))])

  lemma ReadbackMismatches()
    ensures ReportMismatch(PLAIN, MEETING, ISSUE_REPORT, 0, ID)
  {
    var now := ISSUE_REPORT.now;
    var r := ReadbackRequest(PLAIN, SETTINGS, ISSUE, now);
    ReadbackValidates(SETTINGS, ISSUE, now, 14_400);
    SafeAuthority();
    ReadbackIsSafe(PLAIN, SETTINGS, ISSUE, now);
    MeetingIs();
    KeyOfReadback(PLAIN, SETTINGS, ISSUE, now);
    hide ReadbackKey, Digest, Serialize, Validates, ReadbackRequest, Authentic, SHORT, TAMPERED;
    assert Fingerprint(PLAIN, RequestDoc(r)).Some? by { hide RequestDoc; }
    FirstMismatches(PLAIN, MEETING, ISSUE_REPORT, ID);
  }

  /** The only stored job is the first candidate's readback job, and does not verify. */
  lemma FirstMismatches(env: Env, db: Tables, op: Op, id: Text)
    requires op.action.CompleteQueueScan? && op.action.completion.candidates != []
    requires op.now - STALENESS <= op.action.completion.scannedAt <= op.now + FUTURE_SKEW
    requires ScanValid(env, db.queue, op.action.completion.credential, op.now)
    requires db.queue.value.configuration.authorityExpiresAt > op.now
    requires OnlyReadback(env, db, db.queue.value.configuration, op.action.completion.candidates[0], op.now, id)
    ensures ReportMismatch(env, db, op, 0, id)
  {
    var (c, os) := (db.queue.value.configuration, op.action.completion.candidates);
    hide OnlyReadback, MeetsMismatch, ScanValid, ScheduleOne, Referenced;
    OnlyReadbackMeets(env, db, c, os[0], op.now, id);
    assert ScheduleMany(env, db, c, os, 0, true, op.now).db == db;
  }

  ghost predicate OnlyReadback(env: Env, db: Tables, c: Configuration, o: Observation, now: Instant, id: Text) {
    var r := ReadbackRequest(env, c, o, now);
    && o.queueProjectId == c.queueProjectId && Validates(env, r, now, false) && Fingerprint(env, RequestDoc(r)).Some?
    && db.candidates == map[] && db.jobs.Keys == {id} && !Authentic(env, db.jobs[id])
    && db.jobs[id].request.idempotencyKey == r.idempotencyKey
  }

  lemma OnlyReadbackMeets(env: Env, db: Tables, c: Configuration, o: Observation, now: Instant, id: Text)
    requires OnlyReadback(env, db, c, o, now, id)
    ensures MeetsMismatch(env, db, c, o, true, now, id) && !Referenced(db, id)
  {
    hide ReadbackRequest, Fingerprint, RequestDoc, Validates, Authentic;
    assert id in db.jobs;
    assert FindByKey(db.jobs, ReadbackRequest(env, c, o, now).idempotencyKey) == Some(id);
  }

  lemma SafeAuthority()
    ensures Safe(SETTINGS.authority)
  {
  }

  lemma MeetingIs()
    ensures MEETING.jobs.Keys == {ID} && !Authentic(PLAIN, MEETING.jobs[ID])
    ensures MEETING.jobs[ID].request.idempotencyKey == ReadbackKey(PLAIN, SETTINGS, ISSUE)
    ensures MEETING.candidates == map[] && MEETING.queue == SCANNING.queue
    ensures ScanValid(PLAIN, MEETING.queue, ISSUE_REPORT.action.completion.credential, ISSUE_REPORT.now)
  {
    hide ReadbackKey, Digest, SHORT;
  }

  /** The report fails, the issue is stored all the same, the job is quarantined, and
      the scan stays live. */
  lemma TamperedReadbackStopsScan()
    ensures var (after, reply) := Step(PLAIN, MEETING, ISSUE_REPORT);
      && reply == Err(JobIntegrityInvalid) && after.queue == MEETING.queue
      && MEETING.candidates == map[] && ISSUE.candidateFingerprint in after.candidates
      && ID in MEETING.jobs && ID !in after.jobs && ID in after.quarantined
  {
    hide Step, ReadbackKey, Digest, SHORT;
    ReadbackMismatches();
    assert ScheduleMany(PLAIN, MEETING, SETTINGS, [ISSUE], 0, true, ISSUE_REPORT.now).db == MEETING;
    ScanStopsAtMismatch(PLAIN, MEETING, ISSUE_REPORT, 0, ID);
  }

  // ------------------------------------------------------------ a stuck restart

  /** A job with a wrong authenticator that a candidate refers to. */
  const STUCK := EMPTY.(
    jobs := map[ID := TAMPERED],
    candidates := map[A("c") := Candidate([], Observation([], [], [], [], [], [], [], A("c")), Some(ID), 0, 0)])

  const RESTART := Op(Restart([ID]), 10 * SECOND)

  /** The restart fails, having quarantined the job without removing it. */
  lemma RestartIsStuck()
    ensures !Succeeds(PLAIN, STUCK, RESTART)
    ensures After(PLAIN, STUCK, RESTART).jobs == STUCK.jobs && ID in After(PLAIN, STUCK, RESTART).quarantined
  {
    hide RestartRow, Rejects, After, Succeeds;
    StuckIsRejected();
    RestartRowEffect(PLAIN, STUCK, ID, RESTART.now);
    RestartOfOne(PLAIN, STUCK, ID, RESTART.now);
  }

  lemma StuckIsRejected()
    ensures Referenced(STUCK, ID) && Rejects(PLAIN, STUCK.jobs[ID], RESTART.now)
  {
    hide RequestSound, GrantPayload;
    assert STUCK.candidates[A("c")].readbackJobId == Some(ID);
  }

  // ------------------------------------------------------ a clock that is set back

  /** A job created at the 100th second, under a grant issued then. */
  const CREATE := Op(CreateJob(RequestUnder(100, Null)), 100 * SECOND)

  const EARLY_RESTART := Op(Restart([ID]), 90 * SECOND)

  lemma SafeCreate()
    ensures Safe(RequestUnder(100, Null).payload)
  {
  }

  lemma GrantTimes(now: Instant, allowExpired: bool)
    ensures Validates(PLAIN, RequestUnder(100, Null), now, allowExpired) <==> 100 * SECOND <= now + GRANT_SKEW
  {
    GrantInPayload(100, Null);
    hide Get, GrantPayload, Strokes;
  }

  /** A restart ten seconds before that quarantines it. */
  lemma EarlyRestartQuarantines()
    ensures Validates(PLAIN, CREATE.action.request, CREATE.now, false) && Succeeds(PLAIN, EMPTY, CREATE)
    ensures var db := After(PLAIN, EMPTY, CREATE);
      && ID in db.jobs && ID !in After(PLAIN, db, EARLY_RESTART).jobs
  {
    var db := After(PLAIN, EMPTY, CREATE);
    CreatesPlainly(RequestUnder(100, Null), CREATE.now) by { SafeCreate(); }
    GrantTimes(CREATE.now, false);
    GrantTimes(EARLY_RESTART.now, true);
    hide RestartRow, Validates, After, Succeeds, GrantPayload;
    RestartRowEffect(PLAIN, db, ID, EARLY_RESTART.now);
    RestartOfOne(PLAIN, db, ID, EARLY_RESTART.now);
  }
}
