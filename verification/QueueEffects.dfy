/**
 What a successful call on the scan queue leaves, column by column, with its times in
 microseconds, and the rules by which its parts are compared.
 */
module QueueEffects {
  import opened Outcomes
  import opened PyText
  import opened Canonical
  import opened StoreTables
  import opened Ledger
  import opened ScanQueue
  import opened Coordinator
  import opened QueueRuns
  import opened JsonDocs
  import opened CanonicalText

  // ---------------------------------------------------------------- worker, settings

  /** A heartbeat is recorded exactly when it is of the expected catalog, polled at most
      45 seconds ago and 5 ahead, and no other coordinator's is less than 45 seconds old. */
  lemma HeartbeatRule(env: Env, db: Tables, op: Op)
    requires op.action.BeatWorker?
    ensures var a := op.action;
      Succeeds(env, db, op) <==>
      (a.catalog == a.expected && op.now - 45_000_000 <= a.polledAt <= op.now + 5_000_000
       && !(db.heartbeat.Some? && db.heartbeat.value.coordinatorId != a.coordinator
            && op.now < db.heartbeat.value.receivedAt + 45_000_000))
    ensures Succeeds(env, db, op) ==>
      After(env, db, op)
        == db.(heartbeat := Some(Heartbeat(op.action.coordinator, op.action.catalog, op.action.polledAt, op.now)))
  {
  }

  /** A configuration that differs from the enabled one replaces the row. */
  lemma ConfigureRule(env: Env, db: Tables, op: Op)
    requires op.action.ConfigureQueue?
    ensures var c := op.action.configuration;
      var same := db.queue.Some? && db.queue.value.enabled
        && db.queue.value.configuration.configurationFingerprint == c.configurationFingerprint;
      && (Succeeds(env, db, op) <==> c.authorityExpiresAt > op.now)
      && After(env, db, op) ==
        if !Succeeds(env, db, op) || same then db
        else db.(queue := Some(Queue(true, c, if db.queue.Some? then db.queue.value.revision + 1 else 1, None, op.now,
                                     None, None, None, None,
                                     if db.queue.Some? then db.queue.value.createdAt else op.now, op.now)),
                 queueEvents := db.queueEvents + [Configured(c.configurationFingerprint, op.now)])
  {
  }

  lemma DisableRule(env: Env, db: Tables, op: Op)
    requires op.action.DisableQueue?
    ensures Succeeds(env, db, op)
    ensures After(env, db, op) ==
      if db.queue.Some? && db.queue.value.enabled
      then db.(queue := Some(db.queue.value.(enabled := false, scan := None, updatedAt := op.now)),
               queueEvents := db.queueEvents
                 + [Disabled(db.queue.value.configuration.configurationFingerprint, op.now)])
      else db
  {
  }

  // ------------------------------------------------------------------- scan claims

  /** The claim is in its window, and from the worker whose heartbeat is less than 45
      seconds old. */
  predicate FromLiveWorker(db: Tables, op: Op)
    requires op.action.ClaimQueueScan?
  {
    var (r, expected) := (op.action.claim, op.action.expected);
    && op.now - 45_000_000 <= r.claimedAt <= op.now + 5_000_000
    && db.heartbeat.Some? && db.heartbeat.value.coordinatorId == r.coordinatorId
    && db.heartbeat.value.catalogFingerprint == r.catalogFingerprint && r.catalogFingerprint == expected
    && op.now < db.heartbeat.value.receivedAt + 45_000_000
  }

  function ClaimAnswer(db: Tables, op: Op): ScanClaim
    requires op.action.ClaimQueueScan?
  {
    if db.queue.None? || !db.queue.value.enabled then NotClaimed(QueueDisabled)
    else if db.queue.value.configuration.authorityExpiresAt <= op.now then NotClaimed(AuthorityGone)
    else if db.queue.value.scan.Some? && db.queue.value.scan.value.id != []
      && db.queue.value.scan.value.expiresAt > op.now then NotClaimed(ScanInProgress)
    else if db.queue.value.nextScanAt > op.now then NotClaimed(NotDue)
    else ScanGranted(op.action.scanId, db.queue.value.configuration, db.queue.value.cursor)
  }

  /** A claim is refused to all but the live worker, who is told why no scan is due or is
      granted one for 120 seconds. */
  lemma ClaimRule(env: Env, db: Tables, op: Op)
    requires op.action.ClaimQueueScan?
    ensures Step(env, db, op).1 ==
      if FromLiveWorker(db, op) then Ok(ScanReply(ClaimAnswer(db, op))) else Err(StoreError)
    ensures FromLiveWorker(db, op) && ClaimAnswer(db, op).ScanGranted? ==>
      After(env, db, op) == db.(
        queue := Some(db.queue.value.(
          scan := Some(Scan(op.action.scanId, op.action.claim.coordinatorId, env.sha256(op.action.token),
                            op.now + 120_000_000)),
          lastScanStartedAt := Some(op.now), lastError := None, updatedAt := op.now)),
        queueEvents := db.queueEvents
          + [ScanStarted(op.action.scanId, db.queue.value.configuration.configurationFingerprint, op.now)])
  {
  }

  // ------------------------------------------------------------------------ reports

  /** The credential is that of the scan which is live under the enabled configuration. */
  predicate Credited(env: Env, db: Tables, c: ScanCredential, now: Instant) {
    && db.queue.Some? && db.queue.value.enabled
    && db.queue.value.configuration.configurationFingerprint == c.configurationFingerprint
    && db.queue.value.scan.Some?
    && var s := db.queue.value.scan.value;
    && s.id == c.scanId && s.owner == c.coordinatorId && now < s.expiresAt
    && s.tokenHash == env.sha256(c.scanToken) && env.sha256(c.scanToken) != []
  }

  lemma CreditedIs(env: Env, db: Tables, c: ScanCredential, now: Instant)
    ensures ScanValid(env, db.queue, c, now) <==> Credited(env, db, c, now)
  {
  }

  /** A failure is accepted exactly in its window, at most 10 minutes old and 5 seconds
      ahead, with that credential; the next scan is due 15 minutes after it. */
  lemma FailureRule(env: Env, db: Tables, op: Op)
    requires op.action.FailQueueScan?
    ensures var a := op.action;
      Succeeds(env, db, op) <==>
        op.now - 600_000_000 <= a.failedAt <= op.now + 5_000_000 && Credited(env, db, a.credential, op.now)
    ensures var a := op.action;
      After(env, db, op) ==
      if !Succeeds(env, db, op) then db
      else db.(
        queue := Some(db.queue.value.(nextScanAt := a.failedAt + 900_000_000, lastError := Some(a.errorCode),
                                      scan := None, updatedAt := op.now)),
        queueEvents := db.queueEvents
          + [ScanFailed(a.credential.scanId, db.queue.value.configuration.configurationFingerprint, a.errorCode,
                        op.now)])
  {
    hide ScanValid;
    CreditedIs(env, db, op.action.credential, op.now);
    hide Credited;
    ValidQueue(env, db.queue, op.action.credential, op.now);
  }

  /** A rescan is accepted exactly in its window, for the enabled configuration and under
      its authority; the next scan is due now, if it was not before. */
  lemma RescanRule(env: Env, db: Tables, op: Op)
    requires op.action.RequestRescan?
    ensures var a := op.action;
      Succeeds(env, db, op) <==>
        (op.now - 600_000_000 <= a.requestedAt <= op.now + 5_000_000
         && db.queue.Some? && db.queue.value.enabled
         && db.queue.value.configuration.configurationFingerprint == a.configurationFingerprint
         && op.now < db.queue.value.configuration.authorityExpiresAt)
    ensures After(env, db, op) ==
      if !Succeeds(env, db, op) then db
      else db.(
        queue := Some(db.queue.value.(
          nextScanAt := if op.now < db.queue.value.nextScanAt then op.now else db.queue.value.nextScanAt,
          lastError := Some("linear_queue_terminal_readback"), updatedAt := op.now)),
        queueEvents := db.queueEvents + [RescanRequested(op.action.configurationFingerprint, op.now)])
  {
  }

  // ------------------------------------------------------------------------ cursors

  /** Text that comes later: it differs first in a greater character, or goes on where
      the other ends. */
  ghost predicate Later(a: Text, b: Text) {
    exists i: nat :: LaterAt(a, b, i)
  }

  predicate LaterAt(a: Text, b: Text, i: nat) {
    i < |a| && i <= |b| && a[..i] == b[..i] && (i == |b| || a[i] > b[i])
  }

  lemma {:induction false} LaterIs(a: Text, b: Text)
    ensures Later(a, b) <==> !LexLe(a, b)
  {
    if Later(a, b) {
      var i: nat :| LaterAt(a, b, i);
      LexByFirstDifference(a, b, i);
    }
    if !LexLe(a, b) {
      var i := FirstDifference(a, b);
    }
  }

  lemma {:induction false} FirstDifference(a: Text, b: Text) returns (i: nat)
    requires !LexLe(a, b)
    ensures LaterAt(a, b, i)
  {
    if b == [] || a[0] != b[0] {
      i := 0;
    } else {
      var j := FirstDifference(a[1..], b[1..]);
      i := j + 1;
      assert a[..i] == [a[0]] + a[1..][..j] && b[..i] == [b[0]] + b[1..][..j];
    }
  }

  /** The reported cursor is of a later time, or of the same time and a later issue. */
  ghost predicate Ahead(env: Env, c: Cursor, stored: Option<Cursor>) {
    stored.Some? ==>
      var (t, u) := (env.instant(c.updatedAt), env.instant(stored.value.updatedAt));
      t.Some? && u.Some? && (t.value > u.value || (t.value == u.value && Later(c.issueId, stored.value.issueId)))
  }

  lemma AheadIs(env: Env, c: Cursor, stored: Option<Cursor>)
    ensures CursorAfter(env, c, stored) == Some(true) <==> Ahead(env, c, stored)
    ensures CursorAfter(env, c, stored).None? <==>
      stored.Some? && !(env.instant(c.updatedAt).Some? && env.instant(stored.value.updatedAt).Some?)
  {
    if stored.Some? { LaterIs(c.issueId, stored.value.issueId); }
  }

  /** The queue row after an accepted completion: the reported cursor if it is ahead, and
      the next scan due 15 minutes after this one. */
  ghost predicate Finished(env: Env, db: Tables, op: Op, after: Tables)
    requires op.action.CompleteQueueScan?
  {
    var r := op.action.completion;
    && db.queue.Some?
    && var q := db.queue.value;
    && var cursor := if r.cursor.Some? && Ahead(env, r.cursor.value, q.cursor) then r.cursor else q.cursor;
    after.queue == Some(q.(
      cursor := cursor, nextScanAt := r.scannedAt + 900_000_000, lastScanCompletedAt := Some(r.scannedAt),
      lastError := if q.configuration.authorityExpiresAt > op.now then None
                   else Some("linear_queue_authority_expired"),
      scan := None, updatedAt := op.now))
  }

  lemma CompletionFinishes(env: Env, db: Tables, op: Op)
    requires op.action.CompleteQueueScan? && Succeeds(env, db, op)
    ensures op.now - 600_000_000 <= op.action.completion.scannedAt <= op.now + 5_000_000
    ensures Credited(env, db, op.action.completion.credential, op.now)
    ensures Finished(env, db, op, After(env, db, op))
  {
    hide After, Succeeds, ScanValid, CursorAfter, Ahead, Credited;
    var r := op.action.completion;
    CompleteCase(env, db, op);
    CreditedIs(env, db, r.credential, op.now);
    ValidQueue(env, db.queue, r.credential, op.now);
    if r.cursor.Some? { AheadIs(env, r.cursor.value, db.queue.value.cursor); }
  }

  // --------------------------------------------------------------------- candidates

  /** The stored row of that fingerprint is of this configuration, issue and readback. */
  predicate SameBinding(row: Candidate, cfp: Text, o: Observation) {
    && row.configurationFingerprint == cfp && row.observation.issueId == o.issueId
    && row.observation.readbackFingerprint == o.readbackFingerprint
  }

  /** Another row of the configuration holds the same state of the same issue. */
  predicate SameStateStored(db: Tables, cfp: Text, o: Observation) {
    exists k :: k in db.candidates && SameState(db.candidates[k], cfp, o) && k != o.candidateFingerprint
  }

  predicate SameState(row: Candidate, cfp: Text, o: Observation) {
    && row.configurationFingerprint == cfp && row.observation.issueId == o.issueId
    && row.observation.remoteUpdatedAt == o.remoteUpdatedAt
    && row.observation.workItemFingerprint == o.workItemFingerprint
    && row.observation.readbackFingerprint == o.readbackFingerprint
  }

  lemma BindingRules(db: Tables, row: Candidate, cfp: Text, o: Observation)
    ensures BoundElsewhere(row, cfp, o) <==> !SameBinding(row, cfp, o)
    ensures OtherCandidateSameContent(db, cfp, o) <==> SameStateStored(db, cfp, o)
  {
  }

  /** What a candidate's fingerprint is taken over. */
  predicate HoldsIssue(o: Observation, v: Json) {
    && v.Obj? && |v.entries| == 7
    && Get(v, "issueId") == Str(o.issueId) && Get(v, "identifier") == Str(o.identifier)
    && Get(v, "queueProjectId") == Str(o.queueProjectId) && Get(v, "remoteStateId") == Str(o.remoteStateId)
    && Get(v, "remoteUpdatedAt") == Str(o.remoteUpdatedAt)
    && Get(v, "workItemFingerprint") == Str(o.workItemFingerprint)
    && Get(v, "readbackFingerprint") == Str(o.readbackFingerprint)
  }

  lemma FingerprintOfIssue(env: Env, o: Observation) returns (v: Json)
    requires Fingerprinted(env, o)
    ensures HoldsIssue(o, v) && Safe(v) && o.candidateFingerprint == A("sha256:") + env.sha256(Serialize(v))
  {
    var keys := ["issueId", "identifier", "queueProjectId", "remoteStateId", "remoteUpdatedAt",
                 "workItemFingerprint", "readbackFingerprint"];
    assert "workItemFingerprint"[0] != "readbackFingerprint"[0];
    var values := [Str(o.issueId), Str(o.identifier), Str(o.queueProjectId), Str(o.remoteStateId),
                   Str(o.remoteUpdatedAt), Str(o.workItemFingerprint), Str(o.readbackFingerprint)];
    v := Doc(keys, values);
    assert CandidateDoc(o) == v;
    hide Get, Doc, A, Serialize, Safe, CandidateDoc;
    FieldsOfDoc(keys, values);
    DocIsObject(keys, values);
    assert Get(v, keys[0]) == values[0] && Get(v, keys[1]) == values[1] && Get(v, keys[2]) == values[2];
    assert Get(v, keys[3]) == values[3] && Get(v, keys[4]) == values[4] && Get(v, keys[5]) == values[5];
    assert Get(v, keys[6]) == values[6];
  }

  // ----------------------------------------------------------------- authorizations

  /** The time that a field of the request's authorization holds. */
  function AuthorizationTime(env: Env, r: Request, name: string): Option<Instant> {
    var v := Get(Get(r.payload, "authorization"), name);
    if v.Str? then env.instant(v.s) else None
  }

  /** A request is valid when the rest of its schema is met, its authorization was issued
      at most 5 seconds ahead, and its expiry, if it has one, comes after that and, for a
      new request, is ahead. */
  lemma ValidationRule(env: Env, r: Request, now: Instant, allowExpired: bool)
    ensures Validates(env, r, now, allowExpired) <==>
      var (issued, expires) := (AuthorizationTime(env, r, "authorizedAt"), AuthorizationTime(env, r, "expiresAt"));
      && env.contract(r) && issued.Some? && issued.value <= now + 5_000_000
      && (Get(Get(r.payload, "authorization"), "expiresAt") == Null
          || (expires.Some? && issued.value < expires.value && (allowExpired || now < expires.value)))
  {
    hide Get;
  }
}
