/**
 When claim_job grants a lease and when it blocks the job, stated on the stored
 documents and receipts themselves.
 */
module ClaimRules {
  import opened Outcomes
  import opened PyText
  import opened Canonical
  import opened StoreTables
  import opened Ledger
  import opened Coordinator
  import opened StoreSteps
  import opened StoreIntegrity

  // --------------------------------------------------------- the five documents

  /** The documents of a payload that carry an expiry, in the order they are read. */
  function Documents(): (names: seq<string>)
    ensures |names| == 5
  {
    ["authorization", "preparedBackgroundCodeAction", "preparedBackgroundCodePackage",
     "preparedBackgroundGitHubAction", "preparedBackgroundGitHubPackage"]
  }

  function ExpiryOf(payload: Json, name: string): Json {
    Get(Get(payload, name), "expiresAt")
  }

  /** The document carries a time that has come. */
  predicate HasExpired(env: Env, payload: Json, name: string, now: Instant) {
    var e := ExpiryOf(payload, name);
    e.Str? && env.instant(e.s).Some? && env.instant(e.s).value <= now
  }

  predicate Unreadable(env: Env, payload: Json, name: string) {
    var e := ExpiryOf(payload, name);
    e.Str? && env.instant(e.s).None?
  }

  /** The document has no expiry, or one ahead. */
  predicate Stands(env: Env, payload: Json, name: string, now: Instant) {
    !HasExpired(env, payload, name, now) && !Unreadable(env, payload, name)
  }

  predicate AllStand(env: Env, payload: Json, now: Instant) {
    forall i :: 0 <= i < 5 ==> Stands(env, payload, Documents()[i], now)
  }

  predicate FirstExpiredAt(env: Env, payload: Json, now: Instant, i: nat) {
    i < 5 && HasExpired(env, payload, Documents()[i], now)
    && forall j :: 0 <= j < i ==> Stands(env, payload, Documents()[j], now)
  }

  /** Some document has expired, and those read before it stand. */
  ghost predicate SomeExpired(env: Env, payload: Json, now: Instant) {
    exists i: nat :: FirstExpiredAt(env, payload, now, i)
  }

  lemma {:induction false} AnyJoin(env: Env, a: seq<Json>, b: seq<Json>, now: Instant)
    ensures AnyExpired(env, a + b, now) ==
      match AnyExpired(env, a, now) case Some(false) => AnyExpired(env, b, now) case r => r
  {
    if a == [] {
      assert a + b == b;
    } else {
      assert (a + b)[1..] == a[1..] + b;
      AnyJoin(env, a[1..], b, now);
    }
  }

  /** What one document contributes. */
  function One(env: Env, payload: Json, name: string, now: Instant): Option<bool> {
    if Unreadable(env, payload, name) then None else Some(HasExpired(env, payload, name, now))
  }

  lemma {:induction false} AnyOfOne(env: Env, v: Json, now: Instant)
    ensures AnyExpired(env, [v], now) ==
      if v.Str? && env.instant(v.s).None? then None
      else Some(v.Str? && env.instant(v.s).Some? && env.instant(v.s).value <= now)
    ensures AnyExpired(env, [], now) == Some(false)
  {
    assert [v][1..] == [];
  }

  lemma {:induction false} OptionalIsOne(env: Env, payload: Json, name: string, now: Instant)
    ensures AnyExpired(env, OptionalExpiry(Get(payload, name)), now) == One(env, payload, name, now)
  {
    AnyOfOne(env, ExpiryOf(payload, name), now);
  }

  function Chain(env: Env, payload: Json, now: Instant, i: nat): Option<bool>
    requires i <= 5
    decreases 5 - i
  {
    if i == 5 then Some(false)
    else match One(env, payload, Documents()[i], now) case Some(false) => Chain(env, payload, now, i + 1) case r => r
  }

  lemma {:induction false} FieldsAreDocuments(env: Env, payload: Json, now: Instant)
    ensures AnyExpired(env, ExpiryFields(payload), now) == Chain(env, payload, now, 0)
  {
    var names := Documents();
    var a := [ExpiryOf(payload, "authorization")];
    var (b, c) := (OptionalExpiry(Get(payload, names[1])), OptionalExpiry(Get(payload, names[2])));
    var (d, e) := (OptionalExpiry(Get(payload, names[3])), OptionalExpiry(Get(payload, names[4])));
    assert ExpiryFields(payload) == a + b + c + d + e;
    AnyOfOne(env, ExpiryOf(payload, names[0]), now);
    OptionalIsOne(env, payload, names[1], now);
    OptionalIsOne(env, payload, names[2], now);
    OptionalIsOne(env, payload, names[3], now);
    OptionalIsOne(env, payload, names[4], now);
    hide AnyExpired, OptionalExpiry, Get, One;
    assert AnyExpired(env, a, now) == One(env, payload, names[0], now) by { OneIs(env, payload, names[0], now); }
    AnyJoin(env, a, b, now);
    AnyJoin(env, a + b, c, now);
    AnyJoin(env, a + b + c, d, now);
    AnyJoin(env, a + b + c + d, e, now);
    ChainIs(env, payload, now);
  }

  lemma OneIs(env: Env, payload: Json, name: string, now: Instant)
    ensures One(env, payload, name, now) ==
      (if Unreadable(env, payload, name) then None else Some(HasExpired(env, payload, name, now)))
  {
  }

  lemma {:induction false} ChainIs(env: Env, payload: Json, now: Instant)
    ensures Chain(env, payload, now, 5) == Some(false)
    ensures forall i: nat :: i < 5 ==>
      Chain(env, payload, now, i) ==
        match One(env, payload, Documents()[i], now) case Some(false) => Chain(env, payload, now, i + 1) case r => r
  {
  }

  lemma {:induction false} ChainMeans(env: Env, payload: Json, now: Instant, i: nat)
    requires i <= 5 && forall j :: 0 <= j < i ==> Stands(env, payload, Documents()[j], now)
    ensures Chain(env, payload, now, i) == Some(false) <==> AllStand(env, payload, now)
    ensures Chain(env, payload, now, i) == Some(true) <==> SomeExpired(env, payload, now)
    decreases 5 - i
  {
    hide Documents, ExpiryOf;
    if i < 5 {
      if Stands(env, payload, Documents()[i], now) {
        ChainMeans(env, payload, now, i + 1);
      } else if HasExpired(env, payload, Documents()[i], now) {
        assert FirstExpiredAt(env, payload, now, i);
      }
    }
  }

  // ------------------------------------------------------------ durable receipts

  predicate FilledText(v: Json) {
    v.Str? && v.s != []
  }

  /** A prepared code action's attempt left an ambiguous receipt. */
  predicate CodeReceipt(env: Env, row: Job, r: Receipt) {
    var (h, p) := (Get(row.request.payload, "preparedBackgroundCodeAction"),
                   Get(row.request.payload, "preparedBackgroundCodePackage"));
    var (mark, checkpoint) := (Get(h, "fingerprint"), Get(Get(h, "payload"), "repairCheckpointId"));
    && row.request.executionHost.Code? && h.Obj? && p.Obj?
    && Get(h, "operation") == Str(A("prepared_code_validation_commit_v1")) && Get(h, "status") == Str(A("prepared"))
    && Get(p, "handoffFingerprint") == mark
    && FilledText(mark) && FilledText(checkpoint) && FilledText(Get(h, "reconciliationKey"))
    && r.provider.Code? && r.operation == A("prepared_code_validation_commit_v1") && r.status.Ambiguous?
    && Get(r.payload, "handoffFingerprint") == mark
    && var attempt := Doc(["version", "jobId", "handoffFingerprint", "repairCheckpointId", "reconciliationKey"],
                          [Int(1), Str(row.request.id), mark, checkpoint, Get(h, "reconciliationKey")]);
    Safe(attempt) && Get(r.payload, "attemptId") == Str(Digest(env, attempt))
  }

  /** A prepared GitHub action's attempt left a dispatched or an ambiguous receipt. */
  predicate GitHubReceipt(env: Env, row: Job, r: Receipt) {
    var (a, p) := (Get(row.request.payload, "preparedBackgroundGitHubAction"),
                   Get(row.request.payload, "preparedBackgroundGitHubPackage"));
    var (mark, prepared) := (Get(a, "fingerprint"), Get(a, "preparedActionFingerprint"));
    && row.request.executionHost.GitHub? && a.Obj? && p.Obj? && Get(a, "status") == Str(A("prepared"))
    && Get(p, "actionFingerprint") == mark
    && FilledText(mark) && FilledText(prepared) && FilledText(Get(a, "reconciliationKey"))
    && FilledText(Get(a, "operation"))
    && r.provider.GitHub? && Str(r.operation) == Get(a, "operation") && (r.status.Ambiguous? || r.status.Dispatched?)
    && Get(r.payload, "actionFingerprint") == mark
    && var attempt := Doc(["version", "jobId", "operation", "actionFingerprint", "preparedActionFingerprint",
                           "reconciliationKey"],
                          [Int(1), Str(row.request.id), Get(a, "operation"), mark, prepared,
                           Get(a, "reconciliationKey")]);
    Safe(attempt) && Get(r.payload, "attemptId") == Str(Digest(env, attempt))
  }

  /** A prepared Linear update's attempt left a dispatched or an ambiguous receipt. */
  predicate LinearReceipt(env: Env, row: Job, r: Receipt) {
    var h := Get(row.request.payload, "preparedExternalActionHandoff");
    var (mark, prepared) := (Get(h, "fingerprint"), Get(h, "preparedActionFingerprint"));
    && row.request.executionHost.Linear? && h.Obj?
    && Get(h, "operation") == Str(A("linear_issue_state_update_v1")) && Get(h, "status") == Str(A("prepared"))
    && FilledText(mark) && FilledText(prepared) && FilledText(Get(h, "reconciliationKey"))
    && r.provider.Linear? && r.operation == A("linear_issue_state_update_v1")
    && (r.status.Ambiguous? || r.status.Dispatched?)
    && Get(r.payload, "handoffFingerprint") == mark
    && var attempt := Doc(["version", "jobId", "handoffFingerprint", "preparedActionFingerprint", "reconciliationKey"],
                          [Int(1), Str(row.request.id), mark, prepared, Get(h, "reconciliationKey")]);
    Safe(attempt) && Get(r.payload, "attemptId") == Str(Digest(env, attempt))
  }

  /** The receipt shows that this very prepared attempt may have had its effect. */
  predicate Durable(env: Env, row: Job, r: Receipt) {
    r.jobId == row.request.id
    && (CodeReceipt(env, row, r) || GitHubReceipt(env, row, r) || LinearReceipt(env, row, r))
  }

  ghost predicate HasDurable(env: Env, db: Tables, row: Job) {
    exists k :: k in db.receipts && Durable(env, row, db.receipts[k])
  }

  lemma MarkedIsDurable(env: Env, row: Job, r: Receipt)
    ensures PreparedAttemptOf(row).Some? && Marks(env, PreparedAttemptOf(row).value, row.request.id, r)
      <==> Durable(env, row, r)
  {
    match row.request.executionHost
    case Code => CodeMarks(env, row, r);
    case GitHub => GitHubMarks(env, row, r);
    case Linear => LinearMarks(env, row, r);
    case Research =>
    case Companion =>
  }

  lemma CodeMarks(env: Env, row: Job, r: Receipt)
    requires row.request.executionHost.Code?
    ensures PreparedAttemptOf(row).Some? && Marks(env, PreparedAttemptOf(row).value, row.request.id, r)
      <==> r.jobId == row.request.id && CodeReceipt(env, row, r)
  {
    hide Get, Doc, Digest, Safe, A;
  }

  lemma GitHubMarks(env: Env, row: Job, r: Receipt)
    requires row.request.executionHost.GitHub?
    ensures PreparedAttemptOf(row).Some? && Marks(env, PreparedAttemptOf(row).value, row.request.id, r)
      <==> r.jobId == row.request.id && GitHubReceipt(env, row, r)
  {
    hide Get, Doc, Digest, Safe, A;
  }

  lemma LinearMarks(env: Env, row: Job, r: Receipt)
    requires row.request.executionHost.Linear?
    ensures PreparedAttemptOf(row).Some? && Marks(env, PreparedAttemptOf(row).value, row.request.id, r)
      <==> r.jobId == row.request.id && LinearReceipt(env, row, r)
  {
    hide Get, Doc, Digest, Safe, A;
  }

  lemma MarkerIsDurable(env: Env, db: Tables, row: Job)
    ensures HasMarker(env, db, row) <==> HasDurable(env, db, row)
  {
    hide PreparedAttemptOf, Marks, Durable;
    forall k | k in db.receipts
      ensures PreparedAttemptOf(row).Some? && Marks(env, PreparedAttemptOf(row).value, row.request.id, db.receipts[k])
        <==> Durable(env, row, db.receipts[k])
    {
      MarkedIsDurable(env, row, db.receipts[k]);
    }
  }

  // ------------------------------------------------------------------- the claim

  /** The job can still be claimed: it is queued or running, under an authorization. */
  predicate Open(row: Job) {
    (row.state.Queued? || row.state.Running?) && Get(row.request.payload, "authorization").Obj?
  }

  /** Some coordinator's lease runs on. */
  predicate Held(row: Job, now: Instant) {
    row.owner.Some? && row.owner.value != []
    && (if row.expiresAt.Some? then row.expiresAt.value > now else 0 > now)
  }

  /** The claim is to be blocked: a document has expired, and no receipt shows that the
      prepared attempt may have had its effect. */
  ghost predicate Lapsed(env: Env, db: Tables, row: Job, now: Instant) {
    Open(row) && SomeExpired(env, row.request.payload, now) && !HasDurable(env, db, row)
  }

  /** The claim is to be granted: every document stands, or such a receipt is there; and
      no lease runs on. */
  ghost predicate Grantable(env: Env, db: Tables, row: Job, now: Instant) {
    && Open(row) && !Held(row, now)
    && (AllStand(env, row.request.payload, now)
        || (SomeExpired(env, row.request.payload, now) && HasDurable(env, db, row)))
  }

  lemma Decided(env: Env, db: Tables, row: Job, now: Instant)
    ensures Decide(env, db, row, now).Expire? <==> Lapsed(env, db, row, now)
    ensures Decide(env, db, row, now).Grant? <==> Grantable(env, db, row, now)
  {
    FieldsAreDocuments(env, row.request.payload, now);
    ChainMeans(env, row.request.payload, now, 0);
    MarkerIsDurable(env, db, row);
    StandOrExpired(env, row.request.payload, now);
    hide HasMarker, HasDurable, AnyExpired, ExpiryFields, Chain, AllStand, SomeExpired, Get;
  }

  lemma StandOrExpired(env: Env, payload: Json, now: Instant)
    ensures !(AllStand(env, payload, now) && SomeExpired(env, payload, now))
  {
    hide Documents, ExpiryOf;
  }

  /** The event of a lease, field by field. */
  function LeaseEvent(env: Env, coordinator: Text, expires: Instant): Json {
    Obj([Keyed(A("coordinatorId"), Str(coordinator)), Keyed(A("leaseExpiresAt"), Str(env.iso(expires)))])
  }

  /** The event of a block, field by field. */
  function BlockEvent(): Json {
    Obj([Keyed(A("code"), Str(A("authorization_expired"))),
         Keyed(A("message"), Str(A("Background authorization expired before claim."))),
         Keyed(A("requiredAction"), Str(A("Issue a fresh scoped grant before retrying."))),
         Keyed(A("status"), Str(A("blocked")))])
  }

  lemma LeaseEventIs(env: Env, coordinator: Text, expires: Instant)
    ensures LeaseNotice(env, coordinator, expires) == LeaseEvent(env, coordinator, expires)
  {
  }

  lemma BlockEventIs()
    ensures ExpiryNotice() == BlockEvent()
  {
  }

  /** A claim of a stored job succeeds exactly when it is grantable and its event is
      accepted. */
  lemma ClaimGrantedExactlyWhen(env: Env, db: Tables, op: Op)
    requires op.action.ClaimJob? && op.action.id in db.jobs && Authentic(env, db.jobs[op.action.id])
    ensures Succeeds(env, db, op) <==>
      Grantable(env, db, db.jobs[op.action.id], op.now)
      && EventAccepted(env, "lease_acquired",
                       LeaseEvent(env, op.action.coordinator, op.now + op.action.leaseSeconds * SECOND))
  {
    hide After, Succeeds, Grantable, Lapsed, EventAccepted, LeaseEvent, LeaseNotice, Decide, Authentic;
    var a := op.action;
    Decided(env, db, db.jobs[a.id], op.now);
    LeaseEventIs(env, a.coordinator, op.now + a.leaseSeconds * SECOND);
    ClaimEffect(env, db, op);
    GrantGoes(env, db, op);
  }

  lemma GrantGoes(env: Env, db: Tables, op: Op)
    requires op.action.ClaimJob? && op.action.id in db.jobs
    ensures GrantJournal(env, db, op).Done? <==>
      EventAccepted(env, "lease_acquired",
                    LeaseNotice(env, op.action.coordinator, op.now + op.action.leaseSeconds * SECOND))
  {
    hide LeaseNotice, LeasedRow;
  }

  /** A claim of a stored job fails and yet changes the tables exactly when the job has
      lapsed and the event of the block is accepted. */
  lemma ClaimBlockedExactlyWhen(env: Env, db: Tables, op: Op)
    requires op.action.ClaimJob? && op.action.id in db.jobs && Authentic(env, db.jobs[op.action.id])
    ensures !Succeeds(env, db, op) && After(env, db, op) != db <==>
      Lapsed(env, db, db.jobs[op.action.id], op.now) && EventAccepted(env, "job_blocked", BlockEvent())
  {
    hide After, Succeeds, Grantable, Lapsed, EventAccepted, BlockEvent, ExpiryNotice, Decide, Authentic, ExpiryJournal,
         GrantJournal;
    Decided(env, db, db.jobs[op.action.id], op.now);
    BlockEventIs();
    ClaimEffect(env, db, op);
    BlockCounts(env, db, op);
  }

  /** A claim that succeeds although one of the five documents has expired rests on a
      receipt of this job's very attempt. */
  lemma ExpiredClaimNeedsReceipt(env: Env, db: Tables, op: Op, i: nat)
    requires op.action.ClaimJob? && op.action.id in db.jobs && Succeeds(env, db, op)
    requires i < 5 && HasExpired(env, db.jobs[op.action.id].request.payload, Documents()[i], op.now)
    ensures HasDurable(env, db, db.jobs[op.action.id])
  {
    hide After, Succeeds, HasDurable, EventAccepted, LeaseEvent, ExpiryOf, Documents;
    ClaimedIsAuthentic(env, db, op);
    ClaimGrantedExactlyWhen(env, db, op);
  }

  lemma ClaimedIsAuthentic(env: Env, db: Tables, op: Op)
    requires op.action.ClaimJob? && op.action.id in db.jobs && Succeeds(env, db, op)
    ensures Authentic(env, db.jobs[op.action.id])
  {
    hide Authentic, RequireIntegrity, Decide, Journal;
    if !Authentic(env, db.jobs[op.action.id]) { CheckFails(env, db, op.action.id, op.now); }
  }

  /** With every expiry absent or ahead, no claim is blocked: a claim that fails changes
      nothing. */
  lemma StandingNeverBlocked(env: Env, db: Tables, op: Op)
    requires op.action.ClaimJob? && op.action.id in db.jobs && Authentic(env, db.jobs[op.action.id])
    requires AllStand(env, db.jobs[op.action.id].request.payload, op.now)
    ensures Succeeds(env, db, op) || After(env, db, op) == db
  {
    hide After, Succeeds, HasDurable, EventAccepted, BlockEvent, AllStand, SomeExpired;
    ClaimBlockedExactlyWhen(env, db, op);
    StandOrExpired(env, db.jobs[op.action.id].request.payload, op.now);
  }
}
