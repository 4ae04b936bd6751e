/**
 What a successful call of the job ledger leaves, column by column and field by
 field, and what it answers.
 */
module LedgerEffects {
  import opened Outcomes
  import opened PyText
  import opened Canonical
  import opened StoreTables
  import opened SanitizedData
  import opened Ledger
  import opened Coordinator
  import opened StoreInvariant
  import opened StoreSteps
  import opened ClaimRules
  import opened LedgerDocs

  /** The row, signed, and one more event of that job, at that time; all else as before. */
  ghost predicate Entered(env: Env, db: Tables, after: Tables, id: Text, kind: string, payload: Json, now: Instant) {
    && id in after.jobs && after.jobs[id].authenticator == env.hmac(after.jobs[id].(authenticator := []))
    && env.sanitizeEvent(kind, payload).Some?
    && after == db.(jobs := db.jobs[id := after.jobs[id]], eventSeq := db.eventSeq + 1,
                    events := db.events[db.eventSeq + 1 :=
                      Event(id, kind, env.sanitizeEvent(kind, payload).value, now)])
  }

  lemma JournalEnters(env: Env, db: Tables, row: Job, kind: string, payload: Json, now: Instant)
    requires Journal(env, db, row, kind, payload, now).Done?
    ensures var after := Journal(env, db, row, kind, payload, now).db;
      && Entered(env, db, after, row.request.id, kind, payload, now)
      && after.jobs[row.request.id] == row.(authenticator := after.jobs[row.request.id].authenticator)
  {
    assert Sign(env, row).(authenticator := []) == Unsigned(row);
  }

  /** The row is leased to the caller. */
  ghost predicate LeasedBy(env: Env, db: Tables, op: Op, after: Tables)
    requires op.action.ClaimJob?
  {
    var (a, expires) := (op.action, op.now + op.action.leaseSeconds * 1_000_000);
    && a.id in db.jobs
    && Entered(env, db, after, a.id, "lease_acquired", LeaseEvent(env, a.coordinator, expires), op.now)
    && after.jobs[a.id] == db.jobs[a.id].(
         state := Running, owner := Some(a.coordinator), tokenHash := Some(env.sha256(a.token)),
         expiresAt := Some(expires), attempts := db.jobs[a.id].attempts + 1, updatedAt := op.now,
         authenticator := after.jobs[a.id].authenticator)
  }

  /** A claim leases the row to its caller, who is given the row and the token. */
  lemma ClaimLeaves(env: Env, db: Tables, op: Op)
    requires Sound(env, db) && op.action.ClaimJob? && Succeeds(env, db, op)
    ensures LeasedBy(env, db, op, After(env, db, op))
    ensures ClaimAnswered(op, After(env, db, op), Step(env, db, op).1)
  {
    hide Sound, Decide, After, Succeeds, Journal, LeaseNotice, LeaseEvent, Entered, ExpiryJournal, Step;
    var a := op.action;
    ClaimKnown(env, db, op);
    SoundRow(env, db, a.id);
    ClaimEffect(env, db, op);
    LeaseEventIs(env, a.coordinator, op.now + a.leaseSeconds * SECOND);
    var leased := LeasedRow(env, db.jobs[a.id], a.coordinator, a.token, a.leaseSeconds, op.now);
    JournalEnters(env, db, leased, "lease_acquired", LeaseNotice(env, a.coordinator, op.now + a.leaseSeconds * SECOND),
                  op.now);
    ClaimReply(env, db, op);
  }

  predicate ClaimAnswered(op: Op, after: Tables, reply: Result<Reply>)
    requires op.action.ClaimJob?
  {
    op.action.id in after.jobs && reply == Ok(LeaseReply(after.jobs[op.action.id], op.action.token))
  }

  lemma ClaimReply(env: Env, db: Tables, op: Op)
    requires Sound(env, db) && op.action.ClaimJob? && Succeeds(env, db, op) && op.action.id in db.jobs
    ensures ClaimAnswered(op, After(env, db, op), Step(env, db, op).1)
  {
    hide Sound, Decide, LeaseNotice, ExpiryNotice, RequireIntegrity, Journal, Sign;
    var a := op.action;
    NoQuarantine(env, db, a.id, op.now);
    SoundRow(env, db, a.id);
    var leased := LeasedRow(env, db.jobs[a.id], a.coordinator, a.token, a.leaseSeconds, op.now);
    var notice := LeaseNotice(env, a.coordinator, op.now + a.leaseSeconds * SECOND);
    if Journal(env, db, leased, "lease_acquired", notice, op.now).Done? {
      JournalSigns(env, db, leased, "lease_acquired", notice, op.now);
    }
  }

  lemma ClaimKnown(env: Env, db: Tables, op: Op)
    requires op.action.ClaimJob? && Succeeds(env, db, op)
    ensures op.action.id in db.jobs
  {
    hide Succeeds;
    if op.action.id !in db.jobs { UnknownClaim(env, db, op); }
  }

  /** The row is blocked. */
  ghost predicate BlockedBy(env: Env, db: Tables, op: Op, after: Tables)
    requires op.action.ClaimJob?
  {
    var id := op.action.id;
    && id in db.jobs && Entered(env, db, after, id, "job_blocked", BlockEvent(), op.now)
    && after.jobs[id] == db.jobs[id].(
         state := Blocked, owner := None, tokenHash := None, expiresAt := None, updatedAt := op.now,
         authenticator := after.jobs[id].authenticator)
  }

  /** A claim that fails and yet changes the tables blocks the row, and is told of a
      conflict. */
  lemma BlockLeaves(env: Env, db: Tables, op: Op)
    requires Sound(env, db) && op.action.ClaimJob? && !Succeeds(env, db, op) && After(env, db, op) != db
    ensures BlockedBy(env, db, op, After(env, db, op)) && Step(env, db, op).1 == Err(JobLeaseConflict)
  {
    hide Sound, Decide, After, Succeeds, Journal, ExpiryNotice, BlockEvent, Entered, GrantJournal, Step;
    var a := op.action;
    if a.id !in db.jobs { UnknownClaim(env, db, op); }
    SoundRow(env, db, a.id);
    ClaimEffect(env, db, op);
    BlockEventIs();
    JournalEnters(env, db, BlockedRow(db.jobs[a.id], op.now), "job_blocked", ExpiryNotice(), op.now);
    BlockReply(env, db, op);
  }

  lemma BlockReply(env: Env, db: Tables, op: Op)
    requires Sound(env, db) && op.action.ClaimJob? && op.action.id in db.jobs
    requires Decide(env, db, db.jobs[op.action.id], op.now).Expire? && ExpiryJournal(env, db, op).Done?
    ensures Step(env, db, op).1 == Err(JobLeaseConflict)
  {
    hide Sound, Decide, LeaseNotice, ExpiryNotice, RequireIntegrity, Journal;
    NoQuarantine(env, db, op.action.id, op.now);
  }

  /** The event of a renewal, field by field. */
  function RenewalEvent(env: Env, expires: Instant): Json {
    Obj([Keyed(A("leaseExpiresAt"), Str(env.iso(expires)))])
  }

  lemma RenewalEventIs(env: Env, expires: Instant)
    ensures RenewalNotice(env, expires) == RenewalEvent(env, expires)
  {
  }

  /** The row's lease is renewed. */
  ghost predicate RenewedBy(env: Env, db: Tables, op: Op, after: Tables)
    requires op.action.HeartbeatJob?
  {
    var (id, expires) := (op.action.id, op.now + op.action.leaseSeconds * 1_000_000);
    && id in db.jobs && LeaseValid(env, db.jobs[id], op.action.coordinator, op.action.token, op.now)
    && Entered(env, db, after, id, "lease_renewed", RenewalEvent(env, expires), op.now)
    && after.jobs[id] == db.jobs[id].(expiresAt := Some(expires), updatedAt := op.now,
                                      authenticator := after.jobs[id].authenticator)
  }

  predicate RowAnswered(id: Text, after: Tables, reply: Result<Reply>) {
    id in after.jobs && reply == Ok(JobReply(after.jobs[id]))
  }

  /** A heartbeat renews the row of its holder. */
  lemma HeartbeatLeaves(env: Env, db: Tables, op: Op)
    requires Sound(env, db) && op.action.HeartbeatJob? && Succeeds(env, db, op)
    ensures RenewedBy(env, db, op, After(env, db, op))
    ensures RowAnswered(op.action.id, After(env, db, op), Step(env, db, op).1)
  {
    hide Sound, AssertLease, LeaseValid, Journal, RenewalNotice, RenewalEvent, Entered;
    var (a, expires) := (op.action, op.now + op.action.leaseSeconds * SECOND);
    LeaseChecked(env, db, a.id, a.coordinator, a.token, op.now);
    SoundRow(env, db, a.id);
    RenewalEventIs(env, expires);
    var renewed := db.jobs[a.id].(expiresAt := Some(expires), updatedAt := op.now);
    JournalEnters(env, db, renewed, "lease_renewed", RenewalNotice(env, expires), op.now);
    JournalSigns(env, db, renewed, "lease_renewed", RenewalNotice(env, expires), op.now);
  }

  lemma JournalSigns(env: Env, db: Tables, row: Job, kind: string, payload: Json, now: Instant)
    requires Journal(env, db, row, kind, payload, now).Done?
    ensures row.request.id in Journal(env, db, row, kind, payload, now).db.jobs
    ensures Journal(env, db, row, kind, payload, now).db.jobs[row.request.id] == Sign(env, row)
  {
  }

  // ------------------------------------------------------------------- creation

  /** The text is the fingerprint of such a request. */
  ghost predicate PrintsRequest(env: Env, r: Request, fp: Text) {
    exists v: Json :: HoldsRequest(r, v) && Safe(v) && fp == A("sha256:") + env.sha256(Serialize(v))
  }

  /** One queued row for the request, with its event; all else as before. */
  ghost predicate CreatedBy(env: Env, db: Tables, r: Request, now: Instant, after: Tables) {
    && r.id !in db.jobs
    && Entered(env, db, after, r.id, "job_queued", Obj([Keyed(A("executionHost"), Str(HostText(r.executionHost)))]),
               now)
    && after.jobs[r.id] == Job(r, after.jobs[r.id].requestFingerprint, Queued, Obj([]), None, None, None, 0, now, now,
                               after.jobs[r.id].authenticator)
    && PrintsRequest(env, r, after.jobs[r.id].requestFingerprint)
  }

  /** Creating a job under a new key stores it queued and answers with its row. */
  lemma CreateLeaves(env: Env, db: Tables, r: Request, now: Instant)
    requires Succeeds(env, db, Op(CreateJob(r), now))
    requires forall id :: id in db.jobs ==> db.jobs[id].request.idempotencyKey != r.idempotencyKey
    ensures CreatedBy(env, db, r, now, After(env, db, Op(CreateJob(r), now)))
    ensures RowAnswered(r.id, After(env, db, Op(CreateJob(r), now)), Step(env, db, Op(CreateJob(r), now)).1)
  {
    hide RequestDoc, InsertJob, Digest, QuarantineJob, Entered;
    CreateInsertsRow(env, db, r, now);
    RequestPrinted(env, r);
    InsertLeaves(env, db, r, Digest(env, RequestDoc(r)), now);
  }

  lemma CreateInsertsRow(env: Env, db: Tables, r: Request, now: Instant)
    requires Succeeds(env, db, Op(CreateJob(r), now))
    requires forall id :: id in db.jobs ==> db.jobs[id].request.idempotencyKey != r.idempotencyKey
    ensures Safe(RequestDoc(r))
    ensures var made := InsertJob(env, db, r, Digest(env, RequestDoc(r)), now);
      made.Done? && Step(env, db, Op(CreateJob(r), now)) == (made.db, Ok(JobReply(made.value.row)))
  {
    hide RequestDoc, InsertJob, Digest, QuarantineJob, Serialize;
    assert FindByKey(db.jobs, r.idempotencyKey).None?;
  }

  lemma RequestPrinted(env: Env, r: Request)
    requires Safe(RequestDoc(r))
    ensures PrintsRequest(env, r, Digest(env, RequestDoc(r)))
  {
    RequestDocHolds(r);
    hide RequestDoc, Serialize, HoldsRequest, Safe;
  }

  lemma InsertLeaves(env: Env, db: Tables, r: Request, fp: Text, now: Instant)
    requires InsertJob(env, db, r, fp, now).Done?
    ensures var (after, made) := (InsertJob(env, db, r, fp, now).db, InsertJob(env, db, r, fp, now).value);
      && r.id !in db.jobs && r.id in after.jobs && made.row == after.jobs[r.id]
      && Entered(env, db, after, r.id, "job_queued", Obj([Keyed(A("executionHost"), Str(HostText(r.executionHost)))]),
                 now)
      && after.jobs[r.id] == Job(r, fp, Queued, Obj([]), None, None, None, 0, now, now, after.jobs[r.id].authenticator)
  {
    HostTextIs(r.executionHost);
    QueuedEventIs(r);
    hide QueuedNotice, HostText, DomainName;
    var row := NewRow(r, fp, now);
    assert Sign(env, row).(authenticator := []) == Unsigned(row);
    var after := InsertJob(env, db, r, fp, now).db;
    assert after.jobs == db.jobs[r.id := Sign(env, row)];
  }

  lemma QueuedEventIs(r: Request)
    ensures QueuedNotice(r) == Obj([Keyed(A("executionHost"), Str(A(DomainName(r.executionHost))))])
  {
    hide DomainName;
  }

  // ----------------------------------------------------------------- completions

  function EndKind(state: JobState): string {
    if state.Complete? then "job_complete" else if state.Blocked? then "job_blocked"
    else if state.Cancelled? then "job_cancelled" else "job_failed"
  }

  lemma EndKindIs(state: JobState)
    requires Terminal(state)
    ensures TerminalKind(state) == EndKind(state)
  {
  }

  ghost predicate PrintsCompletion(env: Env, r: Request, body: Json, fp: Text) {
    exists v: Json :: HoldsCompletion(r, body, v) && Safe(v) && fp == A("sha256:") + env.sha256(Serialize(v))
  }

  /** The stored output has the very fields of the sanitized one, and its fingerprint is
      that of the job's identity with the other fields. */
  ghost predicate OutputStored(env: Env, r: Request, clean: Json, stored: Json, fp: Text) {
    && clean.Obj? && stored.Obj?
    && (forall k :: Find(stored.entries, k) == Find(clean.entries, k))
    && Find(stored.entries, A("resultFingerprint")) == Some(Str(fp))
    && exists es :: PrintsCompletion(env, r, Obj(es), fp) && Rest(clean.entries, es)
  }

  /** The same fields but for resultFingerprint. */
  ghost predicate Rest(clean: seq<Keyed<Json>>, es: seq<Keyed<Json>>) {
    forall k :: Find(es, k) == if k == A("resultFingerprint") then None else Find(clean, k)
  }

  /** The row is finished with this output. */
  ghost predicate CompletedBy(env: Env, db: Tables, op: Op, after: Tables, fp: Text)
    requires op.action.CompleteJob?
  {
    var a := op.action;
    && a.id in db.jobs && LeaseValid(env, db.jobs[a.id], a.coordinator, a.token, op.now)
    && Terminal(a.state)
    && Entered(env, db, after, a.id, EndKind(a.state), Obj([Keyed(A("resultFingerprint"), Str(fp))]), op.now)
    && after.jobs[a.id] == db.jobs[a.id].(
         state := a.state, output := after.jobs[a.id].output, tokenHash := None, expiresAt := None,
         updatedAt := op.now, authenticator := after.jobs[a.id].authenticator)
    && var clean := env.sanitizeOutput(db.jobs[a.id].request.executionHost, a.output);
    clean.Some? && OutputStored(env, db.jobs[a.id].request, clean.value, after.jobs[a.id].output, fp)
  }

  /** A completion stores the sanitized output and answers with the finished row. */
  lemma CompleteLeaves(env: Env, db: Tables, op: Op) returns (fp: Text)
    requires Sound(env, db) && op.action.CompleteJob? && Succeeds(env, db, op)
    ensures CompletedBy(env, db, op, After(env, db, op), fp)
    ensures RowAnswered(op.action.id, After(env, db, op), Step(env, db, op).1)
  {
    hide Sound, AssertLease, LeaseValid, Journal, CompletionDoc, Digest, ResultNotice, TerminalKind, EndKind, Entered,
         OutputStored, Find, Without, A, Terminal;
    var a := op.action;
    LeaseChecked(env, db, a.id, a.coordinator, a.token, op.now);
    SoundRow(env, db, a.id);
    var row := db.jobs[a.id];
    var clean := env.sanitizeOutput(row.request.executionHost, a.output).value;
    var body := ResultBody(clean);
    fp := Digest(env, CompletionDoc(row.request, body));
    var done := CompletedRow(row, a.state, WithFingerprint(body, fp), op.now);
    EndKindIs(a.state);
    ResultEventIs(fp);
    JournalEnters(env, db, done, TerminalKind(a.state), ResultNotice(fp), op.now);
    JournalSigns(env, db, done, TerminalKind(a.state), ResultNotice(fp), op.now);
    OutputIsStored(env, row.request, clean, fp);
  }

  lemma ResultEventIs(fp: Text)
    ensures ResultNotice(fp) == Obj([Keyed(A("resultFingerprint"), Str(fp))])
  {
  }

  lemma OutputIsStored(env: Env, r: Request, clean: Json, fp: Text)
    requires Get(clean, "resultFingerprint") == Str(fp)
    requires Safe(CompletionDoc(r, ResultBody(clean))) && fp == Digest(env, CompletionDoc(r, ResultBody(clean)))
    ensures OutputStored(env, r, clean, WithFingerprint(ResultBody(clean), fp), fp)
  {
    hide CompletionDoc, Digest, Safe, Find, Without, A;
    var key := A("resultFingerprint");
    CompletionPrinted(env, r, ResultBody(clean));
    var es := Without(clean.entries, key);
    forall k ensures Find(es, k) == if k == key then None else Find(clean.entries, k) {
      FindWithout(clean.entries, key, k);
    }
    assert Rest(clean.entries, es);
    forall k ensures Find(es + [Keyed(key, Str(fp))], k) == Find(clean.entries, k) {
      FindAppended(es, key, Str(fp), k);
    }
  }

  lemma CompletionPrinted(env: Env, r: Request, body: Json)
    requires Safe(CompletionDoc(r, body))
    ensures PrintsCompletion(env, r, body, Digest(env, CompletionDoc(r, body)))
  {
    CompletionDocHolds(r, body);
    hide CompletionDoc, Serialize, HoldsCompletion, Safe;
  }

  lemma {:induction false} FindWithout(es: seq<Keyed<Json>>, key: Text, k: Text)
    ensures Find(Without(es, key), k) == if k == key then None else Find(es, k)
  {
    if es != [] {
      FindWithout(es[1..], key, k);
      var rest := Without(es[1..], key);
      if es[0].key != key { assert ([es[0]] + rest)[1..] == rest; }
      else { assert [] + rest == rest; }
    }
  }

  lemma {:induction false} FindAppended(es: seq<Keyed<Json>>, key: Text, v: Json, k: Text)
    requires Find(es, key).None?
    ensures Find(es + [Keyed(key, v)], k) == if k == key then Some(v) else Find(es, k)
  {
    var s := es + [Keyed(key, v)];
    if es == [] {
      assert s == [Keyed(key, v)] && s[1..] == [];
    } else {
      FindAppended(es[1..], key, v, k);
      assert s[1..] == es[1..] + [Keyed(key, v)];
    }
  }

  /** With the store's own filter, an accepted completion stores the values that were
      sent under the six exact names, and nothing else. */
  lemma {:induction false} CompletionStoredAsSent(env: Env, f: Filters, db: Tables, op: Op, k: Text)
    requires Sound(env, db) && op.action.CompleteJob? && Succeeds(env, db, op)
    requires forall d, v :: env.sanitizeOutput(d, v) == SanitizedOutput(f, d, v)
    ensures op.action.id in After(env, db, op).jobs && op.action.output.Obj?
    ensures var stored := After(env, db, op).jobs[op.action.id].output;
      stored.Obj? && Find(stored.entries, k) ==
        if k in [A("status"), A("outputs"), A("evidence"), A("receiptIds"), A("blocker"), A("resultFingerprint")]
        then Find(op.action.output.entries, k) else None
  {
    hide Sound, After, Succeeds, Find, SanitizedOutput;
    var fp := CompleteLeaves(env, db, op);
    OutputKeepsExactNames(f, db.jobs[op.action.id].request.executionHost, op.action.output, k);
    SixNames(k);
  }

  lemma SixNames(k: Text)
    ensures Named(k, TOP) <==>
      k in [A("status"), A("outputs"), A("evidence"), A("receiptIds"), A("blocker"), A("resultFingerprint")]
  {
    hide A;
    var six := [A("status"), A("outputs"), A("evidence"), A("receiptIds"), A("blocker"), A("resultFingerprint")];
    assert |TOP| == 6 && six[0] == A(TOP[0]) && six[1] == A(TOP[1]) && six[2] == A(TOP[2]);
    assert six[3] == A(TOP[3]) && six[4] == A(TOP[4]) && six[5] == A(TOP[5]);
    if Named(k, TOP) {
      var i :| 0 <= i < |TOP| && k == A(TOP[i]);
      assert k == six[i];
    }
    if k in six {
      var i :| 0 <= i < |six| && six[i] == k;
      assert k == A(TOP[i]);
    }
  }

  // --------------------------------------------------------- events and receipts

  /** One more event of the job, at that time; all else as before. */
  ghost predicate Appended(env: Env, db: Tables, after: Tables, id: Text, kind: string, payload: Json, now: Instant) {
    && id in db.jobs && env.sanitizeEvent(kind, payload).Some?
    && after == db.(eventSeq := db.eventSeq + 1, events := db.events[db.eventSeq + 1 :=
                      Event(id, kind, env.sanitizeEvent(kind, payload).value, now)])
  }

  /** An accepted event of the holder is stored once, at that time, and its number is
      the answer. */
  lemma EventLeaves(env: Env, db: Tables, op: Op)
    requires Sound(env, db) && op.action.AddEvent? && Succeeds(env, db, op)
    ensures op.action.id in db.jobs
    ensures LeaseValid(env, db.jobs[op.action.id], op.action.coordinator, op.action.token, op.now)
    ensures Appended(env, db, After(env, db, op), op.action.id, op.action.kind, op.action.payload, op.now)
    ensures Step(env, db, op).1 == Ok(EventReply(db.eventSeq + 1))
  {
    hide Sound, AssertLease, LeaseValid;
    LeaseChecked(env, db, op.action.id, op.action.coordinator, op.action.token, op.now);
  }

  /** The event of a receipt, field by field. */
  function ReceiptEvent(receiptId: Text, q: ReceiptRequest): Json {
    Obj([Keyed(A("receiptId"), Str(receiptId)), Keyed(A("provider"), Str(HostText(q.provider))),
         Keyed(A("operation"), Str(q.operation)), Keyed(A("status"), Str(StatusText(q.status))),
         Keyed(A("fingerprint"), Str(q.fingerprint))])
  }

  lemma ReceiptEventIs(receiptId: Text, q: ReceiptRequest)
    ensures ReceiptNotice(receiptId, q) == ReceiptEvent(receiptId, q)
  {
    HostTextIs(q.provider);
    StatusTextIs(q.status);
    hide DomainName, StatusName, HostText, StatusText, A;
  }

  ghost predicate PrintsReceipt(env: Env, r: Request, q: ReceiptRequest, clean: Json) {
    exists v: Json ::
      HoldsReceipt(r, q.provider, q.operation, q.status, clean, v) && Safe(v)
      && q.fingerprint == A("sha256:") + env.sha256(Serialize(v))
  }

  /** The receipt repeats the request: same job, provider, operation, status and
      fingerprint. */
  predicate Repeats(r: Receipt, id: Text, q: ReceiptRequest) {
    && r.jobId == id && r.provider == q.provider && r.operation == q.operation
    && r.status == q.status && r.fingerprint == q.fingerprint
  }

  /** The receipt is stored with its event, unless one like it is there. */
  ghost predicate RecordedBy(env: Env, db: Tables, op: Op, after: Tables, reply: Result<Reply>)
    requires op.action.AddReceipt?
  {
    var (id, q, rid) := (op.action.id, op.action.receipt, op.action.receiptId);
    var clean := env.sanitizeReceipt(q.provider, q.payload);
    && id in db.jobs && LeaseValid(env, db.jobs[id], q.coordinatorId, q.leaseToken, op.now)
    && q.provider == db.jobs[id].request.executionHost && clean.Some?
    && PrintsReceipt(env, db.jobs[id].request, q, clean.value)
    && reply.Ok? && reply.value.ReceiptReply?
    && var recorded := reply.value.recorded;
    if exists k :: k in db.receipts && Repeats(db.receipts[k], id, q)
    then after == db && !recorded.isNew && recorded.id in db.receipts && recorded.receipt == db.receipts[recorded.id]
      && Repeats(recorded.receipt, id, q)
    else
      var receipt := Receipt(id, q.provider, q.operation, q.status, q.fingerprint, clean.value, op.now);
      && recorded == Recorded(rid, receipt, true) && rid !in db.receipts
      && Appended(env, db.(receipts := db.receipts[rid := receipt]), after, id, "external_receipt_recorded",
                  ReceiptEvent(rid, q), op.now)
  }

  lemma ReceiptLeaves(env: Env, db: Tables, op: Op)
    requires Sound(env, db) && op.action.AddReceipt? && Succeeds(env, db, op)
    ensures RecordedBy(env, db, op, After(env, db, op), Step(env, db, op).1)
  {
    hide Sound, AssertLease, LeaseValid, ReceiptDoc, Digest, ReceiptNotice, ReceiptEvent, PrintsReceipt;
    var (id, q) := (op.action.id, op.action.receipt);
    LeaseChecked(env, db, id, q.coordinatorId, q.leaseToken, op.now);
    ReceiptEventIs(op.action.receiptId, q);
    var clean := env.sanitizeReceipt(q.provider, q.payload).value;
    ReceiptPrinted(env, db.jobs[id].request, q, clean);
    SameKeyRepeats(db, Receipt(id, q.provider, q.operation, q.status, q.fingerprint, clean, op.now), id, q);
  }

  lemma ReceiptPrinted(env: Env, r: Request, q: ReceiptRequest, clean: Json)
    requires Fingerprint(env, ReceiptDoc(r, q.provider, q.operation, q.status, clean)) == Some(q.fingerprint)
    ensures PrintsReceipt(env, r, q, clean)
  {
    ReceiptDocHolds(r, q.provider, q.operation, q.status, clean);
    hide ReceiptDoc, Serialize, HoldsReceipt, Safe;
  }

  lemma SameKeyRepeats(db: Tables, like: Receipt, id: Text, q: ReceiptRequest)
    requires like.jobId == id && like.provider == q.provider && like.operation == q.operation
    requires like.status == q.status && like.fingerprint == q.fingerprint
    ensures forall k :: k in db.receipts ==> (SameReceiptKey(db.receipts[k], like) <==> Repeats(db.receipts[k], id, q))
  {
  }

  // ------------------------------------------------------------------ quarantine

  /** The record of a quarantined row: its own fingerprint where that looks like one,
      and otherwise the digest of a document that holds it. */
  lemma QuarantineLeaves(env: Env, db: Tables, id: Text, reason: string, now: Instant)
    requires id in db.jobs
    ensures var (d, fp) := (QuarantineJob(env, db, id, reason, now).db, db.jobs[id].requestFingerprint);
      && id in d.quarantined && d.quarantined == db.quarantined[id := d.quarantined[id]]
      && d.quarantined[id].reason == reason && d.quarantined[id].at == now
      && (if |fp| == 71 && fp[..7] == A("sha256:") then d.quarantined[id].requestFingerprint == fp
          else d.quarantined[id].requestFingerprint == A("sha256:") + env.sha256(Serialize(
            Obj([Keyed(A("version"), Int(1)), Keyed(A("storedRequestFingerprint"), Str(fp))]))))
  {
    hide Serialize, Referenced, DeleteJob;
    var fp := db.jobs[id].requestFingerprint;
    assert Doc(["version", "storedRequestFingerprint"], [Int(1), Str(fp)])
      == Obj([Keyed(A("version"), Int(1)), Keyed(A("storedRequestFingerprint"), Str(fp))]);
    assert |A("sha256:")| == 7;
    DeleteKeepsRecord(db.(quarantined := db.quarantined[id := QuarantineRow(env, db.jobs[id], reason, now)]), id);
  }

  lemma DeleteKeepsRecord(db: Tables, id: Text)
    ensures DeleteJob(db, id).quarantined == db.quarantined
  {
  }
}
