/**
 Theorems about one call on arbitrary tables, tampered ones included: what an
 exception leaves, how a row with a wrong authenticator is met, what a restart
 restores, and what receipts and repeated requests are bound to.
 */
module StoreIntegrity {
  import opened Outcomes
  import opened PyText
  import opened Canonical
  import opened CanonicalOrder
  import opened StoreTables
  import opened SanitizedData
  import opened Ledger
  import opened ScanQueue
  import opened Coordinator
  import opened StoreInvariant
  import opened StoreSteps
  import opened Bindings

  // ---------------------------------------------------------------- atomicity

  /** The claim finds the job's authorization expired and no receipt of its prepared
      attempt, and the event of the block is accepted. */
  ghost predicate BlocksExpired(env: Env, db: Tables, op: Op) {
    && op.action.ClaimJob? && op.action.id in db.jobs && Authentic(env, db.jobs[op.action.id])
    && Decide(env, db, db.jobs[op.action.id], op.now).Expire?
    && EventAccepted(env, "job_blocked", ExpiryNotice())
  }

  /** A call that raises anything but JobIntegrityInvalid leaves all tables unchanged
      exactly when it is not a claim that blocks an expired job. */
  lemma ErrorsRollBack(env: Env, db: Tables, op: Op)
    requires Step(env, db, op).1.Err? && !op.action.Restart?
    requires !Step(env, db, op).1.error.JobIntegrityInvalid?
    ensures After(env, db, op) == db <==> !BlocksExpired(env, db, op)
  {
    if op.action.ClaimJob? {
      ClaimErrors(env, db, op);
    } else {
      OtherErrors(env, db, op);
    }
  }

  lemma OtherErrors(env: Env, db: Tables, op: Op)
    requires Step(env, db, op).1.Err? && !op.action.Restart? && !op.action.ClaimJob?
    requires !Step(env, db, op).1.error.JobIntegrityInvalid?
    ensures After(env, db, op) == db
  {
    hide ClaimLocked, CreateLocked, GetJob, ListJobs, HeartbeatLocked, CompleteLocked, AppendEventLocked,
         AppendReceiptLocked,
         HeartbeatWorker, Configure, Disable, ClaimScan, CompleteScan, FailScan, Rescan;
  }

  lemma ClaimErrors(env: Env, db: Tables, op: Op)
    requires op.action.ClaimJob? && Step(env, db, op).1.Err? && !Step(env, db, op).1.error.JobIntegrityInvalid?
    ensures After(env, db, op) == db <==> !BlocksExpired(env, db, op)
  {
    hide Decide, BlockedRow, LeasedRow, ExpiryNotice, LeaseNotice, Referenced, AppendEvent;
    var id := op.action.id;
    if id in db.jobs && Authentic(env, db.jobs[id]) {
      hide Step, After, Coordinator.Succeeds, Journal, Authentic;
      ClaimEffect(env, db, op);
      SucceedsOk(env, db, op);
      BlockCounts(env, db, op);
    } else if id in db.jobs {
      hide RequireIntegrity, Authentic;
      CheckFails(env, db, id, op.now);
    }
  }

  lemma SucceedsOk(env: Env, db: Tables, op: Op)
    ensures Coordinator.Succeeds(env, db, op) <==> Step(env, db, op).1.Ok?
    ensures After(env, db, op) == Step(env, db, op).0
  {
    hide Step;
  }

  /** The block goes through exactly when its event is accepted, and the event makes
      the tables differ. */
  lemma BlockCounts(env: Env, db: Tables, op: Op)
    requires op.action.ClaimJob? && op.action.id in db.jobs
    ensures ExpiryJournal(env, db, op).Done? <==> EventAccepted(env, "job_blocked", ExpiryNotice())
    ensures ExpiryJournal(env, db, op).Done? ==> ExpiryJournal(env, db, op).db.eventSeq == db.eventSeq + 1
  {
    hide BlockedRow, ExpiryNotice;
  }

  /** On untampered tables, the claims that change the tables and yet fail are exactly
      those that block an expired job. */
  lemma FailedClaimChangesExactlyWhen(env: Env, db: Tables, op: Op)
    requires Sound(env, db) && op.action.ClaimJob?
    ensures !Coordinator.Succeeds(env, db, op) && After(env, db, op) != db <==> BlocksExpired(env, db, op)
  {
    hide Sound, Decide, After, Coordinator.Succeeds, ExpiryJournal, GrantJournal, EventAccepted;
    if op.action.id in db.jobs {
      SoundRow(env, db, op.action.id);
      ClaimEffect(env, db, op);
      BlockCounts(env, db, op);
    } else {
      UnknownClaim(env, db, op);
    }
  }

  /** A claim takes a live lease from its holder exactly when it blocks an expired job:
      expiry is looked at before the lease. */
  lemma ClaimEndsLeaseExactlyWhen(env: Env, db: Tables, op: Op, coordinator: Text, token: Text)
    requires Sound(env, db) && op.action.ClaimJob? && op.action.id in db.jobs
    requires LeaseValid(env, db.jobs[op.action.id], coordinator, token, op.now)
    ensures var (id, after) := (op.action.id, After(env, db, op));
      && id in after.jobs
      && (!LeaseValid(env, after.jobs[id], coordinator, token, op.now) <==> BlocksExpired(env, db, op))
      && (BlocksExpired(env, db, op) ==> after.jobs[id].state.Blocked?)
  {
    hide Sound, After, Coordinator.Succeeds, HasMarker, AnyExpired, AppendEvent, ExpiryNotice, LeaseNotice;
    SoundRow(env, db, op.action.id);
    ClaimEffect(env, db, op);
    BlockCounts(env, db, op);
    JournalStores(env, db, BlockedRow(db.jobs[op.action.id], op.now), "job_blocked", ExpiryNotice(), op.now);
  }

  lemma JournalStores(env: Env, db: Tables, row: Job, kind: string, payload: Json, now: Instant)
    ensures Journal(env, db, row, kind, payload, now).Done? ==>
      Journal(env, db, row, kind, payload, now).db.jobs == db.jobs[row.request.id := Sign(env, row)]
  {
  }

  // --------------------------------------------------- rows that fail to verify

  /** The row is gone with its events and receipts, and its id is on record. */
  ghost predicate Removed(db: Tables, after: Tables, id: Text) {
    && after.jobs == db.jobs - {id} && id in after.quarantined
    && after.quarantined == db.quarantined[id := after.quarantined[id]]
    && (forall s :: s in after.events <==> s in db.events && db.events[s].jobId != id)
    && (forall s :: s in after.events ==> after.events[s] == db.events[s])
    && (forall k :: k in after.receipts <==> k in db.receipts && db.receipts[k].jobId != id)
    && (forall k :: k in after.receipts ==> after.receipts[k] == db.receipts[k])
    && after.eventSeq == db.eventSeq && after.heartbeat == db.heartbeat
    && after.queue == db.queue && after.candidates == db.candidates && after.queueEvents == db.queueEvents
  }

  /** The call was refused: the row removed, or, when a candidate refers to it,
      nothing changed at all. */
  ghost predicate Refused(env: Env, db: Tables, op: Op, id: Text) {
    var (after, r) := Step(env, db, op);
    if Referenced(db, id) then after == db && r == Err(ConstraintFailed)
    else Removed(db, after, id) && r == Err(JobIntegrityInvalid)
  }

  lemma CheckFails(env: Env, db: Tables, id: Text, now: Instant)
    requires id in db.jobs && !Authentic(env, db.jobs[id])
    ensures var r := RequireIntegrity(env, db, id, now);
      r.Raised? && (if Referenced(db, id) then r.error.ConstraintFailed?
                    else r.error.JobIntegrityInvalid? && Removed(db, r.db, id))
  {
    hide QuarantineRow;
  }

  /** The calls that name one job. */
  predicate Names(op: Op, id: Text) {
    || ((op.action.ReadJob? || op.action.ClaimJob? || op.action.HeartbeatJob? || op.action.AddEvent?
         || op.action.AddReceipt?)
        && op.action.id == id)
    || (op.action.CompleteJob? && op.action.id == id && Terminal(op.action.state))
  }

  /** No call acts on a row whose authenticator does not match, in any tables. */
  lemma MismatchRefused(env: Env, db: Tables, op: Op, id: Text)
    requires Names(op, id) && id in db.jobs && !Authentic(env, db.jobs[id])
    ensures Refused(env, db, op, id)
  {
    hide Authentic, RequireIntegrity, Referenced, Removed, Decide, LeaseValid, Journal, AppendEvent;
    CheckFails(env, db, id, op.now);
  }

  /** Nor does creating a job whose key such a row holds. */
  lemma MismatchRefusedOnCreate(env: Env, db: Tables, r: Request, now: Instant, id: Text)
    requires KeysUnique(db) && id in db.jobs && !Authentic(env, db.jobs[id])
    requires db.jobs[id].request.idempotencyKey == r.idempotencyKey && Fingerprint(env, RequestDoc(r)).Some?
    ensures Refused(env, db, Op(CreateJob(r), now), id)
  {
    hide Authentic, RequireIntegrity, Referenced, Removed, Fingerprint, RequestDoc, InsertJob;
    assert FindByKey(db.jobs, r.idempotencyKey) == Some(id) by {
      var found := FindByKey(db.jobs, r.idempotencyKey);
      assert found.Some? && SameKey(db.jobs[found.value], db.jobs[id]);
    }
    CheckFails(env, db, id, now);
  }

  lemma {:induction false} ListStopsAtMismatch(env: Env, db: Tables, rows: seq<Text>, n: nat, now: Instant, i: nat)
    requires n <= |rows| && forall j :: 0 <= j < |rows| ==> rows[j] in db.jobs
    requires i < |rows| && !Authentic(env, db.jobs[rows[i]])
    requires forall j :: 0 <= j < i ==> Authentic(env, db.jobs[rows[j]])
    ensures var r := ListJobs(env, db, rows, n, now);
      if n <= i then r.Done?
      else r.Raised? && (if Referenced(db, rows[i]) then r.error.ConstraintFailed?
                         else r.error.JobIntegrityInvalid? && Removed(db, r.db, rows[i]))
  {
    hide Authentic, RequireIntegrity, Referenced, Removed;
    if n > 0 {
      ListStopsAtMismatch(env, db, rows, n - 1, now, i);
      if n == i + 1 { CheckFails(env, db, rows[i], now); }
      else if n <= i { AuthenticPasses(env, db, rows[n - 1], now); }
    }
  }

  /** list_jobs returns nothing when any row of its query fails, and removes the
      first that does. */
  lemma MismatchRefusedInList(env: Env, db: Tables, rows: seq<Text>, now: Instant, i: nat)
    requires forall j :: 0 <= j < |rows| ==> rows[j] in db.jobs
    requires i < |rows| && !Authentic(env, db.jobs[rows[i]])
    requires forall j :: 0 <= j < i ==> Authentic(env, db.jobs[rows[j]])
    ensures Refused(env, db, Op(ReadJobs(rows), now), rows[i])
  {
    hide Authentic, Referenced, Removed, ListJobs;
    ListStopsAtMismatch(env, db, rows, |rows|, now, i);
  }

  /** A changed column shows: with a collision-free authenticator, a row that
      keeps an old authenticator but differs from what was signed fails. */
  lemma ChangedColumnFails(env: Env, signed: Job, row: Job)
    requires forall a, b :: env.hmac(a) == env.hmac(b) ==> a == b
    requires Authentic(env, signed) && row.authenticator == signed.authenticator && row != signed
    ensures !Authentic(env, row)
  {
    assert row == Unsigned(row).(authenticator := row.authenticator);
    assert signed == Unsigned(signed).(authenticator := signed.authenticator);
  }

  // ----------------------------------------------------- receipts and requests

  /** A receipt dropped as a duplicate changes nothing, and the receipt it repeats
      carries the very payload that was sent. */
  lemma DuplicateReceipt(env: Env, db: Tables, op: Op)
    requires Sound(env, db) && IdealHash(env) && op.action.AddReceipt?
    requires Coordinator.Succeeds(env, db, op) && !Step(env, db, op).1.value.recorded.isNew
    ensures After(env, db, op) == db
    ensures var (q, recorded) := (op.action.receipt, Step(env, db, op).1.value.recorded);
      && op.action.id in db.jobs && recorded.id in db.receipts && recorded.receipt == db.receipts[recorded.id]
      && recorded.receipt.jobId == op.action.id && recorded.receipt.status == q.status
      && env.sanitizeReceipt(q.provider, q.payload).Some?
      && Same(recorded.receipt.payload, env.sanitizeReceipt(q.provider, q.payload).value)
  {
    hide Sound, Fingerprint, ReceiptDoc, AssertLease, LeaseValid, ReceiptNotice, IdealHash;
    var (id, q, recorded) := (op.action.id, op.action.receipt, Step(env, db, op).1.value.recorded);
    LeaseChecked(env, db, id, q.coordinatorId, q.leaseToken, op.now);
    var clean := env.sanitizeReceipt(q.provider, q.payload).value;
    StoredReceiptBound(env, db, recorded.id);
    ReceiptFingerprintBinds(env, db.jobs[id].request, q.provider, q.operation, q.status, recorded.receipt.payload,
                            clean);
  }

  /** With the store's own receipt filter, the receipt that a call returns, new or
      not, carries the payload that was sent. */
  lemma ReceiptStoredAsSent(env: Env, f: Filters, db: Tables, op: Op)
    requires Sound(env, db) && IdealHash(env) && op.action.AddReceipt? && Coordinator.Succeeds(env, db, op)
    requires forall d, v :: env.sanitizeReceipt(d, v) == SanitizedReceipt(f, d, v)
    ensures Same(Step(env, db, op).1.value.recorded.receipt.payload, op.action.receipt.payload)
  {
    hide Sound, Fingerprint, ReceiptDoc, LeaseValid, ReceiptNotice, IdealHash, SanitizedReceipt, FindReceipt,
         RequireIntegrity, Same;
    var (id, q) := (op.action.id, op.action.receipt);
    StoredAsSent(f, "", q.provider, q.payload);
    if Step(env, db, op).1.value.recorded.isNew {
      LeaseChecked(env, db, id, q.coordinatorId, q.leaseToken, op.now);
      SameReflexive(q.payload);
    } else {
      DuplicateReceipt(env, db, op);
    }
  }

  lemma StoredReceiptBound(env: Env, db: Tables, k: Text)
    requires Sound(env, db) && k in db.receipts
    ensures db.receipts[k].jobId in db.jobs && ReceiptBound(env, db.jobs[db.receipts[k].jobId], db.receipts[k])
  {
    hide ReceiptBound, RequestSound, LinkSound, EndLogged;
  }

  /** Creating a job again returns the row that is there, with the same content,
      and changes nothing; other content under the key is refused. */
  lemma RepeatedCreate(env: Env, db: Tables, r: Request, now: Instant, id: Text)
    requires Sound(env, db) && IdealHash(env) && id in db.jobs
    requires db.jobs[id].request.idempotencyKey == r.idempotencyKey && Fingerprint(env, RequestDoc(r)).Some?
    ensures var (after, reply) := Step(env, db, Op(CreateJob(r), now));
      && after == db
      && (reply == Ok(JobReply(db.jobs[id])) || reply == Err(IdempotencyConflict))
      && (reply.Ok? ==> var q := db.jobs[id].request;
            && q.missionId == r.missionId && q.nodeId == r.nodeId && q.executionHost == r.executionHost
            && q.envelope == r.envelope && Same(q.payload, r.payload))
  {
    hide Sound, Fingerprint, RequestDoc, IdealHash, InsertJob, RequireIntegrity;
    SoundKeys(env, db, id);
    var found := FindByKey(db.jobs, r.idempotencyKey);
    assert found.Some? && SameKey(db.jobs[found.value], db.jobs[id]);
    NoQuarantine(env, db, id, now);
    if Step(env, db, Op(CreateJob(r), now)).1.Ok? {
      RequestFingerprintBinds(env, db.jobs[id].request, r);
    }
  }

  lemma SoundKeys(env: Env, db: Tables, id: Text)
    requires Sound(env, db) && id in db.jobs
    ensures KeysUnique(db) && Fingerprint(env, RequestDoc(db.jobs[id].request)) == Some(db.jobs[id].requestFingerprint)
  {
    hide Fingerprint, RequestDoc, ReceiptBound, LinkSound, EndLogged;
  }

  // --------------------------------------------------------------- completions

  lemma {:induction false} FindAfterWithout(es: seq<Keyed<Json>>, k: Text, v: Json)
    ensures Find(Without(es, k) + [Keyed(k, v)], k) == Some(v)
    ensures Without(Without(es, k) + [Keyed(k, v)], k) == Without(es, k)
  {
    var s := Without(es, k) + [Keyed(k, v)];
    if es == [] {
      assert s == [Keyed(k, v)] && s[1..] == [];
    } else {
      FindAfterWithout(es[1..], k, v);
      var tail := Without(es[1..], k) + [Keyed(k, v)];
      if es[0].key == k {
        assert s == tail;
      } else {
        assert s == [es[0]] + tail && s[1..] == tail;
      }
    }
  }

  /** A completed job's stored output verifies on its own: it carries the
      fingerprint of the job's identity and of the rest of itself. */
  lemma CompletionVerifies(env: Env, db: Tables, op: Op)
    requires Sound(env, db) && op.action.CompleteJob? && Coordinator.Succeeds(env, db, op)
    ensures var (id, after) := (op.action.id, After(env, db, op));
      && id in after.jobs && after.jobs[id].state == op.action.state
      && (after.jobs[id].output.Obj? ==>
            var (out, r) := (after.jobs[id].output, after.jobs[id].request);
            Fingerprint(env, CompletionDoc(r, ResultBody(out))).Some?
            && Get(out, "resultFingerprint") == Str(Fingerprint(env, CompletionDoc(r, ResultBody(out))).value))
  {
    hide Sound, Fingerprint, CompletionDoc, AssertLease, LeaseValid, Terminal;
    var (id, a, now) := (op.action.id, op.action, op.now);
    LeaseChecked(env, db, id, a.coordinator, a.token, now);
    var row := db.jobs[id];
    var clean := env.sanitizeOutput(row.request.executionHost, a.output).value;
    var body := ResultBody(clean);
    var fp := Fingerprint(env, CompletionDoc(row.request, body)).value;
    StoredOutput(env, db, op, WithFingerprint(body, fp));
    if clean.Obj? { FindAfterWithout(clean.entries, A("resultFingerprint"), Str(fp)); }
  }

  lemma StoredOutput(env: Env, db: Tables, op: Op, output: Json)
    requires Sound(env, db) && op.action.CompleteJob? && op.action.id in db.jobs
    requires var done := CompletedRow(db.jobs[op.action.id], op.action.state, output, op.now);
             exists fp :: Journal(env, db, done, TerminalKind(op.action.state), ResultNotice(fp), op.now).Done?
               && After(env, db, op)
                    == Journal(env, db, done, TerminalKind(op.action.state), ResultNotice(fp), op.now).db
    ensures op.action.id in After(env, db, op).jobs
    ensures After(env, db, op).jobs[op.action.id]
      == Sign(env, CompletedRow(db.jobs[op.action.id], op.action.state, output, op.now))
  {
    hide Sound, After, ResultNotice;
    SoundRow(env, db, op.action.id);
  }
}
