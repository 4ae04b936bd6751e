/**
 What each call can do to one job, in any tables that satisfy the invariant:
 the invariant is kept, no row is quarantined, and the job either stays as it is
 or undergoes one of six changes.
 */
module StoreSteps {
  import opened Outcomes
  import opened PyText
  import opened Canonical
  import opened StoreTables
  import opened Ledger
  import opened Coordinator
  import opened StoreInvariant

  ghost predicate Granted(env: Env, db: Tables, op: Op, after: Tables, id: Text)
    requires id in db.jobs && id in after.jobs
  {
    && op.action.ClaimJob? && op.action.id == id
    && Decide(env, db, db.jobs[id], op.now).Grant?
    && var a := op.action;
    && after.jobs[id] == Sign(env, LeasedRow(env, db.jobs[id], a.coordinator, a.token, a.leaseSeconds, op.now))
    && OneEvent(db, after, id, "lease_acquired") && SameReceipts(db, after, id)
  }

  ghost predicate GrantExpired(env: Env, db: Tables, op: Op, after: Tables, id: Text)
    requires id in db.jobs && id in after.jobs
  {
    && op.action.ClaimJob? && op.action.id == id
    && Decide(env, db, db.jobs[id], op.now).Expire?
    && after.jobs[id] == Sign(env, BlockedRow(db.jobs[id], op.now))
    && OneEvent(db, after, id, "job_blocked") && SameReceipts(db, after, id)
  }

  ghost predicate Renewed(env: Env, db: Tables, op: Op, after: Tables, id: Text)
    requires id in db.jobs && id in after.jobs
  {
    && op.action.HeartbeatJob? && op.action.id == id
    && LeaseValid(env, db.jobs[id], op.action.coordinator, op.action.token, op.now)
    && var expires := Some(op.now + op.action.leaseSeconds * SECOND);
    && after.jobs[id] == Sign(env, db.jobs[id].(expiresAt := expires, updatedAt := op.now))
    && OneEvent(db, after, id, "lease_renewed") && SameReceipts(db, after, id)
  }

  ghost predicate Ended(env: Env, db: Tables, op: Op, after: Tables, id: Text)
    requires id in db.jobs && id in after.jobs
  {
    && op.action.CompleteJob? && op.action.id == id && Terminal(op.action.state)
    && LeaseValid(env, db.jobs[id], op.action.coordinator, op.action.token, op.now)
    && after.jobs[id] == Sign(env, CompletedRow(db.jobs[id], op.action.state, after.jobs[id].output, op.now))
    && OneEvent(db, after, id, TerminalKind(op.action.state)) && SameReceipts(db, after, id)
  }

  ghost predicate Noted(env: Env, db: Tables, op: Op, after: Tables, id: Text)
    requires id in db.jobs && id in after.jobs
  {
    && op.action.AddEvent? && op.action.id == id
    && LeaseValid(env, db.jobs[id], op.action.coordinator, op.action.token, op.now)
    && after.jobs[id] == db.jobs[id]
    && OneEvent(db, after, id, op.action.kind) && SameReceipts(db, after, id)
  }

  ghost predicate Receipted(env: Env, db: Tables, op: Op, after: Tables, id: Text)
    requires id in db.jobs && id in after.jobs
  {
    && op.action.AddReceipt? && op.action.id == id
    && LeaseValid(env, db.jobs[id], op.action.receipt.coordinatorId, op.action.receipt.leaseToken, op.now)
    && after.jobs[id] == db.jobs[id]
    && OneEvent(db, after, id, "external_receipt_recorded")
    && op.action.receiptId !in db.receipts && op.action.receiptId in after.receipts
    && after.receipts == db.receipts[op.action.receiptId := after.receipts[op.action.receiptId]]
    && ReceiptBound(env, db.jobs[id], after.receipts[op.action.receiptId])
    && after.receipts[op.action.receiptId].jobId == id
  }

  ghost predicate JobStep(env: Env, db: Tables, op: Op, after: Tables, id: Text)
    requires id in db.jobs
  {
    id in after.jobs &&
    (  Kept(db, after, id) || Granted(env, db, op, after, id) || GrantExpired(env, db, op, after, id)
    || Renewed(env, db, op, after, id) || Ended(env, db, op, after, id)
    || Noted(env, db, op, after, id) || Receipted(env, db, op, after, id))
  }

  ghost predicate JobSteps(env: Env, db: Tables, op: Op, after: Tables) {
    NewQueued(db, after, op.now) && forall id :: id in db.jobs ==> JobStep(env, db, op, after, id)
  }

  lemma SameTablesStep(env: Env, db: Tables, op: Op)
    ensures JobSteps(env, db, op, db)
  {
    forall id | id in db.jobs ensures JobStep(env, db, op, db, id) { assert Kept(db, db, id); }
  }

  // -------------------------------------------------------- one call at a time

  /** With the invariant, no verification fails. */
  lemma NoQuarantine(env: Env, db: Tables, id: Text, now: Instant)
    requires Sound(env, db) && id in db.jobs
    ensures RequireIntegrity(env, db, id, now) == Done(db, db.jobs[id])
    ensures GetJob(env, db, id, now) == Done(db, db.jobs[id])
  {
  }

  lemma OneJobStep(env: Env, db: Tables, op: Op, after: Tables, id: Text)
    requires OthersKept(db, after, id) && id in db.jobs && JobStep(env, db, op, after, id)
    requires forall j :: j in after.jobs ==> j in db.jobs
    ensures JobSteps(env, db, op, after)
  {
  }

  lemma ExpireSound(env: Env, db: Tables, op: Op, after: Tables)
    requires Sound(env, db) && op.action.ClaimJob? && op.action.id in db.jobs
    requires Decide(env, db, db.jobs[op.action.id], op.now).Expire?
    requires Journal(env, db, BlockedRow(db.jobs[op.action.id], op.now), "job_blocked", ExpiryNotice(), op.now)
      == Done(after, after.eventSeq)
    ensures op.action.id in after.jobs && Sound(env, after) && JobSteps(env, db, op, after)
    ensures GrantExpired(env, db, op, after, op.action.id)
  {
    hide Sound, Kept, ExpiryFields, AnyExpired, HasMarker, ExpiryNotice;
    var id := op.action.id;
    SoundRow(env, db, id);
    JournalSound(env, db, BlockedRow(db.jobs[id], op.now), "job_blocked", ExpiryNotice(), op.now);
    OneJobStep(env, db, op, after, id);
  }

  lemma GrantSound(env: Env, db: Tables, op: Op, after: Tables)
    requires Sound(env, db) && op.action.ClaimJob? && op.action.id in db.jobs && op.action.coordinator != []
    requires Decide(env, db, db.jobs[op.action.id], op.now).Grant?
    requires var a := op.action;
             Journal(env, db, LeasedRow(env, db.jobs[a.id], a.coordinator, a.token, a.leaseSeconds, op.now),
                     "lease_acquired",
                     LeaseNotice(env, a.coordinator, op.now + a.leaseSeconds * SECOND),
                     op.now) == Done(after, after.eventSeq)
    ensures op.action.id in after.jobs && Sound(env, after) && JobSteps(env, db, op, after)
    ensures Granted(env, db, op, after, op.action.id)
  {
    hide Sound, Kept, ExpiryFields, AnyExpired, HasMarker, LeaseNotice;
    var (id, a) := (op.action.id, op.action);
    SoundRow(env, db, id);
    JournalSound(env, db, LeasedRow(env, db.jobs[id], a.coordinator, a.token, a.leaseSeconds, op.now), "lease_acquired",
                 LeaseNotice(env, a.coordinator, op.now + a.leaseSeconds * SECOND), op.now);
    OneJobStep(env, db, op, after, id);
  }

  /** A claim grants the lease, or blocks the job, or changes nothing; only the
      first is a success. */
  ghost predicate ClaimOutcome(env: Env, db: Tables, op: Op, after: Tables)
    requires op.action.ClaimJob?
  {
    var (id, ok) := (op.action.id, Succeeds(env, db, op));
    || (id in db.jobs && id in after.jobs && ok && Granted(env, db, op, after, id))
    || (id in db.jobs && id in after.jobs && !ok && GrantExpired(env, db, op, after, id))
    || (!ok && after == db)
  }

  ghost function ExpiryJournal(env: Env, db: Tables, op: Op): Attempt<nat>
    requires op.action.ClaimJob? && op.action.id in db.jobs
  {
    Journal(env, db, BlockedRow(db.jobs[op.action.id], op.now), "job_blocked", ExpiryNotice(), op.now)
  }

  ghost function GrantJournal(env: Env, db: Tables, op: Op): Attempt<nat>
    requires op.action.ClaimJob? && op.action.id in db.jobs
  {
    var a := op.action;
    Journal(env, db, LeasedRow(env, db.jobs[a.id], a.coordinator, a.token, a.leaseSeconds, op.now), "lease_acquired",
            LeaseNotice(env, a.coordinator, op.now + a.leaseSeconds * SECOND), op.now)
  }

  /** What a claim does, by its decision. */
  lemma ClaimEffect(env: Env, db: Tables, op: Op)
    requires op.action.ClaimJob? && op.action.id in db.jobs && Authentic(env, db.jobs[op.action.id])
    ensures match Decide(env, db, db.jobs[op.action.id], op.now)
      case Refuse(_) => After(env, db, op) == db && !Succeeds(env, db, op)
      case Expire =>
        After(env, db, op) == (if ExpiryJournal(env, db, op).Done? then ExpiryJournal(env, db, op).db else db)
          && !Succeeds(env, db, op)
      case Grant =>
        After(env, db, op) == (if GrantJournal(env, db, op).Done? then GrantJournal(env, db, op).db else db)
        && (Succeeds(env, db, op) <==> GrantJournal(env, db, op).Done?)
  {
    hide Decide, BlockedRow, LeasedRow, ExpiryNotice, LeaseNotice, RequireIntegrity;
    AuthenticPasses(env, db, op.action.id, op.now);
  }

  /** A verified row passes, in any tables. */
  lemma AuthenticPasses(env: Env, db: Tables, id: Text, now: Instant)
    requires id in db.jobs && Authentic(env, db.jobs[id])
    ensures RequireIntegrity(env, db, id, now) == Done(db, db.jobs[id])
  {
  }

  lemma JournalNumbers(env: Env, db: Tables, row: Job, kind: string, payload: Json, now: Instant)
    ensures Journal(env, db, row, kind, payload, now).Done? ==>
      Journal(env, db, row, kind, payload, now).value == Journal(env, db, row, kind, payload, now).db.eventSeq
    ensures Journal(env, db, row, kind, payload, now).Raised? ==>
      !Journal(env, db, row, kind, payload, now).error.JobIntegrityInvalid?
  {
  }

  lemma UnknownClaim(env: Env, db: Tables, op: Op)
    requires op.action.ClaimJob? && op.action.id !in db.jobs
    ensures After(env, db, op) == db && !Succeeds(env, db, op)
  {
  }

  lemma ClaimStepSound(env: Env, db: Tables, op: Op)
    requires Sound(env, db) && op.action.ClaimJob? && op.action.coordinator != []
    ensures Sound(env, After(env, db, op)) && JobSteps(env, db, op, After(env, db, op))
    ensures ClaimOutcome(env, db, op, After(env, db, op))
  {
    hide Sound, JobSteps, Decide, After, Succeeds, Journal, BlockedRow, LeasedRow, ExpiryNotice, LeaseNotice, Granted,
         GrantExpired;
    var (id, a, now) := (op.action.id, op.action, op.now);
    SameTablesStep(env, db, op);
    if id in db.jobs {
      SoundRow(env, db, id);
      ClaimEffect(env, db, op);
      JournalNumbers(env, db, BlockedRow(db.jobs[id], now), "job_blocked", ExpiryNotice(), now);
      JournalNumbers(env, db, LeasedRow(env, db.jobs[id], a.coordinator, a.token, a.leaseSeconds, now),
                     "lease_acquired",
                     LeaseNotice(env, a.coordinator, now + a.leaseSeconds * SECOND), now);
      match Decide(env, db, db.jobs[id], now)
      case Refuse(_) =>
      case Expire => if ExpiryJournal(env, db, op).Done? { ExpireSound(env, db, op, After(env, db, op)); }
      case Grant => if GrantJournal(env, db, op).Done? { GrantSound(env, db, op, After(env, db, op)); }
    } else {
      UnknownClaim(env, db, op);
    }
  }

  /** With the invariant, the lease check is the row check. */
  lemma LeaseChecked(env: Env, db: Tables, id: Text, coordinator: Text, token: Text, now: Instant)
    requires Sound(env, db)
    ensures AssertLease(env, db, id, coordinator, token, now)
         == (if id !in db.jobs then Raised(db, JobNotFound)
             else if LeaseValid(env, db.jobs[id], coordinator, token, now) then Done(db, db.jobs[id])
             else Raised(db, JobLeaseInvalid))
    ensures id in db.jobs && LeaseValid(env, db.jobs[id], coordinator, token, now) ==> !Terminal(db.jobs[id].state)
  {
    hide Sound, LeaseValid, RequireIntegrity;
    if id in db.jobs { NoQuarantine(env, db, id, now); }
    LeaseRunning(env, db, id, coordinator, token, now);
  }

  lemma LeaseRunning(env: Env, db: Tables, id: Text, coordinator: Text, token: Text, now: Instant)
    ensures id in db.jobs && LeaseValid(env, db.jobs[id], coordinator, token, now) ==> db.jobs[id].state.Running?
  {
  }

  lemma HeartbeatStepSound(env: Env, db: Tables, op: Op)
    requires Sound(env, db) && op.action.HeartbeatJob?
    ensures Sound(env, After(env, db, op)) && JobSteps(env, db, op, After(env, db, op))
  {
    hide Sound, JobSteps, AssertLease, LeaseValid, RenewalNotice, StateShaped, RequestSound, Authentic, Journal;
    var (id, a, now) := (op.action.id, op.action, op.now);
    SameTablesStep(env, db, op);
    LeaseChecked(env, db, id, a.coordinator, a.token, now);
    if id in db.jobs && LeaseValid(env, db.jobs[id], a.coordinator, a.token, now) {
      var expires := now + a.leaseSeconds * SECOND;
      var renewed := db.jobs[id].(expiresAt := Some(expires), updatedAt := now);
      SoundRow(env, db, id);
      JournalNumbers(env, db, renewed, "lease_renewed", RenewalNotice(env, expires), now);
      if Journal(env, db, renewed, "lease_renewed", RenewalNotice(env, expires), now).Done? {
        RenewSound(env, db, op, After(env, db, op));
      }
    }
  }

  lemma RenewSound(env: Env, db: Tables, op: Op, after: Tables)
    requires Sound(env, db) && op.action.HeartbeatJob? && op.action.id in db.jobs
    requires LeaseValid(env, db.jobs[op.action.id], op.action.coordinator, op.action.token, op.now)
    requires var expires := op.now + op.action.leaseSeconds * SECOND;
             Journal(env, db, db.jobs[op.action.id].(expiresAt := Some(expires), updatedAt := op.now), "lease_renewed",
                     RenewalNotice(env, expires), op.now) == Done(after, after.eventSeq)
    ensures Sound(env, after) && JobSteps(env, db, op, after)
  {
    hide Sound, Kept, RenewalNotice;
    var id := op.action.id;
    SoundRow(env, db, id);
    LeaseRunning(env, db, id, op.action.coordinator, op.action.token, op.now);
    var expires := op.now + op.action.leaseSeconds * SECOND;
    JournalSound(env, db, db.jobs[id].(expiresAt := Some(expires), updatedAt := op.now), "lease_renewed",
                 RenewalNotice(env, expires), op.now);
    OneJobStep(env, db, op, after, id);
  }

  lemma CompleteStepSound(env: Env, db: Tables, op: Op)
    requires Sound(env, db) && op.action.CompleteJob?
    ensures Sound(env, After(env, db, op)) && JobSteps(env, db, op, After(env, db, op))
  {
    hide Sound, Kept, AssertLease, JobSteps, Fingerprint, CompletionDoc, Terminal;
    var (id, a, now) := (op.action.id, op.action, op.now);
    SameTablesStep(env, db, op);
    LeaseChecked(env, db, id, a.coordinator, a.token, now);
    var after := After(env, db, op);
    if after != db {
      var row := db.jobs[id];
      var body := ResultBody(env.sanitizeOutput(row.request.executionHost, a.output).value);
      var fp := Fingerprint(env, CompletionDoc(row.request, body)).value;
      EndSound(env, db, op, after, CompletedRow(row, a.state, WithFingerprint(body, fp), now), fp);
    }
  }

  lemma EndSound(env: Env, db: Tables, op: Op, after: Tables, done: Job, fp: Text)
    requires Sound(env, db) && op.action.CompleteJob? && op.action.id in db.jobs && Terminal(op.action.state)
    requires LeaseValid(env, db.jobs[op.action.id], op.action.coordinator, op.action.token, op.now)
    requires done == CompletedRow(db.jobs[op.action.id], op.action.state, done.output, op.now)
    requires Journal(env, db, done, TerminalKind(op.action.state), ResultNotice(fp), op.now)
      == Done(after, after.eventSeq)
    ensures Sound(env, after) && JobSteps(env, db, op, after)
  {
    hide Sound, Kept;
    SoundRow(env, db, op.action.id);
    JournalSound(env, db, done, TerminalKind(op.action.state), ResultNotice(fp), op.now);
    OneJobStep(env, db, op, after, op.action.id);
  }

  lemma EventStepSound(env: Env, db: Tables, op: Op)
    requires Sound(env, db) && op.action.AddEvent?
    ensures Sound(env, After(env, db, op)) && JobSteps(env, db, op, After(env, db, op))
  {
    hide Sound, Kept, AssertLease;
    var (id, a, now) := (op.action.id, op.action, op.now);
    SameTablesStep(env, db, op);
    LeaseChecked(env, db, id, a.coordinator, a.token, now);
    if id in db.jobs && LeaseValid(env, db.jobs[id], a.coordinator, a.token, now)
       && AppendEvent(env, db, id, a.kind, a.payload, now).Done? {
      SoundRow(env, db, id);
      AppendSound(env, db, id, a.kind, a.payload, now);
      OneJobStep(env, db, op, After(env, db, op), id);
    }
  }

  lemma ReceiptStepSound(env: Env, db: Tables, op: Op)
    requires Sound(env, db) && op.action.AddReceipt?
    ensures Sound(env, After(env, db, op)) && JobSteps(env, db, op, After(env, db, op))
  {
    hide Sound, Kept, AssertLease, JobSteps, Fingerprint, ReceiptDoc, Terminal;
    var (id, q, now) := (op.action.id, op.action.receipt, op.now);
    SameTablesStep(env, db, op);
    LeaseChecked(env, db, id, q.coordinatorId, q.leaseToken, now);
    var after := After(env, db, op);
    if after != db {
      var clean := env.sanitizeReceipt(q.provider, q.payload).value;
      RecordSound(env, db, op, after, Receipt(id, q.provider, q.operation, q.status, q.fingerprint, clean, now));
    }
  }

  lemma RecordSound(env: Env, db: Tables, op: Op, after: Tables, r: Receipt)
    requires Sound(env, db) && op.action.AddReceipt? && op.action.id in db.jobs && r.jobId == op.action.id
    requires LeaseValid(env, db.jobs[op.action.id], op.action.receipt.coordinatorId, op.action.receipt.leaseToken,
                        op.now)
    requires r.provider == db.jobs[r.jobId].request.executionHost
    requires Fingerprint(env, ReceiptDoc(db.jobs[r.jobId].request, r.provider, r.operation, r.status, r.payload))
      == Some(r.fingerprint)
    requires op.action.receiptId !in db.receipts && FindReceipt(db.receipts, r).None?
    requires var logged := AppendEvent(env, db.(receipts := db.receipts[op.action.receiptId := r]), r.jobId,
                                       "external_receipt_recorded",
                                       ReceiptNotice(op.action.receiptId, op.action.receipt), op.now);
             logged.Done? && logged.db == after
    ensures Sound(env, after) && JobSteps(env, db, op, after)
  {
    hide Sound, Fingerprint, ReceiptDoc, Kept, SameReceiptKey, ReceiptNotice;
    var (id, rid) := (op.action.id, op.action.receiptId);
    SoundRow(env, db, id);
    var stored := db.(receipts := db.receipts[rid := r]);
    ReceiptInsertSound(env, db, rid, r);
    AppendSound(env, stored, id, "external_receipt_recorded", ReceiptNotice(rid, op.action.receipt), op.now);
    ReceiptKeepsOthers(db, stored, after, id, rid);
    OneJobStep(env, db, op, after, id);
  }

  lemma ReceiptKeepsOthers(db: Tables, stored: Tables, after: Tables, id: Text, rid: Text)
    requires rid !in db.receipts && rid in stored.receipts && stored.receipts[rid].jobId == id
    requires stored == db.(receipts := db.receipts[rid := stored.receipts[rid]])
    requires OthersKept(stored, after, id)
    ensures OthersKept(db, after, id)
  {
    forall j | j in db.jobs && j != id ensures Kept(db, after, j) {
      assert Kept(stored, after, j);
    }
  }

  lemma KeptStep(env: Env, db: Tables, op: Op, after: Tables)
    requires AllKept(db, after) && NewQueued(db, after, op.now)
    ensures JobSteps(env, db, op, after)
  {
  }

  lemma CreateStepSound(env: Env, db: Tables, op: Op)
    requires Sound(env, db) && op.action.CreateJob? && Validates(env, op.action.request, op.now, false)
    ensures Sound(env, After(env, db, op)) && JobSteps(env, db, op, After(env, db, op))
  {
    hide Sound, Kept, CreateLocked, JobSteps, Fingerprint, RequestDoc;
    SameTablesStep(env, db, op);
    CreateSound(env, db, op.action.request, op.now);
    if CreateLocked(env, db, op.action.request, op.now).Done? {
      KeptStep(env, db, op, CreateLocked(env, db, op.action.request, op.now).db);
    }
  }

  lemma {:induction false} ListSound(env: Env, db: Tables, rows: seq<Text>, n: nat, now: Instant)
    requires Sound(env, db) && n <= |rows| && forall i :: 0 <= i < |rows| ==> rows[i] in db.jobs
    ensures var r := ListJobs(env, db, rows, n, now);
            r.Done? && forall i :: 0 <= i < n ==> r.value[i] == db.jobs[rows[i]]
  {
    hide Sound;
    if n > 0 {
      ListSound(env, db, rows, n - 1, now);
      NoQuarantine(env, db, rows[n - 1], now);
    }
  }

  lemma ReadStepSound(env: Env, db: Tables, op: Op)
    requires Sound(env, db) && (op.action.ReadJob? || op.action.ReadJobs?)
    ensures After(env, db, op) == db && JobSteps(env, db, op, db)
  {
    hide Sound, JobSteps;
    SameTablesStep(env, db, op);
    if op.action.ReadJob? {
      if op.action.id in db.jobs { NoQuarantine(env, db, op.action.id, op.now); }
    } else if forall i :: 0 <= i < |op.action.rows| ==> op.action.rows[i] in db.jobs {
      ListSound(env, db, op.action.rows, |op.action.rows|, op.now);
    }
  }
}
