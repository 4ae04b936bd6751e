/**
 Theorems about whole runs of the coordinator store: who can hold a lease, how a
 lease ends, and that finished jobs stay as they are.
 */
module LeaseRuns {
  import opened Outcomes
  import opened PyText
  import opened StoreTables
  import opened Ledger
  import opened Coordinator
  import opened StoreInvariant
  import opened StoreSteps
  import opened QueueSteps

  /** Validated calls only, none of them a tampering. */
  ghost predicate Untampered(env: Env, ops: seq<Op>) {
    Signing(env) && forall i :: 0 <= i < |ops| ==> Validated(env, ops[i]) && !ops[i].action.Tamper?
  }

  /** A restart reads a clock that no earlier call was ahead of. */
  ghost predicate RestartsOnTime(ops: seq<Op>) {
    forall i, j :: 0 <= i < j < |ops| && ops[j].action.Restart? ==> ops[i].now <= ops[j].now
  }

  ghost predicate Lawful(env: Env, trace: seq<Tables>, ops: seq<Op>) {
    Run(env, trace, ops) && Untampered(env, ops) && RestartsOnTime(ops)
  }

  /** secrets.token_urlsafe never repeats. */
  ghost predicate FreshTokens(ops: seq<Op>) {
    forall i, j :: 0 <= i < j < |ops| && ops[i].action.ClaimJob? && ops[j].action.ClaimJob? ==>
      ops[i].action.token != ops[j].action.token
  }

  /** Every job was created at the clock reading of one of the first k calls. */
  ghost predicate CreatedDuring(db: Tables, ops: seq<Op>, k: nat)
    requires k <= |ops|
  {
    forall id :: id in db.jobs ==> exists i :: 0 <= i < k && ops[i].now == db.jobs[id].createdAt
  }

  /** No job's creation time changes, and a new one is that of the call. */
  lemma StampsKept(env: Env, db: Tables, op: Op, after: Tables, id: Text)
    requires JobSteps(env, db, op, after) && id in after.jobs
    ensures after.jobs[id].createdAt == if id in db.jobs then db.jobs[id].createdAt else op.now
  {
    hide AnyExpired, HasMarker, LeaseValid, Decide, OneEvent, SameEvents, SameReceipts, ReceiptBound;
    if id in db.jobs { assert JobStep(env, db, op, after, id); }
  }

  lemma CreatedDuringNext(env: Env, db: Tables, ops: seq<Op>, k: nat, after: Tables)
    requires k < |ops| && CreatedDuring(db, ops, k) && JobSteps(env, db, ops[k], after)
    ensures CreatedDuring(after, ops, k + 1)
  {
    hide JobSteps;
    forall id | id in after.jobs ensures exists i :: 0 <= i < k + 1 && ops[i].now == after.jobs[id].createdAt {
      StampsKept(env, db, ops[k], after, id);
      if id in db.jobs {
        var i :| 0 <= i < k && ops[i].now == db.jobs[id].createdAt;
      } else {
        assert ops[k].now == after.jobs[id].createdAt;
      }
    }
  }

  lemma RestartTimely(db: Tables, ops: seq<Op>, k: nat)
    requires k < |ops| && RestartsOnTime(ops) && CreatedDuring(db, ops, k)
    ensures Timely(db, ops[k])
  {
  }

  /** Every reachable state satisfies the invariant, and its jobs were created during
      the run. */
  lemma {:induction false} RunSound(env: Env, trace: seq<Tables>, ops: seq<Op>, k: nat)
    requires Lawful(env, trace, ops) && k <= |ops|
    ensures Sound(env, trace[k]) && CreatedDuring(trace[k], ops, k)
  {
    hide Validated, Signing, After, JobSteps;
    if k == 0 {
    } else {
      hide Sound, CreatedDuring, Timely;
      RunSound(env, trace, ops, k - 1);
      RestartTimely(trace[k - 1], ops, k - 1);
      StepSound(env, trace[k - 1], ops[k - 1]);
      CreatedDuringNext(env, trace[k - 1], ops, k - 1, trace[k]);
    }
  }

  lemma RunStep(env: Env, trace: seq<Tables>, ops: seq<Op>, k: nat)
    requires Lawful(env, trace, ops) && k < |ops|
    ensures Sound(env, trace[k]) && trace[k + 1] == After(env, trace[k], ops[k])
    ensures JobSteps(env, trace[k], ops[k], trace[k + 1]) && Sound(env, trace[k + 1]) && Validated(env, ops[k])
  {
    hide Sound, JobSteps, After, Validated, Signing, CreatedDuring, Timely, RestartsOnTime;
    RunSound(env, trace, ops, k);
    RestartTimely(trace[k], ops, k);
    StepSound(env, trace[k], ops[k]);
  }

  // ------------------------------------------------------------ frozen at the end

  /** A finished job undergoes no further change. */
  lemma TerminalStep(env: Env, db: Tables, op: Op, after: Tables, id: Text)
    requires id in db.jobs && Terminal(db.jobs[id].state) && JobStep(env, db, op, after, id)
    ensures Kept(db, after, id)
  {
    hide Kept, AnyExpired, HasMarker;
  }

  /** Once complete, blocked, cancelled or failed, a job's row, events and
      receipts never change again, whatever is called; its lease is cleared and
      its newest event says how it ended. */
  lemma {:induction false} TerminalFrozen(env: Env, trace: seq<Tables>, ops: seq<Op>, i: nat, k: nat, id: Text)
    requires Lawful(env, trace, ops) && i <= k <= |ops|
    requires id in trace[i].jobs && Terminal(trace[i].jobs[id].state)
    ensures Kept(trace[i], trace[k], id)
    ensures trace[k].jobs[id].tokenHash.None? && trace[k].jobs[id].expiresAt.None?
    ensures EndLogged(trace[k], id)
  {
    hide Lawful, JobStep, SameEvents, SameReceipts, Sound, EndLogged, After;
    LawfulShape(env, trace, ops);
    if k == i {
      RunSound(env, trace, ops, k);
      SoundEnd(env, trace[k], id);
      KeptReflexive(trace[i], id);
    } else {
      TerminalFrozen(env, trace, ops, i, k - 1, id);
      RunStep(env, trace, ops, k - 1);
      TerminalStep(env, trace[k - 1], ops[k - 1], trace[k], id);
      KeptCompose(trace[i], trace[k - 1], trace[k], id);
      EndLoggedKept(trace[k - 1], trace[k], id);
    }
  }

  lemma SoundEnd(env: Env, db: Tables, id: Text)
    requires Sound(env, db) && id in db.jobs && Terminal(db.jobs[id].state)
    ensures db.jobs[id].tokenHash.None? && db.jobs[id].expiresAt.None? && EndLogged(db, id)
  {
    hide EndLogged, ReceiptBound, RequestSound, LinkSound;
  }

  lemma LawfulShape(env: Env, trace: seq<Tables>, ops: seq<Op>)
    requires Lawful(env, trace, ops)
    ensures |trace| == |ops| + 1
  {
  }

  lemma KeptReflexive(db: Tables, id: Text)
    requires id in db.jobs
    ensures Kept(db, db, id)
  {
  }

  lemma KeptCompose(a: Tables, b: Tables, c: Tables, id: Text)
    requires id in a.jobs && Kept(a, b, id) && Kept(b, c, id)
    ensures Kept(a, c, id)
  {
  }

  lemma EndLoggedKept(a: Tables, b: Tables, id: Text)
    requires id in a.jobs && Kept(a, b, id) && EndLogged(a, id)
    ensures EndLogged(b, id)
  {
    var s :| Newest(a, id, s) && a.events[s].kind == TerminalKind(a.jobs[id].state);
    assert Newest(b, id, s);
  }

  // ------------------------------------------------------------ lease fencing

  ghost predicate Claims(env: Env, trace: seq<Tables>, ops: seq<Op>, m: nat, id: Text)
    requires m < |ops| && |trace| == |ops| + 1
  {
    ops[m].action.ClaimJob? && ops[m].action.id == id && Coordinator.Succeeds(env, trace[m], ops[m])
  }

  /** The m-th call is the newest successful claim of the job before the k-th. */
  ghost predicate LastClaim(env: Env, trace: seq<Tables>, ops: seq<Op>, k: nat, id: Text, m: nat)
    requires |trace| == |ops| + 1 && k <= |ops|
  {
    && m < k && Claims(env, trace, ops, m, id)
    && forall j :: m < j < k ==> !Claims(env, trace, ops, j, id)
  }

  /** The lease columns of a row are those of one claim. */
  ghost predicate HeldFrom(env: Env, row: Job, claim: Op) {
    && claim.action.ClaimJob?
    && row.tokenHash == Some(env.sha256(claim.action.token))
    && row.owner == Some(claim.action.coordinator)
  }

  /** What a step leaves of a held lease comes from that step's claim, or was
      there before it. */
  lemma HolderStep(env: Env, db: Tables, op: Op, id: Text)
    requires Sound(env, db) && JobSteps(env, db, op, After(env, db, op)) && Sound(env, After(env, db, op))
    requires Validated(env, op)
    requires id in After(env, db, op).jobs && After(env, db, op).jobs[id].tokenHash.Some?
    ensures if op.action.ClaimJob? && op.action.id == id && Coordinator.Succeeds(env, db, op)
            then HeldFrom(env, After(env, db, op).jobs[id], op)
            else id in db.jobs && db.jobs[id].tokenHash == After(env, db, op).jobs[id].tokenHash
                 && db.jobs[id].owner == After(env, db, op).jobs[id].owner
  {
    hide Sound, After, Coordinator.Succeeds, OneEvent, SameEvents, SameReceipts, LeaseValid, Decide, ReceiptBound;
    var after := After(env, db, op);
    SoundRow(env, after, id);
    if id in db.jobs { assert JobStep(env, db, op, after, id); }
    if op.action.ClaimJob? && op.action.id == id {
      ClaimStepSound(env, db, op);
    }
  }

  lemma ClaimsStep(env: Env, trace: seq<Tables>, ops: seq<Op>, k: nat, id: Text)
    requires |trace| == |ops| + 1 && k < |ops|
    ensures Claims(env, trace, ops, k, id) ==> LastClaim(env, trace, ops, k + 1, id, k)
    ensures forall m :: LastClaim(env, trace, ops, k, id, m) && !Claims(env, trace, ops, k, id) ==>
      LastClaim(env, trace, ops, k + 1, id, m)
  {
    hide Coordinator.Succeeds;
  }

  /** A stored lease is always that of the newest successful claim of its job. */
  lemma {:induction false} HolderIsLastClaim(env: Env, trace: seq<Tables>, ops: seq<Op>, k: nat, id: Text)
    returns (m: nat)
    requires Lawful(env, trace, ops) && k <= |ops|
    requires id in trace[k].jobs && trace[k].jobs[id].tokenHash.Some?
    ensures m < k && LastClaim(env, trace, ops, k, id, m) && HeldFrom(env, trace[k].jobs[id], ops[m])
  {
    hide Sound, JobSteps, After, Coordinator.Succeeds, LastClaim, Validated, Signing;
    assert k > 0;
    RunStep(env, trace, ops, k - 1);
    HolderStep(env, trace[k - 1], ops[k - 1], id);
    ClaimsStep(env, trace, ops, k - 1, id);
    if Claims(env, trace, ops, k - 1, id) {
      m := k - 1;
    } else {
      m := HolderIsLastClaim(env, trace, ops, k - 1, id);
    }
  }

  /** Whoever passes the lease check is the coordinator of the newest successful
      claim of that job, with the token that claim was given. */
  lemma LeaseFencing(env: Env, trace: seq<Tables>, ops: seq<Op>, k: nat, id: Text, coordinator: Text, token: Text,
                     now: Instant) returns (m: nat)
    requires Lawful(env, trace, ops) && IdealHash(env) && k <= |ops|
    requires id in trace[k].jobs && LeaseValid(env, trace[k].jobs[id], coordinator, token, now)
    ensures LastClaim(env, trace, ops, k, id, m)
    ensures ops[m].action.coordinator == coordinator && ops[m].action.token == token
  {
    hide Lawful, LastClaim;
    LawfulShape(env, trace, ops);
    m := HolderIsLastClaim(env, trace, ops, k, id);
    assert env.sha256(ops[m].action.token) == env.sha256(token);
  }

  /** A token that a later claim replaced never passes again, for anyone. */
  lemma ReplacedTokenIsDead(env: Env, trace: seq<Tables>, ops: seq<Op>, i: nat, j: nat, k: nat, id: Text,
                            coordinator: Text, now: Instant)
    requires Lawful(env, trace, ops) && IdealHash(env) && FreshTokens(ops)
    requires i < j < k <= |ops| && |trace| == |ops| + 1
    requires Claims(env, trace, ops, i, id) && Claims(env, trace, ops, j, id)
    requires id in trace[k].jobs
    ensures !LeaseValid(env, trace[k].jobs[id], coordinator, ops[i].action.token, now)
  {
    hide Lawful, Coordinator.Succeeds, IdealHash, LeaseValid;
    if LeaseValid(env, trace[k].jobs[id], coordinator, ops[i].action.token, now) {
      var m := LeaseFencing(env, trace, ops, k, id, coordinator, ops[i].action.token, now);
      assert false;
    }
  }

  /** Two credentials that pass, even at different times, are one. */
  lemma OneHolder(env: Env, row: Job, c: Text, t: Text, now: Instant, c': Text, t': Text, now': Instant)
    requires IdealHash(env) && LeaseValid(env, row, c, t, now) && LeaseValid(env, row, c', t', now')
    ensures c == c' && t == t'
  {
  }

  // ------------------------------------------------------- how a lease can end

  /** State, owner, token and expiry are untouched. */
  predicate SameLease(before: Job, after: Job) {
    && after.state == before.state && after.owner == before.owner
    && after.tokenHash == before.tokenHash && after.expiresAt == before.expiresAt
  }

  /** The call named the holder and its token. */
  predicate ByHolder(op: Op, coordinator: Text, token: Text) {
    || (op.action.HeartbeatJob? && op.action.coordinator == coordinator && op.action.token == token)
    || (op.action.CompleteJob? && op.action.coordinator == coordinator && op.action.token == token)
  }

  /** What can happen to a live lease: nothing, not even to its expiry; a new expiry
      set by the holder's heartbeat; the holder's completion; the block of an expired
      authorization. */
  ghost predicate LeaseChange(env: Env, db: Tables, op: Op, after: Tables, id: Text, coordinator: Text, token: Text)
    requires id in db.jobs && id in after.jobs
  {
    || SameLease(db.jobs[id], after.jobs[id])
    || (op.action.HeartbeatJob? && op.action.id == id && ByHolder(op, coordinator, token)
        && SameLease(db.jobs[id].(expiresAt := Some(op.now + op.action.leaseSeconds * SECOND)), after.jobs[id]))
    || (Ended(env, db, op, after, id) && ByHolder(op, coordinator, token))
    || GrantExpired(env, db, op, after, id)
  }

  lemma LeaseStep(env: Env, db: Tables, op: Op, id: Text, coordinator: Text, token: Text)
    requires Sound(env, db) && JobSteps(env, db, op, After(env, db, op)) && Validated(env, op) && IdealHash(env)
    requires id in db.jobs && LeaseValid(env, db.jobs[id], coordinator, token, op.now)
    ensures id in After(env, db, op).jobs && LeaseChange(env, db, op, After(env, db, op), id, coordinator, token)
  {
    hide Sound, After, OneEvent, SameEvents, SameReceipts, AnyExpired, HasMarker, ReceiptBound;
    assert JobStep(env, db, op, After(env, db, op), id);
    SoundRow(env, db, id);
  }

  /** A live lease, its expiry included, survives every call except its holder's
      heartbeat and completion and the block of an expired authorization. */
  lemma LeaseEndsOnlyBy(env: Env, trace: seq<Tables>, ops: seq<Op>, k: nat, id: Text, coordinator: Text, token: Text)
    requires Lawful(env, trace, ops) && IdealHash(env) && k < |ops| && |trace| == |ops| + 1
    requires id in trace[k].jobs && LeaseValid(env, trace[k].jobs[id], coordinator, token, ops[k].now)
    ensures id in trace[k + 1].jobs && LeaseChange(env, trace[k], ops[k], trace[k + 1], id, coordinator, token)
  {
    hide Lawful, Sound, JobSteps, After, Validated, IdealHash, LeaseValid, LeaseChange;
    RunStep(env, trace, ops, k);
    LeaseStep(env, trace[k], ops[k], id, coordinator, token);
  }

  lemma SameLeasePasses(env: Env, row: Job, after: Job, coordinator: Text, token: Text, start: Instant, now: Instant)
    requires LeaseValid(env, row, coordinator, token, start) && SameLease(row, after)
    requires row.expiresAt.Some? && now < row.expiresAt.value
    ensures LeaseValid(env, after, coordinator, token, now)
  {
  }

  /** No heartbeat, completion or expiry block of the job took effect in the m-th
      call. */
  ghost predicate QuietAt(env: Env, trace: seq<Tables>, ops: seq<Op>, m: nat, id: Text)
    requires m < |ops| && |trace| == |ops| + 1
  {
    id in trace[m].jobs && id in trace[m + 1].jobs ==>
      && !Renewed(env, trace[m], ops[m], trace[m + 1], id)
      && !Ended(env, trace[m], ops[m], trace[m + 1], id)
      && !GrantExpired(env, trace[m], ops[m], trace[m + 1], id)
  }

  lemma QuietKeepsLease(env: Env, db: Tables, op: Op, id: Text, coordinator: Text, token: Text)
    requires Sound(env, db) && JobSteps(env, db, op, After(env, db, op)) && Validated(env, op) && IdealHash(env)
    requires id in db.jobs && LeaseValid(env, db.jobs[id], coordinator, token, op.now) && id in After(env, db, op).jobs
    requires !Renewed(env, db, op, After(env, db, op), id) && !Ended(env, db, op, After(env, db, op), id)
    requires !GrantExpired(env, db, op, After(env, db, op), id)
    ensures SameLease(db.jobs[id], After(env, db, op).jobs[id])
  {
    hide Sound, After, OneEvent, SameEvents, SameReceipts, AnyExpired, HasMarker, ReceiptBound, Renewed, Ended,
         GrantExpired;
    assert JobStep(env, db, op, After(env, db, op), id);
    SoundRow(env, db, id);
  }

  /** Over a run: while calls come before a lease's expiry and none of them is a
      heartbeat, a completion or an expiry block of the job, the lease stays exactly as
      it is, and its holder passes up to the expiry it had. */
  lemma {:induction false} LeaseHeld(
      env: Env, trace: seq<Tables>, ops: seq<Op>, i: nat, k: nat, id: Text,
      coordinator: Text, token: Text, start: Instant, now: Instant)
    requires Lawful(env, trace, ops) && IdealHash(env) && i <= k <= |ops| && |trace| == |ops| + 1
    requires id in trace[i].jobs && LeaseValid(env, trace[i].jobs[id], coordinator, token, start)
    requires trace[i].jobs[id].expiresAt.Some?
    requires forall m :: i <= m < k ==>
      ops[m].now < trace[i].jobs[id].expiresAt.value && QuietAt(env, trace, ops, m, id)
    ensures id in trace[k].jobs && SameLease(trace[i].jobs[id], trace[k].jobs[id])
    ensures now < trace[i].jobs[id].expiresAt.value ==> LeaseValid(env, trace[k].jobs[id], coordinator, token, now)
    decreases k
  {
    hide Lawful, Sound, JobSteps, LeaseChange, Renewed, Ended, GrantExpired, IdealHash, After, Validated, LeaseValid;
    if k > i {
      LeaseHeld(env, trace, ops, i, k - 1, id, coordinator, token, start, ops[k - 1].now);
      RunStep(env, trace, ops, k - 1);
      LeaseStep(env, trace[k - 1], ops[k - 1], id, coordinator, token);
      assert QuietAt(env, trace, ops, k - 1, id);
      QuietKeepsLease(env, trace[k - 1], ops[k - 1], id, coordinator, token);
    }
    if now < trace[i].jobs[id].expiresAt.value {
      SameLeasePasses(env, trace[i].jobs[id], trace[k].jobs[id], coordinator, token, start, now);
    }
  }

  /** A successful heartbeat sets the expiry, and may set it earlier than it was: the
      holder passes exactly up to the newly promised time. */
  lemma HeartbeatSetsExpiry(env: Env, db: Tables, op: Op, coordinator: Text, token: Text, now: Instant)
    requires Sound(env, db) && op.action.HeartbeatJob? && IdealHash(env) && Coordinator.Succeeds(env, db, op)
    ensures var (id, after) := (op.action.id, After(env, db, op));
      && id in db.jobs && id in after.jobs
      && (LeaseValid(env, after.jobs[id], coordinator, token, now)
          <==> ByHolder(op, coordinator, token) && now < op.now + op.action.leaseSeconds * SECOND)
  {
    hide After, Coordinator.Succeeds, IdealHash, Sound;
    RenewedWasValid(env, db, op);
    RenewedRow(env, db, op);
    if LeaseValid(env, After(env, db, op).jobs[op.action.id], coordinator, token, now) {
      SameHashSameToken(env, token, op.action.token);
    }
  }

  lemma SameHashSameToken(env: Env, s: Text, t: Text)
    requires IdealHash(env) && env.sha256(s) == env.sha256(t)
    ensures s == t
  {
  }

  lemma RenewedRow(env: Env, db: Tables, op: Op)
    requires Sound(env, db) && op.action.HeartbeatJob? && Coordinator.Succeeds(env, db, op)
    ensures var (id, after) := (op.action.id, After(env, db, op));
      && id in db.jobs && id in after.jobs
      && var expires := Some(op.now + op.action.leaseSeconds * SECOND);
      && after.jobs[id] == Sign(env, db.jobs[id].(expiresAt := expires, updatedAt := op.now))
  {
    hide Sound, AssertLease, RenewalNotice, LeaseValid;
    LeaseChecked(env, db, op.action.id, op.action.coordinator, op.action.token, op.now);
    RenewedWasValid(env, db, op);
    SoundRow(env, db, op.action.id);
  }

  /** At that time the credential passed in the first row and does not in the second. */
  predicate LostAt(env: Env, before: Job, after: Job, coordinator: Text, token: Text, now: Instant) {
    LeaseValid(env, before, coordinator, token, now) && !LeaseValid(env, after, coordinator, token, now)
  }

  /** A holder's own heartbeat cuts its lease short exactly when it promises less than
      the lease had: then, and only then, some time at which the holder would have
      passed is one at which it no longer does. */
  lemma HeartbeatShortensExactlyWhen(env: Env, db: Tables, op: Op)
    requires Sound(env, db) && op.action.HeartbeatJob? && IdealHash(env) && Coordinator.Succeeds(env, db, op)
    ensures var (a, after) := (op.action, After(env, db, op));
      && a.id in db.jobs && a.id in after.jobs && db.jobs[a.id].expiresAt.Some?
      && ((exists t: Instant :: LostAt(env, db.jobs[a.id], after.jobs[a.id], a.coordinator, a.token, t))
          <==> op.now + a.leaseSeconds * SECOND < db.jobs[a.id].expiresAt.value)
  {
    hide Sound, AssertLease, After, Coordinator.Succeeds, IdealHash;
    var (a, after, ends) := (op.action, After(env, db, op), op.now + op.action.leaseSeconds * SECOND);
    RenewedWasValid(env, db, op);
    RunningExpires(env, db, a.id);
    HeartbeatSetsExpiry(env, db, op, a.coordinator, a.token, ends);
    if ends < db.jobs[a.id].expiresAt.value {
      assert LostAt(env, db.jobs[a.id], after.jobs[a.id], a.coordinator, a.token, ends);
    }
    forall t: Instant | LostAt(env, db.jobs[a.id], after.jobs[a.id], a.coordinator, a.token, t)
      ensures ends < db.jobs[a.id].expiresAt.value
    {
      HeartbeatSetsExpiry(env, db, op, a.coordinator, a.token, t);
    }
  }

  lemma RunningExpires(env: Env, db: Tables, id: Text)
    requires Sound(env, db) && id in db.jobs && db.jobs[id].state.Running?
    ensures db.jobs[id].expiresAt.Some?
  {
    hide KeysUnique, EventsSound, TerminalLogged, ReceiptsSound, LinksSound, RequestSound, Authentic;
  }

  lemma RenewedWasValid(env: Env, db: Tables, op: Op)
    requires Sound(env, db) && op.action.HeartbeatJob? && Coordinator.Succeeds(env, db, op)
    ensures op.action.id in db.jobs
    ensures LeaseValid(env, db.jobs[op.action.id], op.action.coordinator, op.action.token, op.now)
  {
    hide Sound, AssertLease, LeaseValid;
    LeaseChecked(env, db, op.action.id, op.action.coordinator, op.action.token, op.now);
  }

  /** A successful claim gives exactly its caller the lease, from the moment of
      the claim up to but not including the promised expiry. */
  lemma ClaimGivesLease(env: Env, db: Tables, op: Op, coordinator: Text, token: Text, now: Instant)
    requires Sound(env, db) && Validated(env, op) && op.action.ClaimJob? && IdealHash(env)
    requires Coordinator.Succeeds(env, db, op)
    ensures var (id, after) := (op.action.id, After(env, db, op));
      id in after.jobs &&
      (LeaseValid(env, after.jobs[id], coordinator, token, now)
       <==> coordinator == op.action.coordinator && token == op.action.token
            && now < op.now + op.action.leaseSeconds * SECOND)
  {
    hide Sound, After, Coordinator.Succeeds, OneEvent, SameReceipts, Decide;
    ClaimStepSound(env, db, op);
  }

  /** While a lease is live, no other claim succeeds. */
  lemma LiveLeaseExcludes(env: Env, db: Tables, op: Op, coordinator: Text, token: Text)
    requires Sound(env, db) && Validated(env, op) && op.action.ClaimJob? && op.action.id in db.jobs
    requires LeaseValid(env, db.jobs[op.action.id], coordinator, token, op.now)
    ensures !Coordinator.Succeeds(env, db, op)
  {
    hide Sound, After, Coordinator.Succeeds, OneEvent, SameReceipts, HasMarker, AnyExpired;
    ClaimStepSound(env, db, op);
    SoundRow(env, db, op.action.id);
  }

  // ------------------------------------------------------------ counting claims

  /** How many of the first k calls were successful claims of the job. */
  ghost function ClaimCount(env: Env, trace: seq<Tables>, ops: seq<Op>, k: nat, id: Text): nat
    requires |trace| == |ops| + 1 && k <= |ops|
  {
    if k == 0 then 0
    else ClaimCount(env, trace, ops, k - 1, id) + if Claims(env, trace, ops, k - 1, id) then 1 else 0
  }

  lemma AttemptsStep(env: Env, db: Tables, op: Op, id: Text)
    requires Sound(env, db) && JobSteps(env, db, op, After(env, db, op)) && Sound(env, After(env, db, op))
    requires Validated(env, op)
    requires id in After(env, db, op).jobs
    ensures var row := After(env, db, op).jobs[id];
      if op.action.ClaimJob? && op.action.id == id && Coordinator.Succeeds(env, db, op)
      then id in db.jobs && row.attempts == db.jobs[id].attempts + 1
      else row.attempts == if id in db.jobs then db.jobs[id].attempts else 0
  {
    hide Sound, After, Coordinator.Succeeds, OneEvent, SameEvents, SameReceipts, LeaseValid, Decide, ReceiptBound;
    var after := After(env, db, op);
    SoundRow(env, after, id);
    if id in db.jobs { assert JobStep(env, db, op, after, id); }
    if op.action.ClaimJob? && op.action.id == id {
      ClaimStepSound(env, db, op);
    }
  }

  lemma {:induction false} UnknownNeverClaimed(env: Env, trace: seq<Tables>, ops: seq<Op>, k: nat, id: Text)
    requires Lawful(env, trace, ops) && k <= |ops| && |trace| == |ops| + 1 && id !in trace[k].jobs
    ensures ClaimCount(env, trace, ops, k, id) == 0
  {
    hide Lawful, Sound, After, Coordinator.Succeeds;
    if k > 0 {
      RunStep(env, trace, ops, k - 1);
      assert id !in trace[k - 1].jobs;
      UnknownNeverClaimed(env, trace, ops, k - 1, id);
      if ops[k - 1].action.ClaimJob? && ops[k - 1].action.id == id {
        ClaimStepSound(env, trace[k - 1], ops[k - 1]);
      }
    }
  }

  /** The attempts column counts the successful claims. */
  lemma {:induction false} AttemptsCountClaims(env: Env, trace: seq<Tables>, ops: seq<Op>, k: nat, id: Text)
    requires Lawful(env, trace, ops) && k <= |ops| && |trace| == |ops| + 1 && id in trace[k].jobs
    ensures trace[k].jobs[id].attempts == ClaimCount(env, trace, ops, k, id)
  {
    hide Sound, JobSteps, After, Coordinator.Succeeds, Validated, Signing;
    assert k > 0;
    RunStep(env, trace, ops, k - 1);
    AttemptsStep(env, trace[k - 1], ops[k - 1], id);
    if id in trace[k - 1].jobs {
      AttemptsCountClaims(env, trace, ops, k - 1, id);
    } else {
      UnknownNeverClaimed(env, trace, ops, k - 1, id);
    }
  }

  /** A claim that succeeds although a prepared authority has expired rests on a
      receipt of that very attempt, and is never the job's first claim. */
  lemma LateClaimNeedsReceipt(env: Env, trace: seq<Tables>, ops: seq<Op>, k: nat) returns (rid: Text)
    requires Lawful(env, trace, ops) && k < |ops| && |trace| == |ops| + 1
    requires ops[k].action.ClaimJob? && ops[k].action.id in trace[k].jobs && Coordinator.Succeeds(env, trace[k], ops[k])
    requires AnyExpired(env, ExpiryFields(trace[k].jobs[ops[k].action.id].request.payload), ops[k].now) == Some(true)
    ensures var (id, row) := (ops[k].action.id, trace[k].jobs[ops[k].action.id]);
      && PreparedAttemptOf(row).Some? && rid in trace[k].receipts
      && Marks(env, PreparedAttemptOf(row).value, row.request.id, trace[k].receipts[rid])
      && ClaimCount(env, trace, ops, k, id) >= 1
  {
    hide Lawful, Sound, After, Coordinator.Succeeds, PreparedAttemptOf, Marks, AnyExpired, ExpiryFields, OneEvent,
         SameReceipts;
    var (id, row) := (ops[k].action.id, trace[k].jobs[ops[k].action.id]);
    RunStep(env, trace, ops, k);
    ClaimStepSound(env, trace[k], ops[k]);
    rid :| rid in trace[k].receipts && Marks(env, PreparedAttemptOf(row).value, row.request.id, trace[k].receipts[rid]);
    MarkOfClaimed(env, trace[k], id, rid);
    AttemptsCountClaims(env, trace, ops, k, id);
  }

  lemma MarkOfClaimed(env: Env, db: Tables, id: Text, rid: Text)
    requires Sound(env, db) && id in db.jobs && rid in db.receipts
    requires PreparedAttemptOf(db.jobs[id]).Some?
    requires Marks(env, PreparedAttemptOf(db.jobs[id]).value, db.jobs[id].request.id, db.receipts[rid])
    ensures db.jobs[id].attempts >= 1
  {
    hide PreparedAttemptOf, Fingerprint, RequestSound, LinkSound, EndLogged, ReceiptDoc;
  }
}
