/**
 Runs of the scan queue.
 */
module ScanRuns {
  import opened Outcomes
  import opened PyText
  import opened StoreTables
  import opened ScanQueue
  import opened Coordinator
  import opened QueueRuns

  /** A run without tampering; the request schemas have checked each call. */
  ghost predicate QueueRun(env: Env, trace: seq<Tables>, ops: seq<Op>) {
    Run(env, trace, ops) && forall i :: 0 <= i < |ops| ==> !ops[i].action.Tamper? && ScanChecked(env, ops[i])
  }

  /** Scan ids are not empty; a report has passed its schema. */
  predicate ScanChecked(env: Env, op: Op) {
    && (op.action.ClaimQueueScan? ==> op.action.scanId != [])
    && (op.action.CompleteQueueScan? ==> ReportChecked(env, op.action.completion))
  }

  /** The clock readings do not go back. */
  ghost predicate Clock(ops: seq<Op>) {
    forall i, j :: 0 <= i <= j < |ops| ==> ops[i].now <= ops[j].now
  }

  ghost predicate FreshScanIds(ops: seq<Op>) {
    forall i, j :: 0 <= i < j < |ops| && ops[i].action.ClaimQueueScan? && ops[j].action.ClaimQueueScan? ==>
      ops[i].action.scanId != ops[j].action.scanId
  }

  lemma RunQueueStep(env: Env, trace: seq<Tables>, ops: seq<Op>, k: nat)
    requires QueueRun(env, trace, ops) && k < |ops|
    ensures |trace| == |ops| + 1 && QueueStep(env, trace[k], ops[k], trace[k + 1]) && ScanChecked(env, ops[k])
  {
    hide QueueStep, After;
    QueueStepCases(env, trace[k], ops[k]);
  }

  // ------------------------------------------------------------- scan fencing

  ghost predicate GrantsAt(env: Env, trace: seq<Tables>, ops: seq<Op>, m: nat)
    requires m < |ops| && |trace| == |ops| + 1
  {
    Grants(env, trace[m], ops[m], trace[m + 1])
  }

  /** The call that accepts a completion or a failure. */
  ghost predicate EndsAt(env: Env, trace: seq<Tables>, ops: seq<Op>, k: nat)
    requires k < |ops| && |trace| == |ops| + 1
  {
    Completes(env, trace[k], ops[k], trace[k + 1]) || Fails(env, trace[k], ops[k], trace[k + 1])
  }

  function CredentialOf(op: Op): ScanCredential
    requires op.action.CompleteQueueScan? || op.action.FailQueueScan?
  {
    if op.action.CompleteQueueScan? then op.action.completion.credential else op.action.credential
  }

  /** The stored scan is the one granted by the m-th call, under the revision that
      is still current, and no scan was granted or ended since. */
  ghost predicate LiveGrant(env: Env, trace: seq<Tables>, ops: seq<Op>, k: nat, m: nat)
    requires |trace| == |ops| + 1 && k <= |ops|
  {
    && m < k && GrantsAt(env, trace, ops, m)
    && trace[k].queue.Some? && trace[m].queue.Some?
    && trace[k].queue.value.revision == trace[m].queue.value.revision
    && trace[k].queue.value.configuration == trace[m].queue.value.configuration
    && trace[k].queue.value.scan == Some(Scan(ops[m].action.scanId, ops[m].action.claim.coordinatorId,
                                              env.sha256(ops[m].action.token), ops[m].now + SCAN_LEASE))
    && forall j :: m < j < k ==> !EndsAt(env, trace, ops, j) && !GrantsAt(env, trace, ops, j)
  }

  lemma LiveGrantStays(env: Env, trace: seq<Tables>, ops: seq<Op>, k: nat, m: nat)
    requires QueueRun(env, trace, ops) && |trace| == |ops| + 1 && k < |ops| && LiveGrant(env, trace, ops, k, m)
    requires trace[k + 1].queue.Some? && trace[k + 1].queue.value.scan.Some? && !GrantsAt(env, trace, ops, k)
    ensures LiveGrant(env, trace, ops, k + 1, m)
  {
    hide After, Unchanged, ScanValid, LiveWorker, CursorAfter;
    RunQueueStep(env, trace, ops, k);
  }

  /** A stored scan always comes from one grant, still unended. */
  lemma {:induction false} ScanProvenance(env: Env, trace: seq<Tables>, ops: seq<Op>, k: nat) returns (m: nat)
    requires QueueRun(env, trace, ops) && |trace| == |ops| + 1 && k <= |ops|
    requires trace[k].queue.Some? && trace[k].queue.value.scan.Some?
    ensures LiveGrant(env, trace, ops, k, m)
  {
    hide After, Unchanged, ScanValid, LiveWorker, CursorAfter, LiveGrant;
    assert k > 0;
    RunQueueStep(env, trace, ops, k - 1);
    if GrantsAt(env, trace, ops, k - 1) {
      m := k - 1;
      JustGranted(env, trace, ops, k - 1);
    } else {
      m := ScanProvenance(env, trace, ops, k - 1);
      LiveGrantStays(env, trace, ops, k - 1, m);
    }
  }

  lemma JustGranted(env: Env, trace: seq<Tables>, ops: seq<Op>, m: nat)
    requires |trace| == |ops| + 1 && m < |ops| && GrantsAt(env, trace, ops, m)
    ensures LiveGrant(env, trace, ops, m + 1, m)
  {
    hide LiveWorker;
  }

  /** A completion or failure is accepted only from the holder of the one scan
      granted last, under the same revision, within its 120 seconds. */
  lemma ScanFencing(env: Env, trace: seq<Tables>, ops: seq<Op>, k: nat) returns (m: nat)
    requires QueueRun(env, trace, ops) && IdealHash(env) && |trace| == |ops| + 1 && k < |ops|
    requires EndsAt(env, trace, ops, k)
    ensures LiveGrant(env, trace, ops, k, m)
    ensures ops[m].action.scanId == CredentialOf(ops[k]).scanId
    ensures ops[m].action.claim.coordinatorId == CredentialOf(ops[k]).coordinatorId
    ensures ops[m].action.token == CredentialOf(ops[k]).scanToken
    ensures ops[k].now < ops[m].now + SCAN_LEASE
  {
    hide After, CursorAfter, QueueRun;
    m := ScanProvenance(env, trace, ops, k);
    assert env.sha256(ops[m].action.token) == env.sha256(CredentialOf(ops[k]).scanToken);
  }

  lemma EndIsReport(env: Env, trace: seq<Tables>, ops: seq<Op>, k: nat)
    requires |trace| == |ops| + 1 && k < |ops| && EndsAt(env, trace, ops, k)
    ensures ops[k].action.CompleteQueueScan? || ops[k].action.FailQueueScan?
  {
  }

  /** No scan ends twice. */
  lemma ScanEndsOnce(env: Env, trace: seq<Tables>, ops: seq<Op>, j: nat, k: nat)
    requires QueueRun(env, trace, ops) && IdealHash(env) && FreshScanIds(ops) && |trace| == |ops| + 1 && j < k < |ops|
    requires EndsAt(env, trace, ops, j) && EndsAt(env, trace, ops, k)
    ensures CredentialOf(ops[j]).scanId != CredentialOf(ops[k]).scanId
  {
    hide Completes, Fails, QueueRun, IdealHash;
    EndIsReport(env, trace, ops, j);
    EndIsReport(env, trace, ops, k);
    var m := ScanFencing(env, trace, ops, j);
    var n := ScanFencing(env, trace, ops, k);
    if CredentialOf(ops[j]).scanId == CredentialOf(ops[k]).scanId {
      assert false;
    }
  }

  // -------------------------------------------------------------- the revision

  /** The queue row stays, and its revision never falls. */
  lemma {:induction false} RevisionGrows(env: Env, trace: seq<Tables>, ops: seq<Op>, j: nat, k: nat)
    requires QueueRun(env, trace, ops) && |trace| == |ops| + 1 && j <= k <= |ops| && trace[j].queue.Some?
    ensures trace[k].queue.Some? && trace[j].queue.value.revision <= trace[k].queue.value.revision
    ensures trace[j].queue.value.revision == trace[k].queue.value.revision ==>
              trace[j].queue.value.configuration == trace[k].queue.value.configuration
  {
    hide After, Unchanged, LiveWorker, CursorAfter, ScanValid;
    if j < k {
      RevisionGrows(env, trace, ops, j, k - 1);
      RunQueueStep(env, trace, ops, k - 1);
    }
  }

  // ---------------------------------------------------------------- the cursor

  /** The cursor is not later than the other, by instant and then issue id. */
  ghost predicate NotAfter(env: Env, c: Cursor, d: Cursor) {
    CursorAfter(env, c, Some(d)) == Some(false)
  }

  lemma NotAfterOrder(env: Env, a: Cursor, b: Cursor, c: Cursor)
    requires env.instant(c.updatedAt).Some?
    ensures NotAfter(env, c, c)
    ensures NotAfter(env, a, b) && NotAfter(env, b, c) ==> NotAfter(env, a, c)
    ensures NotAfter(env, a, b) && CursorAfter(env, c, Some(b)) == Some(true) ==> NotAfter(env, a, c)
  {
    LexTotal(c.issueId, c.issueId);
    if NotAfter(env, a, b) {
      LexTotal(b.issueId, c.issueId);
      if LexLe(a.issueId, b.issueId) && LexLe(b.issueId, c.issueId) {
        LexTransitive(a.issueId, b.issueId, c.issueId);
      }
    }
  }

  /** Some completion accepted under the current revision reported the cursor. */
  ghost predicate Accepted(env: Env, trace: seq<Tables>, ops: seq<Op>, k: nat, c: Cursor)
    requires |trace| == |ops| + 1 && k <= |ops|
  {
    exists m: nat :: AcceptedAt(env, trace, ops, k, c, m)
  }

  ghost predicate AcceptedAt(env: Env, trace: seq<Tables>, ops: seq<Op>, k: nat, c: Cursor, m: nat)
    requires |trace| == |ops| + 1 && k <= |ops|
  {
    && m < k && Completes(env, trace[m], ops[m], trace[m + 1]) && ops[m].action.completion.cursor == Some(c)
    && trace[m].queue.Some? && trace[k].queue.Some?
    && trace[m].queue.value.revision == trace[k].queue.value.revision
  }

  /** The stored cursor is the greatest accepted one. */
  ghost predicate CursorIsGreatest(env: Env, trace: seq<Tables>, ops: seq<Op>, k: nat)
    requires |trace| == |ops| + 1 && k <= |ops|
  {
    trace[k].queue.Some? ==>
      var stored := trace[k].queue.value.cursor;
      && (stored.Some? ==> env.instant(stored.value.updatedAt).Some? && Accepted(env, trace, ops, k, stored.value))
      && (forall c :: Accepted(env, trace, ops, k, c) ==> stored.Some? && NotAfter(env, c, stored.value))
  }

  /** Acceptance carries over a call that is not a completion of a cursor. */
  lemma AcceptedStep(env: Env, trace: seq<Tables>, ops: seq<Op>, k: nat, c: Cursor)
    requires QueueRun(env, trace, ops) && |trace| == |ops| + 1 && k < |ops|
    ensures Accepted(env, trace, ops, k + 1, c) ==>
      trace[k].queue.Some? &&
      (  (trace[k].queue.value.revision == trace[k + 1].queue.value.revision && Accepted(env, trace, ops, k, c))
      || (Completes(env, trace[k], ops[k], trace[k + 1]) && ops[k].action.completion.cursor == Some(c)))
    ensures Accepted(env, trace, ops, k, c) && trace[k + 1].queue.Some?
      && trace[k].queue.value.revision == trace[k + 1].queue.value.revision
      ==> Accepted(env, trace, ops, k + 1, c)
  {
    hide After, Completes;
    if Accepted(env, trace, ops, k + 1, c) {
      var m: nat :| AcceptedAt(env, trace, ops, k + 1, c, m);
      RevisionGrows(env, trace, ops, m, k);
      RevisionGrows(env, trace, ops, k, k + 1);
      if m < k { assert AcceptedAt(env, trace, ops, k, c, m); }
    }
    if Accepted(env, trace, ops, k, c) && trace[k + 1].queue.Some?
      && trace[k].queue.value.revision == trace[k + 1].queue.value.revision {
      var m: nat :| AcceptedAt(env, trace, ops, k, c, m);
      assert AcceptedAt(env, trace, ops, k + 1, c, m);
    }
  }

  /** What one call does to the stored cursor. */
  lemma CursorStep(env: Env, db: Tables, op: Op, after: Tables)
    requires QueueStep(env, db, op, after) && after.queue.Some?
    ensures (Completes(env, db, op, after) && op.action.completion.cursor.Some?)
         || (db.queue.Some? && after.queue.value.revision == db.queue.value.revision
             && after.queue.value.cursor == db.queue.value.cursor)
         || (after.queue.value.cursor.None?
             && (db.queue.Some? ==> after.queue.value.revision > db.queue.value.revision))
  {
    hide Unchanged, LiveWorker, CursorAfter;
  }

  /** In every run the stored cursor is the greatest one accepted under the revision,
      by instant and then issue id. */
  lemma {:induction false} StoredCursor(env: Env, trace: seq<Tables>, ops: seq<Op>, k: nat)
    requires QueueRun(env, trace, ops) && |trace| == |ops| + 1 && k <= |ops|
    ensures CursorIsGreatest(env, trace, ops, k)
  {
    hide After, QueueStep, Accepted, NotAfter;
    if k > 0 && trace[k].queue.Some? {
      StoredCursor(env, trace, ops, k - 1);
      RunQueueStep(env, trace, ops, k - 1);
      CursorStep(env, trace[k - 1], ops[k - 1], trace[k]);
      if Completes(env, trace[k - 1], ops[k - 1], trace[k]) && ops[k - 1].action.completion.cursor.Some? {
        NewCursor(env, trace, ops, k - 1);
      } else {
        forall c | Accepted(env, trace, ops, k, c)
          ensures trace[k].queue.value.cursor.Some? && NotAfter(env, c, trace[k].queue.value.cursor.value)
        {
          AcceptedStep(env, trace, ops, k - 1, c);
        }
        if trace[k].queue.value.cursor.Some? {
          AcceptedStep(env, trace, ops, k - 1, trace[k].queue.value.cursor.value);
        }
      }
    }
  }

  lemma NewCursor(env: Env, trace: seq<Tables>, ops: seq<Op>, k: nat)
    requires QueueRun(env, trace, ops) && |trace| == |ops| + 1 && k < |ops| && CursorIsGreatest(env, trace, ops, k)
    requires Completes(env, trace[k], ops[k], trace[k + 1]) && ops[k].action.completion.cursor.Some?
    ensures CursorIsGreatest(env, trace, ops, k + 1)
  {
    hide After, QueueStep, Accepted, NotAfter, ScanValid;
    RunQueueStep(env, trace, ops, k);
    CompletesHasQueue(env, trace[k], ops[k], trace[k + 1]);
    var latest := ops[k].action.completion.cursor.value;
    var (prior, stored) := (trace[k].queue.value.cursor, trace[k + 1].queue.value.cursor);
    assert AcceptedAt(env, trace, ops, k + 1, latest, k);
    NowAccepted(env, trace, ops, k + 1, latest, k);
    if prior.Some? { AcceptedStep(env, trace, ops, k, prior.value); }
    forall c | Accepted(env, trace, ops, k + 1, c) ensures stored.Some? && NotAfter(env, c, stored.value) {
      AcceptedStep(env, trace, ops, k, c);
      NotAfterOrder(env, c, if prior.Some? then prior.value else c, stored.value);
      NotAfterDefinition(env, latest, prior);
    }
  }

  lemma NowAccepted(env: Env, trace: seq<Tables>, ops: seq<Op>, k: nat, c: Cursor, m: nat)
    requires |trace| == |ops| + 1 && k <= |ops| && AcceptedAt(env, trace, ops, k, c, m)
    ensures Accepted(env, trace, ops, k, c)
  {
  }

  lemma NotAfterDefinition(env: Env, c: Cursor, d: Option<Cursor>)
    ensures d.Some? ==> (NotAfter(env, c, d.value) <==> CursorAfter(env, c, d) == Some(false))
  {
  }

  lemma CompletesHasQueue(env: Env, db: Tables, op: Op, after: Tables)
    requires Completes(env, db, op, after)
    ensures db.queue.Some? && after.queue.Some? && after.queue.value.revision == db.queue.value.revision
  {
    ValidQueue(env, db.queue, op.action.completion.credential, op.now);
  }

  // ------------------------------------------------------------------- spacing

  /** At clock readings from now on, no scan can be granted before t. */
  ghost predicate HeldOff(queue: Option<Queue>, t: Instant, now: Instant) {
    queue.Some? &&
    var q := queue.value;
    (  !q.enabled || q.configuration.authorityExpiresAt <= now || q.nextScanAt >= t
    || (q.scan.Some? && q.scan.value.id != [] && q.scan.value.expiresAt >= t))
  }

  /** Neither a new configuration nor a rescan request took effect. */
  ghost predicate Undisturbed(env: Env, trace: seq<Tables>, ops: seq<Op>, j: nat, k: nat)
    requires |trace| == |ops| + 1 && k <= |ops|
  {
    forall i :: j <= i < k ==> !Reconfigures(trace[i], ops[i], trace[i + 1]) && !Rescans(trace[i], ops[i], trace[i + 1])
  }

  lemma HeldOffStep(env: Env, db: Tables, op: Op, after: Tables, t: Instant, before: Instant)
    requires QueueStep(env, db, op, after) && HeldOff(db.queue, t, before) && before <= op.now
    requires t <= op.now + 300 * SECOND
    requires !Reconfigures(db, op, after) && !Rescans(db, op, after)
    ensures Grants(env, db, op, after) ==> op.now >= t
    ensures !Grants(env, db, op, after) ==> HeldOff(after.queue, t, op.now)
  {
    hide Unchanged, ScanValid, LiveWorker, CursorAfter;
  }

  lemma {:induction false} HeldOffRun(env: Env, trace: seq<Tables>, ops: seq<Op>, j: nat, k: nat, t: Instant)
    requires QueueRun(env, trace, ops) && |trace| == |ops| + 1 && Clock(ops) && j < k <= |ops|
    requires HeldOff(trace[j + 1].queue, t, ops[j].now) && t <= ops[j].now + 300 * SECOND
    requires Undisturbed(env, trace, ops, j + 1, k) && forall i :: j < i < k ==> !GrantsAt(env, trace, ops, i)
    ensures HeldOff(trace[k].queue, t, ops[k - 1].now)
  {
    hide After, QueueStep, HeldOff;
    if k > j + 1 {
      HeldOffRun(env, trace, ops, j, k - 1, t);
      RunQueueStep(env, trace, ops, k - 1);
      assert !GrantsAt(env, trace, ops, k - 1);
      HeldOffStep(env, trace[k - 1], ops[k - 1], trace[k], t, ops[k - 2].now);
    }
  }

  /** Two successive grants are at least 120 seconds apart; a grant after a
      completed or failed scan comes at least 300 seconds after that ending. */
  lemma ScanSpacing(env: Env, trace: seq<Tables>, ops: seq<Op>, j: nat, k: nat)
    requires QueueRun(env, trace, ops) && |trace| == |ops| + 1 && Clock(ops) && j < k < |ops|
    requires GrantsAt(env, trace, ops, k) && forall i :: j < i < k ==> !GrantsAt(env, trace, ops, i)
    requires Undisturbed(env, trace, ops, j + 1, k)
    ensures GrantsAt(env, trace, ops, j) ==> ops[k].now >= ops[j].now + 120 * SECOND
    ensures EndsAt(env, trace, ops, j) ==> ops[k].now >= ops[j].now + 300 * SECOND
  {
    hide After, QueueStep, LiveWorker, ScanValid, CursorAfter;
    RunQueueStep(env, trace, ops, j);
    RunQueueStep(env, trace, ops, k);
    if GrantsAt(env, trace, ops, j) {
      HeldOffRun(env, trace, ops, j, k, ops[j].now + 120 * SECOND);
      HeldOffStep(env, trace[k], ops[k], trace[k + 1], ops[j].now + 120 * SECOND, ops[k - 1].now);
    }
    if EndsAt(env, trace, ops, j) {
      HeldOffRun(env, trace, ops, j, k, ops[j].now + 300 * SECOND);
      HeldOffStep(env, trace[k], ops[k], trace[k + 1], ops[j].now + 300 * SECOND, ops[k - 1].now);
    }
  }
}
