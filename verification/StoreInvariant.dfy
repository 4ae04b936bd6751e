/**
 The invariant of the coordinator's tables, and what each step can do to one
 job while it holds.
 */
module StoreInvariant {
  import opened Outcomes
  import opened PyText
  import opened Canonical
  import opened StoreTables
  import opened Ledger
  import opened ScanQueue

  // -------------------------------------------------------------- invariant

  /** The stored request is valid and its stored fingerprint is its own. */
  predicate RequestSound(env: Env, r: Request, fp: Text, at: Instant) {
    Validates(env, r, at, true) && Fingerprint(env, RequestDoc(r)) == Some(fp)
  }

  /** Which lease columns are set follows from the state. */
  predicate StateShaped(row: Job) {
    && (row.state.Queued? ==> row.attempts == 0 && row.owner.None? && row.tokenHash.None? && row.expiresAt.None?)
    && (row.state.Running? ==>
        row.attempts >= 1 && row.owner.Some? && row.owner.value != [] && row.tokenHash.Some? && row.expiresAt.Some?)
    && (Terminal(row.state) ==> row.tokenHash.None? && row.expiresAt.None?)
  }

  ghost predicate RowsSound(env: Env, db: Tables) {
    forall id :: id in db.jobs ==>
      && db.jobs[id].request.id == id
      && Authentic(env, db.jobs[id])
      && StateShaped(db.jobs[id])
      && RequestSound(env, db.jobs[id].request, db.jobs[id].requestFingerprint, db.jobs[id].createdAt)
  }

  predicate SameKey(a: Job, b: Job) {
    a.request.idempotencyKey == b.request.idempotencyKey
  }

  ghost predicate KeysUnique(db: Tables) {
    forall i, j :: i in db.jobs && j in db.jobs && SameKey(db.jobs[i], db.jobs[j]) ==> i == j
  }

  ghost predicate EventsSound(db: Tables) {
    forall s :: s in db.events ==> 1 <= s <= db.eventSeq && db.events[s].jobId in db.jobs
  }

  ghost predicate Newest(db: Tables, id: Text, s: nat) {
    && s in db.events && db.events[s].jobId == id
    && forall n :: n in db.events && db.events[n].jobId == id ==> n <= s
  }

  ghost predicate EndLogged(db: Tables, id: Text)
    requires id in db.jobs
  {
    exists s :: Newest(db, id, s) && db.events[s].kind == TerminalKind(db.jobs[id].state)
  }

  ghost predicate TerminalLogged(db: Tables) {
    forall id :: id in db.jobs && Terminal(db.jobs[id].state) ==> EndLogged(db, id)
  }

  predicate ReceiptBound(env: Env, row: Job, r: Receipt) {
    && row.attempts >= 1
    && r.provider == row.request.executionHost
    && Fingerprint(env, ReceiptDoc(row.request, r.provider, r.operation, r.status, r.payload)) == Some(r.fingerprint)
  }

  ghost predicate ReceiptsSound(env: Env, db: Tables) {
    && (forall k :: k in db.receipts ==>
          db.receipts[k].jobId in db.jobs && ReceiptBound(env, db.jobs[db.receipts[k].jobId], db.receipts[k]))
    && (forall j, k :: j in db.receipts && k in db.receipts && SameReceiptKey(db.receipts[j], db.receipts[k]) ==>
        j == k)
  }

  /** A candidate's readback job exists and its key names that candidate. */
  ghost predicate LinkSound(env: Env, db: Tables, k: Text)
    requires k in db.candidates
  {
    var row := db.candidates[k];
    && row.observation.candidateFingerprint == k
    && (row.readbackJobId.Some? ==>
          row.readbackJobId.value in db.jobs
          && NamesCandidate(env, db.jobs[row.readbackJobId.value].request.idempotencyKey, k))
  }

  ghost predicate NamesCandidate(env: Env, key: Text, k: Text) {
    exists c: Configuration, o: Observation :: o.candidateFingerprint == k && key == ReadbackKey(env, c, o)
  }

  ghost predicate LinksSound(env: Env, db: Tables) {
    forall k :: k in db.candidates ==> LinkSound(env, db, k)
  }

  ghost predicate Sound(env: Env, db: Tables) {
    && RowsSound(env, db) && KeysUnique(db)
    && EventsSound(db) && TerminalLogged(db)
    && ReceiptsSound(env, db) && LinksSound(env, db)
  }

  // ------------------------------------------------- what one job can undergo

  ghost predicate SameEvents(db: Tables, after: Tables, id: Text) {
    && (forall s :: s in db.events && db.events[s].jobId == id ==> s in after.events && after.events[s] == db.events[s])
    && (forall s :: s in after.events && after.events[s].jobId == id ==> s in db.events && db.events[s].jobId == id)
  }

  /** Exactly one event of the job more, numbered above all others. */
  ghost predicate OneEvent(db: Tables, after: Tables, id: Text, kind: string) {
    && after.eventSeq == db.eventSeq + 1
    && after.eventSeq in after.events
    && after.events[after.eventSeq].jobId == id && after.events[after.eventSeq].kind == kind
    && (forall s :: s in db.events && db.events[s].jobId == id ==> s in after.events && after.events[s] == db.events[s])
    && (forall s :: s in after.events && after.events[s].jobId == id && s != after.eventSeq ==>
        s in db.events && db.events[s].jobId == id)
  }

  ghost predicate SameReceipts(db: Tables, after: Tables, id: Text) {
    && (forall k :: k in db.receipts && db.receipts[k].jobId == id ==>
        k in after.receipts && after.receipts[k] == db.receipts[k])
    && (forall k :: k in after.receipts && after.receipts[k].jobId == id ==>
        k in db.receipts && db.receipts[k].jobId == id)
  }

  ghost predicate Kept(db: Tables, after: Tables, id: Text)
    requires id in db.jobs
  {
    && id in after.jobs && after.jobs[id] == db.jobs[id]
    && SameEvents(db, after, id) && SameReceipts(db, after, id)
  }

  ghost predicate OthersKept(db: Tables, after: Tables, id: Text) {
    forall j :: j in db.jobs && j != id ==> Kept(db, after, j)
  }

  ghost predicate AllKept(db: Tables, after: Tables) {
    forall j :: j in db.jobs ==> Kept(db, after, j)
  }

  /** Jobs that were not there before are queued, and stamped with the time. */
  ghost predicate NewQueued(db: Tables, after: Tables, now: Instant) {
    forall j :: j in after.jobs && j !in db.jobs ==> after.jobs[j].state.Queued? && after.jobs[j].createdAt == now
  }

  // ------------------------------------------------------- elementary updates

  ghost predicate OtherTablesSame(db: Tables, after: Tables) {
    && after.quarantined == db.quarantined && after.heartbeat == db.heartbeat
    && after.queue == db.queue && after.candidates == db.candidates && after.queueEvents == db.queueEvents
  }

  /** One job row replaced by a signed one, one event of that job added. */
  ghost predicate Advances(env: Env, db: Tables, after: Tables, row: Job, kind: string) {
    var id := row.request.id;
    && after.jobs == db.jobs[id := Sign(env, row)]
    && after.receipts == db.receipts
    && OneEvent(db, after, id, kind)
    && OthersKept(db, after, id)
    && OtherTablesSame(db, after)
  }

  lemma AppendEffect(env: Env, db: Tables, id: Text, kind: string, payload: Json, now: Instant)
    requires EventsSound(db) && AppendEvent(env, db, id, kind, payload, now).Done?
    ensures var after := AppendEvent(env, db, id, kind, payload, now).db;
            && id in db.jobs
            && after == db.(eventSeq := after.eventSeq, events := after.events)
            && OneEvent(db, after, id, kind) && EventsSound(after)
            && (forall j :: j != id ==> SameEvents(db, after, j))
  {
  }

  /** An event appended to the log of a signed row. */
  lemma AppendAdvances(env: Env, db: Tables, id: Text, kind: string, payload: Json, now: Instant)
    requires EventsSound(db) && AppendEvent(env, db, id, kind, payload, now).Done?
    requires id in db.jobs && db.jobs[id].request.id == id && Authentic(env, db.jobs[id])
    ensures Advances(env, db, AppendEvent(env, db, id, kind, payload, now).db, db.jobs[id], kind)
    ensures EventsSound(AppendEvent(env, db, id, kind, payload, now).db)
  {
    AppendEffect(env, db, id, kind, payload, now);
    var after := AppendEvent(env, db, id, kind, payload, now).db;
    assert Sign(env, db.jobs[id]) == db.jobs[id];
    forall j | j in db.jobs && j != id ensures Kept(db, after, j) {}
  }

  lemma JournalAdvances(env: Env, db: Tables, row: Job, kind: string, payload: Json, now: Instant)
    requires EventsSound(db) && row.request.id in db.jobs && Journal(env, db, row, kind, payload, now).Done?
    ensures Advances(env, db, Journal(env, db, row, kind, payload, now).db, row, kind)
    ensures EventsSound(Journal(env, db, row, kind, payload, now).db)
  {
    var stored := Store(env, db, row);
    AppendEffect(env, stored, row.request.id, kind, payload, now);
    var after := Journal(env, db, row, kind, payload, now).db;
    forall j | j in db.jobs && j != row.request.id ensures Kept(db, after, j) {
      assert SameEvents(stored, after, j);
    }
  }

  /** The new row may replace the old one. */
  ghost predicate MayFollow(db: Tables, row: Job, kind: string) {
    var id := row.request.id;
    && id in db.jobs && !Terminal(db.jobs[id].state)
    && row.request == db.jobs[id].request && row.requestFingerprint == db.jobs[id].requestFingerprint
    && StateShaped(row) && row.attempts >= db.jobs[id].attempts && row.createdAt == db.jobs[id].createdAt
    && (Terminal(row.state) ==> kind == TerminalKind(row.state))
  }

  lemma AdvanceKeepsRows(env: Env, db: Tables, after: Tables, row: Job, kind: string)
    requires RowsSound(env, db) && KeysUnique(db)
    requires MayFollow(db, row, kind) && Advances(env, db, after, row, kind)
    ensures RowsSound(env, after) && KeysUnique(after)
  {
    hide RequestSound, SameEvents, SameReceipts, Terminal, KeysUnique;
    var id := row.request.id;
    forall j | j in after.jobs
      ensures after.jobs[j].request.id == j && Authentic(env, after.jobs[j]) && StateShaped(after.jobs[j])
      ensures RequestSound(env, after.jobs[j].request, after.jobs[j].requestFingerprint, after.jobs[j].createdAt)
    {
      assert j in db.jobs;
    }
    KeysKept(db, after);
  }

  lemma KeysKept(db: Tables, after: Tables)
    requires KeysUnique(db)
    requires forall j :: j in after.jobs ==> j in db.jobs && after.jobs[j].request == db.jobs[j].request
    ensures KeysUnique(after)
  {
    forall i, j | i in after.jobs && j in after.jobs && SameKey(after.jobs[i], after.jobs[j]) ensures i == j {
      assert SameKey(db.jobs[i], db.jobs[j]);
    }
  }

  lemma AdvanceKeepsLog(env: Env, db: Tables, after: Tables, row: Job, kind: string)
    requires EventsSound(db) && TerminalLogged(db) && EventsSound(after)
    requires MayFollow(db, row, kind) && Advances(env, db, after, row, kind)
    ensures TerminalLogged(after)
  {
    var id := row.request.id;
    forall j | j in after.jobs && Terminal(after.jobs[j].state) ensures EndLogged(after, j) {
      if j == id {
        assert Newest(after, id, after.eventSeq);
      } else {
        assert Kept(db, after, j) && EndLogged(db, j);
        var s :| Newest(db, j, s) && db.events[s].kind == TerminalKind(db.jobs[j].state);
        assert Newest(after, j, s);
      }
    }
  }

  lemma AdvanceKeepsReceipts(env: Env, db: Tables, after: Tables, row: Job, kind: string)
    requires ReceiptsSound(env, db)
    requires MayFollow(db, row, kind) && Advances(env, db, after, row, kind)
    ensures ReceiptsSound(env, after)
  {
    forall k | k in after.receipts
      ensures after.receipts[k].jobId in after.jobs
      ensures ReceiptBound(env, after.jobs[after.receipts[k].jobId], after.receipts[k])
    {
      assert k in db.receipts && ReceiptBound(env, db.jobs[db.receipts[k].jobId], db.receipts[k]);
    }
  }

  lemma AdvanceKeepsLinks(env: Env, db: Tables, after: Tables, row: Job, kind: string)
    requires LinksSound(env, db)
    requires MayFollow(db, row, kind) && Advances(env, db, after, row, kind)
    ensures LinksSound(env, after)
  {
    forall k | k in after.candidates ensures LinkSound(env, after, k) {
      assert LinkSound(env, db, k);
    }
  }

  lemma AdvanceSound(env: Env, db: Tables, after: Tables, row: Job, kind: string)
    requires Sound(env, db) && EventsSound(after)
    requires MayFollow(db, row, kind) && Advances(env, db, after, row, kind)
    ensures Sound(env, after)
  {
    AdvanceKeepsRows(env, db, after, row, kind);
    AdvanceKeepsLog(env, db, after, row, kind);
    AdvanceKeepsReceipts(env, db, after, row, kind);
    AdvanceKeepsLinks(env, db, after, row, kind);
  }

  // ------------------------------------------------- what the step proofs use

  lemma SoundRow(env: Env, db: Tables, id: Text)
    requires Sound(env, db) && id in db.jobs
    ensures db.jobs[id].request.id == id && Authentic(env, db.jobs[id]) && StateShaped(db.jobs[id])
  {
  }

  lemma SoundEvents(env: Env, db: Tables)
    requires Sound(env, db)
    ensures EventsSound(db)
  {
  }

  lemma JournalSound(env: Env, db: Tables, row: Job, kind: string, payload: Json, now: Instant)
    requires Sound(env, db) && MayFollow(db, row, kind) && Journal(env, db, row, kind, payload, now).Done?
    ensures var after := Journal(env, db, row, kind, payload, now).db;
            Sound(env, after) && Advances(env, db, after, row, kind)
  {
    JournalAdvances(env, db, row, kind, payload, now);
    AdvanceSound(env, db, Journal(env, db, row, kind, payload, now).db, row, kind);
  }

  lemma AppendSound(env: Env, db: Tables, id: Text, kind: string, payload: Json, now: Instant)
    requires Sound(env, db) && id in db.jobs && !Terminal(db.jobs[id].state)
    requires AppendEvent(env, db, id, kind, payload, now).Done?
    ensures var after := AppendEvent(env, db, id, kind, payload, now).db;
            Sound(env, after) && Advances(env, db, after, db.jobs[id], kind)
  {
    SoundRow(env, db, id);
    AppendAdvances(env, db, id, kind, payload, now);
    AdvanceSound(env, db, AppendEvent(env, db, id, kind, payload, now).db, db.jobs[id], kind);
  }

  lemma TerminalKept(db: Tables, after: Tables)
    requires TerminalLogged(db)
    requires forall j :: j in after.jobs && Terminal(after.jobs[j].state) ==>
               j in db.jobs && after.jobs[j] == db.jobs[j] && SameEvents(db, after, j)
    ensures TerminalLogged(after)
  {
    forall j | j in after.jobs && Terminal(after.jobs[j].state) ensures EndLogged(after, j) {
      assert EndLogged(db, j);
      var s :| Newest(db, j, s) && db.events[s].kind == TerminalKind(db.jobs[j].state);
      assert Newest(after, j, s);
    }
  }

  lemma SameJobs(env: Env, db: Tables, after: Tables)
    requires RowsSound(env, db) && KeysUnique(db) && after.jobs == db.jobs
    ensures RowsSound(env, after) && KeysUnique(after)
  {
    hide RequestSound, Authentic, StateShaped;
  }

  lemma LinksKept(env: Env, db: Tables, after: Tables)
    requires LinksSound(env, db) && after.candidates == db.candidates
    requires forall j :: j in db.jobs ==> j in after.jobs && after.jobs[j] == db.jobs[j]
    ensures LinksSound(env, after)
  {
    forall k | k in after.candidates ensures LinkSound(env, after, k) { assert LinkSound(env, db, k); }
  }

  lemma ReceiptsKept(env: Env, db: Tables, after: Tables)
    requires ReceiptsSound(env, db) && after.receipts == db.receipts
    requires forall j :: j in db.jobs ==> j in after.jobs && after.jobs[j] == db.jobs[j]
    ensures ReceiptsSound(env, after)
  {
    hide ReceiptBound;
  }

  /** A change that leaves jobs, events, receipts and candidates alone. */
  lemma QueueOnlySound(env: Env, db: Tables, after: Tables)
    requires Sound(env, db)
    requires after.jobs == db.jobs && after.events == db.events && after.eventSeq == db.eventSeq
    requires after.receipts == db.receipts && after.candidates == db.candidates
    ensures Sound(env, after) && AllKept(db, after)
  {
    hide ReceiptBound, RowsSound, KeysUnique, TerminalLogged, LinksSound;
    SameJobs(env, db, after);
    LinksKept(env, db, after);
    TerminalKept(db, after);
  }

  /** One more receipt of a claimed job, bound to it, under a key of its own. */
  lemma ReceiptInsertSound(env: Env, db: Tables, rid: Text, r: Receipt)
    requires Sound(env, db) && rid !in db.receipts
    requires r.jobId in db.jobs && ReceiptBound(env, db.jobs[r.jobId], r)
    requires forall k :: k in db.receipts ==> !SameReceiptKey(db.receipts[k], r)
    ensures Sound(env, db.(receipts := db.receipts[rid := r]))
  {
    hide ReceiptBound, RowsSound, KeysUnique, LinksSound, TerminalLogged;
    var after := db.(receipts := db.receipts[rid := r]);
    SameJobs(env, db, after);
    LinksKept(env, db, after);
    TerminalKept(db, after);
    forall k | k in after.receipts
      ensures after.receipts[k].jobId in after.jobs
      ensures ReceiptBound(env, after.jobs[after.receipts[k].jobId], after.receipts[k])
    {
      assert k == rid || k in db.receipts;
    }
    forall j, k | j in after.receipts && k in after.receipts && SameReceiptKey(after.receipts[j], after.receipts[k])
      ensures j == k {
    }
  }

  ghost predicate Inserts(env: Env, db: Tables, after: Tables, r: Request, fp: Text, now: Instant) {
    && r.id !in db.jobs
    && after.jobs == db.jobs[r.id := Sign(env, NewRow(r, fp, now))]
    && after.receipts == db.receipts
    && OneEvent(db, after, r.id, "job_queued")
    && AllKept(db, after)
    && OtherTablesSame(db, after)
  }

  /** A new job with its first event. */
  lemma CreateInserts(env: Env, db: Tables, r: Request, fp: Text, now: Instant)
    requires EventsSound(db) && InsertJob(env, db, r, fp, now).Done?
    ensures var after := InsertJob(env, db, r, fp, now).db;
            Inserts(env, db, after, r, fp, now) && EventsSound(after)
  {
    hide QueuedNotice, Sign, SameEvents, Kept, AppendEvent, NewRow;
    var inserted := db.(jobs := db.jobs[r.id := NewRow(r, fp, now)]);
    AppendEffect(env, inserted, r.id, "job_queued", QueuedNotice(r), now);
    var logged := AppendEvent(env, inserted, r.id, "job_queued", QueuedNotice(r), now).db;
    var after := InsertJob(env, db, r, fp, now).db;
    NewRowId(r, fp, now);
    assert after == Store(env, logged, NewRow(r, fp, now));
    assert forall j :: j != r.id ==> SameEvents(inserted, logged, j);
    StoreKeepsEvents(env, inserted, logged, NewRow(r, fp, now));
    InsertKeepsOthers(db, inserted, after, r.id);
  }

  lemma NewRowId(r: Request, fp: Text, now: Instant)
    ensures NewRow(r, fp, now).request.id == r.id
  {
  }

  lemma StoreKeepsEvents(env: Env, db: Tables, after: Tables, row: Job)
    requires forall j :: j != row.request.id ==> SameEvents(db, after, j)
    ensures forall j :: j != row.request.id ==> SameEvents(db, Store(env, after, row), j)
  {
    forall j | j != row.request.id ensures SameEvents(db, Store(env, after, row), j) {
      assert SameEvents(db, after, j);
    }
  }

  lemma InsertKeepsOthers(db: Tables, inserted: Tables, after: Tables, id: Text)
    requires id !in db.jobs && inserted.events == db.events && inserted.receipts == db.receipts
    requires after.receipts == inserted.receipts
    requires forall j :: j != id ==> SameEvents(inserted, after, j)
    requires forall j :: j in db.jobs ==> j in after.jobs && after.jobs[j] == db.jobs[j]
    ensures AllKept(db, after)
  {
    forall j | j in db.jobs ensures Kept(db, after, j) {
      assert SameEvents(inserted, after, j);
    }
  }

  lemma InsertKeepsRows(env: Env, db: Tables, after: Tables, r: Request, fp: Text, now: Instant)
    requires RowsSound(env, db) && KeysUnique(db) && Inserts(env, db, after, r, fp, now)
    requires RequestSound(env, r, fp, now)
    requires forall id :: id in db.jobs ==> db.jobs[id].request.idempotencyKey != r.idempotencyKey
    ensures RowsSound(env, after) && KeysUnique(after)
  {
    hide RequestSound, Kept;
    forall j | j in after.jobs
      ensures after.jobs[j].request.id == j && Authentic(env, after.jobs[j]) && StateShaped(after.jobs[j])
      ensures RequestSound(env, after.jobs[j].request, after.jobs[j].requestFingerprint, after.jobs[j].createdAt)
    {
      assert j == r.id || j in db.jobs;
    }
    forall i, j | i in after.jobs && j in after.jobs && SameKey(after.jobs[i], after.jobs[j]) ensures i == j {
      if i != r.id && j != r.id { assert SameKey(db.jobs[i], db.jobs[j]); }
    }
  }

  lemma InsertSound(env: Env, db: Tables, after: Tables, r: Request, fp: Text, now: Instant)
    requires Sound(env, db) && Inserts(env, db, after, r, fp, now) && EventsSound(after)
    requires RequestSound(env, r, fp, now)
    requires forall id :: id in db.jobs ==> db.jobs[id].request.idempotencyKey != r.idempotencyKey
    ensures Sound(env, after)
  {
    hide RequestSound, RowsSound, KeysUnique, EventsSound, LinksSound, ReceiptsSound, EndLogged, SameReceipts;
    InsertKeepsRows(env, db, after, r, fp, now);
    assert forall j :: j in db.jobs ==> Kept(db, after, j);
    LinksKept(env, db, after);
    ReceiptsKept(env, db, after);
    TerminalKept(db, after);
  }

  /** What a creation that finished left. */
  ghost predicate CreatedJob(env: Env, db: Tables, r: Request, after: Tables, c: Created, now: Instant) {
    && Sound(env, after) && AllKept(db, after) && NewQueued(db, after, now) && OtherTablesSame(db, after)
    && c.row.request.id in after.jobs && after.jobs[c.row.request.id] == c.row
    && c.row.request.idempotencyKey == r.idempotencyKey
    && Some(c.row.requestFingerprint) == Fingerprint(env, RequestDoc(r))
    && (c.isNew <==> c.row.request.id !in db.jobs)
    && (c.isNew ==> c.row.request == r) && (!c.isNew ==> after == db)
  }

  lemma InsertedSound(env: Env, db: Tables, r: Request, fp: Text, now: Instant)
    requires Sound(env, db) && Validates(env, r, now, true) && Fingerprint(env, RequestDoc(r)) == Some(fp)
    requires forall id :: id in db.jobs ==> db.jobs[id].request.idempotencyKey != r.idempotencyKey
    ensures match InsertJob(env, db, r, fp, now)
            case Raised(_, e) => !e.JobIntegrityInvalid?
            case Done(after, c) => CreatedJob(env, db, r, after, c, now)
  {
    hide Fingerprint, RequestDoc, RowsSound, KeysUnique, EventsSound, TerminalLogged, ReceiptsSound, LinksSound,
         Validates, QueuedNotice;
    if InsertJob(env, db, r, fp, now).Done? {
      SoundEvents(env, db);
      CreateInserts(env, db, r, fp, now);
      InsertSound(env, db, InsertJob(env, db, r, fp, now).db, r, fp, now);
    }
  }

  /** Creating a valid job keeps the invariant and every job there was. */
  lemma CreateSound(env: Env, db: Tables, r: Request, now: Instant)
    requires Sound(env, db) && Validates(env, r, now, true)
    ensures match CreateLocked(env, db, r, now)
            case Raised(_, e) => !e.JobIntegrityInvalid?
            case Done(after, c) => CreatedJob(env, db, r, after, c, now)
  {
    hide Fingerprint, RequestDoc, InsertJob, RowsSound, KeysUnique, EventsSound, TerminalLogged, ReceiptsSound,
         LinksSound, Validates;
    match FindByKey(db.jobs, r.idempotencyKey)
    case Some(id) =>
      SoundRow(env, db, id);
      assert AllKept(db, db);
    case None =>
      if Fingerprint(env, RequestDoc(r)).Some? {
        InsertedSound(env, db, r, Fingerprint(env, RequestDoc(r)).value, now);
      }
  }
}
