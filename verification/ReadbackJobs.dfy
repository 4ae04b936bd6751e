/**
 What an accepted scan stores: its candidates' rows, and the job that reads each of
 them back, field by field.
 */
module ReadbackJobs {
  import opened PyText
  import opened Canonical
  import opened StoreTables
  import opened Ledger
  import opened ScanQueue
  import opened Coordinator
  import opened StoreInvariant
  import opened QueueSteps
  import opened QueueRuns
  import opened Bindings
  import opened JsonDocs

  // ----------------------------------------------------------- the readback request

  /** A fingerprint without its algorithm, at most 32 digits of it. */
  function Short(fp: Text): Text {
    var bare := if A("sha256:") <= fp then fp[|"sha256:"|..] else fp;
    if |bare| > 32 then bare[..32] else bare
  }

  /** The request is for this candidate, under this configuration: whom it names, what
      it may do, and under which authority. */
  ghost predicate ReadsBack(env: Env, c: Configuration, o: Observation, now: Instant, r: Request) {
    && r.executionHost.Linear?
    && r.missionId == A("linear-queue-") + Short(c.configurationFingerprint)
    && r.nodeId == A("linear-candidate-") + Short(o.candidateFingerprint)
    && r.id == A("companion-") + Short(r.idempotencyKey)
    && r.envelope.authorizationFingerprint == c.authorityFingerprint
    && PayloadReadsBack(env, c, o, now, r.payload)
    && KeyedByIdentity(env, c, o, r)
  }

  predicate PayloadReadsBack(env: Env, c: Configuration, o: Observation, now: Instant, p: Json) {
    && Get(p, "version") == Int(1) && Get(p, "graphRevision") == Int(0)
    && Get(p, "executionHost") == Str(A("headless_runtime"))
    && Get(p, "objective") == Str(env.readbackObjective)
    && Get(Get(p, "inputs"), "issueId") == Str(o.issueId)
    && Get(Get(p, "inputs"), "credentialReferenceId") == Str(c.credentialReferenceId)
    && Get(Get(p, "inputs"), "projectBindingId") == Str(c.queueProjectId)
    && Get(Get(p, "inputs"), "contractFingerprint") == Str(o.workItemFingerprint)
    && Get(Get(p, "inputs"), "queueCandidateFingerprint") == Str(o.candidateFingerprint)
    && Get(p, "allowedTools") == Arr([Str(A("linear_get_issue"))])
    && Get(p, "requiredCapabilities") == Arr([Str(A("linear.issue.read"))])
    && OneBinding(c, Get(p, "bindings"))
    && Get(p, "authorization") == c.authority && Get(p, "preparedExternalActionHandoff") == Null
    && Get(p, "createdAt") == Str(env.iso(now)) && Get(p, "updatedAt") == Str(env.iso(now))
  }

  predicate OneBinding(c: Configuration, v: Json) {
    && v.Arr? && |v.items| == 1
    && Get(v.items[0], "id") == Str(c.queueProjectId)
    && Get(v.items[0], "kind") == Str(A("linear-project"))
    && Get(v.items[0], "destinationFingerprint") == Str(c.queueBindingFingerprint)
  }

  /** The envelope's fingerprint and the key are digests of documents with these fields. */
  ghost predicate KeyedByIdentity(env: Env, c: Configuration, o: Observation, r: Request) {
    exists capability: Json, identity: Json ::
      IdentityOf(env, c, o, r, capability, identity)
  }

  predicate IdentityOf(env: Env, c: Configuration, o: Observation, r: Request, capability: Json, identity: Json) {
    && Safe(capability) && r.envelope.fingerprint == A("sha256:") + env.sha256(Serialize(capability))
    && Get(capability, "version") == Int(1)
    && Get(capability, "kind") == Str(A("linear_queue_candidate_readback"))
    && Get(capability, "configurationFingerprint") == Str(c.configurationFingerprint)
    && Get(capability, "queueBindingFingerprint") == Str(c.queueBindingFingerprint)
    && Get(capability, "candidateFingerprint") == Str(o.candidateFingerprint)
    && Get(capability, "authorityFingerprint") == Str(c.authorityFingerprint)
    && Safe(identity) && r.idempotencyKey == A("sha256:") + env.sha256(Serialize(identity))
    && Get(identity, "version") == Int(1) && Get(identity, "graphRevision") == Int(0)
    && Get(identity, "missionId") == Str(r.missionId) && Get(identity, "nodeId") == Str(r.nodeId)
    && Get(identity, "capabilityEnvelopeFingerprint") == Str(r.envelope.fingerprint)
    && Get(identity, "authorizationFingerprint") == Str(c.authorityFingerprint)
    && |capability.entries| == |identity.entries| == 6
  }

  lemma InputsRead(c: Configuration, o: Observation)
    ensures var v := ReadbackInputs(c, o);
      && Get(v, "issueId") == Str(o.issueId) && Get(v, "credentialReferenceId") == Str(c.credentialReferenceId)
      && Get(v, "projectBindingId") == Str(c.queueProjectId)
      && Get(v, "contractFingerprint") == Str(o.workItemFingerprint)
      && Get(v, "queueCandidateFingerprint") == Str(o.candidateFingerprint)
  {
    var keys := ["issueId", "credentialReferenceId", "projectBindingId", "contractFingerprint",
                 "queueCandidateFingerprint"];
    var values := [Str(o.issueId), Str(c.credentialReferenceId), Str(c.queueProjectId),
                   Str(o.workItemFingerprint), Str(o.candidateFingerprint)];
    hide Get, Doc, A;
    FieldsOfDoc(keys, values);
    assert Get(Doc(keys, values), keys[0]) == values[0] && Get(Doc(keys, values), keys[1]) == values[1];
    assert Get(Doc(keys, values), keys[2]) == values[2] && Get(Doc(keys, values), keys[3]) == values[3];
    assert Get(Doc(keys, values), keys[4]) == values[4];
  }

  lemma BindingRead(c: Configuration)
    ensures OneBinding(c, Arr([ReadbackBinding(c)]))
  {
    var keys := ["id", "kind", "destinationFingerprint"];
    var values := [Str(c.queueProjectId), Str(A("linear-project")), Str(c.queueBindingFingerprint)];
    hide Get, Doc, A;
    FieldsOfDoc(keys, values);
    assert Get(Doc(keys, values), keys[0]) == values[0] && Get(Doc(keys, values), keys[1]) == values[1];
    assert Get(Doc(keys, values), keys[2]) == values[2];
  }

  lemma PayloadRead(env: Env, c: Configuration, o: Observation, now: Instant)
    ensures PayloadReadsBack(env, c, o, now, ReadbackPayload(env, c, o, now))
  {
    var keys := ["version", "graphRevision", "executionHost", "objective", "inputs", "allowedTools",
                 "requiredCapabilities", "bindings", "authorization", "preparedExternalActionHandoff",
                 "createdAt", "updatedAt"];
    PayloadKeys();
    InputsRead(c, o);
    BindingRead(c);
    hide Get, Doc, A, ReadbackInputs, ReadbackBinding, OneBinding;
    var at := Str(env.iso(now));
    var values := [Int(1), Int(0), Str(A("headless_runtime")), Str(env.readbackObjective), ReadbackInputs(c, o),
                   Arr([Str(A("linear_get_issue"))]), Arr([Str(A("linear.issue.read"))]),
                   Arr([ReadbackBinding(c)]), c.authority, Null, at, at];
    FieldsOfDoc(keys, values);
    var p := Doc(keys, values);
    assert ReadbackPayload(env, c, o, now) == p;
    assert Get(p, keys[0]) == values[0] && Get(p, keys[1]) == values[1] && Get(p, keys[2]) == values[2];
    assert Get(p, keys[3]) == values[3] && Get(p, keys[4]) == values[4] && Get(p, keys[5]) == values[5];
    assert Get(p, keys[6]) == values[6] && Get(p, keys[7]) == values[7] && Get(p, keys[8]) == values[8];
    assert Get(p, keys[9]) == values[9] && Get(p, keys[10]) == values[10] && Get(p, keys[11]) == values[11];
  }

  lemma PayloadKeys()
    ensures Distinct(["version", "graphRevision", "executionHost", "objective", "inputs", "allowedTools",
                      "requiredCapabilities", "bindings", "authorization", "preparedExternalActionHandoff",
                      "createdAt", "updatedAt"])
  {
    assert "graphRevision"[0] != "executionHost"[0] && "allowedTools"[1] != "authorization"[1];
  }

  lemma CapabilityRead(c: Configuration, o: Observation)
    ensures var v := CapabilityDoc(c, o);
      && v.Obj? && |v.entries| == 6 && Get(v, "version") == Int(1)
      && Get(v, "kind") == Str(A("linear_queue_candidate_readback"))
      && Get(v, "configurationFingerprint") == Str(c.configurationFingerprint)
      && Get(v, "queueBindingFingerprint") == Str(c.queueBindingFingerprint)
      && Get(v, "candidateFingerprint") == Str(o.candidateFingerprint)
      && Get(v, "authorityFingerprint") == Str(c.authorityFingerprint)
  {
    var keys := ["version", "kind", "configurationFingerprint", "queueBindingFingerprint", "candidateFingerprint",
                 "authorityFingerprint"];
    assert "candidateFingerprint"[0] != "authorityFingerprint"[0];
    var values := [Int(1), Str(A("linear_queue_candidate_readback")), Str(c.configurationFingerprint),
                   Str(c.queueBindingFingerprint), Str(o.candidateFingerprint), Str(c.authorityFingerprint)];
    hide Get, Doc, A;
    FieldsOfDoc(keys, values);
    DocIsObject(keys, values);
    var p := Doc(keys, values);
    assert CapabilityDoc(c, o) == p;
    assert Get(p, keys[0]) == values[0] && Get(p, keys[1]) == values[1] && Get(p, keys[2]) == values[2];
    assert Get(p, keys[3]) == values[3] && Get(p, keys[4]) == values[4] && Get(p, keys[5]) == values[5];
  }

  lemma IdentityRead(env: Env, c: Configuration, o: Observation)
    ensures Safe(CapabilityDoc(c, o))
    ensures var v := IdentityDoc(env, c, o);
      && v.Obj? && |v.entries| == 6 && Get(v, "version") == Int(1) && Get(v, "graphRevision") == Int(0)
      && Get(v, "missionId") == Str(MissionId(c)) && Get(v, "nodeId") == Str(NodeId(o))
      && Get(v, "capabilityEnvelopeFingerprint") == Str(Digest(env, CapabilityDoc(c, o)))
      && Get(v, "authorizationFingerprint") == Str(c.authorityFingerprint)
  {
    CapabilitySafe(c, o);
    var keys := ["version", "missionId", "nodeId", "graphRevision", "capabilityEnvelopeFingerprint",
                 "authorizationFingerprint"];
    hide Get, Doc, A, MissionId, NodeId, Digest, Safe, CapabilityDoc;
    var values := [Int(1), Str(MissionId(c)), Str(NodeId(o)), Int(0), Str(Digest(env, CapabilityDoc(c, o))),
                   Str(c.authorityFingerprint)];
    FieldsOfDoc(keys, values);
    DocIsObject(keys, values);
    var p := Doc(keys, values);
    assert IdentityDoc(env, c, o) == p;
    assert Get(p, keys[0]) == values[0] && Get(p, keys[1]) == values[1] && Get(p, keys[2]) == values[2];
    assert Get(p, keys[3]) == values[3] && Get(p, keys[4]) == values[4] && Get(p, keys[5]) == values[5];
  }

  lemma ShortIsSuffix(fp: Text)
    ensures Suffix32(fp) == Short(fp)
  {
    assert |A("sha256:")| == 7;
  }

  lemma IdsRead(env: Env, c: Configuration, o: Observation, now: Instant)
    ensures var r := ReadbackRequest(env, c, o, now);
      && r.executionHost.Linear? && r.missionId == MissionId(c) && r.nodeId == NodeId(o)
      && r.missionId == A("linear-queue-") + Short(c.configurationFingerprint)
      && r.nodeId == A("linear-candidate-") + Short(o.candidateFingerprint)
      && r.id == A("companion-") + Short(r.idempotencyKey)
      && r.envelope.authorizationFingerprint == c.authorityFingerprint
      && Safe(CapabilityDoc(c, o)) && r.envelope.fingerprint == Digest(env, CapabilityDoc(c, o))
      && r.payload == ReadbackPayload(env, c, o, now) && r.idempotencyKey == ReadbackKey(env, c, o)
  {
    CapabilitySafe(c, o);
    hide CapabilityDoc, Digest, ReadbackKey, ReadbackPayload, Short, Suffix32, Safe, A;
    ShortIsSuffix(c.configurationFingerprint);
    ShortIsSuffix(o.candidateFingerprint);
    ShortIsSuffix(ReadbackKey(env, c, o));
  }

  /** The job that a candidate is scheduled with reads that candidate back. */
  lemma RequestReadsBack(env: Env, c: Configuration, o: Observation, now: Instant)
    ensures ReadsBack(env, c, o, now, ReadbackRequest(env, c, o, now))
  {
    IdsRead(env, c, o, now);
    PayloadRead(env, c, o, now);
    var r := ReadbackRequest(env, c, o, now);
    RequestKeyed(env, c, o, r);
    hide ReadbackRequest, PayloadReadsBack, KeyedByIdentity, Short, A;
  }

  lemma RequestKeyed(env: Env, c: Configuration, o: Observation, r: Request)
    requires r.missionId == MissionId(c) && r.nodeId == NodeId(o) && r.idempotencyKey == ReadbackKey(env, c, o)
    requires Safe(CapabilityDoc(c, o)) && r.envelope.fingerprint == Digest(env, CapabilityDoc(c, o))
    ensures KeyedByIdentity(env, c, o, r)
  {
    CapabilityRead(c, o);
    IdentityRead(env, c, o);
    IdentitySafe(env, c, o);
    hide Get, CapabilityDoc, IdentityDoc, MissionId, NodeId, Serialize, Safe, A;
    assert IdentityOf(env, c, o, r, CapabilityDoc(c, o), IdentityDoc(env, c, o));
  }

  // -------------------------------------------------------- what one scan stores

  /** The row of a candidate that the scan has listed: a new row holds the observation, a
      stored one only gets a new last sight; a readback job that is linked stays. */
  predicate RowStored(db: Tables, d: Tables, cfp: Text, o: Observation, now: Instant) {
    var k := o.candidateFingerprint;
    && k in d.candidates
    && var link := d.candidates[k].readbackJobId;
    if k in db.candidates
    then d.candidates[k] == db.candidates[k].(lastSeenAt := now, readbackJobId := link)
      && (db.candidates[k].readbackJobId.Some? ==> link == db.candidates[k].readbackJobId)
    else d.candidates[k] == Candidate(cfp, o, link, now, now)
  }

  /** A readback job that is new reads this candidate back. */
  ghost predicate JobServes(env: Env, db: Tables, d: Tables, c: Configuration, o: Observation, now: Instant) {
    var k := o.candidateFingerprint;
    k in d.candidates && d.candidates[k].readbackJobId.Some? ==>
      var id := d.candidates[k].readbackJobId.value;
      id !in db.jobs ==> id in d.jobs && ReadsBack(env, c, o, now, d.jobs[id].request)
  }

  /** Where the loop over candidates stands after the first n. */
  ghost predicate Stored(env: Env, db: Tables, d: Tables, c: Configuration, os: seq<Observation>, n: nat, now: Instant)
    requires n <= |os|
  {
    && (forall i :: 0 <= i < n ==> RowStored(db, d, c.configurationFingerprint, os[i], now))
    && (forall i :: 0 <= i < n ==> JobServes(env, db, d, c, os[i], now))
    && (forall k :: k in db.candidates && !Lists(os, n, k) ==> k in d.candidates && d.candidates[k] == db.candidates[k])
    && (forall k :: k in d.candidates ==> k in db.candidates || Lists(os, n, k))
    && (forall id :: id in d.jobs && id !in db.jobs ==> MadeFor(env, c, os, n, d.jobs[id].request))
  }

  predicate Lists(os: seq<Observation>, n: nat, k: Text)
    requires n <= |os|
  {
    exists i :: 0 <= i < n && os[i].candidateFingerprint == k
  }

  ghost predicate MadeFor(env: Env, c: Configuration, os: seq<Observation>, n: nat, r: Request)
    requires n <= |os|
  {
    exists i :: 0 <= i < n && r.idempotencyKey == ReadbackKey(env, c, os[i])
  }

  /** What one turn of the loop does to candidates and jobs. */
  ghost predicate OneStored(env: Env, d: Tables, e: Tables, c: Configuration, o: Observation, now: Instant) {
    var k := o.candidateFingerprint;
    && RowStored(d, e, c.configurationFingerprint, o, now)
    && e.candidates == d.candidates[k := e.candidates[k]]
    && (forall id :: id in d.jobs ==> id in e.jobs && e.jobs[id] == d.jobs[id])
    && (forall id :: id in e.jobs && id !in d.jobs ==> e.jobs[id].request == ReadbackRequest(env, c, o, now))
    && (e.candidates[k].readbackJobId.Some? && !(k in d.candidates && d.candidates[k].readbackJobId.Some?) ==>
          var id := e.candidates[k].readbackJobId.value;
          id in e.jobs && e.jobs[id].request.idempotencyKey == ReadbackKey(env, c, o))
  }

  lemma OneTurnStores(env: Env, d: Tables, c: Configuration, o: Observation, active: bool, t: Tally, now: Instant)
    requires Sound(env, d) && ScheduleOne(env, d, c, o, active, t, now).Done?
    ensures OneStored(env, d, ScheduleOne(env, d, c, o, active, t, now).db, c, o, now)
  {
    hide Sound, CreateLocked, ReadbackRequest, BoundElsewhere, OtherCandidateSameContent, Validates, ReadbackKey;
    var seen := Upsert(d, c.configurationFingerprint, o, now);
    var request := ReadbackRequest(env, c, o, now);
    UpsertSound(env, d, c.configurationFingerprint, o, now);
    KeyOf(env, c, o, now);
    if CreateLocked(env, seen, request, now).Done? { CreatesOrFinds(env, seen, request, now); }
  }

  lemma KeyOf(env: Env, c: Configuration, o: Observation, now: Instant)
    ensures ReadbackRequest(env, c, o, now).idempotencyKey == ReadbackKey(env, c, o)
  {
    hide ReadbackKey, ReadbackPayload, Digest, CapabilityDoc;
  }

  lemma CreatesOrFinds(env: Env, db: Tables, r: Request, now: Instant)
    requires Sound(env, db) && CreateLocked(env, db, r, now).Done?
    ensures var (d, made) := (CreateLocked(env, db, r, now).db, CreateLocked(env, db, r, now).value);
      && made.row.request.id in d.jobs && d.candidates == db.candidates
      && d.jobs[made.row.request.id].request.idempotencyKey == r.idempotencyKey
      && (forall id :: id in db.jobs ==> id in d.jobs && d.jobs[id] == db.jobs[id])
      && (forall id :: id in d.jobs && id !in db.jobs ==> d.jobs[id].request == r)
  {
    hide Sound, Fingerprint, RequestDoc, QueuedNotice, QuarantineJob;
    match FindByKey(db.jobs, r.idempotencyKey)
    case Some(id) => SoundRow(env, db, id);
    case None =>
  }

  lemma StoredNext(env: Env, db: Tables, d: Tables, e: Tables, c: Configuration, os: seq<Observation>, n: nat,
                   now: Instant)
    requires n < |os| && Stored(env, db, d, c, os, n, now) && OneStored(env, d, e, c, os[n], now)
    requires forall i, j :: 0 <= i < j < |os| ==> os[i].candidateFingerprint != os[j].candidateFingerprint
    requires LinksStored(db) && IdealHash(env)
    ensures Stored(env, db, e, c, os, n + 1, now)
  {
    hide ReadsBack, ReadbackRequest, ReadbackKey, IdealHash;
    var k := os[n].candidateFingerprint;
    assert !Lists(os, n, k);
    forall i | 0 <= i < n + 1
      ensures RowStored(db, e, c.configurationFingerprint, os[i], now) && JobServes(env, db, e, c, os[i], now)
    {
      if i < n {
        assert RowStored(db, d, c.configurationFingerprint, os[i], now) && JobServes(env, db, d, c, os[i], now);
        assert os[i].candidateFingerprint != k;
      } else {
        NewServes(env, db, d, e, c, os, n, now);
      }
    }
    forall j | j in db.candidates && !Lists(os, n + 1, j)
      ensures j in e.candidates && e.candidates[j] == db.candidates[j]
    {
      assert os[n].candidateFingerprint != j;
      assert !Lists(os, n, j);
    }
    forall j | j in e.candidates ensures j in db.candidates || Lists(os, n + 1, j) {
      if j == k { assert os[n].candidateFingerprint == j; }
    }
    forall id | id in e.jobs && id !in db.jobs ensures MadeFor(env, c, os, n + 1, e.jobs[id].request) {
      if id !in d.jobs {
        KeyOf(env, c, os[n], now);
        assert e.jobs[id].request.idempotencyKey == ReadbackKey(env, c, os[n]);
      }
    }
  }

  /** The readback jobs of stored candidates are stored. */
  ghost predicate LinksStored(db: Tables) {
    forall k :: k in db.candidates && db.candidates[k].readbackJobId.Some? ==>
      db.candidates[k].readbackJobId.value in db.jobs
  }

  lemma NewServes(env: Env, db: Tables, d: Tables, e: Tables, c: Configuration, os: seq<Observation>, n: nat,
                  now: Instant)
    requires n < |os| && Stored(env, db, d, c, os, n, now) && OneStored(env, d, e, c, os[n], now)
    requires forall i, j :: 0 <= i < j < |os| ==> os[i].candidateFingerprint != os[j].candidateFingerprint
    requires LinksStored(db) && IdealHash(env)
    ensures RowStored(db, e, c.configurationFingerprint, os[n], now) && JobServes(env, db, e, c, os[n], now)
  {
    hide ReadsBack, ReadbackRequest, ReadbackKey, IdealHash;
    var k := os[n].candidateFingerprint;
    assert !Lists(os, n, k);
    RequestReadsBack(env, c, os[n], now);
    if e.candidates[k].readbackJobId.Some? && e.candidates[k].readbackJobId.value !in db.jobs {
      var id := e.candidates[k].readbackJobId.value;
      assert !(k in d.candidates && d.candidates[k].readbackJobId.Some?);
      if id in d.jobs {
        assert MadeFor(env, c, os, n, d.jobs[id].request);
        var i :| 0 <= i < n && d.jobs[id].request.idempotencyKey == ReadbackKey(env, c, os[i]);
        ReadbackKeyBinds(env, c, os[i], c, os[n]);
        assert false;
      }
    }
  }

  lemma {:induction false} LoopStores(env: Env, db: Tables, c: Configuration, os: seq<Observation>, n: nat,
                                      active: bool, now: Instant)
    requires n <= |os| && Sound(env, db) && IdealHash(env) && ScheduleMany(env, db, c, os, n, active, now).Done?
    requires forall i, j :: 0 <= i < j < |os| ==> os[i].candidateFingerprint != os[j].candidateFingerprint
    ensures Stored(env, db, ScheduleMany(env, db, c, os, n, active, now).db, c, os, n, now)
  {
    hide Sound, ScheduleOne, Stored, OneStored, IdealHash, LinksStored, Scheduled;
    if n == 0 {
      NothingStored(env, db, c, os, now);
    } else {
      LoopStores(env, db, c, os, n - 1, active, now);
      ScheduleManySound(env, db, c, os, n - 1, active, now);
      var many := ScheduleMany(env, db, c, os, n - 1, active, now);
      ScheduledIsSound(env, db, many.db, active, now);
      SoundLinks(env, db);
      OneTurnStores(env, many.db, c, os[n - 1], active, many.value, now);
      var one := ScheduleOne(env, many.db, c, os[n - 1], active, many.value, now);
      StoredNext(env, db, many.db, one.db, c, os, n - 1, now);
    }
  }

  lemma NothingStored(env: Env, db: Tables, c: Configuration, os: seq<Observation>, now: Instant)
    ensures Stored(env, db, db, c, os, 0, now)
  {
  }

  lemma SoundLinks(env: Env, db: Tables)
    requires Sound(env, db)
    ensures LinksStored(db)
  {
    hide RowsSound, KeysUnique, EventsSound, TerminalLogged, ReceiptsSound, NamesCandidate;
    forall k | k in db.candidates && db.candidates[k].readbackJobId.Some?
      ensures db.candidates[k].readbackJobId.value in db.jobs
    {
      assert LinkSound(env, db, k);
    }
  }

  /** An accepted completion stores every listed candidate, changes no other, and every
      job that it creates for a candidate reads back that candidate's issue, under the
      queue's own authority and with the one tool it needs. */
  lemma CompletionReadsBack(env: Env, db: Tables, op: Op)
    requires Sound(env, db) && IdealHash(env) && op.action.CompleteQueueScan? && Succeeds(env, db, op)
    requires ReportChecked(env, op.action.completion)
    ensures var os := op.action.completion.candidates;
      db.queue.Some? && Stored(env, db, After(env, db, op), db.queue.value.configuration, os, |os|, op.now)
  {
    hide Sound, ScheduleMany, ScanValid, CursorAfter, FinishScan, Stored, IdealHash, Fingerprinted;
    var r := op.action.completion;
    ValidQueue(env, db.queue, r.credential, op.now);
    var c := db.queue.value.configuration;
    var active := c.authorityExpiresAt > op.now;
    LoopStores(env, db, c, r.candidates, |r.candidates|, active, op.now);
    CompletionTables(env, db, op);
    SameStored(env, db, ScheduleMany(env, db, c, r.candidates, |r.candidates|, active, op.now).db,
               After(env, db, op), c, r.candidates, op.now);
  }

  lemma {:induction false} CompletionTables(env: Env, db: Tables, op: Op)
    requires op.action.CompleteQueueScan? && Succeeds(env, db, op) && db.queue.Some?
    ensures var (c, r) := (db.queue.value.configuration, op.action.completion);
      var many := ScheduleMany(env, db, c, r.candidates, |r.candidates|, c.authorityExpiresAt > op.now, op.now);
      many.Done? && After(env, db, op).candidates == many.db.candidates && After(env, db, op).jobs == many.db.jobs
  {
    hide ScheduleMany, ScanValid, CursorAfter, FinishScan;
  }

  lemma SameStored(env: Env, db: Tables, d: Tables, e: Tables, c: Configuration, os: seq<Observation>, now: Instant)
    requires Stored(env, db, d, c, os, |os|, now) && e.candidates == d.candidates && e.jobs == d.jobs
    ensures Stored(env, db, e, c, os, |os|, now)
  {
    hide ReadsBack;
    forall i | 0 <= i < |os|
      ensures RowStored(db, e, c.configurationFingerprint, os[i], now) && JobServes(env, db, e, c, os[i], now)
    {
      assert RowStored(db, d, c.configurationFingerprint, os[i], now) && JobServes(env, db, d, c, os[i], now);
    }
  }
}
