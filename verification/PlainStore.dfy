/**
 A concrete environment for examples, and what creating, leasing and renewing a job
 does in it.  It writes times as tallies, one character for each second; its digest
 marks its argument, its authenticator is constant, and its filters accept
 everything.
 */
module PlainStore {
  import opened Outcomes
  import opened PyText
  import opened Canonical
  import opened StoreTables
  import opened Ledger
  import opened ScanQueue
  import opened Coordinator
  import opened StoreInvariant
  import opened StoreSteps
  import opened StoreIntegrity
  import opened QueueSteps
  import opened JsonDocs

  const PLAIN := Env(
    (t: Text) => [0x23] + t,
    (row: Job) => [0x6D],
    (t: Text) => Some(|t| * SECOND),
    (t: Instant) => [],
    [],
    (kind: string, v: Json) => Some(v),
    (d: Domain, v: Json) => Some(v),
    (d: Domain, v: Json) => Some(v),
    (r: Request) => true)

  function Strokes(n: nat): (t: Text)
    ensures |t| == n
  {
    seq(n, i => 0x7C)
  }

  const ID: Text := A("job")

  /** A grant by its two times. */
  function GrantTerms(issued: nat, expires: Json): Json {
    Obj([Keyed(A("authorizedAt"), Str(Strokes(issued))), Keyed(A("expiresAt"), expires)])
  }

  function GrantPayload(issued: nat, expires: Json): Json {
    Obj([Keyed(A("authorization"), GrantTerms(issued, expires))])
  }

  function RequestUnder(issued: nat, expires: Json): Request {
    Request(ID, [], [], Research, GrantPayload(issued, expires), Envelope([], []), A("key"))
  }

  lemma Different(s: string, t: string, i: nat)
    requires i < |s| && i < |t| && s[i] != t[i]
    ensures A(s) != A(t)
  {
    assert A(s)[i] != A(t)[i];
  }

  lemma {:induction false} FindInOne(e: Keyed<Json>, k: Text)
    ensures Find([e], k) == if e.key == k then Some(e.value) else None
  {
    assert [e][1..] == [];
  }

  lemma {:induction false} FindInTwo(d: Keyed<Json>, e: Keyed<Json>, k: Text)
    ensures Find([d, e], k) == if d.key == k then Some(d.value) else if e.key == k then Some(e.value) else None
  {
    assert [d, e][1..] == [e];
    FindInOne(e, k);
  }

  lemma GrantInPayload(issued: nat, expires: Json)
    ensures var grant := Get(GrantPayload(issued, expires), "authorization");
      && grant.Obj? && Get(grant, "authorizedAt") == Str(Strokes(issued)) && Get(grant, "expiresAt") == expires
  {
    FindInOne(GrantPayload(issued, expires).entries[0], A("authorization"));
    TermsOfGrant(issued, expires);
  }

  lemma TermsOfGrant(issued: nat, expires: Json)
    ensures var grant := GrantTerms(issued, expires);
      && Get(grant, "authorizedAt") == Str(Strokes(issued)) && Get(grant, "expiresAt") == expires
  {
    var (at, until) := (Keyed(A("authorizedAt"), Str(Strokes(issued))), Keyed(A("expiresAt"), expires));
    FindInTwo(at, until, A("authorizedAt"));
    FindInTwo(at, until, A("expiresAt"));
    Different("authorizedAt", "expiresAt", 0);
  }

  lemma NothingElse(issued: nat, expires: Json, name: string)
    requires name != [] && name[0] == 'p'
    ensures Get(GrantPayload(issued, expires), name) == Null
  {
    Different("authorization", name, 0);
    FindInOne(GrantPayload(issued, expires).entries[0], A(name));
  }

  lemma PlainIsIdeal()
    ensures IdealHash(PLAIN) && Signing(PLAIN)
  {
    forall s, t | PLAIN.sha256(s) == PLAIN.sha256(t) ensures s == t {
      assert s == PLAIN.sha256(s)[1..] && t == PLAIN.sha256(t)[1..];
    }
  }

  lemma EmptyIsSound(env: Env)
    ensures Sound(env, EMPTY)
  {
  }

  // -------------------------------------------------------------------- creation

  /** A new request that can be stored is stored. */
  lemma CreateGoes(env: Env, db: Tables, r: Request, now: Instant)
    requires Safe(RequestDoc(r)) && EventAccepted(env, "job_queued", QueuedNotice(r))
    requires r.id !in db.jobs && FindByKey(db.jobs, r.idempotencyKey).None?
    ensures var (op, row) := (Op(CreateJob(r), now), NewRow(r, Digest(env, RequestDoc(r)), now));
      && Succeeds(env, db, op)
      && After(env, db, op).jobs == db.jobs[r.id := Sign(env, row)]
      && After(env, db, op).candidates == db.candidates && After(env, db, op).receipts == db.receipts
  {
    hide RequestDoc, QueuedNotice, Digest, Sign;
  }

  lemma SafeRequest(r: Request)
    requires Safe(r.payload)
    ensures Safe(RequestDoc(r)) && Safe(QueuedNotice(r))
  {
  }

  lemma QueuedAccepted(r: Request)
    requires Safe(QueuedNotice(r))
    ensures EventAccepted(PLAIN, "job_queued", QueuedNotice(r))
  {
    hide QueuedNotice;
  }

  /** In this environment a request with a storable payload is always stored. */
  lemma CreatesPlainly(r: Request, now: Instant)
    requires Safe(r.payload)
    ensures Safe(RequestDoc(r))
    ensures var (op, row) := (Op(CreateJob(r), now), NewRow(r, Digest(PLAIN, RequestDoc(r)), now));
      && Succeeds(PLAIN, EMPTY, op)
      && After(PLAIN, EMPTY, op).jobs == map[r.id := Sign(PLAIN, row)]
      && After(PLAIN, EMPTY, op).candidates == map[] && After(PLAIN, EMPTY, op).receipts == map[]
  {
    hide RequestDoc, QueuedNotice, Digest, After, Succeeds, PLAIN, Sign, NewRow, EventAccepted;
    SafeRequest(r);
    QueuedAccepted(r);
    CreateGoes(PLAIN, EMPTY, r, now);
  }

  // ----------------------------------------------------------------------- lease

  /** A request under a grant that expires at the 9th second. */
  const SHORT: Request := RequestUnder(0, Str(Strokes(9)))

  const OPENING := Op(CreateJob(SHORT), 0)

  function LeaseFor(seconds: nat): Op {
    Op(ClaimJob(ID, A("worker"), seconds, A("token")), SECOND)
  }

  ghost const OPENED: Tables := After(PLAIN, EMPTY, OPENING)

  /** The job created, and leased at the first second. */
  ghost function LeasedTables(seconds: nat): Tables {
    After(PLAIN, OPENED, LeaseFor(seconds))
  }

  /** What a claim of that job decides, by the clock. */
  lemma DecidesByGrant(db: Tables, row: Job, now: Instant)
    requires row.request == SHORT && !Terminal(row.state)
    ensures now >= 9 * SECOND ==> Decide(PLAIN, db, row, now).Expire?
    ensures now < 9 * SECOND && !ActivelyOwned(row, now) ==> Decide(PLAIN, db, row, now).Grant?
  {
    var payload := SHORT.payload;
    GrantInPayload(0, Str(Strokes(9)));
    NothingElse(0, Str(Strokes(9)), "preparedBackgroundCodeAction");
    NothingElse(0, Str(Strokes(9)), "preparedBackgroundCodePackage");
    NothingElse(0, Str(Strokes(9)), "preparedBackgroundGitHubAction");
    NothingElse(0, Str(Strokes(9)), "preparedBackgroundGitHubPackage");
    hide Get, GrantPayload, Strokes;
    assert ExpiryFields(payload) == [Str(Strokes(9))];
    var fields := [Str(Strokes(9))];
    assert fields[1..] == [];
    assert AnyExpired(PLAIN, fields, now) == Some(9 * SECOND <= now);
    assert PreparedAttemptOf(row).None?;
  }

  lemma ShortValidates()
    ensures Validates(PLAIN, SHORT, 0, false)
  {
    GrantInPayload(0, Str(Strokes(9)));
    hide Get, GrantPayload, Strokes;
  }

  lemma OpenedIs()
    ensures Succeeds(PLAIN, EMPTY, OPENING)
    ensures Sound(PLAIN, OPENED) && ID in OPENED.jobs && OPENED.receipts == map[]
    ensures OPENED.jobs[ID].request == SHORT && OPENED.jobs[ID].state.Queued? && OPENED.jobs[ID].owner.None?
  {
    ShortValidates();
    hide Sound, Validates, After, Succeeds, GrantPayload, Strokes, Fingerprint, RequestDoc;
    CreatesPlainly(SHORT, 0) by { SafeShort(); }
    EmptyIsSound(PLAIN);
    PlainIsIdeal();
    StepSound(PLAIN, EMPTY, OPENING);
  }

  lemma NoticesAccepted(coordinator: Text, expires: Instant)
    ensures EventAccepted(PLAIN, "lease_acquired", LeaseNotice(PLAIN, coordinator, expires))
    ensures EventAccepted(PLAIN, "lease_renewed", RenewalNotice(PLAIN, expires))
    ensures EventAccepted(PLAIN, "job_blocked", ExpiryNotice())
  {
  }

  lemma JournalGoes(env: Env, db: Tables, row: Job, kind: string, payload: Json, now: Instant)
    ensures Journal(env, db, row, kind, payload, now).Done? <==> EventAccepted(env, kind, payload)
  {
  }

  /** The store holds the job leased to the worker, in sound tables. */
  lemma LeasedIs(seconds: nat)
    requires 5 <= seconds <= 300
    ensures var db := LeasedTables(seconds);
      && Succeeds(PLAIN, EMPTY, OPENING) && Succeeds(PLAIN, OPENED, LeaseFor(seconds))
      && Sound(PLAIN, db) && ID in db.jobs && db.jobs[ID].request == SHORT
      && db.jobs[ID].state.Running? && db.jobs[ID].owner == Some(A("worker"))
      && db.jobs[ID].tokenHash == Some(PLAIN.sha256(A("token")))
      && db.jobs[ID].expiresAt == Some(SECOND + seconds * SECOND)
  {
    var (op, expires) := (LeaseFor(seconds), SECOND + seconds * SECOND);
    hide Sound, After, Succeeds, Decide, SHORT, LeaseNotice, EventAccepted, RenewalNotice, ExpiryNotice, PLAIN, OPENED,
         JobSteps, Authentic;
    OpenedIs();
    SoundRow(PLAIN, OPENED, ID);
    DecidesByGrant(OPENED, OPENED.jobs[ID], op.now);
    NoticesAccepted(A("worker"), expires);
    ClaimGoes(PLAIN, OPENED, op);
    PlainIsIdeal();
    StepSound(PLAIN, OPENED, op);
  }

  /** A claim that is granted, and whose event is accepted, stores the leased row. */
  lemma ClaimGoes(env: Env, db: Tables, op: Op)
    requires op.action.ClaimJob? && op.action.id in db.jobs && Authentic(env, db.jobs[op.action.id])
    requires Decide(env, db, db.jobs[op.action.id], op.now).Grant?
    requires var a := op.action;
      EventAccepted(env, "lease_acquired", LeaseNotice(env, a.coordinator, op.now + a.leaseSeconds * SECOND))
    ensures var a := op.action;
      var leased := LeasedRow(env, db.jobs[a.id], a.coordinator, a.token, a.leaseSeconds, op.now);
      && Succeeds(env, db, op)
      && After(env, db, op).jobs == db.jobs[leased.request.id := Sign(env, leased)]
  {
    hide After, Succeeds, Decide, LeaseNotice, EventAccepted, Journal, LeasedRow;
    var (a, row) := (op.action, db.jobs[op.action.id]);
    var leased := LeasedRow(env, row, a.coordinator, a.token, a.leaseSeconds, op.now);
    var notice := LeaseNotice(env, a.coordinator, op.now + a.leaseSeconds * SECOND);
    ClaimEffect(env, db, op);
    JournalGoes(env, db, leased, "lease_acquired", notice, op.now);
    JournalStores(env, db, leased, "lease_acquired", notice, op.now);
  }

  /** A heartbeat of the holder whose event is accepted succeeds. */
  lemma HeartbeatGoes(env: Env, db: Tables, op: Op)
    requires op.action.HeartbeatJob? && op.action.id in db.jobs && Authentic(env, db.jobs[op.action.id])
    requires LeaseValid(env, db.jobs[op.action.id], op.action.coordinator, op.action.token, op.now)
    requires EventAccepted(env, "lease_renewed", RenewalNotice(env, op.now + op.action.leaseSeconds * SECOND))
    ensures Succeeds(env, db, op)
  {
    hide LeaseValid, RenewalNotice, EventAccepted, Journal, Authentic, RequireIntegrity, Sign;
    var (id, expires) := (op.action.id, op.now + op.action.leaseSeconds * SECOND);
    AuthenticPasses(env, db, id, op.now);
    var renewed := db.jobs[id].(expiresAt := Some(expires), updatedAt := op.now);
    JournalGoes(env, db, renewed, "lease_renewed", RenewalNotice(env, expires), op.now);
  }

  lemma SafeShort()
    ensures Safe(SHORT.payload)
  {
  }

  // ------------------------------------------------------------------- readbacks

  lemma AuthorizationIsNinth(values: seq<Json>)
    requires |values| == 12
    ensures Get(Doc(["version", "graphRevision", "executionHost", "objective", "inputs", "allowedTools",
                     "requiredCapabilities", "bindings", "authorization", "preparedExternalActionHandoff",
                     "createdAt", "updatedAt"], values), "authorization") == values[8]
  {
    var keys := ["version", "graphRevision", "executionHost", "objective", "inputs", "allowedTools",
                 "requiredCapabilities", "bindings", "authorization", "preparedExternalActionHandoff",
                 "createdAt", "updatedAt"];
    Different("version", "authorization", 0);
    Different("graphRevision", "authorization", 0);
    Different("executionHost", "authorization", 0);
    Different("objective", "authorization", 0);
    Different("inputs", "authorization", 0);
    Different("allowedTools", "authorization", 1);
    Different("requiredCapabilities", "authorization", 0);
    Different("bindings", "authorization", 0);
    hide Find, A;
    FindInDoc(keys, values, 8);
  }

  /** A readback job runs under the queue's own authority. */
  lemma ReadbackGrant(env: Env, c: Configuration, o: Observation, now: Instant)
    ensures Get(ReadbackRequest(env, c, o, now).payload, "authorization") == c.authority
  {
    hide Get, Find, A, Doc, ReadbackInputs, ReadbackBinding, ReadbackKey, CapabilityDoc, Digest;
    var at := Str(env.iso(now));
    AuthorizationIsNinth(
      [Int(1), Int(0), Str(A("headless_runtime")), Str(env.readbackObjective), ReadbackInputs(c, o),
       Arr([Str(A("linear_get_issue"))]), Arr([Str(A("linear.issue.read"))]), Arr([ReadbackBinding(c)]), c.authority,
       Null, at, at]);
  }

  lemma ReadbackValidates(c: Configuration, o: Observation, now: Instant, expires: nat)
    requires c.authority == GrantTerms(0, Str(Strokes(expires))) && 0 <= now < expires * SECOND
    ensures Validates(PLAIN, ReadbackRequest(PLAIN, c, o, now), now, false)
  {
    ReadbackGrant(PLAIN, c, o, now);
    TermsOfGrant(0, Str(Strokes(expires)));
    hide Get, GrantTerms, Strokes, ReadbackRequest;
  }

  lemma ReadbackIsSafe(env: Env, c: Configuration, o: Observation, now: Instant)
    requires Safe(c.authority)
    ensures Safe(RequestDoc(ReadbackRequest(env, c, o, now)))
  {
    PayloadIsSafe(env, c, o, now);
    hide Safe, RequestDoc, ReadbackPayload, ReadbackKey, Digest, CapabilityDoc;
    SafeRequest(ReadbackRequest(env, c, o, now));
  }

  lemma PayloadIsSafe(env: Env, c: Configuration, o: Observation, now: Instant)
    requires Safe(c.authority)
    ensures Safe(ReadbackPayload(env, c, o, now))
  {
    InputsAreSafe(c, o);
    BindingIsSafe(c);
    hide ReadbackInputs, ReadbackBinding, A;
    assert Safe(Arr([ReadbackBinding(c)]));
  }

  lemma InputsAreSafe(c: Configuration, o: Observation)
    ensures Safe(ReadbackInputs(c, o))
  {
  }

  lemma BindingIsSafe(c: Configuration)
    ensures Safe(ReadbackBinding(c))
  {
  }

  lemma KeyOfReadback(env: Env, c: Configuration, o: Observation, now: Instant)
    ensures ReadbackRequest(env, c, o, now).idempotencyKey == ReadbackKey(env, c, o)
  {
    hide ReadbackKey, ReadbackPayload, Digest, CapabilityDoc;
  }
}
