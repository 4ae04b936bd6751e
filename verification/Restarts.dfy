/**
 What a restart does to arbitrary tables: which rows it removes, where it stops,
 and when it changes nothing.
 */
module Restarts {
  import opened PyText
  import opened StoreTables
  import opened Ledger
  import opened Coordinator
  import opened StoreInvariant
  import opened QueueSteps

  /** The row passes a restart at that time. */
  predicate Clean(env: Env, row: Job, now: Instant) {
    RequestSound(env, row.request, row.requestFingerprint, now) && Authentic(env, row)
  }

  /** Exactly the rows that the restart pass removes: those whose request does not
      validate or whose fingerprint has drifted, those with a wrong authenticator, and
      unsigned rows that are not research. */
  predicate Rejects(env: Env, row: Job, now: Instant) {
    || !RequestSound(env, row.request, row.requestFingerprint, now)
    || (row.authenticator != [] && !Authentic(env, row))
    || (row.authenticator == [] && !row.request.executionHost.Research?)
  }

  /** The row as the pass leaves it: an unsigned research row gets signed. */
  function Adopted(env: Env, row: Job): Job {
    if row.authenticator == [] then Sign(env, row) else row
  }

  /** The key column is the row's id. */
  ghost predicate IdsMatch(db: Tables) {
    forall id :: id in db.jobs ==> db.jobs[id].request.id == id
  }

  lemma RestartRowEffect(env: Env, db: Tables, id: Text, now: Instant)
    requires id in db.jobs && db.jobs[id].request.id == id
    ensures match RestartRow(env, db, id, now)
      case Done(d, _) =>
        && d.candidates == db.candidates
        && (if Rejects(env, db.jobs[id], now) then !Referenced(db, id) && d.jobs == db.jobs - {id}
            else d.jobs == db.jobs[id := Adopted(env, db.jobs[id])])
      case Raised(d, e) =>
        && Rejects(env, db.jobs[id], now) && Referenced(db, id) && e.ConstraintFailed?
        && d.jobs == db.jobs && d.candidates == db.candidates && id in d.quarantined
  {
    hide Fingerprint, RequestDoc, QuarantineJob, Referenced, Validates;
    QuarantineEffect(env, db, id, "invalid_persisted_contract", now);
    QuarantineEffect(env, db, id, "integrity_authenticator_mismatch", now);
    QuarantineEffect(env, db, id, "legacy_effectful_job_missing_integrity", now);
  }

  lemma QuarantineEffect(env: Env, db: Tables, id: Text, reason: string, now: Instant)
    requires id in db.jobs
    ensures match QuarantineJob(env, db, id, reason, now)
      case Done(d, _) => !Referenced(db, id) && d.candidates == db.candidates && d.jobs == db.jobs - {id}
      case Raised(d, e) =>
        && Referenced(db, id) && e.ConstraintFailed?
        && d.jobs == db.jobs && d.candidates == db.candidates && id in d.quarantined
  {
    hide QuarantineRow;
  }

  /** Where the pass stands after its first n rows. */
  ghost predicate RestartedUpTo(env: Env, db: Tables, d: Tables, rows: seq<Text>, n: nat, now: Instant)
    requires n <= |rows|
  {
    && d.candidates == db.candidates
    && (forall id :: id in d.jobs ==> id in db.jobs)
    && (forall id :: id in db.jobs && id in rows[..n] ==>
          if Rejects(env, db.jobs[id], now) then id !in d.jobs
            else id in d.jobs && d.jobs[id] == Adopted(env, db.jobs[id]))
    && (forall id :: id in db.jobs && id !in rows[..n] ==> id in d.jobs && d.jobs[id] == db.jobs[id])
  }

  ghost predicate NoneStuck(env: Env, db: Tables, rows: seq<Text>, n: nat, now: Instant)
    requires n <= |rows|
  {
    forall id :: id in db.jobs && id in rows[..n] && Rejects(env, db.jobs[id], now) ==> !Referenced(db, id)
  }

  /** The pass stopped at row m: the rows before it are done with, that row is both
      quarantined and still there, and the later rows are as they were. */
  ghost predicate StuckAt(env: Env, db: Tables, d: Tables, rows: seq<Text>, m: nat, now: Instant) {
    && m < |rows| && rows[m] in db.jobs && Rejects(env, db.jobs[rows[m]], now) && Referenced(db, rows[m])
    && NoneStuck(env, db, rows, m, now) && RestartedUpTo(env, db, d, rows, m, now)
    && rows[m] in d.jobs && d.jobs[rows[m]] == db.jobs[rows[m]] && rows[m] in d.quarantined
  }

  lemma RestartedNext(env: Env, db: Tables, d: Tables, after: Tables, rows: seq<Text>, n: nat, now: Instant)
    requires n < |rows| && RestartedUpTo(env, db, d, rows, n, now) && after.candidates == d.candidates
    requires rows[n] !in rows[..n]
    requires rows[n] !in d.jobs ==> after.jobs == d.jobs
    requires rows[n] in d.jobs ==>
      after.jobs == if Rejects(env, d.jobs[rows[n]], now) then d.jobs - {rows[n]}
        else d.jobs[rows[n] := Adopted(env, d.jobs[rows[n]])]
    ensures RestartedUpTo(env, db, after, rows, n + 1, now)
  {
    hide Rejects, Adopted;
    assert rows[..n + 1] == rows[..n] + [rows[n]];
  }

  lemma StuckStays(env: Env, db: Tables, rows: seq<Text>, n: nat, now: Instant)
    requires n < |rows|
    ensures NoneStuck(env, db, rows, n + 1, now) <==>
      NoneStuck(env, db, rows, n, now)
        && (rows[n] in db.jobs && Rejects(env, db.jobs[rows[n]], now) ==> !Referenced(db, rows[n]))
  {
    hide Rejects, Referenced;
    assert rows[..n + 1] == rows[..n] + [rows[n]];
  }

  lemma RestartOne(env: Env, db: Tables, d: Tables, rows: seq<Text>, n: nat, now: Instant)
    requires IdsMatch(db) && n < |rows| && rows[n] !in rows[..n]
    requires RestartedUpTo(env, db, d, rows, n, now) && NoneStuck(env, db, rows, n, now)
    ensures match if rows[n] in d.jobs then RestartRow(env, d, rows[n], now) else Done(d, ())
      case Done(after, _) => RestartedUpTo(env, db, after, rows, n + 1, now) && NoneStuck(env, db, rows, n + 1, now)
      case Raised(after, e) =>
        e.ConstraintFailed? && StuckAt(env, db, after, rows, n, now) && !NoneStuck(env, db, rows, n + 1, now)
  {
    hide Rejects, Referenced, Adopted, RestartRow, NoneStuck;
    var id := rows[n];
    SameReferences(db, d);
    StuckStays(env, db, rows, n, now);
    if id in d.jobs {
      RestartRowEffect(env, d, id, now);
      if RestartRow(env, d, id, now).Done? { RestartedNext(env, db, d, RestartRow(env, d, id, now).db, rows, n, now); }
    } else {
      RestartedNext(env, db, d, d, rows, n, now);
    }
  }

  lemma SameReferences(db: Tables, d: Tables)
    requires d.candidates == db.candidates
    ensures forall id :: Referenced(d, id) <==> Referenced(db, id)
  {
  }

  ghost predicate Stuck(env: Env, db: Tables, d: Tables, rows: seq<Text>, now: Instant) {
    exists m: nat :: StuckAt(env, db, d, rows, m, now)
  }

  lemma {:induction false} RestartEffect(env: Env, db: Tables, rows: seq<Text>, n: nat, now: Instant)
    requires IdsMatch(db) && n <= |rows|
    requires forall i, j :: 0 <= i < j < |rows| ==> rows[i] != rows[j]
    ensures match RestartRows(env, db, rows, n, now)
      case Done(d, _) => RestartedUpTo(env, db, d, rows, n, now) && NoneStuck(env, db, rows, n, now)
      case Raised(d, e) => e.ConstraintFailed? && Stuck(env, db, d, rows, now) && !NoneStuck(env, db, rows, n, now)
  {
    hide Rejects, Referenced, RestartRow;
    if n > 0 {
      hide RestartedUpTo, NoneStuck, StuckAt;
      RestartEffect(env, db, rows, n - 1, now);
      StuckStays(env, db, rows, n - 1, now);
      if RestartRows(env, db, rows, n - 1, now).Done? {
        RestartOne(env, db, RestartRows(env, db, rows, n - 1, now).db, rows, n - 1, now);
      }
    }
  }

  lemma AdoptedClean(env: Env, row: Job, now: Instant)
    requires !Rejects(env, row, now)
    ensures Clean(env, Adopted(env, row), now)
  {
    hide RequestSound;
  }

  /** The rows of SELECT * FROM jobs: every job once. */
  ghost predicate AllRows(db: Tables, rows: seq<Text>) {
    && (forall i, j :: 0 <= i < j < |rows| ==> rows[i] != rows[j])
    && (forall id :: id in rows <==> id in db.jobs)
  }

  /** A restart completes exactly when no row that it must remove is referred to by a
      candidate; then exactly the other rows remain, and all verify.  Otherwise it
      stops at the first such row. */
  lemma RestartRestores(env: Env, db: Tables, rows: seq<Text>, now: Instant)
    requires IdsMatch(db) && AllRows(db, rows)
    ensures var (after, r) := Step(env, db, Op(Restart(rows), now));
      && (r.Ok? <==> forall id :: id in db.jobs && Rejects(env, db.jobs[id], now) ==> !Referenced(db, id))
      && (r.Ok? ==> forall id :: id in after.jobs ==> Clean(env, after.jobs[id], now))
      && (r.Ok? ==> forall id :: id in after.jobs <==> id in db.jobs && !Rejects(env, db.jobs[id], now))
      && (r.Err? ==> r.error.ConstraintFailed? && Stuck(env, db, after, rows, now))
  {
    hide Rejects, Referenced, Clean, Adopted, RestartRow, StuckAt;
    RestartEffect(env, db, rows, |rows|, now);
    assert rows[..|rows|] == rows;
    match RestartRows(env, db, rows, |rows|, now)
    case Raised(_, _) =>
    case Done(d, _) =>
      forall id | id in d.jobs ensures Clean(env, d.jobs[id], now) {
        AdoptedClean(env, db.jobs[id], now);
      }
  }

  /** With one stored job the pass is the check of its row. */
  lemma RestartOfOne(env: Env, db: Tables, id: Text, now: Instant)
    requires id in db.jobs
    ensures var (op, row) := (Op(Restart([id]), now), RestartRow(env, db, id, now));
      After(env, db, op) == row.db && (Succeeds(env, db, op) <==> row.Done?)
  {
    hide RestartRow;
    assert RestartRows(env, db, [id], 0, now) == Done(db, ());
    assert [id][0] == id;
  }

  // ------------------------------------------------- restarts of untampered tables

  /** On untampered tables the only row that a restart rejects is one whose grant was
      issued more than the allowed skew after the restart's clock. */
  lemma RejectsOnlyFuture(env: Env, db: Tables, id: Text, now: Instant)
    requires Sound(env, db) && Signing(env) && id in db.jobs
    ensures Rejects(env, db.jobs[id], now) <==> !IssuedBy(env, db.jobs[id], now)
  {
    hide KeysUnique, EventsSound, TerminalLogged, ReceiptsSound, LinksSound, StateShaped, Fingerprint, RequestDoc,
         AuthorizedAt;
  }

  /** A restart leaves untampered tables alone exactly when no stored grant was issued
      in its future. */
  lemma RestartKeepsExactlyWhen(env: Env, db: Tables, rows: seq<Text>, now: Instant)
    requires Sound(env, db) && Signing(env) && AllRows(db, rows)
    ensures Step(env, db, Op(Restart(rows), now)) == (db, Ok(NoReply)) <==> AllIssuedBy(env, db, now)
  {
    hide Rejects, Referenced, Clean, IssuedBy, Stuck, RestartRows, Signing;
    SoundIds(env, db);
    forall id | id in db.jobs ensures Rejects(env, db.jobs[id], now) <==> !IssuedBy(env, db.jobs[id], now) {
      RejectsOnlyFuture(env, db, id, now);
    }
    if AllIssuedBy(env, db, now) {
      RestartSound(env, db, rows, |rows|, now);
    } else {
      RestartRestores(env, db, rows, now);
    }
  }

  lemma SoundIds(env: Env, db: Tables)
    requires Sound(env, db)
    ensures IdsMatch(db)
  {
    hide KeysUnique, EventsSound, TerminalLogged, ReceiptsSound, LinksSound, StateShaped, RequestSound, Authentic;
  }
}
