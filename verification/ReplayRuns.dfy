/**
 Replay over the coordinator store's own runs: a job's log only grows, so a
 stream that resumes at its boundaries misses nothing and repeats nothing.
 */
module ReplayRuns {
  import opened PyText
  import opened StoreTables
  import opened Ledger
  import opened Coordinator
  import opened StoreInvariant
  import opened StoreSteps
  import opened LeaseRuns
  import opened Replay

  lemma StepGrows(env: Env, db: Tables, op: Op, after: Tables, id: Text)
    requires Sound(env, db) && id in db.jobs && JobStep(env, db, op, after, id)
    ensures Growing(db, after, id)
  {
    hide LeaseValid, AnyExpired, HasMarker, Decide, ReceiptBound, RowsSound, KeysUnique, TerminalLogged, ReceiptsSound,
         LinksSound;
  }

  lemma GrowingCompose(a: Tables, b: Tables, c: Tables, id: Text)
    requires Growing(a, b, id) && Growing(b, c, id)
    ensures Growing(a, c, id)
  {
  }

  /** Later in an untampered run a job's log holds the same events and possibly
      more, with higher numbers. */
  lemma {:induction false} RunGrows(env: Env, trace: seq<Tables>, ops: seq<Op>, i: nat, k: nat, id: Text)
    requires Lawful(env, trace, ops) && i <= k <= |ops| && |trace| == |ops| + 1 && id in trace[i].jobs
    ensures id in trace[k].jobs && Growing(trace[i], trace[k], id)
  {
    hide Lawful, Sound, JobStep, After, Growing;
    if i == k {
      SelfGrowing(trace[i], id);
    } else {
      RunGrows(env, trace, ops, i, k - 1, id);
      RunStep(env, trace, ops, k - 1);
      StepGrows(env, trace[k - 1], ops[k - 1], trace[k], id);
      StepKeepsJob(env, trace[k - 1], ops[k - 1], trace[k], id);
      GrowingCompose(trace[i], trace[k - 1], trace[k], id);
    }
  }

  lemma SelfGrowing(db: Tables, id: Text)
    ensures Growing(db, db, id)
  {
  }

  lemma StepKeepsJob(env: Env, db: Tables, op: Op, after: Tables, id: Text)
    requires id in db.jobs && JobStep(env, db, op, after, id)
    ensures id in after.jobs
  {
  }

  /** The polls of a stream read states of a run, never going back. */
  ghost predicate PollsOf(trace: seq<Tables>, at: nat -> nat, polls: nat -> Tables) {
    && (forall j, k :: j <= k ==> at(j) <= at(k))
    && (forall k :: at(k) < |trace| && polls(k) == trace[at(k)])
  }

  /** In an untampered run every stream's polls grow and none of them is refused, so
      the theorems about resumption apply to the store. */
  lemma RunPolls(env: Env, trace: seq<Tables>, ops: seq<Op>, at: nat -> nat, polls: nat -> Tables, id: Text)
    requires Lawful(env, trace, ops) && |trace| == |ops| + 1 && PollsOf(trace, at, polls) && id in polls(0).jobs
    ensures PollsGrow(polls, id)
    ensures forall k, after, limit :: ReplayEvents(env, polls(k), id, after, limit).Ok?
  {
    hide Lawful, Growing;
    forall k ensures Bounded(polls(k)) && id in polls(k).jobs && Authentic(env, polls(k).jobs[id]) {
      RunSound(env, trace, ops, at(k));
      RunGrows(env, trace, ops, at(0), at(k), id);
      SoundBounded(env, polls(k), id);
    }
    forall j, k | j <= k ensures Growing(polls(j), polls(k), id) {
      RunGrows(env, trace, ops, at(j), at(k), id);
    }
  }

  lemma SoundBounded(env: Env, db: Tables, id: Text)
    requires Sound(env, db) && id in db.jobs
    ensures Bounded(db) && Authentic(env, db.jobs[id])
  {
    hide Authentic, StateShaped, RequestSound, TerminalLogged, ReceiptsSound, LinksSound, KeysUnique;
  }

  /** A stream over an untampered run, resumed at every boundary until it drains,
      has delivered every event of the job numbered above its first cursor, in
      order, once each. */
  lemma {:induction false} RunReplayExactlyOnce(env: Env, trace: seq<Tables>, ops: seq<Op>, at: nat -> nat,
                                                polls: nat -> Tables, id: Text, segments: seq<Segment>)
    requires Lawful(env, trace, ops) && |trace| == |ops| + 1 && PollsOf(trace, at, polls) && id in polls(0).jobs
    requires Resumed(polls, id, segments) && segments != [] && segments[|segments| - 1].end.Drained?
    ensures var (rows, db, start) := (AllRows(segments), polls(segments[|segments| - 1].lastPoll), segments[0].after);
      && InOrder(rows) && Genuine(db.events, id, rows)
      && (forall s: nat :: s > start && Listed(db.events, id, s) ==> Row(s, db.events[s]) in rows)
      && (forall i :: 0 <= i < |rows| ==> rows[i].sequence > start)
  {
    hide Lawful, InOrder, Genuine, PollsGrow, Resumed;
    RunPolls(env, trace, ops, at, polls, id);
    ResumedExactlyOnce(polls, id, segments);
    assert Bounded(polls(segments[|segments| - 1].lastPoll)) by {
      PollBounded(polls, id, segments[|segments| - 1].lastPoll);
    }
  }

  lemma PollBounded(polls: nat -> Tables, id: Text, k: nat)
    requires PollsGrow(polls, id)
    ensures Bounded(polls(k))
  {
  }
}
