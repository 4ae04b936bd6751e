/**
 Replay of a job's events in pages, over an event log that grows meanwhile:
 event_stream in companion/server.py on top of replay_events in
 companion/coordinator_store.py.
 */
module Replay {
  import opened PyText
  import opened StoreTables
  import opened Ledger

  const PAGE_SIZE := 500
  const REPLAY_LIMIT := 10_000
  const KEEPALIVE_CYCLES := 60

  datatype Row = Row(sequence: nat, event: Event)

  // ------------------------------------------------------------------- the log

  /** The events of a job numbered above lo and up to hi, in that order. */
  function Log(events: map<nat, Event>, id: Text, lo: nat, hi: nat): (rows: seq<Row>)
    ensures |rows| <= if lo < hi then hi - lo else 0
    ensures forall i :: 0 <= i < |rows| ==> lo < rows[i].sequence <= hi
    decreases hi - lo
  {
    if lo >= hi then []
    else (if Listed(events, id, lo + 1) then [Row(lo + 1, events[lo + 1])] else []) + Log(events, id, lo + 1, hi)
  }

  predicate Listed(events: map<nat, Event>, id: Text, s: nat) {
    s in events && events[s].jobId == id
  }

  function Take(rows: seq<Row>, n: nat): seq<Row> {
    if |rows| <= n then rows else rows[..n]
  }

  /** replay_events: get_job, then one page of the query. */
  function ReplayEvents(env: Env, db: Tables, id: Text, after: nat, limit: nat): Result<seq<Row>> {
    if id !in db.jobs then Err(JobNotFound)
    else if !Authentic(env, db.jobs[id]) then Err(if Referenced(db, id) then ConstraintFailed else JobIntegrityInvalid)
    else Ok(Take(Log(db.events, id, after, db.eventSeq), limit))
  }

  /** The check is get_job's. */
  lemma ReplayChecksIntegrity(env: Env, db: Tables, id: Text, after: nat, limit: nat, now: Instant)
    ensures match GetJob(env, db, id, now)
      case Done(_, _) => ReplayEvents(env, db, id, after, limit).Ok?
      case Raised(_, e) => ReplayEvents(env, db, id, after, limit) == Err(e)
  {
    hide Log, QuarantineRow;
  }

  ghost predicate InOrder(rows: seq<Row>) {
    forall i, j :: 0 <= i < j < |rows| ==> rows[i].sequence < rows[j].sequence
  }

  predicate IsRow(events: map<nat, Event>, id: Text, r: Row) {
    Listed(events, id, r.sequence) && r.event == events[r.sequence]
  }

  /** The rows are events of the job. */
  ghost predicate Genuine(events: map<nat, Event>, id: Text, rows: seq<Row>) {
    forall i :: 0 <= i < |rows| ==> IsRow(events, id, rows[i])
  }

  /** No event of the job in the range is missing from the rows. */
  ghost predicate Complete(events: map<nat, Event>, id: Text, lo: nat, hi: nat, rows: seq<Row>) {
    forall s: nat :: lo < s <= hi && Listed(events, id, s) ==> Row(s, events[s]) in rows
  }

  /** The log holds exactly the events of the job in its range, each once, in
      increasing order. */
  lemma {:induction false} LogExact(events: map<nat, Event>, id: Text, lo: nat, hi: nat)
    ensures InOrder(Log(events, id, lo, hi))
    ensures Genuine(events, id, Log(events, id, lo, hi))
    ensures Complete(events, id, lo, hi, Log(events, id, lo, hi))
    decreases hi - lo
  {
    if lo < hi {
      var (rows, tail) := (Log(events, id, lo, hi), Log(events, id, lo + 1, hi));
      LogExact(events, id, lo + 1, hi);
      var head := if Listed(events, id, lo + 1) then [Row(lo + 1, events[lo + 1])] else [];
      assert rows == head + tail;
      forall s: nat | lo < s <= hi && Listed(events, id, s) ensures Row(s, events[s]) in rows {
        assert s == lo + 1 ==> Row(s, events[s]) == rows[0];
      }
    }
  }

  lemma {:induction false} LogSplit(events: map<nat, Event>, id: Text, lo: nat, mid: nat, hi: nat)
    requires lo <= mid <= hi
    ensures Log(events, id, lo, hi) == Log(events, id, lo, mid) + Log(events, id, mid, hi)
    decreases mid - lo
  {
    if lo < mid { LogSplit(events, id, lo + 1, mid, hi); }
  }

  lemma {:induction false} LogAgrees(a: map<nat, Event>, b: map<nat, Event>, id: Text, lo: nat, hi: nat)
    requires forall s: nat :: lo < s <= hi ==> Listed(a, id, s) == Listed(b, id, s)
    requires forall s: nat :: lo < s <= hi && Listed(a, id, s) && Listed(b, id, s) ==> a[s] == b[s]
    ensures Log(a, id, lo, hi) == Log(b, id, lo, hi)
    decreases hi - lo
  {
    if lo < hi {
      assert Listed(a, id, lo + 1) == Listed(b, id, lo + 1);
      LogAgrees(a, b, id, lo + 1, hi);
    }
  }

  /** A page is the log up to the number of its last event. */
  lemma {:induction false} PageIsLog(events: map<nat, Event>, id: Text, lo: nat, hi: nat, n: nat)
    requires 0 < n <= |Log(events, id, lo, hi)|
    ensures var page := Log(events, id, lo, hi)[..n]; page == Log(events, id, lo, page[n - 1].sequence)
  {
    hide Log;
    var rows := Log(events, id, lo, hi);
    var last := rows[n - 1].sequence;
    LogExact(events, id, lo, hi);
    LogSplit(events, id, lo, last, hi);
    var (front, back) := (Log(events, id, lo, last), Log(events, id, last, hi));
    assert forall i :: 0 <= i < |front| ==> rows[i] == front[i];
    assert forall i :: |front| <= i < |rows| ==> rows[i] == back[i - |front|];
    assert rows[n - 1].sequence == last;
    assert n <= |front|;
    assert rows[|front| - 1].sequence <= last;
    assert rows[..n] == front;
  }

  // ---------------------------------------------------------------- growing logs

  /** The job's events are kept, and later ones have higher numbers. */
  ghost predicate Growing(a: Tables, b: Tables, id: Text) {
    && (forall s: nat :: Listed(a.events, id, s) ==> Listed(b.events, id, s) && b.events[s] == a.events[s])
    && (forall s: nat, t: nat :: Listed(b.events, id, s) && !Listed(a.events, id, s) && Listed(a.events, id, t) ==>
        t < s)
  }

  ghost predicate Bounded(db: Tables) {
    forall s :: s in db.events ==> s <= db.eventSeq
  }

  /** What the successive polls of one job read. */
  ghost predicate PollsGrow(polls: nat -> Tables, id: Text) {
    && (forall k :: Bounded(polls(k)))
    && (forall j, k :: j <= k ==> Growing(polls(j), polls(k), id))
  }

  /** The rows are the job's log from the start to the cursor. */
  ghost predicate Faithful(db: Tables, id: Text, after: nat, rows: seq<Row>, cursor: nat) {
    && rows == Log(db.events, id, after, cursor)
    && after <= cursor
    && (rows == [] ==> cursor == after)
    && (rows != [] ==> rows[|rows| - 1].sequence == cursor)
  }

  /** Nothing is ever added at or below a cursor that events have reached. */
  lemma FaithfulLater(a: Tables, b: Tables, id: Text, after: nat, rows: seq<Row>, cursor: nat)
    requires Growing(a, b, id) && Faithful(a, id, after, rows, cursor)
    ensures Faithful(b, id, after, rows, cursor)
  {
    LogExact(a.events, id, after, cursor);
    forall s: nat | after < s <= cursor ensures Listed(a.events, id, s) == Listed(b.events, id, s) {
      assert rows[|rows| - 1].sequence == cursor && IsRow(a.events, id, rows[|rows| - 1]);
    }
    LogAgrees(a.events, b.events, id, after, cursor);
  }

  /** A page read at the cursor continues the rows. */
  lemma {:induction false} FaithfulPage(db: Tables, id: Text, after: nat, rows: seq<Row>, cursor: nat, n: nat)
    requires Faithful(db, id, after, rows, cursor)
    requires 0 < n <= |Log(db.events, id, cursor, db.eventSeq)|
    ensures var page := Log(db.events, id, cursor, db.eventSeq)[..n];
            Faithful(db, id, after, rows + page, page[n - 1].sequence)
  {
    PageIsLog(db.events, id, cursor, db.eventSeq, n);
    var page := Log(db.events, id, cursor, db.eventSeq)[..n];
    LogSplit(db.events, id, after, cursor, page[n - 1].sequence);
  }

  /** An empty page: the rows are all there is. */
  lemma {:induction false} FaithfulEnd(db: Tables, id: Text, after: nat, rows: seq<Row>, cursor: nat)
    requires Bounded(db) && Faithful(db, id, after, rows, cursor) && Log(db.events, id, cursor, db.eventSeq) == []
    ensures rows == Log(db.events, id, after, db.eventSeq)
  {
    if cursor <= db.eventSeq {
      LogSplit(db.events, id, after, cursor, db.eventSeq);
    } else {
      LogExact(db.events, id, after, cursor);
      assert rows == [];
      assert after >= db.eventSeq;
    }
  }

  // ------------------------------------------------------------------ the stream

  datatype Frame = EventFrame(row: Row) | BoundaryFrame(afterSequence: nat, reason: string) | KeepAlive

  datatype Ending =
    | Drained
    | Boundary(afterSequence: nat, reason: string)
    | Broken(error: Error)
    | Disconnected

  function Rows(frames: seq<Frame>): seq<Row> {
    if frames == [] then []
    else
      var (front, f) := (frames[..|frames| - 1], frames[|frames| - 1]);
      if f.EventFrame? then Rows(front) + [f.row] else Rows(front)
  }

  function KeepAlives(frames: seq<Frame>): nat {
    if frames == [] then 0
    else KeepAlives(frames[..|frames| - 1]) + (if frames[|frames| - 1].KeepAlive? then 1 else 0)
  }

  lemma {:induction false} FrameAdded(frames: seq<Frame>, f: Frame)
    ensures Rows(frames + [f]) == if f.EventFrame? then Rows(frames) + [f.row] else Rows(frames)
    ensures KeepAlives(frames + [f]) == KeepAlives(frames) + (if f.KeepAlive? then 1 else 0)
  {
    assert (frames + [f])[..|frames|] == frames;
  }

  predicate Plain(frames: seq<Frame>) {
    forall i :: 0 <= i < |frames| ==> !frames[i].BoundaryFrame?
  }

  /** What one segment of the stream delivered by its last poll. */
  ghost predicate Delivered(db: Tables, id: Text, after: nat, rows: seq<Row>, end: Ending) {
    match end
    case Drained => rows == Log(db.events, id, after, db.eventSeq)
    case Boundary(cursor, _) => rows != [] && Faithful(db, id, after, rows, cursor)
    case _ => exists cursor :: Faithful(db, id, after, rows, cursor)
  }

  // ------------------------------------------------- the stream, poll by poll

  function Total(sizes: seq<nat>): nat {
    if sizes == [] then 0 else Total(sizes[..|sizes| - 1]) + sizes[|sizes| - 1]
  }

  /** The number of the last of the first n rows. */
  function CursorAt(after: nat, rows: seq<Row>, n: nat): nat
    requires n <= |rows|
  {
    if n == 0 then after else rows[n - 1].sequence
  }

  /** The k-th poll read a page of at most 500 rows from where the pages before it
      ended, and gave sizes[k] of the rows. */
  ghost predicate PageAt(env: Env, polls: nat -> Tables, id: Text, after: nat, first: nat, rows: seq<Row>,
                         sizes: seq<nat>, k: nat)
    requires k < |sizes|
  {
    var n := Total(sizes[..k]);
    && n + sizes[k] <= |rows|
    && ReplayEvents(env, polls(first + k), id, CursorAt(after, rows, n), 500) == Ok(rows[n..n + sizes[k]])
  }

  ghost predicate Paged(env: Env, polls: nat -> Tables, id: Text, after: nat, first: nat, rows: seq<Row>,
                        sizes: seq<nat>)
  {
    Total(sizes) == |rows| && forall k: nat :: k < |sizes| ==> PageAt(env, polls, id, after, first, rows, sizes, k)
  }

  /** How many polls in a row, up to the last, gave nothing. */
  function Idle(sizes: seq<nat>): nat {
    if sizes == [] || sizes[|sizes| - 1] > 0 then 0 else Idle(sizes[..|sizes| - 1]) + 1
  }

  /** A keepalive is due after every sixtieth idle poll in a row. */
  predicate KeepAliveDue(sizes: seq<nat>) {
    Idle(sizes) > 0 && Idle(sizes) % 60 == 0
  }

  function KeepAlivesDue(sizes: seq<nat>): nat {
    if sizes == [] then 0
    else KeepAlivesDue(sizes[..|sizes| - 1]) + (if KeepAliveDue(sizes) then 1 else 0)
  }

  function EventFrames(page: seq<Row>): (frames: seq<Frame>)
    ensures |frames| == |page|
    ensures forall i :: 0 <= i < |page| ==> frames[i] == EventFrame(page[i])
  {
    seq(|page|, i requires 0 <= i < |page| => EventFrame(page[i]))
  }

  /** The frames of the pages: each row once, in order, and while following a keepalive
      wherever one is due. */
  function Shown(rows: seq<Row>, sizes: seq<nat>, follow: bool): seq<Frame>
    requires Total(sizes) == |rows|
    decreases |sizes|
  {
    if sizes == [] then []
    else
      var n := Total(sizes[..|sizes| - 1]);
      Shown(rows[..n], sizes[..|sizes| - 1], follow) + EventFrames(rows[n..])
      + (if follow && KeepAliveDue(sizes) then [KeepAlive] else [])
  }

  /** Without following, the stream went on after the k-th poll: it gave rows, and
      neither limit was reached. */
  predicate WentOn(late: nat -> bool, first: nat, sizes: seq<nat>, k: nat)
    requires k < |sizes|
  {
    sizes[k] > 0 && Total(sizes[..k + 1]) < 10_000 && !late(first + k)
  }

  /** Why the stream ended where it did. */
  ghost predicate Ended(late: nat -> bool, follow: bool, next: nat, rows: seq<Row>, sizes: seq<nat>, end: Ending) {
    match end
    case Drained => !follow && sizes != [] && sizes[|sizes| - 1] == 0
    case Boundary(cursor, reason) =>
      && !follow && sizes != [] && sizes[|sizes| - 1] > 0 && next > 0
      && (|rows| >= 10_000 || late(next - 1))
      && rows != [] && cursor == rows[|rows| - 1].sequence
      && reason == (if |rows| >= 10_000 then "event_limit" else "time_limit")
    case _ => true
  }

  ghost predicate PollsWentOn(late: nat -> bool, first: nat, sizes: seq<nat>, n: nat) {
    n <= |sizes| && forall k: nat :: k < n ==> WentOn(late, first, sizes, k)
  }

  lemma PagesGrow(env: Env, polls: nat -> Tables, id: Text, after: nat, first: nat, rows: seq<Row>, sizes: seq<nat>,
                  page: seq<Row>)
    requires Paged(env, polls, id, after, first, rows, sizes)
    requires ReplayEvents(env, polls(first + |sizes|), id, CursorAt(after, rows, |rows|), 500) == Ok(page)
    ensures Paged(env, polls, id, after, first, rows + page, sizes + [|page|])
  {
    hide ReplayEvents;
    var (rows', sizes') := (rows + page, sizes + [|page|]);
    assert sizes'[..|sizes|] == sizes;
    forall k: nat | k < |sizes'| ensures PageAt(env, polls, id, after, first, rows', sizes', k) {
      if k < |sizes| {
        assert PageAt(env, polls, id, after, first, rows, sizes, k);
        assert sizes'[..k] == sizes[..k];
        var n := Total(sizes[..k]);
        assert rows'[n..n + sizes[k]] == rows[n..n + sizes[k]];
      } else {
        assert rows'[|rows|..|rows'|] == page;
      }
    }
  }

  lemma {:induction false} ShownGrows(rows: seq<Row>, sizes: seq<nat>, follow: bool, page: seq<Row>)
    requires Total(sizes) == |rows|
    ensures Total(sizes + [|page|]) == |rows + page|
    ensures Shown(rows + page, sizes + [|page|], follow)
      == Shown(rows, sizes, follow) + EventFrames(page)
         + (if follow && KeepAliveDue(sizes + [|page|]) then [KeepAlive] else [])
  {
    hide KeepAliveDue;
    assert (sizes + [|page|])[..|sizes|] == sizes;
    assert (rows + page)[..|rows|] == rows && (rows + page)[|rows|..] == page;
  }

  lemma {:induction false} ShownKeepAlives(rows: seq<Row>, sizes: seq<nat>, follow: bool)
    requires Total(sizes) == |rows|
    ensures KeepAlives(Shown(rows, sizes, follow)) == if follow then KeepAlivesDue(sizes) else 0
    ensures Rows(Shown(rows, sizes, follow)) == rows && Plain(Shown(rows, sizes, follow))
    decreases |sizes|
  {
    hide KeepAliveDue, EventFrames;
    if sizes != [] {
      var n := Total(sizes[..|sizes| - 1]);
      var (front, page) := (Shown(rows[..n], sizes[..|sizes| - 1], follow), rows[n..]);
      ShownKeepAlives(rows[..n], sizes[..|sizes| - 1], follow);
      EventsAdded(front, page);
      FrameAdded(front + EventFrames(page), KeepAlive);
      assert front + EventFrames(page) + [] == front + EventFrames(page);
      assert rows[..n] + page == rows;
    } else {
      assert rows == [];
    }
  }

  lemma {:induction false} EventsAdded(frames: seq<Frame>, page: seq<Row>)
    requires Plain(frames)
    ensures Rows(frames + EventFrames(page)) == Rows(frames) + page
    ensures KeepAlives(frames + EventFrames(page)) == KeepAlives(frames) && Plain(frames + EventFrames(page))
  {
    if page == [] {
      assert frames + EventFrames(page) == frames;
    } else {
      var (front, last) := (page[..|page| - 1], page[|page| - 1]);
      EventsAdded(frames, front);
      FrameAdded(frames + EventFrames(front), EventFrame(last));
      assert frames + EventFrames(page) == frames + EventFrames(front) + [EventFrame(last)];
      assert Rows(frames) + front + [last] == Rows(frames) + page;
    }
  }

  /** for event in events: one frame each. */
  method EmitPage(frames: seq<Frame>, page: seq<Row>, start: nat) returns (out: seq<Frame>, sequence: nat)
    ensures out == frames + EventFrames(page)
    ensures sequence == if page == [] then start else page[|page| - 1].sequence
  {
    out, sequence := frames, start;
    for i := 0 to |page|
      invariant out == frames + EventFrames(page[..i])
      invariant sequence == if i == 0 then start else page[i - 1].sequence
    {
      sequence := page[i].sequence;
      out := out + [EventFrame(page[i])];
      assert EventFrames(page[..i + 1]) == EventFrames(page[..i]) + [EventFrame(page[i])];
    }
    assert page[..|page|] == page;
  }

  /** event_stream.  polls(k) is what the k-th query reads, late(k) whether the time
      limit has passed after it; the client stays for `patience` queries.  sizes[k] is
      how many events the k-th of them gave. */
  method EventStream(env: Env, polls: nat -> Tables, late: nat -> bool, id: Text, after: nat, follow: bool, first: nat,
                     patience: nat)
    returns (frames: seq<Frame>, end: Ending, next: nat, ghost sizes: seq<nat>)
    requires patience > 0 && PollsGrow(polls, id)
    ensures first < next <= first + patience && |sizes| == next - first - (if end.Broken? then 1 else 0)
    ensures Delivered(polls(next - 1), id, after, Rows(frames), end)
    ensures Paged(env, polls, id, after, first, Rows(frames), sizes)
    ensures frames == Shown(Rows(frames), sizes, follow)
      + (if end.Boundary? then [BoundaryFrame(end.afterSequence, end.reason)] else [])
    ensures KeepAlives(frames) == if follow then KeepAlivesDue(sizes) else 0
    ensures Ended(late, follow, next, Rows(frames), sizes, end)
    ensures !follow ==>
      PollsWentOn(late, first, sizes, |sizes| - (if end.Drained? || end.Boundary? then 1 else 0))
    ensures !follow ==> |Rows(frames)| < 10_500
    ensures !follow && patience > 10_000 ==> !end.Disconnected?
    ensures follow ==> end.Disconnected? || end.Broken?
    ensures end.Disconnected? ==> next == first + patience
    ensures end.Broken? ==> ReplayEvents(env, polls(next - 1), id, 0, 0) == Err(end.error)
  {
    hide Log, ReplayEvents, Growing, Faithful, Rows, KeepAlives, Shown, Total, Paged, Plain, Idle, KeepAlivesDue,
         EventFrames, Delivered, Ended, WentOn;
    var sequence, idle, emitted := after, 0, 0;
    frames, next, sizes := [], first, [];
    ghost var rows: seq<Row> := [];
    NothingYet(polls(first), id, after);
    NothingShown(env, polls, id, after, first, follow);
    while next < first + patience
      invariant first <= next <= first + patience && |sizes| == next - first
      invariant Total(sizes) == |rows| == emitted && frames == Shown(rows, sizes, follow)
      invariant Faithful(polls(if next == first then first else next - 1), id, after, rows, sequence)
      invariant Paged(env, polls, id, after, first, rows, sizes) && sequence == CursorAt(after, rows, |rows|)
      invariant follow ==> idle == Idle(sizes) % 60
      invariant !follow ==> |rows| < 10_000 && next - first <= |rows| && PollsWentOn(late, first, sizes, |sizes|)
    {
      ghost var before, cursor := polls(if next == first then first else next - 1), sequence;
      FaithfulLater(before, polls(next), id, after, rows, cursor);
      var page := ReplayEvents(env, polls(next), id, sequence, PAGE_SIZE);
      next := next + 1;
      if page.Err? {
        ErrorAnywhere(env, polls(next - 1), id, sequence);
        ShownPlain(rows, sizes, follow);
        EndsAnywhere(polls(next - 1), id, after, rows, cursor, Broken(page.error), late, follow, next, sizes);
        return frames, Broken(page.error), next, sizes;
      }
      PageExtends(env, polls(next - 1), id, after, rows, cursor);
      frames, sequence := EmitPage(frames, page.value, sequence);
      PagesGrow(env, polls, id, after, first, rows, sizes, page.value);
      ShownGrows(rows, sizes, follow, page.value);
      ghost var sizes' := sizes + [|page.value|];
      assert sizes'[..|sizes|] == sizes;
      TotalsGrow(sizes, |page.value|);
      assert rows + [] == rows;
      rows := rows + page.value;
      emitted := emitted + |page.value|;
      if page.value != [] {
        idle := 0;
      }
      if !follow {
        WentOnGrows(late, first, sizes, |page.value|);
        sizes := sizes';
        ShownPlain(rows, sizes, follow);
        assert frames + [] == frames;
        if page.value == [] {
          EndsDrained(polls(next - 1), id, after, rows, late, next, sizes);
          return frames, Drained, next, sizes;
        }
        var limited := emitted >= REPLAY_LIMIT;
        if limited || late(next - 1) {
          var reason := if limited then "event_limit" else "time_limit";
          FrameAdded(frames, BoundaryFrame(sequence, reason));
          EndsAtBoundary(polls(next - 1), id, after, rows, sequence, reason, late, next, sizes);
          return frames + [BoundaryFrame(sequence, reason)], Boundary(sequence, reason), next, sizes;
        }
        WentOnOnce(late, first, sizes);
      } else {
        if page.value == [] {
          idle := idle + 1;
          if idle >= KEEPALIVE_CYCLES {
            frames := frames + [KeepAlive];
            idle := 0;
          }
        }
        sizes := sizes';
      }
    }
    ShownPlain(rows, sizes, follow);
    end := Disconnected;
    EndsAnywhere(polls(next - 1), id, after, rows, sequence, end, late, follow, next, sizes);
  }

  lemma EndsAnywhere(db: Tables, id: Text, after: nat, rows: seq<Row>, cursor: nat, end: Ending, late: nat -> bool,
                     follow: bool, next: nat, sizes: seq<nat>)
    requires Faithful(db, id, after, rows, cursor) && (end.Broken? || end.Disconnected?)
    ensures Delivered(db, id, after, rows, end) && Ended(late, follow, next, rows, sizes, end)
  {
  }

  lemma {:induction false} EndsDrained(db: Tables, id: Text, after: nat, rows: seq<Row>, late: nat -> bool, next: nat,
                                       sizes: seq<nat>)
    requires rows == Log(db.events, id, after, db.eventSeq) && sizes != [] && sizes[|sizes| - 1] == 0
    ensures Delivered(db, id, after, rows, Drained) && Ended(late, false, next, rows, sizes, Drained)
  {
  }

  lemma EndsAtBoundary(db: Tables, id: Text, after: nat, rows: seq<Row>, cursor: nat, reason: string,
                       late: nat -> bool, next: nat, sizes: seq<nat>)
    requires rows != [] && Faithful(db, id, after, rows, cursor) && next > 0
    requires sizes != [] && sizes[|sizes| - 1] > 0 && (|rows| >= 10_000 || late(next - 1))
    requires reason == if |rows| >= 10_000 then "event_limit" else "time_limit"
    ensures Delivered(db, id, after, rows, Boundary(cursor, reason))
    ensures Ended(late, false, next, rows, sizes, Boundary(cursor, reason))
  {
  }

  lemma {:induction false} WentOnOnce(late: nat -> bool, first: nat, sizes: seq<nat>)
    requires sizes != [] && PollsWentOn(late, first, sizes, |sizes| - 1)
    requires sizes[|sizes| - 1] > 0 && Total(sizes) < 10_000 && !late(first + |sizes| - 1)
    ensures PollsWentOn(late, first, sizes, |sizes|)
  {
    assert sizes[..|sizes|] == sizes;
    assert WentOn(late, first, sizes, |sizes| - 1);
  }

  lemma {:induction false} NothingShown(env: Env, polls: nat -> Tables, id: Text, after: nat, first: nat, follow: bool)
    ensures Total([]) == Idle([]) == 0 && Shown([], [], follow) == []
    ensures Paged(env, polls, id, after, first, [], [])
  {
  }

  lemma {:induction false} ShownPlain(rows: seq<Row>, sizes: seq<nat>, follow: bool)
    requires Total(sizes) == |rows|
    ensures var frames := Shown(rows, sizes, follow);
      && Rows(frames) == rows && Plain(frames) && frames + [] == frames
      && KeepAlives(frames) == if follow then KeepAlivesDue(sizes) else 0
  {
    ShownKeepAlives(rows, sizes, follow);
  }

  lemma WentOnGrows(late: nat -> bool, first: nat, sizes: seq<nat>, n: nat)
    requires PollsWentOn(late, first, sizes, |sizes|)
    ensures PollsWentOn(late, first, sizes + [n], |sizes|)
  {
    forall k: nat | k < |sizes| ensures WentOn(late, first, sizes + [n], k) {
      assert WentOn(late, first, sizes, k) && (sizes + [n])[..k + 1] == sizes[..k + 1];
    }
  }

  lemma {:induction false} TotalsGrow(sizes: seq<nat>, n: nat)
    ensures Total(sizes + [n]) == Total(sizes) + n
    ensures (sizes + [n])[..|sizes| + 1] == sizes + [n]
    ensures Idle(sizes + [n]) == if n > 0 then 0 else Idle(sizes) + 1
  {
    assert (sizes + [n])[..|sizes|] == sizes;
  }

  lemma NothingYet(db: Tables, id: Text, after: nat)
    ensures Faithful(db, id, after, [], after) && Rows([]) == [] && KeepAlives([]) == 0
  {
  }

  lemma ErrorAnywhere(env: Env, db: Tables, id: Text, after: nat)
    ensures ReplayEvents(env, db, id, after, PAGE_SIZE).Err? ==>
      ReplayEvents(env, db, id, 0, 0) == ReplayEvents(env, db, id, after, PAGE_SIZE)
  {
    hide Log;
  }

  /** What a page adds: the next events, or the news that there are none. */
  lemma {:induction false} PageExtends(env: Env, db: Tables, id: Text, after: nat, rows: seq<Row>, cursor: nat)
    requires Bounded(db) && Faithful(db, id, after, rows, cursor) && ReplayEvents(env, db, id, cursor, PAGE_SIZE).Ok?
    ensures var page := ReplayEvents(env, db, id, cursor, PAGE_SIZE).value;
      && |page| <= PAGE_SIZE
      && (page == [] ==> rows == Log(db.events, id, after, db.eventSeq))
      && (page != [] ==> Faithful(db, id, after, rows + page, page[|page| - 1].sequence))
  {
    hide Log;
    var all := Log(db.events, id, cursor, db.eventSeq);
    if all == [] {
      FaithfulEnd(db, id, after, rows, cursor);
    } else {
      FaithfulPage(db, id, after, rows, cursor, |Take(all, PAGE_SIZE)|);
    }
  }

  // ------------------------------------------------------------------ resumption

  /** One request for a replay and what it gave. */
  datatype Segment = Segment(after: nat, rows: seq<Row>, end: Ending, lastPoll: nat)

  /** Each segment but the last ends at a boundary, and the next starts there, later. */
  ghost predicate Resumed(polls: nat -> Tables, id: Text, segments: seq<Segment>) {
    && (forall i :: 0 <= i < |segments| ==>
          Delivered(polls(segments[i].lastPoll), id, segments[i].after, segments[i].rows, segments[i].end))
    && (forall i :: 0 <= i < |segments| - 1 ==>
          && segments[i].end.Boundary?
          && segments[i + 1].after == segments[i].end.afterSequence
          && segments[i].lastPoll <= segments[i + 1].lastPoll)
  }

  function AllRows(segments: seq<Segment>): seq<Row> {
    if segments == [] then [] else AllRows(segments[..|segments| - 1]) + segments[|segments| - 1].rows
  }

  /** Following the boundaries, the rows so far are the log from the first start to
      the latest cursor, whatever was appended between the segments. */
  lemma {:induction false} ResumedFaithful(polls: nat -> Tables, id: Text, segments: seq<Segment>)
    requires PollsGrow(polls, id) && Resumed(polls, id, segments) && segments != []
    requires segments[|segments| - 1].end.Boundary?
    ensures var last := segments[|segments| - 1];
            Faithful(polls(last.lastPoll), id, segments[0].after, AllRows(segments), last.end.afterSequence)
  {
    hide Log, Growing;
    var n := |segments|;
    var (front, last) := (segments[..n - 1], segments[n - 1]);
    if n == 1 {
      assert AllRows(segments) == AllRows(front) + last.rows && AllRows(front) == [];
    } else {
      ResumedFaithful(polls, id, front);
      FaithfulLater(polls(front[n - 2].lastPoll), polls(last.lastPoll), id, segments[0].after, AllRows(front),
                    last.after);
      LogSplit(polls(last.lastPoll).events, id, segments[0].after, last.after, last.end.afterSequence);
    }
  }

  /** Exactly once: when the last segment drains, the segments together hold every
      event of the job after the first start cursor, in order, once each. */
  lemma {:induction false} ResumedExactlyOnce(polls: nat -> Tables, id: Text, segments: seq<Segment>)
    requires PollsGrow(polls, id) && Resumed(polls, id, segments) && segments != []
    requires segments[|segments| - 1].end.Drained?
    ensures var (rows, db) := (AllRows(segments), polls(segments[|segments| - 1].lastPoll));
      && InOrder(rows) && Genuine(db.events, id, rows)
      && Complete(db.events, id, segments[0].after, db.eventSeq, rows)
      && (forall i :: 0 <= i < |rows| ==> rows[i].sequence > segments[0].after)
  {
    hide Log, Faithful, Growing;
    var (last, start) := (segments[|segments| - 1], segments[0].after);
    ResumedDrained(polls, id, segments);
    LogExact(polls(last.lastPoll).events, id, start, polls(last.lastPoll).eventSeq);
  }

  lemma {:induction false} ResumedDrained(polls: nat -> Tables, id: Text, segments: seq<Segment>)
    requires PollsGrow(polls, id) && Resumed(polls, id, segments) && segments != []
    requires segments[|segments| - 1].end.Drained?
    ensures var db := polls(segments[|segments| - 1].lastPoll);
            AllRows(segments) == Log(db.events, id, segments[0].after, db.eventSeq)
  {
    hide Log, Growing;
    var n := |segments|;
    var (front, last) := (segments[..n - 1], segments[n - 1]);
    var (db, start) := (polls(last.lastPoll), segments[0].after);
    assert AllRows(segments) == AllRows(front) + last.rows;
    if n > 1 {
      ResumedFaithful(polls, id, front);
      FaithfulLater(polls(front[n - 2].lastPoll), db, id, start, AllRows(front), last.after);
      CursorInRange(db, id, start, AllRows(front), last.after);
      LogSplit(db.events, id, start, last.after, db.eventSeq);
    }
  }

  lemma CursorInRange(db: Tables, id: Text, after: nat, rows: seq<Row>, cursor: nat)
    requires Bounded(db) && Faithful(db, id, after, rows, cursor) && rows != []
    ensures after <= cursor <= db.eventSeq
  {
    LogExact(db.events, id, after, cursor);
  }
}
