/**
 Which processes a harness instance may kill, and in which order:
 scripts/e2e-obsidian-sweep.js.  Parent tables come from the operating system
 and may be cyclic, hold duplicates, or name parents that are gone.
 */
module ProcessTree {
  import opened Outcomes

  datatype Process = Process(pid: int, parentPid: int, commandLine: string, createdAtMs: Option<int>)

  const MAX_SAFE_INTEGER := 9_007_199_254_740_991

  /** rows: the entries with a usable pid. */
  function Usable(processes: seq<Process>): (rows: seq<Process>)
    ensures forall r :: r in rows <==> r in processes && 0 < r.pid <= MAX_SAFE_INTEGER
  {
    if processes == [] then []
    else (if 0 < processes[0].pid <= MAX_SAFE_INTEGER then [processes[0]] else []) + Usable(processes[1..])
  }

  // ---------------------------------------------------------------- reachability

  predicate Link(rows: seq<Process>, parent: int, child: int) {
    exists i :: 0 <= i < |rows| && rows[i].parentPid == parent && rows[i].pid == child
  }

  ghost predicate IsPath(rows: seq<Process>, path: seq<int>) {
    path != [] && forall i :: 0 <= i < |path| - 1 ==> Link(rows, path[i], path[i + 1])
  }

  ghost predicate Joins(rows: seq<Process>, path: seq<int>, a: int, b: int) {
    IsPath(rows, path) && path[0] == a && path[|path| - 1] == b
  }

  /** b is a, or a descendant of a by parent links. */
  ghost predicate Reaches(rows: seq<Process>, a: int, b: int) {
    exists path :: Joins(rows, path, a, b)
  }

  lemma ReachesSelf(rows: seq<Process>, a: int)
    ensures Reaches(rows, a, a)
  {
    assert Joins(rows, [a], a, a);
  }

  lemma ReachesThrough(rows: seq<Process>, a: int, b: int, c: int)
    requires Link(rows, a, b) && Reaches(rows, b, c)
    ensures Reaches(rows, a, c)
  {
    var path :| Joins(rows, path, b, c);
    var longer := [a] + path;
    forall i | 0 <= i < |longer| - 1 ensures Link(rows, longer[i], longer[i + 1]) {
      if i > 0 { assert Link(rows, path[i - 1], path[i]); }
    }
    assert Joins(rows, longer, a, c);
  }

  ghost predicate Closed(rows: seq<Process>, s: set<int>) {
    forall a, b :: a in s && Link(rows, a, b) ==> b in s
  }

  lemma {:induction false} PathStaysInside(rows: seq<Process>, s: set<int>, path: seq<int>)
    requires Closed(rows, s) && IsPath(rows, path) && path[0] in s
    ensures path[|path| - 1] in s
    decreases |path|
  {
    if |path| > 1 {
      assert Link(rows, path[0], path[1]);
      forall i | 0 <= i < |path[1..]| - 1 ensures Link(rows, path[1..][i], path[1..][i + 1]) {
        assert Link(rows, path[i + 1], path[i + 2]);
      }
      PathStaysInside(rows, s, path[1..]);
    }
  }

  lemma ClosedHoldsReachable(rows: seq<Process>, s: set<int>, a: int)
    requires Closed(rows, s) && a in s
    ensures forall b :: Reaches(rows, a, b) ==> b in s
  {
    forall b | Reaches(rows, a, b) ensures b in s {
      var path :| Joins(rows, path, a, b);
      PathStaysInside(rows, s, path);
    }
  }

  // ------------------------------------------------------------------ collecting

  /** A Set that is filled in place. */
  class PidSet {
    var items: set<int>

    constructor ()
      ensures items == {}
    {
      items := {};
    }

    method Add(pid: int)
      modifies this
      ensures items == old(items) + {pid}
    {
      items := items + {pid};
    }
  }

  /** The Map from a parent's pid to the pids of its children. */
  ghost predicate Indexes(childrenOf: map<int, seq<int>>, rows: seq<Process>) {
    forall a, b :: Lists(childrenOf, a, b) <==> Link(rows, a, b)
  }

  predicate Lists(childrenOf: map<int, seq<int>>, parent: int, child: int) {
    parent in childrenOf && child in childrenOf[parent]
  }

  method IndexChildren(rows: seq<Process>) returns (childrenOf: map<int, seq<int>>)
    ensures Indexes(childrenOf, rows)
  {
    childrenOf := map[];
    for i := 0 to |rows|
      invariant Indexes(childrenOf, rows[..i])
    {
      var row := rows[i];
      ghost var before := childrenOf;
      if row.parentPid !in childrenOf {
        childrenOf := childrenOf[row.parentPid := []];
      }
      childrenOf := childrenOf[row.parentPid := childrenOf[row.parentPid] + [row.pid]];
      forall a, b ensures Lists(childrenOf, a, b) <==> Link(rows[..i + 1], a, b) {
        assert Lists(before, a, b) <==> Link(rows[..i], a, b);
        LinkGrows(rows, i, a, b);
      }
    }
    assert rows[..|rows|] == rows;
  }

  lemma LinkGrows(rows: seq<Process>, i: nat, a: int, b: int)
    requires i < |rows|
    ensures Link(rows[..i + 1], a, b) <==> Link(rows[..i], a, b) || (rows[i].parentPid == a && rows[i].pid == b)
  {
    if Link(rows[..i + 1], a, b) {
      var k :| 0 <= k < i + 1 && rows[..i + 1][k].parentPid == a && rows[..i + 1][k].pid == b;
      if k < i { assert rows[..i][k] == rows[k]; }
    }
    if Link(rows[..i], a, b) {
      var k :| 0 <= k < i && rows[..i][k].parentPid == a && rows[..i][k].pid == b;
      assert rows[..i + 1][k] == rows[k];
    }
    if rows[i].parentPid == a && rows[i].pid == b { assert rows[..i + 1][i] == rows[i]; }
  }

  /** Every pid that a search from a row can meet. */
  function Pids(rows: seq<Process>): set<int> {
    set i | 0 <= i < |rows| :: rows[i].pid
  }

  /** collectTree: depth first; a pid already in the set is not entered again, so
      cycles end. */
  method CollectTree(rows: seq<Process>, childrenOf: map<int, seq<int>>, pid: int, into: PidSet)
    requires Indexes(childrenOf, rows) && pid in Pids(rows)
    modifies into
    ensures old(into.items) <= into.items && pid in into.items
    ensures forall x :: x in into.items && x !in old(into.items) ==> Reaches(rows, pid, x)
    ensures forall x, c :: x in into.items && x !in old(into.items) && Link(rows, x, c) ==> c in into.items
    decreases Pids(rows) - into.items
  {
    if pid in into.items {
      return;
    }
    into.Add(pid);
    ReachesSelf(rows, pid);
    assert forall c :: Link(rows, pid, c) ==> Lists(childrenOf, pid, c);
    if pid in childrenOf {
      var children := childrenOf[pid];
      for i := 0 to |children|
        invariant old(into.items) + {pid} <= into.items
        invariant forall k :: 0 <= k < i ==> children[k] in into.items
        invariant forall x :: x in into.items && x !in old(into.items) ==> Reaches(rows, pid, x)
        invariant forall x, c :: x in into.items && x !in old(into.items) && x != pid && Link(rows, x, c) ==>
          c in into.items
      {
        var child := children[i];
        assert Lists(childrenOf, pid, child);
        label before:
        CollectTree(rows, childrenOf, child, into);
        forall x | x in into.items && x !in old(into.items) ensures Reaches(rows, pid, x) {
          if x !in old@before(into.items) { ReachesThrough(rows, pid, child, x); }
        }
      }
    }
  }

  /** x is reached from one of the first n rows that count as roots. */
  ghost predicate ReachedFrom(rows: seq<Process>, n: nat, root: Process -> bool, x: int) {
    exists i :: 0 <= i < n && i < |rows| && root(rows[i]) && Reaches(rows, rows[i].pid, x)
  }

  ghost predicate Reached(rows: seq<Process>, root: Process -> bool, x: int) {
    ReachedFrom(rows, |rows|, root, x)
  }

  /** for row of rows: if it is a root, collect its tree. */
  method CollectTrees(rows: seq<Process>, childrenOf: map<int, seq<int>>, root: Process -> bool) returns (into: PidSet)
    requires Indexes(childrenOf, rows)
    ensures fresh(into) && forall x :: x in into.items <==> Reached(rows, root, x)
  {
    into := new PidSet();
    for n := 0 to |rows|
      invariant fresh(into) && Closed(rows, into.items)
      invariant forall x :: x in into.items <==> ReachedFrom(rows, n, root, x)
    {
      ghost var earlier := into.items;
      if root(rows[n]) {
        assert rows[n].pid in Pids(rows);
        CollectTree(rows, childrenOf, rows[n].pid, into);
        ClosedHoldsReachable(rows, into.items, rows[n].pid);
      }
      forall x ensures x in into.items <==> ReachedFrom(rows, n + 1, root, x) {
        assert x in earlier <==> ReachedFrom(rows, n, root, x);
        assert ReachedFrom(rows, n + 1, root, x) <==>
          ReachedFrom(rows, n, root, x) || (root(rows[n]) && Reaches(rows, rows[n].pid, x));
      }
    }
  }

  // --------------------------------------------------------------- owned processes

  /** What the instance knows about its own launch. */
  datatype Harness = Harness(rootPid: Option<int>, cdpPort: Option<nat>, rootCreatedAtMs: Option<int>,
                             teardownStartedAtMs: Option<int>)

  predicate At(line: string, i: int, needle: string) {
    0 <= i <= |line| - |needle| && line[i..i + |needle|] == needle
  }

  predicate Contains(line: string, needle: string) {
    exists i :: 0 <= i <= |line| && At(line, i, needle)
  }

  function DecimalDigits(n: nat): string {
    if n < 10 then [('0' as int + n) as char] else DecimalDigits(n / 10) + [('0' as int + n % 10) as char]
  }

  /** The debugging port, not followed by another digit; port 0 never matches. */
  predicate NamesPort(line: string, port: Option<nat>) {
    port.Some? && port.value != 0
    && var needle := "--remote-debugging-port=" + DecimalDigits(port.value);
    exists i :: 0 <= i <= |line| && At(line, i, needle)
      && !(i + |needle| < |line| && '0' <= line[i + |needle|] <= '9')
  }

  predicate IsHelper(row: Process) {
    Contains(row.commandLine, "--type=")
  }

  /** createdWithinRootLifetimeV1: an unknown time or bound opens the window. */
  predicate WithinRootLifetime(h: Harness, row: Process) {
    row.createdAtMs.None?
    || ((h.rootCreatedAtMs.Some? ==> row.createdAtMs.value >= h.rootCreatedAtMs.value)
        && (h.teardownStartedAtMs.Some? ==> row.createdAtMs.value <= h.teardownStartedAtMs.value))
  }

  predicate OurRoot(h: Harness, row: Process) {
    (h.rootPid == Some(row.pid) && WithinRootLifetime(h, row)) || NamesPort(row.commandLine, h.cdpPort)
  }

  predicate ForeignRoot(h: Harness, row: Process) {
    !OurRoot(h, row) && !IsHelper(row)
  }

  ghost predicate ReachedByUs(h: Harness, rows: seq<Process>, x: int) {
    Reached(rows, (row: Process) => OurRoot(h, row), x)
  }

  ghost predicate ReachedByOthers(h: Harness, rows: seq<Process>, x: int) {
    Reached(rows, (row: Process) => ForeignRoot(h, row), x)
  }

  /** A parentless helper created inside the lifetime window. */
  predicate Stranded(h: Harness, rows: seq<Process>, row: Process) {
    && h.rootCreatedAtMs.Some?
    && row.parentPid !in Pids(rows)
    && IsHelper(row)
    && row.createdAtMs.Some? && WithinRootLifetime(h, row)
  }

  ghost predicate Claimed(h: Harness, rows: seq<Process>, n: nat, x: int) {
    exists i :: 0 <= i < n && i < |rows| && rows[i].pid == x && Stranded(h, rows, rows[i])
  }

  /** The processes that are ours: what our roots reach, and the stranded helpers that
      no foreign root reaches. */
  ghost predicate Owned(h: Harness, rows: seq<Process>, x: int) {
    ReachedByUs(h, rows, x) || (Claimed(h, rows, |rows|, x) && !ReachedByOthers(h, rows, x))
  }

  function Smallest(s: set<int>): (m: int)
    requires s != {}
    ensures m in s && forall x :: x in s ==> m <= x
  {
    SmallestExists(s);
    var m :| m in s && forall x :: x in s ==> m <= x;
    m
  }

  lemma EmptyOrInhabited(s: set<int>)
    ensures s == {} || exists x: int :: x in s
  {
    if forall x: int :: x !in s { assert s == {}; }
  }

  lemma {:induction false} SmallestExists(s: set<int>)
    requires s != {}
    ensures exists m :: m in s && forall x :: x in s ==> m <= x
    decreases s
  {
    EmptyOrInhabited(s);
    var a: int :| a in s;
    if s == {a} {
      assert forall x :: x in s ==> a <= x;
    } else {
      SmallestExists(s - {a});
      var m: int :| m in s - {a} && forall x :: x in s - {a} ==> m <= x;
      var least := if a < m then a else m;
      assert forall x :: x in s ==> x == a || x in s - {a};
      assert least in s && forall x :: x in s ==> least <= x;
    }
  }

  /** The pids of a set in ascending order. */
  function Ascending(s: set<int>): (r: seq<int>)
    ensures forall x :: x in r <==> x in s
    ensures forall i, j :: 0 <= i < j < |r| ==> r[i] < r[j]
    decreases s
  {
    if s == {} then [] else [Smallest(s)] + Ascending(s - {Smallest(s)})
  }

  ghost predicate Increasing(r: seq<int>) {
    forall i, j :: 0 <= i < j < |r| ==> r[i] < r[j]
  }

  /** Exactly the owned processes, in ascending order. */
  ghost predicate IsSelection(h: Harness, processes: seq<Process>, selected: seq<int>) {
    Increasing(selected) && forall x :: x in selected <==> Owned(h, Usable(processes), x)
  }

  lemma ClaimedNext(h: Harness, rows: seq<Process>, n: nat)
    requires n < |rows|
    ensures forall x :: Claimed(h, rows, n + 1, x) <==>
      Claimed(h, rows, n, x) || (rows[n].pid == x && Stranded(h, rows, rows[n]))
  {
    hide Stranded;
  }

  method SelectOwned(h: Harness, processes: seq<Process>) returns (selected: seq<int>)
    ensures IsSelection(h, processes, selected)
  {
    hide IsHelper, OurRoot, ForeignRoot, Reached;
    var rows := Usable(processes);
    var childrenOf := IndexChildren(rows);
    var foreign := CollectTrees(rows, childrenOf, row => ForeignRoot(h, row));
    var owned := CollectTrees(rows, childrenOf, row => OurRoot(h, row));
    assert forall x :: x in foreign.items <==> ReachedByOthers(h, rows, x);
    assert forall x :: x in owned.items <==> ReachedByUs(h, rows, x);
    foreign.items := foreign.items - owned.items;
    if h.rootCreatedAtMs.Some? {
      for n := 0 to |rows|
        invariant forall x :: x in foreign.items <==> ReachedByOthers(h, rows, x) && !ReachedByUs(h, rows, x)
        invariant forall x :: x in owned.items <==>
          ReachedByUs(h, rows, x) || (Claimed(h, rows, n, x) && !ReachedByOthers(h, rows, x))
      {
        var row := rows[n];
        ClaimedNext(h, rows, n);
        if row.pid in owned.items || row.pid in foreign.items { continue; }
        if row.parentPid in Pids(rows) { continue; }
        if !IsHelper(row) { continue; }
        if row.createdAtMs.None? { continue; }
        if !WithinRootLifetime(h, row) { continue; }
        owned.Add(row.pid);
      }
    }
    return Ascending(owned.items);
  }

  // ------------------------------------------------------ what the selection means

  lemma HeadListed(q: seq<int>)
    ensures q == [] || exists x: int :: x in q
  {
    if q != [] {
      var x := q[0];
      assert x in q;
    }
  }

  lemma {:induction false} IncreasingUnique(r: seq<int>, q: seq<int>)
    requires Increasing(r) && Increasing(q) && forall x :: x in r <==> x in q
    ensures r == q
    decreases |r|
  {
    if r == [] {
      HeadListed(q);
    } else {
      assert r[0] in q && q != [] && q[0] in r;
      assert r[0] == q[0];
      forall x ensures x in r[1..] <==> x in q[1..] {
        assert x in r[1..] <==> x in r && x != r[0];
        assert x in q[1..] <==> x in q && x != q[0];
      }
      IncreasingUnique(r[1..], q[1..]);
    }
  }

  ghost predicate SameRows(a: seq<Process>, b: seq<Process>) {
    forall r :: r in a <==> r in b
  }

  lemma ReachesSameRows(a: seq<Process>, b: seq<Process>, x: int, y: int)
    requires SameRows(a, b) && Reaches(a, x, y)
    ensures Reaches(b, x, y)
  {
    var path :| Joins(a, path, x, y);
    forall i | 0 <= i < |path| - 1 ensures Link(b, path[i], path[i + 1]) {
      assert Link(a, path[i], path[i + 1]);
      var k :| 0 <= k < |a| && a[k].parentPid == path[i] && a[k].pid == path[i + 1];
      assert a[k] in b;
    }
    assert Joins(b, path, x, y);
  }

  lemma ReachedSameRows(a: seq<Process>, b: seq<Process>, root: Process -> bool, x: int)
    requires SameRows(a, b) && Reached(a, root, x)
    ensures Reached(b, root, x)
  {
    var i :| 0 <= i < |a| && root(a[i]) && Reaches(a, a[i].pid, x);
    assert a[i] in b;
    var k :| 0 <= k < |b| && b[k] == a[i];
    ReachesSameRows(a, b, a[i].pid, x);
  }

  lemma PidsSameRows(a: seq<Process>, b: seq<Process>)
    requires SameRows(a, b)
    ensures Pids(a) <= Pids(b)
  {
    forall x | x in Pids(a) ensures x in Pids(b) {
      var i :| 0 <= i < |a| && a[i].pid == x;
      assert a[i] in b;
    }
  }

  lemma ClaimedSameRows(h: Harness, a: seq<Process>, b: seq<Process>, x: int)
    requires SameRows(a, b) && Claimed(h, a, |a|, x)
    ensures Claimed(h, b, |b|, x)
  {
    var i :| 0 <= i < |a| && a[i].pid == x && Stranded(h, a, a[i]);
    assert a[i] in b;
    var k :| 0 <= k < |b| && b[k] == a[i];
    PidsSameRows(b, a);
  }

  lemma OwnedSameRows(h: Harness, a: seq<Process>, b: seq<Process>, x: int)
    requires SameRows(a, b) && Owned(h, a, x)
    ensures Owned(h, b, x)
  {
    if ReachedByUs(h, a, x) {
      ReachedSameRows(a, b, (row: Process) => OurRoot(h, row), x);
    } else {
      ClaimedSameRows(h, a, b, x);
      if ReachedByOthers(h, b, x) { ReachedSameRows(b, a, (row: Process) => ForeignRoot(h, row), x); }
    }
  }

  /** The order in which the operating system lists the processes, and how often it
      lists one, do not matter. */
  lemma SelectionOrderIndependent(h: Harness, a: seq<Process>, b: seq<Process>, r: seq<int>, q: seq<int>)
    requires SameRows(a, b) && IsSelection(h, a, r) && IsSelection(h, b, q)
    ensures r == q
  {
    assert SameRows(Usable(a), Usable(b));
    forall x ensures x in r <==> x in q {
      if x in r { OwnedSameRows(h, Usable(a), Usable(b), x); }
      if x in q { OwnedSameRows(h, Usable(b), Usable(a), x); }
    }
    IncreasingUnique(r, q);
  }

  /** What a foreign root reaches is selected exactly when one of our roots reaches
      it too. */
  lemma {:induction false} ForeignSelectedOnlyIfOurs(h: Harness, processes: seq<Process>, selected: seq<int>, x: int)
    requires IsSelection(h, processes, selected) && ReachedByOthers(h, Usable(processes), x)
    ensures x in selected <==> ReachedByUs(h, Usable(processes), x)
  {
  }

  /** So the stronger statement in the source's own comment, that nothing a foreign
      root reaches is ever selected, fails: our root may be a foreign root's child. */
  lemma ForeignReachedYetSelected(selected: seq<int>)
    requires IsSelection(Harness(Some(10), None, None, None), [Process(20, 1, "", None), Process(10, 20, "", None)],
                         selected)
    ensures ReachedByOthers(Harness(Some(10), None, None, None), [Process(20, 1, "", None), Process(10, 20, "", None)],
                            10)
    ensures 10 in selected
  {
    var h := Harness(Some(10), None, None, None);
    var rows := [Process(20, 1, "", None), Process(10, 20, "", None)];
    assert Usable(rows) == rows by {
      assert rows[1..] == [rows[1]] && rows[1..][1..] == [];
    }
    assert Link(rows, 20, 10) by { assert rows[1].parentPid == 20 && rows[1].pid == 10; }
    assert Joins(rows, [20, 10], 20, 10);
    assert rows[0].pid == 20 && ForeignRoot(h, rows[0]);
    ReachesSelf(rows, 10);
    assert OurRoot(h, rows[1]) && rows[1].pid == 10;
  }

  // ------------------------------------------------------- residue of past launches

  datatype Spawn = Spawn(pid: int, spawnedAtMs: int)

  /** The newest spawn that the journal records for a pid. */
  ghost predicate NewestSpawn(spawns: seq<Spawn>, s: Spawn) {
    s in spawns && forall t :: t in spawns && t.pid == s.pid ==> t.spawnedAtMs <= s.spawnedAtMs
  }

  ghost predicate Newest(spawns: seq<Spawn>, byPid: map<int, Spawn>) {
    && (forall p :: p in byPid ==> byPid[p].pid == p && NewestSpawn(spawns, byPid[p]))
    && (forall s :: s in spawns ==> s.pid in byPid)
  }

  method IndexSpawns(spawns: seq<Spawn>) returns (byPid: map<int, Spawn>)
    ensures Newest(spawns, byPid)
  {
    byPid := map[];
    for i := 0 to |spawns|
      invariant Newest(spawns[..i], byPid)
    {
      var spawn := spawns[i];
      assert spawns[..i + 1] == spawns[..i] + [spawn];
      if spawn.pid !in byPid || spawn.spawnedAtMs > byPid[spawn.pid].spawnedAtMs {
        byPid := byPid[spawn.pid := spawn];
      }
    }
    assert spawns[..|spawns|] == spawns;
  }

  /** The row was created at most the claim window before its newest spawn was
      journalled, and not after it; a row without a creation time is never ours. */
  predicate CreatedJustBefore(spawn: Spawn, window: int, row: Process) {
    row.createdAtMs.Some? && spawn.spawnedAtMs - window <= row.createdAtMs.value <= spawn.spawnedAtMs
  }

  ghost predicate OurSpawn(spawns: seq<Spawn>, window: int, row: Process) {
    exists s :: NewestSpawn(spawns, s) && s.pid == row.pid && CreatedJustBefore(s, window, row)
  }

  ghost predicate Residue(spawns: seq<Spawn>, window: int, rows: seq<Process>, x: int) {
    exists i :: 0 <= i < |rows| && OurSpawn(spawns, window, rows[i]) && Reaches(rows, rows[i].pid, x)
  }

  /** Exactly what the journal's processes reach, in ascending order. */
  method SelectJournalOwnedResidue(processes: seq<Process>, spawns: seq<Spawn>, window: int)
    returns (selected: seq<int>)
    ensures Increasing(selected)
    ensures forall x :: x in selected <==> Residue(spawns, window, Usable(processes), x)
  {
    var rows := Usable(processes);
    var byPid := IndexSpawns(spawns);
    var childrenOf := IndexChildren(rows);
    var isOurSpawn := (row: Process) => row.pid in byPid && CreatedJustBefore(byPid[row.pid], window, row);
    var owned := CollectTrees(rows, childrenOf, isOurSpawn);
    forall row: Process ensures isOurSpawn(row) <==> OurSpawn(spawns, window, row) {
      if row.pid in byPid { assert NewestSpawn(spawns, byPid[row.pid]); }
    }
    assert forall x :: Reached(rows, isOurSpawn, x) <==> Residue(spawns, window, rows, x);
    return Ascending(owned.items);
  }

  // ------------------------------------------------------------ what makes a root

  /** The digits of a port number read back as that number, without a leading zero. */
  function NumberOf(digits: string): int {
    if digits == [] then 0 else 10 * NumberOf(digits[..|digits| - 1]) + (digits[|digits| - 1] as int - '0' as int)
  }

  lemma {:induction false} DigitsRead(n: nat)
    ensures DecimalDigits(n) != [] && NumberOf(DecimalDigits(n)) == n
    ensures forall i :: 0 <= i < |DecimalDigits(n)| ==> '0' <= DecimalDigits(n)[i] <= '9'
    ensures n > 0 ==> DecimalDigits(n)[0] != '0'
  {
    if n >= 10 {
      DigitsRead(n / 10);
      var (d, front) := (DecimalDigits(n), DecimalDigits(n / 10));
      assert d[..|d| - 1] == front;
    } else {
      assert DecimalDigits(n)[..0] == [];
    }
  }

  /** A command line names a port exactly when it holds the flag with that port's digits
      and then no further digit. */
  lemma {:induction false} PortRule(line: string, port: Option<nat>)
    ensures NamesPort(line, port) <==>
      port.Some? && port.value > 0
      && exists before: string, rest: string :: Flagged(line, port.value, before, rest)
  {
    hide DecimalDigits;
    if NamesPort(line, port) {
      PortFound(line, port.value);
    } else {
      forall before: string, rest: string | port.Some? && port.value > 0 && Flagged(line, port.value, before, rest)
        ensures false
      {
        FlagFound(line, port.value, before, rest);
      }
    }
  }

  lemma PortFound(line: string, port: nat)
    requires NamesPort(line, Some(port))
    ensures exists before: string, rest: string :: Flagged(line, port, before, rest)
  {
    hide DecimalDigits;
    var needle := "--remote-debugging-port=" + DecimalDigits(port);
    var i :| 0 <= i <= |line| && At(line, i, needle)
      && !(i + |needle| < |line| && '0' <= line[i + |needle|] <= '9');
    SplitsAt(line, i, needle);
    FlagSplits(line[..i], DecimalDigits(port), line[i + |needle|..]);
    assert Flagged(line, port, line[..i], line[i + |needle|..]);
  }

  lemma SplitsAt(line: string, i: nat, needle: string)
    requires At(line, i, needle)
    ensures line == line[..i] + needle + line[i + |needle|..]
  {
  }

  lemma FlagFound(line: string, port: nat, before: string, rest: string)
    requires port > 0 && Flagged(line, port, before, rest)
    ensures NamesPort(line, Some(port))
  {
    hide DecimalDigits;
    var needle := "--remote-debugging-port=" + DecimalDigits(port);
    FlagSplits(before, DecimalDigits(port), rest);
    assert line == before + needle + rest;
    assert At(line, |before|, needle);
  }

  predicate Flagged(line: string, port: nat, before: string, rest: string) {
    line == before + "--remote-debugging-port=" + DecimalDigits(port) + rest
    && (rest == [] || !('0' <= rest[0] <= '9'))
  }

  lemma FlagSplits(before: string, digits: string, rest: string)
    ensures before + "--remote-debugging-port=" + digits + rest
      == before + ("--remote-debugging-port=" + digits) + rest
  {
  }

  /** A root is ours when it is the one we launched, in its lifetime, or names our port;
      a process without either, and without a --type flag, is another's. */
  lemma RootRule(h: Harness, row: Process)
    ensures OurRoot(h, row) <==>
      (h.rootPid == Some(row.pid)
       && (row.createdAtMs.Some? && h.rootCreatedAtMs.Some? ==> h.rootCreatedAtMs.value <= row.createdAtMs.value)
       && (row.createdAtMs.Some? && h.teardownStartedAtMs.Some? ==>
             row.createdAtMs.value <= h.teardownStartedAtMs.value))
      || NamesPort(row.commandLine, h.cdpPort)
    ensures ForeignRoot(h, row) <==> !OurRoot(h, row) && !HasType(row)
    ensures forall rows: seq<Process> ::
      Stranded(h, rows, row) <==>
        (HasType(row) && h.rootCreatedAtMs.Some? && row.createdAtMs.Some?
         && h.rootCreatedAtMs.value <= row.createdAtMs.value
         && (h.teardownStartedAtMs.Some? ==> row.createdAtMs.value <= h.teardownStartedAtMs.value)
         && row.parentPid !in Pids(rows))
  {
    TypeRule(row);
    hide IsHelper, HasType, NamesPort;
  }

  lemma TypeRule(row: Process)
    ensures IsHelper(row) <==> HasType(row)
  {
    if IsHelper(row) {
      var i :| 0 <= i <= |row.commandLine| && At(row.commandLine, i, "--type=");
      assert Typed(row, row.commandLine[..i], row.commandLine[i + |"--type="|..]);
    }
    if HasType(row) {
      var before: string, rest: string :| Typed(row, before, rest);
      assert At(row.commandLine, |before|, "--type=");
    }
  }

  ghost predicate HasType(row: Process) {
    exists before: string, rest: string :: Typed(row, before, rest)
  }

  predicate Typed(row: Process, before: string, rest: string) {
    row.commandLine == before + "--type=" + rest
  }

  /** A row is of one of our spawns when it was created in the window that ends with the
      newest spawn of its pid; pids are those JavaScript holds exactly. */
  lemma {:induction false} SpawnRule(spawns: seq<Spawn>, window: int, row: Process, rows: seq<Process>)
    ensures OurSpawn(spawns, window, row) <==>
      row.createdAtMs.Some?
      && exists s :: s in spawns && s.pid == row.pid && CreatedWithin(s, window, row.createdAtMs.value)
                     && forall t :: t in spawns && t.pid == row.pid ==> t.spawnedAtMs <= s.spawnedAtMs
    ensures row in Usable(rows) <==> row in rows && 1 <= row.pid <= 9007199254740991
  {
  }

  predicate CreatedWithin(s: Spawn, window: int, at: int) {
    at <= s.spawnedAtMs && s.spawnedAtMs <= at + window
  }
}
