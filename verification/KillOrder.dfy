/**
 The leaf-first kill order of scripts/e2e-obsidian-sweep.js.  The depth of a
 process is found by walking up its listed parents; a parent table with cycles
 neither hangs the walk nor misplaces a process outside the cycles.
 */
module KillOrder {
  import opened Outcomes
  import opened ProcessTree

  /** new Map(rows): of two rows with one pid the later counts. */
  function ParentOf(rows: seq<Process>): map<int, int> {
    if rows == [] then map[] else ParentOf(rows[..|rows| - 1])[rows[|rows| - 1].pid := rows[|rows| - 1].parentPid]
  }

  /** The parent of p is on the kill list too. */
  predicate HasListedParent(parents: map<int, int>, listed: set<int>, p: int) {
    p in parents && parents[p] in listed
  }

  /** The n-th listed ancestor of p, if there is one. */
  function Up(parents: map<int, int>, listed: set<int>, p: int, n: nat): (q: Option<int>)
    ensures q.Some? ==> q.value in listed + {p}
  {
    if n == 0 then Some(p)
    else match Up(parents, listed, p, n - 1)
      case None => None
      case Some(q) => if HasListedParent(parents, listed, q) then Some(parents[q]) else None
  }

  ghost predicate Climbs(parents: map<int, int>, listed: set<int>, p: int, q: int) {
    exists n: nat :: Up(parents, listed, p, n) == Some(q)
  }

  /** p and all its listed ancestors. */
  ghost function Line(parents: map<int, int>, listed: set<int>, p: int): set<int> {
    set q | q in listed + {p} && Climbs(parents, listed, p, q)
  }

  /** The ancestors of p come to an end. */
  ghost predicate Ends(parents: map<int, int>, listed: set<int>, p: int) {
    exists n: nat :: Up(parents, listed, p, n) == None
  }

  ghost predicate OnCycle(parents: map<int, int>, listed: set<int>, p: int) {
    exists n: nat :: n > 0 && Up(parents, listed, p, n) == Some(p)
  }

  /** How many steps the walk from p makes. */
  ghost function DepthOf(parents: map<int, int>, listed: set<int>, p: int): int {
    |Line(parents, listed, p)| - (if Ends(parents, listed, p) then 1 else 0)
  }

  // ------------------------------------------------------------------- ancestors

  lemma {:induction false} UpAdds(parents: map<int, int>, listed: set<int>, p: int, n: nat, q: int, m: nat)
    requires Up(parents, listed, p, n) == Some(q)
    ensures Up(parents, listed, p, n + m) == Up(parents, listed, q, m)
  {
    if m > 0 { UpAdds(parents, listed, p, n, q, m - 1); }
  }

  lemma {:induction false} UpStops(parents: map<int, int>, listed: set<int>, p: int, n: nat, m: nat)
    requires Up(parents, listed, p, n) == None && n <= m
    ensures Up(parents, listed, p, m) == None
  {
    if n < m { UpStops(parents, listed, p, n, m - 1); }
  }

  lemma {:induction false} UpStays(parents: map<int, int>, listed: set<int>, p: int, s: set<int>, n: nat)
    requires p in s && forall x :: x in s && HasListedParent(parents, listed, x) ==> parents[x] in s
    ensures match Up(parents, listed, p, n) case Some(q) => q in s case None => true
  {
    if n > 0 { UpStays(parents, listed, p, s, n - 1); }
  }

  lemma {:induction false} UpNeverStops(parents: map<int, int>, listed: set<int>, p: int, s: set<int>, n: nat)
    requires p in s && forall x :: x in s ==> HasListedParent(parents, listed, x) && parents[x] in s
    ensures Up(parents, listed, p, n).Some? && Up(parents, listed, p, n).value in s
  {
    if n > 0 { UpNeverStops(parents, listed, p, s, n - 1); }
  }

  /** An ancestor's line is part of the line, and ends when it does. */
  lemma {:induction false} AncestorLine(parents: map<int, int>, listed: set<int>, p: int, n: nat, q: int)
    requires Up(parents, listed, p, n) == Some(q)
    ensures Line(parents, listed, q) <= Line(parents, listed, p)
    ensures Ends(parents, listed, q) == Ends(parents, listed, p)
  {
    hide Up;
    forall x | x in Line(parents, listed, q) ensures x in Line(parents, listed, p) {
      var m: nat :| Up(parents, listed, q, m) == Some(x);
      UpAdds(parents, listed, p, n, q, m);
    }
    if Ends(parents, listed, q) {
      var m: nat :| Up(parents, listed, q, m) == None;
      UpAdds(parents, listed, p, n, q, m);
    }
    if Ends(parents, listed, p) {
      var m: nat :| Up(parents, listed, p, m) == None;
      UpStops(parents, listed, p, m, n + m);
      UpAdds(parents, listed, p, n, q, m);
    }
  }

  lemma SmallerSubset(a: set<int>, b: set<int>, x: int)
    requires a <= b && x in b && x !in a
    ensures |a| < |b|
  {
    SubsetCard(a, b - {x});
  }

  lemma SubsetCard(a: set<int>, b: set<int>)
    requires a <= b
    ensures |a| <= |b|
  {
    assert b == a + (b - a) && a !! (b - a);
  }

  /** Off the cycles, a process is deeper than each of its listed ancestors. */
  lemma {:induction false} DeeperThanAncestors(parents: map<int, int>, listed: set<int>, p: int, n: nat, q: int)
    requires n > 0 && Up(parents, listed, p, n) == Some(q) && !OnCycle(parents, listed, p)
    ensures DepthOf(parents, listed, p) > DepthOf(parents, listed, q)
  {
    hide Up, Ends;
    AncestorLine(parents, listed, p, n, q);
    assert Up(parents, listed, p, 0) == Some(p) by { UpZero(parents, listed, p); }
    if p in Line(parents, listed, q) {
      var m: nat :| Up(parents, listed, q, m) == Some(p);
      UpAdds(parents, listed, p, n, q, m);
      assert false;
    }
    SmallerSubset(Line(parents, listed, q), Line(parents, listed, p), p);
  }

  lemma {:induction false} UpZero(parents: map<int, int>, listed: set<int>, p: int)
    ensures Up(parents, listed, p, 0) == Some(p)
  {
  }

  lemma {:induction false} AroundTheCycle(parents: map<int, int>, listed: set<int>, p: int, period: nat, times: nat)
    requires Up(parents, listed, p, period) == Some(p)
    ensures Up(parents, listed, p, times * period) == Some(p)
  {
    if times == 0 {
    } else {
      AroundTheCycle(parents, listed, p, period, times - 1);
      UpAdds(parents, listed, p, (times - 1) * period, p, period);
      assert (times - 1) * period + period == times * period;
    }
  }

  /** On a cycle, a process is exactly as deep as its listed ancestors. */
  lemma {:induction false} LevelOnCycle(parents: map<int, int>, listed: set<int>, p: int, n: nat, q: int)
    requires Up(parents, listed, p, n) == Some(q) && OnCycle(parents, listed, p)
    ensures DepthOf(parents, listed, p) == DepthOf(parents, listed, q)
  {
    hide Up, Ends;
    var period: nat :| period > 0 && Up(parents, listed, p, period) == Some(p);
    AroundTheCycle(parents, listed, p, period, n);
    assert n * period >= n;
    UpAdds(parents, listed, p, n, q, n * period - n);
    AncestorLine(parents, listed, p, n, q);
    AncestorLine(parents, listed, q, n * period - n, p);
    assert Line(parents, listed, p) == Line(parents, listed, q);
  }

  // -------------------------------------------------------------------- the walk

  /** while (!guard.has(cursor)): climb to the listed parent. */
  method Depth(parents: map<int, int>, listed: set<int>, pid: int) returns (steps: nat)
    ensures steps == DepthOf(parents, listed, pid)
  {
    hide Up, Climbs, Line, Ends;
    UpZero(parents, listed, pid);
    steps := 0;
    var cursor := pid;
    var guard: set<int> := {};
    while cursor !in guard
      invariant guard <= listed + {pid} && |guard| == steps
      invariant Up(parents, listed, pid, steps) == Some(cursor)
      invariant forall x :: x in guard ==> Climbs(parents, listed, pid, x) && HasListedParent(parents, listed, x)
      invariant forall x :: x in guard ==> parents[x] in guard || parents[x] == cursor
      invariant pid in guard || cursor == pid
      decreases listed + {pid} - guard
    {
      guard := guard + {cursor};
      UpNext(parents, listed, pid, steps, cursor);
      if !HasListedParent(parents, listed, cursor) {
        WalkEnds(parents, listed, pid, guard, steps);
        return;
      }
      cursor := parents[cursor];
      steps := steps + 1;
    }
    WalkCycles(parents, listed, pid, guard);
  }

  lemma UpNext(parents: map<int, int>, listed: set<int>, p: int, n: nat, q: int)
    requires Up(parents, listed, p, n) == Some(q)
    ensures Climbs(parents, listed, p, q)
    ensures HasListedParent(parents, listed, q) ==> Up(parents, listed, p, n + 1) == Some(parents[q])
  {
  }

  lemma LineIs(parents: map<int, int>, listed: set<int>, p: int, guard: set<int>)
    requires guard <= listed + {p} && p in guard
    requires forall x :: x in guard ==> Climbs(parents, listed, p, x)
    requires forall x :: x in guard && HasListedParent(parents, listed, x) ==> parents[x] in guard
    ensures Line(parents, listed, p) == guard
  {
    forall x | x in Line(parents, listed, p) ensures x in guard {
      var n: nat :| Up(parents, listed, p, n) == Some(x);
      UpStays(parents, listed, p, guard, n);
    }
  }

  lemma {:induction false} WalkEnds(parents: map<int, int>, listed: set<int>, p: int, guard: set<int>, steps: nat)
    requires guard <= listed + {p} && p in guard
    requires forall x :: x in guard ==> Climbs(parents, listed, p, x)
    requires forall x :: x in guard && HasListedParent(parents, listed, x) ==> parents[x] in guard
    requires Up(parents, listed, p, steps).Some?
    requires !HasListedParent(parents, listed, Up(parents, listed, p, steps).value)
    ensures Line(parents, listed, p) == guard && Ends(parents, listed, p)
  {
    LineIs(parents, listed, p, guard);
    assert Up(parents, listed, p, steps + 1) == None;
  }

  lemma WalkCycles(parents: map<int, int>, listed: set<int>, p: int, guard: set<int>)
    requires guard <= listed + {p} && p in guard
    requires forall x :: x in guard ==> Climbs(parents, listed, p, x)
    requires forall x :: x in guard ==> HasListedParent(parents, listed, x) && parents[x] in guard
    ensures Line(parents, listed, p) == guard && !Ends(parents, listed, p)
  {
    LineIs(parents, listed, p, guard);
    forall n: nat ensures Up(parents, listed, p, n).Some? { UpNeverStops(parents, listed, p, guard, n); }
  }

  // ------------------------------------------------------------------- the order

  /** The comparator: deeper first, then the smaller pid. */
  predicate Precedes(depths: map<int, nat>, a: int, b: int)
    requires a in depths && b in depths
  {
    depths[a] > depths[b] || (depths[a] == depths[b] && a <= b)
  }

  /** Array.prototype.sort by the comparator. */
  function Insert(depths: map<int, nat>, p: int, order: seq<int>): (r: seq<int>)
    requires p in depths && forall x :: x in order ==> x in depths
    ensures multiset(r) == multiset(order) + multiset{p}
  {
    if order == [] || Precedes(depths, p, order[0]) then [p] + order
    else
      assert order == [order[0]] + order[1..];
      [order[0]] + Insert(depths, p, order[1..])
  }

  function Sort(depths: map<int, nat>, pids: seq<int>): (r: seq<int>)
    requires forall x :: x in pids ==> x in depths
    ensures multiset(r) == multiset(pids)
  {
    if pids == [] then []
    else
      assert pids == [pids[0]] + pids[1..];
      var rest := Sort(depths, pids[1..]);
      assert forall x :: x in rest ==> x in multiset(pids[1..]);
      Insert(depths, pids[0], rest)
  }

  ghost predicate Sorted(depths: map<int, nat>, order: seq<int>)
    requires forall x :: x in order ==> x in depths
  {
    forall i, j :: 0 <= i < j < |order| ==> Precedes(depths, order[i], order[j])
  }

  lemma {:induction false} InsertSorts(depths: map<int, nat>, p: int, order: seq<int>)
    requires p in depths && (forall x :: x in order ==> x in depths) && Sorted(depths, order)
    ensures (forall x :: x in Insert(depths, p, order) ==> x in depths) && Sorted(depths, Insert(depths, p, order))
  {
    var r := Insert(depths, p, order);
    if order == [] || Precedes(depths, p, order[0]) {
    } else {
      InsertSorts(depths, p, order[1..]);
      var tail := Insert(depths, p, order[1..]);
      forall i | 0 <= i < |tail| ensures Precedes(depths, order[0], tail[i]) {
        assert tail[i] in multiset(tail);
      }
    }
  }

  lemma {:induction false} SortSorts(depths: map<int, nat>, pids: seq<int>)
    requires forall x :: x in pids ==> x in depths
    ensures (forall x :: x in Sort(depths, pids) ==> x in depths) && Sorted(depths, Sort(depths, pids))
  {
    if pids != [] {
      SortSorts(depths, pids[1..]);
      InsertSorts(depths, pids[0], Sort(depths, pids[1..]));
    }
  }

  /** a may stand before b: deeper, or as deep with a pid not greater. */
  ghost predicate Allowed(parents: map<int, int>, listed: set<int>, a: int, b: int) {
    DepthOf(parents, listed, a) > DepthOf(parents, listed, b)
    || (DepthOf(parents, listed, a) == DepthOf(parents, listed, b) && a <= b)
  }

  ghost predicate IsKillOrder(pids: seq<int>, processes: seq<Process>, order: seq<int>) {
    && multiset(order) == multiset(pids)
    && forall i, j :: 0 <= i < j < |order| ==> Allowed(ParentOf(processes), Listed(pids), order[i], order[j])
  }

  function Listed(pids: seq<int>): set<int> {
    set i | 0 <= i < |pids| :: pids[i]
  }

  method OrderKillsLeafFirst(pids: seq<int>, processes: seq<Process>) returns (order: seq<int>)
    ensures IsKillOrder(pids, processes, order)
  {
    var parents, listed := ParentOf(processes), Listed(pids);
    var depths: map<int, nat> := map[];
    for i := 0 to |pids|
      invariant forall x :: x in depths ==> depths[x] == DepthOf(parents, listed, x)
      invariant forall k :: 0 <= k < i ==> pids[k] in depths
    {
      var depth := Depth(parents, listed, pids[i]);
      depths := depths[pids[i] := depth];
    }
    SortSorts(depths, pids);
    return Sort(depths, pids);
  }

  /** A process that is on no parent cycle is killed before every one of its listed
      ancestors. */
  lemma {:induction false} LeavesFirst(pids: seq<int>, processes: seq<Process>, order: seq<int>, i: nat, j: nat, n: nat)
    requires IsKillOrder(pids, processes, order) && i < |order| && j < |order| && n > 0
    requires Up(ParentOf(processes), Listed(pids), order[i], n) == Some(order[j])
    requires !OnCycle(ParentOf(processes), Listed(pids), order[i])
    ensures i < j
  {
    hide Up, OnCycle, DepthOf;
    DeeperThanAncestors(ParentOf(processes), Listed(pids), order[i], n, order[j]);
  }

  /** Exactly which processes go before their listed parent: those on no cycle, and
      on a cycle those with the smaller pid. */
  lemma {:induction false} BeforeParentExactlyWhen(pids: seq<int>, processes: seq<Process>, order: seq<int>, i: nat,
                                                   j: nat)
    requires IsKillOrder(pids, processes, order) && i < |order| && j < |order| && order[i] != order[j]
    requires order[i] in ParentOf(processes) && ParentOf(processes)[order[i]] == order[j]
    ensures i < j <==> !OnCycle(ParentOf(processes), Listed(pids), order[i]) || order[i] < order[j]
  {
    var (parents, listed) := (ParentOf(processes), Listed(pids));
    assert order[j] in listed by {
      assert order[j] in multiset(order) && order[j] in multiset(pids) && order[j] in pids;
    }
    assert Up(parents, listed, order[i], 0) == Some(order[i]);
    assert Up(parents, listed, order[i], 1) == Some(order[j]);
    hide Up, OnCycle, DepthOf;
    if OnCycle(parents, listed, order[i]) {
      LevelOnCycle(parents, listed, order[i], 1, order[j]);
    } else {
      DeeperThanAncestors(parents, listed, order[i], 1, order[j]);
    }
  }

  /** The parent of a process is the one in its last row. */
  lemma {:induction false} ParentRule(rows: seq<Process>, i: nat)
    requires i < |rows| && forall j :: i < j < |rows| ==> rows[j].pid != rows[i].pid
    ensures rows[i].pid in ParentOf(rows) && ParentOf(rows)[rows[i].pid] == rows[i].parentPid
  {
    if i < |rows| - 1 { ParentRule(rows[..|rows| - 1], i); }
  }

  lemma {:induction false} OnlyListedHaveParents(rows: seq<Process>, p: int)
    requires p in ParentOf(rows)
    ensures exists i :: 0 <= i < |rows| && rows[i].pid == p
  {
    if rows[|rows| - 1].pid != p {
      OnlyListedHaveParents(rows[..|rows| - 1], p);
      var i :| 0 <= i < |rows| - 1 && rows[..|rows| - 1][i].pid == p;
      assert rows[i].pid == p;
    }
  }
}
