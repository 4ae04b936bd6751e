/**
 When two values have the same canonical text: the text determines the value up
 to key order, and key order is immaterial exactly for objects in which no two
 keys share their UTF-16 encoding.
 */
module CanonicalOrder {
  import opened PyText
  import opened Canonical
  import opened CanonicalParse

  // ------------------------------------------------------- sameness of values

  /** Equal as Python values: dicts compare without regard to insertion order. */
  ghost predicate Same(a: Json, b: Json)
    decreases a
  {
    match (a, b)
    case (Arr(x), Arr(y)) => |x| == |y| && forall i :: 0 <= i < |x| ==> Same(x[i], y[i])
    case (Obj(x), Obj(y)) => |x| == |y| && forall i :: 0 <= i < |x| ==> HasMember(x[i], y)
    case _ => a == b
  }

  ghost predicate HasMember(e: Keyed<Json>, es: seq<Keyed<Json>>)
    decreases e
  {
    exists j :: 0 <= j < |es| && e.key == es[j].key && Same(e.value, es[j].value)
  }

  /** No object holds two keys with the same UTF-16 encoding. */
  ghost predicate Unambiguous(v: Json)
    decreases v
  {
    match v
    case Arr(items) => forall i :: 0 <= i < |items| ==> Unambiguous(items[i])
    case Obj(entries) =>
      && DistinctSortKeys(entries)
      && (forall i :: 0 <= i < |entries| ==> Unambiguous(entries[i].value))
    case _ => true
  }

  ghost predicate DistinctSortKeys<T>(es: seq<Keyed<T>>) {
    forall i, j :: 0 <= i < j < |es| ==> Utf16SortKey(es[i].key) != Utf16SortKey(es[j].key)
  }

  // ------------------------------------------------------ the sort, specified

  ghost predicate Sorted<T>(es: seq<Keyed<T>>) {
    forall i, j :: 0 <= i < j < |es| ==> LexLe(Utf16SortKey(es[i].key), Utf16SortKey(es[j].key))
  }

  /** The entries with a given sort key, in the order they have. */
  ghost function Ties<T>(es: seq<Keyed<T>>, k: seq<int>): seq<Keyed<T>> {
    if es == [] then []
    else (if Utf16SortKey(es[0].key) == k then [es[0]] else []) + Ties(es[1..], k)
  }

  lemma {:induction false} TiesCons<T>(e: Keyed<T>, es: seq<Keyed<T>>, k: seq<int>)
    ensures Ties([e] + es, k) == (if Utf16SortKey(e.key) == k then [e] else []) + Ties(es, k)
  {
    assert ([e] + es)[1..] == es;
  }

  lemma {:induction false} DistinctUnlessLe(a: seq<int>, b: seq<int>)
    requires !LexLe(a, b)
    ensures a != b
  {
    LexTotal(a, a);
  }

  lemma {:induction false} InsertTies<T>(e: Keyed<T>, es: seq<Keyed<T>>, k: seq<int>)
    ensures Ties(Insert(e, es), k) == Ties([e] + es, k)
  {
    if es != [] && !LexLe(Utf16SortKey(e.key), Utf16SortKey(es[0].key)) {
      InsertTies(e, es[1..], k);
      DistinctUnlessLe(Utf16SortKey(e.key), Utf16SortKey(es[0].key));
      TiesSwap(e, es[0], Insert(e, es[1..]), es[1..], k);
      assert [es[0]] + es[1..] == es;
    }
  }

  lemma {:induction false} TiesSwap<T>(e: Keyed<T>, f: Keyed<T>, tail: seq<Keyed<T>>, es: seq<Keyed<T>>, k: seq<int>)
    requires Utf16SortKey(e.key) != Utf16SortKey(f.key)
    requires Ties(tail, k) == Ties([e] + es, k)
    ensures Ties([f] + tail, k) == Ties([e] + ([f] + es), k)
  {
    TiesCons(f, tail, k);
    TiesCons(e, es, k);
    TiesCons(e, [f] + es, k);
    TiesCons(f, es, k);
  }

  lemma {:induction false} InsertPermutes<T>(e: Keyed<T>, es: seq<Keyed<T>>)
    ensures multiset(Insert(e, es)) == multiset([e] + es)
  {
    if es != [] && !LexLe(Utf16SortKey(e.key), Utf16SortKey(es[0].key)) {
      InsertPermutes(e, es[1..]);
      assert es == [es[0]] + es[1..];
    }
  }

  lemma {:induction false} InsertSorted<T>(e: Keyed<T>, es: seq<Keyed<T>>)
    requires Sorted(es)
    ensures Sorted(Insert(e, es))
  {
    hide Utf16SortKey, LexLe;
    var ek := Utf16SortKey(e.key);
    if es == [] {
    } else if LexLe(ek, Utf16SortKey(es[0].key)) {
      forall j | 0 <= j < |es| ensures LexLe(ek, Utf16SortKey(es[j].key)) {
        if j > 0 { LexTransitive(ek, Utf16SortKey(es[0].key), Utf16SortKey(es[j].key)); }
      }
    } else {
      InsertSorted(e, es[1..]);
      InsertPermutes(e, es[1..]);
      LexTotal(ek, Utf16SortKey(es[0].key));
      var tail := Insert(e, es[1..]);
      forall j | 0 <= j < |tail| ensures LexLe(Utf16SortKey(es[0].key), Utf16SortKey(tail[j].key)) {
        assert tail[j] in multiset(tail) && tail[j] in [e] + es[1..];
      }
    }
  }

  /** The sort is a stable sort: ordered, a permutation, ties in given order. */
  lemma {:induction false} SortSpec<T>(es: seq<Keyed<T>>)
    ensures Sorted(Sort(es)) && multiset(Sort(es)) == multiset(es) && |Sort(es)| == |es|
    ensures forall k :: Ties(Sort(es), k) == Ties(es, k)
  {
    if es != [] {
      SortSpec(es[1..]);
      InsertSorted(es[0], Sort(es[1..]));
      InsertPermutes(es[0], Sort(es[1..]));
      assert es == [es[0]] + es[1..];
      forall k ensures Ties(Sort(es), k) == Ties(es, k) {
        InsertTies(es[0], Sort(es[1..]), k);
        TiesCons(es[0], Sort(es[1..]), k);
        TiesCons(es[0], es[1..], k);
      }
    }
    assert |multiset(Sort(es))| == |multiset(es)|;
  }

  lemma {:induction false} SortMembers<T>(es: seq<Keyed<T>>)
    ensures forall e :: e in Sort(es) <==> e in es
  {
    SortSpec(es);
    forall e ensures e in Sort(es) <==> e in es {
      assert e in Sort(es) <==> e in multiset(Sort(es));
      assert e in es <==> e in multiset(es);
    }
  }

  // ----------------------------------------------- equal text, same value

  /** The entries of an object's canonical form, each from one entry of it. */
  lemma {:induction false} CanonicalMember(es: seq<Keyed<Json>>, i: nat)
    requires i < |es|
    ensures Keyed(es[i].key, Canon(es[i].value)) in Sort(CanonEntries(es))
  {
    SortMembers(CanonEntries(es));
    assert CanonEntries(es)[i] in CanonEntries(es);
  }

  lemma {:induction false} SameCanonSameValue(a: Json, b: Json)
    requires Canon(a) == Canon(b)
    ensures Same(a, b)
    decreases a
  {
    match (a, b)
    case (Arr(x), Arr(y)) =>
      forall i | 0 <= i < |x| ensures Same(x[i], y[i]) {
        assert CanonItems(x)[i] == CanonItems(y)[i];
        SameCanonSameValue(x[i], y[i]);
      }
    case (Obj(x), Obj(y)) =>
      hide Sort, Sorted;
      SortSpec(CanonEntries(x));
      SortSpec(CanonEntries(y));
      SortMembers(CanonEntries(y));
      forall i | 0 <= i < |x| ensures HasMember(x[i], y) {
        CanonicalMember(x, i);
        var j :| 0 <= j < |y| && CanonEntries(y)[j] == Keyed(x[i].key, Canon(x[i].value));
        SameCanonSameValue(x[i].value, y[j].value);
      }
    case _ =>
  }

  /** Equal canonical text means equal values, whatever the insertion orders. */
  lemma {:induction false} CanonicalJsonInjective(a: Json, b: Json)
    requires Serialize(a) == Serialize(b)
    ensures Canon(a) == Canon(b) && Same(a, b)
  {
    ParseUndoesCanonicalJson(a);
    ParseUndoesCanonicalJson(b);
    SameCanonSameValue(a, b);
  }

  // ----------------------------------------------- same value, equal text

  ghost predicate StrictlySorted<T>(es: seq<Keyed<T>>) {
    Sorted(es) && DistinctSortKeys(es)
  }

  /** A strictly sorted list is determined by its members. */
  lemma {:induction false} SortedUnique<T>(es: seq<Keyed<T>>, fs: seq<Keyed<T>>)
    requires StrictlySorted(es) && StrictlySorted(fs)
    requires forall e :: e in es <==> e in fs
    ensures es == fs
  {
    if es == [] {
      assert forall i :: 0 <= i < |fs| ==> fs[i] in fs;
      assert fs == [];
    } else {
      LeastFirst(es, fs);
      TailMembers(es, fs);
      TailMembers(fs, es);
      SortedUnique(es[1..], fs[1..]);
      assert es == [es[0]] + es[1..] == fs;
    }
  }

  lemma LeastFirst<T>(es: seq<Keyed<T>>, fs: seq<Keyed<T>>)
    requires StrictlySorted(es) && StrictlySorted(fs) && es != []
    requires forall e :: e in es <==> e in fs
    ensures fs != [] && es[0] == fs[0]
  {
    assert es[0] in es;
    var i :| 0 <= i < |fs| && fs[i] == es[0];
    assert fs[0] in fs;
    var j :| 0 <= j < |es| && es[j] == fs[0];
    LexTotal(Utf16SortKey(es[0].key), Utf16SortKey(fs[0].key));
  }

  lemma TailMembers<T>(es: seq<Keyed<T>>, fs: seq<Keyed<T>>)
    requires DistinctSortKeys(es) && es != [] && fs != [] && es[0] == fs[0]
    requires forall e :: e in es ==> e in fs
    ensures forall e :: e in es[1..] ==> e in fs[1..]
  {
    forall e | e in es[1..] ensures e in fs[1..] {
      var k :| 0 <= k < |es[1..]| && es[1..][k] == e;
      assert es[k + 1] == e && e != es[0] && e in fs;
      assert fs == [fs[0]] + fs[1..];
    }
  }

  lemma {:induction false} TiesOfDistinct<T>(es: seq<Keyed<T>>, k: seq<int>)
    requires DistinctSortKeys(es)
    ensures |Ties(es, k)| <= 1
    ensures Ties(es, k) != [] ==> exists i :: 0 <= i < |es| && Utf16SortKey(es[i].key) == k
  {
    if es != [] {
      TiesOfDistinct(es[1..], k);
      if Ties(es[1..], k) != [] {
        var i :| 0 <= i < |es[1..]| && Utf16SortKey(es[1..][i].key) == k;
        assert es[i + 1] == es[1..][i];
      }
    }
  }

  lemma {:induction false} TiesCount<T>(es: seq<Keyed<T>>, i: nat, j: nat)
    requires i < j < |es| && Utf16SortKey(es[i].key) == Utf16SortKey(es[j].key)
    ensures |Ties(es, Utf16SortKey(es[i].key))| >= 2
  {
    if i > 0 {
      TiesCount(es[1..], i - 1, j - 1);
    } else {
      TiesFind(es[1..], j - 1);
    }
  }

  lemma {:induction false} TiesFind<T>(es: seq<Keyed<T>>, j: nat)
    requires j < |es|
    ensures |Ties(es, Utf16SortKey(es[j].key))| >= 1
  {
    if j > 0 { TiesFind(es[1..], j - 1); }
  }

  lemma {:induction false} SortKeepsDistinct<T>(es: seq<Keyed<T>>)
    requires DistinctSortKeys(es)
    ensures StrictlySorted(Sort(es))
  {
    SortSpec(es);
    var s := Sort(es);
    forall i, j | 0 <= i < j < |s| ensures Utf16SortKey(s[i].key) != Utf16SortKey(s[j].key) {
      if Utf16SortKey(s[i].key) == Utf16SortKey(s[j].key) {
        TiesCount(s, i, j);
        TiesOfDistinct(es, Utf16SortKey(s[i].key));
        assert false;
      }
    }
  }

  /** Sameness of objects with distinct keys is symmetric member by member. */
  lemma {:induction false} MembersBack(x: seq<Keyed<Json>>, y: seq<Keyed<Json>>, j: nat)
    requires |x| == |y| && j < |y|
    requires forall i, k :: 0 <= i < k < |x| ==> x[i].key != x[k].key
    requires forall i, k :: 0 <= i < k < |y| ==> y[i].key != y[k].key
    requires forall i :: 0 <= i < |x| ==> HasMember(x[i], y)
    ensures exists i :: 0 <= i < |x| && x[i].key == y[j].key && Same(x[i].value, y[j].value)
  {
    var xs := set i | 0 <= i < |x| :: x[i].key;
    var ys := set i | 0 <= i < |y| :: y[i].key;
    KeyCount(x, |x|);
    KeyCount(y, |y|);
    assert xs <= ys by {
      forall k | k in xs ensures k in ys {
        var i :| 0 <= i < |x| && x[i].key == k;
        assert HasMember(x[i], y);
      }
    }
    if xs != ys {
      ProperSubsetSmaller(xs, ys);
      assert false;
    }
    assert y[j].key in xs;
    var i :| 0 <= i < |x| && x[i].key == y[j].key;
    assert HasMember(x[i], y);
  }

  lemma ProperSubsetSmaller<T>(a: set<T>, b: set<T>)
    requires a <= b && a != b
    ensures |a| < |b|
  {
    var x :| x in b && x !in a;
    assert a <= b - {x};
    SubsetSize(a, b - {x});
  }

  lemma {:induction false} SubsetSize<T>(a: set<T>, b: set<T>)
    requires a <= b
    ensures |a| <= |b|
    decreases a
  {
    if a != {} {
      var x :| x in a;
      SubsetSize(a - {x}, b - {x});
    }
  }

  lemma {:induction false} KeyCount<T>(es: seq<Keyed<T>>, n: nat)
    requires n <= |es|
    requires forall i, k :: 0 <= i < k < |es| ==> es[i].key != es[k].key
    ensures |set i | 0 <= i < n :: es[i].key| == n
  {
    if n > 0 {
      KeyCount(es, n - 1);
      assert (set i | 0 <= i < n :: es[i].key) == (set i | 0 <= i < n - 1 :: es[i].key) + {es[n - 1].key};
      assert es[n - 1].key !in set i | 0 <= i < n - 1 :: es[i].key;
    }
  }

  lemma {:induction false} SameValueSameCanon(a: Json, b: Json)
    requires WellFormed(a) && WellFormed(b) && Same(a, b) && Unambiguous(a)
    ensures Canon(a) == Canon(b) && Unambiguous(b)
    decreases a
  {
    match (a, b)
    case (Arr(x), Arr(y)) =>
      forall i | 0 <= i < |x| ensures CanonItems(x)[i] == CanonItems(y)[i] && Unambiguous(y[i]) {
        SameValueSameCanon(x[i], y[i]);
      }
      assert CanonItems(x) == CanonItems(y);
    case (Obj(x), Obj(y)) =>
      SameObjectsSameCanon(x, y);
    case _ =>
  }

  lemma {:induction false} SameObjectsSameCanon(x: seq<Keyed<Json>>, y: seq<Keyed<Json>>)
    requires WellFormed(Obj(x)) && WellFormed(Obj(y)) && Same(Obj(x), Obj(y)) && Unambiguous(Obj(x))
    ensures Sort(CanonEntries(x)) == Sort(CanonEntries(y)) && Unambiguous(Obj(y))
    decreases x, 1
  {
    hide Sort, Utf16SortKey, Same;
    var (cx, cy) := (CanonEntries(x), CanonEntries(y));
    forall j | 0 <= j < |y| ensures cy[j] in cx && Unambiguous(y[j].value) { MemberCanonBack(x, y, j); }
    forall i | 0 <= i < |x| ensures cx[i] in cy { MemberCanon(x, y, i); }
    SameMembersSameSort(cx, cy);
  }

  lemma {:induction false} MemberCanonBack(x: seq<Keyed<Json>>, y: seq<Keyed<Json>>, j: nat)
    requires WellFormed(Obj(x)) && WellFormed(Obj(y)) && Same(Obj(x), Obj(y)) && Unambiguous(Obj(x)) && j < |y|
    ensures CanonEntries(y)[j] in CanonEntries(x) && Unambiguous(y[j].value)
    decreases x, 0
  {
    hide Sort, Utf16SortKey;
    MembersBack(x, y, j);
    var i :| 0 <= i < |x| && x[i].key == y[j].key && Same(x[i].value, y[j].value);
    SameValueSameCanon(x[i].value, y[j].value);
    assert CanonEntries(x)[i] == CanonEntries(y)[j];
  }

  lemma {:induction false} MemberCanon(x: seq<Keyed<Json>>, y: seq<Keyed<Json>>, i: nat)
    requires WellFormed(Obj(x)) && WellFormed(Obj(y)) && Same(Obj(x), Obj(y)) && Unambiguous(Obj(x)) && i < |x|
    ensures CanonEntries(x)[i] in CanonEntries(y)
    decreases x, 0
  {
    hide Sort, Utf16SortKey;
    assert HasMember(x[i], y);
    var j :| 0 <= j < |y| && x[i].key == y[j].key && Same(x[i].value, y[j].value);
    SameValueSameCanon(x[i].value, y[j].value);
    assert CanonEntries(y)[j] == CanonEntries(x)[i];
  }

  lemma {:induction false} SameMembersSameSort<T>(x: seq<Keyed<T>>, y: seq<Keyed<T>>)
    requires DistinctSortKeys(x)
    requires forall i, j :: 0 <= i < j < |y| ==> y[i].key != y[j].key
    requires forall i :: 0 <= i < |x| ==> x[i] in y
    requires forall i :: 0 <= i < |y| ==> y[i] in x
    ensures DistinctSortKeys(y) && Sort(x) == Sort(y)
  {
    forall j, k | 0 <= j < k < |y| ensures Utf16SortKey(y[j].key) != Utf16SortKey(y[k].key) {
      assert y[j] in x && y[k] in x;
    }
    SortMembers(x);
    SortMembers(y);
    SortKeepsDistinct(x);
    SortKeepsDistinct(y);
    SortedUnique(Sort(x), Sort(y));
  }

  // --------------------------------------- exactly when order is immaterial

  lemma {:induction false} SameReflexive(v: Json)
    ensures Same(v, v)
    decreases v
  {
    match v
    case Arr(items) => forall i | 0 <= i < |items| ensures Same(items[i], items[i]) { SameReflexive(items[i]); }
    case Obj(es) =>
      forall i | 0 <= i < |es| ensures HasMember(es[i], es) { SameReflexive(es[i].value); }
    case _ =>
  }

  lemma {:induction false} TiesSwapped<T>(es: seq<Keyed<T>>, i: nat, j: nat)
    requires i < j < |es| && Utf16SortKey(es[i].key) == Utf16SortKey(es[j].key)
    requires forall a, b :: 0 <= a < b < |es| ==> es[a].key != es[b].key
    ensures var k := Utf16SortKey(es[i].key);
            Ties(es[i := es[j]][j := es[i]], k) != Ties(es, k)
  {
    hide Utf16SortKey, Ties;
    var fs := es[i := es[j]][j := es[i]];
    var k := Utf16SortKey(es[i].key);
    assert es == [es[0]] + es[1..] && fs == [fs[0]] + fs[1..];
    TiesCons(es[0], es[1..], k);
    TiesCons(fs[0], fs[1..], k);
    if i == 0 {
      assert Ties(es, k)[0] == es[0] && Ties(fs, k)[0] == es[j];
    } else {
      TiesSwapped(es[1..], i - 1, j - 1);
      assert fs[1..] == es[1..][i - 1 := es[j]][j - 1 := es[i]];
      CancelPrefix(if Utf16SortKey(es[0].key) == k then [es[0]] else [], Ties(es[1..], k), Ties(fs[1..], k));
    }
  }

  lemma CancelPrefix<T>(p: seq<T>, a: seq<T>, b: seq<T>)
    requires a != b
    ensures p + a != p + b
  {
    assert (p + a)[|p|..] == a && (p + b)[|p|..] == b;
  }

  /** Two keys that share their encoding: swapping them changes the text. */
  lemma SwapChangesText(es: seq<Keyed<Json>>, i: nat, j: nat)
    requires WellFormed(Obj(es)) && i < j < |es| && Utf16SortKey(es[i].key) == Utf16SortKey(es[j].key)
    ensures var w := Obj(es[i := es[j]][j := es[i]]);
            WellFormed(w) && Same(Obj(es), w) && Canon(Obj(es)) != Canon(w)
  {
    SwapSame(es, i, j);
    SwapChangesSort(CanonEntries(es), i, j);
    SwapCanon(es, i, j);
  }

  lemma {:induction false} SwapCanon(es: seq<Keyed<Json>>, i: nat, j: nat)
    requires i < j < |es|
    ensures var ce := CanonEntries(es);
            CanonEntries(es[i := es[j]][j := es[i]]) == ce[i := ce[j]][j := ce[i]]
  {
    var fs := es[i := es[j]][j := es[i]];
    var (ce, cf) := (CanonEntries(es), CanonEntries(fs));
    var swapped := ce[i := ce[j]][j := ce[i]];
    forall a | 0 <= a < |es| ensures cf[a] == swapped[a] {
      var b := if a == i then j else if a == j then i else a;
      assert fs[a] == es[b] && swapped[a] == ce[b];
    }
    assert cf == swapped;
  }

  lemma SwapSame(es: seq<Keyed<Json>>, i: nat, j: nat)
    requires WellFormed(Obj(es)) && i < j < |es|
    ensures var w := Obj(es[i := es[j]][j := es[i]]);
            WellFormed(w) && Same(Obj(es), w)
  {
    var fs := es[i := es[j]][j := es[i]];
    forall a | 0 <= a < |es| ensures HasMember(es[a], fs) {
      SameReflexive(es[a].value);
      assert es[a] == fs[if a == i then j else if a == j then i else a];
    }
  }

  lemma SwapChangesSort<T>(es: seq<Keyed<T>>, i: nat, j: nat)
    requires i < j < |es| && Utf16SortKey(es[i].key) == Utf16SortKey(es[j].key)
    requires forall a, b :: 0 <= a < b < |es| ==> es[a].key != es[b].key
    ensures Sort(es[i := es[j]][j := es[i]]) != Sort(es)
  {
    var fs := es[i := es[j]][j := es[i]];
    var k := Utf16SortKey(es[i].key);
    TiesSwapped(es, i, j);
    SortSpec(es);
    SortSpec(fs);
    assert Ties(Sort(es), k) == Ties(es, k) != Ties(fs, k) == Ties(Sort(fs), k);
  }

  lemma ItemChangesText(items: seq<Json>, i: nat, x: Json) returns (w: Json)
    requires WellFormed(Arr(items)) && i < |items|
    requires WellFormed(x) && Same(items[i], x) && Canon(items[i]) != Canon(x)
    ensures WellFormed(w) && Same(Arr(items), w) && Canon(Arr(items)) != Canon(w)
  {
    var ys := items[i := x];
    w := Arr(ys);
    forall a | 0 <= a < |items| ensures Same(items[a], ys[a]) { SameReflexive(items[a]); }
    assert CanonItems(items)[i] != CanonItems(ys)[i];
  }

  lemma MemberChangesText(es: seq<Keyed<Json>>, i: nat, x: Json) returns (w: Json)
    requires WellFormed(Obj(es)) && i < |es|
    requires WellFormed(x) && Same(es[i].value, x) && Canon(es[i].value) != Canon(x)
    ensures WellFormed(w) && Same(Obj(es), w) && Canon(Obj(es)) != Canon(w)
  {
    var fs := es[i := Keyed(es[i].key, x)];
    w := Obj(fs);
    forall a | 0 <= a < |es| ensures HasMember(es[a], fs) {
      SameReflexive(es[a].value);
      assert es[a].key == fs[a].key;
    }
    MemberChangesSort(CanonEntries(es), CanonEntries(fs), i);
  }

  lemma {:induction false} MemberChangesSort<T>(es: seq<Keyed<T>>, fs: seq<Keyed<T>>, i: nat)
    requires |es| == |fs| && i < |es| && es[i] != fs[i]
    requires forall a :: 0 <= a < |es| ==> es[a].key == fs[a].key
    requires forall a, b :: 0 <= a < b < |es| ==> es[a].key != es[b].key
    ensures Sort(es) != Sort(fs)
  {
    hide Sort;
    SortMembers(es);
    SortMembers(fs);
    assert es[i] in es && es[i] !in fs;
    assert es[i] in Sort(es) && es[i] !in Sort(fs);
  }

  /** A value with an ambiguous object has a reordering with another text. */
  lemma {:induction false} AmbiguousReordering(v: Json) returns (w: Json)
    requires WellFormed(v) && !Unambiguous(v)
    ensures WellFormed(w) && Same(v, w) && Canon(v) != Canon(w)
    decreases v
  {
    match v
    case Arr(items) =>
      var i :| 0 <= i < |items| && !Unambiguous(items[i]);
      var x := AmbiguousReordering(items[i]);
      w := ItemChangesText(items, i, x);
    case Obj(es) =>
      if i, j :| 0 <= i < j < |es| && Utf16SortKey(es[i].key) == Utf16SortKey(es[j].key) {
        w := Obj(es[i := es[j]][j := es[i]]);
        SwapChangesText(es, i, j);
      } else {
        var i :| 0 <= i < |es| && !Unambiguous(es[i].value);
        var x := AmbiguousReordering(es[i].value);
        w := MemberChangesText(es, i, x);
      }
  }

  /** The canonical text is independent of insertion order exactly when no object
      in the value holds two keys with one UTF-16 encoding. */
  lemma {:induction false} OrderIndependentExactlyWhen(v: Json)
    requires WellFormed(v)
    ensures Unambiguous(v) <==> forall w :: WellFormed(w) && Same(v, w) ==> Serialize(w) == Serialize(v)
  {
    if Unambiguous(v) {
      forall w | WellFormed(w) && Same(v, w) ensures Serialize(w) == Serialize(v) {
        SameValueSameCanon(v, w);
        SerializeIsEmitOfCanon(v);
        SerializeIsEmitOfCanon(w);
      }
    } else {
      var w := AmbiguousReordering(v);
      ParseUndoesCanonicalJson(v);
      ParseUndoesCanonicalJson(w);
      assert Serialize(w) != Serialize(v);
    }
  }

  /** Every key at every depth is free of lone surrogates. */
  ghost predicate EncodableKeys(v: Json)
    decreases v
  {
    match v
    case Arr(items) => forall i :: 0 <= i < |items| ==> EncodableKeys(items[i])
    case Obj(es) => forall i :: 0 <= i < |es| ==> Encodable(es[i].key) && EncodableKeys(es[i].value)
    case _ => true
  }

  /** Ordinary Unicode keys are never ambiguous. */
  lemma {:induction false} EncodableKeysUnambiguous(v: Json)
    requires WellFormed(v) && EncodableKeys(v)
    ensures Unambiguous(v)
    decreases v
  {
    match v
    case Arr(items) =>
      forall i | 0 <= i < |items| ensures Unambiguous(items[i]) { EncodableKeysUnambiguous(items[i]); }
    case Obj(es) =>
      forall i | 0 <= i < |es| ensures Unambiguous(es[i].value) { EncodableKeysUnambiguous(es[i].value); }
      forall i, j | 0 <= i < j < |es| ensures Utf16SortKey(es[i].key) != Utf16SortKey(es[j].key) {
        SortKeyOrdersByCodeUnit(es[i].key, es[j].key);
        if Units(es[i].key) == Units(es[j].key) { EncodableUnitsInjective(es[i].key, es[j].key); }
      }
    case _ =>
  }

  const ASTRAL: Text := [0x1_F600]
  const SURROGATES: Text := [0xD83D, 0xDE00]

  /** A concrete ambiguous object: one astral character, and its two surrogates
      as separate code points. */
  lemma AmbiguousKeysDepend()
    ensures var (v, w) := (Obj([Keyed(SURROGATES, Null), Keyed(ASTRAL, Null)]),
                           Obj([Keyed(ASTRAL, Null), Keyed(SURROGATES, Null)]));
            WellFormed(v) && WellFormed(w) && Same(v, w) && Serialize(v) != Serialize(w)
  {
    var es := [Keyed(SURROGATES, Null), Keyed(ASTRAL, Null)];
    var fs := [Keyed(ASTRAL, Null), Keyed(SURROGATES, Null)];
    assert Units(ASTRAL) == UnitsOf(0x1_F600) + Units([]) == [0xD83D, 0xDE00];
    assert SURROGATES[1..] == [0xDE00] && [0xDE00 as CodePoint][1..] == [];
    assert Units([0xDE00]) == UnitsOf(0xDE00) + Units([]) == [0xDE00];
    assert Units(SURROGATES) == UnitsOf(0xD83D) + Units([0xDE00]) == Units(ASTRAL);
    assert fs == es[0 := es[1]][1 := es[0]];
    SwapChangesText(es, 0, 1);
    ParseUndoesCanonicalJson(Obj(es));
    ParseUndoesCanonicalJson(Obj(fs));
  }

  // ----------------------------------------------------- properties of the text

  lemma {:induction false} EscapeEncodable(t: Text)
    ensures Encodable(Escape(t))
  {
    if t != [] { EscapeEncodable(t[1..]); }
  }

  lemma {:induction false} JoinEncodable(parts: seq<Text>)
    requires forall i :: 0 <= i < |parts| ==> Encodable(parts[i])
    ensures Encodable(Join(parts))
  {
    if |parts| > 1 { JoinEncodable(parts[1..]); }
  }

  /** Canonical text has no lone surrogate, so hashing its UTF-8 never fails. */
  lemma {:induction false} EmitEncodable(v: Json)
    ensures Encodable(Emit(v))
    decreases v
  {
    match v
    case Int(n) => DigitsAreDigits(if n < 0 then -n else n);
    case Str(s) => EscapeEncodable(s);
    case Arr(items) =>
      ItemsEncodable(items);
      JoinEncodable(EmitItems(items));
    case Obj(es) =>
      EntriesEncodable(es);
      JoinEncodable(EmitEntries(es));
    case _ =>
  }

  lemma {:induction false} ItemsEncodable(items: seq<Json>)
    ensures forall i :: 0 <= i < |EmitItems(items)| ==> Encodable(EmitItems(items)[i])
    decreases items
  {
    if items != [] {
      EmitEncodable(items[0]);
      ItemsEncodable(items[1..]);
    }
  }

  lemma {:induction false} EntriesEncodable(es: seq<Keyed<Json>>)
    ensures forall i :: 0 <= i < |EmitEntries(es)| ==> Encodable(EmitEntries(es)[i])
    decreases es
  {
    if es != [] {
      EscapeEncodable(es[0].key);
      EmitEncodable(es[0].value);
      EntriesEncodable(es[1..]);
    }
  }

  lemma {:induction false} CanonicalTextEncodable(v: Json)
    ensures Encodable(Serialize(v))
  {
    SerializeIsEmitOfCanon(v);
    EmitEncodable(Canon(v));
  }
}
