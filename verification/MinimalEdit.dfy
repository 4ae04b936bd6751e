/**
 Writing streamed content into an editor with the smallest single replacement:
 src/obsidianEditorFollow.ts.  Strings are sequences of UTF-16 code units and
 may be ill formed; the minimality theorem is about well-formed ones.
 */
module MinimalEdit {
  import opened Outcomes

  type CodeUnit = c: int | 0 <= c < 0x1_0000
  type JsString = seq<CodeUnit>

  datatype Edit = Edit(from: nat, to: nat, text: JsString)

  predicate High(c: CodeUnit) { 0xD800 <= c <= 0xDBFF }

  predicate Low(c: CodeUnit) { 0xDC00 <= c <= 0xDFFF }

  /** Every surrogate is half of a pair. */
  ghost predicate WellFormed(s: JsString) {
    && (forall i :: 0 <= i < |s| && High(s[i]) ==> i + 1 < |s| && Low(s[i + 1]))
    && (forall i :: 0 <= i < |s| && Low(s[i]) ==> 0 < i && High(s[i - 1]))
  }

  /** A document position: not inside a surrogate pair. */
  predicate Boundary(s: JsString, k: int) {
    0 <= k <= |s| && !(0 < k < |s| && High(s[k - 1]) && Low(s[k]))
  }

  /** Replacing the span of the edit in `previous` gives `next`. */
  predicate Turns(previous: JsString, next: JsString, e: Edit) {
    e.from <= e.to <= |previous| && previous[..e.from] + e.text + previous[e.to..] == next
  }

  /** The edit splits no pair: not in `previous`, and not in `next`. */
  predicate Respects(previous: JsString, next: JsString, e: Edit) {
    && Boundary(previous, e.from) && Boundary(previous, e.to)
    && Boundary(next, e.from) && Boundary(next, e.from + |e.text|)
  }

  /** No other replacement that respects pairs is shorter in span or in text. */
  ghost predicate Smallest(previous: JsString, next: JsString, e: Edit) {
    forall other :: Turns(previous, next, other) && Respects(previous, next, other) ==>
      e.to - e.from <= other.to - other.from && |e.text| <= |other.text|
  }

  // ------------------------------------------------------------- the two scans

  ghost predicate CommonPrefix(a: JsString, b: JsString, n: nat) {
    n <= |a| && n <= |b| && forall i :: 0 <= i < n ==> a[i] == b[i]
  }

  ghost predicate CommonSuffix(a: JsString, b: JsString, n: nat) {
    n <= |a| && n <= |b| && forall k :: |a| - n <= k < |a| ==> a[k] == b[k + |b| - |a|]
  }

  function Least(a: nat, b: nat): nat { if a <= b then a else b }

  predicate EndsHigh(s: JsString) {
    s != [] && High(s[|s| - 1])
  }

  /** How long the common prefix is, and how far back the scan steps from it. */
  ghost predicate PrefixScan(a: JsString, b: JsString, prefix: nat) {
    && CommonPrefix(a, b, prefix)
    && (a < b ==> prefix == if EndsHigh(a) then |a| - 1 else |a|)
    && (prefix > 0 && WellFormed(a) ==> !High(a[prefix - 1]))
    && (WellFormed(a) && WellFormed(b) ==>
          forall n: nat :: CommonPrefix(a, b, n) && Boundary(a, n) ==> n <= prefix)
  }

  method ScanPrefix(previous: JsString, next: JsString) returns (prefix: nat)
    requires previous != next
    ensures PrefixScan(previous, next, prefix)
  {
    var most := Least(|previous|, |next|);
    prefix := 0;
    while prefix < most && previous[prefix] == next[prefix]
      invariant prefix <= most && CommonPrefix(previous, next, prefix)
    {
      prefix := prefix + 1;
    }
    ghost var common := prefix;
    assert forall n: nat :: CommonPrefix(previous, next, n) ==> n <= common;
    if prefix > 0 && High(previous[prefix - 1]) {
      prefix := prefix - 1;
      assert WellFormed(previous) && prefix > 0 ==> !High(previous[prefix - 1]) by {
        assert previous[prefix] == previous[common - 1];
      }
      assert WellFormed(previous) ==> common < |previous| && !Boundary(previous, common);
    }
  }

  /** Common suffixes that do not overlap the prefix. */
  method ScanSuffix(previous: JsString, next: JsString, prefix: nat) returns (suffix: nat)
    requires PrefixScan(previous, next, prefix)
    ensures CommonSuffix(previous, next, suffix) && prefix + suffix <= |previous| && prefix + suffix <= |next|
    ensures suffix > 0 ==> !Low(previous[|previous| - suffix])
    ensures WellFormed(previous) && WellFormed(next) ==>
      forall n: nat :: CommonSuffix(previous, next, n) && Boundary(previous, |previous| - n) ==>
        n <= suffix || prefix + suffix == Least(|previous|, |next|)
  {
    var most := Least(|previous|, |next|) - prefix;
    suffix := 0;
    while suffix < most && previous[|previous| - 1 - suffix] == next[|next| - 1 - suffix]
      invariant suffix <= most && CommonSuffix(previous, next, suffix)
    {
      suffix := suffix + 1;
    }
    ghost var common := suffix;
    while suffix > 0 && Low(previous[|previous| - suffix])
      invariant suffix <= common
      invariant suffix < common ==> Low(previous[|previous| - suffix - 1])
      invariant WellFormed(previous) && suffix < common ==> suffix == common - 1 && Low(previous[|previous| - common])
    {
      suffix := suffix - 1;
    }
    if WellFormed(previous) && WellFormed(next) {
      if suffix < common { StepBackSplits(previous, next, prefix, common); }
      if common < most { LongestSuffix(previous, next, common); }
    }
  }

  lemma LongestSuffix(a: JsString, b: JsString, n: nat)
    requires n < |a| && n < |b| && a[|a| - 1 - n] != b[|b| - 1 - n]
    ensures forall m: nat :: CommonSuffix(a, b, m) ==> m <= n
  {
    assert b[|b| - 1 - n] == b[(|a| - 1 - n) + |b| - |a|];
  }

  /** When the suffix starts with a low surrogate it starts inside a pair, and it
      has not met the prefix. */
  lemma StepBackSplits(previous: JsString, next: JsString, prefix: nat, common: nat)
    requires WellFormed(previous) && WellFormed(next) && PrefixScan(previous, next, prefix)
    requires 0 < common && prefix + common <= |previous| && prefix + common <= |next|
    requires CommonSuffix(previous, next, common) && Low(previous[|previous| - common])
    ensures !Boundary(previous, |previous| - common)
    ensures prefix + common < Least(|previous|, |next|)
  {
    var (k, l) := (|previous| - common, |next| - common);
    assert previous[k] == next[k + |next| - |previous|];
    assert Low(next[l]) && High(next[l - 1]) && High(previous[k - 1]);
  }

  /** The smallest single replacement; None when there is nothing to do. */
  method ComputeMinimalEditRange(previous: JsString, next: JsString) returns (r: Option<Edit>)
    ensures r.None? <==> previous == next
    ensures r.Some? ==> Turns(previous, next, r.value)
    ensures r.Some? && WellFormed(previous) && WellFormed(next) ==>
      Respects(previous, next, r.value) && Smallest(previous, next, r.value)
    ensures previous < next ==>
      (r == Some(Edit(|previous|, |previous|, next[|previous|..])) <==> !EndsHigh(previous))
  {
    if previous == next {
      return None;
    }
    var prefix := ScanPrefix(previous, next);
    var suffix := ScanSuffix(previous, next, prefix);
    var e := Edit(prefix, |previous| - suffix, next[prefix..|next| - suffix]);
    assert previous[..prefix] == next[..prefix];
    SuffixSlices(previous, next, suffix);
    if WellFormed(previous) && WellFormed(next) { ScansAreSmallest(previous, next, prefix, suffix); }
    if previous < next { AppendIsInsertion(previous, next, prefix, suffix); }
    return Some(e);
  }

  /** No edit that respects pairs leaves more than the two scans do. */
  lemma ScansAreSmallest(previous: JsString, next: JsString, prefix: nat, suffix: nat)
    requires WellFormed(previous) && WellFormed(next) && PrefixScan(previous, next, prefix)
    requires CommonSuffix(previous, next, suffix)
    requires prefix + suffix <= |previous| && prefix + suffix <= |next|
    requires forall n: nat :: CommonSuffix(previous, next, n) && Boundary(previous, |previous| - n) ==>
      n <= suffix || prefix + suffix == Least(|previous|, |next|)
    ensures Smallest(previous, next, Edit(prefix, |previous| - suffix, next[prefix..|next| - suffix]))
  {
    hide WellFormed;
    forall other | Turns(previous, next, other) && Respects(previous, next, other)
      ensures |previous| - suffix - prefix <= other.to - other.from
      ensures |next| - suffix - prefix <= |other.text|
    {
      EditKeepsEnds(previous, next, other);
      var n: nat := |previous| - other.to;
      assert other.from <= prefix;
      assert n <= suffix || prefix + suffix == Least(|previous|, |next|);
    }
  }

  lemma SuffixSlices(a: JsString, b: JsString, n: nat)
    requires CommonSuffix(a, b, n)
    ensures a[|a| - n..] == b[|b| - n..]
  {
    var (s, t) := (a[|a| - n..], b[|b| - n..]);
    forall i | 0 <= i < n ensures s[i] == t[i] {
      var k := |a| - n + i;
      assert a[k] == b[k + |b| - |a|];
    }
  }

  /** What an edit leaves alone is a common prefix and a common suffix. */
  lemma EditKeepsEnds(previous: JsString, next: JsString, e: Edit)
    requires Turns(previous, next, e)
    ensures CommonPrefix(previous, next, e.from) && CommonSuffix(previous, next, |previous| - e.to)
    ensures |next| == e.from + |e.text| + (|previous| - e.to)
  {
    var (head, tail) := (previous[..e.from], previous[e.to..]);
    assert forall i :: 0 <= i < e.from ==> next[i] == head[i];
    assert forall k :: e.to <= k < |previous| ==> previous[k] == tail[k - e.to] == next[k + |next| - |previous|];
  }

  /** A stream that only appends gives the insertion of the new text at the end, unless
      the old text ends with half of a pair. */
  lemma AppendIsInsertion(previous: JsString, next: JsString, prefix: nat, suffix: nat)
    requires previous < next && PrefixScan(previous, next, prefix)
    requires CommonSuffix(previous, next, suffix) && prefix + suffix <= |previous|
    requires suffix > 0 ==> !Low(previous[|previous| - suffix])
    ensures var e := Edit(prefix, |previous| - suffix, next[prefix..|next| - suffix]);
      e == Edit(|previous|, |previous|, next[|previous|..]) <==> !EndsHigh(previous)
  {
    if !EndsHigh(previous) { assert next[|previous|..|next|] == next[|previous|..]; }
  }

  // ------------------------------------------------------------------- offsets

  /** Where an offset lands; `after` is the side an offset at the insertion goes. */
  function MapOffset(offset: int, e: Edit, after: bool): int {
    if offset < e.from then offset
    else if offset > e.to then offset + |e.text| - (e.to - e.from)
    else if offset == e.from && !after then e.from
    else e.from + |e.text|
  }

  /** An offset outside the replaced span keeps the text on its side; one inside
      moves to the end of the new text; and the order of offsets is kept. */
  lemma MappedOffset(previous: JsString, next: JsString, e: Edit, offset: nat, after: bool)
    requires Turns(previous, next, e) && offset <= |previous|
    ensures var m := MapOffset(offset, e, after);
      && 0 <= m <= |next|
      && (offset < e.from || (offset == e.from && !after) ==> next[..m] == previous[..offset])
      && (offset >= e.to && (offset > e.from || after) ==> next[m..] == previous[offset..])
      && (e.from < offset < e.to ==> m == e.from + |e.text|)
      && (forall later: int :: offset <= later ==> m <= MapOffset(later, e, after))
  {
    var m := MapOffset(offset, e, after);
    EditKeepsEnds(previous, next, e);
    hide Turns, CommonPrefix, CommonSuffix;
    if offset < e.from || (offset == e.from && !after) { PrefixSlices(previous, next, e.from, offset); }
    if offset >= e.to && (offset > e.from || after) {
      assert m == |next| - (|previous| - offset);
      ShorterSuffix(previous, next, |previous| - e.to, |previous| - offset);
      SuffixSlices(previous, next, |previous| - offset);
    }
  }

  lemma PrefixSlices(a: JsString, b: JsString, n: nat, k: nat)
    requires CommonPrefix(a, b, n) && k <= n
    ensures a[..k] == b[..k]
  {
  }

  lemma ShorterSuffix(a: JsString, b: JsString, n: nat, k: nat)
    requires CommonSuffix(a, b, n) && k <= n
    ensures CommonSuffix(a, b, k)
  {
  }

  /** A caret that splits no pair is mapped to one that splits no pair. */
  lemma MappedBoundary(previous: JsString, next: JsString, e: Edit, offset: nat, after: bool)
    requires Turns(previous, next, e) && Respects(previous, next, e) && Boundary(previous, offset)
    ensures Boundary(next, MapOffset(offset, e, after))
  {
    var m := MapOffset(offset, e, after);
    EditKeepsEnds(previous, next, e);
    if offset < e.from {
      assert next[offset] == previous[offset] && (offset > 0 ==> next[offset - 1] == previous[offset - 1]);
    } else if offset > e.to {
      assert previous[offset - 1] == next[m - 1] && (offset < |previous| ==> previous[offset] == next[m]);
    }
  }

  /** A document position is one that no surrogate pair spans. */
  lemma BoundaryRule(s: JsString, k: int)
    ensures Boundary(s, k) <==>
      0 <= k <= |s|
      && !(0 < k < |s| && 0xD800 <= s[k - 1] < 0xDC00 && 0xDC00 <= s[k] < 0xE000)
  {
  }
}
