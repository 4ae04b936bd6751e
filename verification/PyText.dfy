/** Options and results shared by every component of the model. */
module Outcomes {
  datatype Option<+T> = None | Some(value: T)
}

/**
 Python text: a sequence of code points in which lone surrogates may occur, as
 they do after json.loads of an escaped surrogate.  The sort key that the
 companion uses for object keys is the big-endian UTF-16 encoding.
 */
module PyText {

  type CodePoint = c: int | 0 <= c < 0x11_0000
  type Text = seq<CodePoint>

  /** An ASCII literal as text. */
  function A(s: string): (t: Text)
    ensures |t| == |s|
    ensures forall i :: 0 <= i < |s| ==> t[i] == s[i] as int
  {
    seq(|s|, i requires 0 <= i < |s| => s[i] as int)
  }

  predicate IsSurrogate(c: CodePoint) {
    0xD800 <= c <= 0xDFFF
  }

  /** Encodes to UTF-8 without an error: no surrogate code point occurs. */
  predicate Encodable(t: Text) {
    forall i :: 0 <= i < |t| ==> !IsSurrogate(t[i])
  }

  function UnitsOf(c: CodePoint): (u: seq<int>)
  {
    if c < 0x1_0000 then [c]
    else [0xD800 + (c - 0x1_0000) / 0x400, 0xDC00 + (c - 0x1_0000) % 0x400]
  }

  /** UTF-16 code units, surrogates passed through. */
  function Units(t: Text): (u: seq<int>)
    ensures forall i :: 0 <= i < |u| ==> 0 <= u[i] < 0x1_0000
  {
    if t == [] then [] else UnitsOf(t[0]) + Units(t[1..])
  }

  function BigEndian(u: seq<int>): seq<int> {
    if u == [] then [] else [u[0] / 256, u[0] % 256] + BigEndian(u[1..])
  }

  function Utf16SortKey(t: Text): seq<int> {
    BigEndian(Units(t))
  }

  predicate LexLe(a: seq<int>, b: seq<int>) {
    a == [] || (b != [] && (a[0] < b[0] || (a[0] == b[0] && LexLe(a[1..], b[1..]))))
  }

  lemma {:induction false} LexTotal(a: seq<int>, b: seq<int>)
    ensures LexLe(a, b) || LexLe(b, a)
    ensures LexLe(a, b) && LexLe(b, a) ==> a == b
  {
    if a != [] && b != [] {
      LexTotal(a[1..], b[1..]);
      if a[0] == b[0] && a[1..] == b[1..] {
        assert a == [a[0]] + a[1..] == b;
      }
    }
  }

  lemma {:induction false} LexTransitive(a: seq<int>, b: seq<int>, c: seq<int>)
    requires LexLe(a, b) && LexLe(b, c)
    ensures LexLe(a, c)
  {
    if a != [] && a[0] == b[0] == c[0] {
      LexTransitive(a[1..], b[1..], c[1..]);
    }
  }

  lemma {:induction false} BytesOrderIsUnitOrder(u: seq<int>, v: seq<int>)
    requires forall i :: 0 <= i < |u| ==> 0 <= u[i] < 0x1_0000
    requires forall i :: 0 <= i < |v| ==> 0 <= v[i] < 0x1_0000
    ensures LexLe(BigEndian(u), BigEndian(v)) <==> LexLe(u, v)
  {
    if u != [] && v != [] {
      BytesOrderIsUnitOrder(u[1..], v[1..]);
      var (x, y) := (BigEndian(u), BigEndian(v));
      assert x[1..][1..] == BigEndian(u[1..]) && y[1..][1..] == BigEndian(v[1..]);
    }
  }

  /** Comparing sort keys byte by byte is comparing UTF-16 code units, which is
      the order section 3.2.3 of RFC 8785 asks for. */
  lemma {:induction false} SortKeyOrdersByCodeUnit(s: Text, t: Text)
    ensures LexLe(Utf16SortKey(s), Utf16SortKey(t)) <==> LexLe(Units(s), Units(t))
    ensures Utf16SortKey(s) == Utf16SortKey(t) <==> Units(s) == Units(t)
  {
    BytesOrderIsUnitOrder(Units(s), Units(t));
    BytesOrderIsUnitOrder(Units(t), Units(s));
    LexTotal(Units(s), Units(t));
    LexTotal(Utf16SortKey(s), Utf16SortKey(t));
  }

  /** Text without lone surrogates is determined by its code units, hence by its
      sort key. */
  lemma {:induction false} EncodableUnitsInjective(s: Text, t: Text)
    requires Encodable(s) && Encodable(t) && Units(s) == Units(t)
    ensures s == t
  {
    if s != [] && t != [] {
      var (u, v) := (UnitsOf(s[0]), UnitsOf(t[0]));
      assert u[0] == Units(s)[0] == Units(t)[0] == v[0];
      assert |u| == |v|;
      assert Units(s)[|u|..] == Units(s[1..]) && Units(t)[|u|..] == Units(t[1..]);
      assert u == Units(s)[..|u|] == v;
      assert s[0] == t[0] by {
        if |u| == 2 { assert u[1] == v[1]; }
      }
      EncodableUnitsInjective(s[1..], t[1..]);
      assert s == [s[0]] + s[1..] == t;
    }
  }
}
