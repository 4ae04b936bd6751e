/**
 What canonical text is, code point by code point: the words, digits, escapes and
 separators of each kind of value.
 */
module CanonicalText {
  import opened PyText
  import opened Canonical
  import opened CanonicalOrder

  /** Null and the booleans, and integers digit by digit. */
  lemma ScalarText(n: int)
    ensures Serialize(Null) == [0x6E, 0x75, 0x6C, 0x6C]
    ensures Serialize(Bool(true)) == [0x74, 0x72, 0x75, 0x65]
    ensures Serialize(Bool(false)) == [0x66, 0x61, 0x6C, 0x73, 0x65]
    ensures 0 <= n < 10 ==> Serialize(Int(n)) == [0x30 + n]
    ensures n >= 10 ==> Serialize(Int(n)) == Serialize(Int(n / 10)) + [0x30 + n % 10]
    ensures n < 0 ==> Serialize(Int(n)) == [0x2D] + Serialize(Int(-n))
  {
  }

  /** An integer has canonical text exactly when JavaScript holds it exactly. */
  lemma IntegerRange(n: int)
    ensures CanonicalJson(Int(n)).Some? <==> -9007199254740991 <= n <= 9007199254740991
  {
  }

  function LowerHex(): (t: Text)
    ensures |t| == 16
  {
    [0x30, 0x31, 0x32, 0x33, 0x34, 0x35, 0x36, 0x37, 0x38, 0x39, 0x61, 0x62, 0x63, 0x64, 0x65, 0x66]
  }

  /** How one character stands between the quotes. */
  lemma CharacterText(c: CodePoint)
    ensures c == 0x22 ==> Serialize(Str([c])) == [0x22, 0x5C, 0x22, 0x22]
    ensures c == 0x5C ==> Serialize(Str([c])) == [0x22, 0x5C, 0x5C, 0x22]
    ensures c == 0x0A ==> Serialize(Str([c])) == [0x22, 0x5C, 0x6E, 0x22]
    ensures c == 0x0D ==> Serialize(Str([c])) == [0x22, 0x5C, 0x72, 0x22]
    ensures c == 0x09 ==> Serialize(Str([c])) == [0x22, 0x5C, 0x74, 0x22]
    ensures c == 0x0C ==> Serialize(Str([c])) == [0x22, 0x5C, 0x66, 0x22]
    ensures c == 0x08 ==> Serialize(Str([c])) == [0x22, 0x5C, 0x62, 0x22]
    ensures 0xD800 <= c <= 0xDFFF || (c < 0x20 && c !in [0x0A, 0x0D, 0x09, 0x0C, 0x08]) ==>
      Serialize(Str([c])) == [0x22, 0x5C, 0x75, LowerHex()[c / 0x1000], LowerHex()[c / 0x100 % 16],
                              LowerHex()[c / 0x10 % 16], LowerHex()[c % 16], 0x22]
    ensures c >= 0x20 && c != 0x22 && c != 0x5C && !(0xD800 <= c <= 0xDFFF) ==>
      Serialize(Str([c])) == [0x22, c, 0x22]
  {
    assert [c][1..] == [];
    assert Escape([c]) == EscapeChar(c) + [];
  }

  /** Text is quoted once, and its characters follow one another. */
  lemma {:induction false} StringText(s: Text, t: Text)
    ensures Serialize(Str([])) == [0x22, 0x22]
    ensures var (a, b) := (Serialize(Str(s)), Serialize(Str(t)));
      && |a| >= 2 && |b| >= 2 && a[0] == a[|a| - 1] == b[0] == b[|b| - 1] == 0x22
      && Serialize(Str(s + t)) == a[..|a| - 1] + b[1..]
  {
    assert Escape([]) == [];
    hide Escape;
    EscapeJoin(s, t);
    Bracketed(QUOTE, [], QUOTE);
    Bracketed(QUOTE, Escape(s), QUOTE);
    Bracketed(QUOTE, Escape(t), QUOTE);
    BracketsJoin(QUOTE, Escape(s), Escape(t), QUOTE);
  }

  lemma Bracketed(l: CodePoint, x: Text, r: CodePoint)
    ensures var a := [l] + x + [r];
      |a| == |x| + 2 && a[0] == l && a[|a| - 1] == r && a[..|a| - 1] == [l] + x && a[1..] == x + [r]
    ensures x == [] ==> [l] + x + [r] == [l, r]
  {
  }

  lemma BracketsJoin(l: CodePoint, x: Text, y: Text, r: CodePoint)
    ensures [l] + (x + y) + [r] == ([l] + x) + (y + [r])
  {
  }

  lemma {:induction false} EscapeJoin(s: Text, t: Text)
    ensures Escape(s + t) == Escape(s) + Escape(t)
  {
    hide EscapeChar;
    if s == [] {
      assert s + t == t;
    } else {
      EscapeJoin(s[1..], t);
      assert (s + t)[1..] == s[1..] + t;
    }
  }

  /** A list is bracketed, with single commas between its items. */
  lemma {:induction false} ListText(items: seq<Json>, v: Json)
    ensures Serialize(Arr([])) == [0x5B, 0x5D]
    ensures var (a, b) := (Serialize(Arr(items)), Serialize(v));
      |a| >= 2 && Serialize(Arr(items + [v])) == a[..|a| - 1] + (if items == [] then [] else [0x2C]) + b + [0x5D]
  {
    assert Join(SerializeItems([])) == [];
    ItemsCount(items);
    assert Serialize(Arr([])) == [0x5B] + Join(SerializeItems([])) + [0x5D];
    TextOfList(items);
    TextOfList(items + [v]);
    hide Serialize, Join, SerializeItems;
    ItemsJoin(items, v);
    JoinLast(SerializeItems(items), Serialize(v));
    Bracketed(0x5B, [], 0x5D);
    Bracketed(0x5B, Join(SerializeItems(items)), 0x5D);
    LastInBrackets(0x5B, Join(SerializeItems(items)), if items == [] then [] else [0x2C], Serialize(v), 0x5D);
  }

  lemma {:induction false} TextOfList(items: seq<Json>)
    ensures Serialize(Arr(items)) == [0x5B] + Join(SerializeItems(items)) + [0x5D]
  {
  }

  lemma LastInBrackets(l: CodePoint, x: Text, comma: Text, y: Text, r: CodePoint)
    ensures [l] + (x + comma + y) + [r] == ([l] + x) + comma + y + [r]
  {
  }

  lemma {:induction false} ItemsCount(items: seq<Json>)
    ensures |SerializeItems(items)| == |items|
  {
    if items != [] { ItemsCount(items[1..]); }
  }

  lemma {:induction false} ItemsJoin(items: seq<Json>, v: Json)
    ensures SerializeItems(items + [v]) == SerializeItems(items) + [Serialize(v)]
  {
    if items == [] {
      assert items + [v] == [v] && [v][1..] == [];
    } else {
      ItemsJoin(items[1..], v);
      assert (items + [v])[1..] == items[1..] + [v];
    }
  }

  lemma {:induction false} JoinLast(parts: seq<Text>, last: Text)
    ensures Join(parts + [last]) == Join(parts) + (if parts == [] then [] else [COMMA]) + last
  {
    if parts == [] {
      assert parts + [last] == [last];
    } else {
      JoinLast(parts[1..], last);
      assert (parts + [last])[1..] == parts[1..] + [last];
      if |parts| == 1 { assert parts[1..] == []; }
    }
  }

  /** The entry's key comes after all others in code-unit order. */
  ghost predicate Last(entries: seq<Keyed<Json>>, e: Keyed<Json>) {
    forall i :: 0 <= i < |entries| ==>
      LexLe(Units(entries[i].key), Units(e.key)) && Units(entries[i].key) != Units(e.key)
  }

  /** An object is braced; an entry is its quoted key, a colon and its value; and the
      entry whose key comes last in code-unit order stands last, wherever it was put. */
  lemma {:induction false} ObjectText(front: seq<Keyed<Json>>, e: Keyed<Json>, back: seq<Keyed<Json>>)
    requires Last(front + back, e)
    ensures Serialize(Obj([])) == [0x7B, 0x7D]
    ensures var a := Serialize(Obj(front + back));
      |a| >= 2 && Serialize(Obj(front + [e] + back)) ==
        a[..|a| - 1] + (if front + back == [] then [] else [0x2C]) + Serialize(Str(e.key)) + [0x3A]
        + Serialize(e.value) + [0x7D]
  {
    EmptyObject();
    TextOfObject(front + back);
    TextOfObject(front + [e] + back);
    TextOfKey(e.key);
    hide Serialize, Last;
    ObjectInner(front, e, back);
    hide Inner;
    Bracketed(0x7B, Inner(front + back), 0x7D);
    var comma := if front + back == [] then [] else [0x2C];
    var (x, k, v) := (Inner(front + back), JsonString(e.key), Serialize(e.value));
    LastInBrackets(0x7B, x, comma, k + [COLON] + v, 0x7D);
    hide JsonString;
    KeyedAssociates([0x7B] + x, comma, k, v, 0x7D);
  }

  lemma KeyedAssociates(x: Text, comma: Text, k: Text, v: Text, r: CodePoint)
    ensures x + comma + (k + [COLON] + v) + [r] == x + comma + k + [0x3A] + v + [r]
  {
  }

  function Inner(es: seq<Keyed<Json>>): Text {
    Join(Values(Sort(SerializeEntries(es))))
  }

  lemma {:induction false} ObjectInner(front: seq<Keyed<Json>>, e: Keyed<Json>, back: seq<Keyed<Json>>)
    requires Last(front + back, e)
    ensures Inner(front + [e] + back) == Inner(front + back) + (if front + back == [] then [] else [0x2C])
      + (JsonString(e.key) + [COLON] + Serialize(e.value))
  {
    var entry := Keyed(e.key, JsonString(e.key) + [COLON] + Serialize(e.value));
    TextOfEntry(e, entry);
    hide JsonString, Serialize, Last, SerializeEntries;
    var (fs, bs) := (SerializeEntries(front), SerializeEntries(back));
    hide Sort, Join, Values, Topmost;
    EntriesJoin(front, back);
    EntriesAround(front, e, back, entry);
    LastAmongTexts(front, back, e, entry);
    EntriesCount(front + back);
    SortLast(fs, entry, bs);
    SortCount(fs + bs);
    JoinEntries(Sort(fs + bs), entry);
  }

  lemma {:induction false} EntriesAround(front: seq<Keyed<Json>>, e: Keyed<Json>, back: seq<Keyed<Json>>,
                                         entry: Keyed<Text>)
    requires SerializeEntries([e]) == [entry]
    ensures SerializeEntries(front + [e] + back) == SerializeEntries(front) + [entry] + SerializeEntries(back)
  {
    hide SerializeEntries;
    EntriesJoin(front + [e], back);
    EntriesJoin(front, [e]);
  }

  lemma {:induction false} TextOfEntry(e: Keyed<Json>, entry: Keyed<Text>)
    requires entry == Keyed(e.key, JsonString(e.key) + [COLON] + Serialize(e.value))
    ensures SerializeEntries([e]) == [entry]
  {
    assert [e][1..] == [] && SerializeEntries([e][1..]) == [];
  }

  lemma {:induction false} EmptyObject()
    ensures Serialize(Obj([])) == [0x7B, 0x7D]
  {
    var es: seq<Keyed<Text>> := SerializeEntries([]);
    assert Sort(es) == [] && Values(Sort(es)) == [];
    assert Serialize(Obj([])) == [0x7B] + Join(Values(Sort(es))) + [0x7D];
  }

  lemma {:induction false} TextOfKey(k: Text)
    ensures Serialize(Str(k)) == JsonString(k)
  {
  }

  lemma {:induction false} TextOfObject(es: seq<Keyed<Json>>)
    ensures Serialize(Obj(es)) == [0x7B] + Inner(es) + [0x7D]
  {
  }

  lemma JoinEntries(es: seq<Keyed<Text>>, e: Keyed<Text>)
    ensures Join(Values(es + [e])) == Join(Values(es)) + (if es == [] then [] else [COMMA]) + e.value
  {
    assert Values(es + [e]) == Values(es) + [e.value];
    JoinLast(Values(es), e.value);
  }

  lemma {:induction false} EntriesCount(es: seq<Keyed<Json>>)
    ensures |SerializeEntries(es)| == |es|
    ensures forall i :: 0 <= i < |es| ==> SerializeEntries(es)[i].key == es[i].key
  {
    if es != [] {
      EntriesCount(es[1..]);
      assert forall i :: 1 <= i < |es| ==> SerializeEntries(es)[i] == SerializeEntries(es[1..])[i - 1];
    }
  }

  lemma {:induction false} EntriesHead(e: Keyed<Json>, es: seq<Keyed<Json>>)
    ensures SerializeEntries([e] + es)
      == [Keyed(e.key, JsonString(e.key) + [COLON] + Serialize(e.value))] + SerializeEntries(es)
    ensures SerializeEntries([]) == []
  {
    assert ([e] + es)[1..] == es;
  }

  lemma {:induction false} EntriesJoin(es: seq<Keyed<Json>>, fs: seq<Keyed<Json>>)
    ensures SerializeEntries(es + fs) == SerializeEntries(es) + SerializeEntries(fs)
  {
    if es == [] {
      EntriesHead(Keyed([], Null), []);
      hide SerializeEntries;
      assert es + fs == fs;
    } else {
      hide SerializeEntries, JsonString, Serialize;
      var (e, tail) := (es[0], es[1..]);
      EntriesJoin(tail, fs);
      EntriesHead(e, tail);
      EntriesHead(e, tail + fs);
      assert es == [e] + tail && es + fs == [e] + (tail + fs);
    }
  }

  /** The sort key of the entry is above all others. */
  ghost predicate Topmost<T>(es: seq<Keyed<T>>, e: Keyed<T>) {
    forall i :: 0 <= i < |es| ==> !LexLe(Utf16SortKey(e.key), Utf16SortKey(es[i].key))
  }

  lemma {:induction false} LastAmongTexts(front: seq<Keyed<Json>>, back: seq<Keyed<Json>>, e: Keyed<Json>,
                                          entry: Keyed<Text>)
    requires Last(front + back, e) && entry.key == e.key
    ensures Topmost(SerializeEntries(front) + SerializeEntries(back), entry)
  {
    hide LexLe, Utf16SortKey, SerializeEntries;
    EntriesJoin(front, back);
    EntriesCount(front + back);
    var es := front + back;
    forall i | 0 <= i < |es| ensures !LexLe(Utf16SortKey(e.key), Utf16SortKey(es[i].key)) {
      SortKeyOrdersByCodeUnit(es[i].key, e.key);
      SortKeyOrdersByCodeUnit(e.key, es[i].key);
      LexAntisymmetric(Units(e.key), Units(es[i].key));
    }
  }

  lemma {:induction false} LexAntisymmetric(a: seq<int>, b: seq<int>)
    ensures LexLe(a, b) && LexLe(b, a) ==> a == b
  {
    LexTotal(a, b);
  }

  lemma {:induction false} InsertBefore<T>(e: Keyed<T>, es: seq<Keyed<T>>, last: Keyed<T>)
    requires !LexLe(Utf16SortKey(last.key), Utf16SortKey(e.key))
    ensures Insert(e, es + [last]) == Insert(e, es) + [last]
  {
    hide LexLe, Utf16SortKey;
    LexTotal(Utf16SortKey(last.key), Utf16SortKey(e.key));
    if es == [] {
      assert es + [last] == [last] && Insert(e, []) == [e];
    } else {
      assert (es + [last])[1..] == es[1..] + [last];
      InsertBefore(e, es[1..], last);
    }
  }

  lemma {:induction false} InsertLast<T>(e: Keyed<T>, es: seq<Keyed<T>>)
    requires Topmost(es, e)
    ensures Insert(e, es) == es + [e]
  {
    hide LexLe, Utf16SortKey;
    if es != [] { InsertLast(e, es[1..]); }
  }

  lemma {:induction false} SortCount<T>(es: seq<Keyed<T>>)
    ensures |Sort(es)| == |es| && multiset(Sort(es)) == multiset(es)
  {
    SortSpec(es);
  }

  lemma {:induction false} SortLast<T>(front: seq<Keyed<T>>, e: Keyed<T>, back: seq<Keyed<T>>)
    requires Topmost(front + back, e)
    ensures Sort(front + [e] + back) == Sort(front + back) + [e]
  {
    hide LexLe, Utf16SortKey;
    if front == [] {
      assert front + [e] + back == [e] + back && front + back == back && ([e] + back)[1..] == back;
      TopmostSorted(back, e);
      InsertLast(e, Sort(back));
    } else {
      assert (front + [e] + back)[1..] == front[1..] + [e] + back && (front + back)[1..] == front[1..] + back;
      assert Topmost(front[1..] + back, e) by {
        assert forall i :: 0 <= i < |front[1..] + back| ==> (front[1..] + back)[i] == (front + back)[i + 1];
      }
      assert (front + back)[0] == front[0];
      SortLast(front[1..], e, back);
      InsertBefore(front[0], Sort(front[1..] + back), e);
    }
  }

  lemma {:induction false} TopmostSorted<T>(es: seq<Keyed<T>>, e: Keyed<T>)
    requires Topmost(es, e)
    ensures Topmost(Sort(es), e)
  {
    hide LexLe, Utf16SortKey;
    SortCount(es);
    forall i | 0 <= i < |Sort(es)| ensures !LexLe(Utf16SortKey(e.key), Utf16SortKey(Sort(es)[i].key)) {
      assert Sort(es)[i] in multiset(Sort(es));
      assert Sort(es)[i] in es;
    }
  }

  /** A character of the basic plane is one code unit; any other is a high and a low
      surrogate that decode to it. */
  lemma {:induction false} UnitsDecode(c: CodePoint, t: Text)
    ensures Units([]) == [] && Units([c] + t) == Units([c]) + Units(t)
    ensures c < 0x1_0000 ==> Units([c]) == [c]
    ensures c >= 0x1_0000 ==>
      var u := Units([c]);
      && |u| == 2 && 0xD800 <= u[0] <= 0xDBFF && 0xDC00 <= u[1] <= 0xDFFF
      && c == 0x1_0000 + (u[0] - 0xD800) * 0x400 + (u[1] - 0xDC00)
  {
    assert ([c] + t)[1..] == t && [c][1..] == [];
    assert Units([c]) == UnitsOf(c) + [] == UnitsOf(c);
  }

  /** The order of key texts: at the first difference the smaller unit comes first, and a
      proper prefix comes before what extends it. */
  lemma {:induction false} LexByFirstDifference(a: seq<int>, b: seq<int>, i: nat)
    requires i <= |a| && i <= |b| && a[..i] == b[..i]
    ensures i < |a| && i < |b| && a[i] != b[i] ==> (LexLe(a, b) <==> a[i] < b[i])
    ensures i == |a| ==> LexLe(a, b)
    ensures i == |b| && i < |a| ==> !LexLe(a, b)
  {
    if i > 0 {
      assert a[0] == a[..i][0] == b[..i][0] == b[0];
      assert a[1..][..i - 1] == a[..i][1..] && b[1..][..i - 1] == b[..i][1..];
      LexByFirstDifference(a[1..], b[1..], i - 1);
    }
  }
}
