/**
 The canonical JSON serializer of companion/persisted_data.py, on null,
 booleans, integers, strings, lists and insertion-ordered objects.
 */
module Canonical {
  import opened Outcomes
  import opened PyText

  datatype Keyed<+T> = Keyed(key: Text, value: T)

  datatype Json =
    | Null
    | Bool(b: bool)
    | Int(n: int)
    | Str(s: Text)
    | Arr(items: seq<Json>)
    | Obj(entries: seq<Keyed<Json>>)

  const JS_MAX_SAFE_INTEGER := 9_007_199_254_740_991

  const QUOTE: CodePoint := 0x22
  const COMMA: CodePoint := 0x2C
  const COLON: CodePoint := 0x3A
  const BACKSLASH: CodePoint := 0x5C

  // ---------------------------------------------------------------- strings

  function Hex(d: int): CodePoint
    requires 0 <= d < 16
  {
    if d < 10 then 0x30 + d else 0x61 + (d - 10)
  }

  /** A \u escape with four lower-case hexadecimal digits. */
  function UnicodeEscape(c: CodePoint): Text
    requires c < 0x1_0000
  {
    [BACKSLASH, 0x75, Hex(c / 4096), Hex(c / 256 % 16), Hex(c / 16 % 16), Hex(c % 16)]
  }

  function EscapeChar(c: CodePoint): Text {
    if c == QUOTE then [BACKSLASH, QUOTE]
    else if c == BACKSLASH then [BACKSLASH, BACKSLASH]
    else if c == 0x0A then [BACKSLASH, 0x6E]
    else if c == 0x0D then [BACKSLASH, 0x72]
    else if c == 0x09 then [BACKSLASH, 0x74]
    else if c == 0x0C then [BACKSLASH, 0x66]
    else if c == 0x08 then [BACKSLASH, 0x62]
    else if c < 0x20 || IsSurrogate(c) then UnicodeEscape(c)
    else [c]
  }

  function Escape(t: Text): Text {
    if t == [] then [] else EscapeChar(t[0]) + Escape(t[1..])
  }

  function JsonString(t: Text): Text {
    [QUOTE] + Escape(t) + [QUOTE]
  }

  // --------------------------------------------------------------- integers

  function Digits(n: nat): Text {
    if n < 10 then [0x30 + n] else Digits(n / 10) + [0x30 + n % 10]
  }

  function Decimal(n: int): Text {
    if n < 0 then [0x2D] + Digits(-n) else Digits(n)
  }

  // ---------------------------------------------------------------- sorting

  /** Python's sorted by key: stable, because ties keep the earlier entry first. */
  function Insert<T>(e: Keyed<T>, es: seq<Keyed<T>>): seq<Keyed<T>> {
    if es == [] || LexLe(Utf16SortKey(e.key), Utf16SortKey(es[0].key)) then [e] + es
    else [es[0]] + Insert(e, es[1..])
  }

  function Sort<T>(es: seq<Keyed<T>>): seq<Keyed<T>> {
    if es == [] then [] else Insert(es[0], Sort(es[1..]))
  }

  function Join(parts: seq<Text>): Text {
    if parts == [] then []
    else if |parts| == 1 then parts[0]
    else parts[0] + [COMMA] + Join(parts[1..])
  }

  function Values<T>(es: seq<Keyed<T>>): (vs: seq<T>)
    ensures |vs| == |es|
    ensures forall i :: 0 <= i < |es| ==> vs[i] == es[i].value
  {
    seq(|es|, i requires 0 <= i < |es| => es[i].value)
  }

  // ------------------------------------------------------------- serializer

  /** The text of a value whose integers are all safe. */
  function Serialize(v: Json): Text
    decreases v
  {
    match v
    case Null => A("null")
    case Bool(b) => if b then A("true") else A("false")
    case Int(n) => Decimal(n)
    case Str(s) => JsonString(s)
    case Arr(items) => [0x5B] + Join(SerializeItems(items)) + [0x5D]
    case Obj(entries) => [0x7B] + Join(Values(Sort(SerializeEntries(entries)))) + [0x7D]
  }

  function SerializeItems(items: seq<Json>): seq<Text>
    decreases items
  {
    if items == [] then [] else [Serialize(items[0])] + SerializeItems(items[1..])
  }

  /** Each entry's text, still carrying its key for the sort. */
  function SerializeEntries(entries: seq<Keyed<Json>>): seq<Keyed<Text>>
    decreases entries
  {
    if entries == [] then []
    else
      [Keyed(entries[0].key, JsonString(entries[0].key) + [COLON] + Serialize(entries[0].value))]
      + SerializeEntries(entries[1..])
  }

  predicate Safe(v: Json)
    decreases v
  {
    match v
    case Int(n) => -JS_MAX_SAFE_INTEGER <= n <= JS_MAX_SAFE_INTEGER
    case Arr(items) => forall i :: 0 <= i < |items| ==> Safe(items[i])
    case Obj(entries) => forall i :: 0 <= i < |entries| ==> Safe(entries[i].value)
    case _ => true
  }

  /** None is PersistedDataRejected: some integer is outside the safe range. */
  function CanonicalJson(v: Json): Option<Text> {
    if Safe(v) then Some(Serialize(v)) else None
  }

  /** A Python dict has distinct keys. */
  predicate WellFormed(v: Json)
    decreases v
  {
    match v
    case Arr(items) => forall i :: 0 <= i < |items| ==> WellFormed(items[i])
    case Obj(entries) =>
      && (forall i, j :: 0 <= i < j < |entries| ==> entries[i].key != entries[j].key)
      && (forall i :: 0 <= i < |entries| ==> WellFormed(entries[i].value))
    case _ => true
  }

  // ------------------------------------------------------ canonical ordering

  /** The value with the keys of every object in sorted order. */
  function Canon(v: Json): Json
    decreases v
  {
    match v
    case Arr(items) => Arr(CanonItems(items))
    case Obj(entries) => Obj(Sort(CanonEntries(entries)))
    case _ => v
  }

  function CanonItems(items: seq<Json>): (r: seq<Json>)
    ensures |r| == |items|
    ensures forall i :: 0 <= i < |items| ==> r[i] == Canon(items[i])
    decreases items
  {
    if items == [] then [] else [Canon(items[0])] + CanonItems(items[1..])
  }

  function CanonEntries(entries: seq<Keyed<Json>>): (r: seq<Keyed<Json>>)
    ensures |r| == |entries|
    ensures forall i :: 0 <= i < |entries| ==> r[i] == Keyed(entries[i].key, Canon(entries[i].value))
    decreases entries
  {
    if entries == [] then []
    else [Keyed(entries[0].key, Canon(entries[0].value))] + CanonEntries(entries[1..])
  }

  /** The text of a value with its object keys left in the order they have. */
  function Emit(v: Json): Text
    decreases v
  {
    match v
    case Null => A("null")
    case Bool(b) => if b then A("true") else A("false")
    case Int(n) => Decimal(n)
    case Str(s) => JsonString(s)
    case Arr(items) => [0x5B] + Join(EmitItems(items)) + [0x5D]
    case Obj(entries) => [0x7B] + Join(EmitEntries(entries)) + [0x7D]
  }

  function EmitItems(items: seq<Json>): seq<Text>
    decreases items
  {
    if items == [] then [] else [Emit(items[0])] + EmitItems(items[1..])
  }

  function EmitEntry(e: Keyed<Json>): Text
    decreases e, 1
  {
    JsonString(e.key) + [COLON] + Emit(e.value)
  }

  function EmitEntries(entries: seq<Keyed<Json>>): seq<Text>
    decreases entries, 0
  {
    if entries == [] then [] else [EmitEntry(entries[0])] + EmitEntries(entries[1..])
  }

  /** Sorting the entries before serializing them or after makes no difference. */
  lemma {:induction false} InsertCommutes(k: Text, v: Json, entries: seq<Keyed<Json>>, texts: seq<Keyed<Text>>)
    requires |texts| == |entries|
    requires forall i :: 0 <= i < |entries| ==> texts[i] == Keyed(entries[i].key, EmitEntry(entries[i]))
    ensures var e := Keyed(k, v);
            var (es, ts) := (Insert(e, entries), Insert(Keyed(k, EmitEntry(e)), texts));
            |es| == |ts| && forall i :: 0 <= i < |es| ==> ts[i] == Keyed(es[i].key, EmitEntry(es[i]))
  {
    if entries != [] {
      InsertCommutes(k, v, entries[1..], texts[1..]);
    }
  }

  lemma {:induction false} SortCommutes(entries: seq<Keyed<Json>>)
    ensures var (es, ts) := (Sort(CanonEntries(entries)), Sort(SerializeEntries(entries)));
            |es| == |ts| && forall i :: 0 <= i < |es| ==> ts[i] == Keyed(es[i].key, EmitEntry(es[i]))
    decreases entries
  {
    if entries != [] {
      SerializeIsEmitOfCanon(entries[0].value);
      SortCommutes(entries[1..]);
      InsertCommutes(entries[0].key, Canon(entries[0].value),
        Sort(CanonEntries(entries[1..])), Sort(SerializeEntries(entries[1..])));
      assert CanonEntries(entries)[1..] == CanonEntries(entries[1..]);
    }
  }

  lemma {:induction false} ItemsCommute(items: seq<Json>)
    ensures SerializeItems(items) == EmitItems(CanonItems(items))
    decreases items
  {
    if items != [] {
      SerializeIsEmitOfCanon(items[0]);
      ItemsCommute(items[1..]);
      assert CanonItems(items)[1..] == CanonItems(items[1..]);
    }
  }

  lemma {:induction false} EmitEntriesAt(es: seq<Keyed<Json>>)
    ensures |EmitEntries(es)| == |es|
    ensures forall i :: 0 <= i < |es| ==> EmitEntries(es)[i] == EmitEntry(es[i])
  {
    if es != [] { EmitEntriesAt(es[1..]); }
  }

  /** The serializer writes the value with all its objects sorted. */
  lemma {:induction false} SerializeIsEmitOfCanon(v: Json)
    ensures Serialize(v) == Emit(Canon(v))
    decreases v
  {
    match v
    case Arr(items) => ItemsCommute(items);
    case Obj(entries) =>
      SortCommutes(entries);
      var es := Sort(CanonEntries(entries));
      EmitEntriesAt(es);
      assert Values(Sort(SerializeEntries(entries))) == EmitEntries(es);
    case _ =>
  }
}
