/**
 A reader for the text that the canonical serializer writes, and the proof that
 it recovers the value.  It shares nothing with the serializer but the alphabet.
 */
module CanonicalParse {
  import opened Outcomes
  import opened PyText
  import opened Canonical

  datatype Parsed<+T> = Parsed(value: T, rest: Text)

  // ---------------------------------------------------------------- strings

  function HexValue(c: CodePoint): Option<int> {
    if 0x30 <= c <= 0x39 then Some(c - 0x30)
    else if 0x61 <= c <= 0x66 then Some(c - 0x61 + 10)
    else None
  }

  function ParseHex(s: Text): (r: Option<CodePoint>)
    requires |s| == 4
  {
    match (HexValue(s[0]), HexValue(s[1]), HexValue(s[2]), HexValue(s[3]))
    case (Some(a), Some(b), Some(c), Some(d)) => Some((4096 * a + 256 * b + 16 * c + d) % 0x11_0000)
    case _ => None
  }

  /** One possibly escaped character. */
  function ParseChar(s: Text): (r: Option<Parsed<CodePoint>>)
    requires s != [] && s[0] != QUOTE
    ensures r.Some? ==> |r.value.rest| < |s|
  {
    if s[0] != BACKSLASH then Some(Parsed(s[0], s[1..]))
    else if |s| < 2 then None
    else if s[1] == 0x75 then
      if |s| < 6 then None
      else match ParseHex(s[2..6]) case Some(c) => Some(Parsed(c, s[6..])) case None => None
    else if s[1] == 0x6E then Some(Parsed(0x0A, s[2..]))
    else if s[1] == 0x72 then Some(Parsed(0x0D, s[2..]))
    else if s[1] == 0x74 then Some(Parsed(0x09, s[2..]))
    else if s[1] == 0x66 then Some(Parsed(0x0C, s[2..]))
    else if s[1] == 0x62 then Some(Parsed(0x08, s[2..]))
    else if s[1] == QUOTE || s[1] == BACKSLASH then Some(Parsed(s[1], s[2..]))
    else None
  }

  /** Characters up to the closing quote. */
  function ParseChars(s: Text): (r: Option<Parsed<Text>>)
    ensures r.Some? ==> |r.value.rest| < |s|
    decreases |s|
  {
    if s == [] then None
    else if s[0] == QUOTE then Some(Parsed([], s[1..]))
    else match ParseChar(s)
      case None => None
      case Some(c) =>
        match ParseChars(c.rest)
        case None => None
        case Some(t) => Some(Parsed([c.value] + t.value, t.rest))
  }

  // --------------------------------------------------------------- integers

  predicate IsDigit(c: CodePoint) { 0x30 <= c <= 0x39 }

  function DigitRun(s: Text): (n: nat)
    ensures n <= |s|
  {
    if s == [] || !IsDigit(s[0]) then 0 else 1 + DigitRun(s[1..])
  }

  function DigitsValue(ds: Text): int
  {
    if ds == [] then 0 else 10 * DigitsValue(ds[..|ds| - 1]) + (ds[|ds| - 1] as int - 0x30)
  }

  function ParseNat(s: Text): (r: Option<Parsed<int>>)
    ensures r.Some? ==> |r.value.rest| < |s|
  {
    var n := DigitRun(s);
    if n == 0 then None else Some(Parsed(DigitsValue(s[..n]), s[n..]))
  }

  // ----------------------------------------------------------------- values

  function ParseLiteral(s: Text, word: Text, v: Json): (r: Option<Parsed<Json>>)
    requires word != []
    ensures r.Some? ==> |r.value.rest| < |s|
  {
    if |word| <= |s| && s[..|word|] == word then Some(Parsed(v, s[|word|..])) else None
  }

  function ParseValue(s: Text): (r: Option<Parsed<Json>>)
    ensures r.Some? ==> |r.value.rest| < |s|
    decreases |s|, 0
  {
    if s == [] then None
    else if s[0] == 0x6E then ParseLiteral(s, A("null"), Null)
    else if s[0] == 0x74 then ParseLiteral(s, A("true"), Bool(true))
    else if s[0] == 0x66 then ParseLiteral(s, A("false"), Bool(false))
    else if s[0] == QUOTE then
      match ParseChars(s[1..]) case None => None case Some(t) => Some(Parsed(Str(t.value), t.rest))
    else if s[0] == 0x2D then
      match ParseNat(s[1..]) case None => None case Some(n) => Some(Parsed(Int(-n.value), n.rest))
    else if s[0] == 0x5B then
      if |s| > 1 && s[1] == 0x5D then Some(Parsed(Arr([]), s[2..]))
      else match ParseItems(s[1..]) case None => None case Some(l) => Some(Parsed(Arr(l.value), l.rest))
    else if s[0] == 0x7B then
      if |s| > 1 && s[1] == 0x7D then Some(Parsed(Obj([]), s[2..]))
      else match ParseMembers(s[1..]) case None => None case Some(l) => Some(Parsed(Obj(l.value), l.rest))
    else match ParseNat(s) case None => None case Some(n) => Some(Parsed(Int(n.value), n.rest))
  }

  /** One or more list items and the closing bracket. */
  function ParseItems(s: Text): (r: Option<Parsed<seq<Json>>>)
    ensures r.Some? ==> |r.value.rest| < |s|
    decreases |s|, 1
  {
    match ParseValue(s)
    case None => None
    case Some(v) =>
      if v.rest == [] then None
      else if v.rest[0] == 0x5D then Some(Parsed([v.value], v.rest[1..]))
      else if v.rest[0] != COMMA then None
      else match ParseItems(v.rest[1..])
        case None => None
        case Some(l) => Some(Parsed([v.value] + l.value, l.rest))
  }

  function ParseMember(s: Text): (r: Option<Parsed<Keyed<Json>>>)
    ensures r.Some? ==> |r.value.rest| < |s|
    decreases |s|, 1
  {
    if s == [] || s[0] != QUOTE then None
    else match ParseChars(s[1..])
      case None => None
      case Some(k) =>
        if k.rest == [] || k.rest[0] != COLON then None
        else match ParseValue(k.rest[1..])
          case None => None
          case Some(v) => Some(Parsed(Keyed(k.value, v.value), v.rest))
  }

  /** One or more members and the closing brace. */
  function ParseMembers(s: Text): (r: Option<Parsed<seq<Keyed<Json>>>>)
    ensures r.Some? ==> |r.value.rest| < |s|
    decreases |s|, 2
  {
    match ParseMember(s)
    case None => None
    case Some(e) =>
      if e.rest == [] then None
      else if e.rest[0] == 0x7D then Some(Parsed([e.value], e.rest[1..]))
      else if e.rest[0] != COMMA then None
      else match ParseMembers(e.rest[1..])
        case None => None
        case Some(l) => Some(Parsed([e.value] + l.value, l.rest))
  }

  /** A whole document. */
  function Parse(s: Text): Option<Json> {
    match ParseValue(s)
    case Some(p) => if p.rest == [] then Some(p.value) else None
    case None => None
  }

  // ------------------------------------------------------------- round trip

  lemma HexDigit(d: int)
    requires 0 <= d < 16
    ensures HexValue(Hex(d)) == Some(d)
  {
  }

  lemma FourDigits(c: int)
    requires 0 <= c
    ensures c == 4096 * (c / 4096) + 256 * (c / 256 % 16) + 16 * (c / 16 % 16) + c % 16
  {
    var q := c / 16;
    assert c / 256 == q / 16;
    assert c / 4096 == q / 256;
  }

  lemma HexRoundTrip(c: CodePoint)
    requires c < 0x1_0000
    ensures ParseHex(UnicodeEscape(c)[2..6]) == Some(c)
  {
    HexDigit(c / 4096);
    HexDigit(c / 256 % 16);
    HexDigit(c / 16 % 16);
    HexDigit(c % 16);
    hide Hex, HexValue;
    FourDigits(c);
    var d := UnicodeEscape(c)[2..6];
    assert d == [Hex(c / 4096), Hex(c / 256 % 16), Hex(c / 16 % 16), Hex(c % 16)];
  }

  lemma ParseEscapedChar(c: CodePoint, rest: Text)
    ensures EscapeChar(c) != [] && (EscapeChar(c) + rest)[0] != QUOTE
    ensures ParseChar(EscapeChar(c) + rest) == Some(Parsed(c, rest))
  {
    var e := EscapeChar(c);
    var s := e + rest;
    if |e| == 6 {
      hide ParseHex, Hex;
      assert s[2..6] == e[2..6] && s[6..] == rest;
      HexRoundTrip(c);
    } else if |e| == 2 {
      assert s[2..] == rest;
    } else {
      assert s[1..] == rest;
    }
  }

  lemma {:induction false} ParseEscaped(t: Text, rest: Text)
    ensures ParseChars(Escape(t) + [QUOTE] + rest) == Some(Parsed(t, rest))
  {
    var s := Escape(t) + [QUOTE] + rest;
    if t != [] {
      var tail := Escape(t[1..]) + [QUOTE] + rest;
      assert s == EscapeChar(t[0]) + tail;
      ParseEscapedChar(t[0], tail);
      ParseEscaped(t[1..], rest);
      assert t == [t[0]] + t[1..];
    }
  }

  lemma {:induction false} DigitsRoundTrip(n: nat, rest: Text)
    requires rest == [] || !IsDigit(rest[0])
    ensures |Digits(n)| > 0 && DigitRun(Digits(n) + rest) == |Digits(n)|
    ensures DigitsValue(Digits(n)) == n
    ensures IsDigit(Digits(n)[0])
  {
    DigitsAreDigits(n);
    RunOfDigits(Digits(n), rest);
    DigitsHaveValue(n);
  }

  lemma {:induction false} DigitsAreDigits(n: nat)
    ensures |Digits(n)| > 0 && forall i :: 0 <= i < |Digits(n)| ==> IsDigit(Digits(n)[i])
  {
    if n >= 10 { DigitsAreDigits(n / 10); }
  }

  lemma {:induction false} RunOfDigits(ds: Text, rest: Text)
    requires forall i :: 0 <= i < |ds| ==> IsDigit(ds[i])
    requires rest == [] || !IsDigit(rest[0])
    ensures DigitRun(ds + rest) == |ds|
  {
    if ds == [] {
      assert ds + rest == rest;
    } else {
      RunOfDigits(ds[1..], rest);
      assert (ds + rest)[1..] == ds[1..] + rest;
    }
  }

  lemma {:induction false} DigitsHaveValue(n: nat)
    ensures DigitsValue(Digits(n)) == n
  {
    if n >= 10 {
      DigitsHaveValue(n / 10);
      assert Digits(n)[..|Digits(n)| - 1] == Digits(n / 10);
    } else {
      assert DigitsValue(Digits(n)) == 10 * DigitsValue([]) + n;
    }
  }

  /** What may follow a value: nothing that could extend a number. */
  predicate Delimited(rest: Text) {
    rest == [] || !IsDigit(rest[0])
  }

  lemma {:induction false} ParseDecimal(n: int, rest: Text)
    requires Delimited(rest)
    ensures ParseValue(Decimal(n) + rest) == Some(Parsed(Int(n), rest))
  {
    hide ParseNat, Digits, ParseChars, ParseItems, ParseMembers;
    var m: nat := if n < 0 then -n else n;
    ParseDigits(m, rest);
    if n < 0 { assert (Decimal(n) + rest)[1..] == Digits(m) + rest; }
  }

  lemma {:induction false} ParseDigits(m: nat, rest: Text)
    requires Delimited(rest)
    ensures Digits(m) != [] && IsDigit(Digits(m)[0]) && ParseNat(Digits(m) + rest) == Some(Parsed(m, rest))
  {
    hide DigitRun, DigitsValue, Digits;
    DigitsRoundTrip(m, rest);
    var (ds, s) := (Digits(m), Digits(m) + rest);
    assert s[..|ds|] == ds && s[|ds|..] == rest;
  }

  lemma ParseWord(word: Text, v: Json, rest: Text)
    requires word != []
    ensures ParseLiteral(word + rest, word, v) == Some(Parsed(v, rest))
  {
    assert (word + rest)[..|word|] == word && (word + rest)[|word|..] == rest;
  }

  lemma ParseQuoted(t: Text, rest: Text)
    ensures var s := JsonString(t) + rest;
            s[0] == QUOTE && ParseChars(s[1..]) == Some(Parsed(t, rest))
  {
    hide ParseChars, Escape;
    ParseEscaped(t, rest);
    assert (JsonString(t) + rest)[1..] == Escape(t) + [QUOTE] + rest;
  }

  lemma BracketsRoundTrip(open: CodePoint, close: CodePoint, rest: Text)
    ensures var s := [open] + Join([]) + [close] + rest;
            |s| > 1 && s[0] == open && s[1] == close && s[2..] == rest
  {
  }

  /** Reading what was emitted gives the value back and leaves the rest. */
  lemma {:induction false} EmitRoundTrip(v: Json, rest: Text)
    requires Delimited(rest)
    ensures Emit(v) != [] && ParseValue(Emit(v) + rest) == Some(Parsed(v, rest))
    ensures Emit(v)[0] != 0x5D
    decreases v, 1
  {
    match v
    case Null => ParseWord(A("null"), v, rest);
    case Bool(b) => ParseWord(if b then A("true") else A("false"), v, rest);
    case Int(n) =>
      DigitsAreDigits(if n < 0 then -n else n);
      ParseDecimal(n, rest);
    case Str(t) => ParseQuoted(t, rest);
    case Arr(items) => ArrayRoundTrip(items, rest);
    case Obj(entries) => ObjectRoundTrip(entries, rest);
  }

  lemma {:induction false} ArrayRoundTrip(items: seq<Json>, rest: Text)
    requires Delimited(rest)
    ensures ParseValue(Emit(Arr(items)) + rest) == Some(Parsed(Arr(items), rest))
    decreases Arr(items), 0
  {
    hide ParseChars, ParseNat, ParseItems, ParseMembers;
    var s := Emit(Arr(items)) + rest;
    if items == [] {
      BracketsRoundTrip(0x5B, 0x5D, rest);
    } else {
      assert s[1..] == Join(EmitItems(items)) + [0x5D] + rest;
      ItemsRoundTrip(items, rest);
    }
  }

  lemma {:induction false} ObjectRoundTrip(entries: seq<Keyed<Json>>, rest: Text)
    requires Delimited(rest)
    ensures ParseValue(Emit(Obj(entries)) + rest) == Some(Parsed(Obj(entries), rest))
    decreases Obj(entries), 0
  {
    hide ParseChars, ParseNat, ParseItems, ParseMembers;
    var s := Emit(Obj(entries)) + rest;
    if entries == [] {
      BracketsRoundTrip(0x7B, 0x7D, rest);
    } else {
      assert s[1..] == Join(EmitEntries(entries)) + [0x7D] + rest;
      MembersRoundTrip(entries, rest);
    }
  }

  lemma {:induction false} ItemsRoundTrip(items: seq<Json>, rest: Text)
    requires items != []
    ensures ParseItems(Join(EmitItems(items)) + [0x5D] + rest) == Some(Parsed(items, rest))
    ensures (Join(EmitItems(items)) + [0x5D] + rest)[0] != 0x5D
    decreases items
  {
    hide ParseValue, Emit;
    var s := Join(EmitItems(items)) + [0x5D] + rest;
    var first := Emit(items[0]);
    if |items| == 1 {
      assert EmitItems(items) == [first];
      EmitRoundTrip(items[0], [0x5D] + rest);
      assert s == first + ([0x5D] + rest);
      assert ([0x5D] + rest)[1..] == rest;
      assert items == [items[0]];
    } else {
      var tail := Join(EmitItems(items[1..])) + [0x5D] + rest;
      assert EmitItems(items)[1..] == EmitItems(items[1..]);
      assert |EmitItems(items[1..])| >= 1;
      assert s == first + ([COMMA] + tail);
      EmitRoundTrip(items[0], [COMMA] + tail);
      ItemsRoundTrip(items[1..], rest);
      assert ([COMMA] + tail)[1..] == tail;
      assert items == [items[0]] + items[1..];
    }
  }

  lemma {:induction false} MemberRoundTrip(e: Keyed<Json>, rest: Text)
    requires Delimited(rest)
    ensures ParseMember(EmitEntry(e) + rest) == Some(Parsed(e, rest))
    ensures EmitEntry(e)[0] == QUOTE
    decreases e
  {
    hide ParseChars, ParseValue, Emit, Escape;
    var tail := [COLON] + Emit(e.value) + rest;
    assert EmitEntry(e) + rest == JsonString(e.key) + tail;
    ParseQuoted(e.key, tail);
    assert tail[0] == COLON && tail[1..] == Emit(e.value) + rest;
    EmitRoundTrip(e.value, rest);
  }

  lemma {:induction false} MembersRoundTrip(entries: seq<Keyed<Json>>, rest: Text)
    requires entries != []
    ensures ParseMembers(Join(EmitEntries(entries)) + [0x7D] + rest) == Some(Parsed(entries, rest))
    ensures (Join(EmitEntries(entries)) + [0x7D] + rest)[0] == QUOTE
    decreases entries
  {
    hide ParseMember, EmitEntry;
    var s := Join(EmitEntries(entries)) + [0x7D] + rest;
    var first := EmitEntry(entries[0]);
    if |entries| == 1 {
      assert EmitEntries(entries) == [first];
      MemberRoundTrip(entries[0], [0x7D] + rest);
      assert s == first + ([0x7D] + rest);
      assert ([0x7D] + rest)[1..] == rest;
      assert entries == [entries[0]];
    } else {
      var tail := Join(EmitEntries(entries[1..])) + [0x7D] + rest;
      assert EmitEntries(entries)[1..] == EmitEntries(entries[1..]);
      assert |EmitEntries(entries[1..])| >= 1;
      assert s == first + ([COMMA] + tail);
      MemberRoundTrip(entries[0], [COMMA] + tail);
      MembersRoundTrip(entries[1..], rest);
      assert ([COMMA] + tail)[1..] == tail;
      assert entries == [entries[0]] + entries[1..];
    }
  }

  /** The reader undoes the serializer, up to the order of object keys. */
  lemma {:induction false} ParseUndoesCanonicalJson(v: Json)
    ensures Parse(Serialize(v)) == Some(Canon(v))
    ensures CanonicalJson(v).Some? ==> Parse(CanonicalJson(v).value) == Some(Canon(v))
  {
    SerializeIsEmitOfCanon(v);
    EmitRoundTrip(Canon(v), []);
    assert Emit(Canon(v)) + [] == Emit(Canon(v));
  }
}
