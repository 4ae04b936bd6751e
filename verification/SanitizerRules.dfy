/**
 What an accepted payload can hold: no field and no text, at any depth, that names a
 secret, a command, a vault or a path; and the rule of each field of a completion
 output.
 */
module SanitizerRules {
  import opened Outcomes
  import opened PyText
  import opened Canonical
  import opened StoreTables
  import opened SanitizedData

  // ------------------------------------------------------------------- any depth

  /** Somewhere in the value there is a field of that name with that value. */
  ghost predicate FieldInside(v: Json, key: Text, x: Json)
    decreases v
  {
    match v
    case Arr(items) => exists i :: 0 <= i < |items| && FieldInside(items[i], key, x)
    case Obj(es) =>
      exists i :: 0 <= i < |es| && ((es[i].key == key && es[i].value == x) || FieldInside(es[i].value, key, x))
    case _ => false
  }

  /** Somewhere in the value there is that text, other than as a name. */
  ghost predicate TextInside(v: Json, s: Text)
    decreases v
  {
    match v
    case Str(t) => t == s
    case Arr(items) => exists i :: 0 <= i < |items| && TextInside(items[i], s)
    case Obj(es) => exists i :: 0 <= i < |es| && TextInside(es[i].value, s)
    case _ => false
  }

  ghost predicate Contains(t: Text, word: string) {
    exists before: Text, rest: Text :: t == before + A(word) + rest
  }

  /** The name, lowered, and without anything but a to z and digits. */
  function Plain(f: Filters, key: Text): Text { LettersAndDigits(f.lower(key)) }

  function LettersAndDigits(t: Text): Text {
    if t == [] then []
    else
      var (front, c) := (t[..|t| - 1], t[|t| - 1]);
      LettersAndDigits(front) + (if 'a' as int <= c <= 'z' as int || '0' as int <= c <= '9' as int then [c] else [])
  }

  ghost predicate NamesSecret(k: Text) {
    || Contains(k, "token") || Contains(k, "password") || Contains(k, "secret") || Contains(k, "apikey")
    || Contains(k, "authorization") || Contains(k, "bearer") || Contains(k, "cookie") || Contains(k, "privatekey")
    || Contains(k, "clientsecret") || Contains(k, "credential")
  }

  ghost predicate NamesVault(k: Text) {
    || Contains(k, "vault") || Contains(k, "obsidian") || Contains(k, "notepath") || Contains(k, "notecontent")
    || Contains(k, ".obsidian")
  }

  predicate NamesCommand(k: Text) {
    || k == A("args") || k == A("argv") || k == A("cmd") || k == A("command") || k == A("commands")
    || k == A("executable") || k == A("script") || k == A("shell") || k == A("workingdirectory")
  }

  predicate NamesReference(k: Text) {
    k == A("secretref") || k == A("credentialref")
  }

  /** A field that may be stored: of 1 to 128 characters; no vault and no command; and no
      secret but an opaque reference under one of two names. */
  ghost predicate Harmless(f: Filters, key: Text, x: Json) {
    && 1 <= |key| <= 128
    && var k := Plain(f, key);
    && !NamesVault(k) && !NamesCommand(k)
    && if NamesReference(k) then x.Str? && f.opaqueReference(x.s) else !NamesSecret(k)
  }

  lemma {:induction false} OccursIs(t: Text, word: string)
    ensures Occurs(t, A(word)) <==> Contains(t, word)
  {
    hide A;
    if Occurs(t, A(word)) {
      var i :| 0 <= i <= |t| && OccursAt(t, i, A(word));
      assert t == t[..i] + A(word) + t[i + |A(word)|..];
    }
    if Contains(t, word) {
      var before: Text, rest: Text :| t == before + A(word) + rest;
      assert OccursAt(t, |before|, A(word));
    }
  }

  lemma {:induction false} KeptJoin(s: Text, t: Text)
    ensures OnlyLowerAlnum(s + t) == OnlyLowerAlnum(s) + OnlyLowerAlnum(t)
  {
    if s == [] {
      assert s + t == t;
    } else {
      assert (s + t)[1..] == s[1..] + t;
      KeptJoin(s[1..], t);
    }
  }

  lemma {:induction false} PlainIs(t: Text)
    ensures OnlyLowerAlnum(t) == LettersAndDigits(t)
  {
    if t != [] {
      var (front, c) := (t[..|t| - 1], t[|t| - 1]);
      assert t == front + [c] && [c][1..] == [];
      KeptJoin(front, [c]);
      PlainIs(front);
      assert OnlyLowerAlnum([c]) == (if LowerAlnum(c) then [c] else []) + [];
    }
  }

  lemma SecretIs(k: Text)
    ensures Marked(k, SECRET_MARKERS) <==> NamesSecret(k)
  {
    hide Occurs, Contains, A;
    var w := SECRET_MARKERS;
    OccursIs(k, w[0]); OccursIs(k, w[1]); OccursIs(k, w[2]); OccursIs(k, w[3]); OccursIs(k, w[4]);
    OccursIs(k, w[5]); OccursIs(k, w[6]); OccursIs(k, w[7]); OccursIs(k, w[8]); OccursIs(k, w[9]);
    assert |w| == 10;
  }

  lemma VaultIs(k: Text)
    ensures Marked(k, VAULT_MARKERS) <==> NamesVault(k)
  {
    hide Occurs, Contains, A;
    var w := VAULT_MARKERS;
    OccursIs(k, w[0]); OccursIs(k, w[1]); OccursIs(k, w[2]); OccursIs(k, w[3]); OccursIs(k, w[4]);
    assert |w| == 5;
  }

  lemma CommandIs(k: Text)
    ensures Named(k, COMMAND_KEYS) <==> NamesCommand(k)
    ensures Named(k, SECRET_REFERENCE_KEYS) <==> NamesReference(k)
  {
    hide A;
    var w := COMMAND_KEYS;
    assert |w| == 9 && w[0] == "args" && w[1] == "argv" && w[2] == "cmd" && w[3] == "command" && w[4] == "commands";
    assert w[5] == "executable" && w[6] == "script" && w[7] == "shell" && w[8] == "workingdirectory";
    var r := SECRET_REFERENCE_KEYS;
    assert |r| == 2 && r[0] == "secretref" && r[1] == "credentialref";
  }

  lemma FieldIs(f: Filters, m: Mode, key: Text, x: Json)
    requires m.commands && m.keys
    ensures FieldAllowed(f, m, key, x) <==> Harmless(f, key, x)
  {
    hide Named, Marked, NamesSecret, NamesVault, NamesCommand, NamesReference;
    var k := NormalizeKey(f, key);
    PlainIs(f.lower(key));
    SecretIs(k);
    VaultIs(k);
    CommandIs(k);
  }

  /** Whatever field an accepted value holds, at any depth, is harmless. */
  lemma {:induction false} AcceptedFields(f: Filters, m: Mode, v: Json, key: Text, x: Json)
    requires m.commands && m.keys && Acceptable(f, m, v) && FieldInside(v, key, x)
    ensures Harmless(f, key, x)
    decreases v
  {
    hide FieldAllowed, Harmless;
    match v
    case Arr(items) =>
      var i :| 0 <= i < |items| && FieldInside(items[i], key, x);
      AcceptedFields(f, m, items[i], key, x);
    case Obj(es) =>
      var i :| 0 <= i < |es| && ((es[i].key == key && es[i].value == x) || FieldInside(es[i].value, key, x));
      if es[i].key == key && es[i].value == x { FieldIs(f, m, key, x); }
      else { AcceptedFields(f, m, es[i].value, key, x); }
  }

  /** Whatever text an accepted value holds, at any depth, looks like no command and no
      secret, and like no path where paths are not allowed. */
  lemma {:induction false} AcceptedTexts(f: Filters, m: Mode, v: Json, s: Text)
    requires m.commands && m.keys && Acceptable(f, m, v) && TextInside(v, s)
    ensures !f.commandLike(s) && !f.secretText(s) && !(m.paths && f.pathLike(s))
    decreases v
  {
    hide FieldAllowed;
    match v
    case Str(_) =>
    case Arr(items) =>
      var i :| 0 <= i < |items| && TextInside(items[i], s);
      AcceptedTexts(f, m, items[i], s);
    case Obj(es) =>
      var i :| 0 <= i < |es| && TextInside(es[i].value, s);
      AcceptedTexts(f, m, es[i].value, s);
  }

  /** So it is with every event and every receipt that is stored. */
  lemma {:induction false} StoredIsHarmless(f: Filters, kind: string, d: Domain, v: Json, key: Text, x: Json, s: Text)
    requires SanitizedEvent(f, kind, v).Some? || SanitizedReceipt(f, d, v).Some?
    ensures FieldInside(v, key, x) ==> Harmless(f, key, x)
    ensures TextInside(v, s) ==> !f.commandLike(s) && !f.secretText(s) && !f.pathLike(s)
  {
    hide FieldInside, TextInside, Harmless, KeysNamed, EventKeys, ReceiptKeys;
    assert Acceptable(f, STRICT, v) by { hide Acceptable; }
    if FieldInside(v, key, x) { AcceptedFields(f, STRICT, v, key, x); }
    if TextInside(v, s) { AcceptedTexts(f, STRICT, v, s); }
  }

  // ------------------------------------------------------------ completion outputs

  /** A sha256 fingerprint: the prefix and 64 lower-case hexadecimal digits. */
  predicate FingerprintText(v: Json) {
    && v.Str? && |v.s| == 71 && A("sha256:") == v.s[..7]
    && forall c :: c in v.s[7..] ==> c in [0x30, 0x31, 0x32, 0x33, 0x34, 0x35, 0x36, 0x37, 0x38, 0x39,
                                           0x61, 0x62, 0x63, 0x64, 0x65, 0x66]
  }

  predicate LetterOrDigit(c: CodePoint) {
    'a' as int <= c <= 'z' as int || 'A' as int <= c <= 'Z' as int || '0' as int <= c <= '9' as int
  }

  /** A logical id: 1 to 256 letters, digits, dots, underscores, colons and hyphens, a
      letter or digit first. */
  predicate StableId(v: Json) {
    && v.Str? && 1 <= |v.s| <= 256 && LetterOrDigit(v.s[0])
    && forall c :: c in v.s ==>
         LetterOrDigit(c) || c == '.' as int || c == '_' as int || c == ':' as int || c == '-' as int
  }

  lemma PatternsAre(v: Json)
    ensures IsFingerprint(v) <==> FingerprintText(v)
    ensures IsStableId(v) <==> StableId(v)
  {
    FingerprintIs(v);
    StableIdIs(v);
    hide IsFingerprint, FingerprintText, IsStableId, StableId;
  }

  lemma StableIdIs(v: Json)
    ensures IsStableId(v) <==> StableId(v)
  {
    if StableId(v) {
      forall i | 0 < i < |v.s| ensures Alnum(v.s[i]) || v.s[i] in [0x2E, 0x5F, 0x3A, 0x2D] { assert v.s[i] in v.s; }
    }
  }

  lemma FingerprintIs(v: Json)
    ensures IsFingerprint(v) <==> FingerprintText(v)
  {
    if IsFingerprint(v) {
      forall c | c in v.s[7..] ensures 0x30 <= c <= 0x39 || 0x61 <= c <= 0x66 {
        var i :| 0 <= i < |v.s[7..]| && v.s[7..][i] == c;
        assert v.s[i + 7] == c;
      }
    }
    if FingerprintText(v) {
      forall i | 7 <= i < 71 ensures 0x30 <= v.s[i] <= 0x39 || 0x61 <= v.s[i] <= 0x66 {
        assert v.s[7..][i - 7] == v.s[i] && v.s[7..][i - 7] in v.s[7..];
      }
    }
  }

  predicate StatusRule(x: Option<Json>) {
    x.None? || x.value in [Str(A("complete")), Str(A("blocked")), Str(A("cancelled")), Str(A("failed"))]
  }

  ghost predicate OutputsRule(f: Filters, d: Domain, x: Option<Json>) {
    x.None? || (x.value.Obj? && forall i :: 0 <= i < |x.value.entries| ==> OutputRule(f, d, x.value.entries[i]))
  }

  /** A field of the outputs: of the domain, no secret, and paths only in prose. */
  ghost predicate OutputRule(f: Filters, d: Domain, e: Keyed<Json>) {
    var k := Plain(f, e.key);
    && !NamesReference(k) && !NamesSecret(k) && Named(k, OutputKeys(d))
    && Acceptable(f, Mode(k != A("answer") && k != A("summary"), true, true), e.value)
  }

  ghost predicate EvidenceRule(f: Filters, d: Domain, x: Option<Json>) {
    x.None? || (x.value.Arr? && |x.value.items| <= 100
      && forall i :: 0 <= i < |x.value.items| ==> OneEvidence(f, d, x.value.items[i]))
  }

  predicate EvidenceName(k: Text) {
    || k == A("kind") || k == A("url") || k == A("id") || k == A("issueId") || k == A("fingerprint")
    || k == A("readbackFingerprint") || k == A("status")
  }

  /** Evidence of the domain's kinds, with a fingerprint, and with a web address and a
      logical id where it has them. */
  ghost predicate OneEvidence(f: Filters, d: Domain, v: Json) {
    && v.Obj? && (forall i :: 0 <= i < |v.entries| ==> EvidenceName(v.entries[i].key))
    && (exists i :: 0 <= i < |EvidenceKinds(d)| && Get(v, "kind") == Str(A(EvidenceKinds(d)[i])))
    && FingerprintText(Get(v, if Find(v.entries, A("fingerprint")).Some? then "fingerprint" else "readbackFingerprint"))
    && (Find(v.entries, A("url")).Some? ==>
          Find(v.entries, A("url")).value.Str? && f.webUrl(Find(v.entries, A("url")).value.s))
    && (Find(v.entries, A("id")).Some? ==> StableId(Find(v.entries, A("id")).value))
    && Acceptable(f, Mode(false, true, true), v)
  }

  predicate IdsRule(x: Option<Json>) {
    x.None? || (x.value.Arr? && |x.value.items| <= 100
      && forall i :: 0 <= i < |x.value.items| ==> StableId(x.value.items[i]))
  }

  ghost predicate BlockerRule(f: Filters, x: Option<Json>) {
    x.None? || x.value.Null?
    || (x.value.Obj? && Acceptable(f, Mode(true, true, true), x.value)
        && forall i :: 0 <= i < |x.value.entries| ==>
             Plain(f, x.value.entries[i].key) in [A("code"), A("message"), A("requiredaction")])
  }

  predicate PrintRule(x: Option<Json>) {
    x.None? || FingerprintText(x.value)
  }

  predicate TopName(k: Text) {
    || k == A("blocker") || k == A("evidence") || k == A("outputs") || k == A("receiptids")
    || k == A("resultfingerprint") || k == A("status")
  }

  lemma OutputsAre(f: Filters, d: Domain, v: Json)
    ensures OutputsAllowed(f, d, v) <==> OutputsRule(f, d, Some(v))
  {
    hide Acceptable, Named, Marked, NamesSecret, NamesReference, OutputKeys;
    if v.Obj? {
      forall i | 0 <= i < |v.entries| ensures OutputAllowed(f, d, v.entries[i]) <==> OutputRule(f, d, v.entries[i]) {
        OutputIs(f, d, v.entries[i]);
      }
    }
  }

  lemma OutputIs(f: Filters, d: Domain, e: Keyed<Json>)
    ensures OutputAllowed(f, d, e) <==> OutputRule(f, d, e)
  {
    var k := NormalizeKey(f, e.key);
    PlainIs(f.lower(e.key));
    SecretIs(k);
    CommandIs(k);
    ProseIs(k);
    hide Acceptable, Named, Marked, NamesSecret, NamesReference, OutputKeys;
  }

  lemma ProseIs(k: Text)
    ensures Named(k, ["answer", "summary"]) <==> k == A("answer") || k == A("summary")
  {
    hide A;
    var w := ["answer", "summary"];
    assert w[0] == "answer" && w[1] == "summary";
  }

  lemma EvidenceNameIs(k: Text)
    ensures Named(k, ["kind", "url", "id", "issueId", "fingerprint", "readbackFingerprint", "status"]) <==>
      EvidenceName(k)
  {
    hide A;
    var w := ["kind", "url", "id", "issueId", "fingerprint", "readbackFingerprint", "status"];
    assert w[0] == "kind" && w[1] == "url" && w[2] == "id" && w[3] == "issueId" && w[4] == "fingerprint";
    assert w[5] == "readbackFingerprint" && w[6] == "status";
  }

  lemma EvidenceIs(f: Filters, d: Domain, v: Json)
    ensures EvidenceAllowed(f, d, v) <==> OneEvidence(f, d, v)
  {
    if v.Obj? {
      forall i | 0 <= i < |v.entries|
        ensures Named(v.entries[i].key,
                      ["kind", "url", "id", "issueId", "fingerprint", "readbackFingerprint", "status"])
          <==> EvidenceName(v.entries[i].key)
      {
        EvidenceNameIs(v.entries[i].key);
      }
      PatternsAre(Get(v, "fingerprint"));
      PatternsAre(Get(v, "readbackFingerprint"));
      if Find(v.entries, A("id")).Some? { PatternsAre(Find(v.entries, A("id")).value); }
      KindIs(Get(v, "kind"), EvidenceKinds(d));
      hide Acceptable, Named, EvidenceName, IsFingerprint, FingerprintText, IsStableId, StableId, EvidenceKinds,
           IsOneOf,
           A, Find;
    }
  }

  lemma KindIs(v: Json, names: seq<string>)
    ensures IsOneOf(v, names) <==> exists i :: 0 <= i < |names| && v == Str(A(names[i]))
  {
    hide A;
  }

  lemma StatusIs(v: Json)
    ensures IsOneOf(v, ["complete", "blocked", "cancelled", "failed"]) <==> StatusRule(Some(v))
  {
    hide A;
    var w := ["complete", "blocked", "cancelled", "failed"];
    assert w[0] == "complete" && w[1] == "blocked" && w[2] == "cancelled" && w[3] == "failed";
  }

  lemma BlockerIs(f: Filters, v: Json)
    ensures v.Null? || Closed(f, v, ["code", "message", "requiredaction"]).Some? <==> BlockerRule(f, Some(v))
  {
    hide Acceptable, Named;
    if v.Obj? {
      forall i | 0 <= i < |v.entries|
        ensures Named(NormalizeKey(f, v.entries[i].key), ["code", "message", "requiredaction"])
          <==> Plain(f, v.entries[i].key) in [A("code"), A("message"), A("requiredaction")]
      {
        PlainIs(f.lower(v.entries[i].key));
        BlockerNameIs(Plain(f, v.entries[i].key));
      }
    }
  }

  lemma BlockerNameIs(k: Text)
    ensures Named(k, ["code", "message", "requiredaction"]) <==> k in [A("code"), A("message"), A("requiredaction")]
  {
    hide A;
    var w := ["code", "message", "requiredaction"];
    var t := [A("code"), A("message"), A("requiredaction")];
    assert w[0] == "code" && w[1] == "message" && w[2] == "requiredaction";
    assert t[0] == A(w[0]) && t[1] == A(w[1]) && t[2] == A(w[2]);
  }

  lemma TopNameIs(k: Text)
    ensures Named(k, TOP_NORMALIZED) <==> TopName(k)
  {
    hide A;
    var w := TOP_NORMALIZED;
    assert |w| == 6 && w[0] == "blocker" && w[1] == "evidence" && w[2] == "outputs" && w[3] == "receiptids";
    assert w[4] == "resultfingerprint" && w[5] == "status";
  }

  /** The rule of one named field. */
  ghost predicate TopRule(f: Filters, d: Domain, name: string, v: Json) {
    if name == "status" then StatusRule(Some(v))
    else if name == "outputs" then OutputsRule(f, d, Some(v))
    else if name == "evidence" then EvidenceRule(f, d, Some(v))
    else if name == "receiptIds" then IdsRule(Some(v))
    else if name == "blocker" then BlockerRule(f, Some(v))
    else PrintRule(Some(v))
  }

  lemma TopIs(f: Filters, d: Domain, name: string, v: Json)
    ensures TopAllowed(f, d, name, v) <==> TopRule(f, d, name, v)
  {
    StatusIs(v);
    OutputsAre(f, d, v);
    BlockerIs(f, v);
    PatternsAre(v);
    if v.Arr? {
      forall i | 0 <= i < |v.items|
        ensures EvidenceAllowed(f, d, v.items[i]) <==> OneEvidence(f, d, v.items[i])
        ensures IsStableId(v.items[i]) <==> StableId(v.items[i])
      {
        EvidenceIs(f, d, v.items[i]);
        PatternsAre(v.items[i]);
      }
    }
    hide OutputsAllowed, OutputsRule, EvidenceAllowed, OneEvidence, IsStableId, StableId, Closed, BlockerRule, IsOneOf,
         StatusRule, IsFingerprint, FingerprintText;
  }

  /** A completion output is accepted exactly when its names are known, up to their
      normalization, and each field under an exact name meets that field's rule. */
  lemma OutputAcceptedExactlyWhen(f: Filters, d: Domain, v: Json)
    requires v.Obj?
    ensures SanitizedOutput(f, d, v).Some? <==>
      (forall i :: 0 <= i < |v.entries| ==> TopName(Plain(f, v.entries[i].key)))
      && StatusRule(Find(v.entries, A("status"))) && OutputsRule(f, d, Find(v.entries, A("outputs")))
      && EvidenceRule(f, d, Find(v.entries, A("evidence"))) && IdsRule(Find(v.entries, A("receiptIds")))
      && BlockerRule(f, Find(v.entries, A("blocker"))) && PrintRule(Find(v.entries, A("resultFingerprint")))
  {
    NamesFollow(f, v.entries);
    AcceptedPasses(f, d, v.entries);
    forall i: nat | i < |TOP| ensures TopPasses(f, d, v.entries, i) <==> TopFollows(f, d, v.entries, i) {
      PassesFollows(f, d, v.entries, i);
    }
    AllFollow(f, d, v.entries);
    hide OutputAccepted, TopPasses, TopFollows, KeysNamed, StatusRule, OutputsRule, EvidenceRule, IdsRule, BlockerRule,
         PrintRule, TopName, Plain, Find, A;
  }

  lemma NamesFollow(f: Filters, es: seq<Keyed<Json>>)
    ensures KeysNamed(f, es, TOP_NORMALIZED) <==> forall i :: 0 <= i < |es| ==> TopName(Plain(f, es[i].key))
  {
    hide Named, TopName;
    forall i | 0 <= i < |es|
      ensures Named(NormalizeKey(f, es[i].key), TOP_NORMALIZED) <==> TopName(Plain(f, es[i].key))
    {
      PlainIs(f.lower(es[i].key));
      TopNameIs(Plain(f, es[i].key));
    }
  }

  lemma AcceptedPasses(f: Filters, d: Domain, es: seq<Keyed<Json>>)
    ensures OutputAccepted(f, d, es) <==>
      KeysNamed(f, es, TOP_NORMALIZED) && forall i: nat :: i < |TOP| ==> TopPasses(f, d, es, i)
  {
    hide TopAllowed, KeysNamed, Find, A;
    if forall i: nat :: i < |TOP| ==> TopPasses(f, d, es, i) {
      forall i | 0 <= i < |TOP|
        ensures match Find(es, A(TOP[i])) case Some(x) => TopAllowed(f, d, TOP[i], x) case None => true
      {
        assert TopPasses(f, d, es, i);
      }
    }
  }

  lemma PassesFollows(f: Filters, d: Domain, es: seq<Keyed<Json>>, i: nat)
    requires i < |TOP|
    ensures TopPasses(f, d, es, i) <==> TopFollows(f, d, es, i)
  {
    hide TopAllowed, TopRule, Find, A;
    if Find(es, A(TOP[i])).Some? { TopIs(f, d, TOP[i], Find(es, A(TOP[i])).value); }
  }

  predicate TopPasses(f: Filters, d: Domain, es: seq<Keyed<Json>>, i: nat) {
    i < |TOP| && match Find(es, A(TOP[i])) case Some(x) => TopAllowed(f, d, TOP[i], x) case None => true
  }

  ghost predicate TopFollows(f: Filters, d: Domain, es: seq<Keyed<Json>>, i: nat) {
    i < |TOP| && (Find(es, A(TOP[i])).Some? ==> TopRule(f, d, TOP[i], Find(es, A(TOP[i])).value))
  }

  lemma {:induction false} AllFollow(f: Filters, d: Domain, es: seq<Keyed<Json>>)
    ensures (forall i: nat :: i < |TOP| ==> TopFollows(f, d, es, i)) <==>
      (StatusRule(Find(es, A("status"))) && OutputsRule(f, d, Find(es, A("outputs")))
       && EvidenceRule(f, d, Find(es, A("evidence"))) && IdsRule(Find(es, A("receiptIds")))
       && BlockerRule(f, Find(es, A("blocker"))) && PrintRule(Find(es, A("resultFingerprint"))))
  {
    var w := TOP;
    assert |w| == 6 && w[0] == "status" && w[1] == "outputs" && w[2] == "evidence" && w[3] == "receiptIds";
    assert w[4] == "blocker" && w[5] == "resultFingerprint";
    hide OutputRule, OneEvidence, StableId, FingerprintText, Acceptable, Find, A;
    assert (forall i: nat :: i < |TOP| ==> TopFollows(f, d, es, i)) <==>
      (TopFollows(f, d, es, 0) && TopFollows(f, d, es, 1) && TopFollows(f, d, es, 2) && TopFollows(f, d, es, 3)
       && TopFollows(f, d, es, 4) && TopFollows(f, d, es, 5));
  }
}
