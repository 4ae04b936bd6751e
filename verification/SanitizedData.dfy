/**
 The filters through which events, receipts and completion outputs pass before
 they are stored: companion/persisted_data.py.  An event or a receipt is stored
 as it was sent or not at all; a completion output can lose fields.
 */
module SanitizedData {
  import opened Outcomes
  import opened PyText
  import opened Canonical
  import opened StoreTables

  /** str.lower, and the regular expressions on text. */
  datatype Filters = Filters(
    lower: Text -> Text,
    pathLike: Text -> bool, commandLike: Text -> bool, secretText: Text -> bool,
    opaqueReference: Text -> bool, webUrl: Text -> bool)

  datatype Mode = Mode(paths: bool, commands: bool, keys: bool)

  const STRICT := Mode(true, true, true)
  const PROSE := Mode(false, true, true)

  const SECRET_MARKERS := ["token", "password", "secret", "apikey", "authorization", "bearer", "cookie",
                           "privatekey", "clientsecret", "credential"]
  const SECRET_REFERENCE_KEYS := ["secretref", "credentialref"]
  const COMMAND_KEYS := ["args", "argv", "cmd", "command", "commands", "executable", "script", "shell",
                         "workingdirectory"]
  const VAULT_MARKERS := ["vault", "obsidian", "notepath", "notecontent", ".obsidian"]

  // ------------------------------------------------------------------------ keys

  predicate LowerAlnum(c: CodePoint) { 0x61 <= c <= 0x7A || 0x30 <= c <= 0x39 }

  function OnlyLowerAlnum(t: Text): Text {
    if t == [] then [] else (if LowerAlnum(t[0]) then [t[0]] else []) + OnlyLowerAlnum(t[1..])
  }

  function NormalizeKey(f: Filters, key: Text): Text {
    OnlyLowerAlnum(f.lower(key))
  }

  predicate Named(key: Text, names: seq<string>) {
    exists i :: 0 <= i < |names| && key == A(names[i])
  }

  predicate OccursAt(t: Text, i: int, marker: Text) {
    0 <= i <= |t| - |marker| && t[i..i + |marker|] == marker
  }

  predicate Occurs(t: Text, marker: Text) {
    exists i :: 0 <= i <= |t| && OccursAt(t, i, marker)
  }

  predicate Marked(key: Text, markers: seq<string>) {
    exists i :: 0 <= i < |markers| && Occurs(key, A(markers[i]))
  }

  // ---------------------------------------------------------------- _json_value

  predicate TextAllowed(f: Filters, m: Mode, s: Text) {
    !(m.paths && f.pathLike(s)) && !(m.commands && f.commandLike(s)) && !(m.keys && f.secretText(s))
  }

  predicate FieldAllowed(f: Filters, m: Mode, key: Text, nested: Json) {
    && 0 < |key| <= 128
    && var k := NormalizeKey(f, key);
    && (if m.keys && Named(k, SECRET_REFERENCE_KEYS) then nested.Str? && f.opaqueReference(nested.s)
        else !(m.keys && Marked(k, SECRET_MARKERS)))
    && !(m.commands && Named(k, COMMAND_KEYS))
    && !Marked(k, VAULT_MARKERS)
  }

  /** Every text, list and field of the value, at any depth, is allowed. */
  predicate Acceptable(f: Filters, m: Mode, v: Json)
    decreases v
  {
    match v
    case Str(s) => TextAllowed(f, m, s)
    case Arr(items) => |items| <= 500 && forall i :: 0 <= i < |items| ==> Acceptable(f, m, items[i])
    case Obj(entries) =>
      |entries| <= 200
      && forall i :: 0 <= i < |entries| ==>
           FieldAllowed(f, m, entries[i].key, entries[i].value) && Acceptable(f, m, entries[i].value)
    case _ => true
  }

  /** The value itself, or a refusal. */
  function Filtered(f: Filters, m: Mode, v: Json): Option<Json> {
    if Acceptable(f, m, v) then Some(v) else None
  }

  method JsonValue(f: Filters, m: Mode, v: Json) returns (r: Option<Json>)
    ensures r == Filtered(f, m, v)
    decreases v
  {
    match v
    case Null => return Some(v);
    case Bool(_) => return Some(v);
    case Int(_) => return Some(v);
    case Str(s) =>
      return if TextAllowed(f, m, s) then Some(v) else None;
    case Arr(items) =>
      if |items| > 500 { return None; }
      var result := [];
      for i := 0 to |items|
        invariant result == items[..i] && forall k :: 0 <= k < i ==> Acceptable(f, m, items[k])
      {
        var entry := JsonValue(f, m, items[i]);
        if entry.None? { return None; }
        result := result + [entry.value];
      }
      assert result == items;
      return Some(Arr(result));
    case Obj(entries) =>
      if |entries| > 200 { return None; }
      var result := [];
      for i := 0 to |entries|
        invariant result == entries[..i]
        invariant forall k :: 0 <= k < i ==>
          FieldAllowed(f, m, entries[k].key, entries[k].value) && Acceptable(f, m, entries[k].value)
      {
        var e := entries[i];
        if !FieldAllowed(f, m, e.key, e.value) { return None; }
        var nested := JsonValue(f, m, e.value);
        if nested.None? { return None; }
        result := result + [Keyed(e.key, nested.value)];
      }
      assert result == entries;
      return Some(Obj(result));
  }

  // ------------------------------------------------------------- closed payloads

  predicate KeysNamed(f: Filters, entries: seq<Keyed<Json>>, names: seq<string>) {
    forall i :: 0 <= i < |entries| ==> Named(NormalizeKey(f, entries[i].key), names)
  }

  function Closed(f: Filters, v: Json, names: seq<string>): Option<Json> {
    if v.Obj? && KeysNamed(f, v.entries, names) then Filtered(f, STRICT, v) else None
  }

  method ClosedPayload(f: Filters, v: Json, names: seq<string>) returns (r: Option<Json>)
    requires v.Obj?
    ensures r == Closed(f, v, names)
  {
    for i := 0 to |v.entries|
      invariant forall k :: 0 <= k < i ==> Named(NormalizeKey(f, v.entries[k].key), names)
    {
      if !Named(NormalizeKey(f, v.entries[i].key), names) { return None; }
    }
    r := JsonValue(f, STRICT, v);
  }

  function EventKeys(kind: string): Option<seq<string>> {
    if kind == "job_accepted" || kind == "job_queued" then Some(["executionhost"])
    else if kind == "job_leased" || kind == "lease_acquired" then Some(["coordinatorid", "leaseexpiresat"])
    else if kind == "lease_renewed" then Some(["leaseexpiresat"])
    else if kind == "job_started" then Some(["domain"])
    else if kind == "job_progress" then Some(["message", "observedsequence", "percent", "raweventtype", "step"])
    else if kind == "progress" then Some(["message", "observedsequence", "percent", "step"])
    else if kind == "receipt_committed" then Some(["fingerprint", "receiptid", "status"])
    else if kind == "job_waiting_obsidian" then Some(["reason"])
    else if kind == "job_verifying" then Some(["status", "verifierid"])
    else if kind == "external_receipt_recorded"
      then Some(["fingerprint", "operation", "provider", "receiptid", "status"])
    else if kind == "job_completed" then Some(["blockercode", "resultfingerprint", "status"])
    else if kind == "job_complete" then Some(["resultfingerprint"])
    else if kind == "job_blocked" || kind == "job_failed" then
      Some(["blockercode", "code", "message", "requiredaction", "resultfingerprint", "status"])
    else if kind == "job_cancelled" then Some(["reason", "resultfingerprint", "status"])
    else None
  }

  function ReceiptKeys(d: Domain): seq<string> {
    match d
    case Research => ["acceptedartifactfingerprint", "artifactfingerprint", "evidencefingerprint", "sourcecount",
                      "sourceurls"]
    case Code => ["artifacthashes", "attemptid", "checkpointsequence", "commitsha", "diffhash", "failurefingerprint",
                  "handofffingerprint", "repaircheckpointid", "repairrequestfingerprint",
                  "repositoryprofilefingerprint",
                  "sandboxcapabilityfingerprint", "validationhash", "verifiedcommitreceiptfingerprint",
                  "workspacebindingfingerprint"]
    case Linear => ["attemptid", "candidatefingerprint", "handofffingerprint", "identifier", "issueid", "issueurl",
                    "observedstateid", "observedupdatedat", "preconditionfingerprint", "preparedactionfingerprint",
                    "readbackfingerprint", "reconciliationmode", "state", "targetstateid", "updatedat",
                    "workitemfingerprint"]
    case GitHub => ["actionfingerprint", "attemptid", "basesha", "checksnapshotfingerprint", "headsha", "mergesha",
                    "packagefingerprint", "prnumber", "prurl", "resultfingerprint"]
    case Companion => ["resultfingerprint"]
  }

  function SanitizedEvent(f: Filters, kind: string, v: Json): Option<Json> {
    match EventKeys(kind) case None => None case Some(names) => Closed(f, v, names)
  }

  function SanitizedReceipt(f: Filters, d: Domain, v: Json): Option<Json> {
    Closed(f, v, ReceiptKeys(d))
  }

  /** What is stored of an event or a receipt is exactly what was sent. */
  lemma StoredAsSent(f: Filters, kind: string, d: Domain, v: Json)
    ensures SanitizedEvent(f, kind, v).Some? ==> SanitizedEvent(f, kind, v).value == v
    ensures SanitizedReceipt(f, d, v).Some? ==> SanitizedReceipt(f, d, v).value == v
  {
    hide Acceptable, KeysNamed;
  }

  // ----------------------------------------------------------- completion outputs

  const TOP := ["status", "outputs", "evidence", "receiptIds", "blocker", "resultFingerprint"]
  const TOP_NORMALIZED := ["blocker", "evidence", "outputs", "receiptids", "resultfingerprint", "status"]

  function OutputKeys(d: Domain): seq<string> {
    match d
    case Research => ["answer", "artifactfingerprint", "evidencefingerprint", "sourcecount", "summary"]
    case Code => ["artifacthashes", "commitsha", "diffhash", "repairrequestid", "summary", "validationhash",
                  "verifiedcommitreceiptfingerprint", "workspaceid"]
    case Linear => ["candidatefingerprint", "issue", "issueid", "issueurl", "readbackfingerprint", "state", "summary",
                    "workitemfingerprint"]
    case GitHub => ["basesha", "checksnapshotfingerprint", "headsha", "mergesha", "prnumber", "prurl", "summary"]
    case Companion => []
  }

  function EvidenceKinds(d: Domain): seq<string> {
    match d
    case Research => ["public_web_source", "research_artifact"]
    case Code => ["code_validation", "code_artifact"]
    case Linear => ["linear_issue_readback", "linear_readback"]
    case GitHub => ["github_readback"]
    case Companion => []
  }

  predicate IsOneOf(v: Json, names: seq<string>) {
    v.Str? && Named(v.s, names)
  }

  /** FINGERPRINT_PATTERN, fully matched. */
  predicate IsFingerprint(v: Json) {
    && v.Str? && |v.s| == 71 && v.s[..7] == A("sha256:")
    && forall i :: 7 <= i < 71 ==> 0x30 <= v.s[i] <= 0x39 || 0x61 <= v.s[i] <= 0x66
  }

  predicate Alnum(c: CodePoint) { 0x30 <= c <= 0x39 || 0x41 <= c <= 0x5A || 0x61 <= c <= 0x7A }

  /** STABLE_ID_PATTERN, fully matched. */
  predicate IsStableId(v: Json) {
    && v.Str? && 0 < |v.s| <= 256 && Alnum(v.s[0])
    && forall i :: 0 < i < |v.s| ==> Alnum(v.s[i]) || v.s[i] in [0x2E, 0x5F, 0x3A, 0x2D]
  }

  /** What one field of outputs must meet; prose fields may hold paths. */
  predicate OutputAllowed(f: Filters, d: Domain, e: Keyed<Json>) {
    var k := NormalizeKey(f, e.key);
    && !Named(k, SECRET_REFERENCE_KEYS) && !Marked(k, SECRET_MARKERS) && Named(k, OutputKeys(d))
    && Acceptable(f, if Named(k, ["answer", "summary"]) then PROSE else STRICT, e.value)
  }

  predicate OutputsAllowed(f: Filters, d: Domain, v: Json) {
    v.Obj? && forall i :: 0 <= i < |v.entries| ==> OutputAllowed(f, d, v.entries[i])
  }

  predicate EvidenceAllowed(f: Filters, d: Domain, v: Json) {
    && v.Obj?
    && (forall i :: 0 <= i < |v.entries| ==>
          Named(v.entries[i].key, ["kind", "url", "id", "issueId", "fingerprint", "readbackFingerprint", "status"]))
    && IsOneOf(Get(v, "kind"), EvidenceKinds(d))
    && (match Find(v.entries, A("fingerprint"))
        case Some(x) => IsFingerprint(x)
        case None => IsFingerprint(Get(v, "readbackFingerprint")))
    && (match Find(v.entries, A("url")) case Some(x) => x.Str? && f.webUrl(x.s) case None => true)
    && (match Find(v.entries, A("id")) case Some(x) => IsStableId(x) case None => true)
    && Acceptable(f, PROSE, v)
  }

  /** What the named top field must meet. */
  predicate TopAllowed(f: Filters, d: Domain, name: string, v: Json) {
    if name == "status" then IsOneOf(v, ["complete", "blocked", "cancelled", "failed"])
    else if name == "outputs" then OutputsAllowed(f, d, v)
    else if name == "evidence" then
      v.Arr? && |v.items| <= 100 && forall i :: 0 <= i < |v.items| ==> EvidenceAllowed(f, d, v.items[i])
    else if name == "receiptIds" then
      v.Arr? && |v.items| <= 100 && forall i :: 0 <= i < |v.items| ==> IsStableId(v.items[i])
    else if name == "blocker" then
      v.Null? || Closed(f, v, ["code", "message", "requiredaction"]).Some?
    else IsFingerprint(v)
  }

  predicate OutputAccepted(f: Filters, d: Domain, entries: seq<Keyed<Json>>) {
    && KeysNamed(f, entries, TOP_NORMALIZED)
    && forall i :: 0 <= i < |TOP| ==>
         match Find(entries, A(TOP[i])) case Some(x) => TopAllowed(f, d, TOP[i], x) case None => true
  }

  /** The fields with the first n exact names, in their order. */
  function Selected(entries: seq<Keyed<Json>>, n: nat): (r: seq<Keyed<Json>>)
    requires n <= |TOP|
    ensures forall i :: 0 <= i < |r| ==> exists k :: 0 <= k < n && r[i].key == A(TOP[k])
  {
    if n == 0 then []
    else
      Selected(entries, n - 1)
      + (match Find(entries, A(TOP[n - 1])) case Some(x) => [Keyed(A(TOP[n - 1]), x)] case None => [])
  }

  function SanitizedOutput(f: Filters, d: Domain, v: Json): Option<Json> {
    if v.Obj? && OutputAccepted(f, d, v.entries) then Some(Obj(Selected(v.entries, |TOP|))) else None
  }

  method SanitizeOutputs(f: Filters, d: Domain, v: Json) returns (r: Option<Json>)
    ensures r == if OutputsAllowed(f, d, v) then Some(v) else None
  {
    if !v.Obj? { return None; }
    var result := [];
    for i := 0 to |v.entries|
      invariant result == v.entries[..i] && forall k :: 0 <= k < i ==> OutputAllowed(f, d, v.entries[k])
    {
      var e := v.entries[i];
      var k := NormalizeKey(f, e.key);
      if Named(k, SECRET_REFERENCE_KEYS) || Marked(k, SECRET_MARKERS) || !Named(k, OutputKeys(d)) { return None; }
      var nested := JsonValue(f, if Named(k, ["answer", "summary"]) then PROSE else STRICT, e.value);
      if nested.None? { return None; }
      result := result + [Keyed(e.key, nested.value)];
    }
    assert result == v.entries;
    return Some(Obj(result));
  }

  method SanitizeTop(f: Filters, d: Domain, name: string, v: Json) returns (r: Option<Json>)
    ensures r == if TopAllowed(f, d, name, v) then Some(v) else None
  {
    if name == "outputs" {
      r := SanitizeOutputs(f, d, v);
    } else if name == "blocker" && v.Obj? {
      r := ClosedPayload(f, v, ["code", "message", "requiredaction"]);
    } else {
      return if TopAllowed(f, d, name, v) then Some(v) else None;
    }
  }

  /** sanitize_completion_output, one exact name after another. */
  method SanitizeCompletionOutput(f: Filters, d: Domain, v: Json) returns (r: Option<Json>)
    requires v.Obj?
    ensures r == SanitizedOutput(f, d, v)
  {
    hide TopAllowed, NormalizeKey, Named;
    for i := 0 to |v.entries|
      invariant forall k :: 0 <= k < i ==> Named(NormalizeKey(f, v.entries[k].key), TOP_NORMALIZED)
    {
      if !Named(NormalizeKey(f, v.entries[i].key), TOP_NORMALIZED) { return None; }
    }
    var result := [];
    for n := 0 to |TOP|
      invariant result == Selected(v.entries, n)
      invariant forall i :: 0 <= i < n ==>
        match Find(v.entries, A(TOP[i])) case Some(x) => TopAllowed(f, d, TOP[i], x) case None => true
    {
      var field := Find(v.entries, A(TOP[n]));
      if field.Some? {
        var clean := SanitizeTop(f, d, TOP[n], field.value);
        if clean.None? { return None; }
        result := result + [Keyed(A(TOP[n]), clean.value)];
      }
    }
    return Some(Obj(result));
  }

  // --------------------------------------------- what a completion output can lose

  lemma {:induction false} FindJoin(a: seq<Keyed<Json>>, b: seq<Keyed<Json>>, k: Text)
    ensures Find(a + b, k) == if Find(a, k).Some? then Find(a, k) else Find(b, k)
  {
    if a == [] {
      assert a + b == b;
    } else {
      FindJoin(a[1..], b, k);
      assert (a + b)[1..] == a[1..] + b;
    }
  }

  lemma {:induction false} FindAbsent(es: seq<Keyed<Json>>, k: Text)
    requires forall i :: 0 <= i < |es| ==> es[i].key != k
    ensures Find(es, k) == None
  {
    if es != [] { FindAbsent(es[1..], k); }
  }

  /** Each exact name keeps its value; nothing else is kept. */
  lemma {:induction false} SelectedKeeps(entries: seq<Keyed<Json>>, n: nat, k: Text)
    requires n <= |TOP|
    ensures Find(Selected(entries, n), k) == if exists i :: 0 <= i < n && k == A(TOP[i]) then Find(entries, k) else None
  {
    if n > 0 {
      SelectedKeeps(entries, n - 1, k);
      var name := A(TOP[n - 1]);
      var last := match Find(entries, name) case Some(x) => [Keyed(name, x)] case None => [];
      FindJoin(Selected(entries, n - 1), last, k);
      if k != name { FindAbsent(last, k); }
    }
  }

  lemma {:induction false} OutputKeepsExactNames(f: Filters, d: Domain, v: Json, k: Text)
    requires SanitizedOutput(f, d, v).Some?
    ensures v.Obj? && Find(SanitizedOutput(f, d, v).value.entries, k) == if Named(k, TOP) then Find(v.entries, k)
      else None
  {
    SelectedKeeps(v.entries, |TOP|, k);
  }

  predicate ExactlyNamed(entries: seq<Keyed<Json>>) {
    forall i :: 0 <= i < |entries| ==> Named(entries[i].key, TOP)
  }

  lemma {:induction false} FindPresent(es: seq<Keyed<Json>>, i: nat)
    requires i < |es|
    ensures Find(es, es[i].key).Some?
  {
    if es[0].key != es[i].key { FindPresent(es[1..], i - 1); }
  }

  lemma {:induction false} FoundIsEntry(es: seq<Keyed<Json>>, k: Text) returns (i: nat)
    requires Find(es, k).Some?
    ensures i < |es| && es[i] == Keyed(k, Find(es, k).value)
  {
    if es[0].key == k {
      i := 0;
    } else {
      i := FoundIsEntry(es[1..], k);
      i := i + 1;
    }
  }

  /** An accepted output loses no field exactly when every field has one of the six
      exact names; a name that only normalizes to one of them passes the check and is
      then dropped. */
  lemma NothingLostExactlyWhen(f: Filters, d: Domain, v: Json)
    requires SanitizedOutput(f, d, v).Some?
    ensures v.Obj?
    ensures ((forall k :: Find(SanitizedOutput(f, d, v).value.entries, k) == Find(v.entries, k)) <==>
             ExactlyNamed(v.entries))
  {
    hide SanitizedOutput, TOP;
    OutputIsObject(f, d, v);
    var result := SanitizedOutput(f, d, v).value.entries;
    forall k ensures Find(result, k) == if Named(k, TOP) then Find(v.entries, k) else None {
      OutputKeepsExactNames(f, d, v, k);
    }
    if ExactlyNamed(v.entries) {
      forall k ensures Find(result, k) == Find(v.entries, k) {
        if Find(v.entries, k).Some? { var i := FoundIsEntry(v.entries, k); }
      }
    } else {
      var i :| 0 <= i < |v.entries| && !Named(v.entries[i].key, TOP);
      FindPresent(v.entries, i);
      assert Find(result, v.entries[i].key) != Find(v.entries, v.entries[i].key);
    }
  }

  lemma OutputIsObject(f: Filters, d: Domain, v: Json)
    requires SanitizedOutput(f, d, v).Some?
    ensures v.Obj? && SanitizedOutput(f, d, v).value == Obj(Selected(v.entries, |TOP|))
    ensures OutputAccepted(f, d, v.entries)
  {
  }

  lemma {:induction false} SelectedSame(a: seq<Keyed<Json>>, b: seq<Keyed<Json>>, n: nat)
    requires n <= |TOP| && forall i :: 0 <= i < n ==> Find(a, A(TOP[i])) == Find(b, A(TOP[i]))
    ensures Selected(a, n) == Selected(b, n)
  {
    if n > 0 { SelectedSame(a, b, n - 1); }
  }

  /** Sanitizing again changes nothing. */
  lemma OutputSanitizedOnce(f: Filters, d: Domain, v: Json)
    requires SanitizedOutput(f, d, v).Some?
    ensures SanitizedOutput(f, d, SanitizedOutput(f, d, v).value) == SanitizedOutput(f, d, v)
  {
    hide SanitizedOutput, TopAllowed, NormalizeKey, Named;
    OutputIsObject(f, d, v);
    var result := Selected(v.entries, |TOP|);
    forall i | 0 <= i < |TOP| ensures Find(result, A(TOP[i])) == Find(v.entries, A(TOP[i])) {
      SelectedKeeps(v.entries, |TOP|, A(TOP[i]));
    }
    forall i | 0 <= i < |result| ensures Named(NormalizeKey(f, result[i].key), TOP_NORMALIZED) {
      FindPresent(result, i);
      var k :| 0 <= k < |TOP| && result[i].key == A(TOP[k]);
      var j := FoundIsEntry(v.entries, A(TOP[k]));
    }
    SelectedSame(result, v.entries, |TOP|);
    AcceptedSelected(f, d, result);
  }

  lemma {:induction false} AcceptedSelected(f: Filters, d: Domain, entries: seq<Keyed<Json>>)
    requires OutputAccepted(f, d, entries)
    ensures SanitizedOutput(f, d, Obj(entries)) == Some(Obj(Selected(entries, |TOP|)))
  {
  }

  /** For example, a capital letter loses the status. */
  lemma CapitalLosesStatus(f: Filters, d: Domain)
    requires f.lower(A("Status")) == A("status")
    ensures SanitizedOutput(f, d, Obj([Keyed(A("Status"), Str(A("complete")))])) == Some(Obj([]))
  {
    var entries := [Keyed(A("Status"), Str(A("complete")))];
    LettersStay(A("status"));
    assert TOP_NORMALIZED[5] == "status";
    assert KeysNamed(f, entries, TOP_NORMALIZED);
    hide NormalizeKey, Named, TopAllowed, KeysNamed;
    forall i | 0 <= i < |TOP| ensures Find(entries, A(TOP[i])) == None {
      CapitalIsNotExact(i);
      FindAbsent(entries, A(TOP[i]));
    }
    NothingSelected(entries, |TOP|);
    AcceptedSelected(f, d, entries);
  }

  lemma CapitalIsNotExact(i: nat)
    requires i < |TOP|
    ensures A("Status") != A(TOP[i])
  {
    assert A("Status")[0] == 0x53;
    assert A(TOP[i])[0] == TOP[i][0] as int;
  }

  lemma {:induction false} LettersStay(t: Text)
    requires forall i :: 0 <= i < |t| ==> LowerAlnum(t[i])
    ensures OnlyLowerAlnum(t) == t
  {
    if t != [] { LettersStay(t[1..]); }
  }

  lemma {:induction false} NothingSelected(entries: seq<Keyed<Json>>, n: nat)
    requires n <= |TOP| && forall i :: 0 <= i < n ==> Find(entries, A(TOP[i])) == None
    ensures Selected(entries, n) == []
  {
    if n > 0 { NothingSelected(entries, n - 1); }
  }
}
