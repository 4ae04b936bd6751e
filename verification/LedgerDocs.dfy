/**
 The documents whose digests are stored as fingerprints, field by field.
 */
module LedgerDocs {
  import opened PyText
  import opened Canonical
  import opened StoreTables
  import opened Ledger
  import opened Bindings
  import opened JsonDocs

  function HostText(d: Domain): Text {
    match d
    case Research => A("research") case Code => A("code") case Linear => A("linear")
    case GitHub => A("github") case Companion => A("companion")
  }

  lemma HostTextIs(d: Domain)
    ensures A(DomainName(d)) == HostText(d)
  {
  }

  /** A job as completions and receipts name it. */
  predicate NamesJob(r: Request, v: Json) {
    && v.Obj? && |v.entries| == 6
    && Get(v, "id") == Str(r.id) && Get(v, "missionId") == Str(r.missionId) && Get(v, "nodeId") == Str(r.nodeId)
    && Get(v, "idempotencyKey") == Str(r.idempotencyKey)
    && Get(v, "capabilityEnvelopeFingerprint") == Str(r.envelope.fingerprint)
    && Get(v, "authorizationFingerprint") == Str(r.envelope.authorizationFingerprint)
  }

  lemma JobDocNames(r: Request)
    ensures NamesJob(r, JobDoc(r))
  {
    var keys := ["id", "missionId", "nodeId", "idempotencyKey", "capabilityEnvelopeFingerprint",
                 "authorizationFingerprint"];
    var values := [Str(r.id), Str(r.missionId), Str(r.nodeId), Str(r.idempotencyKey),
                   Str(r.envelope.fingerprint), Str(r.envelope.authorizationFingerprint)];
    hide Get, Doc, A;
    FieldsOfDoc(keys, values);
    DocIsObject(keys, values);
    var v := Doc(keys, values);
    assert Get(v, keys[0]) == values[0] && Get(v, keys[1]) == values[1] && Get(v, keys[2]) == values[2];
    assert Get(v, keys[3]) == values[3] && Get(v, keys[4]) == values[4] && Get(v, keys[5]) == values[5];
  }

  /** What a request's fingerprint is taken over. */
  predicate HoldsRequest(r: Request, v: Json) {
    && v.Obj? && |v.entries| == 6
    && Get(v, "missionId") == Str(r.missionId) && Get(v, "nodeId") == Str(r.nodeId)
    && Get(v, "executionHost") == Str(HostText(r.executionHost)) && Get(v, "payload") == r.payload
    && Get(v, "idempotencyKey") == Str(r.idempotencyKey)
    && HoldsEnvelope(r.envelope, Get(v, "capabilityEnvelope"))
  }

  predicate HoldsEnvelope(e: Envelope, v: Json) {
    && v.Obj? && |v.entries| == 2 && Get(v, "fingerprint") == Str(e.fingerprint)
    && Get(v, "authorizationFingerprint") == Str(e.authorizationFingerprint)
  }

  lemma EnvelopeHolds(e: Envelope)
    ensures HoldsEnvelope(e, EnvelopeDoc(e))
  {
    var (keys, values) := (["fingerprint", "authorizationFingerprint"],
                           [Str(e.fingerprint), Str(e.authorizationFingerprint)]);
    hide Get, Doc, A;
    FieldsOfDoc(keys, values);
    DocIsObject(keys, values);
    assert Get(Doc(keys, values), keys[0]) == values[0] && Get(Doc(keys, values), keys[1]) == values[1];
  }

  lemma RequestDocHolds(r: Request)
    ensures HoldsRequest(r, RequestDoc(r))
  {
    var keys := ["missionId", "nodeId", "executionHost", "payload", "capabilityEnvelope", "idempotencyKey"];
    var values := RequestFields(r);
    HostTextIs(r.executionHost);
    EnvelopeHolds(r.envelope);
    assert RequestDoc(r) == Doc(keys, values);
    hide Get, Doc, A, DomainName, HostText, EnvelopeDoc, HoldsEnvelope, RequestDoc;
    FieldsOfDoc(keys, values);
    DocIsObject(keys, values);
    var v := Doc(keys, values);
    assert Get(v, keys[0]) == values[0] && Get(v, keys[1]) == values[1] && Get(v, keys[2]) == values[2];
    assert Get(v, keys[3]) == values[3] && Get(v, keys[4]) == values[4] && Get(v, keys[5]) == values[5];
  }

  /** What a completion's fingerprint is taken over. */
  predicate HoldsCompletion(r: Request, result: Json, v: Json) {
    && v.Obj? && |v.entries| == 3 && Get(v, "version") == Int(1) && NamesJob(r, Get(v, "job"))
    && Get(v, "result") == result
  }

  lemma CompletionDocHolds(r: Request, result: Json)
    ensures HoldsCompletion(r, result, CompletionDoc(r, result))
  {
    var (keys, values) := (["version", "job", "result"], [Int(1), JobDoc(r), result]);
    JobDocNames(r);
    hide Get, Doc, A, JobDoc, NamesJob;
    FieldsOfDoc(keys, values);
    DocIsObject(keys, values);
    var v := Doc(keys, values);
    assert Get(v, keys[0]) == values[0] && Get(v, keys[1]) == values[1] && Get(v, keys[2]) == values[2];
  }

  function StatusText(s: ReceiptStatus): Text {
    match s
    case Prepared => A("prepared") case Dispatched => A("dispatched") case Verified => A("verified")
    case Ambiguous => A("ambiguous") case NotDelivered => A("failed")
  }

  lemma StatusTextIs(s: ReceiptStatus)
    ensures A(StatusName(s)) == StatusText(s)
  {
  }

  /** What a receipt's fingerprint is taken over. */
  predicate HoldsReceipt(r: Request, provider: Domain, operation: Text, status: ReceiptStatus, payload: Json, v: Json) {
    && v.Obj? && |v.entries| == 6 && Get(v, "version") == Int(1) && NamesJob(r, Get(v, "job"))
    && Get(v, "provider") == Str(HostText(provider)) && Get(v, "operation") == Str(operation)
    && Get(v, "status") == Str(StatusText(status)) && Get(v, "payload") == payload
  }

  lemma ReceiptDocHolds(r: Request, provider: Domain, operation: Text, status: ReceiptStatus, payload: Json)
    ensures HoldsReceipt(r, provider, operation, status, payload, ReceiptDoc(r, provider, operation, status, payload))
  {
    var keys := ["version", "job", "provider", "operation", "status", "payload"];
    assert "version"[0] != "payload"[0];
    JobDocNames(r);
    HostTextIs(provider);
    StatusTextIs(status);
    hide Get, Doc, A, DomainName, StatusName, HostText, StatusText, JobDoc, NamesJob;
    var values := [Int(1), JobDoc(r), Str(A(DomainName(provider))), Str(operation), Str(A(StatusName(status))),
                   payload];
    FieldsOfDoc(keys, values);
    DocIsObject(keys, values);
    var v := Doc(keys, values);
    assert Get(v, keys[0]) == values[0] && Get(v, keys[1]) == values[1] && Get(v, keys[2]) == values[2];
    assert Get(v, keys[3]) == values[3] && Get(v, keys[4]) == values[4] && Get(v, keys[5]) == values[5];
  }
}
