/**
 What a fingerprint binds: with a collision-free digest, two documents of one
 shape with one fingerprint agree field by field.  Nothing is assumed about the
 canonical text itself; that part is proved in CanonicalOrder.
 */
module Bindings {
  import opened PyText
  import opened Canonical
  import opened CanonicalOrder
  import opened StoreTables
  import opened Ledger
  import opened ScanQueue

  lemma LiteralInjective(s: string, t: string)
    requires A(s) == A(t)
    ensures s == t
  {
    forall i | 0 <= i < |s| ensures s[i] == t[i] {
      assert A(s)[i] == A(t)[i];
    }
  }

  ghost predicate Distinct(keys: seq<string>) {
    forall i, j :: 0 <= i < j < |keys| ==> keys[i] != keys[j]
  }

  lemma {:induction false} EqualDigests(env: Env, v: Json, w: Json)
    requires IdealHash(env) && Safe(v) && Safe(w) && Digest(env, v) == Digest(env, w)
    ensures Same(v, w)
  {
    var (p, x, y) := (A("sha256:"), env.sha256(Serialize(v)), env.sha256(Serialize(w)));
    assert x == (p + x)[|p|..] == (p + y)[|p|..] == y;
    CanonicalJsonInjective(v, w);
  }

  lemma SameFields(keys: seq<string>, vs: seq<Json>, ws: seq<Json>)
    requires |keys| == |vs| == |ws| && Distinct(keys) && Same(Doc(keys, vs), Doc(keys, ws))
    ensures forall i :: 0 <= i < |keys| ==> Same(vs[i], ws[i])
  {
    var (es, fs) := (Doc(keys, vs).entries, Doc(keys, ws).entries);
    forall i | 0 <= i < |keys| ensures Same(vs[i], ws[i]) {
      assert HasMember(es[i], fs);
      var j :| 0 <= j < |fs| && es[i].key == fs[j].key && Same(es[i].value, fs[j].value);
      LiteralInjective(keys[i], keys[j]);
      assert i == j;
    }
  }

  /** The fields of a document are determined by its fingerprint. */
  lemma FieldsBound(env: Env, keys: seq<string>, vs: seq<Json>, ws: seq<Json>)
    requires |keys| == |vs| == |ws| && Distinct(keys) && IdealHash(env)
    requires Safe(Doc(keys, vs)) && Safe(Doc(keys, ws))
    requires Digest(env, Doc(keys, vs)) == Digest(env, Doc(keys, ws))
    ensures forall i :: 0 <= i < |keys| ==> Same(vs[i], ws[i])
  {
    hide Serialize, Digest, Same;
    EqualDigests(env, Doc(keys, vs), Doc(keys, ws));
    SameFields(keys, vs, ws);
  }

  /** A receipt's fingerprint determines its payload. */
  lemma {:induction false} ReceiptFingerprintBinds(env: Env, r: Request, provider: Domain, operation: Text,
                                                   status: ReceiptStatus, p: Json, p': Json)
    requires IdealHash(env)
    requires Fingerprint(env, ReceiptDoc(r, provider, operation, status, p)).Some?
    requires Fingerprint(env, ReceiptDoc(r, provider, operation, status, p))
      == Fingerprint(env, ReceiptDoc(r, provider, operation, status, p'))
    ensures Same(p, p')
  {
    hide Serialize, Digest, JobDoc, DomainName, StatusName, IdealHash, Safe, Same, Doc;
    var keys := ["version", "job", "provider", "operation", "status", "payload"];
    assert "version"[0] != "payload"[0];
    var vs := [Int(1), JobDoc(r), Str(A(DomainName(provider))), Str(operation), Str(A(StatusName(status))), p];
    var ws := [Int(1), JobDoc(r), Str(A(DomainName(provider))), Str(operation), Str(A(StatusName(status))), p'];
    assert ReceiptDoc(r, provider, operation, status, p) == Doc(keys, vs);
    assert ReceiptDoc(r, provider, operation, status, p') == Doc(keys, ws);
    FieldsBound(env, keys, vs, ws);
    assert Same(vs[5], ws[5]);
  }

  /** A job's request fingerprint determines everything but the job id. */
  lemma RequestFingerprintBinds(env: Env, r: Request, q: Request)
    requires IdealHash(env)
    requires Fingerprint(env, RequestDoc(r)).Some? && Fingerprint(env, RequestDoc(r)) == Fingerprint(env, RequestDoc(q))
    ensures r.missionId == q.missionId && r.nodeId == q.nodeId && r.idempotencyKey == q.idempotencyKey
    ensures Same(r.payload, q.payload) && r.envelope == q.envelope
    ensures r.executionHost == q.executionHost
  {
    hide Serialize, Digest, DomainName, IdealHash, Safe, Doc;
    var keys := ["missionId", "nodeId", "executionHost", "payload", "capabilityEnvelope", "idempotencyKey"];
    var (vs, ws) := (RequestFields(r), RequestFields(q));
    assert RequestDoc(r) == Doc(keys, vs) && RequestDoc(q) == Doc(keys, ws);
    FieldsBound(env, keys, vs, ws);
    assert Same(vs[0], ws[0]) && Same(vs[1], ws[1]) && Same(vs[2], ws[2]);
    assert Same(vs[3], ws[3]) && Same(vs[4], ws[4]) && Same(vs[5], ws[5]);
    LiteralInjective(DomainName(r.executionHost), DomainName(q.executionHost));
    DomainNamed(r.executionHost, q.executionHost);
    EnvelopeBinds(r.envelope, q.envelope);
  }

  /** Different domains have different names. */
  lemma DomainNamed(d: Domain, e: Domain)
    requires DomainName(d) == DomainName(e)
    ensures d == e
  {
    assert |DomainName(d)| == |DomainName(e)| && DomainName(d)[0] == DomainName(e)[0];
  }

  function RequestFields(r: Request): seq<Json> {
    [Str(r.missionId), Str(r.nodeId), Str(A(DomainName(r.executionHost))), r.payload,
     EnvelopeDoc(r.envelope), Str(r.idempotencyKey)]
  }

  function EnvelopeDoc(e: Envelope): Json {
    Doc(["fingerprint", "authorizationFingerprint"], [Str(e.fingerprint), Str(e.authorizationFingerprint)])
  }

  lemma EnvelopeBinds(e: Envelope, f: Envelope)
    requires Same(EnvelopeDoc(e), EnvelopeDoc(f))
    ensures e == f
  {
    var (es, fs) := (EnvelopeDoc(e).entries, EnvelopeDoc(f).entries);
    assert |"fingerprint"| == |es[0].key| == |fs[0].key| && |"authorizationFingerprint"| == |es[1].key| == |fs[1].key|;
    assert HasMember(es[0], fs) && HasMember(es[1], fs);
    assert Same(es[0].value, fs[0].value) && Same(es[1].value, fs[1].value);
  }

  /** The key of a readback job determines the candidate it reads back. */
  lemma ReadbackKeyBinds(env: Env, c: Configuration, o: Observation, c': Configuration, o': Observation)
    requires IdealHash(env) && ReadbackKey(env, c, o) == ReadbackKey(env, c', o')
    ensures o.candidateFingerprint == o'.candidateFingerprint
    ensures c.configurationFingerprint == c'.configurationFingerprint
  {
    hide Serialize, Digest, IdealHash, Suffix32, Safe;
    IdentityBinds(env, c, o, c', o');
    CapabilityBinds(env, c, o, c', o');
  }

  lemma CapabilitySafe(c: Configuration, o: Observation)
    ensures Safe(CapabilityDoc(c, o))
  {
  }

  lemma IdentitySafe(env: Env, c: Configuration, o: Observation)
    ensures Safe(IdentityDoc(env, c, o))
  {
  }

  lemma IdentityBinds(env: Env, c: Configuration, o: Observation, c': Configuration, o': Observation)
    requires IdealHash(env) && ReadbackKey(env, c, o) == ReadbackKey(env, c', o')
    ensures Safe(CapabilityDoc(c, o)) && Safe(CapabilityDoc(c', o'))
    ensures Digest(env, CapabilityDoc(c, o)) == Digest(env, CapabilityDoc(c', o'))
  {
    hide Serialize, Digest, IdealHash, MissionId, NodeId, CapabilityDoc, Doc, Safe;
    CapabilitySafe(c, o);
    CapabilitySafe(c', o');
    IdentitySafe(env, c, o);
    IdentitySafe(env, c', o');
    var keys := ["version", "missionId", "nodeId", "graphRevision", "capabilityEnvelopeFingerprint",
                 "authorizationFingerprint"];
    var vs := IdentityFields(env, c, o);
    var ws := IdentityFields(env, c', o');
    assert IdentityDoc(env, c, o) == Doc(keys, vs) && IdentityDoc(env, c', o') == Doc(keys, ws);
    FieldsBound(env, keys, vs, ws);
    assert Same(vs[4], ws[4]);
  }

  function IdentityFields(env: Env, c: Configuration, o: Observation): seq<Json>
    requires Safe(CapabilityDoc(c, o))
  {
    [Int(1), Str(MissionId(c)), Str(NodeId(o)), Int(0), Str(Digest(env, CapabilityDoc(c, o))),
     Str(c.authorityFingerprint)]
  }

  lemma CapabilityBinds(env: Env, c: Configuration, o: Observation, c': Configuration, o': Observation)
    requires IdealHash(env)
    requires Safe(CapabilityDoc(c, o)) && Safe(CapabilityDoc(c', o'))
    requires Digest(env, CapabilityDoc(c, o)) == Digest(env, CapabilityDoc(c', o'))
    ensures o.candidateFingerprint == o'.candidateFingerprint
    ensures c.configurationFingerprint == c'.configurationFingerprint
  {
    hide Serialize, Digest, IdealHash, Doc, Safe;
    var keys := ["version", "kind", "configurationFingerprint", "queueBindingFingerprint", "candidateFingerprint",
                 "authorityFingerprint"];
    assert "candidateFingerprint"[0] != "authorityFingerprint"[0];
    var vs := [Int(1), Str(A("linear_queue_candidate_readback")), Str(c.configurationFingerprint),
               Str(c.queueBindingFingerprint), Str(o.candidateFingerprint), Str(c.authorityFingerprint)];
    var ws := [Int(1), Str(A("linear_queue_candidate_readback")), Str(c'.configurationFingerprint),
               Str(c'.queueBindingFingerprint), Str(o'.candidateFingerprint), Str(c'.authorityFingerprint)];
    FieldsBound(env, keys, vs, ws);
    assert Same(vs[2], ws[2]) && Same(vs[4], ws[4]);
  }
}
