/**
 Signed browser decisions and the nonces that make them single use:
 BrowserSafetyVerifier and sign_safety_decision in companion/browser_security.py.
 Each verify call takes its lock for the whole nonce step, so a run is a
 sequence of calls.
 */
module SafetyDecisions {
  import opened Outcomes
  import opened PyText
  import opened Canonical
  import opened CanonicalOrder
  import opened StoreTables
  import opened Bindings
  import opened JsonDocs

  /** The digest and timestamp functions of the environment, and hmac(key, text). */
  datatype Host = Host(env: Env, mac: (Text, Text) -> Text)

  datatype Decision = Decision(
    decision: Text, action: Text, policyFingerprint: Text, payloadFingerprint: Text,
    nonce: Text, decidedAt: Text, expiresAt: Text, signature: Text)

  datatype Refusal =
    | DecisionMismatch | PayloadMismatch | PayloadRejected | InvalidTimestamp | Stale | WindowTooWide
    | SignatureInvalid | NonceReplayed

  const SKEW: Instant := 5 * SECOND
  const WIDEST: Instant := 60 * SECOND

  /** model_dump(exclude={"signature"}). */
  function SignedDoc(d: Decision): Json {
    Doc(["version", "decision", "action", "policyFingerprint", "payloadFingerprint", "nonce", "decidedAt", "expiresAt"],
        [Int(1), Str(d.decision), Str(d.action), Str(d.policyFingerprint), Str(d.payloadFingerprint),
         Str(d.nonce), Str(d.decidedAt), Str(d.expiresAt)])
  }

  function Signature(h: Host, key: Text, d: Decision): Text {
    A("hmac-sha256:") + h.mac(key, Serialize(SignedDoc(d)))
  }

  /** The checks before the lock, in the order they are made; None is a pass. */
  function Refuses(h: Host, key: Text, action: Text, payload: Json, d: Decision, now: Instant): Option<Refusal> {
    if d.action != action || d.decision != A("allow") then Some(DecisionMismatch)
    else if !Safe(payload) then Some(PayloadRejected)
    else if d.payloadFingerprint != Digest(h.env, payload) then Some(PayloadMismatch)
    else match (h.env.instant(d.decidedAt), h.env.instant(d.expiresAt))
      case (Some(decided), Some(expires)) =>
        if decided > now + SKEW || expires <= now then Some(Stale)
        else if expires - decided > WIDEST then Some(WindowTooWide)
        else if d.signature != Signature(h, key, d) then Some(SignatureInvalid)
        else None
      case _ => Some(InvalidTimestamp)
  }

  /** _purge_nonces. */
  function Purged(seen: map<Text, Instant>, now: Instant): map<Text, Instant> {
    map n | n in seen && seen[n] > now :: seen[n]
  }

  datatype Outcome = Accepted | Refused(why: Refusal)

  function VerifyStep(h: Host, key: Text, seen: map<Text, Instant>, c: Call): (map<Text, Instant>, Outcome) {
    match Refuses(h, key, c.action, c.payload, c.decision, c.now)
    case Some(why) => (seen, Refused(why))
    case None =>
      var kept := Purged(seen, c.now);
      if c.decision.nonce in kept then (kept, Refused(NonceReplayed))
      else
        match h.env.instant(c.decision.expiresAt)
        case Some(expires) => (kept[c.decision.nonce := expires], Accepted)
        case None => (kept, Refused(InvalidTimestamp))
  }

  class BrowserSafetyVerifier {
    const host: Host
    const key: Text
    var seen: map<Text, Instant>

    constructor (host: Host, key: Text)
      ensures this.host == host && this.key == key && seen == map[]
    {
      this.host, this.key, seen := host, key, map[];
    }

    method PurgeNonces(now: Instant)
      modifies this
      ensures seen == Purged(old(seen), now)
    {
      var stale := set n | n in seen && seen[n] <= now;
      seen := seen - stale;
    }

    method Verify(action: Text, payload: Json, d: Decision, now: Instant) returns (r: Outcome)
      modifies this
      ensures (seen, r) == VerifyStep(host, key, old(seen), Call(action, payload, d, now))
    {
      if d.action != action || d.decision != A("allow") {
        return Refused(DecisionMismatch);
      }
      if !Safe(payload) {
        return Refused(PayloadRejected);
      }
      if d.payloadFingerprint != Digest(host.env, payload) {
        return Refused(PayloadMismatch);
      }
      var decided, expires := host.env.instant(d.decidedAt), host.env.instant(d.expiresAt);
      if decided.None? || expires.None? {
        return Refused(InvalidTimestamp);
      }
      if decided.value > now + SKEW || expires.value <= now {
        return Refused(Stale);
      }
      if expires.value - decided.value > WIDEST {
        return Refused(WindowTooWide);
      }
      if d.signature != Signature(host, key, d) {
        return Refused(SignatureInvalid);
      }
      PurgeNonces(now);
      if d.nonce in seen {
        return Refused(NonceReplayed);
      }
      seen := seen[d.nonce := expires.value];
      return Accepted;
    }
  }

  // ------------------------------------------------------------------------ runs

  datatype Call = Call(action: Text, payload: Json, decision: Decision, now: Instant)

  /** trace[i] is what the verifier remembers before the i-th call. */
  ghost predicate Run(h: Host, key: Text, trace: seq<map<Text, Instant>>, calls: seq<Call>) {
    && |trace| == |calls| + 1 && trace[0] == map[]
    && forall i :: 0 <= i < |calls| ==> trace[i + 1] == VerifyStep(h, key, trace[i], calls[i]).0
  }

  ghost predicate Clocked(calls: seq<Call>) {
    forall i, j :: 0 <= i <= j < |calls| ==> calls[i].now <= calls[j].now
  }

  ghost predicate AcceptedAt(h: Host, key: Text, trace: seq<map<Text, Instant>>, calls: seq<Call>, i: nat) {
    i < |calls| && i < |trace| && VerifyStep(h, key, trace[i], calls[i]).1 == Accepted
  }

  /** What an acceptance means for times and memory. */
  lemma AcceptedMeans(h: Host, key: Text, seen: map<Text, Instant>, c: Call)
    returns (decided: Instant, expires: Instant)
    requires VerifyStep(h, key, seen, c).1 == Accepted
    ensures h.env.instant(c.decision.decidedAt) == Some(decided) && h.env.instant(c.decision.expiresAt) == Some(expires)
    ensures decided <= c.now + SKEW && c.now < expires <= decided + WIDEST
    ensures c.decision.signature == Signature(h, key, c.decision)
    ensures VerifyStep(h, key, seen, c).0 == Purged(seen, c.now)[c.decision.nonce := expires]
    ensures c.decision.nonce !in Purged(seen, c.now)
  {
    hide Signature, Digest, Safe;
    decided, expires := h.env.instant(c.decision.decidedAt).value, h.env.instant(c.decision.expiresAt).value;
  }

  /** What a signature is made over. */
  predicate HoldsDecision(d: Decision, v: Json) {
    && v.Obj? && |v.entries| == 8 && Get(v, "version") == Int(1)
    && Get(v, "decision") == Str(d.decision) && Get(v, "action") == Str(d.action)
    && Get(v, "policyFingerprint") == Str(d.policyFingerprint)
    && Get(v, "payloadFingerprint") == Str(d.payloadFingerprint)
    && Get(v, "nonce") == Str(d.nonce) && Get(v, "decidedAt") == Str(d.decidedAt)
    && Get(v, "expiresAt") == Str(d.expiresAt)
  }

  ghost predicate SignedBy(h: Host, key: Text, d: Decision) {
    exists v: Json ::
      HoldsDecision(d, v) && d.signature == A("hmac-sha256:") + h.mac(key, Serialize(v))
  }

  lemma SignedDocHolds(d: Decision)
    ensures HoldsDecision(d, SignedDoc(d))
  {
    var keys := ["version", "decision", "action", "policyFingerprint", "payloadFingerprint", "nonce", "decidedAt",
                 "expiresAt"];
    var values := [Int(1), Str(d.decision), Str(d.action), Str(d.policyFingerprint), Str(d.payloadFingerprint),
                   Str(d.nonce), Str(d.decidedAt), Str(d.expiresAt)];
    KeysDistinct();
    hide Get, Doc, A;
    FieldsOfDoc(keys, values);
    DocIsObject(keys, values);
    var v := Doc(keys, values);
    assert SignedDoc(d) == v;
    assert Get(v, keys[0]) == values[0] && Get(v, keys[1]) == values[1] && Get(v, keys[2]) == values[2];
    assert Get(v, keys[3]) == values[3] && Get(v, keys[4]) == values[4] && Get(v, keys[5]) == values[5];
    assert Get(v, keys[6]) == values[6] && Get(v, keys[7]) == values[7];
  }

  /** A decision is accepted only for the action it names, only if it allows it, for the
      payload whose digest it carries, signed over all its fields, decided at most 5
      seconds ahead, not expired, for at most 60 seconds, and with a nonce that is not
      remembered. */
  lemma AcceptedOnlyWhen(h: Host, key: Text, seen: map<Text, Instant>, c: Call)
    requires VerifyStep(h, key, seen, c).1 == Accepted
    ensures c.decision.action == c.action && c.decision.decision == A("allow")
    ensures Safe(c.payload) && c.decision.payloadFingerprint == A("sha256:") + h.env.sha256(Serialize(c.payload))
    ensures SignedBy(h, key, c.decision)
    ensures h.env.instant(c.decision.decidedAt).Some? && h.env.instant(c.decision.expiresAt).Some?
    ensures var (decided, expires) :=
        (h.env.instant(c.decision.decidedAt).value, h.env.instant(c.decision.expiresAt).value);
      && decided <= c.now + 5_000_000 && c.now < expires <= decided + 60_000_000
      && !(c.decision.nonce in seen && seen[c.decision.nonce] > c.now)
  {
    SignedDocHolds(c.decision);
    hide HoldsDecision, SignedDoc, Serialize, Safe;
  }

  /** A step forgets only what has expired. */
  lemma StepForgets(h: Host, key: Text, seen: map<Text, Instant>, c: Call)
    ensures var (after, r) := VerifyStep(h, key, seen, c);
      && (forall n :: n in seen && seen[n] > c.now ==> n in after && after[n] == seen[n])
      && (r != Accepted ==> forall n :: n in after ==> n in seen && after[n] == seen[n])
  {
    hide Refuses;
  }

  /** An accepted decision is remembered until it has expired. */
  lemma {:induction false} RememberedUntilExpiry(h: Host, key: Text, trace: seq<map<Text, Instant>>, calls: seq<Call>,
                                                 i: nat, k: nat)
    requires Run(h, key, trace, calls) && Clocked(calls) && i < k <= |calls| && AcceptedAt(h, key, trace, calls, i)
    ensures var (d, last) := (calls[i].decision, calls[k - 1].now);
      h.env.instant(d.expiresAt).Some?
      && (h.env.instant(d.expiresAt).value <= last
          || (d.nonce in trace[k] && trace[k][d.nonce] == h.env.instant(d.expiresAt).value))
  {
    hide VerifyStep;
    if k == i + 1 {
      var decided, expires := AcceptedMeans(h, key, trace[i], calls[i]);
    } else {
      RememberedUntilExpiry(h, key, trace, calls, i, k - 1);
      StepForgets(h, key, trace[k - 1], calls[k - 1]);
      assert calls[k - 2].now <= calls[k - 1].now;
    }
  }

  /** A nonce is accepted again only after the first decision with it has expired. */
  lemma NonceReuseOnlyAfterExpiry(h: Host, key: Text, trace: seq<map<Text, Instant>>, calls: seq<Call>, i: nat, j: nat)
    requires Run(h, key, trace, calls) && Clocked(calls) && i < j < |calls|
    requires AcceptedAt(h, key, trace, calls, i) && AcceptedAt(h, key, trace, calls, j)
    requires calls[i].decision.nonce == calls[j].decision.nonce
    ensures h.env.instant(calls[i].decision.expiresAt).Some?
    ensures h.env.instant(calls[i].decision.expiresAt).value <= calls[j].now
  {
    hide VerifyStep;
    RememberedUntilExpiry(h, key, trace, calls, i, j);
    var decided, expires := AcceptedMeans(h, key, trace[j], calls[j]);
    assert calls[j - 1].now <= calls[j].now;
  }

  /** No signed decision is ever accepted twice, although expired nonces are
      forgotten. */
  lemma NeverAcceptedTwice(h: Host, key: Text, trace: seq<map<Text, Instant>>, calls: seq<Call>, i: nat, j: nat)
    requires Run(h, key, trace, calls) && Clocked(calls) && i < j < |calls|
    requires AcceptedAt(h, key, trace, calls, i) && AcceptedAt(h, key, trace, calls, j)
    ensures calls[i].decision != calls[j].decision
    ensures calls[i].decision.(signature := []) != calls[j].decision.(signature := [])
  {
    hide VerifyStep, Run;
    var decided, expires := AcceptedMeans(h, key, trace[j], calls[j]);
    if calls[i].decision.nonce == calls[j].decision.nonce {
      NonceReuseOnlyAfterExpiry(h, key, trace, calls, i, j);
      assert calls[i].decision.expiresAt != calls[j].decision.expiresAt;
    }
  }

  /** Which acceptance put a remembered nonce there. */
  ghost predicate Source(h: Host, key: Text, trace: seq<map<Text, Instant>>, calls: seq<Call>, k: nat, n: Text,
                         e: Instant, i: nat) {
    i < k && AcceptedAt(h, key, trace, calls, i) && calls[i].decision.nonce == n
      && h.env.instant(calls[i].decision.expiresAt) == Some(e)
  }

  lemma {:induction false} RememberedHasSource(h: Host, key: Text, trace: seq<map<Text, Instant>>, calls: seq<Call>,
                                               k: nat, n: Text)
    returns (i: nat)
    requires Run(h, key, trace, calls) && k <= |calls| && n in trace[k]
    ensures Source(h, key, trace, calls, k, n, trace[k][n], i)
  {
    hide VerifyStep;
    assert k > 0;
    StepForgets(h, key, trace[k - 1], calls[k - 1]);
    if AcceptedAt(h, key, trace, calls, k - 1) {
      var decided, expires := AcceptedMeans(h, key, trace[k - 1], calls[k - 1]);
      if calls[k - 1].decision.nonce == n {
        return k - 1;
      }
    }
    i := RememberedHasSource(h, key, trace, calls, k - 1, n);
  }

  /** After each accepted call, every remembered nonce was accepted less than 65
      seconds ago. */
  lemma RememberedIsRecent(h: Host, key: Text, trace: seq<map<Text, Instant>>, calls: seq<Call>, k: nat, n: Text)
    returns (i: nat)
    requires Run(h, key, trace, calls) && AcceptedAt(h, key, trace, calls, k) && n in trace[k + 1]
    ensures i <= k && AcceptedAt(h, key, trace, calls, i) && calls[i].decision.nonce == n
    ensures calls[k].now - (SKEW + WIDEST) < calls[i].now
  {
    hide VerifyStep;
    i := RememberedHasSource(h, key, trace, calls, k + 1, n);
    var decided, expires := AcceptedMeans(h, key, trace[k], calls[k]);
    var decided', expires' := AcceptedMeans(h, key, trace[i], calls[i]);
    assert trace[k + 1][n] > calls[k].now;
  }

  // --------------------------------------------------------------------- signing

  /** sign_safety_decision; None when the payload has no canonical text. */
  function Sign(h: Host, key: Text, action: Text, payload: Json, policy: Text, nonce: Text, decided: Instant,
                expires: Instant): Option<Decision> {
    if !Safe(payload) then None
    else
      var d := Decision(A("allow"), action, policy, Digest(h.env, payload), nonce, h.env.iso(decided),
                        h.env.iso(expires), []);
      Some(d.(signature := Signature(h, key, d)))
  }

  lemma SignatureIgnoresItself(h: Host, key: Text, d: Decision, s: Text)
    ensures Signature(h, key, d.(signature := s)) == Signature(h, key, d)
  {
  }

  /** A signed decision is accepted exactly when it is not stale, its window is at
      most 60 seconds, and its nonce is not remembered. */
  lemma {:induction false} SignedAccepted(h: Host, key: Text, seen: map<Text, Instant>, action: Text, payload: Json,
                                          policy: Text, nonce: Text, decided: Instant, expires: Instant, now: Instant)
    requires Safe(payload)
    requires h.env.instant(h.env.iso(decided)) == Some(decided) && h.env.instant(h.env.iso(expires)) == Some(expires)
    ensures var d := Sign(h, key, action, payload, policy, nonce, decided, expires).value;
      VerifyStep(h, key, seen, Call(action, payload, d, now)).1 == Accepted
      <==> decided <= now + SKEW && now < expires <= decided + WIDEST && !(nonce in seen && seen[nonce] > now)
  {
    hide Safe, Digest, Signature;
    var d := Sign(h, key, action, payload, policy, nonce, decided, expires).value;
    SignatureIgnoresItself(h, key, d, []);
  }

  /** With a collision-free digest, a decision is accepted only for the very payload
      it was signed for. */
  lemma {:induction false} AcceptedOnlyForItsPayload(h: Host, key: Text, seen: map<Text, Instant>, c: Call,
                                                     payload: Json)
    requires IdealHash(h.env) && Safe(payload) && c.decision.payloadFingerprint == Digest(h.env, payload)
    requires VerifyStep(h, key, seen, c).1 == Accepted
    ensures Same(c.payload, payload)
  {
    hide Serialize, Digest, Signature, IdealHash, Same;
    EqualDigests(h.env, c.payload, payload);
  }

  /** With a collision-free authenticator, whoever presents a signature that was made
      for a decision presents that decision. */
  lemma SignatureBinds(h: Host, key: Text, d: Decision, signed: Decision)
    requires forall s, t :: h.mac(key, s) == h.mac(key, t) ==> s == t
    requires d.signature == signed.signature
    requires d.signature == Signature(h, key, d) && signed.signature == Signature(h, key, signed)
    ensures d == signed
  {
    hide Serialize, Same, Doc;
    var p := A("hmac-sha256:");
    var (x, y) := (h.mac(key, Serialize(SignedDoc(d))), h.mac(key, Serialize(SignedDoc(signed))));
    assert x == (p + x)[|p|..] == (p + y)[|p|..] == y;
    CanonicalJsonInjective(SignedDoc(d), SignedDoc(signed));
    var keys := ["version", "decision", "action", "policyFingerprint", "payloadFingerprint", "nonce", "decidedAt",
                 "expiresAt"];
    var vs := [Int(1), Str(d.decision), Str(d.action), Str(d.policyFingerprint), Str(d.payloadFingerprint),
               Str(d.nonce), Str(d.decidedAt), Str(d.expiresAt)];
    var ws := [Int(1), Str(signed.decision), Str(signed.action), Str(signed.policyFingerprint),
               Str(signed.payloadFingerprint),
               Str(signed.nonce), Str(signed.decidedAt), Str(signed.expiresAt)];
    assert SignedDoc(d) == Doc(keys, vs) && SignedDoc(signed) == Doc(keys, ws);
    KeysDistinct();
    SameFields(keys, vs, ws);
    forall i | 1 <= i < 8 ensures vs[i] == ws[i] { SameText(vs[i].s, ws[i]); }
    assert vs[1] == ws[1] && vs[2] == ws[2] && vs[3] == ws[3] && vs[4] == ws[4];
    assert vs[5] == ws[5] && vs[6] == ws[6] && vs[7] == ws[7];
  }

  lemma {:induction false} SameText(s: Text, v: Json)
    requires Same(Str(s), v)
    ensures v == Str(s)
  {
  }

  lemma KeysDistinct()
    ensures Distinct(["version", "decision", "action", "policyFingerprint", "payloadFingerprint", "nonce", "decidedAt",
                      "expiresAt"])
  {
    assert "decision"[2] != "decidedAt"[4];
    assert |"decision"| != |"decidedAt"| && "policyFingerprint"[1] != "payloadFingerprint"[1];
  }
}
