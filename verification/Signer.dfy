/** Building and signing one record, and what every record so built is: well formed,
    bound to its hash, signed, and small enough for every limit on its way. */
module Signer {
  import opened Json
  import opened JsonCanonical
  import opened Utf8
  import opened Models
  import opened ModelsLaws
  import opened ModelsSizes

  datatype Identity = Identity(nodeId: string, keyId: string, privateKey: seq<byte>, algorithm: string)

  datatype SignError = Invalid(reason: Reason) | EmptySignature

  function BuildAndSign(env: Env, who: Identity, event: Json, timestamp: string, sequence: int, previous: string)
    : Result<SignedEvent, SignError>
  {
    match BuildUnsigned(env, who.nodeId, sequence, timestamp, previous, event, who.keyId, who.algorithm)
    case Err(reason) => Err(Invalid(reason))
    case Ok(unsigned) =>
      var hashed := WithEventHash(env, unsigned);
      var raw := env.sign(who.privateKey, SigningPayload(hashed), who.algorithm);
      if raw == [] then Err(EmptySignature) else Ok(WithSignature(env, hashed, raw))
  }

  // A record of this node that any reader knowing its key must take for genuine.
  ghost predicate Genuine(env: Env, nodeId: string, keys: map<string, seq<byte>>, e: SignedEvent) {
    && WellFormed(env, e)
    && e.nodeId == nodeId
    && e.eventHash == ComputeEventHash(env, e)
    && e.keyId in keys
    && env.verify(env.publicOf(keys[e.keyId]), SigningPayload(e), e.signatureBytes, e.signatureAlgorithm)
    && |e.timestamp| == 27 && |e.signature| <= MAX_SIGNATURE_TEXT
  }

  // The hash leaves out both fields that signing fills in, the signature only its own.
  lemma PayloadsIgnoreSeals(env: Env, e: SignedEvent, raw: seq<byte>)
    ensures HashPayload(WithSignature(env, WithEventHash(env, e), raw)) == HashPayload(e)
    ensures SigningPayload(WithSignature(env, e, raw)) == SigningPayload(e)
  {
    hide CanonicalText;
    var sealed := WithSignature(env, WithEventHash(env, e), raw);
    assert HashFields(sealed) == HashFields(e);
    assert SigningFields(WithSignature(env, e, raw)) == SigningFields(e);
  }

  lemma SignedSize(env: Env, who: Identity, payload: seq<byte>)
    requires Laws(env) && who.algorithm in SIGNATURE_ALGORITHMS
    ensures var raw := env.sign(who.privateKey, payload, who.algorithm);
      raw != [] && 0 < |env.b64(raw)| <= MAX_SIGNATURE_TEXT && env.unb64(env.b64(raw)) == Some(raw)
  {
  }

  // Everything the signer builds is genuine, and sits where it was told to.
  lemma SignedIsGenuine(env: Env, who: Identity, keys: map<string, seq<byte>>, event: Json, timestamp: string,
                        sequence: int, previous: string)
    requires Laws(env) && NoDuplicates(event) && who.keyId in keys && keys[who.keyId] == who.privateKey
    requires BuildAndSign(env, who, event, timestamp, sequence, previous).Ok?
    ensures var e := BuildAndSign(env, who, event, timestamp, sequence, previous).value;
      && Genuine(env, who.nodeId, keys, e)
      && e.sequence == sequence && e.previousEventHash == previous && e.event == event
      && e.keyId == who.keyId && e.signatureAlgorithm == who.algorithm
      && Some(e.timestamp) == env.normalize(timestamp)
  {
    hide SigningPayload, HashPayload, ValidIdentifier, ValidateEvent, NoDuplicates;
    var unsigned := BuildUnsigned(env, who.nodeId, sequence, timestamp, previous, event, who.keyId, who.algorithm).value;
    var hashed := WithEventHash(env, unsigned);
    var raw := env.sign(who.privateKey, SigningPayload(hashed), who.algorithm);
    SignedSize(env, who, SigningPayload(hashed));
    PayloadsIgnoreSeals(env, unsigned, raw);
    PayloadsIgnoreSeals(env, hashed, raw);
  }

  // ---- when signing succeeds -----------------------------------------------------------------

  // The signer refuses nothing but what validation refuses.
  lemma SigningSucceeds(env: Env, who: Identity, event: Json, timestamp: string, sequence: int, previous: string)
    requires Laws(env)
    ensures BuildAndSign(env, who, event, timestamp, sequence, previous).Ok?
      <==> && who.algorithm in SIGNATURE_ALGORITHMS && env.normalize(timestamp).Some?
           && ValidIdentifier(who.nodeId) && ValidIdentifier(who.keyId)
           && ValidSequence(sequence) && ValidHash(previous) && ValidateEvent(event).Ok?
  {
    hide SigningPayload, ValidIdentifier, ValidHash, ValidateEvent, HashPayload;
    var built := BuildUnsigned(env, who.nodeId, sequence, timestamp, previous, event, who.keyId, who.algorithm);
    if built.Ok? {
      SignedSize(env, who, SigningPayload(WithEventHash(env, built.value)));
    }
  }

  // ---- what a reader computes of it ---------------------------------------------------

  // Fields that agree once sorted sort alike.
  lemma {:induction false} SortAlike(a: seq<Field>, b: seq<Field>)
    requires |a| == |b| && forall i :: 0 <= i < |a| ==> Normal(a[i]) == Normal(b[i])
    ensures SortedFields(a) == SortedFields(b)
  {
    if a != [] {
      assert Normal(a[0]) == Normal(b[0]);
      forall i | 0 <= i < |a[1..]| ensures Normal(a[1..][i]) == Normal(b[1..][i]) {
        assert Normal(a[i + 1]) == Normal(b[i + 1]);
      }
      SortAlike(a[1..], b[1..]);
    }
  }

  lemma OtherFields(e: SignedEvent, v: Json, i: nat)
    requires i < 11 && i != 5
    ensures EnvelopeFields(e.(event := v))[i] == EnvelopeFields(e)[i]
  {
  }

  lemma EventField(e: SignedEvent)
    ensures EnvelopeFields(e)[5] == Field("event", e.event)
  {
  }

  lemma FieldsReadBack(e: SignedEvent, i: nat)
    requires NoDuplicates(e.event) && i < 11
    ensures Normal(EnvelopeFields(Canonical(e))[i]) == Normal(EnvelopeFields(e)[i])
  {
    hide Sorted, NoDuplicates, EnvelopeFields;
    SortedIdempotent(e.event);
    if i == 5 {
      EventField(e);
      EventField(Canonical(e));
    } else {
      OtherFields(e, Sorted(e.event), i);
    }
  }

  // The record read back from a line has the payloads of the one written.
  lemma PayloadsReadBack(e: SignedEvent)
    requires NoDuplicates(e.event)
    ensures HashPayload(Canonical(e)) == HashPayload(e)
    ensures SigningPayload(Canonical(e)) == SigningPayload(e)
  {
    hide EnvelopeFields, NoDuplicates, Normal, SortedFields;
    forall i | 0 <= i < 11 ensures Normal(EnvelopeFields(Canonical(e))[i]) == Normal(EnvelopeFields(e)[i]) {
      FieldsReadBack(e, i);
    }
    SortAlike(HashFields(Canonical(e)), HashFields(e));
    SortAlike(SigningFields(Canonical(e)), SigningFields(e));
  }

  lemma GenuineLine(env: Env, nodeId: string, keys: map<string, seq<byte>>, e: SignedEvent)
    requires Genuine(env, nodeId, keys, e)
    ensures Bytes(Line(e)) <= MAX_LINE_BYTES
  {
    hide Line, Bytes;
    WellFormedIsSmall(env, e);
    LineBound(e);
  }
}
