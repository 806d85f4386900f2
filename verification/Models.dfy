/** The signed-event envelope: what it holds, what is hashed and signed, how it
    is written as one log line and how an untrusted line is validated back. */
module Models {
  import opened Json
  import opened JsonParser
  import opened Utf8

  datatype Result<+T, +E> = Ok(value: T) | Err(error: E)

  const MAX_EVENT_BYTES := 65_536
  const MAX_EVENT_DEPTH := 16
  const MAX_NODE_ID_LENGTH := 128
  const MAX_SEQUENCE := 0x7FFF_FFFF_FFFF_FFFF

  const FORMAT_VERSION := "1.0"
  const HASH_ALGORITHM := "SHA3-256"
  const SIGNATURE_ALGORITHMS := {"ML-DSA-44", "ML-DSA-65", "ML-DSA-87"}

  // The closed set of envelope fields, the two that hashing leaves out last.
  const ENVELOPE_FIELDS := [
    "format_version", "node_id", "sequence", "timestamp", "previous_event_hash", "event",
    "signature_algorithm", "hash_algorithm", "key_id", "event_hash", "signature"
  ]

  const GENESIS_DOMAIN := "ics-deception/pqc-evidence/genesis/v1/"
  const FIRST_SEQUENCE := 1

  // ---- the world outside -------------------------------------------------------

  predicate Hex64(s: string) {
    |s| == 64 && forall i :: 0 <= i < 64 ==> '0' <= s[i] <= '9' || 'a' <= s[i] <= 'f'
  }

  const ZERO_HASH: string := seq(64, i => '0')

  type Digest = s: string | Hex64(s) witness ZERO_HASH

  // Everything the package takes from its libraries, as uninterpreted functions.
  datatype Env = Env(
    hash: seq<byte> -> Digest,                                 // SHA3-256, hexadecimal
    sign: (seq<byte>, seq<byte>, string) -> seq<byte>,         // private key, message, algorithm
    verify: (seq<byte>, seq<byte>, seq<byte>, string) -> bool, // public key, message, signature, algorithm
    publicOf: seq<byte> -> seq<byte>,
    b64: seq<byte> -> string,
    unb64: string -> Option<seq<byte>>,                        // strict decoding
    normalize: string -> Option<string>,                       // normalize_timestamp
    instant: string -> int)                                    // when a canonical timestamp is

  // Signature sizes of Table 2 in section 4 of FIPS 204.
  function SignatureSize(algorithm: string): nat {
    if algorithm == "ML-DSA-44" then 2420 else if algorithm == "ML-DSA-65" then 3309 else 4627
  }

  // What is assumed of those libraries.
  ghost predicate Laws(env: Env) {
    && (forall k, m, a :: env.verify(env.publicOf(k), m, env.sign(k, m, a), a))
    && (forall k, m, a :: a in SIGNATURE_ALGORITHMS ==> |env.sign(k, m, a)| == SignatureSize(a))
    && (forall b :: env.unb64(env.b64(b)) == Some(b) && |env.b64(b)| == 4 * ((|b| + 2) / 3))
    && (forall t :: env.normalize(t).Some? ==>
          env.normalize(env.normalize(t).value) == env.normalize(t) && |env.normalize(t).value| == 27)
  }

  // ---- the envelope --------------------------------------------------------------

  datatype SignedEvent = SignedEvent(
    formatVersion: string,
    nodeId: string,
    sequence: int,
    timestamp: string,
    previousEventHash: string,
    eventHash: string,
    event: Json,
    signatureAlgorithm: string,
    hashAlgorithm: string,
    keyId: string,
    signature: string,
    signatureBytes: seq<byte>)

  function EnvelopeFields(e: SignedEvent): (fs: seq<Field>)
    ensures |fs| == 11
  {
    [ Field("format_version", Str(e.formatVersion)),
      Field("node_id", Str(e.nodeId)),
      Field("sequence", Int(e.sequence)),
      Field("timestamp", Str(e.timestamp)),
      Field("previous_event_hash", Str(e.previousEventHash)),
      Field("event", e.event),
      Field("signature_algorithm", Str(e.signatureAlgorithm)),
      Field("hash_algorithm", Str(e.hashAlgorithm)),
      Field("key_id", Str(e.keyId)),
      Field("event_hash", Str(e.eventHash)),
      Field("signature", Str(e.signature)) ]
  }

  // `event_hash` covers all but itself and the signature; the signature covers
  // all but itself.
  function HashFields(e: SignedEvent): seq<Field> {
    EnvelopeFields(e)[..9]
  }

  function SigningFields(e: SignedEvent): seq<Field> {
    EnvelopeFields(e)[..10]
  }

  // Canonical text of a dict that `Check` accepts.
  function CanonicalText(fields: seq<Field>): string {
    Print(CANONICAL, Sorted(Obj(fields)))
  }

  function HashPayload(e: SignedEvent): seq<byte> {
    Encode(CanonicalText(HashFields(e)))
  }

  function SigningPayload(e: SignedEvent): seq<byte> {
    Encode(CanonicalText(SigningFields(e)))
  }

  function Line(e: SignedEvent): string {
    CanonicalText(EnvelopeFields(e))
  }

  // ---- the hash chain ---------------------------------------------------------------

  function ComputeEventHash(env: Env, e: SignedEvent): Digest {
    env.hash(HashPayload(e))
  }

  function GenesisPreviousHash(env: Env, nodeId: string): Digest {
    env.hash(Encode(GENESIS_DOMAIN + nodeId))
  }

  // ---- validators ---------------------------------------------------------------------

  predicate IdentifierChar(c: char) {
    'a' <= c <= 'z' || 'A' <= c <= 'Z' || '0' <= c <= '9' || c == '.' || c == '_' || c == ':' || c == '-'
  }

  predicate IdentifierText(s: string) {
    1 <= |s| <= 128 && s[0] != '.' && s[0] != '_' && s[0] != ':' && s[0] != '-'
    && forall c | c in s :: IdentifierChar(c)
  }

  // `$` in the pattern also matches before a final newline, so one is let through.
  predicate ValidIdentifier(s: string) {
    1 <= |s| <= MAX_NODE_ID_LENGTH
    && (IdentifierText(s) || (s[|s| - 1] == '\n' && IdentifierText(s[..|s| - 1])))
  }

  predicate ValidHash(s: string) {
    Hex64(s) || (|s| == 65 && s[64] == '\n' && Hex64(s[..64]))
  }

  predicate ValidSequence(n: int) {
    1 <= n <= MAX_SEQUENCE
  }

  function Max(a: nat, b: nat): nat {
    if a < b then b else a
  }

  function Depth(v: Json, level: nat): nat
    decreases v, 1
  {
    match v
    case Arr(items) => if items == [] then level else ItemsDepth(items, level + 1)
    case Obj(fields) => if fields == [] then level else FieldsDepth(fields, level + 1)
    case _ => level
  }

  function ItemsDepth(items: seq<Json>, level: nat): nat
    decreases items, 0
  {
    if items == [] then 0 else Max(Depth(items[0], level), ItemsDepth(items[1..], level))
  }

  function FieldsDepth(fields: seq<Field>, level: nat): nat
    decreases fields, 0
  {
    if fields == [] then 0 else Max(Depth(fields[0].value, level), FieldsDepth(fields[1..], level))
  }

  datatype Reason = Malformed | Oversized | BadAlgorithm

  function ValidateEvent(v: Json): Result<Json, Reason> {
    if !v.Obj? || !Check(v, 0) then Err(Malformed)
    else if |Encode(Print(CANONICAL, Sorted(v)))| > MAX_EVENT_BYTES then Err(Oversized)
    else if Depth(v, 1) > MAX_EVENT_DEPTH then Err(Malformed)
    else Ok(v)
  }

  // ---- the local signing path -----------------------------------------------------------

  function BuildUnsigned(env: Env, nodeId: string, sequence: int, timestamp: string, previous: string,
                         event: Json, keyId: string, algorithm: string): Result<SignedEvent, Reason>
  {
    if algorithm !in SIGNATURE_ALGORITHMS then Err(BadAlgorithm)
    else if env.normalize(timestamp).None? then Err(Malformed)
    else if !ValidIdentifier(nodeId) || !ValidSequence(sequence) || !ValidHash(previous) then Err(Malformed)
    else if ValidateEvent(event).Err? then Err(ValidateEvent(event).error)
    else if !ValidIdentifier(keyId) then Err(Malformed)
    else Ok(SignedEvent(FORMAT_VERSION, nodeId, sequence, env.normalize(timestamp).value, previous,
                        ZERO_HASH, event, algorithm, HASH_ALGORITHM, keyId, "", []))
  }

  function WithEventHash(env: Env, e: SignedEvent): SignedEvent {
    e.(eventHash := ComputeEventHash(env, e))
  }

  function WithSignature(env: Env, e: SignedEvent, raw: seq<byte>): SignedEvent {
    e.(signature := env.b64(raw), signatureBytes := raw)
  }

  // ---- untrusted input --------------------------------------------------------------------

  function Get(fields: seq<Field>, key: string): Json {
    var v := Lookup(fields, key);
    if v.Some? then v.value else Null
  }

  predicate ValidSignature(env: Env, v: Json) {
    v.Str? && v.s != "" && env.unb64(v.s).Some? && env.unb64(v.s).value != []
  }

  // The values found under the envelope's keys, none of them validated yet.
  datatype Raw = Raw(formatVersion: Json, nodeId: Json, sequence: Json, timestamp: Json, previous: Json,
                     eventHash: Json, event: Json, algorithm: Json, hashAlgorithm: Json, keyId: Json,
                     signature: Json)

  function RawOf(d: seq<Field>): Raw {
    Raw(Get(d, "format_version"), Get(d, "node_id"), Get(d, "sequence"), Get(d, "timestamp"),
        Get(d, "previous_event_hash"), Get(d, "event_hash"), Get(d, "event"), Get(d, "signature_algorithm"),
        Get(d, "hash_algorithm"), Get(d, "key_id"), Get(d, "signature"))
  }

  function ValidateHead(env: Env, r: Raw): Result<(), Reason> {
    if r.formatVersion != Str(FORMAT_VERSION) then Err(Malformed)
    else if !r.algorithm.Str? then Err(Malformed)
    else if r.algorithm.s !in SIGNATURE_ALGORITHMS then Err(BadAlgorithm)
    else if !r.hashAlgorithm.Str? then Err(Malformed)
    else if r.hashAlgorithm.s != HASH_ALGORITHM then Err(BadAlgorithm)
    else if !r.timestamp.Str? || env.normalize(r.timestamp.s) != Some(r.timestamp.s) then Err(Malformed)
    else if !ValidSignature(env, r.signature) then Err(Malformed)
    else Ok(())
  }

  predicate ValidTail(r: Raw) {
    && r.nodeId.Str? && ValidIdentifier(r.nodeId.s)
    && r.sequence.Int? && ValidSequence(r.sequence.i)
    && r.previous.Str? && ValidHash(r.previous.s)
    && r.eventHash.Str? && ValidHash(r.eventHash.s)
    && r.keyId.Str? && ValidIdentifier(r.keyId.s)
  }

  function ParseSignedEvent(env: Env, data: Json, maxBytes: nat): Result<SignedEvent, Reason> {
    if !data.Obj? || (set f | f in data.fields :: f.key) != (set k | k in ENVELOPE_FIELDS) then Err(Malformed)
    else
      var r := RawOf(data.fields);
      if ValidateHead(env, r).Err? then Err(ValidateHead(env, r).error)
      else if ValidateEvent(r.event).Err? then Err(ValidateEvent(r.event).error)
      else if !Check(data, 0) then Err(Malformed)
      else if |Encode(CanonicalText(data.fields))| > maxBytes then Err(Oversized)
      else if !ValidTail(r) then Err(Malformed)
      else Ok(SignedEvent(r.formatVersion.s, r.nodeId.s, r.sequence.i, r.timestamp.s, r.previous.s, r.eventHash.s,
                          r.event, r.algorithm.s, r.hashAlgorithm.s, r.keyId.s, r.signature.s,
                          env.unb64(r.signature.s).value))
  }

  function ParseSignedEventJson(env: Env, text: string, maxBytes: nat): Result<SignedEvent, Reason> {
    if |Encode(text)| > maxBytes then Err(Oversized)
    else
      var data := ParseDocument(text);
      if data.None? || !NoDuplicates(data.value) || !NoConstants(data.value) then Err(Malformed)
      else ParseSignedEvent(env, data.value, maxBytes)
  }
}
