/** The trusted-key registry: which key may have signed for which node, and how a
    key's standing changes. */
module KeyRegistry {
  import opened Json
  import JsonCanonical
  import opened Models
  import opened PyText
  import opened Utf8

  datatype Alert =
    | InvalidSignature | EventHashMismatch | PreviousHashMismatch | SequenceGap | DuplicateSequence
    | ReplayedEvent | UnknownNode | UnknownKey | RevokedKey | ExpiredKey | ChainReset
    | UnsupportedAlgorithm | MalformedEvidence | OversizedEvidence

  datatype KeyState = Active | Rotated | Revoked | Expired | Disabled

  datatype KeyRecord = KeyRecord(
    keyId: string,
    nodeId: string,
    algorithm: string,
    publicKey: string,   // base64
    activatedAt: string,
    expiresAt: Option<string>,
    state: KeyState,
    revocationReason: Option<string>)

  datatype RegistryError = BadRecord | Conflict | DuplicateKeyId | SharedPublicKey | UnknownKeyId | NoReason | NothingToRotate

  // ---- queries --------------------------------------------------------------------

  // Where a key identifier is registered, or -1.  The dict of records is kept in
  // its insertion order.
  function IndexOf(records: seq<KeyRecord>, keyId: string): (i: int)
    ensures -1 <= i < |records|
    ensures i >= 0 ==> records[i].keyId == keyId
    ensures i < 0 ==> forall j :: 0 <= j < |records| ==> records[j].keyId != keyId
  {
    if records == [] then -1
    else if records[|records| - 1].keyId == keyId then |records| - 1
    else IndexOf(records[..|records| - 1], keyId)
  }

  function Find(records: seq<KeyRecord>, keyId: string): Option<KeyRecord> {
    var i := IndexOf(records, keyId);
    if i < 0 then None else Some(records[i])
  }

  predicate IsActive(r: KeyRecord, nodeId: string) {
    r.nodeId == nodeId && r.state == Active
  }

  // Of the node's active records none was activated later, and none registered before
  // it was activated at the same time.
  ghost predicate Newest(records: seq<KeyRecord>, nodeId: string, i: nat)
    requires i < |records|
  {
    && IsActive(records[i], nodeId)
    && forall j :: 0 <= j < |records| && IsActive(records[j], nodeId) ==>
         && !JsonCanonical.Precedes(records[i].activatedAt, records[j].activatedAt)
         && (j < i ==> JsonCanonical.Precedes(records[j].activatedAt, records[i].activatedAt))
  }

  lemma NewestStays(records: seq<KeyRecord>, r: KeyRecord, nodeId: string, i: nat)
    requires i < |records| && Newest(records, nodeId, i)
    requires !IsActive(r, nodeId) || !Less(records[i].activatedAt, r.activatedAt)
    ensures Newest(records + [r], nodeId, i)
  {
    hide Less, JsonCanonical.Precedes;
    JsonCanonical.LessPrecedes(records[i].activatedAt, r.activatedAt);
  }

  lemma NewestMoves(records: seq<KeyRecord>, r: KeyRecord, nodeId: string, i: nat)
    requires i < |records| && Newest(records, nodeId, i)
    requires IsActive(r, nodeId) && Less(records[i].activatedAt, r.activatedAt)
    ensures Newest(records + [r], nodeId, |records|)
  {
    hide Less, JsonCanonical.Precedes;
    var all := records + [r];
    forall j | 0 <= j < |all| && IsActive(all[j], nodeId)
      ensures !JsonCanonical.Precedes(r.activatedAt, all[j].activatedAt)
      ensures j < |records| ==> JsonCanonical.Precedes(all[j].activatedAt, r.activatedAt)
    {
      var a, b, c := all[j].activatedAt, records[i].activatedAt, r.activatedAt;
      JsonCanonical.LessPrecedes(c, a);
      JsonCanonical.LessPrecedes(a, c);
      if j < |records| {
        JsonCanonical.LessPrecedes(b, a);
        JsonCanonical.LessTotal(a, b);
        if Less(a, b) {
          JsonCanonical.LessTransitive(a, b, c);
        }
      }
      JsonCanonical.LessTotal(a, c);
    }
  }

  lemma NewestAlone(records: seq<KeyRecord>, r: KeyRecord, nodeId: string)
    requires IsActive(r, nodeId) && forall j :: 0 <= j < |records| ==> !IsActive(records[j], nodeId)
    ensures Newest(records + [r], nodeId, |records|)
  {
    hide Less, JsonCanonical.Precedes;
    JsonCanonical.LessTotal(r.activatedAt, r.activatedAt);
    JsonCanonical.LessPrecedes(r.activatedAt, r.activatedAt);
  }

  // The node's active record of the newest activation, the first registered of
  // equals, or -1.
  function ActiveIndex(records: seq<KeyRecord>, nodeId: string): (i: int)
    ensures -1 <= i < |records|
    ensures i >= 0 ==> Newest(records, nodeId, i)
    ensures i < 0 ==> forall j :: 0 <= j < |records| ==> !IsActive(records[j], nodeId)
  {
    if records == [] then -1
    else
      var last := |records| - 1;
      var front, r := records[..last], records[last];
      var best := ActiveIndex(front, nodeId);
      assert front + [r] == records;
      if best < 0 then
        if IsActive(r, nodeId) then NewestAlone(front, r, nodeId); last else -1
      else if IsActive(r, nodeId) && Less(records[best].activatedAt, r.activatedAt) then
        NewestMoves(front, r, nodeId, best); last
      else
        NewestStays(front, r, nodeId, best); best
  }

  predicate KnownNode(records: seq<KeyRecord>, nodeId: string) {
    exists i :: 0 <= i < |records| && records[i].nodeId == nodeId
  }

  function TimeOf(env: Env, s: string): Option<int> {
    match env.normalize(s)
    case None => None
    case Some(t) => Some(env.instant(t))
  }

  function TimeProblems(env: Env, r: KeyRecord, at: string): seq<Alert> {
    var event, activated := TimeOf(env, at), TimeOf(env, r.activatedAt);
    if event.None? || activated.None? then [MalformedEvidence]
    else
      (if event.value < activated.value then [UnknownKey] else [])
      + (if r.expiresAt.Some? && TimeOf(env, r.expiresAt.value).None? then [MalformedEvidence]
         else if r.expiresAt.Some? && event.value > TimeOf(env, r.expiresAt.value).value then [ExpiredKey]
         else if r.state == Expired then [ExpiredKey]
         else [])
  }

  // Why `keyId` may not have signed for `nodeId` at that time: nothing when it may.
  function CheckUsable(env: Env, records: seq<KeyRecord>, keyId: string, nodeId: string, at: string, algorithm: string)
    : seq<Alert>
  {
    match Find(records, keyId)
    case None => if KnownNode(records, nodeId) then [UnknownKey] else [UnknownNode, UnknownKey]
    case Some(r) => KeyProblems(env, r, nodeId, at, algorithm)
  }

  function KeyProblems(env: Env, r: KeyRecord, nodeId: string, at: string, algorithm: string): seq<Alert> {
    (if r.nodeId != nodeId then [UnknownNode] else [])
    + (if r.algorithm != algorithm then [UnsupportedAlgorithm] else [])
    + (if r.state == Revoked || r.state == Disabled then [RevokedKey] else [])
    + TimeProblems(env, r, at)
  }

  // ---- changes ----------------------------------------------------------------------

  function InsertResult(records: seq<KeyRecord>, r: KeyRecord): Result<seq<KeyRecord>, RegistryError> {
    match Find(records, r.keyId)
    case Some(held) => Err(if held.nodeId != r.nodeId || held.publicKey != r.publicKey then Conflict else DuplicateKeyId)
    case None =>
      if exists i :: 0 <= i < |records| && records[i].publicKey == r.publicKey then Err(SharedPublicKey)
      else Ok(records + [r])
  }

  // What a caller asks to have registered, and when it asks.  An empty text is no time.
  datatype Request = Request(
    keyId: string,
    nodeId: string,
    algorithm: string,
    publicKey: seq<byte>,
    activatedAt: string,
    expiresAt: string,
    makeActive: bool,
    now: string)

  // The record made of it: the key in base64, its times normalised.
  function Built(env: Env, q: Request): Result<KeyRecord, RegistryError> {
    if q.algorithm !in SIGNATURE_ALGORITHMS || q.publicKey == [] then Err(BadRecord)
    else if q.activatedAt != "" && env.normalize(q.activatedAt).None? then Err(BadRecord)
    else if q.expiresAt != "" && env.normalize(q.expiresAt).None? then Err(BadRecord)
    else
      var r := KeyRecord(q.keyId, q.nodeId, q.algorithm, env.b64(q.publicKey),
                         if q.activatedAt != "" then env.normalize(q.activatedAt).value else q.now,
                         if q.expiresAt != "" then env.normalize(q.expiresAt) else None,
                         if q.makeActive then Active else Disabled, None);
      if env.normalize(q.now).None? || !ValidRecord(env, r) then Err(BadRecord) else Ok(r)
  }

  // What validation asks of a new record.
  predicate ValidRecord(env: Env, r: KeyRecord) {
    && 1 <= |r.keyId| <= MAX_NODE_ID_LENGTH && 1 <= |r.nodeId| <= MAX_NODE_ID_LENGTH
    && r.algorithm in SIGNATURE_ALGORITHMS
    && env.unb64(r.publicKey).Some?
    && env.normalize(r.activatedAt).Some?
    && (r.expiresAt.Some? ==> env.normalize(r.expiresAt.value).Some?)
  }

  function Demoted(records: seq<KeyRecord>, nodeId: string): (d: seq<KeyRecord>)
    ensures |d| == |records|
  {
    var i := ActiveIndex(records, nodeId);
    if i < 0 then records else records[i := records[i].(state := Rotated)]
  }

  datatype Changed = Changed(records: seq<KeyRecord>, outcome: Result<KeyRecord, RegistryError>)

  // The previous active key is demoted before the insertion that may still fail.
  function RegisterResult(env: Env, records: seq<KeyRecord>, q: Request): Changed {
    match Built(env, q)
    case Err(error) => Changed(records, Err(error))
    case Ok(r) => AddResult(records, r)
  }

  function AddResult(records: seq<KeyRecord>, r: KeyRecord): Changed {
    var base := if r.state == Active then Demoted(records, r.nodeId) else records;
    match InsertResult(base, r)
    case Ok(after) => Changed(after, Ok(r))
    case Err(error) => Changed(base, Err(error))
  }

  function RotateResult(env: Env, records: seq<KeyRecord>, q: Request): Changed {
    if ActiveIndex(records, q.nodeId) < 0 && !KnownNode(records, q.nodeId) then Changed(records, Err(NothingToRotate))
    else RegisterResult(env, records, q.(makeActive := true))
  }

  function WithState(records: seq<KeyRecord>, keyId: string, state: KeyState, reason: Option<string>): Changed {
    var i := IndexOf(records, keyId);
    if i < 0 then Changed(records, Err(UnknownKeyId))
    else
      var r := records[i].(state := state, revocationReason := if reason.Some? then reason else records[i].revocationReason);
      Changed(records[i := r], Ok(r))
  }

  function RevokeResult(records: seq<KeyRecord>, keyId: string, reason: string): Changed {
    if IndexOf(records, keyId) < 0 then Changed(records, Err(UnknownKeyId))
    else if Strip(reason) == [] then Changed(records, Err(NoReason))
    else WithState(records, keyId, Revoked, Some(Strip(reason)))
  }

  // ---- the registry object ------------------------------------------------------------

  class Registry {
    var records: seq<KeyRecord>

    constructor ()
      ensures records == []
    {
      records := [];
    }

    method Insert(r: KeyRecord) returns (outcome: Result<KeyRecord, RegistryError>)
      modifies this
      ensures match InsertResult(old(records), r)
              case Ok(after) => records == after && outcome == Ok(r)
              case Err(error) => records == old(records) && outcome == Err(error)
    {
      var i := IndexOf(records, r.keyId);
      if i >= 0 {
        if records[i].nodeId != r.nodeId || records[i].publicKey != r.publicKey {
          return Err(Conflict);
        }
        return Err(DuplicateKeyId);
      }
      var j := 0;
      while j < |records|
        invariant 0 <= j <= |records|
        invariant forall k :: 0 <= k < j ==> records[k].publicKey != r.publicKey
      {
        if records[j].publicKey == r.publicKey {
          return Err(SharedPublicKey);
        }
        j := j + 1;
      }
      records := records + [r];
      return Ok(r);
    }

    method Register(env: Env, q: Request) returns (outcome: Result<KeyRecord, RegistryError>)
      modifies this
      ensures Changed(records, outcome) == RegisterResult(env, old(records), q)
    {
      if q.algorithm !in SIGNATURE_ALGORITHMS {
        return Err(BadRecord);
      }
      if q.publicKey == [] {
        return Err(BadRecord);
      }
      var activatedAt, expiresAt := q.now, None;
      if q.activatedAt != "" {
        if env.normalize(q.activatedAt).None? {
          return Err(BadRecord);
        }
        activatedAt := env.normalize(q.activatedAt).value;
      }
      if q.expiresAt != "" {
        if env.normalize(q.expiresAt).None? {
          return Err(BadRecord);
        }
        expiresAt := env.normalize(q.expiresAt);
      }
      var r := KeyRecord(q.keyId, q.nodeId, q.algorithm, env.b64(q.publicKey), activatedAt, expiresAt,
                         if q.makeActive then Active else Disabled, None);
      if env.normalize(q.now).None? || !ValidRecord(env, r) {
        return Err(BadRecord);
      }
      if q.makeActive {
        var previous := ActiveIndex(records, q.nodeId);
        if previous >= 0 {
          records := records[previous := records[previous].(state := Rotated)];
        }
      }
      outcome := Insert(r);
    }

    method Rotate(env: Env, q: Request) returns (outcome: Result<KeyRecord, RegistryError>)
      modifies this
      ensures Changed(records, outcome) == RotateResult(env, old(records), q)
    {
      if ActiveIndex(records, q.nodeId) < 0 && !KnownNode(records, q.nodeId) {
        return Err(NothingToRotate);
      }
      outcome := Register(env, q.(makeActive := true));
    }

    method Revoke(keyId: string, reason: string) returns (outcome: Result<KeyRecord, RegistryError>)
      modifies this
      ensures Changed(records, outcome) == RevokeResult(old(records), keyId, reason)
    {
      var i := IndexOf(records, keyId);
      if i < 0 {
        return Err(UnknownKeyId);
      }
      if Strip(reason) == [] {
        return Err(NoReason);
      }
      records := records[i := records[i].(state := Revoked, revocationReason := Some(Strip(reason)))];
      return Ok(records[i]);
    }

    method Disable(keyId: string) returns (outcome: Result<KeyRecord, RegistryError>)
      modifies this
      ensures Changed(records, outcome) == WithState(old(records), keyId, Disabled, None)
    {
      var i := IndexOf(records, keyId);
      if i < 0 {
        return Err(UnknownKeyId);
      }
      records := records[i := records[i].(state := Disabled)];
      return Ok(records[i]);
    }
  }
}
