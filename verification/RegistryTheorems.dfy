/** What registering, rotating, revoking and disabling keys keeps, and what each
    does to the verdict on a stream already recorded. */
module RegistryTheorems {
  import opened Json
  import opened PyText
  import opened Models
  import opened KeyRegistry
  import opened Verifier
  import opened Collector
  import opened StreamTheorems
  import opened SignatureRules

  // ---- lifecycle --------------------------------------------------------------------------

  datatype Op =
    | Register(request: Request)
    | Rotate(request: Request)
    | Revoke(keyId: string, reason: string)
    | Disable(keyId: string)

  function Apply(env: Env, records: seq<KeyRecord>, op: Op): seq<KeyRecord> {
    match op
    case Register(q) => RegisterResult(env, records, q).records
    case Rotate(q) => RotateResult(env, records, q).records
    case Revoke(keyId, reason) => RevokeResult(records, keyId, reason).records
    case Disable(keyId) => WithState(records, keyId, Disabled, None).records
  }

  function ApplyAll(env: Env, ops: seq<Op>): seq<KeyRecord> {
    if ops == [] then [] else Apply(env, ApplyAll(env, ops[..|ops| - 1]), ops[|ops| - 1])
  }

  ghost predicate Healthy(records: seq<KeyRecord>) {
    forall i, j :: 0 <= i < j < |records| ==>
      && records[i].keyId != records[j].keyId
      && records[i].publicKey != records[j].publicKey
      && !(records[i].nodeId == records[j].nodeId && records[i].state == Active && records[j].state == Active)
  }

  lemma DemotedHealthy(records: seq<KeyRecord>, nodeId: string)
    requires Healthy(records)
    ensures Healthy(Demoted(records, nodeId))
    ensures forall i :: 0 <= i < |records| ==> !IsActive(Demoted(records, nodeId)[i], nodeId)
    ensures forall i :: 0 <= i < |records| ==>
      && Demoted(records, nodeId)[i].keyId == records[i].keyId
      && Demoted(records, nodeId)[i].publicKey == records[i].publicKey
  {
    var k := ActiveIndex(records, nodeId);
    if k >= 0 {
      assert forall i :: 0 <= i < |records| && i != k ==> !IsActive(records[i], nodeId);
    }
  }

  lemma InsertHealthy(records: seq<KeyRecord>, r: KeyRecord)
    requires Healthy(records) && InsertResult(records, r).Ok?
    requires r.state == Active ==> forall i :: 0 <= i < |records| ==> !IsActive(records[i], r.nodeId)
    ensures Healthy(InsertResult(records, r).value)
  {
    assert forall i :: 0 <= i < |records| ==> records[i].keyId != r.keyId && records[i].publicKey != r.publicKey;
  }

  lemma AddHealthy(records: seq<KeyRecord>, r: KeyRecord)
    requires Healthy(records)
    ensures Healthy(AddResult(records, r).records)
  {
    DemotedHealthy(records, r.nodeId);
    var base := if r.state == Active then Demoted(records, r.nodeId) else records;
    if InsertResult(base, r).Ok? {
      InsertHealthy(base, r);
    }
  }

  lemma RegisterHealthy(env: Env, records: seq<KeyRecord>, q: Request)
    requires Healthy(records)
    ensures Healthy(RegisterResult(env, records, q).records)
  {
    hide Built, AddResult, Healthy;
    if Built(env, q).Ok? {
      AddHealthy(records, Built(env, q).value);
    }
  }

  // From an empty registry no sequence of operations, failed ones included, gives
  // a node two active keys or registers a key identifier or a public key twice.
  lemma {:induction false} LifecycleHealthy(env: Env, ops: seq<Op>)
    ensures Healthy(ApplyAll(env, ops))
  {
    if ops != [] {
      var records, op := ApplyAll(env, ops[..|ops| - 1]), ops[|ops| - 1];
      LifecycleHealthy(env, ops[..|ops| - 1]);
      if op.Register? || op.Rotate? {
        RegisterHealthy(env, records, op.request);
        RegisterHealthy(env, records, op.request.(makeActive := true));
      }
    }
  }

  // What a record of the registry is known to be, whoever asked for it.
  predicate Kept(env: Env, r: KeyRecord) {
    && ValidRecord(env, r) && env.unb64(r.publicKey).value != []
    && env.normalize(r.activatedAt) == Some(r.activatedAt)
    && (r.expiresAt.Some? ==> env.normalize(r.expiresAt.value) == r.expiresAt)
  }

  lemma BuiltKept(env: Env, q: Request)
    requires Laws(env) && env.normalize(q.now) == Some(q.now) && Built(env, q).Ok?
    ensures Kept(env, Built(env, q).value)
  {
    hide ValidRecord;
    assert env.unb64(env.b64(q.publicKey)) == Some(q.publicKey);
    assert q.activatedAt != "" ==>
      env.normalize(env.normalize(q.activatedAt).value) == env.normalize(q.activatedAt);
    assert q.expiresAt != "" ==> env.normalize(env.normalize(q.expiresAt).value) == env.normalize(q.expiresAt);
  }

  lemma StateKept(env: Env, r: KeyRecord, state: KeyState, reason: Option<string>)
    requires Kept(env, r)
    ensures Kept(env, r.(state := state, revocationReason := reason))
  {
  }

  ghost predicate AllKept(env: Env, records: seq<KeyRecord>) {
    forall i :: 0 <= i < |records| ==> Kept(env, records[i])
  }

  lemma RegisterKept(env: Env, records: seq<KeyRecord>, q: Request)
    requires Laws(env) && env.normalize(q.now) == Some(q.now) && AllKept(env, records)
    ensures AllKept(env, RegisterResult(env, records, q).records)
  {
    hide Kept, Built, Laws, Newest;
    if Built(env, q).Ok? {
      BuiltKept(env, q);
      var k := ActiveIndex(records, Built(env, q).value.nodeId);
      if k >= 0 {
        StateKept(env, records[k], Rotated, records[k].revocationReason);
      }
    }
  }

  lemma StandingKept(env: Env, records: seq<KeyRecord>, keyId: string, state: KeyState, reason: Option<string>)
    requires AllKept(env, records)
    ensures AllKept(env, WithState(records, keyId, state, reason).records)
  {
    hide Kept;
    var k := IndexOf(records, keyId);
    if k >= 0 {
      StateKept(env, records[k], state, if reason.Some? then reason else records[k].revocationReason);
    }
  }

  // Whatever times and keys its callers gave, every record of a registry built by these
  // operations is valid, has a key that is not empty, and holds its times normalised.
  lemma {:induction false} LifecycleKept(env: Env, ops: seq<Op>)
    requires Laws(env)
    requires forall op | op in ops :: (op.Register? || op.Rotate?) ==> env.normalize(op.request.now) == Some(op.request.now)
    ensures AllKept(env, ApplyAll(env, ops))
  {
    hide Laws, AllKept, RegisterResult, WithState;
    if ops == [] {
      NoneKept(env);
    } else {
      var front, op := ops[..|ops| - 1], ops[|ops| - 1];
      assert op in ops && forall o :: o in front ==> o in ops;
      LifecycleKept(env, front);
      var records := ApplyAll(env, front);
      match op
      case Register(q) => RegisterKept(env, records, q);
      case Rotate(q) => RegisterKept(env, records, q.(makeActive := true));
      case Revoke(keyId, reason) => StandingKept(env, records, keyId, Revoked, Some(Strip(reason)));
      case Disable(keyId) => StandingKept(env, records, keyId, Disabled, None);
    }
  }

  lemma NoneKept(env: Env)
    ensures AllKept(env, [])
  {
  }

  // A failed registration leaves the registry as it was exactly when there was no
  // active key of the node to demote on the way (or no record could be built).
  lemma FailedRegister(env: Env, records: seq<KeyRecord>, q: Request)
    requires RegisterResult(env, records, q).outcome.Err?
    ensures RegisterResult(env, records, q).records == records
      <==> Built(env, q).Err? || !q.makeActive || ActiveIndex(records, q.nodeId) < 0
  {
    hide ValidRecord;
    var k := ActiveIndex(records, q.nodeId);
    if k >= 0 {
      assert Demoted(records, q.nodeId)[k] != records[k];
    }
  }

  // Registering a node's active key a second time is refused, and leaves the node
  // with no active key at all.
  lemma RefusedYetDemoted(env: Env, q: Request)
    requires Built(env, q).Ok? && q.makeActive
    ensures var r := Built(env, q).value;
      && RegisterResult(env, [], q) == Changed([r], Ok(r))
      && RegisterResult(env, [r], q) == Changed([r.(state := Rotated)], Err(DuplicateKeyId))
      && ActiveIndex([r.(state := Rotated)], q.nodeId) == -1
  {
    hide ValidRecord;
    var r := Built(env, q).value;
    assert r.state == Active && r.nodeId == q.nodeId;
    hide Built;
    assert [] + [r] == [r];
    assert [r][..0] == [];
    var d := [r.(state := Rotated)];
    assert d[..0] == [];
    assert [r][0 := r.(state := Rotated)] == d;
  }

  // ---- verdicts -------------------------------------------------------------------------------

  // Two records of a key that no check tells apart.
  predicate Alike(a: KeyRecord, b: KeyRecord) {
    && a.nodeId == b.nodeId && a.algorithm == b.algorithm && a.publicKey == b.publicKey
    && a.activatedAt == b.activatedAt && a.expiresAt == b.expiresAt
    && (a.state == b.state || (a.state == Active && b.state == Rotated))
  }

  lemma AlikeAlerts(env: Env, records: seq<KeyRecord>, after: seq<KeyRecord>, e: SignedEvent)
    requires Find(records, e.keyId).Some? && Find(after, e.keyId).Some?
    requires Alike(Find(records, e.keyId).value, Find(after, e.keyId).value)
    ensures EventAlerts(env, after, e) == EventAlerts(env, records, e)
  {
    hide HashAlerts, Find, TimeOf, SigningPayload, AddAll;
  }

  lemma RotateAlike(env: Env, records: seq<KeyRecord>, q: Request, keyId: string)
    requires Find(records, keyId).Some?
    ensures var after := RotateResult(env, records, q).records;
      Find(after, keyId).Some? && Alike(Find(records, keyId).value, Find(after, keyId).value)
  {
    hide Built, AddResult, Find, Alike;
    var more := q.(makeActive := true);
    if Built(env, more).Ok? {
      AddAlike(records, Built(env, more).value, keyId);
    }
    SameAlike(Find(records, keyId).value);
  }

  lemma SameAlike(r: KeyRecord)
    ensures Alike(r, r)
  {
  }

  lemma AddAlike(records: seq<KeyRecord>, r: KeyRecord, keyId: string)
    requires Find(records, keyId).Some?
    ensures var after := AddResult(records, r).records;
      Find(after, keyId).Some? && Alike(Find(records, keyId).value, Find(after, keyId).value)
  {
    DemotedFinds(records, r.nodeId, keyId);
    var base := if r.state == Active then Demoted(records, r.nodeId) else records;
    assert (base + [r])[..|base|] == base;
  }

  lemma {:induction false} UpdateKeepsIndex(records: seq<KeyRecord>, k: nat, r: KeyRecord, keyId: string)
    requires k < |records| && r.keyId == records[k].keyId
    ensures IndexOf(records[k := r], keyId) == IndexOf(records, keyId)
    decreases |records|
  {
    var n := |records| - 1;
    if k < n {
      UpdateKeepsIndex(records[..n], k, r, keyId);
      assert records[k := r][..n] == records[..n][k := r];
    } else {
      assert records[k := r][..n] == records[..n];
    }
  }

  lemma DemotedFinds(records: seq<KeyRecord>, nodeId: string, keyId: string)
    requires Find(records, keyId).Some?
    ensures Find(Demoted(records, nodeId), keyId).Some?
    ensures Alike(Find(records, keyId).value, Find(Demoted(records, nodeId), keyId).value)
  {
    var k := ActiveIndex(records, nodeId);
    if k >= 0 {
      UpdateKeepsIndex(records, k, records[k].(state := Rotated), keyId);
    }
    hide IndexOf, ActiveIndex;
  }

  predicate SameAlerts(reader: Reader, after: seq<KeyRecord>, raw: string) {
    Parse(reader, raw).Event? ==>
      var e := Parse(reader, raw).event;
      EventAlerts(reader.env, after, e) == EventAlerts(reader.env, reader.records, e)
  }

  lemma {:induction false} SameRun(reader: Reader, after: seq<KeyRecord>, lines: seq<string>)
    requires forall i :: 0 <= i < |lines| ==> SameAlerts(reader, after, lines[i])
    ensures Run(reader.(records := after), lines) == Run(reader, lines)
  {
    if lines != [] {
      var n := |lines| - 1;
      SameRun(reader, after, lines[..n]);
      SameStep(reader, after, Run(reader, lines[..n]), lines[n]);
    }
  }

  lemma SameStep(reader: Reader, after: seq<KeyRecord>, s: State, raw: string)
    requires SameAlerts(reader, after, raw)
    ensures Step(reader.(records := after), s, raw) == Step(reader, s, raw)
  {
    hide EventAlerts, StreamAlerts, Follow, Recorded, ParseSignedEventJson;
  }

  // Rotating a node's key changes nothing in the report on any stream whose keys
  // were all registered before.
  lemma RotateKeepsReports(reader: Reader, q: Request, lines: seq<string>)
    requires forall i :: 0 <= i < |lines| && Parse(reader, lines[i]).Event? ==>
      Find(reader.records, Parse(reader, lines[i]).event.keyId).Some?
    ensures var after := RotateResult(reader.env, reader.records, q).records;
      Run(reader.(records := after), lines) == Run(reader, lines)
  {
    hide Parse, RotateResult, EventAlerts, Find, Run;
    var after := RotateResult(reader.env, reader.records, q).records;
    forall i | 0 <= i < |lines| ensures SameAlerts(reader, after, lines[i]) {
      if Parse(reader, lines[i]).Event? {
        var e := Parse(reader, lines[i]).event;
        RotateAlike(reader.env, reader.records, q, e.keyId);
        AlikeAlerts(reader.env, reader.records, after, e);
      }
    }
    SameRun(reader, after, lines);
  }

  // ---- withdrawing a key ------------------------------------------------------------------------

  predicate Uses(reader: Reader, raw: string, keyId: string) {
    Strip(raw) != [] && Parse(reader, raw).Event? && Parse(reader, raw).event.keyId == keyId
  }

  lemma WithStateFinds(records: seq<KeyRecord>, keyId: string, state: KeyState, reason: Option<string>, other: string)
    requires IndexOf(records, keyId) >= 0
    ensures var after := WithState(records, keyId, state, reason).records;
      && (other != keyId ==> Find(after, other) == Find(records, other))
      && (other == keyId ==> Find(after, other).Some? && Find(after, other).value.state == state)
      && forall n :: KnownNode(after, n) == KnownNode(records, n)
  {
    var k := IndexOf(records, keyId);
    var r := WithState(records, keyId, state, reason).records[k];
    UpdateKeepsIndex(records, k, r, other);
    forall n ensures KnownNode(records[k := r], n) == KnownNode(records, n) {
      var after := records[k := r];
      assert forall i :: 0 <= i < |records| ==> after[i].nodeId == records[i].nodeId;
    }
  }

  lemma WithdrawnAlerts(env: Env, records: seq<KeyRecord>, keyId: string, state: KeyState, reason: Option<string>,
                        e: SignedEvent)
    requires IndexOf(records, keyId) >= 0 && (state == Revoked || state == Disabled)
    ensures var after := WithState(records, keyId, state, reason).records;
      && (e.keyId != keyId ==> EventAlerts(env, after, e) == EventAlerts(env, records, e))
      && (e.keyId == keyId ==> RevokedKey in EventAlerts(env, after, e))
  {
    hide HashAlerts, Find, TimeProblems, SigningPayload, WithState, IndexOf, KnownNode;
    WithStateFinds(records, keyId, state, reason, e.keyId);
    var after := WithState(records, keyId, state, reason).records;
    if e.keyId == keyId {
      assert RevokedKey in KeyAlerts(env, after, e);
    }
  }

  // After a key is revoked or disabled a stream is valid iff it was before and
  // none of its records is that key's.
  lemma WithdrawVerdict(reader: Reader, keyId: string, state: KeyState, reason: Option<string>, lines: seq<string>)
    requires IndexOf(reader.records, keyId) >= 0 && (state == Revoked || state == Disabled)
    ensures var after := WithState(reader.records, keyId, state, reason).records;
      Accepts(reader.(records := after), lines)
      <==> Accepts(reader, lines) && forall i :: 0 <= i < |lines| ==> !Uses(reader, lines[i], keyId)
  {
    var after := WithState(reader.records, keyId, state, reason).records;
    var withdrawn := reader.(records := after);
    ExactAcceptance(reader, lines);
    ExactAcceptance(withdrawn, lines);
    SameEvents(reader, after, lines);
    forall i | 0 <= i < |lines| && Strip(lines[i]) != []
      ensures Sound(withdrawn, lines[i]) <==> Sound(reader, lines[i]) && !Uses(reader, lines[i], keyId)
    {
      SoundAfter(reader, keyId, state, reason, lines[i]);
    }
    hide Parse, Run, WithState, GapFree, Sound;
  }

  lemma SoundAfter(reader: Reader, keyId: string, state: KeyState, reason: Option<string>, raw: string)
    requires IndexOf(reader.records, keyId) >= 0 && (state == Revoked || state == Disabled)
    requires Strip(raw) != []
    ensures var after := WithState(reader.records, keyId, state, reason).records;
      Sound(reader.(records := after), raw) <==> Sound(reader, raw) && !Uses(reader, raw, keyId)
  {
    hide ParseSignedEventJson, EventAlerts, WithState, IndexOf, Find;
    if Parse(reader, raw).Event? {
      WithdrawnAlerts(reader.env, reader.records, keyId, state, reason, Parse(reader, raw).event);
    }
  }

  lemma {:induction false} SameEvents(reader: Reader, after: seq<KeyRecord>, lines: seq<string>)
    ensures Events(reader.(records := after), lines) == Events(reader, lines)
    ensures forall i :: 0 <= i < |lines| ==> Parse(reader.(records := after), lines[i]) == Parse(reader, lines[i])
  {
    hide ParseSignedEventJson;
    if lines != [] {
      SameEvents(reader, after, lines[..|lines| - 1]);
    }
  }

  // ---- what each operation comes to -----------------------------------------------------------

  // A record is refused for a conflict, a repeated key identifier or a shared key, each
  // exactly when it is one; and else it stands last.
  lemma InsertMeans(records: seq<KeyRecord>, r: KeyRecord)
    requires Healthy(records)
    ensures var result := InsertResult(records, r);
      && (result == Err(Conflict) <==>
            exists i :: 0 <= i < |records| && records[i].keyId == r.keyId
              && (records[i].nodeId != r.nodeId || records[i].publicKey != r.publicKey))
      && (result == Err(DuplicateKeyId) <==>
            exists i :: 0 <= i < |records| && records[i].keyId == r.keyId
              && records[i].nodeId == r.nodeId && records[i].publicKey == r.publicKey)
      && (result == Err(SharedPublicKey) <==>
            (forall i :: 0 <= i < |records| ==> records[i].keyId != r.keyId)
            && exists i :: 0 <= i < |records| && records[i].publicKey == r.publicKey)
      && (result.Ok? ==> result.value == records + [r])
      && (result.Err? ==> result.error == Conflict || result.error == DuplicateKeyId || result.error == SharedPublicKey)
  {
    var k := IndexOf(records, r.keyId);
    if k >= 0 {
      assert forall i :: 0 <= i < |records| && records[i].keyId == r.keyId ==> i == k;
    }
  }

  // After a key was registered as active it is the node's active key, and usable for that
  // node and algorithm just from the activation asked for, or else from the time it was
  // asked, to the expiry asked for, if any.
  lemma RegisterMeans(env: Env, records: seq<KeyRecord>, q: Request, nodeId: string, at: string, algorithm: string)
    requires Laws(env) && q.makeActive && RegisterResult(env, records, q).outcome.Ok?
    ensures var after := RegisterResult(env, records, q).records;
      var from := if q.activatedAt != "" then q.activatedAt else q.now;
      && Find(after, q.keyId).Some? && env.unb64(Find(after, q.keyId).value.publicKey) == Some(q.publicKey)
      && Find(after, q.keyId) == Some(RegisterResult(env, records, q).outcome.value)
      && Readable(env, from) && (q.expiresAt != "" ==> Readable(env, q.expiresAt))
      && (CheckUsable(env, after, q.keyId, nodeId, at, algorithm) == [] <==>
            && nodeId == q.nodeId && algorithm == q.algorithm && Readable(env, at)
            && Moment(env, from) <= Moment(env, at) && (q.expiresAt != "" ==> Moment(env, at) <= Moment(env, q.expiresAt)))
  {
    hide CheckUsable, Demoted, Laws, ValidRecord;
    var r := Built(env, q).value;
    BuiltMeans(env, q);
    AddedLast(records, r);
    UsableMeans(env, RegisterResult(env, records, q).records, q.keyId, nodeId, at, algorithm);
  }

  lemma AddedLast(records: seq<KeyRecord>, r: KeyRecord)
    requires AddResult(records, r).outcome.Ok?
    ensures Find(AddResult(records, r).records, r.keyId) == Some(r) && AddResult(records, r).outcome == Ok(r)
  {
    hide Demoted;
  }

  lemma BuiltMeans(env: Env, q: Request)
    requires Laws(env) && Built(env, q).Ok?
    ensures var r := Built(env, q).value;
      var from := if q.activatedAt != "" then q.activatedAt else q.now;
      && r.keyId == q.keyId && r.nodeId == q.nodeId && r.algorithm == q.algorithm
      && env.unb64(r.publicKey) == Some(q.publicKey) && r.state == (if q.makeActive then Active else Disabled)
      && Readable(env, from) && Readable(env, r.activatedAt) && Moment(env, r.activatedAt) == Moment(env, from)
      && (q.expiresAt != "" <==> r.expiresAt.Some?)
      && (q.expiresAt != "" ==>
            Readable(env, q.expiresAt) && Readable(env, r.expiresAt.value)
            && Moment(env, r.expiresAt.value) == Moment(env, q.expiresAt))
  {
    hide ValidRecord;
    assert env.unb64(env.b64(q.publicKey)) == Some(q.publicKey);
    assert q.activatedAt != "" ==> env.normalize(env.normalize(q.activatedAt).value) == env.normalize(q.activatedAt);
    assert q.expiresAt != "" ==> env.normalize(env.normalize(q.expiresAt).value) == env.normalize(q.expiresAt);
  }

  // A revocation is refused iff the key is unknown or the reason blank; else the key is
  // revoked for that reason, stripped, and no other key is touched.
  lemma RevokeMeans(records: seq<KeyRecord>, keyId: string, reason: string, other: string)
    ensures var result := RevokeResult(records, keyId, reason);
      && (result.outcome.Ok? <==> Find(records, keyId).Some? && Strip(reason) != [])
      && (result.outcome.Err? ==> result.records == records)
      && (result.outcome.Ok? ==>
            && Find(result.records, keyId) == Some(Find(records, keyId).value.(state := Revoked,
                                                                               revocationReason := Some(Strip(reason))))
            && result.outcome == Ok(Find(result.records, keyId).value)
            && (other != keyId ==> Find(result.records, other) == Find(records, other)))
  {
    hide Strip;
    var k := IndexOf(records, keyId);
    if k >= 0 && Strip(reason) != [] {
      WithStateFinds(records, keyId, Revoked, Some(Strip(reason)), other);
      UpdateKeepsIndex(records, k, RevokeResult(records, keyId, reason).records[k], keyId);
    }
  }

  // A disabled key keeps everything but its state, a reason it was revoked for included.
  lemma DisableMeans(records: seq<KeyRecord>, keyId: string, other: string)
    ensures var result := WithState(records, keyId, Disabled, None);
      && (result.outcome.Ok? <==> Find(records, keyId).Some?)
      && (result.outcome.Err? ==> result.records == records)
      && (result.outcome.Ok? ==>
            && Find(result.records, keyId) == Some(Find(records, keyId).value.(state := Disabled))
            && result.outcome == Ok(Find(result.records, keyId).value)
            && (other != keyId ==> Find(result.records, other) == Find(records, other)))
  {
    var k := IndexOf(records, keyId);
    if k >= 0 {
      WithStateFinds(records, keyId, Disabled, None, other);
      UpdateKeepsIndex(records, k, WithState(records, keyId, Disabled, None).records[k], keyId);
    }
  }

  // A rotation is refused, before anything is looked at, iff the node has no key at all;
  // else it ends like a registration, and if it succeeds the new key stands active after
  // the others, of which the one that was active is rotated and nothing else changed.
  lemma RotateMeans(env: Env, records: seq<KeyRecord>, q: Request)
    ensures var result, was := RotateResult(env, records, q), ActiveIndex(records, q.nodeId);
      && (result.outcome == Err(NothingToRotate) <==> forall i :: 0 <= i < |records| ==> records[i].nodeId != q.nodeId)
      && (result.outcome == Err(NothingToRotate) ==> result.records == records)
      && (result.outcome.Ok? ==>
            && |result.records| == |records| + 1
            && result.records[|records|].keyId == q.keyId && result.records[|records|].nodeId == q.nodeId
            && result.records[|records|].state == Active
            && forall i :: 0 <= i < |records| ==>
                 result.records[i] == if i == was then records[i].(state := Rotated) else records[i])
  {
    hide ValidRecord, ActiveIndex;
    var was := ActiveIndex(records, q.nodeId);
    if was >= 0 {
      assert KnownNode(records, q.nodeId);
    }
  }
}
