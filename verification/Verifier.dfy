/** Checking one record: its hash, its key, its signature, and its place in a chain. */
module Verifier {
  import opened Json
  import opened Utf8
  import opened Models
  import opened KeyRegistry

  // ---- specification -----------------------------------------------------------------

  // Errors are a list without repetition, in the order first found.
  function Add(errors: seq<Alert>, alert: Alert): seq<Alert> {
    if alert in errors then errors else errors + [alert]
  }

  function AddAll(errors: seq<Alert>, alerts: seq<Alert>): (r: seq<Alert>)
    ensures r == [] <==> errors == [] && alerts == []
    ensures forall a :: a in r <==> a in errors || a in alerts
    decreases |alerts|
  {
    if alerts == [] then errors
    else
      var r := AddAll(Add(errors, alerts[0]), alerts[1..]);
      assert forall a :: a in alerts <==> a == alerts[0] || a in alerts[1..];
      r
  }

  function HashAlerts(env: Env, e: SignedEvent): seq<Alert> {
    if ComputeEventHash(env, e) != e.eventHash then [EventHashMismatch] else []
  }

  function KeyAlerts(env: Env, records: seq<KeyRecord>, e: SignedEvent): seq<Alert> {
    CheckUsable(env, records, e.keyId, e.nodeId, e.timestamp, e.signatureAlgorithm)
  }

  function SignatureAlerts(env: Env, records: seq<KeyRecord>, e: SignedEvent): seq<Alert> {
    var record := Find(records, e.keyId);
    if record.None? || env.unb64(record.value.publicKey).None?
       || !env.verify(env.unb64(record.value.publicKey).value, SigningPayload(e), e.signatureBytes, e.signatureAlgorithm)
    then [InvalidSignature] else []
  }

  // Every error of a record on its own, whatever chain it is read in.
  function EventAlerts(env: Env, records: seq<KeyRecord>, e: SignedEvent): seq<Alert> {
    AddAll(AddAll(AddAll([], HashAlerts(env, e)), KeyAlerts(env, records, e)), SignatureAlerts(env, records, e))
  }

  function ReasonAlert(reason: Reason): Alert {
    match reason
    case Malformed => MalformedEvidence
    case Oversized => OversizedEvidence
    case BadAlgorithm => UnsupportedAlgorithm
  }

  // A record's sequence and link against a cursor at `lastSequence`, `lastHash`.
  function ChainAlerts(env: Env, e: SignedEvent, lastSequence: nat, lastHash: Option<string>): seq<Alert> {
    (if e.sequence < lastSequence + 1 then
       (if e.sequence <= lastSequence then [DuplicateSequence] else [])
     else if e.sequence > lastSequence + 1 then [SequenceGap]
     else [])
    + (if e.sequence == FIRST_SEQUENCE then
         (if lastSequence > 0 then [ChainReset] else [])
         + (if e.previousEventHash != GenesisPreviousHash(env, e.nodeId) then [PreviousHashMismatch] else [])
       else if lastHash.Some? && e.previousEventHash != lastHash.value then [PreviousHashMismatch]
       else [])
  }

  lemma AddAllStep(errors: seq<Alert>, alerts: seq<Alert>, i: nat)
    requires i < |alerts|
    ensures AddAll(errors, alerts[i..]) == AddAll(Add(errors, alerts[i]), alerts[i + 1..])
  {
    hide Add;
    assert alerts[i..][1..] == alerts[i + 1..];
  }

  lemma AddNothing(errors: seq<Alert>)
    ensures AddAll(errors, []) == errors
  {
  }

  // ---- the objects ---------------------------------------------------------------------

  class VerificationResult {
    var valid: bool
    var errors: seq<Alert>

    constructor (valid: bool)
      ensures this.valid == valid && errors == []
    {
      this.valid := valid;
      errors := [];
    }

    method AddError(alert: Alert)
      modifies this
      ensures errors == Add(old(errors), alert) && !valid
    {
      if alert !in errors {
        errors := errors + [alert];
      }
      valid := false;
    }

    method AddErrors(alerts: seq<Alert>)
      modifies this
      ensures errors == AddAll(old(errors), alerts)
      ensures valid == (old(valid) && alerts == [])
    {
      hide AddAll, Add;
      var i := 0;
      assert alerts[0..] == alerts;
      while i < |alerts|
        invariant 0 <= i <= |alerts|
        invariant AddAll(errors, alerts[i..]) == AddAll(old(errors), alerts)
        invariant valid == (old(valid) && i == 0)
      {
        AddAllStep(errors, alerts, i);
        AddError(alerts[i]);
        i := i + 1;
      }
      AddNothing(errors);
    }
  }

  // A cursor over one node's chain.
  class ChainPosition {
    const nodeId: string
    var lastSequence: nat
    var lastEventHash: Option<string>

    constructor (nodeId: string)
      ensures this.nodeId == nodeId && lastSequence == 0 && lastEventHash == None
    {
      this.nodeId := nodeId;
      lastSequence := 0;
      lastEventHash := None;
    }

    function NextSequence(): nat
      reads this
    {
      lastSequence + 1
    }

    method Advance(e: SignedEvent, eventHash: string)
      requires e.sequence >= 0
      modifies this
      ensures lastSequence == e.sequence && lastEventHash == Some(eventHash)
    {
      lastSequence := e.sequence;
      lastEventHash := Some(eventHash);
    }
  }

  class EvidenceVerifier {
    const env: Env
    const registry: Registry
    var maxRecordBytes: nat

    constructor (env: Env, registry: Registry, maxRecordBytes: nat)
      ensures this.env == env && this.registry == registry && this.maxRecordBytes == maxRecordBytes
    {
      this.env := env;
      this.registry := registry;
      this.maxRecordBytes := maxRecordBytes;
    }

    method CheckEventHash(e: SignedEvent, result: VerificationResult)
      modifies result
      ensures result.errors == AddAll(old(result.errors), HashAlerts(env, e))
      ensures result.valid == (old(result.valid) && HashAlerts(env, e) == [])
    {
      if ComputeEventHash(env, e) != e.eventHash {
        result.AddError(EventHashMismatch);
      }
    }

    method CheckKey(e: SignedEvent, result: VerificationResult)
      modifies result
      ensures result.errors == AddAll(old(result.errors), KeyAlerts(env, registry.records, e))
      ensures result.valid == (old(result.valid) && KeyAlerts(env, registry.records, e) == [])
    {
      var problems := CheckUsable(env, registry.records, e.keyId, e.nodeId, e.timestamp, e.signatureAlgorithm);
      result.AddErrors(problems);
    }

    method CheckSignature(e: SignedEvent, result: VerificationResult)
      modifies result
      ensures result.errors == AddAll(old(result.errors), SignatureAlerts(env, registry.records, e))
      ensures result.valid == (old(result.valid) && SignatureAlerts(env, registry.records, e) == [])
    {
      var record := Find(registry.records, e.keyId);
      if record.None? {
        result.AddError(InvalidSignature);
        return;
      }
      var publicKey := env.unb64(record.value.publicKey);
      if publicKey.None? {
        result.AddError(InvalidSignature);
        return;
      }
      if !env.verify(publicKey.value, SigningPayload(e), e.signatureBytes, e.signatureAlgorithm) {
        result.AddError(InvalidSignature);
      }
    }

    method CheckChain(e: SignedEvent, position: ChainPosition, result: VerificationResult)
      modifies result
      ensures result.errors == AddAll(old(result.errors), ChainAlerts(env, e, position.lastSequence, position.lastEventHash))
      ensures result.valid == (old(result.valid) && ChainAlerts(env, e, position.lastSequence, position.lastEventHash) == [])
    {
      var expected := position.NextSequence();
      ghost var order: seq<Alert> := [];
      if e.sequence < expected {
        if e.sequence <= position.lastSequence {
          result.AddError(DuplicateSequence);
          order := [DuplicateSequence];
        }
      } else if e.sequence > expected {
        result.AddError(SequenceGap);
        order := [SequenceGap];
      }
      AddAllFew(old(result.errors), order);
      ghost var ordered := result.errors;
      ghost var link: seq<Alert> := [];
      if e.sequence == FIRST_SEQUENCE {
        if position.lastSequence > 0 {
          result.AddError(ChainReset);
          link := [ChainReset];
        }
        if e.previousEventHash != GenesisPreviousHash(env, e.nodeId) {
          result.AddError(PreviousHashMismatch);
          link := link + [PreviousHashMismatch];
        }
      } else if position.lastEventHash.Some? {
        if e.previousEventHash != position.lastEventHash.value {
          result.AddError(PreviousHashMismatch);
          link := [PreviousHashMismatch];
        }
      }
      AddAllFew(ordered, link);
      AddAllConcat(old(result.errors), order, link);
      assert ChainAlerts(env, e, position.lastSequence, position.lastEventHash) == order + link;
    }

    method VerifyEvent(e: SignedEvent) returns (result: VerificationResult)
      ensures fresh(result)
      ensures result.errors == EventAlerts(env, registry.records, e)
      ensures result.valid == (result.errors == [])
    {
      result := new VerificationResult(true);
      CheckEventHash(e, result);
      CheckKey(e, result);
      CheckSignature(e, result);
    }

    method VerifyLine(line: string) returns (result: VerificationResult, event: Option<SignedEvent>)
      ensures fresh(result)
      ensures match ParseSignedEventJson(env, line, maxRecordBytes)
              case Err(reason) => event == None && result.errors == [ReasonAlert(reason)] && !result.valid
              case Ok(e) => event == Some(e) && result.errors == EventAlerts(env, registry.records, e)
                            && result.valid == (result.errors == [])
    {
      match ParseSignedEventJson(env, line, maxRecordBytes) {
        case Err(reason) =>
          result := new VerificationResult(false);
          result.AddError(ReasonAlert(reason));
          event := None;
        case Ok(e) =>
          result := VerifyEvent(e);
          event := Some(e);
      }
    }
  }

  lemma AddAllFew(errors: seq<Alert>, alerts: seq<Alert>)
    requires |alerts| <= 2
    ensures |alerts| == 1 ==> AddAll(errors, alerts) == Add(errors, alerts[0])
    ensures |alerts| == 2 ==> AddAll(errors, alerts) == Add(Add(errors, alerts[0]), alerts[1])
  {
    if |alerts| == 2 {
      assert AddAll(Add(errors, alerts[0]), alerts[1..]) == Add(Add(errors, alerts[0]), alerts[1]);
    }
  }

  lemma {:induction false} AddAllConcat(errors: seq<Alert>, a: seq<Alert>, b: seq<Alert>)
    ensures AddAll(errors, a + b) == AddAll(AddAll(errors, a), b)
    decreases |a|
  {
    if a == [] {
      assert a + b == b;
    } else {
      assert (a + b)[1..] == a[1..] + b;
      AddAllConcat(Add(errors, a[0]), a[1..], b);
    }
  }
}
