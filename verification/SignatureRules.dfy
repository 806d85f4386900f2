/** When a record is accepted on its own, from the registry's side: which keys may sign
    for which node and when, and which error each broken condition raises. */
module SignatureRules {
  import opened Json
  import opened PyText
  import opened Utf8
  import opened Models
  import opened KeyRegistry
  import opened Verifier
  import opened Collector
  import opened StreamTheorems

  // ---- a key at a time -------------------------------------------------------------------

  predicate Readable(env: Env, t: string) {
    env.normalize(t).Some?
  }

  function Moment(env: Env, t: string): int
    requires Readable(env, t)
  {
    env.instant(env.normalize(t).value)
  }

  // The key is this node's, for this algorithm, not withdrawn, and in its time.
  predicate Trusted(env: Env, r: KeyRecord, nodeId: string, at: string, algorithm: string) {
    && r.nodeId == nodeId && r.algorithm == algorithm
    && (r.state == Active || r.state == Rotated)
    && Readable(env, at) && Readable(env, r.activatedAt) && Moment(env, r.activatedAt) <= Moment(env, at)
    && (r.expiresAt.Some? ==> Readable(env, r.expiresAt.value) && Moment(env, at) <= Moment(env, r.expiresAt.value))
  }

  // A key is usable exactly when it is registered and trusted.
  lemma UsableMeans(env: Env, records: seq<KeyRecord>, keyId: string, nodeId: string, at: string, algorithm: string)
    ensures CheckUsable(env, records, keyId, nodeId, at, algorithm) == []
      <==> Find(records, keyId).Some? && Trusted(env, Find(records, keyId).value, nodeId, at, algorithm)
  {
    hide Find, KnownNode;
  }

  // An unknown key is reported as one, and its node too if that has no key at all.
  lemma UnknownCodes(env: Env, records: seq<KeyRecord>, keyId: string, nodeId: string, at: string, algorithm: string)
    requires Find(records, keyId).None?
    ensures var a := CheckUsable(env, records, keyId, nodeId, at, algorithm);
      && UnknownKey in a && (forall x :: x in a ==> x == UnknownKey || x == UnknownNode)
      && (UnknownNode in a <==> forall r :: r in records ==> r.nodeId != nodeId)
  {
    hide Find;
    if KnownNode(records, nodeId) {
      var i :| 0 <= i < |records| && records[i].nodeId == nodeId;
      assert records[i] in records;
    }
  }

  lemma TimeCodes(env: Env, r: KeyRecord, at: string)
    ensures var a := TimeProblems(env, r, at);
      var started := Readable(env, at) && Readable(env, r.activatedAt);
      var ends := r.expiresAt.None? || Readable(env, r.expiresAt.value);
      && (MalformedEvidence in a <==> !started || !ends)
      && (UnknownKey in a <==> started && Moment(env, at) < Moment(env, r.activatedAt))
      && (ExpiredKey in a <==>
            started && ends
            && (r.state == Expired || (r.expiresAt.Some? && Moment(env, at) > Moment(env, r.expiresAt.value))))
      && forall x :: x in a ==> x == MalformedEvidence || x == UnknownKey || x == ExpiredKey
  {
  }

  lemma StandingCodes(env: Env, r: KeyRecord, nodeId: string, at: string, algorithm: string)
    ensures var a, t := KeyProblems(env, r, nodeId, at, algorithm), TimeProblems(env, r, at);
      forall x ::
        x in a <==> ((x == UnknownNode && r.nodeId != nodeId) || (x == UnsupportedAlgorithm && r.algorithm != algorithm)
                     || (x == RevokedKey && (r.state == Revoked || r.state == Disabled)) || x in t)
  {
    hide TimeProblems;
    var a := if r.nodeId != nodeId then [UnknownNode] else [];
    var b := if r.algorithm != algorithm then [UnsupportedAlgorithm] else [];
    var c := if r.state == Revoked || r.state == Disabled then [RevokedKey] else [];
    var t := TimeProblems(env, r, at);
    assert forall x :: x in a + b + c + t <==> (x in a || x in b || x in c || x in t);
  }

  // Of a registered key, each broken condition raises its own code and no other; a
  // time that cannot be read hides what would have been said after it.
  lemma KeyCodes(env: Env, records: seq<KeyRecord>, keyId: string, nodeId: string, at: string, algorithm: string)
    requires Find(records, keyId).Some?
    ensures var a, r := CheckUsable(env, records, keyId, nodeId, at, algorithm), Find(records, keyId).value;
      var started := Readable(env, at) && Readable(env, r.activatedAt);
      var ends := r.expiresAt.None? || Readable(env, r.expiresAt.value);
      && (UnknownNode in a <==> r.nodeId != nodeId)
      && (UnsupportedAlgorithm in a <==> r.algorithm != algorithm)
      && (RevokedKey in a <==> r.state == Revoked || r.state == Disabled)
      && (MalformedEvidence in a <==> !started || !ends)
      && (UnknownKey in a <==> started && Moment(env, at) < Moment(env, r.activatedAt))
      && (ExpiredKey in a <==>
            started && ends
            && (r.state == Expired || (r.expiresAt.Some? && Moment(env, at) > Moment(env, r.expiresAt.value))))
      && forall x :: x in a ==> x != InvalidSignature && x != EventHashMismatch
  {
    hide Find, KnownNode, TimeProblems, KeyProblems, Readable, Moment;
    var r := Find(records, keyId).value;
    TimeCodes(env, r, at);
    StandingCodes(env, r, nodeId, at, algorithm);
  }

  // ---- a record on its own -------------------------------------------------------------------

  // What the reader asks of a record before it looks at any other.
  predicate Vouched(reader: Reader, e: SignedEvent) {
    var r, key := Find(reader.records, e.keyId), PublicKeyOf(reader, e.keyId);
    && ComputeEventHash(reader.env, e) == e.eventHash
    && r.Some? && Trusted(reader.env, r.value, e.nodeId, e.timestamp, e.signatureAlgorithm)
    && key.Some? && reader.env.verify(key.value, SigningPayload(e), e.signatureBytes, e.signatureAlgorithm)
  }

  function PublicKeyOf(reader: Reader, keyId: string): Option<seq<byte>> {
    var r := Find(reader.records, keyId);
    if r.None? then None else reader.env.unb64(r.value.publicKey)
  }

  lemma EventParts(env: Env, records: seq<KeyRecord>, e: SignedEvent)
    ensures forall x ::
      x in EventAlerts(env, records, e)
      <==> (x in HashAlerts(env, e) || x in KeyAlerts(env, records, e) || x in SignatureAlerts(env, records, e))
    ensures EventAlerts(env, records, e) == []
      <==> HashAlerts(env, e) == [] && KeyAlerts(env, records, e) == [] && SignatureAlerts(env, records, e) == []
  {
    hide HashAlerts, KeyAlerts, SignatureAlerts;
  }

  // A line is sound exactly when it parses to a record that is vouched for.
  lemma SoundMeans(reader: Reader, raw: string)
    ensures Sound(reader, raw) <==> Parse(reader, raw).Event? && Vouched(reader, Parse(reader, raw).event)
  {
    hide Parse, Trusted, Find, CheckUsable, SigningPayload, ComputeEventHash;
    if Parse(reader, raw).Event? {
      var e := Parse(reader, raw).event;
      EventParts(reader.env, reader.records, e);
      UsableMeans(reader.env, reader.records, e.keyId, e.nodeId, e.timestamp, e.signatureAlgorithm);
    }
  }

  // An invalid signature is reported exactly when the key cannot be had or its
  // verification fails on the signed bytes.
  lemma SignatureCode(reader: Reader, e: SignedEvent)
    ensures InvalidSignature in EventAlerts(reader.env, reader.records, e)
      <==> var key := PublicKeyOf(reader, e.keyId);
           key.None? || !reader.env.verify(key.value, SigningPayload(e), e.signatureBytes, e.signatureAlgorithm)
  {
    hide Find, SigningPayload, ComputeEventHash, CheckUsable;
    EventParts(reader.env, reader.records, e);
    if Find(reader.records, e.keyId).Some? {
      KeyCodes(reader.env, reader.records, e.keyId, e.nodeId, e.timestamp, e.signatureAlgorithm);
    } else {
      UnknownCodes(reader.env, reader.records, e.keyId, e.nodeId, e.timestamp, e.signatureAlgorithm);
    }
  }

  // ---- the order of a record's errors --------------------------------------------------------

  // Hash, then node, algorithm, standing and time of the key, then the signature.
  function Rank(a: Alert): nat {
    match a
    case EventHashMismatch => 0
    case UnknownNode => 1
    case UnsupportedAlgorithm => 2
    case RevokedKey => 3
    case UnknownKey => 4
    case MalformedEvidence => 5
    case ExpiredKey => 5
    case InvalidSignature => 6
    case _ => 7
  }

  predicate Ranked(alerts: seq<Alert>) {
    forall i, j :: 0 <= i < j < |alerts| ==> Rank(alerts[i]) < Rank(alerts[j])
  }

  predicate Between(alerts: seq<Alert>, low: nat, high: nat) {
    Ranked(alerts) && forall a :: a in alerts ==> low <= Rank(a) < high
  }

  lemma {:induction false} AddRanked(errors: seq<Alert>, alerts: seq<Alert>, low: nat, middle: nat, high: nat)
    requires Between(errors, low, middle) && Between(alerts, middle, high) && low <= middle <= high
    ensures AddAll(errors, alerts) == errors + alerts
    ensures Between(errors + alerts, low, high)
    decreases |alerts|
  {
    if alerts != [] {
      var a := alerts[0];
      assert a in alerts && a !in errors;
      assert Add(errors, a) == errors + [a];
      assert errors + [a] + alerts[1..] == errors + alerts;
      AddRanked(errors + [a], alerts[1..], low, Rank(a) + 1, high);
    }
  }

  lemma JoinRanked(a: seq<Alert>, b: seq<Alert>, low: nat, middle: nat, high: nat)
    requires Between(a, low, middle) && Between(b, middle, high) && low <= middle <= high
    ensures Between(a + b, low, high)
  {
    hide Rank;
  }

  lemma OneRanked(a: Alert, raised: bool, n: nat)
    requires Rank(a) == n
    ensures Between(if raised then [a] else [], n, n + 1)
  {
  }

  lemma TimesRanked(env: Env, r: KeyRecord, at: string)
    ensures Between(TimeProblems(env, r, at), 4, 6)
  {
    hide TimeOf;
  }

  lemma KeyCodesRanked(env: Env, records: seq<KeyRecord>, e: SignedEvent)
    ensures Between(KeyAlerts(env, records, e), 1, 6)
  {
    hide Find, KnownNode, TimeProblems, Between, Rank;
    if Find(records, e.keyId).None? {
      UnknownRanked();
    } else {
      var r := Find(records, e.keyId).value;
      var node := if r.nodeId != e.nodeId then [UnknownNode] else [];
      var algorithm := if r.algorithm != e.signatureAlgorithm then [UnsupportedAlgorithm] else [];
      var standing := if r.state == Revoked || r.state == Disabled then [RevokedKey] else [];
      Ranks();
      OneRanked(UnknownNode, r.nodeId != e.nodeId, 1);
      OneRanked(UnsupportedAlgorithm, r.algorithm != e.signatureAlgorithm, 2);
      OneRanked(RevokedKey, r.state == Revoked || r.state == Disabled, 3);
      TimesRanked(env, r, e.timestamp);
      JoinRanked(node, algorithm, 1, 2, 3);
      JoinRanked(node + algorithm, standing, 1, 3, 4);
      JoinRanked(node + algorithm + standing, TimeProblems(env, r, e.timestamp), 1, 4, 6);
    }
  }

  lemma Ranks()
    ensures Rank(UnknownNode) == 1 && Rank(UnsupportedAlgorithm) == 2 && Rank(RevokedKey) == 3
  {
  }

  lemma UnknownRanked()
    ensures Between([UnknownKey], 1, 6) && Between([UnknownNode, UnknownKey], 1, 6)
  {
  }

  // Every record's own errors are reported once each and in one order, so the list is
  // known from which of them there are.
  lemma CodesInOrder(env: Env, records: seq<KeyRecord>, e: SignedEvent)
    ensures Ranked(EventAlerts(env, records, e))
    ensures EventAlerts(env, records, e) == HashAlerts(env, e) + KeyAlerts(env, records, e) + SignatureAlerts(env, records, e)
  {
    hide Find, CheckUsable, SigningPayload, ComputeEventHash, Between, Ranked, AddAll, KeyAlerts, SignatureAlerts, HashAlerts;
    HashRanked(env, e);
    KeyCodesRanked(env, records, e);
    SignatureRanked(env, records, e);
    var a, b, c := HashAlerts(env, e), KeyAlerts(env, records, e), SignatureAlerts(env, records, e);
    NothingRanked();
    AddRanked([], a, 0, 0, 1);
    assert [] + a == a;
    AddRanked(a, b, 0, 1, 6);
    AddRanked(a + b, c, 0, 6, 7);
    RankedOf(a + b + c);
  }

  lemma NothingRanked()
    ensures Between([], 0, 0)
  {
  }

  lemma RankedOf(alerts: seq<Alert>)
    ensures Between(alerts, 0, 7) ==> Ranked(alerts)
  {
  }

  lemma HashRanked(env: Env, e: SignedEvent)
    ensures Between(HashAlerts(env, e), 0, 1)
  {
    hide ComputeEventHash;
  }

  lemma SignatureRanked(env: Env, records: seq<KeyRecord>, e: SignedEvent)
    ensures Between(SignatureAlerts(env, records, e), 6, 7)
  {
    hide Find, SigningPayload;
  }
}
