/** What the hash covers: equal payloads are equal records, but for the two fields
    hashing leaves out, so under no collision a changed record shows at the next one. */
module HashBinding {
  import opened Json
  import opened JsonCanonical
  import opened PyText
  import JsonParser
  import Utf8
  import opened Models
  import opened ModelsLaws
  import StrictParsing
  import opened Signer
  import opened KeyRegistry
  import opened Verifier
  import opened Collector
  import opened StreamTheorems
  import opened TamperTheorems

  // The nine hashed fields agree, the event as a dict, with no coercion.
  ghost predicate SameHashed(a: SignedEvent, b: SignedEvent) {
    && a.formatVersion == b.formatVersion && a.nodeId == b.nodeId && a.sequence == b.sequence
    && a.timestamp == b.timestamp && a.previousEventHash == b.previousEventHash && SameValue(a.event, b.event)
    && a.signatureAlgorithm == b.signatureAlgorithm && a.hashAlgorithm == b.hashAlgorithm && a.keyId == b.keyId
  }

  lemma FewerCheck(fs: seq<Field>, n: nat)
    requires Check(Obj(fs), 0) && n <= |fs|
    ensures Check(Obj(fs[..n]), 0)
  {
    assert forall f | f in fs[..n] :: f in fs;
  }

  // The first `n` fields of the envelope: nine are hashed, ten are signed.
  function First(e: SignedEvent, n: nat): seq<Field>
    requires n <= 11
  {
    EnvelopeFields(e)[..n]
  }

  lemma FirstCheck(env: Env, e: SignedEvent, n: nat)
    requires WellFormed(env, e) && n <= 11
    ensures Check(Obj(First(e, n)), 0) && DistinctKeys(First(e, n))
  {
    EnvelopeChecks(env, e);
    hide Check, EnvelopeFields, NoDuplicates, WellFormed;
    EnvelopeKeys(e);
    FewerCheck(EnvelopeFields(e), n);
  }

  // What is read back from the covered text under the key of field `i`.
  lemma CoveredField(env: Env, e: SignedEvent, n: nat, i: nat)
    requires WellFormed(env, e) && i < n <= 11
    ensures Get(SortedFields(First(e, n)), ENVELOPE_FIELDS[i]) == Sorted(EnvelopeFields(e)[i].value)
  {
    hide WellFormed, Sorted, SortedFields, Check, EnvelopeFields;
    FirstCheck(env, e, n);
    EnvelopeKeys(e);
    assert First(e, n)[i] == EnvelopeFields(e)[i];
    SortedLookup(First(e, n), First(e, n)[i]);
  }

  lemma TextFixesFields(env: Env, a: SignedEvent, b: SignedEvent, n: nat)
    requires WellFormed(env, a) && WellFormed(env, b) && n <= 11
    requires Utf8.Encode(CanonicalText(First(a, n))) == Utf8.Encode(CanonicalText(First(b, n)))
    ensures SortedFields(First(a, n)) == SortedFields(First(b, n))
  {
    hide WellFormed, First, SortedFields;
    FirstCheck(env, a, n);
    FirstCheck(env, b, n);
    Utf8.EncodeInjective(CanonicalText(First(a, n)), CanonicalText(First(b, n)));
    CanonicalReadsBack(Obj(First(a, n)));
    CanonicalReadsBack(Obj(First(b, n)));
  }

  lemma FieldFixed(env: Env, a: SignedEvent, b: SignedEvent, n: nat, i: nat)
    requires WellFormed(env, a) && WellFormed(env, b) && i < n <= 11
    requires Utf8.Encode(CanonicalText(First(a, n))) == Utf8.Encode(CanonicalText(First(b, n)))
    ensures Sorted(EnvelopeFields(a)[i].value) == Sorted(EnvelopeFields(b)[i].value)
  {
    hide WellFormed, First, SortedFields, Sorted, EnvelopeFields, Get, CanonicalText, Utf8.Encode;
    TextFixesFields(env, a, b, n);
    CoveredField(env, a, n, i);
    CoveredField(env, b, n, i);
  }

  // The nine hashed values, in the order of the envelope.
  lemma HashedValues(e: SignedEvent)
    ensures var fs := EnvelopeFields(e);
      && fs[0].value == Str(e.formatVersion) && fs[1].value == Str(e.nodeId) && fs[2].value == Int(e.sequence)
      && fs[3].value == Str(e.timestamp) && fs[4].value == Str(e.previousEventHash) && fs[5].value == e.event
      && fs[6].value == Str(e.signatureAlgorithm) && fs[7].value == Str(e.hashAlgorithm) && fs[8].value == Str(e.keyId)
  {
  }

  lemma ScalarStays(v: Json)
    requires v.Str? || v.Int?
    ensures Sorted(v) == v
  {
  }

  // Equal values under every key are equal fields.
  lemma FieldsAgree(a: SignedEvent, b: SignedEvent)
    requires NoDuplicates(a.event) && NoDuplicates(b.event)
    ensures (forall i :: 0 <= i < 9 ==> Sorted(EnvelopeFields(a)[i].value) == Sorted(EnvelopeFields(b)[i].value))
      <==> SameHashed(a, b)
  {
    hide EnvelopeFields, Sorted, NoDuplicates, SameValue;
    var fs, gs := EnvelopeFields(a), EnvelopeFields(b);
    HashedValues(a);
    HashedValues(b);
    SortedDecidesEquality(a.event, b.event);
    forall i | 0 <= i < 9 && i != 5 ensures Sorted(fs[i].value) == fs[i].value && Sorted(gs[i].value) == gs[i].value {
      ScalarStays(fs[i].value);
      ScalarStays(gs[i].value);
    }
    if forall i :: 0 <= i < 9 ==> Sorted(fs[i].value) == Sorted(gs[i].value) {
      assert Sorted(fs[0].value) == Sorted(gs[0].value) && Sorted(fs[1].value) == Sorted(gs[1].value);
      assert Sorted(fs[2].value) == Sorted(gs[2].value) && Sorted(fs[3].value) == Sorted(gs[3].value);
      assert Sorted(fs[4].value) == Sorted(gs[4].value) && Sorted(fs[5].value) == Sorted(gs[5].value);
      assert Sorted(fs[6].value) == Sorted(gs[6].value) && Sorted(fs[7].value) == Sorted(gs[7].value);
      assert Sorted(fs[8].value) == Sorted(gs[8].value);
    }
  }

  lemma WellFormedEvent(env: Env, e: SignedEvent)
    requires WellFormed(env, e)
    ensures NoDuplicates(e.event)
  {
  }

  // The text of the first `n` fields is fixed by their values, sorted, and fixes them.
  lemma TextBinds(env: Env, a: SignedEvent, b: SignedEvent, n: nat)
    requires WellFormed(env, a) && WellFormed(env, b) && n <= 11
    ensures Utf8.Encode(CanonicalText(First(a, n))) == Utf8.Encode(CanonicalText(First(b, n)))
      <==> forall i :: 0 <= i < n ==> Sorted(EnvelopeFields(a)[i].value) == Sorted(EnvelopeFields(b)[i].value)
  {
    hide WellFormed, First, Sorted, EnvelopeFields, SortedFields, CanonicalText, Utf8.Encode;
    if Utf8.Encode(CanonicalText(First(a, n))) == Utf8.Encode(CanonicalText(First(b, n))) {
      forall i | 0 <= i < n ensures Sorted(EnvelopeFields(a)[i].value) == Sorted(EnvelopeFields(b)[i].value) {
        FieldFixed(env, a, b, n, i);
      }
    }
    if forall i :: 0 <= i < n ==> Sorted(EnvelopeFields(a)[i].value) == Sorted(EnvelopeFields(b)[i].value) {
      SameText(a, b, n);
    }
  }

  // The hashed bytes fix every hashed field, and nothing else.
  lemma HashBindsFields(env: Env, a: SignedEvent, b: SignedEvent)
    requires WellFormed(env, a) && WellFormed(env, b)
    ensures HashPayload(a) == HashPayload(b) <==> SameHashed(a, b)
  {
    hide WellFormed, SameHashed, Sorted, EnvelopeFields, SortedFields, CanonicalText, Utf8.Encode;
    WellFormedEvent(env, a);
    WellFormedEvent(env, b);
    FieldsAgree(a, b);
    TextBinds(env, a, b, 9);
  }

  lemma HashField(e: SignedEvent)
    ensures EnvelopeFields(e)[9].value == Str(e.eventHash) && Sorted(Str(e.eventHash)) == Str(e.eventHash)
  {
  }

  // The signed bytes fix all of these and the hash besides, and nothing else.
  lemma SignatureBindsFields(env: Env, a: SignedEvent, b: SignedEvent)
    requires WellFormed(env, a) && WellFormed(env, b)
    ensures SigningPayload(a) == SigningPayload(b) <==> SameHashed(a, b) && a.eventHash == b.eventHash
  {
    hide WellFormed, SameHashed, Sorted, EnvelopeFields, SortedFields, CanonicalText, Utf8.Encode;
    WellFormedEvent(env, a);
    WellFormedEvent(env, b);
    FieldsAgree(a, b);
    HashField(a);
    HashField(b);
    TextBinds(env, a, b, 10);
    var fs, gs := EnvelopeFields(a), EnvelopeFields(b);
    assert (forall i :: 0 <= i < 10 ==> Sorted(fs[i].value) == Sorted(gs[i].value))
      <==> (forall i :: 0 <= i < 9 ==> Sorted(fs[i].value) == Sorted(gs[i].value))
           && Sorted(fs[9].value) == Sorted(gs[9].value);
  }

  lemma SameText(a: SignedEvent, b: SignedEvent, n: nat)
    requires n <= 11
    requires forall i :: 0 <= i < n ==> Sorted(EnvelopeFields(a)[i].value) == Sorted(EnvelopeFields(b)[i].value)
    ensures CanonicalText(First(a, n)) == CanonicalText(First(b, n))
  {
    hide Sorted, EnvelopeFields, SortedFields;
    EnvelopeKeys(a);
    EnvelopeKeys(b);
    forall i | 0 <= i < n ensures Normal(First(a, n)[i]) == Normal(First(b, n)[i]) {
      assert First(a, n)[i] == EnvelopeFields(a)[i] && First(b, n)[i] == EnvelopeFields(b)[i];
    }
    SortAlike(First(a, n), First(b, n));
    SortedText(First(a, n));
    SortedText(First(b, n));
  }

  lemma SortedText(fields: seq<Field>)
    ensures CanonicalText(fields) == Print(CANONICAL, Obj(SortedFields(fields)))
  {
  }

  // ---- a parsed record is a well-formed one -----------------------------------------------

  lemma ParsedWellFormed(reader: Reader, raw: string)
    requires Parse(reader, raw).Event?
    ensures WellFormed(reader.env, Parse(reader, raw).event)
  {
    hide ParseSignedEventJson, WellFormed, Strip;
    StrictParsing.ParsedIsWellFormed(reader.env, Strip(raw), reader.maxRecordBytes);
  }

  // ---- tampering shows ---------------------------------------------------------------------

  // Replacing record `k` of a clean chain by any well-formed record for its node and
  // place: if the two do not collide, the record after it is reported for its link
  // exactly when some hashed field was changed.
  lemma ChangeShows(reader: Reader, nodeId: string, lines: seq<string>, es: seq<SignedEvent>,
                    k: nat, raw: string, forged: SignedEvent, tampered: seq<string>)
    requires Reads(reader, lines, es) && OfNode(nodeId, es) && Accepts(reader, lines)
    requires k + 1 < |lines| && Strip(raw) != [] && Parse(reader, raw) == Event(forged)
    requires forged.nodeId == nodeId && forged.sequence == es[k].sequence
    requires tampered == lines[k := raw]
    requires ComputeEventHash(reader.env, forged) == ComputeEventHash(reader.env, es[k])
      ==> HashPayload(forged) == HashPayload(es[k])
    ensures Reads(reader, tampered, es[k := forged])
    ensures PreviousHashMismatch in LineAlerts(reader, tampered, k + 1) <==> !SameHashed(forged, es[k])
  {
    hide Run, Parse, LineAlerts, Strip, WellFormed, HashPayload, SameHashed, OfNode, Accepts;
    TamperLocalised(reader, nodeId, lines, es, k, raw, forged, tampered);
    assert Localised(reader.env, es, k, forged, k + 1, LineAlerts(reader, tampered, k + 1));
    ParsedWellFormed(reader, raw);
    ParsedWellFormed(reader, lines[k]);
    HashBindsFields(reader.env, forged, es[k]);
  }

  // Two quiet records keep an accepted stream accepted.
  lemma QuietPair(reader: Reader, front: seq<string>, raw: string, e: SignedEvent, next: string, f: SignedEvent)
    requires Accepts(reader, front) && Strip(raw) != [] && Strip(next) != []
    requires Parse(reader, raw) == Event(e) && Parse(reader, next) == Event(f)
    requires RecordAlerts(reader, Run(reader, front).tracks, e) == []
    requires RecordAlerts(reader, Run(reader, front + [raw]).tracks, f) == []
    ensures Accepts(reader, front + [raw] + [next])
  {
    hide Run, Parse, RecordAlerts, Follow, Strip;
    NextVerdict(reader, front, raw, e);
    NextVerdict(reader, front + [raw], next, f);
  }

  // In an accepted stream whatever stands before a node's record `n + 2` is its record
  // `n + 1`, and the link of the later record is the hash of the earlier.
  lemma PairChains(reader: Reader, nodeId: string, front: seq<string>, es: seq<SignedEvent>,
                   raw: string, e: SignedEvent, next: string, f: SignedEvent)
    requires Reads(reader, front, es) && OfNode(nodeId, es) && Accepts(reader, front + [raw] + [next])
    requires Strip(raw) != [] && Parse(reader, raw) == Event(e)
    requires Strip(next) != [] && Parse(reader, next) == Event(f)
    requires f.nodeId == nodeId && f.sequence == |es| + 2
    ensures e.nodeId == nodeId && e.sequence == |es| + 1 && f.previousEventHash == ComputeEventHash(reader.env, e)
  {
    hide Run, Parse, Strip, ComputeEventHash, GenesisPreviousHash, Events, Of, Accepts;
    EventsOfReads(reader, nodeId, front, es);
    EventsAppend(reader, front, raw);
    EventsAppend(reader, front + [raw], next);
    OfAppend(nodeId, es, e);
    OfAppend(nodeId, es + [e], f);
    ExactAcceptance(reader, front + [raw] + [next]);
    var chain := Of(nodeId, es + [e] + [f]);
    assert GapFree(reader.env, nodeId, chain);
    assert chain[|chain| - 1] == f && f.sequence == |chain|;
    assert chain == es + [e] + [f] && chain[|es|] == e;
    LinkAt(reader.env, nodeId, chain, |es| + 1);
  }

  // Replacing record `k` of a clean chain by a record of any node and place whose hashed
  // fields differ: if the two do not collide, record `k` or the one after it is reported.
  lemma ChangeReported(reader: Reader, nodeId: string, lines: seq<string>, es: seq<SignedEvent>,
                       k: nat, raw: string, forged: SignedEvent, tampered: seq<string>)
    requires Reads(reader, lines, es) && OfNode(nodeId, es) && Accepts(reader, lines)
    requires k + 1 < |lines| && Strip(raw) != [] && Parse(reader, raw) == Event(forged)
    requires tampered == lines[k := raw] && !SameHashed(forged, es[k])
    requires ComputeEventHash(reader.env, forged) == ComputeEventHash(reader.env, es[k])
      ==> HashPayload(forged) == HashPayload(es[k])
    ensures LineAlerts(reader, tampered, k) != [] || LineAlerts(reader, tampered, k + 1) != []
  {
    hide Run, Parse, Strip, LineAlerts, Accepts, HashPayload, SameHashed, WellFormed, ComputeEventHash, GapFree;
    CleanChain(reader, nodeId, lines, es);
    if LineAlerts(reader, tampered, k) == [] && LineAlerts(reader, tampered, k + 1) == [] {
      QuietChange(reader, nodeId, lines, es, k, raw, forged, tampered);
      LinkHash(reader.env, nodeId, es, k);
      ParsedWellFormed(reader, raw);
      ParsedWellFormed(reader, lines[k]);
      HashBindsFields(reader.env, forged, es[k]);
    }
  }

  lemma LinkHash(env: Env, nodeId: string, es: seq<SignedEvent>, k: nat)
    requires GapFree(env, nodeId, es) && k + 1 < |es|
    ensures es[k + 1].previousEventHash == ComputeEventHash(env, es[k]) && es[k + 1].sequence == k + 2
  {
    hide ComputeEventHash, GenesisPreviousHash;
    LinkAt(env, nodeId, es, k + 1);
  }

  lemma QuietChange(reader: Reader, nodeId: string, lines: seq<string>, es: seq<SignedEvent>,
                    k: nat, raw: string, forged: SignedEvent, tampered: seq<string>)
    requires Reads(reader, lines, es) && OfNode(nodeId, es) && Accepts(reader, lines)
    requires GapFree(reader.env, nodeId, es)
    requires k + 1 < |lines| && Strip(raw) != [] && Parse(reader, raw) == Event(forged)
    requires tampered == lines[k := raw]
    requires LineAlerts(reader, tampered, k) == [] && LineAlerts(reader, tampered, k + 1) == []
    ensures es[k + 1].previousEventHash == ComputeEventHash(reader.env, forged)
  {
    hide Run, Parse, Strip, RecordAlerts, Accepts, ComputeEventHash, GapFree;
    var front, next := lines[..k], lines[k + 1];
    assert tampered[..k] == front && tampered[..k + 1] == front + [raw] && tampered[k + 1] == next;
    PrefixAccepted(reader, lines, k);
    QuietPair(reader, front, raw, forged, next, es[k + 1]);
    LinkHash(reader.env, nodeId, es, k);
    PairChains(reader, nodeId, front, es[..k], raw, forged, next, es[k + 1]);
  }
}
