/** The facts of a trust report one by one: what each says of the evidence, whatever
    the others say. */
module ArchiveFacts {
  import opened Json
  import opened PyText
  import opened Models
  import opened KeyRegistry
  import opened Verifier
  import opened Collector
  import opened StreamTheorems
  import opened TamperTheorems
  import opened Archive
  import opened ArchiveTheorems
  import opened ArchiveTrust
  import opened SignatureRules
  import ReportTheorems

  function CodesOf(reader: Reader, lines: seq<string>): seq<seq<Alert>> {
    ReportTheorems.Codes(reader, Archive.Texts(lines))
  }

  ghost predicate Raised(codes: seq<seq<Alert>>, a: Alert) {
    exists i :: 0 <= i < |codes| && a in codes[i]
  }

  lemma RaisedCounts(codes: seq<seq<Alert>>, a: Alert)
    ensures ReportTheorems.Raising(codes, a) > 0 <==> Raised(codes, a)
    decreases |codes|
  {
    if codes != [] {
      var front := codes[..|codes| - 1];
      RaisedCounts(front, a);
      assert forall i :: 0 <= i < |front| ==> front[i] == codes[i];
    }
  }

  lemma {:induction false} StrippedTexts(texts: seq<string>)
    requires Stripped(texts)
    ensures ReportTheorems.Texts(texts) == texts
  {
    hide Strip;
    if texts != [] {
      StrippedTexts(texts[..|texts| - 1]);
    }
  }

  lemma KeysRaised(reader: Reader, lines: seq<string>, a: Alert)
    ensures a in Run(reader, Archive.Texts(lines)).report.alertCounts.Keys <==> Raised(CodesOf(reader, lines), a)
  {
    hide Run, Raised, ReportTheorems.Raising, ReportTheorems.Codes;
    ReportTheorems.ReportTells(reader, Archive.Texts(lines));
    RaisedCounts(CodesOf(reader, lines), a);
  }

  // Each fact is about its own codes and no other's.
  lemma FactsSeparate(reader: Reader, m: Manifest, lines: seq<string>)
    ensures var t, codes, texts := TrustOf(reader, m, lines), CodesOf(reader, lines), Archive.Texts(lines);
      && (t.evidenceFormatValid <==> texts != [] && forall i :: 0 <= i < |texts| ==> Parse(reader, texts[i]).Event?)
      && (t.evidenceSignaturesVerified <==>
            && !Raised(codes, InvalidSignature) && !Raised(codes, UnknownKey) && !Raised(codes, UnknownNode)
            && !Raised(codes, RevokedKey) && !Raised(codes, ExpiredKey) && !Raised(codes, UnsupportedAlgorithm))
      && (t.evidenceChainVerified <==>
            && !Raised(codes, SequenceGap) && !Raised(codes, PreviousHashMismatch) && !Raised(codes, DuplicateSequence)
            && !Raised(codes, ReplayedEvent) && !Raised(codes, ChainReset) && !Raised(codes, EventHashMismatch))
  {
    hide Run, Parse, Raised, ReportTheorems.Codes, Summarised, Describes, Stripped;
    var texts := Archive.Texts(lines);
    TextsStripped(lines);
    AllParsed(reader, texts);
    forall a ensures a in Run(reader, texts).report.alertCounts.Keys <==> Raised(CodesOf(reader, lines), a) {
      KeysRaised(reader, lines, a);
    }
    var keys := Run(reader, texts).report.alertCounts.Keys;
    Disjoint(SIGNATURE_ALERTS, keys);
    Disjoint(CHAIN_ALERTS, keys);
  }

  lemma Disjoint(a: set<Alert>, b: set<Alert>)
    ensures a * b == {} <==> forall x :: x in a ==> x !in b
  {
    if forall x :: x in a ==> x !in b {
      assert a * b == {};
    } else {
      var x :| x in a && x in b;
      assert x in a * b;
    }
  }

  // ---- of records that all can be read -------------------------------------------------------

  lemma {:induction false} CodesAt(reader: Reader, texts: seq<string>, es: seq<SignedEvent>, i: nat)
    requires Reads(reader, texts, es) && i < |texts|
    ensures |ReportTheorems.Codes(reader, texts)| == |texts|
    ensures ReportTheorems.Codes(reader, texts)[i] == LineAlerts(reader, texts, i)
    decreases |texts|
  {
    hide Strip, Parse, RecordAlerts, Run;
    var n := |texts| - 1;
    if n > 0 {
      CodesAt(reader, texts[..n], es[..n], if i < n then i else 0);
    }
    if i < n {
      assert texts[..n][..i] == texts[..i];
    }
  }

  // No code but those of the chain comes of reading a stream.
  lemma StreamKinds(env: Env, t: Track, e: SignedEvent)
    ensures forall a :: a in StreamAlerts(env, t, e) ==> a in CHAIN_ALERTS || a == MalformedEvidence
    ensures EventHashMismatch !in StreamAlerts(env, t, e)
  {
    hide ComputeEventHash, GenesisPreviousHash;
  }

  predicate SignatureQuiet(alerts: seq<Alert>) {
    forall a :: a in alerts ==> a !in SIGNATURE_ALERTS
  }

  predicate ChainQuiet(alerts: seq<Alert>) {
    forall a :: a in alerts ==> a !in CHAIN_ALERTS
  }

  // The signature of a record that a registered and trusted key made.
  predicate Signed(reader: Reader, e: SignedEvent) {
    var r, key := Find(reader.records, e.keyId), PublicKeyOf(reader, e.keyId);
    && r.Some? && Trusted(reader.env, r.value, e.nodeId, e.timestamp, e.signatureAlgorithm)
    && key.Some? && reader.env.verify(key.value, SigningPayload(e), e.signatureBytes, e.signatureAlgorithm)
  }

  lemma KeyQuiet(reader: Reader, e: SignedEvent)
    requires Dated(reader) && reader.env.normalize(e.timestamp).Some?
    ensures SignatureQuiet(KeyAlerts(reader.env, reader.records, e)) <==> KeyAlerts(reader.env, reader.records, e) == []
  {
    hide CheckUsable, Dated;
    KeyNeverMalformed(reader, e);
    KeyAlertsKinds(reader.env, reader.records, e);
    var alerts := KeyAlerts(reader.env, reader.records, e);
    if alerts != [] {
      assert alerts[0] in alerts;
    }
  }

  lemma SignatureOf(reader: Reader, tracks: map<string, Track>, raw: string, e: SignedEvent)
    requires Dated(reader) && Parse(reader, raw) == Event(e)
    ensures SignatureQuiet(RecordAlerts(reader, tracks, e)) <==> Signed(reader, e)
    ensures ChainQuiet(RecordAlerts(reader, tracks, e))
      <==> ComputeEventHash(reader.env, e) == e.eventHash
           && ChainQuiet(StreamAlerts(reader.env, TrackOf(tracks, e.nodeId), e))
  {
    hide Dated, StreamAlerts, CheckUsable, Parse, Find, Trusted, SigningPayload, ComputeEventHash, SIGNATURE_ALERTS, CHAIN_ALERTS;
    ParsedTime(reader, raw);
    KeyQuiet(reader, e);
    UsableMeans(reader.env, reader.records, e.keyId, e.nodeId, e.timestamp, e.signatureAlgorithm);
    EventParts(reader.env, reader.records, e);
    StreamKinds(reader.env, TrackOf(tracks, e.nodeId), e);
    KeyAlertsKinds(reader.env, reader.records, e);
    CodeSets();
    hide KeyAlerts, KeyAlert;
    var s := StreamAlerts(reader.env, TrackOf(tracks, e.nodeId), e);
    assert forall x :: x in RecordAlerts(reader, tracks, e) <==> x in EventAlerts(reader.env, reader.records, e) || x in s;
    KeyKinds(reader, e);
  }

  lemma KeyKinds(reader: Reader, e: SignedEvent)
    ensures forall x :: x in KeyAlerts(reader.env, reader.records, e) ==> x !in CHAIN_ALERTS
  {
    hide CheckUsable;
    KeyAlertsKinds(reader.env, reader.records, e);
  }

  lemma CodeSets()
    ensures InvalidSignature in SIGNATURE_ALERTS && InvalidSignature !in CHAIN_ALERTS
    ensures EventHashMismatch in CHAIN_ALERTS && EventHashMismatch !in SIGNATURE_ALERTS
    ensures forall a :: a in CHAIN_ALERTS ==> a !in SIGNATURE_ALERTS
    ensures MalformedEvidence !in SIGNATURE_ALERTS && MalformedEvidence !in CHAIN_ALERTS
  {
  }

  lemma QuietEach(reader: Reader, texts: seq<string>, es: seq<SignedEvent>)
    requires Dated(reader) && Reads(reader, texts, es)
    ensures var codes := ReportTheorems.Codes(reader, texts);
      |codes| == |es| && forall i :: 0 <= i < |es| ==> (SignatureQuiet(codes[i]) <==> Signed(reader, es[i]))
  {
    hide Dated, Reads, Signed, LineAlerts, Run, ReportTheorems.Codes, SignatureQuiet;
    ReadsParts(reader, texts, es);
    var codes := ReportTheorems.Codes(reader, texts);
    if texts == [] {
      NoCodes(reader);
    } else {
      CodesAt(reader, texts, es, 0);
    }
    forall i | 0 <= i < |es| ensures SignatureQuiet(codes[i]) <==> Signed(reader, es[i]) {
      CodesAt(reader, texts, es, i);
      LineOf(reader, texts, es, i);
      SignatureOf(reader, Run(reader, texts[..i]).tracks, texts[i], es[i]);
    }
  }

  lemma NoneRaised(codes: seq<seq<Alert>>)
    ensures (forall i :: 0 <= i < |codes| ==> SignatureQuiet(codes[i]))
      <==> && !Raised(codes, InvalidSignature) && !Raised(codes, UnknownKey) && !Raised(codes, UnknownNode)
           && !Raised(codes, RevokedKey) && !Raised(codes, ExpiredKey) && !Raised(codes, UnsupportedAlgorithm)
  {
  }

  // With a validated registry, the signature fact says that every record was signed by a
  // registered key, trusted for it and at its time; nothing else enters into it.
  lemma SignaturesMean(reader: Reader, m: Manifest, lines: seq<string>, es: seq<SignedEvent>)
    requires Dated(reader) && Reads(reader, Archive.Texts(lines), es)
    ensures TrustOf(reader, m, lines).evidenceSignaturesVerified <==> forall i :: 0 <= i < |es| ==> Signed(reader, es[i])
  {
    hide Dated, Reads, Signed, Run, ReportTheorems.Codes, Raised, SignatureQuiet, TrustOf, Archive.Texts;
    FactsSeparate(reader, m, lines);
    QuietEach(reader, Archive.Texts(lines), es);
    NoneRaised(CodesOf(reader, lines));
  }

  lemma ReadsParts(reader: Reader, texts: seq<string>, es: seq<SignedEvent>)
    requires Reads(reader, texts, es)
    ensures |texts| == |es| && forall i :: 0 <= i < |es| ==> Parse(reader, texts[i]) == Event(es[i])
  {
    hide Parse, Strip;
  }

  lemma NoCodes(reader: Reader)
    ensures ReportTheorems.Codes(reader, []) == []
  {
  }

  lemma LineOf(reader: Reader, texts: seq<string>, es: seq<SignedEvent>, i: nat)
    requires Reads(reader, texts, es) && i < |es|
    ensures LineAlerts(reader, texts, i) == RecordAlerts(reader, Run(reader, texts[..i]).tracks, es[i])
  {
    hide Parse, Strip, Run, RecordAlerts;
  }

  // ---- the chain fact ----------------------------------------------------------------------------

  lemma ChainQuietMeans(env: Env, nodeId: string, es: seq<SignedEvent>, e: SignedEvent)
    requires LongChain(env, nodeId, es) && e.nodeId == nodeId && e.sequence >= 1
    ensures ChainQuiet(StreamAlerts(env, LongTrack(env, es), e)) <==> LongChain(env, nodeId, es + [e])
  {
    hide LongChain, LongTrack, StreamAlerts;
    LongDecides(env, nodeId, es, e);
    StreamKinds(env, LongTrack(env, es), e);
  }

  lemma LastQuiet(reader: Reader, nodeId: string, texts: seq<string>, es: seq<SignedEvent>, n: nat)
    requires Dated(reader) && Reads(reader, texts, es) && OfNode(nodeId, es) && n < |es|
    requires LongChain(reader.env, nodeId, es[..n])
    ensures ChainQuiet(LineAlerts(reader, texts, n))
      <==> ComputeEventHash(reader.env, es[n]) == es[n].eventHash && LongChain(reader.env, nodeId, es[..n + 1])
  {
    hide Dated, Parse, Strip, Run, RecordAlerts, StreamAlerts, LongChain, LongTrack, ComputeEventHash, ChainQuiet, LineAlerts;
    assert es[..n + 1] == es[..n] + [es[n]];
    LineOf(reader, texts, es, n);
    SignatureOf(reader, Run(reader, texts[..n]).tracks, texts[n], es[n]);
    OneNodeCursor(reader, nodeId, texts[..n], es[..n]);
    LongCursor(reader.env, nodeId, es[..n]);
    PositiveSequence(reader, texts[n]);
    ChainQuietMeans(reader.env, nodeId, es[..n], es[n]);
  }

  // Of one node's records: the chain fact says that every record has the hash it claims
  // and that they are one chain from the genesis; keys and signatures do not enter into it.
  lemma {:induction false} ChainVerdict(reader: Reader, nodeId: string, texts: seq<string>, es: seq<SignedEvent>, n: nat)
    requires Dated(reader) && Reads(reader, texts, es) && OfNode(nodeId, es) && n <= |es|
    ensures (forall i :: 0 <= i < n ==> ChainQuiet(LineAlerts(reader, texts, i)))
      <==> (forall i :: 0 <= i < n ==> ComputeEventHash(reader.env, es[i]) == es[i].eventHash)
           && LongChain(reader.env, nodeId, es[..n])
  {
    hide Dated, Parse, Strip, LineAlerts, LongChain, ComputeEventHash, ChainQuiet, OfNode;
    if n == 0 {
      NothingFlagged(reader, nodeId);
      assert es[..0] == [];
    } else {
      ChainVerdict(reader, nodeId, texts, es, n - 1);
      assert es[..n] == es[..n - 1] + [es[n - 1]];
      if LongChain(reader.env, nodeId, es[..n]) {
        LongPrefix(reader.env, nodeId, es[..n - 1], es[n - 1]);
      }
      if LongChain(reader.env, nodeId, es[..n - 1]) {
        LastQuiet(reader, nodeId, texts, es, n - 1);
      }
    }
  }

  lemma ChainMeans(reader: Reader, m: Manifest, lines: seq<string>, nodeId: string, es: seq<SignedEvent>)
    requires Dated(reader) && Reads(reader, Archive.Texts(lines), es) && OfNode(nodeId, es)
    ensures TrustOf(reader, m, lines).evidenceChainVerified
      <==> (forall i :: 0 <= i < |es| ==> ComputeEventHash(reader.env, es[i]) == es[i].eventHash)
           && LongChain(reader.env, nodeId, es)
  {
    hide Dated, Reads, LineAlerts, Run, ReportTheorems.Codes, Summarised, Describes, Archive.Texts, LongChain, ComputeEventHash,
      OfNode;
    var texts := Archive.Texts(lines);
    var codes := CodesOf(reader, lines);
    FactsSeparate(reader, m, lines);
    ReadsParts(reader, texts, es);
    if texts != [] {
      CodesAt(reader, texts, es, 0);
    } else {
      NoCodes(reader);
    }
    forall i | 0 <= i < |es| ensures codes[i] == LineAlerts(reader, texts, i) {
      CodesAt(reader, texts, es, i);
    }
    ChainVerdict(reader, nodeId, texts, es, |es|);
    assert es[..|es|] == es;
  }
}
