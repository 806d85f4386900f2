/** An archive of at most 1,000,000 records is reported fully verified exactly when the
    stream reader accepts its evidence, which is one chain of the node in its manifest,
    and the manifest describes that chain. */
module ArchiveTheorems {
  import opened Json
  import opened JsonParser
  import opened PyText
  import opened Models
  import opened KeyRegistry
  import opened Verifier
  import opened Collector
  import opened StreamTheorems
  import opened TamperTheorems
  import opened Archive

  // ---- the lines ------------------------------------------------------------------------

  predicate Stripped(texts: seq<string>) {
    forall i :: 0 <= i < |texts| ==> texts[i] != [] && Strip(texts[i]) == texts[i]
  }

  lemma StripTwice(s: string)
    ensures Strip(Strip(s)) == Strip(s)
  {
    var r := Strip(s);
    if r != [] {
      assert StripLeft(s)[0] == r[0];
      StripNothing(r);
    }
  }

  lemma {:induction false} TextsStripped(lines: seq<string>)
    ensures Stripped(Texts(lines))
  {
    hide Strip;
    if lines != [] {
      TextsStripped(lines[..|lines| - 1]);
      StripTwice(lines[|lines| - 1]);
    }
  }

  lemma {:induction false} SoundReads(reader: Reader, texts: seq<string>)
    requires AllSound(reader, texts) && Stripped(texts)
    ensures Reads(reader, texts, Events(reader, texts))
  {
    hide Strip, Parse, EventAlerts;
    if texts != [] {
      var front, raw := texts[..|texts| - 1], texts[|texts| - 1];
      assert texts == front + [raw];
      SoundReads(reader, front);
      assert Sound(reader, raw);
      EventsAppend(reader, front, raw);
    }
  }

  // ---- every fault is counted under a code the report looks at --------------------------------

  ghost predicate Dated(reader: Reader) {
    forall r | r in reader.records :: ValidRecord(reader.env, r)
  }

  lemma FindMember(records: seq<KeyRecord>, keyId: string)
    ensures Find(records, keyId).Some? ==> Find(records, keyId).value in records
  {
  }

  lemma ParsedTime(reader: Reader, raw: string)
    requires Parse(reader, raw).Event?
    ensures var e := Parse(reader, raw).event; reader.env.normalize(e.timestamp) == Some(e.timestamp)
  {
  }

  lemma TimeReadable(env: Env, r: KeyRecord, at: string)
    requires ValidRecord(env, r) && env.normalize(at).Some?
    ensures MalformedEvidence !in TimeProblems(env, r, at) && OversizedEvidence !in TimeProblems(env, r, at)
  {
  }

  lemma KeyNeverMalformed(reader: Reader, e: SignedEvent)
    requires Dated(reader) && reader.env.normalize(e.timestamp).Some?
    ensures MalformedEvidence !in KeyAlerts(reader.env, reader.records, e)
    ensures OversizedEvidence !in KeyAlerts(reader.env, reader.records, e)
  {
    hide TimeProblems, ValidRecord, Find, KnownNode;
    var found := Find(reader.records, e.keyId);
    FindMember(reader.records, e.keyId);
    if found.Some? {
      TimeReadable(reader.env, found.value, e.timestamp);
    }
  }

  lemma NeverMalformed(reader: Reader, e: SignedEvent)
    requires Dated(reader) && reader.env.normalize(e.timestamp).Some?
    ensures MalformedEvidence !in EventAlerts(reader.env, reader.records, e)
    ensures OversizedEvidence !in EventAlerts(reader.env, reader.records, e)
  {
    hide ComputeEventHash, KeyAlerts, Find, SigningPayload, Dated;
    KeyNeverMalformed(reader, e);
  }

  const COVERED := SIGNATURE_ALERTS + CHAIN_ALERTS

  lemma AllButTwo(a: Alert)
    ensures a in COVERED <==> a != MalformedEvidence && a != OversizedEvidence
  {
  }

  lemma StreamNeverMalformed(env: Env, t: Track, e: SignedEvent)
    requires |t.seenHashes| < MAX_TRACKED_HASHES
    ensures MalformedEvidence !in StreamAlerts(env, t, e) && OversizedEvidence !in StreamAlerts(env, t, e)
  {
    hide ComputeEventHash, GenesisPreviousHash;
  }

  // What a record is reported for, if anything, is a code of the two sets.
  lemma RecordCovered(reader: Reader, tracks: map<string, Track>, raw: string)
    requires Dated(reader) && Parse(reader, raw).Event?
    requires |TrackOf(tracks, Parse(reader, raw).event.nodeId).seenHashes| < MAX_TRACKED_HASHES
    ensures forall a :: a in RecordAlerts(reader, tracks, Parse(reader, raw).event) ==> a in COVERED
  {
    hide EventAlerts, StreamAlerts, Parse, COVERED;
    var e := Parse(reader, raw).event;
    ParsedTime(reader, raw);
    NeverMalformed(reader, e);
    StreamNeverMalformed(reader.env, TrackOf(tracks, e.nodeId), e);
    forall a ensures a in COVERED <==> a != MalformedEvidence && a != OversizedEvidence {
      AllButTwo(a);
    }
  }

  lemma {:induction false} CountedKeys(counts: map<Alert, nat>, alerts: seq<Alert>)
    ensures Counted(counts, alerts).Keys == counts.Keys + (set a | a in alerts)
    decreases |alerts|
  {
    if alerts != [] {
      var more := counts[alerts[0] := (if alerts[0] in counts then counts[alerts[0]] else 0) + 1];
      CountedKeys(more, alerts[1..]);
      assert forall a :: a in alerts <==> a == alerts[0] || a in alerts[1..];
    }
  }

  lemma SeenGrows(env: Env, t: Track, e: SignedEvent)
    ensures |Follow(env, t, e).seenHashes| <= |t.seenHashes| + 1
  {
    hide ComputeEventHash;
  }

  lemma {:induction false} SeenBound(reader: Reader, lines: seq<string>, n: string)
    ensures |TrackOf(Run(reader, lines).tracks, n).seenHashes| <= |lines|
    decreases |lines|
  {
    hide Strip, ParseLine, Follow, Counted, RecordAlerts;
    if lines != [] {
      var front := lines[..|lines| - 1];
      SeenBound(reader, front, n);
      var text := Strip(lines[|lines| - 1]);
      if text != [] && ParseLine(reader, text).Event? {
        var e := ParseLine(reader, text).event;
        SeenGrows(reader.env, TrackOf(Run(reader, front).tracks, e.nodeId), e);
      }
    }
  }

  // The report's faults, as the trust report sees them.
  predicate Faulty(r: Report) {
    r.malformed > 0 || COVERED * r.alertCounts.Keys != {}
  }

  predicate Spotless(r: Report, n: nat) {
    r.malformed == 0 && r.alertCounts == map[] && r.total == n
  }

  // One line's part in the report.
  lemma StepReports(reader: Reader, s: State, raw: string)
    requires Strip(raw) != []
    ensures var r := Step(reader, s, raw).report;
      && r.total == s.report.total + 1
      && (!Parse(reader, raw).Event? ==> r.malformed > 0 && !r.valid)
      && (Parse(reader, raw).Event? ==>
            var alerts := RecordAlerts(reader, s.tracks, Parse(reader, raw).event);
            && r.malformed == s.report.malformed && r.valid == (s.report.valid && alerts == [])
            && r.alertCounts.Keys == s.report.alertCounts.Keys + (set a | a in alerts)
            && (alerts == [] ==> r.alertCounts == s.report.alertCounts))
  {
    hide ParseLine, RecordAlerts, Follow;
    if Parse(reader, raw).Event? {
      CountedKeys(s.report.alertCounts, RecordAlerts(reader, s.tracks, Parse(reader, raw).event));
    }
  }

  lemma KeysKept(reader: Reader, s: State, raw: string)
    ensures s.report.alertCounts.Keys <= Step(reader, s, raw).report.alertCounts.Keys
    ensures s.report.malformed <= Step(reader, s, raw).report.malformed
  {
    hide ParseLine, RecordAlerts, Follow, Strip;
    var text := Strip(raw);
    if text != [] {
      match ParseLine(reader, text)
      case Unparsed(alerts) => CountedKeys(s.report.alertCounts, alerts);
      case Event(e) => CountedKeys(s.report.alertCounts, RecordAlerts(reader, s.tracks, e));
    }
  }

  // A stream is reported valid exactly when the two sets and the malformed count say so.
  lemma {:induction false} VerdictShows(reader: Reader, texts: seq<string>)
    requires Dated(reader) && Stripped(texts) && |texts| <= MAX_TRACKED_HASHES
    ensures var r := Run(reader, texts).report;
      && (r.valid ==> Spotless(r, |texts|))
      && (!r.valid ==> Faulty(r))
      && r.total == |texts|
    decreases |texts|
  {
    hide Dated, Strip, Step, COVERED, RecordAlerts, Parse;
    if texts != [] {
      var front, raw := texts[..|texts| - 1], texts[|texts| - 1];
      var s := Run(reader, front);
      VerdictShows(reader, front);
      StepReports(reader, s, raw);
      KeysKept(reader, s, raw);
      if Parse(reader, raw).Event? {
        var e := Parse(reader, raw).event;
        SeenBound(reader, front, e.nodeId);
        RecordCovered(reader, s.tracks, raw);
        FaultsStay(s.report, Step(reader, s, raw).report, RecordAlerts(reader, s.tracks, e));
      }
    }
  }

  lemma FaultsStay(before: Report, after: Report, alerts: seq<Alert>)
    requires after.malformed == before.malformed
    requires after.alertCounts.Keys == before.alertCounts.Keys + (set a | a in alerts)
    requires forall a :: a in alerts ==> a in COVERED
    ensures Faulty(before) || alerts != [] ==> Faulty(after)
  {
    if alerts != [] {
      assert alerts[0] in COVERED * after.alertCounts.Keys;
    } else if COVERED * before.alertCounts.Keys != {} {
      var a :| a in COVERED * before.alertCounts.Keys;
      assert a in COVERED * after.alertCounts.Keys;
    }
  }

  lemma FaultsSplit(r: Report)
    ensures Faulty(r) <==>
      !(r.malformed == 0 && SIGNATURE_ALERTS * r.alertCounts.Keys == {} && CHAIN_ALERTS * r.alertCounts.Keys == {})
  {
    var keys := r.alertCounts.Keys;
    assert COVERED * keys == (SIGNATURE_ALERTS * keys) + (CHAIN_ALERTS * keys);
  }

  // ---- the summary of a clean chain ------------------------------------------------------------------

  lemma ParsedFields(reader: Reader, text: string)
    requires text != [] && Strip(text) == text && Parse(reader, text).Event?
    ensures var e := Parse(reader, text).event;
      && ParseDocument(text).Some? && ParseDocument(text).value.Obj?
      && var d := ParseDocument(text).value.fields;
         && Get(d, "sequence") == Int(e.sequence) && Get(d, "event_hash") == Str(e.eventHash)
         && Get(d, "node_id") == Str(e.nodeId)
  {
    hide ParseDocument, Get, Strip, ValidateHead, Check, CanonicalText, NoDuplicates, ValidateEvent, ValidHash, ValidIdentifier;
  }

  lemma CleanNote(reader: Reader, s: Summary, text: string)
    requires text != [] && Strip(text) == text && Parse(reader, text).Event?
    ensures var e := Parse(reader, text).event;
      NoteText(s, text) == Summary(Smaller(s.first, e.sequence), Larger(s.last, e.sequence), s.count + 1, e.eventHash,
                                   s.nodes + {e.nodeId})
  {
    hide Parse, Strip, ParseDocument, Get;
    ParsedFields(reader, text);
  }

  lemma {:induction false} CleanSummary(reader: Reader, texts: seq<string>, es: seq<SignedEvent>)
    requires Reads(reader, texts, es) && Stripped(texts)
    ensures var s := Summarised(texts);
      && s.count == |es| && s.nodes == (set e | e in es :: e.nodeId)
      && s.finalHash == (if es == [] then "" else es[|es| - 1].eventHash)
      && (es == [] ==> s.first.None? && s.last.None?)
      && (InSequence(es) && es != [] ==> s.first == Some(1) && s.last == Some(|es|))
  {
    hide Parse, Strip, NoteText;
    if texts != [] {
      var front, fs, e := texts[..|texts| - 1], es[..|es| - 1], es[|es| - 1];
      CleanSummary(reader, front, fs);
      CleanNote(reader, Summarised(front), texts[|texts| - 1]);
      assert es == fs + [e];
      assert (set x | x in es :: x.nodeId) == (set x | x in fs :: x.nodeId) + {e.nodeId};
    }
  }

  // ---- the theorem -------------------------------------------------------------------------------------

  // The evidence is one gap-free chain of the manifest's node, and the manifest
  // gives its ends, its length and the hash its last record really has.
  ghost predicate DescribedChain(reader: Reader, m: Manifest, texts: seq<string>) {
    && texts != [] && Accepts(reader, texts)
    && var es := Events(reader, texts);
       && |es| == |texts| && OfNode(m.nodeId, es) && GapFree(reader.env, m.nodeId, es)
       && m == Manifest(m.nodeId, 1, |es|, |es|, ComputeEventHash(reader.env, es[|es| - 1]))
  }

  lemma OfNothing(nodeId: string)
    ensures Of(nodeId, []) == []
  {
  }

  lemma {:induction false} OfOneNode(nodeId: string, es: seq<SignedEvent>)
    requires OfNode(nodeId, es)
    ensures Of(nodeId, es) == es
  {
    hide Of;
    if es == [] {
      OfNothing(nodeId);
    } else {
      var n := |es| - 1;
      OfOneNode(nodeId, es[..n]);
      OfAppend(nodeId, es[..n], es[n]);
      assert es == es[..n] + [es[n]];
    }
  }

  lemma HashesTrue(reader: Reader, texts: seq<string>, es: seq<SignedEvent>, i: nat)
    requires Reads(reader, texts, es) && AllSound(reader, texts) && i < |es|
    ensures es[i].eventHash == ComputeEventHash(reader.env, es[i])
  {
    hide Parse, Strip;
    assert Sound(reader, texts[i]);
    EventAlertsKinds(reader.env, reader.records, es[i]);
  }

  lemma OneNodeSet(nodeId: string, es: seq<SignedEvent>)
    requires es != []
    ensures (set e | e in es :: e.nodeId) == {nodeId} <==> OfNode(nodeId, es)
  {
    var nodes := set e | e in es :: e.nodeId;
    assert es[0] in es && es[0].nodeId in nodes;
    if nodes == {nodeId} {
      forall i | 0 <= i < |es| ensures es[i].nodeId == nodeId {
        assert es[i] in es && es[i].nodeId in nodes;
      }
    }
  }

  lemma AcceptedIdentity(reader: Reader, m: Manifest, texts: seq<string>)
    requires Stripped(texts) && texts != [] && Accepts(reader, texts)
    ensures Describes(m, Summarised(texts)) && Summarised(texts).nodes == {m.nodeId} <==> DescribedChain(reader, m, texts)
  {
    hide Accepts, Parse, Strip, Summarised, ComputeEventHash, GapFree, ExpectedPrevious, Of, Events, AllSound;
    var es := Events(reader, texts);
    ExactAcceptance(reader, texts);
    SoundReads(reader, texts);
    CleanSummary(reader, texts, es);
    HashesTrue(reader, texts, es, |es| - 1);
    OneNodeSet(m.nodeId, es);
    if OfNode(m.nodeId, es) {
      OfOneNode(m.nodeId, es);
      assert GapFree(reader.env, m.nodeId, Of(m.nodeId, es));
      GapFreeInSequence(reader.env, m.nodeId, es);
    }
  }

  lemma GapFreeInSequence(env: Env, nodeId: string, es: seq<SignedEvent>)
    requires GapFree(env, nodeId, es)
    ensures InSequence(es)
  {
  }

  // With at most 1,000,000 records and a validated registry, "fully verified" means
  // neither more nor less than that.
  lemma ShortTrust(reader: Reader, m: Manifest, lines: seq<string>)
    requires Dated(reader) && |Texts(lines)| <= MAX_TRACKED_HASHES
    ensures FullyVerified(TrustOf(reader, m, lines)) <==> DescribedChain(reader, m, Texts(lines))
  {
    hide Dated, Run, Describes, Summarised, DescribedChain, COVERED, SIGNATURE_ALERTS, CHAIN_ALERTS, Texts;
    var texts := Texts(lines);
    TextsStripped(lines);
    VerdictShows(reader, texts);
    FaultsSplit(Run(reader, texts).report);
    if texts != [] && Accepts(reader, texts) {
      AcceptedIdentity(reader, m, texts);
    } else {
      NotDescribed(reader, m, texts);
    }
  }

  lemma NotDescribed(reader: Reader, m: Manifest, texts: seq<string>)
    requires texts == [] || !Accepts(reader, texts)
    ensures !DescribedChain(reader, m, texts)
  {
  }

  // ---- the summary of any records -------------------------------------------------------------

  ghost predicate Least(n: int, es: seq<SignedEvent>) {
    (exists i :: 0 <= i < |es| && es[i].sequence == n) && forall i :: 0 <= i < |es| ==> n <= es[i].sequence
  }

  ghost predicate Greatest(n: int, es: seq<SignedEvent>) {
    (exists i :: 0 <= i < |es| && es[i].sequence == n) && forall i :: 0 <= i < |es| ==> es[i].sequence <= n
  }

  lemma LeastStep(n: int, es: seq<SignedEvent>, e: SignedEvent)
    requires Least(n, es)
    ensures Least(Smaller(Some(n), e.sequence).value, es + [e])
  {
    var i :| 0 <= i < |es| && es[i].sequence == n;
    assert (es + [e])[i] == es[i] && (es + [e])[|es|] == e;
  }

  lemma GreatestStep(n: int, es: seq<SignedEvent>, e: SignedEvent)
    requires Greatest(n, es)
    ensures Greatest(Larger(Some(n), e.sequence).value, es + [e])
  {
    var i :| 0 <= i < |es| && es[i].sequence == n;
    assert (es + [e])[i] == es[i] && (es + [e])[|es|] == e;
  }

  lemma OnlyOne(e: SignedEvent)
    ensures Least(e.sequence, [e]) && Greatest(e.sequence, [e])
  {
    assert [e][0] == e;
  }

  // The first pass gives the least and the greatest number, how many records there are,
  // the hash the last of them claims, and the nodes that occur, in whatever order they come.
  lemma {:induction false} SummaryMeans(reader: Reader, texts: seq<string>, es: seq<SignedEvent>)
    requires Reads(reader, texts, es) && Stripped(texts) && es != []
    ensures var s := Summarised(texts);
      && s.count == |es| && s.nodes == (set e | e in es :: e.nodeId) && s.finalHash == es[|es| - 1].eventHash
      && s.first.Some? && Least(s.first.value, es) && s.last.Some? && Greatest(s.last.value, es)
  {
    hide Parse, Strip, NoteText, Least, Greatest;
    var n := |es| - 1;
    var front, fs, e := texts[..n], es[..n], es[n];
    CleanSummary(reader, texts, es);
    CleanNote(reader, Summarised(front), texts[n]);
    assert es == fs + [e];
    if n > 0 {
      SummaryMeans(reader, front, fs);
      LeastStep(Summarised(front).first.value, fs, e);
      GreatestStep(Summarised(front).last.value, fs, e);
    } else {
      assert Summarised([]) == NOTHING && front == [] && es == [e];
      OnlyOne(e);
    }
  }
}
