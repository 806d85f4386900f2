/** What "fully verified" means for evidence of any length.  Past 1,000,000 records of
    a node the stream reader stops tracking and says so, but under a code the archive
    does not look for. */
module ArchiveTrust {
  import opened Json
  import opened PyText
  import opened Models
  import opened KeyRegistry
  import opened Verifier
  import opened Collector
  import opened StreamTheorems
  import opened TamperTheorems
  import opened Archive
  import opened ArchiveTheorems

  // ---- a chain of any length ----------------------------------------------------------

  function Tracked(n: nat): nat {
    if n <= MAX_TRACKED_HASHES then n else MAX_TRACKED_HASHES
  }

  // Numbered and linked from the genesis; no record claims the hash of one before it
  // among the first 1,000,000.
  ghost predicate LongChain(env: Env, nodeId: string, es: seq<SignedEvent>) {
    && InSequence(es)
    && (forall i :: 0 <= i < |es| ==> es[i].previousEventHash == ExpectedPrevious(env, nodeId, es, i))
    && (forall i, j :: 0 <= i < j < |es| && i < MAX_TRACKED_HASHES ==> es[i].eventHash != es[j].eventHash)
  }

  lemma LongExtends(env: Env, nodeId: string, es: seq<SignedEvent>, e: SignedEvent)
    requires LongChain(env, nodeId, es)
    ensures LongChain(env, nodeId, es + [e]) <==>
      && e.sequence == |es| + 1
      && e.previousEventHash == ExpectedPrevious(env, nodeId, es, |es|)
      && forall i :: 0 <= i < Tracked(|es|) ==> es[i].eventHash != e.eventHash
  {
    hide ExpectedPrevious;
    var more := es + [e];
    forall i | 0 <= i <= |es| ensures ExpectedPrevious(env, nodeId, more, i) == ExpectedPrevious(env, nodeId, es, i) {
      PreviousKept(env, nodeId, es, e, i);
    }
    assert forall i :: 0 <= i < |es| ==> more[i] == es[i];
    assert more[|es|] == e;
  }

  lemma LongPrefix(env: Env, nodeId: string, es: seq<SignedEvent>, e: SignedEvent)
    requires LongChain(env, nodeId, es + [e])
    ensures LongChain(env, nodeId, es)
  {
    hide ExpectedPrevious;
    var more := es + [e];
    assert forall i :: 0 <= i < |es| ==> more[i] == es[i];
    forall i | 0 <= i < |es| ensures ExpectedPrevious(env, nodeId, es, i) == ExpectedPrevious(env, nodeId, more, i) {
      PreviousKept(env, nodeId, es, e, i);
    }
  }

  // Within the limit it is the chain the stream reader asks for.
  lemma ShortIsGapFree(env: Env, nodeId: string, es: seq<SignedEvent>)
    ensures GapFree(env, nodeId, es) <==> LongChain(env, nodeId, es) && |es| <= MAX_TRACKED_HASHES
  {
    hide ExpectedPrevious;
  }

  // ---- the cursor such a chain leaves -----------------------------------------------------

  function LongTrack(env: Env, es: seq<SignedEvent>): Track {
    var kept := es[..Tracked(|es|)];
    Track(|es|, LastHash(env, es), HashesBySequence(kept), set e | e in kept :: e.eventHash, |es| > MAX_TRACKED_HASHES)
  }

  lemma KeptHashes(env: Env, nodeId: string, es: seq<SignedEvent>)
    requires LongChain(env, nodeId, es)
    ensures |LongTrack(env, es).seenHashes| == Tracked(|es|)
  {
    hide ExpectedPrevious, LastHash;
    HashCount(es[..Tracked(|es|)]);
  }

  lemma {:induction false} LongCursor(env: Env, nodeId: string, es: seq<SignedEvent>)
    requires LongChain(env, nodeId, es)
    ensures TrackAfter(env, es) == LongTrack(env, es)
  {
    hide LongChain, Follow, LongTrack;
    if es == [] {
      EmptyTrack(env);
    } else {
      var front, e := es[..|es| - 1], es[|es| - 1];
      assert es == front + [e];
      LongPrefix(env, nodeId, front, e);
      LongCursor(env, nodeId, front);
      LongFollows(env, nodeId, front, e);
    }
  }

  lemma EmptyTrack(env: Env)
    ensures LongTrack(env, []) == FRESH
  {
    assert (set e: SignedEvent | e in [] :: e.eventHash) == {};
  }

  lemma LongFollows(env: Env, nodeId: string, es: seq<SignedEvent>, e: SignedEvent)
    requires LongChain(env, nodeId, es) && LongChain(env, nodeId, es + [e])
    ensures Follow(env, LongTrack(env, es), e) == LongTrack(env, es + [e])
  {
    hide ComputeEventHash, ExpectedPrevious;
    KeptHashes(env, nodeId, es);
    var more := es + [e];
    assert more[|es|] == e;
    if |es| < MAX_TRACKED_HASHES {
      assert es[..Tracked(|es|)] == es && more[..Tracked(|more|)] == more && more[..|es|] == es;
      HashSetExtends(es, e);
    } else {
      assert more[..Tracked(|more|)] == es[..Tracked(|es|)];
    }
  }

  // ---- what the archive looks at ------------------------------------------------------------

  predicate Uncovered(alerts: seq<Alert>) {
    forall a :: a in alerts ==> a !in COVERED
  }

  lemma ChainUncovered(env: Env, e: SignedEvent, lastSequence: nat, lastHash: Option<string>)
    ensures Uncovered(ChainAlerts(env, e, lastSequence, lastHash)) <==> ChainAlerts(env, e, lastSequence, lastHash) == []
  {
    hide GenesisPreviousHash;
    var alerts := ChainAlerts(env, e, lastSequence, lastHash);
    assert forall a :: a in alerts ==> a in CHAIN_ALERTS;
    if alerts != [] {
      assert alerts[0] in alerts;
    }
  }

  lemma NoteUncovered(t: Track, e: SignedEvent)
    ensures Uncovered(NoteAlerts(t, e)) <==> SeenAlerts(t, e) == []
  {
    var seen := SeenAlerts(t, e);
    assert forall a :: a in seen ==> a in CHAIN_ALERTS;
    if seen != [] {
      assert seen[0] in NoteAlerts(t, e);
    }
  }

  lemma LongSeen(env: Env, es: seq<SignedEvent>, e: SignedEvent)
    requires e.sequence == |es| + 1
    ensures SeenAlerts(LongTrack(env, es), e) == []
      <==> forall i :: 0 <= i < Tracked(|es|) ==> es[i].eventHash != e.eventHash
  {
    hide LastHash;
    var kept, t := es[..Tracked(|es|)], LongTrack(env, es);
    assert e.sequence !in t.seenSequences;
    assert forall i :: 0 <= i < |kept| ==> kept[i] == es[i];
    assert e.eventHash in t.seenHashes <==> exists i :: 0 <= i < |kept| && kept[i].eventHash == e.eventHash;
  }

  // At the end of a chain of any length, a record raises no code the archive looks for
  // exactly when it continues it.
  lemma LongDecides(env: Env, nodeId: string, es: seq<SignedEvent>, e: SignedEvent)
    requires LongChain(env, nodeId, es) && e.nodeId == nodeId && e.sequence >= 1
    ensures Uncovered(StreamAlerts(env, LongTrack(env, es), e)) <==> LongChain(env, nodeId, es + [e])
  {
    hide LongChain, ChainAlerts, SeenAlerts, NoteAlerts, ExpectedPrevious, LastHash, HashesBySequence;
    LongExtends(env, nodeId, es, e);
    LinkDecides(env, nodeId, es, e);
    var t := LongTrack(env, es);
    ChainUncovered(env, e, t.lastSequence, t.lastEventHash);
    NoteUncovered(t, e);
    var a, b := ChainAlerts(env, e, t.lastSequence, t.lastEventHash), NoteAlerts(t, e);
    assert forall x :: x in a + b <==> x in a || x in b;
    if e.sequence == |es| + 1 {
      LongSeen(env, es, e);
    }
  }

  lemma EventUncovered(reader: Reader, e: SignedEvent)
    requires Dated(reader) && reader.env.normalize(e.timestamp).Some?
    ensures Uncovered(EventAlerts(reader.env, reader.records, e)) <==> EventAlerts(reader.env, reader.records, e) == []
  {
    hide EventAlerts, Dated, COVERED;
    NeverMalformed(reader, e);
    var alerts := EventAlerts(reader.env, reader.records, e);
    forall a ensures a in COVERED <==> a != MalformedEvidence && a != OversizedEvidence {
      AllButTwo(a);
    }
    if alerts != [] {
      assert alerts[0] in alerts;
    }
  }

  lemma RecordUncovered(reader: Reader, tracks: map<string, Track>, raw: string, e: SignedEvent)
    requires Dated(reader) && Parse(reader, raw) == Event(e)
    ensures Uncovered(RecordAlerts(reader, tracks, e))
      <==> Sound(reader, raw) && Uncovered(StreamAlerts(reader.env, TrackOf(tracks, e.nodeId), e))
  {
    hide EventAlerts, StreamAlerts, Dated, COVERED, Parse;
    ParsedTime(reader, raw);
    EventUncovered(reader, e);
    var a, b := EventAlerts(reader.env, reader.records, e), StreamAlerts(reader.env, TrackOf(tracks, e.nodeId), e);
    assert forall x :: x in AddAll(a, b) <==> x in a || x in b;
  }

  // ---- one node's stream ---------------------------------------------------------------------

  lemma {:induction false} AllParsed(reader: Reader, texts: seq<string>)
    requires Stripped(texts)
    ensures var r := Run(reader, texts).report;
      && r.total == |texts|
      && (r.malformed == 0 <==> forall i :: 0 <= i < |texts| ==> Parse(reader, texts[i]).Event?)
    decreases |texts|
  {
    hide Strip, Step, RecordAlerts, Parse;
    if texts != [] {
      var front, raw := texts[..|texts| - 1], texts[|texts| - 1];
      AllParsed(reader, front);
      StepReports(reader, Run(reader, front), raw);
      assert forall i :: 0 <= i < |front| ==> front[i] == texts[i];
      KeysKept(reader, Run(reader, front), raw);
    }
  }

  lemma {:induction false} ParsedReads(reader: Reader, texts: seq<string>)
    requires Stripped(texts) && forall i :: 0 <= i < |texts| ==> Parse(reader, texts[i]).Event?
    ensures Reads(reader, texts, Events(reader, texts))
  {
    hide Strip, Parse;
    if texts != [] {
      var front, raw := texts[..|texts| - 1], texts[|texts| - 1];
      assert texts == front + [raw];
      ParsedReads(reader, front);
      EventsAppend(reader, front, raw);
    }
  }

  // No code the archive looks for has been counted.
  predicate Unflagged(r: Report) {
    COVERED * r.alertCounts.Keys == {}
  }

  lemma StepFlags(reader: Reader, s: State, raw: string, e: SignedEvent)
    requires Strip(raw) != [] && Parse(reader, raw) == Event(e)
    ensures Unflagged(Step(reader, s, raw).report)
      <==> Unflagged(s.report) && Uncovered(RecordAlerts(reader, s.tracks, e))
  {
    hide Parse, Strip, Step, RecordAlerts, COVERED;
    StepReports(reader, s, raw);
    var alerts, before, after := RecordAlerts(reader, s.tracks, e), s.report.alertCounts.Keys,
        Step(reader, s, raw).report.alertCounts.Keys;
    forall a ensures a in after <==> a in before || a in alerts {
    }
    if Unflagged(Step(reader, s, raw).report) {
      forall a | a in alerts ensures a !in COVERED {
        assert a in COVERED ==> a in COVERED * after;
      }
      assert forall a :: a in COVERED * before ==> a in COVERED * after;
    }
    if Unflagged(s.report) && Uncovered(alerts) {
      forall a | a in COVERED ensures a !in after {
        assert a in before ==> a in COVERED * before;
      }
    }
  }

  lemma {:induction false} LongVerdict(reader: Reader, nodeId: string, texts: seq<string>, es: seq<SignedEvent>)
    requires Dated(reader) && Reads(reader, texts, es) && OfNode(nodeId, es)
    ensures Unflagged(Run(reader, texts).report) <==> AllSound(reader, texts) && LongChain(reader.env, nodeId, es)
    decreases |texts|
  {
    hide Dated, Parse, Strip, Step, RecordAlerts, StreamAlerts, LongChain, LongTrack, Unflagged, Sound;
    if texts == [] {
      NothingFlagged(reader, nodeId);
    } else {
      var n := |texts| - 1;
      var front, raw, fs, e := texts[..n], texts[n], es[..n], es[n];
      assert texts == front + [raw] && es == fs + [e];
      LongVerdict(reader, nodeId, front, fs);
      StepFlags(reader, Run(reader, front), raw, e);
      RecordUncovered(reader, Run(reader, front).tracks, raw, e);
      if Unflagged(Run(reader, front).report) {
        OneNodeCursor(reader, nodeId, front, fs);
        LongCursor(reader.env, nodeId, fs);
        PositiveSequence(reader, raw);
        LongDecides(reader.env, nodeId, fs, e);
      }
      if LongChain(reader.env, nodeId, es) {
        LongPrefix(reader.env, nodeId, fs, e);
      }
      SoundSplits(reader, front, raw);
    }
  }

  lemma NothingFlagged(reader: Reader, nodeId: string)
    ensures Unflagged(Run(reader, []).report) && AllSound(reader, []) && LongChain(reader.env, nodeId, [])
  {
  }

  lemma SoundSplits(reader: Reader, front: seq<string>, raw: string)
    requires Strip(raw) != []
    ensures AllSound(reader, front + [raw]) <==> AllSound(reader, front) && Sound(reader, raw)
  {
    hide Strip, Sound;
    var all := front + [raw];
    assert all[|front|] == raw && forall i :: 0 <= i < |front| ==> all[i] == front[i];
  }

  // ---- the theorem ---------------------------------------------------------------------------

  // The evidence is one chain of the manifest's node, every record of it sound, and the
  // manifest gives its ends, its length and the hash its last record really has.
  ghost predicate DescribedLong(reader: Reader, m: Manifest, texts: seq<string>) {
    && texts != [] && AllSound(reader, texts)
    && var es := Events(reader, texts);
       && |es| == |texts| && OfNode(m.nodeId, es) && LongChain(reader.env, m.nodeId, es)
       && m == Manifest(m.nodeId, 1, |es|, |es|, ComputeEventHash(reader.env, es[|es| - 1]))
  }

  lemma LongIdentity(reader: Reader, m: Manifest, texts: seq<string>, es: seq<SignedEvent>)
    requires Reads(reader, texts, es) && Stripped(texts) && texts != [] && AllSound(reader, texts)
    requires es == Events(reader, texts) && OfNode(m.nodeId, es) && LongChain(reader.env, m.nodeId, es)
    ensures Describes(m, Summarised(texts)) && Summarised(texts).nodes == {m.nodeId} <==> DescribedLong(reader, m, texts)
  {
    hide Parse, Strip, Summarised, ComputeEventHash, ExpectedPrevious, Events, AllSound;
    CleanSummary(reader, texts, es);
    HashesTrue(reader, texts, es, |es| - 1);
    OneNodeSet(m.nodeId, es);
  }

  lemma SummaryNodes(reader: Reader, m: Manifest, texts: seq<string>, es: seq<SignedEvent>)
    requires Reads(reader, texts, es) && Stripped(texts) && texts != []
    ensures Summarised(texts).nodes == {m.nodeId} <==> OfNode(m.nodeId, es)
  {
    hide Parse, Strip, Summarised, OfNode;
    CleanSummary(reader, texts, es);
    OneNodeSet(m.nodeId, es);
  }

  lemma JudgedParts(m: Manifest, s: Summary, r: Report)
    ensures FullyVerified(Judged(m, s, r))
      <==> r.malformed == 0 && r.total > 0 && Unflagged(r) && Describes(m, s) && s.nodes == {m.nodeId}
  {
    hide Describes, SIGNATURE_ALERTS, CHAIN_ALERTS;
    var keys := r.alertCounts.Keys;
    assert COVERED * keys == (SIGNATURE_ALERTS * keys) + (CHAIN_ALERTS * keys);
  }

  // With a validated registry, "fully verified" means neither more nor less than that,
  // for evidence of any length.
  lemma FullTrust(reader: Reader, m: Manifest, lines: seq<string>)
    requires Dated(reader)
    ensures FullyVerified(TrustOf(reader, m, lines)) <==> DescribedLong(reader, m, Texts(lines))
  {
    hide Dated, Run, Describes, Summarised, DescribedLong, Texts, Judged, Unflagged, FullyVerified, Parse, Stripped, Events,
      AllSound, LongChain, OfNode;
    var texts := Texts(lines);
    TextsStripped(lines);
    AllParsed(reader, texts);
    JudgedParts(m, Summarised(texts), Run(reader, texts).report);
    if texts != [] && forall i :: 0 <= i < |texts| ==> Parse(reader, texts[i]).Event? {
      ParsedReads(reader, texts);
      var es := Events(reader, texts);
      SummaryNodes(reader, m, texts, es);
      LongNeeds(reader, m, texts);
      if OfNode(m.nodeId, es) {
        LongVerdict(reader, m.nodeId, texts, es);
        if AllSound(reader, texts) && LongChain(reader.env, m.nodeId, es) {
          LongIdentity(reader, m, texts, es);
        }
      }
    } else {
      LongParsed(reader, m, texts);
    }
  }

  lemma LongNeeds(reader: Reader, m: Manifest, texts: seq<string>)
    ensures DescribedLong(reader, m, texts) ==>
      AllSound(reader, texts) && OfNode(m.nodeId, Events(reader, texts))
      && LongChain(reader.env, m.nodeId, Events(reader, texts))
  {
    hide AllSound, Events, LongChain;
  }

  lemma LongParsed(reader: Reader, m: Manifest, texts: seq<string>)
    requires Stripped(texts)
    ensures DescribedLong(reader, m, texts) ==>
      texts != [] && forall i :: 0 <= i < |texts| ==> Parse(reader, texts[i]).Event?
  {
    hide Parse, Strip, EventAlerts, LongChain, Events;
    if DescribedLong(reader, m, texts) {
      forall i | 0 <= i < |texts| ensures Parse(reader, texts[i]).Event? {
        assert Sound(reader, texts[i]);
      }
    }
  }

  // A fully verified archive's evidence is one the stream reader itself calls valid
  // exactly when it holds at most 1,000,000 records.
  lemma VerdictApart(reader: Reader, m: Manifest, lines: seq<string>)
    requires Dated(reader) && FullyVerified(TrustOf(reader, m, lines))
    ensures Accepts(reader, Texts(lines)) <==> |Texts(lines)| <= MAX_TRACKED_HASHES
  {
    hide Dated, Texts, TrustOf, FullyVerified, Events, AllSound, LongChain, Accepts, GapFree, Of;
    FullTrust(reader, m, lines);
    var texts := Texts(lines);
    var es := Events(reader, texts);
    ExactAcceptance(reader, texts);
    OfOneNode(m.nodeId, es);
    ShortIsGapFree(reader.env, m.nodeId, es);
    if |texts| <= MAX_TRACKED_HASHES {
      forall n ensures GapFree(reader.env, n, Of(n, es)) {
        if n != m.nodeId {
          NoneOfOther(m.nodeId, n, es);
          NothingGapFree(reader.env, n);
        }
      }
    } else {
      assert Accepts(reader, texts) ==> GapFree(reader.env, m.nodeId, Of(m.nodeId, es));
    }
  }

  lemma {:induction false} NoneOfOther(nodeId: string, n: string, es: seq<SignedEvent>)
    requires OfNode(nodeId, es) && n != nodeId
    ensures Of(n, es) == []
  {
    if es != [] {
      NoneOfOther(nodeId, n, es[..|es| - 1]);
    }
  }

  lemma NothingGapFree(env: Env, nodeId: string)
    ensures GapFree(env, nodeId, [])
  {
  }

  // The reader says once, at the first record after the 1,000,000th, that it no longer
  // tracks them all.
  lemma ExhaustedOnce(env: Env, nodeId: string, es: seq<SignedEvent>, e: SignedEvent)
    requires LongChain(env, nodeId, es)
    ensures MalformedEvidence in StreamAlerts(env, TrackAfter(env, es), e) <==> |es| == MAX_TRACKED_HASHES
  {
    hide LongChain, LastHash, HashesBySequence, GenesisPreviousHash;
    LongCursor(env, nodeId, es);
    KeptHashes(env, nodeId, es);
    var t := LongTrack(env, es);
    assert MalformedEvidence !in ChainAlerts(env, e, t.lastSequence, t.lastEventHash);
    assert MalformedEvidence !in SeenAlerts(t, e);
  }
}
