/** Where tampering shows in a stream of one node's records, and why tail
    truncation is the only rearrangement of a clean chain that does not show. */
module TamperTheorems {
  import opened Json
  import opened PyText
  import opened Models
  import opened KeyRegistry
  import opened Verifier
  import opened Collector
  import opened StreamTheorems

  // These lines are exactly these records, all of them well formed.
  predicate Reads(reader: Reader, lines: seq<string>, es: seq<SignedEvent>) {
    |lines| == |es| && forall i :: 0 <= i < |lines| ==> Strip(lines[i]) != [] && Parse(reader, lines[i]) == Event(es[i])
  }

  predicate OfNode(nodeId: string, es: seq<SignedEvent>) {
    forall i :: 0 <= i < |es| ==> es[i].nodeId == nodeId
  }

  // The errors the reader reports of line `i`.
  function LineAlerts(reader: Reader, lines: seq<string>, i: nat): seq<Alert>
    requires i < |lines| && Parse(reader, lines[i]).Event?
  {
    RecordAlerts(reader, Run(reader, lines[..i]).tracks, Parse(reader, lines[i]).event)
  }

  // ---- the cursor over any records of one node --------------------------------------------

  function TrackAfter(env: Env, es: seq<SignedEvent>): Track {
    if es == [] then FRESH else Follow(env, TrackAfter(env, es[..|es| - 1]), es[|es| - 1])
  }

  lemma CursorStep(reader: Reader, nodeId: string, lines: seq<string>, raw: string, es: seq<SignedEvent>, e: SignedEvent)
    requires Strip(raw) != [] && Parse(reader, raw) == Event(e) && e.nodeId == nodeId
    requires TrackOf(Run(reader, lines).tracks, nodeId) == TrackAfter(reader.env, es)
    ensures TrackOf(Run(reader, lines + [raw]).tracks, nodeId) == TrackAfter(reader.env, es + [e])
  {
    hide Parse, Follow, RecordAlerts, Run;
    NextVerdict(reader, lines, raw, e);
    assert (es + [e])[..|es|] == es;
  }

  lemma {:induction false} OneNodeCursor(reader: Reader, nodeId: string, lines: seq<string>, es: seq<SignedEvent>)
    requires Reads(reader, lines, es) && OfNode(nodeId, es)
    ensures TrackOf(Run(reader, lines).tracks, nodeId) == TrackAfter(reader.env, es)
  {
    hide Parse, Step, Follow, Strip;
    if lines != [] {
      var n := |lines| - 1;
      OneNodeCursor(reader, nodeId, lines[..n], es[..n]);
      hide Run, TrackAfter;
      CursorStep(reader, nodeId, lines[..n], lines[n], es[..n], es[n]);
      assert lines == lines[..n] + [lines[n]] && es == es[..n] + [es[n]];
    }
  }

  predicate InSequence(es: seq<SignedEvent>) {
    forall i :: 0 <= i < |es| ==> es[i].sequence == i + 1
  }

  lemma {:induction false} CursorInSequence(env: Env, es: seq<SignedEvent>)
    requires InSequence(es)
    ensures var t := TrackAfter(env, es);
      && t.lastSequence == |es| && t.lastEventHash == LastHash(env, es)
      && forall k :: k in t.seenSequences ==> 1 <= k <= |es|
  {
    hide ComputeEventHash;
    if es != [] {
      CursorInSequence(env, es[..|es| - 1]);
    }
  }

  // ---- which check raises which error --------------------------------------------------------

  predicate KeyAlert(a: Alert) {
    a == UnknownNode || a == UnknownKey || a == RevokedKey || a == ExpiredKey || a == UnsupportedAlgorithm
    || a == MalformedEvidence
  }

  lemma KeyAlertsKinds(env: Env, records: seq<KeyRecord>, e: SignedEvent)
    ensures forall a :: a in KeyAlerts(env, records, e) ==> KeyAlert(a)
  {
    hide Find, TimeOf, KnownNode;
  }

  lemma EventAlertsKinds(env: Env, records: seq<KeyRecord>, e: SignedEvent)
    ensures EventHashMismatch in EventAlerts(env, records, e) <==> ComputeEventHash(env, e) != e.eventHash
    ensures forall a :: a in EventAlerts(env, records, e) ==> a == EventHashMismatch || KeyAlert(a) || a == InvalidSignature
  {
    hide ComputeEventHash, KeyAlerts, Find, SigningPayload;
    KeyAlertsKinds(env, records, e);
  }

  // What a record at its own place in the sequence adds to the errors.
  lemma PlaceAlerts(env: Env, es: seq<SignedEvent>, e: SignedEvent)
    requires InSequence(es) && e.sequence == |es| + 1
    ensures var a := StreamAlerts(env, TrackAfter(env, es), e);
      && SequenceGap !in a && DuplicateSequence !in a && ChainReset !in a && EventHashMismatch !in a
      && (PreviousHashMismatch in a <==> e.previousEventHash != ExpectedPrevious(env, e.nodeId, es, |es|))
  {
    hide ComputeEventHash, GenesisPreviousHash, TrackAfter;
    CursorInSequence(env, es);
    var t := TrackAfter(env, es);
    assert e.sequence !in t.seenSequences;
  }

  lemma AlertsAt(reader: Reader, nodeId: string, lines: seq<string>, es: seq<SignedEvent>, i: nat)
    requires Reads(reader, lines, es) && OfNode(nodeId, es) && InSequence(es) && i < |es|
    ensures var a := LineAlerts(reader, lines, i);
      && SequenceGap !in a && DuplicateSequence !in a && ChainReset !in a
      && (EventHashMismatch in a <==> ComputeEventHash(reader.env, es[i]) != es[i].eventHash)
      && (PreviousHashMismatch in a <==> es[i].previousEventHash != ExpectedPrevious(reader.env, nodeId, es, i))
  {
    hide ComputeEventHash, ExpectedPrevious, Parse, Run, EventAlerts, StreamAlerts, TrackAfter;
    OneNodeCursor(reader, nodeId, lines[..i], es[..i]);
    EventAlertsKinds(reader.env, reader.records, es[i]);
    PlaceAlerts(reader.env, es[..i], es[i]);
    ExpectedPrefix(reader.env, nodeId, es, i);
  }

  lemma ExpectedPrefix(env: Env, nodeId: string, es: seq<SignedEvent>, i: nat)
    requires i <= |es|
    ensures ExpectedPrevious(env, nodeId, es[..i], i) == ExpectedPrevious(env, nodeId, es, i)
  {
    hide ComputeEventHash, GenesisPreviousHash;
  }

  // ---- clean single-node chains ----------------------------------------------------------------

  lemma {:induction false} EventsOfReads(reader: Reader, nodeId: string, lines: seq<string>, es: seq<SignedEvent>)
    requires Reads(reader, lines, es) && OfNode(nodeId, es)
    ensures Events(reader, lines) == es && Of(nodeId, es) == es
  {
    hide Parse, Strip;
    if lines != [] {
      var n := |lines| - 1;
      assert lines == lines[..n] + [lines[n]] && es == es[..n] + [es[n]];
      EventsOfReads(reader, nodeId, lines[..n], es[..n]);
      hide Events, Of;
      EventsAppend(reader, lines[..n], lines[n]);
      OfAppend(nodeId, es[..n], es[n]);
    }
  }

  lemma CleanChain(reader: Reader, nodeId: string, lines: seq<string>, es: seq<SignedEvent>)
    requires Reads(reader, lines, es) && OfNode(nodeId, es) && Accepts(reader, lines)
    ensures GapFree(reader.env, nodeId, es)
    ensures forall i :: 0 <= i < |es| ==> Sound(reader, lines[i]) && ComputeEventHash(reader.env, es[i]) == es[i].eventHash
  {
    hide Run, GapFree, Parse;
    ExactAcceptance(reader, lines);
    EventsOfReads(reader, nodeId, lines, es);
    assert GapFree(reader.env, nodeId, Of(nodeId, Events(reader, lines)));
    forall i | 0 <= i < |es| ensures Sound(reader, lines[i]) && ComputeEventHash(reader.env, es[i]) == es[i].eventHash {
      assert Strip(lines[i]) != [];
      EventAlertsKinds(reader.env, reader.records, es[i]);
    }
  }

  // The errors at line `i` of a chain whose record `k` was replaced by `forged`.
  predicate Localised(env: Env, es: seq<SignedEvent>, k: nat, forged: SignedEvent, i: nat, a: seq<Alert>)
    requires k < |es|
  {
    && SequenceGap !in a && DuplicateSequence !in a && ChainReset !in a
    && (EventHashMismatch in a <==> i == k && ComputeEventHash(env, forged) != forged.eventHash)
    && (PreviousHashMismatch in a <==>
          (i == k && forged.previousEventHash != es[k].previousEventHash)
          || (i == k + 1 && ComputeEventHash(env, forged) != ComputeEventHash(env, es[k])))
  }

  lemma ForgedPrevious(env: Env, nodeId: string, es: seq<SignedEvent>, k: nat, forged: SignedEvent, i: nat)
    requires GapFree(env, nodeId, es) && k < |es| && i < |es|
    ensures var fs := es[k := forged];
      fs[i].previousEventHash != ExpectedPrevious(env, nodeId, fs, i)
      <==> (i == k && forged.previousEventHash != es[k].previousEventHash)
           || (i == k + 1 && ComputeEventHash(env, forged) != ComputeEventHash(env, es[k]))
  {
    hide GapFree, ComputeEventHash, GenesisPreviousHash;
    LinkAt(env, nodeId, es, i);
    var fs := es[k := forged];
    if i == k {
      assert i > 0 ==> fs[i - 1] == es[i - 1];
    } else if i == k + 1 {
      assert fs[i - 1] == forged && fs[i] == es[i];
    } else {
      assert i > 0 ==> fs[i - 1] == es[i - 1];
      assert fs[i] == es[i];
    }
  }

  lemma LinkAt(env: Env, nodeId: string, es: seq<SignedEvent>, i: nat)
    requires GapFree(env, nodeId, es) && i < |es|
    ensures es[i].previousEventHash == ExpectedPrevious(env, nodeId, es, i)
  {
    hide ComputeEventHash, GenesisPreviousHash, ExpectedPrevious;
  }

  lemma LocalisedAt(reader: Reader, nodeId: string, lines: seq<string>, es: seq<SignedEvent>,
                    k: nat, forged: SignedEvent, i: nat)
    requires GapFree(reader.env, nodeId, es) && k < |es| && i < |es|
    requires forall j :: 0 <= j < |es| ==> ComputeEventHash(reader.env, es[j]) == es[j].eventHash
    requires forged.nodeId == nodeId && forged.sequence == es[k].sequence
    requires Reads(reader, lines, es[k := forged]) && OfNode(nodeId, es)
    ensures Localised(reader.env, es, k, forged, i, LineAlerts(reader, lines, i))
  {
    hide Run, Parse, LineAlerts, ComputeEventHash, ExpectedPrevious;
    AlertsAt(reader, nodeId, lines, es[k := forged], i);
    ForgedPrevious(reader.env, nodeId, es, k, forged, i);
  }

  lemma TamperedReads(reader: Reader, nodeId: string, lines: seq<string>, es: seq<SignedEvent>,
                      k: nat, raw: string, forged: SignedEvent)
    requires Reads(reader, lines, es) && OfNode(nodeId, es) && k < |lines| && forged.nodeId == nodeId
    requires Strip(raw) != [] && Parse(reader, raw) == Event(forged)
    ensures Reads(reader, lines[k := raw], es[k := forged]) && OfNode(nodeId, es[k := forged])
  {
    hide Parse, Strip;
  }

  // Replacing one record of a clean chain by any well-formed record for the same
  // node and sequence shows at that record and the next, and nowhere else; the
  // signature it carries makes no difference.
  lemma TamperLocalised(reader: Reader, nodeId: string, lines: seq<string>, es: seq<SignedEvent>,
                        k: nat, raw: string, forged: SignedEvent, tampered: seq<string>)
    requires Reads(reader, lines, es) && OfNode(nodeId, es) && Accepts(reader, lines)
    requires k < |lines| && Strip(raw) != [] && Parse(reader, raw) == Event(forged)
    requires forged.nodeId == nodeId && forged.sequence == es[k].sequence
    requires tampered == lines[k := raw]
    ensures Reads(reader, tampered, es[k := forged])
    ensures forall i :: 0 <= i < |lines| ==>
      Localised(reader.env, es, k, forged, i, LineAlerts(reader, tampered, i))
  {
    hide Run, Parse, LineAlerts, ComputeEventHash, GenesisPreviousHash, GapFree, Localised;
    CleanChain(reader, nodeId, lines, es);
    TamperedReads(reader, nodeId, lines, es, k, raw, forged);
    hide Reads, OfNode;
    forall i | 0 <= i < |lines|
      ensures Localised(reader.env, es, k, forged, i, LineAlerts(reader, tampered, i))
    {
      LocalisedAt(reader, nodeId, tampered, es, k, forged, i);
    }
  }

  lemma LastReported(reader: Reader, lines: seq<string>, raw: string, e: SignedEvent)
    requires Strip(raw) != [] && Parse(reader, raw) == Event(e)
    requires |Run(reader, lines).report.results| < reader.maxResults
    ensures Run(reader, lines + [raw]).report.results
         == Run(reader, lines).report.results + [RecordAlerts(reader, Run(reader, lines).tracks, e)]
  {
    hide ParseLine, RecordAlerts, Follow, Counted;
    assert (lines + [raw])[..|lines|] == lines;
  }

  // The report lists these errors line by line.
  lemma {:induction false} ReportedAlerts(reader: Reader, lines: seq<string>, es: seq<SignedEvent>)
    requires Reads(reader, lines, es) && |lines| <= reader.maxResults
    ensures |Run(reader, lines).report.results| == |lines|
    ensures forall i :: 0 <= i < |lines| ==> Run(reader, lines).report.results[i] == LineAlerts(reader, lines, i)
    decreases |lines|
  {
    hide Parse, RecordAlerts, Step;
    if lines != [] {
      var n := |lines| - 1;
      var front, raw := lines[..n], lines[n];
      assert front + [raw] == lines;
      ReportedAlerts(reader, front, es[..n]);
      LastReported(reader, front, raw, es[n]);
      forall i | 0 <= i < n ensures LineAlerts(reader, front, i) == LineAlerts(reader, lines, i) {
        assert front[..i] == lines[..i];
      }
    }
  }

  // ---- deletion, reordering, duplication, replay --------------------------------------------------

  ghost predicate DrawnFrom(stream: seq<string>, lines: seq<string>) {
    forall i :: 0 <= i < |stream| ==> stream[i] in lines
  }

  lemma DrawnReads(reader: Reader, nodeId: string, lines: seq<string>, es: seq<SignedEvent>, stream: seq<string>)
    returns (fs: seq<SignedEvent>)
    requires Reads(reader, lines, es) && OfNode(nodeId, es) && DrawnFrom(stream, lines)
    ensures Reads(reader, stream, fs) && OfNode(nodeId, fs)
  {
    hide Parse;
    fs := [];
    var i := 0;
    while i < |stream|
      invariant 0 <= i <= |stream| && Reads(reader, stream[..i], fs) && OfNode(nodeId, fs)
    {
      var j :| 0 <= j < |lines| && lines[j] == stream[i];
      fs := fs + [es[j]];
      i := i + 1;
    }
    assert stream[..|stream|] == stream;
  }

  // Two gap-free readings of the same text sit at the same place.
  lemma SamePlace(reader: Reader, lines: seq<string>, es: seq<SignedEvent>, stream: seq<string>, fs: seq<SignedEvent>,
                  i: nat)
    requires Reads(reader, lines, es) && Reads(reader, stream, fs) && DrawnFrom(stream, lines)
    requires InSequence(es) && InSequence(fs) && i < |stream|
    ensures i < |lines| && stream[i] == lines[i]
  {
    hide Parse;
    var j :| 0 <= j < |lines| && lines[j] == stream[i];
    assert Parse(reader, stream[i]) == Event(fs[i]) && Parse(reader, lines[j]) == Event(es[j]);
    assert fs[i].sequence == i + 1 && es[j].sequence == j + 1;
  }

  lemma DrawnInOrder(reader: Reader, nodeId: string, lines: seq<string>, es: seq<SignedEvent>, stream: seq<string>)
    requires Reads(reader, lines, es) && OfNode(nodeId, es) && Accepts(reader, lines)
    requires DrawnFrom(stream, lines) && Accepts(reader, stream)
    ensures stream <= lines
  {
    hide Reads, Accepts, Sound, ComputeEventHash, ExpectedPrevious;
    CleanChain(reader, nodeId, lines, es);
    var fs := DrawnReads(reader, nodeId, lines, es, stream);
    CleanChain(reader, nodeId, stream, fs);
    forall i | 0 <= i < |stream| ensures i < |lines| && stream[i] == lines[i] {
      SamePlace(reader, lines, es, stream, fs, i);
    }
    if stream != [] {
      SamePlace(reader, lines, es, stream, fs, |stream| - 1);
      assert stream == lines[..|stream|];
    }
  }

  // A stream drawn, with any repetition and in any order, from the lines of one
  // clean chain is accepted iff it is a prefix of that chain.
  lemma OnlyPrefixesAccepted(reader: Reader, nodeId: string, lines: seq<string>, es: seq<SignedEvent>, stream: seq<string>)
    requires Reads(reader, lines, es) && OfNode(nodeId, es) && Accepts(reader, lines)
    requires DrawnFrom(stream, lines)
    ensures Accepts(reader, stream) <==> stream <= lines
  {
    hide Run, Parse;
    if Accepts(reader, stream) {
      DrawnInOrder(reader, nodeId, lines, es, stream);
    }
    if stream <= lines {
      assert stream == lines[..|stream|];
      PrefixAccepted(reader, lines, |stream|);
    }
  }

  lemma {:induction false} PrefixAccepted(reader: Reader, lines: seq<string>, n: nat)
    requires Accepts(reader, lines) && n <= |lines|
    ensures Accepts(reader, lines[..n])
    decreases |lines| - n
  {
    hide Step;
    if n < |lines| {
      PrefixAccepted(reader, lines, n + 1);
      assert lines[..n + 1][..n] == lines[..n];
      VerdictStays(reader, Run(reader, lines[..n]), lines[n]);
    } else {
      assert lines[..n] == lines;
    }
  }
}
