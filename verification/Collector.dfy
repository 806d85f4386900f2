/** Verifying a stream of records: one mutable cursor per node, and the fold over
    the lines that the loop computes. */
module Collector {
  import opened Json
  import opened PyText
  import opened Models
  import opened KeyRegistry
  import opened Verifier

  const MAX_TRACKED_HASHES := 1_000_000

  // ---- specification -------------------------------------------------------------------

  // What a reader is set up with.
  datatype Reader = Reader(env: Env, records: seq<KeyRecord>, maxRecordBytes: nat, maxResults: nat)

  // One node's cursor and what has been seen of it.
  datatype Track = Track(lastSequence: nat, lastEventHash: Option<string>, seenSequences: map<int, string>,
                         seenHashes: set<string>, exhausted: bool)

  const FRESH := Track(0, None, map[], {}, false)

  datatype Report = Report(valid: bool, total: nat, verified: nat, failed: nat, malformed: nat,
                           alertCounts: map<Alert, nat>, results: seq<seq<Alert>>, truncated: bool)

  const EMPTY := Report(true, 0, 0, 0, 0, map[], [], false)

  datatype State = State(tracks: map<string, Track>, report: Report)

  function SeenAlerts(t: Track, e: SignedEvent): seq<Alert> {
    if e.sequence in t.seenSequences then
      if t.seenSequences[e.sequence] == e.eventHash then [ReplayedEvent] else [DuplicateSequence]
    else if e.eventHash in t.seenHashes then [ReplayedEvent]
    else []
  }

  function NoteAlerts(t: Track, e: SignedEvent): seq<Alert> {
    SeenAlerts(t, e)
    + (if |t.seenHashes| >= MAX_TRACKED_HASHES && !t.exhausted then [MalformedEvidence] else [])
  }

  function Noted(t: Track, e: SignedEvent): Track {
    if |t.seenHashes| < MAX_TRACKED_HASHES then
      t.(seenSequences := t.seenSequences[e.sequence := e.eventHash], seenHashes := t.seenHashes + {e.eventHash})
    else t.(exhausted := true)
  }

  function Advanced(env: Env, t: Track, e: SignedEvent): Track {
    if e.sequence == t.lastSequence + 1 then
      t.(lastSequence := e.sequence, lastEventHash := Some(ComputeEventHash(env, e)))
    else t
  }

  // A cursor after one more record of its node, and the errors it adds to it.
  function Follow(env: Env, t: Track, e: SignedEvent): Track {
    Advanced(env, Noted(t, e), e)
  }

  function StreamAlerts(env: Env, t: Track, e: SignedEvent): seq<Alert> {
    ChainAlerts(env, e, t.lastSequence, t.lastEventHash) + NoteAlerts(t, e)
  }

  function Counted(counts: map<Alert, nat>, alerts: seq<Alert>): map<Alert, nat>
    decreases |alerts|
  {
    if alerts == [] then counts
    else
      var a := alerts[0];
      Counted(counts[a := (if a in counts then counts[a] else 0) + 1], alerts[1..])
  }

  function Recorded(r: Report, maxResults: nat, alerts: seq<Alert>): Report {
    var counted := r.(alertCounts := Counted(r.alertCounts, alerts));
    if |r.results| < maxResults then counted.(results := r.results + [alerts]) else counted.(truncated := true)
  }

  function RejectedReport(r: Report, maxResults: nat, alerts: seq<Alert>): Report {
    Recorded(r.(malformed := r.malformed + 1, failed := r.failed + 1, valid := false), maxResults, alerts)
  }

  function JudgedReport(r: Report, maxResults: nat, alerts: seq<Alert>): Report {
    Recorded(if alerts == [] then r.(verified := r.verified + 1) else r.(failed := r.failed + 1, valid := false),
             maxResults, alerts)
  }

  datatype Parsed = Unparsed(alerts: seq<Alert>) | Event(event: SignedEvent)

  // What one stripped, nonblank line is.
  function ParseLine(reader: Reader, text: string): Parsed {
    if |text| > reader.maxRecordBytes then Unparsed([OversizedEvidence])
    else match ParseSignedEventJson(reader.env, text, reader.maxRecordBytes)
         case Err(reason) => Unparsed([ReasonAlert(reason)])
         case Ok(e) => Event(e)
  }

  function TrackOf(tracks: map<string, Track>, nodeId: string): Track {
    if nodeId in tracks then tracks[nodeId] else FRESH
  }

  // Every error reported of a record read at this point of the stream.
  function RecordAlerts(reader: Reader, tracks: map<string, Track>, e: SignedEvent): seq<Alert> {
    AddAll(EventAlerts(reader.env, reader.records, e), StreamAlerts(reader.env, TrackOf(tracks, e.nodeId), e))
  }

  function StepText(reader: Reader, s: State, text: string): State {
    var r := s.report.(total := s.report.total + 1);
    match ParseLine(reader, text)
    case Unparsed(alerts) =>
      s.(report := RejectedReport(r, reader.maxResults, alerts))
    case Event(e) =>
      State(s.tracks[e.nodeId := Follow(reader.env, TrackOf(s.tracks, e.nodeId), e)],
            JudgedReport(r, reader.maxResults, RecordAlerts(reader, s.tracks, e)))
  }

  function Step(reader: Reader, s: State, raw: string): State {
    var text := Strip(raw);
    if text == [] then s else StepText(reader, s, text)
  }

  function Run(reader: Reader, lines: seq<string>): State {
    if lines == [] then State(map[], EMPTY)
    else Step(reader, Run(reader, lines[..|lines| - 1]), lines[|lines| - 1])
  }

  predicate Accepts(reader: Reader, lines: seq<string>) {
    Run(reader, lines).report.valid
  }

  // ---- the objects ------------------------------------------------------------------------

  class NodeTracker {
    const position: ChainPosition
    var seenSequences: map<int, string>
    var seenHashes: set<string>
    var trackingExhausted: bool

    constructor (nodeId: string)
      ensures fresh(position) && position.nodeId == nodeId && Value() == FRESH
    {
      position := new ChainPosition(nodeId);
      seenSequences := map[];
      seenHashes := {};
      trackingExhausted := false;
    }

    ghost function Value(): Track
      reads this, position
    {
      Track(position.lastSequence, position.lastEventHash, seenSequences, seenHashes, trackingExhausted)
    }

    method Note(e: SignedEvent) returns (alerts: seq<Alert>)
      modifies this
      ensures alerts == NoteAlerts(old(Value()), e) && Value() == Noted(old(Value()), e)
    {
      alerts := [];
      if e.sequence in seenSequences {
        if seenSequences[e.sequence] == e.eventHash {
          alerts := alerts + [ReplayedEvent];
        } else {
          alerts := alerts + [DuplicateSequence];
        }
      } else if e.eventHash in seenHashes {
        alerts := alerts + [ReplayedEvent];
      }
      if |seenHashes| < MAX_TRACKED_HASHES {
        seenSequences := seenSequences[e.sequence := e.eventHash];
        seenHashes := seenHashes + {e.eventHash};
      } else if !trackingExhausted {
        trackingExhausted := true;
        alerts := alerts + [MalformedEvidence];
      }
    }
  }

  class StreamReport {
    var valid: bool
    var total: nat
    var verified: nat
    var failed: nat
    var malformed: nat
    var alertCounts: map<Alert, nat>
    var results: seq<seq<Alert>>
    var truncated: bool

    constructor ()
      ensures Value() == EMPTY
    {
      valid, total, verified, failed, malformed := true, 0, 0, 0, 0;
      alertCounts, results, truncated := map[], [], false;
    }

    ghost function Value(): Report
      reads this
    {
      Report(valid, total, verified, failed, malformed, alertCounts, results, truncated)
    }
  }

  class EvidenceCollector {
    const verifier: EvidenceVerifier
    const maxResults: nat
    const maxRecordBytes: nat

    constructor (env: Env, registry: Registry, maxResults: nat, maxRecordBytes: nat)
      ensures fresh(verifier) && verifier.env == env && verifier.registry == registry
      ensures this.maxResults == maxResults && this.maxRecordBytes == maxRecordBytes
      ensures Ready()
    {
      verifier := new EvidenceVerifier(env, registry, maxRecordBytes);
      this.maxResults := maxResults;
      this.maxRecordBytes := maxRecordBytes;
    }

    // The limit is pushed into the verifier, which is what parses.
    ghost predicate Ready()
      reads verifier
    {
      verifier.maxRecordBytes == maxRecordBytes
    }

    ghost function Setup(): Reader
      reads verifier.registry
    {
      Reader(verifier.env, verifier.registry.records, maxRecordBytes, maxResults)
    }

    method Record(report: StreamReport, result: VerificationResult)
      modifies report
      ensures report.Value() == Recorded(old(report.Value()), maxResults, result.errors)
    {
      var i := 0;
      while i < |result.errors|
        invariant 0 <= i <= |result.errors|
        invariant Counted(report.alertCounts, result.errors[i..]) == Counted(old(report.alertCounts), result.errors)
        invariant report.Value() == old(report.Value()).(alertCounts := report.alertCounts)
      {
        var a := result.errors[i];
        report.alertCounts := report.alertCounts[a := (if a in report.alertCounts then report.alertCounts[a] else 0) + 1];
        i := i + 1;
      }
      if |report.results| < maxResults {
        report.results := report.results + [result.errors];
      } else {
        report.truncated := true;
      }
    }

    // The trackers live in `repr`, each its own node's, and hold what the fold says.
    ghost predicate Tracks(trackers: map<string, NodeTracker>, tracks: map<string, Track>, repr: set<object>)
      reads repr
    {
      && trackers.Keys == tracks.Keys
      && forall n :: n in trackers ==>
           && trackers[n] in repr && trackers[n].position in repr
           && trackers[n].position.nodeId == n && trackers[n].Value() == tracks[n]
    }

    // A line that is no record.
    method Reject(report: StreamReport, result: VerificationResult)
      modifies report
      ensures report.Value() == RejectedReport(old(report.Value()), maxResults, result.errors)
    {
      report.malformed, report.failed, report.valid := report.malformed + 1, report.failed + 1, false;
      Record(report, result);
    }

    // One parsed record: chain linkage, replay detection, then the cursor moves on.
    method Follows(e: SignedEvent, tracker: NodeTracker, result: VerificationResult)
      requires e.sequence >= 0
      modifies tracker, tracker.position, result
      ensures result.errors == AddAll(old(result.errors), StreamAlerts(verifier.env, old(tracker.Value()), e))
      ensures result.valid == (old(result.valid) && StreamAlerts(verifier.env, old(tracker.Value()), e) == [])
      ensures tracker.Value() == Follow(verifier.env, old(tracker.Value()), e)
    {
      ghost var t := tracker.Value();
      verifier.CheckChain(e, tracker.position, result);
      var alerts := tracker.Note(e);
      result.AddErrors(alerts);
      AddAllConcat(old(result.errors), ChainAlerts(verifier.env, e, t.lastSequence, t.lastEventHash), alerts);
      if e.sequence == tracker.position.NextSequence() {
        tracker.position.Advance(e, ComputeEventHash(verifier.env, e));
      }
    }

    // A record, once every check on it has been made.
    method Judge(report: StreamReport, result: VerificationResult)
      requires result.valid == (result.errors == [])
      modifies report
      ensures report.Value() == JudgedReport(old(report.Value()), maxResults, result.errors)
    {
      if result.valid {
        report.verified := report.verified + 1;
      } else {
        report.failed, report.valid := report.failed + 1, false;
      }
      Record(report, result);
    }

    // A parsed record: its node's tracker, made at the first sight of the node.
    method TrackerFor(nodeId: string, trackers: map<string, NodeTracker>, ghost tracks: map<string, Track>,
                      ghost repr: set<object>)
      returns (after: map<string, NodeTracker>, ghost repr': set<object>)
      requires Tracks(trackers, tracks, repr)
      ensures nodeId in after && Tracks(after, tracks[nodeId := TrackOf(tracks, nodeId)], repr')
      ensures repr <= repr' && fresh(repr' - repr)
    {
      if nodeId in trackers {
        assert tracks[nodeId := tracks[nodeId]] == tracks;
        return trackers, repr;
      }
      var tracker := new NodeTracker(nodeId);
      return trackers[nodeId := tracker], repr + {tracker, tracker.position};
    }

    method VerifyRecord(e: SignedEvent, result: VerificationResult, trackers: map<string, NodeTracker>,
                        ghost tracks: map<string, Track>, ghost repr: set<object>)
      returns (after: map<string, NodeTracker>, ghost repr': set<object>)
      requires Tracks(trackers, tracks, repr) && e.sequence >= 0 && result !in repr
      modifies result, repr
      ensures Tracks(after, tracks[e.nodeId := Follow(verifier.env, TrackOf(tracks, e.nodeId), e)], repr')
      ensures result.errors == AddAll(old(result.errors), StreamAlerts(verifier.env, TrackOf(tracks, e.nodeId), e))
      ensures result.valid == (old(result.valid) && StreamAlerts(verifier.env, TrackOf(tracks, e.nodeId), e) == [])
      ensures repr <= repr' && fresh(repr' - repr)
    {
      hide Follow, StreamAlerts;
      after, repr' := TrackerFor(e.nodeId, trackers, tracks, repr);
      Follows(e, after[e.nodeId], result);
    }

    // A line on its own: the length check comes before any parsing.
    method ReadText(text: string) returns (result: VerificationResult, event: Option<SignedEvent>)
      requires Ready()
      ensures fresh(result)
      ensures match ParseLine(Setup(), text)
              case Unparsed(alerts) => event == None && result.errors == alerts
              case Event(e) => (event == Some(e) && e.sequence >= 1
                                && result.errors == EventAlerts(verifier.env, verifier.registry.records, e)
                                && result.valid == (result.errors == []))
    {
      if |text| > maxRecordBytes {
        result := new VerificationResult(false);
        result.AddError(OversizedEvidence);
        assert result.errors == [OversizedEvidence];
        event := None;
      } else {
        result, event := verifier.VerifyLine(text);
        if event.Some? {
          ParsedSequence(Setup(), text);
        }
      }
    }

    // One nonblank line of the stream.
    method VerifyText(text: string, trackers: map<string, NodeTracker>, report: StreamReport, ghost s: State,
                      ghost repr: set<object>)
      returns (after: map<string, NodeTracker>, ghost repr': set<object>)
      requires Ready() && Tracks(trackers, s.tracks, repr) && report.Value() == s.report
      requires report !in repr && verifier !in repr && verifier.registry !in repr
      modifies report, repr
      ensures Tracks(after, StepText(Setup(), s, text).tracks, repr')
      ensures report.Value() == StepText(Setup(), s, text).report
      ensures repr <= repr' && fresh(repr' - repr)
    {
      hide ParseLine, Follow, EventAlerts, StreamAlerts, Tracks, TrackOf, JudgedReport, RejectedReport;
      report.total := report.total + 1;
      var result, event := ReadText(text);
      if event.None? {
        after, repr' := trackers, repr;
        Reject(report, result);
      } else {
        after, repr' := VerifyRecord(event.value, result, trackers, s.tracks, repr);
        Judge(report, result);
      }
    }

    method VerifyStream(lines: seq<string>) returns (report: StreamReport)
      requires Ready()
      ensures report.Value() == Run(Setup(), lines).report
    {
      hide StepText;
      ghost var reader := Setup();
      report := new StreamReport();
      var trackers: map<string, NodeTracker> := map[];
      ghost var repr: set<object> := {};
      var i := 0;
      while i < |lines|
        invariant 0 <= i <= |lines|
        invariant fresh(report) && fresh(repr) && report !in repr
        invariant Tracks(trackers, Run(reader, lines[..i]).tracks, repr)
        invariant report.Value() == Run(reader, lines[..i]).report
      {
        assert lines[..i + 1][..i] == lines[..i];
        var text := Strip(lines[i]);
        if text != [] {
          trackers, repr := VerifyText(text, trackers, report, Run(reader, lines[..i]), repr);
        }
        i := i + 1;
      }
      assert lines[..|lines|] == lines;
    }
  }

  lemma ParsedSequence(reader: Reader, text: string)
    requires ParseLine(reader, text).Event?
    ensures ParseLine(reader, text).event.sequence >= 1
  {
  }
}
