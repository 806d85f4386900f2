/** What the stream reader accepts, exactly; where a tampered record shows; and why
    deletion, reordering, duplication and replay of a clean chain all show. */
module StreamTheorems {
  import opened Json
  import opened PyText
  import opened Models
  import opened KeyRegistry
  import opened Verifier
  import opened Collector

  // ---- streams and chains ----------------------------------------------------------------

  function Parse(reader: Reader, raw: string): Parsed {
    ParseLine(reader, Strip(raw))
  }

  // A line with no fault of its own: size, form, hash, key and signature all pass.
  predicate Sound(reader: Reader, raw: string) {
    Parse(reader, raw).Event? && EventAlerts(reader.env, reader.records, Parse(reader, raw).event) == []
  }

  predicate AllSound(reader: Reader, lines: seq<string>) {
    forall i :: 0 <= i < |lines| && Strip(lines[i]) != [] ==> Sound(reader, lines[i])
  }

  // The records of a stream, in order.
  function Events(reader: Reader, lines: seq<string>): seq<SignedEvent> {
    if lines == [] then []
    else
      var last := lines[|lines| - 1];
      Events(reader, lines[..|lines| - 1])
      + (if Strip(last) != [] && Parse(reader, last).Event? then [Parse(reader, last).event] else [])
  }

  // Those of one node.
  function Of(nodeId: string, es: seq<SignedEvent>): seq<SignedEvent> {
    if es == [] then []
    else
      var last := es[|es| - 1];
      Of(nodeId, es[..|es| - 1]) + (if last.nodeId == nodeId then [last] else [])
  }

  function ExpectedPrevious(env: Env, nodeId: string, es: seq<SignedEvent>, i: nat): Digest
    requires i <= |es|
  {
    if i == 0 then GenesisPreviousHash(env, nodeId) else ComputeEventHash(env, es[i - 1])
  }

  // One gap-free chain from the node's genesis, short enough to be tracked whole.
  ghost predicate GapFree(env: Env, nodeId: string, es: seq<SignedEvent>) {
    && |es| <= MAX_TRACKED_HASHES
    && (forall i :: 0 <= i < |es| ==> es[i].sequence == i + 1)
    && (forall i :: 0 <= i < |es| ==> es[i].previousEventHash == ExpectedPrevious(env, nodeId, es, i))
    && (forall i, j :: 0 <= i < j < |es| ==> es[i].eventHash != es[j].eventHash)
  }

  // ---- the cursor a chain leaves -----------------------------------------------------------

  function LastHash(env: Env, es: seq<SignedEvent>): Option<string> {
    if es == [] then None else Some(ComputeEventHash(env, es[|es| - 1]))
  }

  function HashesBySequence(es: seq<SignedEvent>): (m: map<int, string>)
    ensures forall i :: i in m <==> 1 <= i <= |es|
  {
    if es == [] then map[] else HashesBySequence(es[..|es| - 1])[|es| := es[|es| - 1].eventHash]
  }

  function TrackFor(env: Env, es: seq<SignedEvent>): Track {
    Track(|es|, LastHash(env, es), HashesBySequence(es), set e | e in es :: e.eventHash, false)
  }

  lemma {:induction false} HashCount(es: seq<SignedEvent>)
    requires forall i, j :: 0 <= i < j < |es| ==> es[i].eventHash != es[j].eventHash
    ensures |(set e | e in es :: e.eventHash)| == |es|
  {
    if es != [] {
      var front, last := es[..|es| - 1], es[|es| - 1];
      HashCount(front);
      assert es == front + [last];
      assert (set e | e in es :: e.eventHash) == (set e | e in front :: e.eventHash) + {last.eventHash};
    }
  }

  lemma PreviousKept(env: Env, nodeId: string, es: seq<SignedEvent>, e: SignedEvent, i: nat)
    requires i <= |es|
    ensures ExpectedPrevious(env, nodeId, es + [e], i) == ExpectedPrevious(env, nodeId, es, i)
  {
    hide ComputeEventHash, GenesisPreviousHash;
  }

  lemma GapFreeExtends(env: Env, nodeId: string, es: seq<SignedEvent>, e: SignedEvent)
    requires GapFree(env, nodeId, es)
    ensures GapFree(env, nodeId, es + [e]) <==>
      && |es| < MAX_TRACKED_HASHES
      && e.sequence == |es| + 1
      && e.previousEventHash == ExpectedPrevious(env, nodeId, es, |es|)
      && forall i :: 0 <= i < |es| ==> es[i].eventHash != e.eventHash
  {
    hide ExpectedPrevious;
    var more := es + [e];
    forall i | 0 <= i <= |es| ensures ExpectedPrevious(env, nodeId, more, i) == ExpectedPrevious(env, nodeId, es, i) {
      PreviousKept(env, nodeId, es, e, i);
    }
    assert forall i :: 0 <= i < |es| ==> more[i] == es[i];
    assert more[|es|] == e;
  }

  lemma GapFreePrefix(env: Env, nodeId: string, es: seq<SignedEvent>, e: SignedEvent)
    requires GapFree(env, nodeId, es + [e])
    ensures GapFree(env, nodeId, es)
  {
    hide ComputeEventHash, GenesisPreviousHash;
    var more := es + [e];
    assert forall i :: 0 <= i < |es| ==> more[i] == es[i];
    assert forall i :: 0 <= i < |es| ==> ExpectedPrevious(env, nodeId, more, i) == ExpectedPrevious(env, nodeId, es, i);
  }

  lemma LinkDecides(env: Env, nodeId: string, es: seq<SignedEvent>, e: SignedEvent)
    requires e.nodeId == nodeId && e.sequence >= 1
    ensures ChainAlerts(env, e, |es|, LastHash(env, es)) == []
      <==> e.sequence == |es| + 1 && e.previousEventHash == ExpectedPrevious(env, nodeId, es, |es|)
  {
    hide ComputeEventHash, GenesisPreviousHash;
  }

  lemma SeenDecides(env: Env, es: seq<SignedEvent>, e: SignedEvent)
    requires |es| <= MAX_TRACKED_HASHES && e.sequence == |es| + 1
    requires forall i, j :: 0 <= i < j < |es| ==> es[i].eventHash != es[j].eventHash
    ensures NoteAlerts(TrackFor(env, es), e) == []
      <==> |es| < MAX_TRACKED_HASHES && forall i :: 0 <= i < |es| ==> es[i].eventHash != e.eventHash
  {
    hide LastHash;
    HashCount(es);
    var t := TrackFor(env, es);
    assert e.sequence !in t.seenSequences;
    assert e.eventHash in t.seenHashes <==> exists i :: 0 <= i < |es| && es[i].eventHash == e.eventHash;
  }

  // At the end of a gap-free chain a record raises nothing iff it continues it.
  lemma CursorDecides(env: Env, nodeId: string, es: seq<SignedEvent>, e: SignedEvent)
    requires GapFree(env, nodeId, es) && e.nodeId == nodeId && e.sequence >= 1
    ensures StreamAlerts(env, TrackFor(env, es), e) == [] <==> GapFree(env, nodeId, es + [e])
  {
    GapFreeExtends(env, nodeId, es, e);
    LinkDecides(env, nodeId, es, e);
    if e.sequence == |es| + 1 {
      SeenDecides(env, es, e);
    }
    hide LastHash, HashesBySequence, ExpectedPrevious, ChainAlerts, NoteAlerts;
  }

  lemma HashSetExtends(es: seq<SignedEvent>, e: SignedEvent)
    ensures (set x | x in es + [e] :: x.eventHash) == (set x | x in es :: x.eventHash) + {e.eventHash}
  {
    assert forall x :: x in es + [e] <==> x in es || x == e;
  }

  lemma CursorFollows(env: Env, nodeId: string, es: seq<SignedEvent>, e: SignedEvent)
    requires GapFree(env, nodeId, es) && GapFree(env, nodeId, es + [e])
    ensures Follow(env, TrackFor(env, es), e) == TrackFor(env, es + [e])
  {
    hide ComputeEventHash, GenesisPreviousHash;
    HashCount(es);
    assert |es| < MAX_TRACKED_HASHES && (es + [e])[|es|] == e;
    HashSetExtends(es, e);
    assert (es + [e])[..|es|] == es;
  }

  // ---- exact acceptance ----------------------------------------------------------------------

  ghost predicate Chains(reader: Reader, lines: seq<string>) {
    forall n :: GapFree(reader.env, n, Of(n, Events(reader, lines)))
  }

  ghost predicate Cursors(reader: Reader, lines: seq<string>) {
    forall n :: TrackOf(Run(reader, lines).tracks, n) == TrackFor(reader.env, Of(n, Events(reader, lines)))
  }

  lemma OfAppend(nodeId: string, es: seq<SignedEvent>, e: SignedEvent)
    ensures Of(nodeId, es + [e]) == if e.nodeId == nodeId then Of(nodeId, es) + [e] else Of(nodeId, es)
  {
    assert (es + [e])[..|es|] == es;
    assert Of(nodeId, es) + [] == Of(nodeId, es);
  }

  lemma EventsAppend(reader: Reader, lines: seq<string>, raw: string)
    requires Strip(raw) != []
    ensures Events(reader, lines + [raw])
         == Events(reader, lines) + (if Parse(reader, raw).Event? then [Parse(reader, raw).event] else [])
  {
    hide Parse;
    assert (lines + [raw])[..|lines|] == lines;
  }

  // Adding a record keeps every node's chain iff it keeps its own node's.
  lemma ChainsAppend(reader: Reader, lines: seq<string>, raw: string, e: SignedEvent)
    requires Strip(raw) != [] && Parse(reader, raw) == Event(e) && Chains(reader, lines)
    ensures Chains(reader, lines + [raw])
      <==> GapFree(reader.env, e.nodeId, Of(e.nodeId, Events(reader, lines)) + [e])
  {
    hide Parse, GapFree, Of;
    var es := Events(reader, lines);
    EventsAppend(reader, lines, raw);
    OfAppend(e.nodeId, es, e);
    if GapFree(reader.env, e.nodeId, Of(e.nodeId, es) + [e]) {
      forall n ensures GapFree(reader.env, n, Of(n, es + [e])) {
        OfAppend(n, es, e);
        assert GapFree(reader.env, n, Of(n, es));
      }
    }
    if Chains(reader, lines + [raw]) {
      assert GapFree(reader.env, e.nodeId, Of(e.nodeId, es + [e]));
    }
  }

  lemma CursorsAppend(reader: Reader, lines: seq<string>, raw: string, e: SignedEvent)
    requires Strip(raw) != [] && Parse(reader, raw) == Event(e)
    requires Chains(reader, lines) && Chains(reader, lines + [raw]) && Cursors(reader, lines)
    ensures Cursors(reader, lines + [raw])
  {
    hide Parse, GapFree, Follow, TrackFor, Of, RecordAlerts, Run;
    var es := Events(reader, lines);
    EventsAppend(reader, lines, raw);
    NextVerdict(reader, lines, raw, e);
    forall n ensures TrackOf(Run(reader, lines + [raw]).tracks, n) == TrackFor(reader.env, Of(n, es + [e])) {
      OfAppend(n, es, e);
      assert TrackOf(Run(reader, lines).tracks, n) == TrackFor(reader.env, Of(n, es));
      if n == e.nodeId {
        assert GapFree(reader.env, n, Of(n, es)) && GapFree(reader.env, n, Of(n, es + [e]));
        CursorFollows(reader.env, n, Of(n, es), e);
      }
    }
  }

  // One more line, read after a stream that was accepted so far.
  lemma StepDecides(reader: Reader, lines: seq<string>, raw: string)
    requires Accepts(reader, lines) && AllSound(reader, lines) && Chains(reader, lines) && Cursors(reader, lines)
    requires Strip(raw) != []
    ensures Accepts(reader, lines + [raw]) <==> Sound(reader, raw) && Chains(reader, lines + [raw])
    ensures Accepts(reader, lines + [raw]) ==> Cursors(reader, lines + [raw])
  {
    hide Parse, EventAlerts, StreamAlerts, Follow, GapFree, TrackFor;
    if Parse(reader, raw).Event? {
      var e := Parse(reader, raw).event;
      var es := Of(e.nodeId, Events(reader, lines));
      PositiveSequence(reader, raw);
      NextVerdict(reader, lines, raw, e);
      assert GapFree(reader.env, e.nodeId, es);
      assert TrackOf(Run(reader, lines).tracks, e.nodeId) == TrackFor(reader.env, es);
      CursorDecides(reader.env, e.nodeId, es, e);
      ChainsAppend(reader, lines, raw, e);
      if Accepts(reader, lines + [raw]) {
        CursorsAppend(reader, lines, raw, e);
      }
    } else {
      RejectedVerdict(reader, Run(reader, lines), raw);
      assert (lines + [raw])[..|lines|] == lines;
    }
  }

  lemma PositiveSequence(reader: Reader, raw: string)
    requires Parse(reader, raw).Event?
    ensures Parse(reader, raw).event.sequence >= 1
  {
    ParsedSequence(reader, Strip(raw));
  }

  lemma RejectedVerdict(reader: Reader, s: State, raw: string)
    requires Strip(raw) != [] && !Parse(reader, raw).Event?
    ensures !Step(reader, s, raw).report.valid
  {
    hide ParseLine, Counted;
  }

  lemma NextVerdict(reader: Reader, lines: seq<string>, raw: string, e: SignedEvent)
    requires Strip(raw) != [] && Parse(reader, raw) == Event(e)
    ensures var s := Run(reader, lines);
      var alerts := RecordAlerts(reader, s.tracks, e);
      && Run(reader, lines + [raw]).report.valid == (s.report.valid && alerts == [])
      && Run(reader, lines + [raw]).tracks == s.tracks[e.nodeId := Follow(reader.env, TrackOf(s.tracks, e.nodeId), e)]
      && (alerts == [] <==> EventAlerts(reader.env, reader.records, e) == []
                            && StreamAlerts(reader.env, TrackOf(s.tracks, e.nodeId), e) == [])
  {
    hide ParseLine, EventAlerts, StreamAlerts, Follow, Counted;
    assert (lines + [raw])[..|lines|] == lines;
  }

  lemma BlankLine(reader: Reader, lines: seq<string>, raw: string)
    requires Strip(raw) == []
    ensures Run(reader, lines + [raw]) == Run(reader, lines)
    ensures Events(reader, lines + [raw]) == Events(reader, lines)
  {
    assert (lines + [raw])[..|lines|] == lines;
  }

  // A verdict once lost is never regained.
  lemma VerdictStays(reader: Reader, s: State, raw: string)
    requires Step(reader, s, raw).report.valid
    ensures s.report.valid
  {
    hide ParseLine, RecordAlerts, Follow, Counted;
  }

  lemma {:induction false} AcceptedMeans(reader: Reader, lines: seq<string>)
    requires Accepts(reader, lines)
    ensures AllSound(reader, lines) && Chains(reader, lines) && Cursors(reader, lines)
    decreases |lines|
  {
    hide Step, Strip, Sound;
    if lines == [] {
      EmptyStream(reader);
    } else {
      var front, raw := lines[..|lines| - 1], lines[|lines| - 1];
      assert lines == front + [raw];
      VerdictStays(reader, Run(reader, front), raw);
      AcceptedMeans(reader, front);
      if Strip(raw) == [] {
        BlankLine(reader, front, raw);
      } else {
        StepDecides(reader, front, raw);
      }
    }
  }

  lemma EmptyStream(reader: Reader)
    ensures Accepts(reader, []) && AllSound(reader, []) && Chains(reader, []) && Cursors(reader, [])
  {
  }

  lemma ChainsPrefix(reader: Reader, front: seq<string>, raw: string)
    requires Chains(reader, front + [raw])
    ensures Chains(reader, front)
  {
    hide Parse, GapFree, Of;
    if Strip(raw) == [] {
      BlankLine(reader, front, raw);
    } else {
      var es := Events(reader, front);
      EventsAppend(reader, front, raw);
      if Parse(reader, raw).Event? {
        var e := Parse(reader, raw).event;
        forall n ensures GapFree(reader.env, n, Of(n, es)) {
          OfAppend(n, es, e);
          assert GapFree(reader.env, n, Of(n, es + [e]));
          if e.nodeId == n {
            GapFreePrefix(reader.env, n, Of(n, es), e);
          }
        }
      } else {
        assert es + [] == es;
      }
    }
  }

  lemma {:induction false} AcceptedWhen(reader: Reader, lines: seq<string>)
    requires AllSound(reader, lines) && Chains(reader, lines)
    ensures Accepts(reader, lines)
    decreases |lines|
  {
    hide Step, Strip, Sound;
    if lines == [] {
      EmptyStream(reader);
    } else {
      var front, raw := lines[..|lines| - 1], lines[|lines| - 1];
      assert lines == front + [raw];
      ChainsPrefix(reader, front, raw);
      AcceptedWhen(reader, front);
      AcceptedMeans(reader, front);
      if Strip(raw) == [] {
        BlankLine(reader, front, raw);
      } else {
        StepDecides(reader, front, raw);
      }
    }
  }

  // A stream is reported valid iff every nonblank line is sound on its own and,
  // however the nodes interleave, each node's records are one gap-free chain.
  lemma ExactAcceptance(reader: Reader, lines: seq<string>)
    ensures Accepts(reader, lines) <==> AllSound(reader, lines) && Chains(reader, lines)
  {
    if Accepts(reader, lines) {
      AcceptedMeans(reader, lines);
    }
    if AllSound(reader, lines) && Chains(reader, lines) {
      AcceptedWhen(reader, lines);
    }
  }
}
