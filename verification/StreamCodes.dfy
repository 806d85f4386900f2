/** Which error a record raises at each place of its node's records, whatever those are:
    gap, duplicate, replay, reset and broken link, each exactly when it is one. */
module StreamCodes {
  import opened Json
  import opened PyText
  import opened Models
  import opened KeyRegistry
  import opened Verifier
  import opened Collector
  import opened StreamTheorems
  import opened TamperTheorems

  // How far the numbers 1, 2, 3 ... can be followed through these records, in order.
  function Reach(es: seq<SignedEvent>): nat {
    if es == [] then 0
    else
      var n := Reach(es[..|es| - 1]);
      if es[|es| - 1].sequence == n + 1 then n + 1 else n
  }

  // The record that was the last to take it on.
  function Head(es: seq<SignedEvent>): Option<SignedEvent> {
    if es == [] then None
    else if es[|es| - 1].sequence == Reach(es[..|es| - 1]) + 1 then Some(es[|es| - 1])
    else Head(es[..|es| - 1])
  }

  // The hash the latest record with this number claims.
  function Latest(es: seq<SignedEvent>, sequence: int): Option<string> {
    if es == [] then None
    else if es[|es| - 1].sequence == sequence then Some(es[|es| - 1].eventHash)
    else Latest(es[..|es| - 1], sequence)
  }

  predicate Claimed(es: seq<SignedEvent>, hash: string) {
    exists i :: 0 <= i < |es| && es[i].eventHash == hash
  }

  // ---- the cursor -----------------------------------------------------------------------

  ghost predicate CursorIs(env: Env, es: seq<SignedEvent>, t: Track) {
    && t.lastSequence == Reach(es)
    && t.lastEventHash == (if Head(es).Some? then Some(ComputeEventHash(env, Head(es).value)) else None)
    && (forall k :: k in t.seenSequences <==> Latest(es, k).Some?)
    && (forall k :: k in t.seenSequences ==> t.seenSequences[k] == Latest(es, k).value)
    && (forall h :: h in t.seenHashes <==> Claimed(es, h))
    && |t.seenHashes| <= |es| && !t.exhausted
  }

  lemma {:induction false} CursorOfAny(env: Env, es: seq<SignedEvent>)
    requires |es| <= MAX_TRACKED_HASHES
    ensures CursorIs(env, es, TrackAfter(env, es))
  {
    hide ComputeEventHash, Follow, Claimed, CursorIs;
    if es == [] {
      FreshCursor(env);
    } else {
      var n := |es| - 1;
      CursorOfAny(env, es[..n]);
      CursorMoves(env, es[..n], es[n], TrackAfter(env, es[..n]));
      assert es == es[..n] + [es[n]];
    }
  }

  lemma FreshCursor(env: Env)
    ensures CursorIs(env, [], FRESH)
  {
  }

  lemma CursorMoves(env: Env, es: seq<SignedEvent>, e: SignedEvent, t: Track)
    requires |es| < MAX_TRACKED_HASHES && CursorIs(env, es, t)
    ensures CursorIs(env, es + [e], Follow(env, t, e))
  {
    hide ComputeEventHash, Claimed, Reach, Head, Latest;
    var more := es + [e];
    OneMore(es, e);
    forall h ensures Claimed(more, h) <==> Claimed(es, h) || h == e.eventHash {
      ClaimedMore(es, e, h);
    }
  }

  lemma OneMore(es: seq<SignedEvent>, e: SignedEvent)
    ensures var n := Reach(es);
      && Reach(es + [e]) == (if e.sequence == n + 1 then n + 1 else n)
      && Head(es + [e]) == (if e.sequence == n + 1 then Some(e) else Head(es))
    ensures forall k :: Latest(es + [e], k) == if e.sequence == k then Some(e.eventHash) else Latest(es, k)
  {
    assert (es + [e])[..|es|] == es && (es + [e])[|es|] == e;
  }

  lemma ClaimedMore(es: seq<SignedEvent>, e: SignedEvent, h: string)
    ensures Claimed(es + [e], h) <==> Claimed(es, h) || h == e.eventHash
  {
    var more := es + [e];
    assert more[|es|] == e && forall i :: 0 <= i < |es| ==> more[i] == es[i];
  }

  // ---- the codes ----------------------------------------------------------------------------

  lemma PlaceCodes(env: Env, e: SignedEvent, last: nat, hash: Option<string>)
    ensures var a := ChainAlerts(env, e, last, hash);
      && (SequenceGap in a <==> e.sequence > last + 1)
      && (DuplicateSequence in a <==> e.sequence <= last)
      && (ChainReset in a <==> e.sequence == 1 && last > 0)
      && (PreviousHashMismatch in a <==>
            if e.sequence == 1 then e.previousEventHash != GenesisPreviousHash(env, e.nodeId)
            else hash.Some? && e.previousEventHash != hash.value)
      && ReplayedEvent !in a
  {
    hide GenesisPreviousHash;
  }

  lemma SeenCodes(t: Track, e: SignedEvent)
    ensures var a := NoteAlerts(t, e);
      && (DuplicateSequence in a <==> e.sequence in t.seenSequences && t.seenSequences[e.sequence] != e.eventHash)
      && (ReplayedEvent in a <==>
            if e.sequence in t.seenSequences then t.seenSequences[e.sequence] == e.eventHash
            else e.eventHash in t.seenHashes)
      && SequenceGap !in a && ChainReset !in a && PreviousHashMismatch !in a
  {
  }

  // What a record is reported for at its place, after these records of its node: a gap,
  // a reset, a duplicate, a replay, a broken link, each just when it is one.
  ghost predicate CodesAre(env: Env, es: seq<SignedEvent>, e: SignedEvent, a: seq<Alert>) {
    && (SequenceGap in a <==> e.sequence > Reach(es) + 1)
    && (ChainReset in a <==> e.sequence == 1 && Reach(es) > 0)
    && (DuplicateSequence in a <==>
          e.sequence <= Reach(es) || (Latest(es, e.sequence).Some? && Latest(es, e.sequence).value != e.eventHash))
    && (ReplayedEvent in a <==>
          if Latest(es, e.sequence).Some? then Latest(es, e.sequence).value == e.eventHash else Claimed(es, e.eventHash))
    && (PreviousHashMismatch in a <==>
          if e.sequence == 1 then e.previousEventHash != GenesisPreviousHash(env, e.nodeId)
          else Head(es).Some? && e.previousEventHash != ComputeEventHash(env, Head(es).value))
  }

  // After any records of a node at all, in any order and however often.
  lemma CodesAfter(env: Env, es: seq<SignedEvent>, e: SignedEvent)
    requires |es| < MAX_TRACKED_HASHES
    ensures CodesAre(env, es, e, StreamAlerts(env, TrackAfter(env, es), e))
  {
    hide ComputeEventHash, GenesisPreviousHash, Claimed, ChainAlerts, NoteAlerts, Reach, Latest, Head;
    CursorOfAny(env, es);
    var t := TrackAfter(env, es);
    PlaceCodes(env, e, t.lastSequence, t.lastEventHash);
    SeenCodes(t, e);
    var a, b := ChainAlerts(env, e, t.lastSequence, t.lastEventHash), NoteAlerts(t, e);
    assert forall x :: x in a + b <==> x in a || x in b;
  }

  lemma SameCodes(env: Env, es: seq<SignedEvent>, e: SignedEvent, a: seq<Alert>, b: seq<Alert>)
    requires CodesAre(env, es, e, a)
    requires forall x ::
      (x == SequenceGap || x == ChainReset || x == DuplicateSequence || x == ReplayedEvent || x == PreviousHashMismatch)
      ==> (x in a <==> x in b)
    ensures CodesAre(env, es, e, b)
  {
    hide ComputeEventHash, GenesisPreviousHash, Claimed, Reach, Latest, Head;
  }

  // The same of line `i` of a stream of one node's records.
  lemma CodesAtLine(reader: Reader, nodeId: string, lines: seq<string>, es: seq<SignedEvent>, i: nat)
    requires Reads(reader, lines, es) && OfNode(nodeId, es) && i < |es| <= MAX_TRACKED_HASHES
    ensures CodesAre(reader.env, es[..i], es[i], LineAlerts(reader, lines, i))
    ensures EventHashMismatch in LineAlerts(reader, lines, i) <==> ComputeEventHash(reader.env, es[i]) != es[i].eventHash
  {
    hide ComputeEventHash, Parse, Run, EventAlerts, StreamAlerts, TrackAfter, CodesAre;
    OneNodeCursor(reader, nodeId, lines[..i], es[..i]);
    EventAlertsKinds(reader.env, reader.records, es[i]);
    var t := TrackAfter(reader.env, es[..i]);
    CodesAfter(reader.env, es[..i], es[i]);
    NoHashCode(reader.env, t, es[i]);
    SameCodes(reader.env, es[..i], es[i], StreamAlerts(reader.env, t, es[i]), LineAlerts(reader, lines, i));
  }

  lemma NoHashCode(env: Env, t: Track, e: SignedEvent)
    ensures EventHashMismatch !in StreamAlerts(env, t, e)
  {
    hide ComputeEventHash, GenesisPreviousHash;
  }

  // ---- what an edit of a clean chain shows as ---------------------------------------------------

  lemma {:induction false} CleanReach(es: seq<SignedEvent>)
    requires InSequence(es)
    ensures Reach(es) == |es| && Head(es) == (if es == [] then None else Some(es[|es| - 1]))
    ensures forall k :: Latest(es, k) == if 1 <= k <= |es| then Some(es[k - 1].eventHash) else None
  {
    if es != [] {
      CleanReach(es[..|es| - 1]);
    }
  }

  // After a gap nothing takes the numbers on.
  lemma {:induction false} GapReach(es: seq<SignedEvent>, k: nat)
    requires k <= |es| && InSequence(es[..k]) && forall i :: k <= i < |es| ==> es[i].sequence == i + 2
    ensures Reach(es) == k && forall s :: s > |es| + 1 ==> Latest(es, s) == None
    ensures Head(es) == if k == 0 then None else Some(es[k - 1])
    decreases |es|
  {
    if |es| == k {
      assert es[..k] == es;
      CleanReach(es);
    } else {
      var front := es[..|es| - 1];
      assert front[..k] == es[..k];
      GapReach(front, k);
    }
  }

  // A clean chain without its record `k`: the records before it raise nothing new, and
  // every one after it is reported for a gap, none for a duplicate or a reset.
  lemma DeletionShows(reader: Reader, nodeId: string, lines: seq<string>, es: seq<SignedEvent>, k: nat, i: nat)
    requires Reads(reader, lines, es) && OfNode(nodeId, es) && Accepts(reader, lines)
    requires k < |es| && i < |es| - 1
    ensures var cut := lines[..k] + lines[k + 1..];
      var fs := es[..k] + es[k + 1..];
      && Reads(reader, cut, fs)
      && var a := LineAlerts(reader, cut, i);
         && (SequenceGap in a <==> i >= k) && DuplicateSequence !in a && ChainReset !in a && ReplayedEvent !in a
  {
    hide Parse, Run, ComputeEventHash, GenesisPreviousHash, LineAlerts, Strip, Accepts, Sound, GapFree, Reads, OfNode, Reach,
      Latest, Head, Claimed, InSequence;
    CleanChain(reader, nodeId, lines, es);
    ChainFacts(reader.env, nodeId, es);
    SameCounts(reader, lines, es);
    CutReads(reader, nodeId, lines, es, k);
    DeletionPlaces(es, k, i);
    CodesAtLine(reader, nodeId, lines[..k] + lines[k + 1..], es[..k] + es[k + 1..], i);
  }

  lemma SameCounts(reader: Reader, lines: seq<string>, es: seq<SignedEvent>)
    requires Reads(reader, lines, es)
    ensures |lines| == |es|
  {
    hide Parse, Strip;
  }

  lemma DeletionPlaces(es: seq<SignedEvent>, k: nat, i: nat)
    requires InSequence(es) && k < |es| && i < |es| - 1
    requires forall a, b :: 0 <= a < b < |es| ==> es[a].eventHash != es[b].eventHash
    ensures var fs := es[..k] + es[k + 1..];
      var before, e := fs[..i], fs[i];
      && e.sequence == (if i < k then i + 1 else i + 2) && Reach(before) == (if i < k then i else k)
      && Latest(before, e.sequence) == None && !Claimed(before, e.eventHash)
  {
    hide Reach, Latest, Head, Claimed;
    var fs := es[..k] + es[k + 1..];
    var before := fs[..i];
    assert forall j :: 0 <= j < |fs| ==> fs[j] == es[if j < k then j else j + 1];
    NewClaim(es, fs, k, i);
    if i < k {
      assert before == es[..i];
      CleanReach(before);
    } else {
      assert before[..k] == es[..k];
      GapReach(before, k);
    }
  }

  lemma ChainFacts(env: Env, nodeId: string, es: seq<SignedEvent>)
    requires GapFree(env, nodeId, es)
    ensures InSequence(es) && |es| <= MAX_TRACKED_HASHES
    ensures forall i, j :: 0 <= i < j < |es| ==> es[i].eventHash != es[j].eventHash
  {
    hide ExpectedPrevious;
  }

  lemma CutReads(reader: Reader, nodeId: string, lines: seq<string>, es: seq<SignedEvent>, k: nat)
    requires Reads(reader, lines, es) && OfNode(nodeId, es) && k < |es|
    ensures Reads(reader, lines[..k] + lines[k + 1..], es[..k] + es[k + 1..])
    ensures OfNode(nodeId, es[..k] + es[k + 1..])
  {
    hide Parse, Strip;
  }

  lemma NewClaim(es: seq<SignedEvent>, fs: seq<SignedEvent>, k: nat, i: nat)
    requires k < |es| && |fs| == |es| - 1 && i < |fs|
    requires forall j :: 0 <= j < |fs| ==> fs[j] == es[if j < k then j else j + 1]
    requires forall a, b :: 0 <= a < b < |es| ==> es[a].eventHash != es[b].eventHash
    ensures !Claimed(fs[..i], fs[i].eventHash)
  {
  }

  // A clean chain with a copy of its record `j` put in after its first `k` records: the
  // copy is reported as a duplicate and a replay, as a reset too if it is the first, never
  // for a gap.
  lemma ReplayShows(reader: Reader, nodeId: string, lines: seq<string>, es: seq<SignedEvent>, j: nat, k: nat)
    requires Reads(reader, lines, es) && OfNode(nodeId, es) && Accepts(reader, lines)
    requires j < k <= |es| < MAX_TRACKED_HASHES
    ensures var more := lines[..k] + [lines[j]] + lines[k..];
      && Reads(reader, more, es[..k] + [es[j]] + es[k..])
      && var a := LineAlerts(reader, more, k);
         && DuplicateSequence in a && ReplayedEvent in a && SequenceGap !in a && (ChainReset in a <==> j == 0)
         && EventHashMismatch !in a
  {
    hide Parse, Run, ComputeEventHash, GenesisPreviousHash, LineAlerts, Strip, Accepts, Sound, GapFree, Reads, OfNode, Reach,
      Latest, Head, Claimed, InSequence;
    assert ComputeEventHash(reader.env, es[j]) == es[j].eventHash by { CleanChain(reader, nodeId, lines, es); }
    assert GapFree(reader.env, nodeId, es) by { CleanChain(reader, nodeId, lines, es); }
    ChainFacts(reader.env, nodeId, es);
    SameCounts(reader, lines, es);
    CopyReads(reader, nodeId, lines, es, j, k);
    CopyPlaces(es, j, k);
    CodesAtLine(reader, nodeId, lines[..k] + [lines[j]] + lines[k..], es[..k] + [es[j]] + es[k..], k);
  }

  lemma CopyPlaces(es: seq<SignedEvent>, j: nat, k: nat)
    requires InSequence(es) && j < k <= |es|
    ensures var fs := es[..k] + [es[j]] + es[k..];
      && fs[k] == es[j] && es[j].sequence == j + 1 && Reach(fs[..k]) == k
      && Latest(fs[..k], j + 1) == Some(es[j].eventHash)
  {
    hide Reach, Latest, Head;
    assert (es[..k] + [es[j]] + es[k..])[..k] == es[..k];
    CleanReach(es[..k]);
  }

  lemma CopyReads(reader: Reader, nodeId: string, lines: seq<string>, es: seq<SignedEvent>, j: nat, k: nat)
    requires Reads(reader, lines, es) && OfNode(nodeId, es) && j < k <= |es|
    ensures Reads(reader, lines[..k] + [lines[j]] + lines[k..], es[..k] + [es[j]] + es[k..])
    ensures OfNode(nodeId, es[..k] + [es[j]] + es[k..])
  {
    hide Parse, Strip;
  }
}
