/** The registry part of an archive's trust report: one pass that summarises the
    enclosed evidence, one that verifies it, and the comparison with the manifest. */
module Archive {
  import opened Json
  import opened JsonParser
  import opened PyText
  import opened Models
  import opened KeyRegistry
  import opened Verifier
  import opened Collector

  // ---- what is reported ---------------------------------------------------------------

  datatype Manifest = Manifest(nodeId: string, firstSequence: int, lastSequence: int, eventCount: int, finalHash: string)

  datatype Trust = Trust(
    containerAuthenticated: bool,
    plaintextHashVerified: bool,
    evidenceFormatValid: bool,
    evidenceSignaturesVerified: bool,
    evidenceChainVerified: bool,
    nodeIdentityVerified: bool)

  predicate FullyVerified(t: Trust) {
    && t.containerAuthenticated && t.plaintextHashVerified && t.evidenceFormatValid
    && t.evidenceSignaturesVerified && t.evidenceChainVerified && t.nodeIdentityVerified
  }

  const SIGNATURE_ALERTS := {InvalidSignature, UnknownKey, UnknownNode, RevokedKey, ExpiredKey, UnsupportedAlgorithm}

  const CHAIN_ALERTS := {SequenceGap, PreviousHashMismatch, DuplicateSequence, ReplayedEvent, ChainReset, EventHashMismatch}

  // ---- the first pass -----------------------------------------------------------------------

  datatype Summary = Summary(first: Option<int>, last: Option<int>, count: nat, finalHash: string, nodes: set<string>)

  const NOTHING := Summary(None, None, 0, "", {})

  // The nonblank lines, stripped.
  function Texts(lines: seq<string>): seq<string> {
    if lines == [] then []
    else
      var text := Strip(lines[|lines| - 1]);
      Texts(lines[..|lines| - 1]) + (if text == [] then [] else [text])
  }

  function Smaller(a: Option<int>, b: int): Option<int> {
    if a.Some? && a.value <= b then a else Some(b)
  }

  function Larger(a: Option<int>, b: int): Option<int> {
    if a.Some? && a.value >= b then a else Some(b)
  }

  function NoteRecord(s: Summary, fields: seq<Field>): Summary {
    var sequence, hash, node := Get(fields, "sequence"), Get(fields, "event_hash"), Get(fields, "node_id");
    Summary(
      if sequence.Int? then Smaller(s.first, sequence.i) else s.first,
      if sequence.Int? then Larger(s.last, sequence.i) else s.last,
      s.count,
      if hash.Str? then hash.s else s.finalHash,
      if node.Str? then s.nodes + {node.s} else s.nodes)
  }

  function NoteText(s: Summary, text: string): Summary {
    var counted := s.(count := s.count + 1);
    match ParseDocument(text)
    case Some(Obj(fields)) => NoteRecord(counted, fields)
    case Some(_) => counted
    case None => counted
  }

  function Summarised(texts: seq<string>): Summary {
    if texts == [] then NOTHING else NoteText(Summarised(texts[..|texts| - 1]), texts[|texts| - 1])
  }

  function OrZero(n: Option<int>): int {
    if n.Some? then n.value else 0
  }

  // ---- the report -----------------------------------------------------------------------------

  // The manifest describes the evidence it came with.
  predicate Describes(m: Manifest, s: Summary) {
    && (s.nodes != {} ==> s.nodes == {m.nodeId})
    && s.count == m.eventCount
    && OrZero(s.first) == m.firstSequence && OrZero(s.last) == m.lastSequence
    && s.finalHash == m.finalHash
  }

  // An archive whose container and digest have already been checked.
  function Judged(m: Manifest, s: Summary, r: Report): Trust {
    Trust(true, true,
          r.malformed == 0 && r.total > 0,
          SIGNATURE_ALERTS * r.alertCounts.Keys == {},
          CHAIN_ALERTS * r.alertCounts.Keys == {},
          Describes(m, s) && s.nodes == {m.nodeId})
  }

  function TrustOf(reader: Reader, m: Manifest, lines: seq<string>): Trust {
    Judged(m, Summarised(Texts(lines)), Run(reader, Texts(lines)).report)
  }

  // ---- the loops --------------------------------------------------------------------------------

  // One nonblank line.
  method NoteLine(s: Summary, text: string) returns (after: Summary)
    ensures after == NoteText(s, text)
  {
    hide ParseDocument, Get;
    after := s.(count := s.count + 1);
    var parsed := ParseDocument(text);
    if parsed.Some? && parsed.value.Obj? {
      var sequence := Get(parsed.value.fields, "sequence");
      if sequence.Int? {
        after := after.(
          first := if s.first.None? || sequence.i < s.first.value then Some(sequence.i) else s.first,
          last := if s.last.None? || sequence.i > s.last.value then Some(sequence.i) else s.last);
      }
      var hash := Get(parsed.value.fields, "event_hash");
      if hash.Str? {
        after := after.(finalHash := hash.s);
      }
      var node := Get(parsed.value.fields, "node_id");
      if node.Str? {
        after := after.(nodes := s.nodes + {node.s});
      }
    }
  }

  lemma TextsStep(lines: seq<string>, i: nat)
    requires i < |lines|
    ensures var before, text := Texts(lines[..i]), Strip(lines[i]);
      && Texts(lines[..i + 1]) == (if text == [] then before else before + [text])
      && (text != [] ==> Summarised(before + [text]) == NoteText(Summarised(before), text))
  {
    hide Strip, NoteText;
    assert lines[..i + 1][..i] == lines[..i];
    var before, text := Texts(lines[..i]), Strip(lines[i]);
    assert (before + [text])[..|before|] == before && before + [] == before;
  }

  method SummariseEvidence(lines: seq<string>) returns (s: Summary)
    ensures s == Summarised(Texts(lines))
  {
    hide Strip, NoteText;
    s := NOTHING;
    var i := 0;
    while i < |lines|
      invariant 0 <= i <= |lines| && s == Summarised(Texts(lines[..i]))
    {
      TextsStep(lines, i);
      var text := Strip(lines[i]);
      if text != [] {
        s := NoteLine(s, text);
      }
      i := i + 1;
    }
    assert lines[..i] == lines;
  }

  method StreamLines(lines: seq<string>) returns (texts: seq<string>)
    ensures texts == Texts(lines)
  {
    texts := [];
    var i := 0;
    while i < |lines|
      invariant 0 <= i <= |lines| && texts == Texts(lines[..i])
    {
      assert lines[..i + 1][..i] == lines[..i];
      var text := Strip(lines[i]);
      if text != [] {
        texts := texts + [text];
      }
      i := i + 1;
    }
    assert lines[..i] == lines;
  }

  // Given a registry: summarise, verify, and compare with the manifest.
  method VerifyEvidence(collector: EvidenceCollector, m: Manifest, lines: seq<string>) returns (t: Trust)
    requires collector.Ready()
    ensures t == TrustOf(collector.Setup(), m, lines)
  {
    hide Run, Summarised;
    var s := SummariseEvidence(lines);
    var texts := StreamLines(lines);
    var r := collector.VerifyStream(texts);
    var formatValid := r.malformed == 0 && r.total > 0;
    var signatures := SIGNATURE_ALERTS * r.alertCounts.Keys == {};
    var chain := CHAIN_ALERTS * r.alertCounts.Keys == {};
    var identity := false;
    if !(s.nodes != {} && s.nodes != {m.nodeId}) && s.count == m.eventCount && OrZero(s.first) == m.firstSequence
       && OrZero(s.last) == m.lastSequence && s.finalHash == m.finalHash
    {
      identity := s.nodes == {m.nodeId};
    }
    t := Trust(true, true, formatValid, signatures, chain, identity);
  }
}
