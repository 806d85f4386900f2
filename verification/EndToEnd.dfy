/** Writer and reader together: the log that recovery leaves after any run of the
    signers is a stream the reader reports valid. */
module EndToEnd {
  import opened Json
  import opened JsonCanonical
  import opened PyText
  import Utf8
  import opened Models
  import opened ModelsLaws
  import opened ModelsSizes
  import opened HashBinding
  import opened KeyRegistry
  import opened Verifier
  import opened Collector
  import opened StreamTheorems
  import opened SignatureRules
  import opened Signer
  import opened Store
  import opened StoreLaws
  import opened Recovery
  import Protocol
  import ProtocolTheorems

  // ---- what the reader must be given -----------------------------------------------------

  // The registry holds the public half of the signing key, as a key of this node and
  // algorithm, not withdrawn, and in its time when the record was made.
  predicate Usable(reader: Reader, w: World, e: SignedEvent) {
    var r := Find(reader.records, e.keyId);
    && r.Some? && Trusted(reader.env, r.value, e.nodeId, e.timestamp, e.signatureAlgorithm)
    && e.keyId in w.keys && reader.env.unb64(r.value.publicKey) == Some(reader.env.publicOf(w.keys[e.keyId]))
  }

  // No two different payloads of this chain hash alike.
  predicate NoCollision(env: Env, c: seq<SignedEvent>) {
    forall i, j :: 0 <= i < j < |c| && env.hash(HashPayload(c[i])) == env.hash(HashPayload(c[j]))
      ==> HashPayload(c[i]) == HashPayload(c[j])
  }

  ghost predicate Readable(reader: Reader, w: World, c: seq<SignedEvent>) {
    && reader.env == w.env && reader.maxRecordBytes >= MAX_LINE_BYTES
    && (forall i :: 0 <= i < |c| ==> Usable(reader, w, c[i]))
    && NoCollision(w.env, c)
  }

  // ---- one line ---------------------------------------------------------------------------------

  lemma LineParses(reader: Reader, w: World, e: SignedEvent)
    requires Genuine(w.env, w.nodeId, w.keys, e) && reader.env == w.env && reader.maxRecordBytes >= MAX_LINE_BYTES
    ensures Strip(Line(e)) == Line(e) && Line(e) != []
    ensures Parse(reader, Line(e)) == Event(Canonical(e))
  {
    hide Line, Bytes, ParseSignedEventJson, WellFormed, SigningPayload, HashPayload;
    LineShape(e);
    GenuineLine(w.env, w.nodeId, w.keys, e);
    assert |Line(e)| <= Bytes(Line(e)) by { LineIsBytes(Line(e)); }
    LineRoundTrip(w.env, e, reader.maxRecordBytes) by { LineIsBytes(Line(e)); }
  }

  lemma LineIsBytes(s: string)
    ensures |s| <= Bytes(s) == |Utf8.Encode(s)|
  {
  }

  lemma CleanRecord(reader: Reader, w: World, e: SignedEvent)
    requires Genuine(w.env, w.nodeId, w.keys, e) && reader.env == w.env && Usable(reader, w, e)
    ensures EventAlerts(reader.env, reader.records, Canonical(e)) == []
  {
    hide SigningPayload, HashPayload, WellFormed, CheckUsable, Find, Trusted;
    assert NoDuplicates(e.event) by { GenuineEvent(w, e); }
    PayloadsReadBack(e);
    UsableMeans(reader.env, reader.records, e.keyId, e.nodeId, e.timestamp, e.signatureAlgorithm);
  }

  lemma GenuineEvent(w: World, e: SignedEvent)
    requires Genuine(w.env, w.nodeId, w.keys, e)
    ensures NoDuplicates(e.event) && WellFormed(w.env, e)
  {
    hide SigningPayload, HashPayload;
  }

  // ---- the chain as read back -------------------------------------------------------------------------

  function ReadBack(c: seq<SignedEvent>): (r: seq<SignedEvent>)
    ensures |r| == |c| && forall i :: 0 <= i < |c| ==> r[i] == Canonical(c[i])
  {
    if c == [] then [] else ReadBack(c[..|c| - 1]) + [Canonical(c[|c| - 1])]
  }

  lemma {:induction false} LogEvents(reader: Reader, w: World, c: seq<SignedEvent>)
    requires GoodChain(w, c) && reader.env == w.env && reader.maxRecordBytes >= MAX_LINE_BYTES
    ensures Events(reader, LinesOf(c)) == ReadBack(c)
  {
    hide Parse, Line, Genuine, Strip, GoodChain;
    if c != [] {
      var front, e := c[..|c| - 1], c[|c| - 1];
      assert front + [e] == c;
      ChainFront(w, front, e);
      LastGenuine(w, c);
      LogEvents(reader, w, front);
      LineParses(reader, w, e);
      EventsAppend(reader, LinesOf(front), Line(e));
    }
  }

  lemma LastGenuine(w: World, c: seq<SignedEvent>)
    requires GoodChain(w, c) && c != []
    ensures Genuine(w.env, w.nodeId, w.keys, c[|c| - 1])
  {
    hide Genuine, ExpectedPrevious;
  }

  lemma ChainFront(w: World, c: seq<SignedEvent>, e: SignedEvent)
    requires GoodChain(w, c + [e])
    ensures GoodChain(w, c)
  {
    hide Genuine, GenesisPreviousHash, ComputeEventHash;
    var more := c + [e];
    assert forall i :: 0 <= i < |c| ==> more[i] == c[i];
    assert forall i :: 0 <= i < |c| ==> ExpectedPrevious(w.env, w.nodeId, more, i) == ExpectedPrevious(w.env, w.nodeId, c, i);
  }

  lemma {:induction false} OneNode(nodeId: string, n: string, es: seq<SignedEvent>)
    requires forall i :: 0 <= i < |es| ==> es[i].nodeId == nodeId
    ensures Of(n, es) == if n == nodeId then es else []
  {
    if es != [] {
      OneNode(nodeId, n, es[..|es| - 1]);
    }
  }

  lemma {:induction false} LineAt(c: seq<SignedEvent>, i: nat)
    requires i < |c|
    ensures |LinesOf(c)| == |c| && LinesOf(c)[i] == Line(c[i])
  {
    hide Line;
    if i < |c| - 1 {
      LineAt(c[..|c| - 1], i);
    } else if i > 0 {
      LineAt(c[..|c| - 1], i - 1);
    }
  }

  lemma AllLinesSound(reader: Reader, w: World, c: seq<SignedEvent>)
    requires GoodChain(w, c) && Readable(reader, w, c)
    ensures AllSound(reader, LinesOf(c) + [""])
  {
    hide Parse, Line, Genuine, Strip, EventAlerts, Usable;
    var lines := LinesOf(c) + [""];
    if c != [] { LineAt(c, 0); }
    BlankIsBlank();
    forall i | 0 <= i < |lines| && Strip(lines[i]) != [] ensures Sound(reader, lines[i]) {
      if i < |c| {
        LineAt(c, i);
        assert Genuine(w.env, w.nodeId, w.keys, c[i]);
        LineParses(reader, w, c[i]);
        CleanRecord(reader, w, c[i]);
      }
    }
  }

  lemma BlankIsBlank()
    ensures Strip("") == []
  {
  }

  lemma SameHash(w: World, e: SignedEvent)
    requires Genuine(w.env, w.nodeId, w.keys, e)
    ensures ComputeEventHash(w.env, Canonical(e)) == e.eventHash == w.env.hash(HashPayload(e))
    ensures ComputeEventHash(w.env, Canonical(e)) == ComputeEventHash(w.env, e)
  {
    hide SigningPayload, HashPayload;
    GenuineEvent(w, e);
    PayloadsReadBack(e);
  }

  lemma DistinctHashes(w: World, c: seq<SignedEvent>, i: nat, j: nat)
    requires GoodChain(w, c) && NoCollision(w.env, c) && i < j < |c|
    ensures c[i].eventHash != c[j].eventHash
  {
    hide HashPayload, WellFormed, ExpectedPrevious, SigningPayload;
    assert Genuine(w.env, w.nodeId, w.keys, c[i]) && Genuine(w.env, w.nodeId, w.keys, c[j]);
    if c[i].eventHash == c[j].eventHash {
      HashBindsFields(w.env, c[i], c[j]);
    }
  }

  lemma LinksReadBack(w: World, c: seq<SignedEvent>, i: nat)
    requires GoodChain(w, c) && i < |c|
    ensures var r := ReadBack(c);
      r[i].sequence == i + 1 && r[i].previousEventHash == ExpectedPrevious(w.env, w.nodeId, r, i)
  {
    hide Genuine, ComputeEventHash, GenesisPreviousHash;
    assert c[i].previousEventHash == ExpectedPrevious(w.env, w.nodeId, c, i);
    if i > 0 {
      SameHash(w, c[i - 1]);
    }
  }

  lemma Gapless(env: Env, nodeId: string, r: seq<SignedEvent>)
    requires forall i :: 0 <= i < |r| ==>
      r[i].sequence == i + 1 && r[i].previousEventHash == ExpectedPrevious(env, nodeId, r, i)
    requires forall i, j :: 0 <= i < j < |r| ==> r[i].eventHash != r[j].eventHash
    ensures GapFree(env, nodeId, r) <==> |r| <= MAX_TRACKED_HASHES
  {
    hide ExpectedPrevious;
  }

  lemma ChainReadsBack(w: World, c: seq<SignedEvent>)
    requires GoodChain(w, c) && NoCollision(w.env, c)
    ensures GapFree(w.env, w.nodeId, ReadBack(c)) <==> |c| <= MAX_TRACKED_HASHES
  {
    hide GoodChain, NoCollision, ExpectedPrevious, GapFree, ReadBack;
    var r := ReadBack(c);
    forall i | 0 <= i < |r|
      ensures r[i].sequence == i + 1 && r[i].previousEventHash == ExpectedPrevious(w.env, w.nodeId, r, i)
    {
      LinksReadBack(w, c, i);
    }
    forall i, j | 0 <= i < j < |r| ensures r[i].eventHash != r[j].eventHash {
      DistinctHashes(w, c, i, j);
    }
    Gapless(w.env, w.nodeId, r);
  }

  lemma OneNodeEvents(reader: Reader, w: World, c: seq<SignedEvent>, n: string)
    requires GoodChain(w, c) && Readable(reader, w, c)
    ensures Of(n, Events(reader, LinesOf(c) + [""])) == if n == w.nodeId then ReadBack(c) else []
  {
    hide Parse, Usable, Strip;
    BlankIsBlank();
    BlankLine(reader, LinesOf(c), "");
    LogEvents(reader, w, c);
    forall i | 0 <= i < |c| ensures ReadBack(c)[i].nodeId == w.nodeId {
      assert Genuine(w.env, w.nodeId, w.keys, c[i]);
    }
    OneNode(w.nodeId, n, ReadBack(c));
  }

  // The log of a chain the reader can know the keys of is accepted, unless it holds
  // more records than the reader tracks.
  lemma LogVerifies(reader: Reader, w: World, c: seq<SignedEvent>)
    requires GoodChain(w, c) && Readable(reader, w, c)
    ensures Accepts(reader, Lines(Utf8.DecodeReplace(LogOf(c)))) <==> |c| <= MAX_TRACKED_HASHES
  {
    hide Accepts, AllSound, Events, Readable, GapFree, Of, GoodChain, LogOf, ReadBack, LinesOf, Utf8.DecodeReplace, Lines;
    var lines := LinesOf(c) + [""];
    LogReadsBack(c);
    AllLinesSound(reader, w, c);
    assert NoCollision(w.env, c) && reader.env == w.env by { ReadableParts(reader, w, c); }
    ChainReadsBack(w, c);
    hide NoCollision;
    forall n ensures Of(n, Events(reader, lines)) == if n == w.nodeId then ReadBack(c) else [] {
      OneNodeEvents(reader, w, c, n);
    }
    ShortChain(w);
    assert Of(w.nodeId, Events(reader, lines)) == ReadBack(c);
    ExactAcceptance(reader, lines);
  }

  lemma ReadableParts(reader: Reader, w: World, c: seq<SignedEvent>)
    requires Readable(reader, w, c)
    ensures NoCollision(w.env, c) && reader.env == w.env
  {
  }

  lemma ShortChain(w: World)
    ensures forall n :: GapFree(w.env, n, [])
  {
  }

  // After any run of any number of signers, however they crashed, and one recovery:
  // the log is one chain, and the reader reports it valid.
  lemma EveryRunVerifies(w: World, actions: seq<Protocol.Action>, who: Owner, reader: Reader)
    returns (c: seq<SignedEvent>)
    requires Laws(w.env) && who.nodeId == w.nodeId
    ensures var d := Protocol.Play(w, actions).disk;
      var end := ApplyAll(d, RecoverPlan(who, d).effects);
      && RecoverPlan(who, d).error.None?
      && GoodChain(w, c) && |c| == ProtocolTheorems.CommittedSequence(end) && LogBytes(end) == LogOf(c)
      && (Readable(reader, w, c) ==>
            (Accepts(reader, Lines(Utf8.DecodeReplace(LogBytes(end)))) <==> |c| <= MAX_TRACKED_HASHES))
  {
    hide Laws, Run, Readable, GoodChain, LogOf;
    c := ProtocolTheorems.AlwaysRecovers(w, actions, who, who, 0);
    if Readable(reader, w, c) {
      LogVerifies(reader, w, c);
    }
  }
}
