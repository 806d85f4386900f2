/** The assumptions are not contradictory: there are libraries that keep every law
    asked of them, and a run on which a record is acknowledged. */
module Consistency {
  import opened Json
  import opened Utf8
  import opened Models
  import opened ModelsLaws
  import opened Signer
  import opened Store
  import opened StoreLaws
  import opened Recovery
  import opened Transaction
  import opened Protocol
  import opened Outcome

  // ---- an encoding of the size of base64 ---------------------------------------------

  const PAD: char := '\U{0100}'

  function Letter(b: seq<byte>, i: nat): char {
    if i < |b| then b[i] as char else PAD
  }

  // Three octets to four characters, as base64 has it.
  function Text(b: seq<byte>): (s: string)
    ensures |s| == 4 * ((|b| + 2) / 3)
  {
    if b == [] then []
    else [Letter(b, 0), Letter(b, 1), Letter(b, 2), PAD] + (if |b| <= 3 then [] else Text(b[3..]))
  }

  function Octets(s: string): seq<byte> {
    if s == [] then []
    else (if s[0] as int < 256 then [s[0] as int] else []) + Octets(s[1..])
  }

  lemma {:induction false} TextReads(b: seq<byte>)
    ensures Octets(Text(b)) == b
  {
    if b != [] {
      var s, head := Text(b), [Letter(b, 0), Letter(b, 1), Letter(b, 2), PAD];
      var tail := s[4..];
      assert s == head + tail;
      OctetsFour(head, tail);
      if |b| <= 3 {
        assert tail == [];
      } else {
        assert tail == Text(b[3..]);
        TextReads(b[3..]);
        assert b == [b[0], b[1], b[2]] + b[3..];
      }
    }
  }

  function Kept(c: char): seq<byte> {
    if c as int < 256 then [c as int] else []
  }

  lemma OctetsFour(head: string, tail: string)
    requires |head| == 4
    ensures Octets(head + tail) == Kept(head[0]) + Kept(head[1]) + Kept(head[2]) + Kept(head[3]) + Octets(tail)
  {
    hide Octets, Kept;
    var s3 := [head[3]] + tail;
    var s2 := [head[2]] + s3;
    var s1 := [head[1]] + s2;
    OctetsStep(head[3], tail);
    OctetsStep(head[2], s3);
    OctetsStep(head[1], s2);
    OctetsStep(head[0], s1);
    assert head + tail == [head[0]] + s1;
  }

  lemma OctetsStep(c: char, s: string)
    ensures Octets([c] + s) == Kept(c) + Octets(s)
  {
    assert ([c] + s)[1..] == s;
  }

  function Zeros(n: nat): seq<byte> {
    seq(n, i => 0)
  }

  const EXAMPLE := Env(
    b => ZERO_HASH,
    (k, m, a) => Zeros(SignatureSize(a)),
    (p, m, s, a) => true,
    k => k,
    b => Text(b),
    s => Some(Octets(s)),
    t => if |t| == 27 then Some(t) else None,
    t => |t|)

  lemma LawsCanHold()
    ensures Laws(EXAMPLE)
  {
    forall b ensures EXAMPLE.unb64(EXAMPLE.b64(b)) == Some(b) {
      TextReads(b);
    }
  }

  // ---- a run ----------------------------------------------------------------------------------

  lemma FreshRecovers(who: Owner)
    ensures RecoverPlan(who, START.disk) == Plan([], None)
    ensures ReadState(who, START.disk) == Ok(NodeState(who.nodeId, who.keyId, 0, None, FORMAT_VERSION))
  {
    var none: seq<Effect> := [];
    assert none + [] == none;
  }

  lemma FirstReady(w: World, who: Owner) returns (actions: seq<Action>)
    requires who.nodeId == w.nodeId
    ensures var s := Play(w, actions); s.disk == START.disk && ProcOf(s, 0) == Ready(who) && s.acks == []
  {
    hide RecoverPlan;
    FreshRecovers(who);
    var first := [Enter(0, who)];
    actions := first + [Recovered(0)];
    assert first[..0] == [] && actions[..1] == first;
    assert Play(w, first) == Next(w, START, Enter(0, who));
    assert Play(w, actions) == Next(w, Play(w, first), Recovered(0));
  }

  lemma FirstAttempt(w: World, signer: Identity, event: Json, timestamp: string, writtenAt: string)
    requires Laws(w.env) && signer.algorithm in SIGNATURE_ALGORITHMS && w.env.normalize(timestamp).Some?
    requires ValidIdentifier(signer.nodeId) && ValidIdentifier(signer.keyId) && ValidateEvent(event).Ok?
    ensures var attempt := Attempt(w, Owner(signer.nodeId, signer.keyId), START.disk, signer, event, timestamp, writtenAt);
      attempt.Some? && attempt.value.0.sequence == 1 && attempt.value.0.offset == 0
  {
    hide BuildAndSign, ValidateEvent, ValidIdentifier, ReadState;
    FreshRecovers(Owner(signer.nodeId, signer.keyId));
    var previous := GenesisPreviousHash(w.env, signer.nodeId);
    assert ValidHash(previous);
    SigningSucceeds(w.env, signer, event, timestamp, 1, previous);
  }

  // On a store just created, a signer whose event is valid acknowledges record 1, at
  // the start of the log.
  lemma FirstRecordAcknowledged(w: World, signer: Identity, event: Json, timestamp: string, writtenAt: string)
    returns (actions: seq<Action>)
    requires Laws(w.env) && Callable(w, START.disk, signer, event, writtenAt)
    requires signer.algorithm in SIGNATURE_ALGORITHMS && w.env.normalize(timestamp).Some?
    requires ValidIdentifier(signer.nodeId) && ValidIdentifier(signer.keyId) && ValidateEvent(event).Ok?
    ensures var s := Play(w, actions);
      |s.acks| == 1 && s.acks[0].sequence == 1 && s.acks[0].offset == 0
      && s.disk.log == Some(Payload(s.acks[0].record)) && s.disk.journal.None?
  {
    hide Laws, ValidateEvent, ValidIdentifier, Attempt, Next, Payload, Callable;
    var who := Owner(signer.nodeId, signer.keyId);
    assert signer.nodeId == w.nodeId by { CallableNode(w, START.disk, signer, event, writtenAt); }
    var before := FirstReady(w, who);
    var ready, begin := Play(w, before), Begin(0, signer, event, timestamp, writtenAt);
    FirstAttempt(w, signer, event, timestamp, writtenAt);
    AppendCompletes(w, ready, begin);
    var n := |Todo(ProcOf(Next(w, ready, begin), 0))|;
    var begun := before + [begin];
    actions := begun + Writes(0, n) + [Acknowledge(0)];
    PlayOne(w, before, begin);
    PlayWrites(w, begun, 0, n);
    PlayOne(w, begun + Writes(0, n), Acknowledge(0));
    var record := Play(w, actions).acks[0].record;
    assert LogBytes(START.disk) + Payload(record) == Payload(record);
  }

  lemma CallableNode(w: World, d: Disk, signer: Identity, event: Json, writtenAt: string)
    requires Callable(w, d, signer, event, writtenAt)
    ensures signer.nodeId == w.nodeId
  {
  }

  lemma PlayOne(w: World, actions: seq<Action>, a: Action)
    ensures Play(w, actions + [a]) == Next(w, Play(w, actions), a)
  {
    hide Next;
    assert (actions + [a])[..|actions|] == actions;
  }

  function Writes(p: nat, n: nat): (r: seq<Action>)
    ensures |r| == n
  {
    if n == 0 then [] else Writes(p, n - 1) + [Write(p)]
  }

  lemma {:induction false} PlayWrites(w: World, actions: seq<Action>, p: nat, n: nat)
    ensures Play(w, actions + Writes(p, n)) == Onwards(w, Play(w, actions), p, n)
  {
    hide Next;
    if n == 0 {
      assert actions + Writes(p, 0) == actions;
    } else {
      PlayWrites(w, actions, p, n - 1);
      var all := actions + Writes(p, n);
      assert all[..|all| - 1] == actions + Writes(p, n - 1);
    }
  }
}
