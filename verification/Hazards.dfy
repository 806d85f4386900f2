/** Where the store's own safeguards stop: appending without recovery, losing the
    state file, and the administrative repair. */
module Hazards {
  import opened Json
  import opened PyText
  import opened Utf8
  import opened Models
  import opened ModelsLaws
  import opened Signer
  import opened Store
  import opened StoreLaws
  import opened Recovery
  import StreamTheorems

  // ---- appending without recovering -------------------------------------------------------

  // The journal names a whole record in the log that the state does not count yet.
  predicate CommitPending(who: Owner, d: Disk) {
    && d.journal.Some? && ReadState(who, d).Ok?
    && var v := ViewJournal(who.nodeId, d.journal.value);
       v.Readable? && Appended(LogBytes(d), v.offset, Payload(v.record)) && ReadState(who, d).value.lastSequence < v.sequence
  }

  // The log already holds, whole, a genuine record with the number the next append
  // would issue.
  ghost predicate NextTaken(w: World, who: Owner, d: Disk, c: seq<SignedEvent>) {
    exists e :: Genuine(w.env, w.nodeId, w.keys, e) && ReadState(who, d).Ok?
      && e.sequence == ReadState(who, d).value.lastSequence + 1 && LogOf(c) + Payload(Line(e)) <= LogBytes(d)
  }

  lemma {:induction false} NoNewlineByte(s: string)
    requires OneLine(s)
    ensures 10 !in Encode(s)
  {
    if s != [] {
      NoNewlineByte(s[1..]);
      assert s[0] != '\n';
    }
  }

  lemma PayloadEnds(e: SignedEvent)
    ensures var p := Payload(Line(e)); p != [] && p[|p| - 1] == 10 && 10 !in p[..|p| - 1]
  {
    hide Line;
    LineShape(e);
    NoNewlineByte(Line(e));
    EncodeConcat(Line(e), "\n");
    assert Encode("\n") == [10] by { assert "\n"[1..] == ""; }
    assert Payload(Line(e))[..|Payload(Line(e))| - 1] == Encode(Line(e));
  }

  lemma PrefixLast(q: seq<byte>, p: seq<byte>)
    requires q != [] && q <= p
    ensures q[|q| - 1] in p
  {
    assert p[|q| - 1] == q[|q| - 1];
  }

  // No whole record fits in part of another's line.
  lemma PartHoldsNoRecord(e: SignedEvent, x: SignedEvent, k: nat)
    requires k < |Payload(Line(e))|
    ensures !(Payload(Line(x)) <= Payload(Line(e))[..k])
  {
    hide Line, Payload;
    PayloadEnds(e);
    PayloadEnds(x);
    var p, q := Payload(Line(e)), Payload(Line(x));
    var cut := p[..k];
    assert p[..|p| - 1][..k] == cut;
    if q <= cut {
      PrefixLast(q, cut);
    }
  }

  lemma TailBeyond(log: seq<byte>, c: seq<byte>, rest: seq<byte>, p: seq<byte>)
    requires log == c + rest
    ensures c + p <= log <==> p <= rest
  {
    if c + p <= log {
      assert forall i :: 0 <= i < |p| ==> p[i] == (c + p)[|c| + i] == log[|c| + i] == rest[i];
    }
  }

  lemma NothingBeyond(w: World, d: Disk, c: seq<SignedEvent>, phase: Phase, x: SignedEvent)
    requires Holds(w, d, c, phase)
    requires phase.Writing? ==> phase.k < |Payload(Line(phase.next))|
    ensures !(LogOf(c) + Payload(Line(x)) <= LogBytes(d))
  {
    hide GoodChain, LogOf, Line, Payload, StateFits, Idle, Names;
    PayloadEnds(x);
    if phase.Writing? {
      TailBeyond(LogBytes(d), LogOf(c), Payload(Line(phase.next))[..phase.k], Payload(Line(x)));
      PartHoldsNoRecord(phase.next, x, phase.k);
    } else {
      TailBeyond(LogBytes(d), LogOf(c), [], Payload(Line(x)));
    }
  }

  lemma NothingTaken(w: World, who: Owner, d: Disk, c: seq<SignedEvent>, phase: Phase)
    requires Holds(w, d, c, phase) && who.nodeId == w.nodeId
    requires phase.Writing? ==> phase.k < |Payload(Line(phase.next))|
    ensures !NextTaken(w, who, d, c)
  {
    hide Holds, LogOf, Line, Payload, Genuine, ReadState;
    forall x ensures !(LogOf(c) + Payload(Line(x)) <= LogBytes(d)) {
      NothingBeyond(w, d, c, phase, x);
    }
  }

  lemma OneTaken(w: World, who: Owner, d: Disk, c: seq<SignedEvent>, e: SignedEvent)
    requires Holds(w, d, c, Writing(e, |Payload(Line(e))|)) && who.nodeId == w.nodeId
    ensures NextTaken(w, who, d, c)
  {
    hide LogOf, Line, Payload, StateFits, Idle, Names, Genuine, ReadState;
    StateReads(w, who, d, c);
    NextSequence(w, c, e);
    assert Payload(Line(e))[..|Payload(Line(e))|] == Payload(Line(e));
    assert (c + [e])[|c|] == e;
  }

  lemma PendingPhase(w: World, who: Owner, d: Disk, c: seq<SignedEvent>, phase: Phase)
    requires Holds(w, d, c, phase) && who.nodeId == w.nodeId
    ensures CommitPending(who, d) <==> phase.Writing? && phase.k == |Payload(Line(phase.next))|
  {
    hide ViewJournal, GoodChain, LogOf, Line, Payload, StateFits, ReadState;
    StateReads(w, who, d, c);
    match phase
    case Quiet =>
    case Writing(e, k) =>
      NextSequence(w, c, e);
      assert Payload(Line(e))[..|Payload(Line(e))|] == Payload(Line(e));
    case Committed =>
      assert c[..|c| - 1] + [c[|c| - 1]] == c;
      NextSequence(w, c[..|c| - 1], c[|c| - 1]);
  }

  // An append that skips recovery issues a number some whole record in the log
  // already has exactly when a commit is pending in the journal.
  lemma UnrecoveredReuse(w: World, who: Owner, d: Disk, c: seq<SignedEvent>, phase: Phase)
    requires Holds(w, d, c, phase) && who.nodeId == w.nodeId
    ensures NextTaken(w, who, d, c) <==> CommitPending(who, d)
  {
    hide Holds, NextTaken, CommitPending;
    PendingPhase(w, who, d, c, phase);
    if CommitPending(who, d) {
      OneTaken(w, who, d, c, phase.next);
    } else {
      assert phase.Writing? ==> phase.k < |Payload(Line(phase.next))| by { WithinPayload(w, d, c, phase); }
      NothingTaken(w, who, d, c, phase);
    }
  }

  lemma WithinPayload(w: World, d: Disk, c: seq<SignedEvent>, phase: Phase)
    requires Holds(w, d, c, phase)
    ensures phase.Writing? ==> phase.k <= |Payload(Line(phase.next))|
  {
  }

  // ---- lost evidence, and repair ---------------------------------------------------------------

  // The chain was committed whole, but only its first `m` records are in the log.
  ghost predicate LostAfter(w: World, d: Disk, c: seq<SignedEvent>, m: nat) {
    GoodChain(w, c) && m < |c| && StateFits(d.state, w.nodeId, c) && d.log == Some(LogOf(c[..m])) && d.journal.None?
  }

  lemma LostTail(w: World, d: Disk, c: seq<SignedEvent>, m: nat)
    requires LostAfter(w, d, c, m)
    ensures LogTail(w.nodeId, d) == if m == 0 then None else Some(Logged(m, c[m - 1].eventHash))
  {
    hide LogTail, LogOf, StateFits, GoodChain;
    ChainCut(w, c, m);
    ChainTail(w, d, c[..m]);
  }

  lemma ChainCut(w: World, c: seq<SignedEvent>, m: nat)
    requires GoodChain(w, c) && m <= |c|
    ensures GoodChain(w, c[..m])
  {
    hide Genuine, GenesisPreviousHash, ComputeEventHash;
    var cut := c[..m];
    assert forall i :: 0 <= i < m ==>
      StreamTheorems.ExpectedPrevious(w.env, w.nodeId, cut, i) == StreamTheorems.ExpectedPrevious(w.env, w.nodeId, c, i);
  }

  lemma NoJournal(who: Owner, d: Disk)
    requires d.journal.None?
    ensures RecoverPlan(who, d) == CheckPlan(who, d, ReadState(who, d))
  {
    hide CheckPlan, ReplayEntry;
    assert ApplyAll(d, []) == d;
    assert [] + CheckPlan(who, d, ReadState(who, d)).effects == CheckPlan(who, d, ReadState(who, d)).effects;
  }

  // State and log of one chain, each at its own place in it.
  ghost predicate Apart(w: World, d: Disk, c: seq<SignedEvent>, state: nat, log: nat) {
    && GoodChain(w, c) && state <= |c| && log <= |c| && StateFits(d.state, w.nodeId, c[..state])
    && (d.log == Some(LogOf(c[..log])) || (d.log.None? && log == 0)) && d.journal.None?
  }

  lemma ApartTail(w: World, d: Disk, c: seq<SignedEvent>, state: nat, log: nat)
    requires Apart(w, d, c, state, log)
    ensures LogTail(w.nodeId, d) == if log == 0 then None else Some(Logged(log, c[log - 1].eventHash))
  {
    hide LogTail, LogOf, StateFits, GoodChain;
    if d.log.Some? {
      ChainCut(w, c, log);
      ChainTail(w, d, c[..log]);
    } else {
      NoTail(w.nodeId, d);
    }
  }

  lemma NoTail(nodeId: string, d: Disk)
    requires d.log.None?
    ensures LogTail(nodeId, d) == None
  {
  }

  lemma CheckCases(who: Owner, d: Disk, s: NodeState, tail: Option<Logged>)
    requires LogTail(who.nodeId, d) == tail
    ensures s.lastSequence == 0 ==> CheckPlan(who, d, Ok(s)) == Plan([], None)
    ensures s.lastSequence > 0 && (tail.None? || tail.value.sequence < s.lastSequence) ==>
      CheckPlan(who, d, Ok(s)) == Plan([], Some(Divergence))
    ensures s.lastSequence > 0 && tail.Some? && tail.value.sequence == s.lastSequence ==>
      CheckPlan(who, d, Ok(s)) == Plan([], None)
    ensures s.lastSequence > 0 && tail.Some? && tail.value.sequence > s.lastSequence ==>
      CheckPlan(who, d, Ok(s)) == Plan([SetState(AdoptedState(who, s, tail.value))], None)
  {
    hide LogTail, AdoptedState;
  }

  // What recovery plans when state and log are apart.
  lemma ApartPlan(w: World, who: Owner, d: Disk, c: seq<SignedEvent>, state: nat, log: nat)
    requires Apart(w, d, c, state, log) && who.nodeId == w.nodeId
    ensures ReadState(who, d).Ok? && ReadState(who, d).value.lastSequence == state
    ensures log < state ==> RecoverPlan(who, d) == Plan([], Some(Divergence))
    ensures log == state || state == 0 ==> RecoverPlan(who, d) == Plan([], None)
    ensures log > state > 0 ==>
      RecoverPlan(who, d)
      == Plan([SetState(AdoptedState(who, ReadState(who, d).value, Logged(log, c[log - 1].eventHash)))], None)
  {
    hide LogTail, LogOf, ReadState, GoodChain, RecoverPlan, CheckPlan, AdoptedState, StateFits;
    ApartTail(w, d, c, state, log);
    StateReads(w, who, d, c[..state]);
    NoJournal(who, d);
    CheckCases(who, d, ReadState(who, d).value, LogTail(who.nodeId, d));
  }

  lemma Adopted(w: World, who: Owner, d: Disk, c: seq<SignedEvent>, state: nat, log: nat)
    requires Apart(w, d, c, state, log) && who.nodeId == w.nodeId && log > state > 0
    ensures RecoverPlan(who, d).error.None?
    ensures var end := ApplyAll(d, RecoverPlan(who, d).effects);
      StateFits(end.state, w.nodeId, c[..log]) && end.log == d.log && end.journal.None?
  {
    hide LogOf, ReadState, GoodChain, RecoverPlan, StateFits, Or;
    ApartPlan(w, who, d, c, state, log);
    AdoptedKey(w, who, d, c[..state]);
    var s := AdoptedState(who, ReadState(who, d).value, Logged(log, c[log - 1].eventHash));
    ApplyOne(d, SetState(s));
    ChainCut(w, c, log);
    ChainState(w, c[..log], s);
  }

  lemma SameLength(s: Option<NodeState>, nodeId: string, c: seq<SignedEvent>, m: nat, n: nat)
    requires m <= |c| && n <= |c| && StateFits(s, nodeId, c[..m])
    ensures StateFits(s, nodeId, c[..n]) <==> m == n
  {
  }

  // State and log at any two places of one chain, and no journal: recovery refuses
  // exactly when the log is behind; and it ends without error, with the state where
  // the log ends, exactly when the log is not behind and the state is past zero or
  // the log is empty.  At zero the check is skipped: a log that holds records is left
  // as it is, and the next append starts again at 1.
  lemma StateAgainstLog(w: World, who: Owner, d: Disk, c: seq<SignedEvent>, state: nat, log: nat)
    requires Apart(w, d, c, state, log) && who.nodeId == w.nodeId
    ensures var plan := RecoverPlan(who, d);
      var end := ApplyAll(d, plan.effects);
      && (plan.error.Some? <==> log < state)
      && (log < state ==> plan == Plan([], Some(Divergence)))
      && (plan.error.None? && StateFits(end.state, w.nodeId, c[..log]) <==> log >= state && (state > 0 || log == 0))
      && (state == 0 ==> plan == Plan([], None) && ReadState(who, end).Ok? && ReadState(who, end).value.lastSequence + 1 == 1)
      && end.log == d.log && end.journal.None?
  {
    hide LogOf, ReadState, GoodChain, RecoverPlan, StateFits, AdoptedState;
    ApartPlan(w, who, d, c, state, log);
    assert ApplyAll(d, []) == d;
    if log > state > 0 {
      Adopted(w, who, d, c, state, log);
    } else {
      SameLength(d.state, w.nodeId, c, state, log);
    }
  }

  lemma AdoptedKey(w: World, who: Owner, d: Disk, c: seq<SignedEvent>)
    requires StateFits(d.state, w.nodeId, c) && c != [] && who.nodeId == w.nodeId
    ensures ReadState(who, d).Ok? && Or(who.keyId, ReadState(who, d).value.keyId) != ""
  {
  }

  // The repair then rewinds the state to what is left, and the next append reissues
  // number m + 1, which a signed record had.  With nothing left it refuses too.
  lemma RepairAfterLoss(w: World, who: Owner, d: Disk, c: seq<SignedEvent>, m: nat)
    requires LostAfter(w, d, c, m) && who.nodeId == w.nodeId && who.keyId != ""
    ensures var repaired := ApplyAll(d, RepairPlan(who, d, None).effects);
      if m == 0 then RepairPlan(who, d, None) == Plan([], Some(Divergence))
      else
        && RepairPlan(who, d, None).error.None? && ReadState(who, repaired).Ok?
        && ReadState(who, repaired).value.lastSequence == m < |c|
        && RecoverPlan(who, repaired) == Plan([], None)
  {
    hide GoodChain, LogOf, StateFits;
    LostTail(w, d, c, m);
    StateReads(w, who, d, c);
    if m > 0 {
      var s := NodeState(who.nodeId, who.keyId, m, Some(c[m - 1].eventHash), FORMAT_VERSION);
      ApplyOne(d, SetState(s));
      var repaired := d.(state := Some(s));
      ChainCut(w, c, m);
      ChainState(w, c[..m], s);
      hide LogTail;
      assert Holds(w, repaired, c[..m], Quiet);
      RecoverMends(w, who, repaired, c[..m], Quiet);
      StateReads(w, who, repaired, c[..m]);
    }
  }

  // The state after a repair is what the log's tail says, never mind what it was:
  // so it moves back exactly when the tail is behind it.
  lemma RepairFollowsTail(who: Owner, d: Disk)
    requires RepairPlan(who, d, None).error.None?
    ensures var after := ApplyAll(d, RepairPlan(who, d, None).effects).state;
      && after.Some?
      && after.value.lastSequence == (if LogTail(who.nodeId, d).Some? then LogTail(who.nodeId, d).value.sequence else 0)
      && after.value.lastEventHash
         == (if LogTail(who.nodeId, d).Some? then Some(LogTail(who.nodeId, d).value.eventHash) else None)
      && after.value.nodeId == who.nodeId && after.value.keyId == who.keyId
      && (ReadState(who, d).Ok? ==>
            (after.value.lastSequence < ReadState(who, d).value.lastSequence
             <==> LogTail(who.nodeId, d).Some?
                  && LogTail(who.nodeId, d).value.sequence < ReadState(who, d).value.lastSequence))
  {
    hide LogTail, ReadState;
    ApplyOne(d, RepairPlan(who, d, None).effects[0]);
  }

  // It is refused exactly when the log shows no record of the node and the state is good
  // and past 0.  A state that cannot be read does not stop it, and is lost.
  lemma RepairRefuses(who: Owner, d: Disk)
    ensures RepairPlan(who, d, None).error.Some?
      <==> && LogTail(who.nodeId, d).None?
           && d.state.Some? && ValidState(d.state.value, who.nodeId) && d.state.value.lastSequence > 0
    ensures RepairPlan(who, d, None).error.Some? ==> RepairPlan(who, d, None) == Plan([], Some(Divergence))
  {
    hide LogTail, Hex64;
  }

  // What it writes can be read again exactly when the store has a key and a node
  // and the tail carries a position: a number of at least 1 and a SHA3-256 digest.
  lemma RepairReadable(who: Owner, d: Disk)
    requires RepairPlan(who, d, None).error.None?
    ensures var tail := LogTail(who.nodeId, d);
      ReadState(who, ApplyAll(d, RepairPlan(who, d, None).effects)).Ok?
      <==> who.nodeId != "" && who.keyId != "" && (tail.Some? ==> tail.value.sequence >= 1 && Hex64(tail.value.eventHash))
  {
    hide LogTail, Hex64;
    ApplyOne(d, RepairPlan(who, d, None).effects[0]);
  }
}
