/** What every run of the signers guarantees, whatever crashes in it. */
module ProtocolTheorems {
  import opened Json
  import opened Utf8
  import opened Models
  import opened Signer
  import opened Store
  import opened StoreLaws
  import opened Recovery
  import opened Transaction
  import opened Protocol

  lemma {:induction false} RunInvariant(w: World, actions: seq<Action>) returns (c: seq<SignedEvent>, phase: Phase)
    requires Laws(w.env)
    ensures Inv(w, Play(w, actions), c, phase)
  {
    hide Next, Laws;
    if actions == [] {
      c, phase := [], Quiet;
      assert Holds(w, START.disk, [], Quiet);
    } else {
      var c0, phase0 := RunInvariant(w, actions[..|actions| - 1]);
      c, phase := StepKeeps(w, Play(w, actions[..|actions| - 1]), actions[|actions| - 1], c0, phase0);
    }
  }

  // From any point of a run on, the committed chain only grows.
  lemma {:induction false} RunGrows(w: World, actions: seq<Action>, n: nat, c: seq<SignedEvent>, phase: Phase)
    returns (c': seq<SignedEvent>, phase': Phase)
    requires Laws(w.env) && n <= |actions| && Inv(w, Play(w, actions[..n]), c, phase)
    ensures Inv(w, Play(w, actions), c', phase') && c <= c'
    ensures Play(w, actions[..n]).acks <= Play(w, actions).acks
    decreases |actions|
  {
    hide Inv, Laws;
    if n == |actions| {
      assert actions[..n] == actions;
      c', phase' := c, phase;
    } else {
      var front, a := actions[..|actions| - 1], actions[|actions| - 1];
      assert front[..n] == actions[..n];
      var c1, phase1 := RunGrows(w, front, n, c, phase);
      c', phase' := StepKeeps(w, Play(w, front), a, c1, phase1);
      AcksOnlyAppended(w, Play(w, front), a);
    }
  }

  lemma AcksOnlyAppended(w: World, s: Sys, a: Action)
    ensures s.acks <= Next(w, s, a).acks
  {
    hide RecoverPlan, Attempt, WritePlan, CommitPlan, RollbackPlan, Callable;
  }

  // The sequence number the state file claims.
  function CommittedSequence(d: Disk): int {
    if d.state.Some? then d.state.value.lastSequence else 0
  }

  // At every moment the log is the complete records 1..n, and after them at most a
  // prefix of one record that a whole journal names at that very offset; the state
  // claims n exactly.  So the state is never ahead of the log, and the log is ahead
  // of the state (by one whole record) only under a journal that says so.
  lemma LogHoldsChain(w: World, actions: seq<Action>)
    returns (c: seq<SignedEvent>, next: seq<SignedEvent>, k: nat)
    requires Laws(w.env)
    ensures var d := Play(w, actions).disk;
      && GoodChain(w, c) && |c| == CommittedSequence(d) && |next| <= 1
      && (next == [] ==> LogBytes(d) == LogOf(c))
      && (next != [] ==>
            && GoodChain(w, c + next) && Names(d.journal, w.nodeId, next[0], |LogOf(c)|)
            && k <= |Payload(Line(next[0]))| && LogBytes(d) == LogOf(c) + Payload(Line(next[0]))[..k])
  {
    var phase;
    c, phase := RunInvariant(w, actions);
    hide GoodChain, Names, Line, LogOf, Idle;
    if phase.Writing? {
      next, k := [phase.next], phase.k;
    } else {
      next, k := [], 0;
    }
  }

  lemma LogStartsWithChain(w: World, d: Disk, c: seq<SignedEvent>, phase: Phase)
    requires Holds(w, d, c, phase)
    ensures LogOf(c) <= LogBytes(d)
  {
    hide GoodChain, LogOf, StateFits, Names, Line, Idle;
  }

  lemma AckInChain(c: seq<SignedEvent>, a: Ack)
    requires AckHolds(a, c)
    ensures Appended(LogOf(c), a.offset, Payload(a.record))
  {
    hide LogOf, Line, Payload;
    var front, e := c[..a.sequence - 1], c[a.sequence - 1];
    assert c[..a.sequence] == front + [e];
    LogAppend(front, e);
    LogPrefix(c, a.sequence);
    PrefixAppended(LogOf(c[..a.sequence]), LogOf(c), a.offset, Payload(a.record));
  }

  lemma PrefixAppended(log: seq<byte>, more: seq<byte>, offset: nat, payload: seq<byte>)
    requires Appended(log, offset, payload) && log <= more
    ensures Appended(more, offset, payload)
  {
    assert more[offset..offset + |payload|] == log[offset..offset + |payload|];
  }

  lemma StateCounts(w: World, d: Disk, c: seq<SignedEvent>, phase: Phase)
    requires Holds(w, d, c, phase)
    ensures CommittedSequence(d) == |c|
  {
    hide GoodChain, LogOf, Names, Line, Idle;
  }

  lemma AckInLog(w: World, d: Disk, c: seq<SignedEvent>, phase: Phase, a: Ack)
    requires Holds(w, d, c, phase) && AckHolds(a, c)
    ensures Appended(LogBytes(d), a.offset, Payload(a.record))
    ensures a.offset + |Payload(a.record)| <= |LogOf(c)|
    ensures a.sequence <= CommittedSequence(d)
  {
    AckInChain(c, a);
    StateCounts(w, d, c, phase);
    hide Holds, LogOf, Payload;
    LogStartsWithChain(w, d, c, phase);
    PrefixAppended(LogOf(c), LogBytes(d), a.offset, Payload(a.record));
  }

  // Once an append has returned, in every later state its record lies whole at the
  // offset where it was written, and the state counts it.
  lemma AcknowledgedIsDurable(w: World, actions: seq<Action>, n: nat, i: nat)
    requires Laws(w.env) && n <= |actions| && i < |Play(w, actions[..n]).acks|
    ensures var a := Play(w, actions[..n]).acks[i];
      var later := Play(w, actions);
      && i < |later.acks| && later.acks[i] == a
      && Appended(LogBytes(later.disk), a.offset, Payload(a.record))
      && a.sequence <= CommittedSequence(later.disk)
  {
    hide Play, Laws, AckHolds, Holds, Appended;
    var c, phase := RunInvariant(w, actions[..n]);
    var c', phase' := RunGrows(w, actions, n, c, phase);
    AckInLog(w, Play(w, actions).disk, c', phase', Play(w, actions).acks[i]);
  }

  // No sequence number is acknowledged twice, nor ever issued again once acknowledged.
  lemma NeverReissued(w: World, actions: seq<Action>)
    requires Laws(w.env)
    ensures var s := Play(w, actions);
      && (forall i, j :: 0 <= i < j < |s.acks| ==> s.acks[i].sequence < s.acks[j].sequence)
      && (forall p, i :: ProcOf(s, p).Appending? && 0 <= i < |s.acks| ==>
            s.acks[i].sequence < ProcOf(s, p).ack.sequence)
  {
    hide Play, Holds, AckHolds;
    var c, phase := RunInvariant(w, actions);
  }

  // No truncation about to happen, in recovery or rollback, reaches below a record
  // that was acknowledged, or past the end of the file.
  lemma TruncationSpares(w: World, actions: seq<Action>, p: nat, offset: nat)
    requires Laws(w.env)
    requires Todo(ProcOf(Play(w, actions), p)) != [] && Todo(ProcOf(Play(w, actions), p))[0] == Truncate(offset)
    ensures var s := Play(w, actions);
      && offset <= |LogBytes(s.disk)|
      && forall i :: 0 <= i < |s.acks| ==> s.acks[i].offset + |Payload(s.acks[i].record)| <= offset
  {
    hide Play, Holds, AckHolds;
    var s := Play(w, actions);
    var c, phase := RunInvariant(w, actions);
    LogStartsWithChain(w, s.disk, c, phase);
    forall i | 0 <= i < |s.acks| ensures s.acks[i].offset + |Payload(s.acks[i].record)| <= offset {
      AckInLog(w, s.disk, c, phase, s.acks[i]);
    }
  }

  // Two processes are never both at work on the files.
  lemma OneWriter(w: World, actions: seq<Action>, p: nat, q: nat)
    requires Laws(w.env) && p != q
    ensures ProcOf(Play(w, actions), p) == Outside || ProcOf(Play(w, actions), q) == Outside
  {
    hide Play, Holds, Working, Acknowledged;
    var c, phase := RunInvariant(w, actions);
  }

  // Whatever a run has left, recovery succeeds; it ends with the log, the state and
  // no journal, as one chain; and cutting it short anywhere and recovering again,
  // in any process, ends in the very same files.
  lemma AlwaysRecovers(w: World, actions: seq<Action>, who: Owner, again: Owner, i: nat)
    returns (c: seq<SignedEvent>)
    requires Laws(w.env) && who.nodeId == w.nodeId && again.nodeId == w.nodeId
    requires i <= |RecoverPlan(who, Play(w, actions).disk).effects|
    ensures var d := Play(w, actions).disk;
      var plan := RecoverPlan(who, d);
      var cut := ApplyAll(d, plan.effects[..i]);
      var end := ApplyAll(d, plan.effects);
      && plan.error.None? && RecoverPlan(again, cut).error.None?
      && ApplyAll(cut, RecoverPlan(again, cut).effects) == end
      && RecoverPlan(again, end) == Plan([], None)
      && GoodChain(w, c) && |c| == CommittedSequence(end) && LogBytes(end) == LogOf(c) && end.journal.None?
  {
    hide Play, RecoverPlan, Laws, LogOf, GoodChain, Idle;
    var d := Play(w, actions).disk;
    var c0, phase := RunInvariant(w, actions);
    var m := RecoverPlan(who, d).effects;
    RecoveryConverges(w, who, again, d, c0, phase, i);
    RecoveryConverges(w, who, again, d, c0, phase, |m|);
    assert m[..|m|] == m;
    RecoverMends(w, who, d, c0, phase);
    var phase';
    c, phase' := MendingHolds(w, d, c0, phase, |m|);
    hide Mending;
    RecoverMends(w, again, ApplyAll(d, m), c, phase');
  }
}
