/** The store's calls are runs of the protocol: a call that ends early has made a
    prefix of the append's effects, or rolled one back, and recovery copes with both. */
module StoreRefinement {
  import opened Json
  import opened Utf8
  import opened Models
  import opened Signer
  import opened Store
  import opened StoreLaws
  import opened Recovery
  import opened Transaction
  import opened Protocol
  import opened Outcome
  import opened EvidenceStore
  import ProtocolTheorems

  // What the signer passes to the store to be called under the lock.
  function Builder(env: Env, signer: Identity, event: Json, timestamp: string): (int, string) -> Result<Signed, StoreError> {
    (sequence, previous) =>
      match BuildAndSign(env, signer, event, timestamp, sequence, previous)
      case Err(_) => Err(SigningFailed)
      case Ok(e) => Ok(Signed(Line(e), e.eventHash))
  }

  // An undisturbed append makes exactly the effects the protocol begins, and one the
  // protocol cannot begin makes none and raises, whatever the store remembers, so
  // long as it answers what the file would.
  lemma AppendIsAttempt(w: World, who: Owner, d: Disk, memory: Option<NodeState>, signer: Identity, event: Json,
                        timestamp: string, writtenAt: string)
    requires ReadThrough(who, d, memory) == ReadState(who, d)
    ensures var plan := AppendPlan(w.env, who, d, memory, Builder(w.env, signer, event, timestamp), signer.keyId, writtenAt,
                                   Fine);
      match Attempt(w, who, d, signer, event, timestamp, writtenAt)
      case None => plan.effects == [] && plan.error.Some?
      case Some((entry, state)) => plan == Plan(WritePlan(d, entry) + CommitPlan(state), None)
  {
    hide WritePlan, CommitPlan, BuildAndSign, ReadState, ReadThrough;
  }

  // On any disk a run can leave, a coherent store answers what the file would.
  lemma CoherentReads(w: World, who: Owner, d: Disk, c: seq<SignedEvent>, memory: Option<NodeState>)
    requires StateFits(d.state, w.nodeId, c) && who.nodeId == w.nodeId && Remembers(who, d.state, memory)
    ensures ReadThrough(who, d, memory) == ReadState(who, d) && ReadState(who, d).Ok?
  {
  }

  // So it is before every append of every run: what a ready process begins is what
  // the store it holds, coherent since it was opened, would do.
  lemma ReadyStoreBegins(w: World, actions: seq<Action>, a: Action, memory: Option<NodeState>)
    requires Laws(w.env) && a.Begin?
    requires var s := Play(w, actions);
      && ProcOf(s, a.p).Ready? && Callable(w, s.disk, a.signer, a.event, a.writtenAt)
      && Remembers(ProcOf(s, a.p).who, s.disk.state, memory)
    ensures var s := Play(w, actions);
      var plan := AppendPlan(w.env, ProcOf(s, a.p).who, s.disk, memory, Builder(w.env, a.signer, a.event, a.timestamp),
                             a.signer.keyId, a.writtenAt, Fine);
      Todo(ProcOf(Next(w, s, a), a.p)) == plan.effects
  {
    hide Play, Callable, Attempt, Laws, AppendPlan, GoodChain, LogOf, Names, Idle, Remembers;
    var s := Play(w, actions);
    var c, phase := ProtocolTheorems.RunInvariant(w, actions);
    var who := ProcOf(s, a.p).who;
    assert who.nodeId == w.nodeId && StateFits(s.disk.state, w.nodeId, c) by { ReadyAt(w, s, a.p, c, phase); }
    CoherentReads(w, who, s.disk, c, memory);
    AppendIsAttempt(w, who, s.disk, memory, a.signer, a.event, a.timestamp, a.writtenAt);
  }

  lemma AnswerParts(w: World, who: Owner, d: Disk, memory: Option<NodeState>, signer: Identity, event: Json,
                    timestamp: string, writtenAt: string)
    requires ReadThrough(who, d, memory) == ReadState(who, d)
    ensures var build := Builder(w.env, signer, event, timestamp);
      var plan := AppendPlan(w.env, who, d, memory, build, signer.keyId, writtenAt, Fine);
      var answer := AppendResult(w.env, who, d, memory, build, signer.keyId, writtenAt, Fine);
      var attempt := Attempt(w, who, d, signer, event, timestamp, writtenAt);
      && (answer.Ok? <==> attempt.Some?)
      && (attempt.Some? ==>
            plan.effects == WritePlan(d, attempt.value.0) + CommitPlan(attempt.value.1)
            && (signer.keyId != "" ==> attempt.value.0.keyId == signer.keyId && attempt.value.1.keyId == signer.keyId)
            && attempt.value.0.sequence == answer.value.0 && attempt.value.0.eventHash == answer.value.1)
  {
    hide WritePlan, CommitPlan, BuildAndSign, ReadState, ReadThrough;
  }

  // The log's tail, once the effects of an append at the end of a chain are all made.
  lemma TailAppended(w: World, d: Disk, c: seq<SignedEvent>, e: SignedEvent, entry: Entry, state: NodeState)
    requires Fits(w, c, e, entry) && Holds(w, d, c, Quiet)
    ensures var end := ApplyAll(d, WritePlan(d, entry) + CommitPlan(state));
      && LogTail(w.nodeId, end) == Some(Logged(entry.sequence, entry.eventHash))
      && end.state == Some(state) && end.journal.None?
  {
    hide GoodChain, LogOf, Line, StateFits, Idle, SmallEntry, LogTail, WritePlan, CommitPlan, Payload;
    AppendOutcome(d, entry, state);
    LogAppend(c, e);
    NextSequence(w, c, e);
    ChainTail(w, ApplyAll(d, WritePlan(d, entry) + CommitPlan(state)), c + [e]);
  }

  // What the caller of an append is told is what the protocol acknowledges, what the
  // state then says, and where the log then ends.
  lemma AnswerIsAcknowledged(w: World, actions: seq<Action>, a: Action, memory: Option<NodeState>)
    requires Laws(w.env) && a.Begin?
    requires var s := Play(w, actions);
      && ProcOf(s, a.p).Ready? && Callable(w, s.disk, a.signer, a.event, a.writtenAt)
      && Remembers(ProcOf(s, a.p).who, s.disk.state, memory)
    ensures var s := Play(w, actions);
      var build := Builder(w.env, a.signer, a.event, a.timestamp);
      var plan := AppendPlan(w.env, ProcOf(s, a.p).who, s.disk, memory, build, a.signer.keyId, a.writtenAt, Fine);
      var answer := AppendResult(w.env, ProcOf(s, a.p).who, s.disk, memory, build, a.signer.keyId, a.writtenAt, Fine);
      var begun := ProcOf(Next(w, s, a), a.p);
      var end := ApplyAll(s.disk, plan.effects);
      && (answer.Ok? <==> begun.Appending?)
      && (answer.Ok? ==>
            && begun.ack.sequence == answer.value.0 && begun.ack.eventHash == answer.value.1
            && LogTail(w.nodeId, end) == Some(Logged(answer.value.0, answer.value.1))
            && end.state.Some? && end.state.value.lastSequence == answer.value.0
            && end.state.value.lastEventHash == Some(answer.value.1)
            && end.state.value.nodeId == w.nodeId && end.state.value.keyId == a.signer.keyId)
  {
    hide Play, Callable, Attempt, Laws, AppendPlan, AppendResult, GoodChain, LogOf, Names, Idle, Remembers, LogTail, WritePlan,
      CommitPlan, Builder, ApplyAll, Holds, Fits;
    var s := Play(w, actions);
    var c, phase := ProtocolTheorems.RunInvariant(w, actions);
    var who := ProcOf(s, a.p).who;
    ReadyAt(w, s, a.p, c, phase);
    CoherentReads(w, who, s.disk, c, memory);
    AnswerParts(w, who, s.disk, memory, a.signer, a.event, a.timestamp, a.writtenAt);
    var attempt := Attempt(w, who, s.disk, a.signer, a.event, a.timestamp, a.writtenAt);
    if attempt.Some? {
      var e := AttemptFits(w, who, s.disk, c, a.signer, a.event, a.timestamp, a.writtenAt);
      FitsHash(w, c, e, attempt.value.0);
      AttemptKey(w, who, s.disk, a.signer, a.event, a.timestamp, a.writtenAt);
      TailAppended(w, s.disk, c, e, attempt.value.0, attempt.value.1);
    }
  }

  lemma AttemptKey(w: World, who: Owner, d: Disk, signer: Identity, event: Json, timestamp: string, writtenAt: string)
    requires Attempt(w, who, d, signer, event, timestamp, writtenAt).Some?
    ensures signer.keyId != "" && Attempt(w, who, d, signer, event, timestamp, writtenAt).value.1.keyId == signer.keyId
  {
    hide BuildAndSign, ReadState, Line;
    var s := ReadState(who, d).value;
    var previous := ExpectedPreviousHash(w.env, who.nodeId, s.lastSequence + 1, s.lastEventHash).value;
    SignedKey(w.env, signer, event, timestamp, s.lastSequence + 1, previous);
  }

  lemma FitsHash(w: World, c: seq<SignedEvent>, e: SignedEvent, entry: Entry)
    requires Fits(w, c, e, entry)
    ensures entry.eventHash == e.eventHash
  {
    hide GoodChain, LogOf, Line, SmallEntry;
  }

  lemma ReadyAt(w: World, s: Sys, p: nat, c: seq<SignedEvent>, phase: Phase)
    requires Inv(w, s, c, phase) && ProcOf(s, p).Ready?
    ensures ProcOf(s, p).who.nodeId == w.nodeId && StateFits(s.disk.state, w.nodeId, c) && phase == Quiet
  {
    hide GoodChain, LogOf, Names, Idle, StateFits, Safe, AckHolds;
    assert s.procs[p] != Outside;
  }

  lemma PrefixOfThree(a: seq<Effect>, b: seq<Effect>, c: seq<Effect>)
    ensures a <= a + b + c && a + b <= a + b + c
  {
    assert (a + b + c)[..|a|] == a;
    assert (a + b + c)[..|a + b|] == a + b;
  }

  lemma PartPrefix(a: seq<Effect>, b: seq<Effect>, c: seq<Effect>, n: nat)
    requires n <= |b|
    ensures a + b[..n] <= a + b + c
  {
    assert (a + b + c)[..|a| + n] == a + b[..n];
  }

  // Any mishap but a failed write of the record stops the append after some of its
  // effects, in order, with none skipped.
  lemma MishapIsPrefix(d: Disk, e: Entry, s: NodeState, mishap: Mishap)
    requires !mishap.LogCut?
    ensures AppendEffects(d, e, s, mishap).effects <= WritePlan(d, e) + CommitPlan(s)
  {
    hide JournalWrites, LogWrites, Payload, JournalText, Creation;
    var journal, record := JournalWrites(JournalText(e)), LogWrites(Payload(e.record));
    Sizes(JournalText(e), Payload(e.record));
    PrefixOfThree(Creation(d), journal, record + CommitPlan(s));
    var cut := Least(if mishap.JournalCut? then mishap.k else 0, |JournalText(e)|);
    PartPrefix(Creation(d), journal, record + CommitPlan(s), cut + 1);
    assert Creation(d) + journal + record + CommitPlan(s) == Creation(d) + journal + (record + CommitPlan(s));
    assert CommitPlan(s)[..1] == [SetState(s)];
    PartPrefix(WritePlan(d, e), CommitPlan(s), [], 1);
    assert CommitPlan(s) + [] == CommitPlan(s);
  }

  // What is on the disk when `n` bytes of the record are.
  lemma PartOutcome(d: Disk, text: string, p: seq<byte>, n: nat)
    requires n <= |p|
    ensures ApplyAll(d, Creation(d) + JournalWrites(text) + LogWrites(p)[..n])
         == Disk(Some(LogBytes(d) + p[..n]), d.state, Some(text))
  {
    hide JournalWrites, LogWrites, ApplyAll, Creation;
    var made := d.(log := Some(LogBytes(d)));
    Sizes(text, p);
    Created(d);
    JournalOutcome(made, text, |text|);
    assert text[..|text|] == text;
    LogOutcome(made.(journal := Some(text)), p, n);
    ApplyConcat(d, Creation(d) + JournalWrites(text), LogWrites(p)[..n]);
    ApplyConcat(d, Creation(d), JournalWrites(text));
  }

  // A failed write of the record leaves the log and the state just as they were.
  lemma FailedWriteUndone(d: Disk, e: Entry, s: NodeState, k: nat)
    requires e.offset == |LogBytes(d)|
    ensures ApplyAll(d, AppendEffects(d, e, s, LogCut(k)).effects) == Disk(Some(LogBytes(d)), d.state, None)
  {
    hide JournalWrites, LogWrites, Payload, JournalText, RollbackPlan, ApplyAll, Creation;
    var text, p := JournalText(e), Payload(e.record);
    var n := Least(k, |p|);
    Sizes(text, p);
    var part := Creation(d) + JournalWrites(text) + LogWrites(p)[..n];
    PartOutcome(d, text, p, n);
    ApplyConcat(d, part, RollbackPlan(ApplyAll(d, part), e.offset));
    RollbackOutcome(ApplyAll(d, part), LogBytes(d), p[..n]);
  }

  // Safe work may be stopped after any of its effects.
  lemma {:induction false} SafePrefix(w: World, d: Disk, c: seq<SignedEvent>, phase: Phase, todo: seq<Effect>,
                                      goal: Option<Ack>, i: nat)
    returns (c': seq<SignedEvent>, phase': Phase)
    requires Safe(w, d, c, phase, todo, goal) && i <= |todo|
    ensures Holds(w, ApplyAll(d, todo[..i]), c', phase') && c <= c'
    decreases i
  {
    hide Holds, HeadFits, Apply;
    if i == 0 {
      assert todo[..0] == [];
      c', phase' := c, phase;
    } else {
      var c1, phase1 := SafeNext(w, d, c, phase, todo, goal);
      c', phase' := SafePrefix(w, Apply(d, todo[0]), c1, phase1, todo[1..], goal, i - 1);
      assert todo[..i] == [todo[0]] + todo[1..][..i - 1];
      ApplyConcat(d, [todo[0]], todo[1..][..i - 1]);
      ApplyOne(d, todo[0]);
    }
  }

  // However a call ends, what it leaves is something recovery brings to rest, with
  // every committed record still there.
  lemma EveryMishapRecovers(w: World, d: Disk, c: seq<SignedEvent>, e: SignedEvent, entry: Entry, s: NodeState,
                            mishap: Mishap, who: Owner)
    returns (c': seq<SignedEvent>, phase: Phase)
    requires Fits(w, c, e, entry) && Holds(w, d, c, Quiet) && who.nodeId == w.nodeId
    requires s.keyId != "" && s == NodeState(w.nodeId, s.keyId, |c| + 1, Some(e.eventHash), FORMAT_VERSION)
    ensures var left := ApplyAll(d, AppendEffects(d, entry, s, mishap).effects);
      Holds(w, left, c', phase) && c <= c' && RecoverPlan(who, left).error.None?
  {
    hide Safe, WritePlan, CommitPlan, RecoverPlan, AppendEffects, Fits, Holds;
    if mishap.LogCut? {
      assert entry.offset == |LogBytes(d)| by { FitsEnd(w, d, c, e, entry); }
      FailedWriteUndone(d, entry, s, mishap.k);
      RestoredHolds(w, d, c);
      c', phase := c, Quiet;
    } else {
      SafeAppend(w, d, c, e, entry, s);
      MishapIsPrefix(d, entry, s, mishap);
      var done, all := AppendEffects(d, entry, s, mishap).effects, WritePlan(d, entry) + CommitPlan(s);
      assert all[..|done|] == done;
      c', phase := SafePrefix(w, d, c, Quiet, all, Some(AckOf(entry)), |done|);
    }
    RecoverMends(w, who, ApplyAll(d, AppendEffects(d, entry, s, mishap).effects), c', phase);
  }

  lemma FitsEnd(w: World, d: Disk, c: seq<SignedEvent>, e: SignedEvent, entry: Entry)
    requires Fits(w, c, e, entry) && Holds(w, d, c, Quiet)
    ensures entry.offset == |LogBytes(d)|
  {
    hide GoodChain, StateFits, SmallEntry, LogOf;
  }

  lemma RestoredHolds(w: World, d: Disk, c: seq<SignedEvent>)
    requires Holds(w, d, c, Quiet)
    ensures Holds(w, Disk(Some(LogBytes(d)), d.state, None), c, Quiet)
  {
    hide GoodChain, StateFits, LogOf;
  }
}
