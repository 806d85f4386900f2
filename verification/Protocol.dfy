/** Any number of signer processes on one store: they contend for one lock, and any
    of them may crash, fail or give up between any two effects on the files.  What
    every run of them keeps. */
module Protocol {
  import opened Json
  import opened Utf8
  import opened Models
  import opened ModelsLaws
  import opened ModelsSizes
  import opened Signer
  import opened Store
  import opened StoreLaws
  import opened Recovery
  import opened Transaction

  // ---- the machine -----------------------------------------------------------------------

  // What a process is doing, with the effects it has still to make.
  datatype Proc =
    | Outside
    | Recovering(who: Owner, todo: seq<Effect>, error: Option<StoreError>)
    | Ready(who: Owner)
    | Appending(who: Owner, ack: Ack, todo: seq<Effect>)
    | Undoing(todo: seq<Effect>)

  // `acks` are the appends that have returned to their callers, in order.
  datatype Sys = Sys(disk: Disk, holder: Option<nat>, procs: map<nat, Proc>, acks: seq<Ack>)

  const START := Sys(Disk(None, None, None), None, map[], [])

  datatype Action =
    | Enter(p: nat, who: Owner)   // takes the free lock and reads what recovery needs
    | Write(p: nat)               // its next effect reaches the disk
    | Recovered(p: nat)
    | Begin(p: nat, signer: Identity, event: Json, timestamp: string, writtenAt: string)
    | Acknowledge(p: nat)         // the append returns to its caller
    | Fail(p: nat)                // writing the record raised an error: roll back
    | Leave(p: nat)               // crash, exception or normal exit: the lock is free again

  function ProcOf(s: Sys, p: nat): Proc {
    if p in s.procs then s.procs[p] else Outside
  }

  function Todo(proc: Proc): seq<Effect> {
    match proc
    case Outside => []
    case Recovering(_, todo, _) => todo
    case Ready(_) => []
    case Appending(_, _, todo) => todo
    case Undoing(todo) => todo
  }

  function Advanced(proc: Proc): Proc
    requires Todo(proc) != []
  {
    match proc
    case Recovering(who, todo, error) => Recovering(who, todo[1..], error)
    case Appending(who, ack, todo) => Appending(who, ack, todo[1..])
    case Undoing(todo) => Undoing(todo[1..])
  }

  function Set(s: Sys, p: nat, proc: Proc): Sys {
    s.(procs := s.procs[p := proc])
  }

  // The callers' side of an append: a key of this node, an event that is a Python
  // value, a clock that prints short times, and a file system whose files end
  // before byte 2^63.
  predicate Callable(w: World, d: Disk, signer: Identity, event: Json, writtenAt: string) {
    && signer.nodeId == w.nodeId && signer.keyId in w.keys && w.keys[signer.keyId] == signer.privateKey
    && NoDuplicates(event) && |writtenAt| <= 128 && |LogBytes(d)| <= MAX_SEQUENCE
  }

  // The journal entry and the new state of an append, or None if it raises before
  // touching any file.
  function Attempt(w: World, who: Owner, d: Disk, signer: Identity, event: Json, timestamp: string, writtenAt: string)
    : Option<(Entry, NodeState)>
  {
    match ReadState(who, d)
    case Err(_) => None
    case Ok(s) =>
      var previous := ExpectedPreviousHash(w.env, who.nodeId, s.lastSequence + 1, s.lastEventHash);
      if previous.None? then None
      else match BuildAndSign(w.env, signer, event, timestamp, s.lastSequence + 1, previous.value)
           case Err(_) => None
           case Ok(e) =>
             var signed := Signed(Line(e), e.eventHash);
             Some((NewEntry(who, signer.keyId, s, d, signed, writtenAt), NewState(who, signer.keyId, s, signed)))
  }

  function Started(w: World, s: Sys, p: nat, who: Owner, a: Action): Sys
    requires a.Begin?
  {
    var attempt := Attempt(w, who, s.disk, a.signer, a.event, a.timestamp, a.writtenAt);
    if attempt.None? || !Callable(w, s.disk, a.signer, a.event, a.writtenAt) then s
    else
      var (entry, state) := attempt.value;
      Set(s, p, Appending(who, AckOf(entry), WritePlan(s.disk, entry) + CommitPlan(state)))
  }

  // While a record is being written, or just after.
  predicate MayFail(todo: seq<Effect>) {
    todo != [] && (todo[0].AppendByte? || todo[0].SetState?)
  }

  // One action; one that is not enabled changes nothing.
  function Next(w: World, s: Sys, a: Action): Sys {
    var proc := ProcOf(s, a.p);
    match a
    case Enter(p, who) =>
      if s.holder.Some? || proc != Outside || who.nodeId != w.nodeId then s
      else
        var plan := RecoverPlan(who, s.disk);
        Set(s, p, Recovering(who, plan.effects, plan.error)).(holder := Some(p))
    case Write(p) =>
      if Todo(proc) == [] then s else Set(s, p, Advanced(proc)).(disk := Apply(s.disk, Todo(proc)[0]))
    case Recovered(p) =>
      if proc.Recovering? && proc.todo == [] && proc.error.None? then Set(s, p, Ready(proc.who)) else s
    case Begin(p, _, _, _, _) =>
      if proc.Ready? then Started(w, s, p, proc.who, a) else s
    case Acknowledge(p) =>
      if proc.Appending? && proc.todo == [] then Set(s, p, Ready(proc.who)).(acks := s.acks + [proc.ack]) else s
    case Fail(p) =>
      if proc.Appending? && MayFail(proc.todo) then Set(s, p, Undoing(RollbackPlan(s.disk, proc.ack.offset))) else s
    case Leave(p) =>
      Set(s, p, Outside).(holder := if s.holder == Some(p) then None else s.holder)
  }

  function Play(w: World, actions: seq<Action>): Sys {
    if actions == [] then START else Next(w, Play(w, actions[..|actions| - 1]), actions[|actions| - 1])
  }

  // ---- the invariant ----------------------------------------------------------------------

  ghost predicate Working(w: World, s: Sys, c: seq<SignedEvent>, phase: Phase, proc: Proc) {
    match proc
    case Outside => true
    case Recovering(who, todo, error) =>
      who.nodeId == w.nodeId && error.None? && Safe(w, s.disk, c, phase, todo, None)
    case Ready(who) => who.nodeId == w.nodeId && phase.Quiet? && s.disk.journal.None?
    case Appending(who, ack, todo) =>
      who.nodeId == w.nodeId && Safe(w, s.disk, c, phase, todo, Some(ack))
      && forall i :: 0 <= i < |s.acks| ==> s.acks[i].sequence < ack.sequence
    case Undoing(todo) => Safe(w, s.disk, c, phase, todo, None)
  }

  // A process outside the lock is doing nothing.
  predicate Exclusive(s: Sys) {
    forall p :: p in s.procs && s.procs[p] != Outside ==> s.holder == Some(p)
  }

  predicate Acknowledged(acks: seq<Ack>, c: seq<SignedEvent>) {
    && (forall i :: 0 <= i < |acks| ==> AckHolds(acks[i], c))
    && (forall i, j :: 0 <= i < j < |acks| ==> acks[i].sequence < acks[j].sequence)
  }

  ghost predicate Inv(w: World, s: Sys, c: seq<SignedEvent>, phase: Phase) {
    && Holds(w, s.disk, c, phase) && Exclusive(s) && Acknowledged(s.acks, c)
    && (s.holder.Some? ==> Working(w, s, c, phase, ProcOf(s, s.holder.value)))
  }

  lemma AckStays(ack: Ack, c: seq<SignedEvent>, c': seq<SignedEvent>)
    requires AckHolds(ack, c) && c <= c'
    ensures AckHolds(ack, c')
  {
    assert c[..ack.sequence - 1] == c'[..ack.sequence - 1];
  }

  lemma AcksStay(acks: seq<Ack>, c: seq<SignedEvent>, c': seq<SignedEvent>)
    requires Acknowledged(acks, c) && c <= c'
    ensures Acknowledged(acks, c')
  {
    hide AckHolds;
    forall i | 0 <= i < |acks| ensures AckHolds(acks[i], c') {
      AckStays(acks[i], c, c');
    }
  }

  // ---- each action keeps it ------------------------------------------------------------------

  lemma EnterKeeps(w: World, s: Sys, a: Action, c: seq<SignedEvent>, phase: Phase)
    requires Inv(w, s, c, phase) && a.Enter?
    ensures Inv(w, Next(w, s, a), c, phase)
  {
    hide Holds, RecoverPlan, Safe;
    if a.who.nodeId == w.nodeId {
      SafeRecovery(w, a.who, s.disk, c, phase);
    }
  }

  lemma SafeNext(w: World, d: Disk, c: seq<SignedEvent>, phase: Phase, todo: seq<Effect>, goal: Option<Ack>)
    returns (c': seq<SignedEvent>, phase': Phase)
    requires Safe(w, d, c, phase, todo, goal) && todo != []
    ensures c <= c' && Safe(w, Apply(d, todo[0]), c', phase', todo[1..], goal)
    ensures Holds(w, Apply(d, todo[0]), c', phase')
  {
    hide Holds, HeadFits, Apply;
    c', phase' :| c <= c' && Safe(w, Apply(d, todo[0]), c', phase', todo[1..], goal);
  }

  lemma WriteKeeps(w: World, s: Sys, a: Action, c: seq<SignedEvent>, phase: Phase)
    returns (c': seq<SignedEvent>, phase': Phase)
    requires Inv(w, s, c, phase) && a.Write?
    ensures Inv(w, Next(w, s, a), c', phase') && c <= c'
  {
    hide Holds, Safe, Apply, AckHolds;
    var proc := ProcOf(s, a.p);
    if Todo(proc) == [] {
      return c, phase;
    }
    c', phase' := SafeNext(w, s.disk, c, phase, Todo(proc), if proc.Appending? then Some(proc.ack) else None);
    AcksStay(s.acks, c, c');
  }

  lemma RecoveredKeeps(w: World, s: Sys, a: Action, c: seq<SignedEvent>, phase: Phase)
    requires Inv(w, s, c, phase) && a.Recovered?
    ensures Inv(w, Next(w, s, a), c, phase)
  {
    hide Holds, AckHolds;
  }

  lemma AcknowledgeKeeps(w: World, s: Sys, a: Action, c: seq<SignedEvent>, phase: Phase)
    requires Inv(w, s, c, phase) && a.Acknowledge?
    ensures Inv(w, Next(w, s, a), c, phase)
  {
    hide Holds, AckHolds;
  }

  lemma FailKeeps(w: World, s: Sys, a: Action, c: seq<SignedEvent>, phase: Phase)
    requires Inv(w, s, c, phase) && a.Fail?
    ensures Inv(w, Next(w, s, a), c, phase)
  {
    hide Holds, AckHolds, RollbackPlan;
    var proc := ProcOf(s, a.p);
    if proc.Appending? && MayFail(proc.todo) {
      SafeRollback(w, s.disk, c, phase.next, phase.k);
    }
  }

  lemma LeaveKeeps(w: World, s: Sys, a: Action, c: seq<SignedEvent>, phase: Phase)
    requires Inv(w, s, c, phase) && a.Leave?
    ensures Inv(w, Next(w, s, a), c, phase)
  {
    hide Holds, AckHolds, Safe;
  }

  lemma SmallByValidation(w: World, e: SignedEvent, entry: Entry, signer: Identity)
    requires Genuine(w.env, w.nodeId, w.keys, e) && e.keyId == signer.keyId
    requires entry == Entry(w.nodeId, signer.keyId, e.sequence, e.eventHash, entry.offset, Line(e), entry.writtenAt)
    requires |entry.writtenAt| <= 128 && entry.offset <= MAX_SEQUENCE
    ensures SmallEntry(entry) && entry.keyId != "" && Bytes(entry.record) <= MAX_LINE_BYTES
  {
    hide SigningPayload, HashPayload, Line, Bytes;
    GenuineLine(w.env, w.nodeId, w.keys, e);
  }

  // An append begun on a recovered store fits the end of the chain.
  lemma AttemptFits(w: World, who: Owner, d: Disk, c: seq<SignedEvent>, signer: Identity, event: Json,
                    timestamp: string, writtenAt: string)
    returns (e: SignedEvent)
    requires Laws(w.env) && Holds(w, d, c, Quiet) && who.nodeId == w.nodeId
    requires Callable(w, d, signer, event, writtenAt)
    requires Attempt(w, who, d, signer, event, timestamp, writtenAt).Some?
    ensures var (entry, state) := Attempt(w, who, d, signer, event, timestamp, writtenAt).value;
      && Fits(w, c, e, entry) && entry.sequence == |c| + 1
      && state.keyId != "" && state == NodeState(w.nodeId, state.keyId, |c| + 1, Some(e.eventHash), FORMAT_VERSION)
  {
    hide GoodChain, LogOf, Line, StateFits, ReadState, BuildAndSign, Laws, NoDuplicates, Genuine, SmallEntry, Bytes, Idle;
    StateReads(w, who, d, c);
    var s := ReadState(who, d).value;
    var previous := ExpectedPreviousHash(w.env, who.nodeId, s.lastSequence + 1, s.lastEventHash).value;
    e := BuildAndSign(w.env, signer, event, timestamp, s.lastSequence + 1, previous).value;
    SignedIsGenuine(w.env, signer, w.keys, event, timestamp, s.lastSequence + 1, previous);
    SignedKey(w.env, signer, event, timestamp, s.lastSequence + 1, previous);
    ChainExtends(w, c, e);
    var (entry, state) := Attempt(w, who, d, signer, event, timestamp, writtenAt).value;
    SmallByValidation(w, e, entry, signer);
  }

  lemma SignedKey(env: Env, signer: Identity, event: Json, timestamp: string, sequence: int, previous: string)
    requires BuildAndSign(env, signer, event, timestamp, sequence, previous).Ok?
    ensures BuildAndSign(env, signer, event, timestamp, sequence, previous).value.keyId == signer.keyId
    ensures signer.keyId != ""
  {
    hide SigningPayload, HashPayload, ValidateEvent;
  }

  lemma BeginKeeps(w: World, s: Sys, a: Action, c: seq<SignedEvent>, phase: Phase)
    requires Laws(w.env) && Inv(w, s, c, phase) && a.Begin?
    ensures Inv(w, Next(w, s, a), c, phase)
  {
    hide Holds, Safe, Attempt, Callable, WritePlan, CommitPlan, Laws;
    var proc := ProcOf(s, a.p);
    if proc.Ready? && Callable(w, s.disk, a.signer, a.event, a.writtenAt)
       && Attempt(w, proc.who, s.disk, a.signer, a.event, a.timestamp, a.writtenAt).Some?
    {
      var (entry, state) := Attempt(w, proc.who, s.disk, a.signer, a.event, a.timestamp, a.writtenAt).value;
      var e := AttemptFits(w, proc.who, s.disk, c, a.signer, a.event, a.timestamp, a.writtenAt);
      SafeAppend(w, s.disk, c, e, entry, state);
    }
  }

  // Every action keeps the invariant, and the chain only grows.
  lemma StepKeeps(w: World, s: Sys, a: Action, c: seq<SignedEvent>, phase: Phase)
    returns (c': seq<SignedEvent>, phase': Phase)
    requires Laws(w.env) && Inv(w, s, c, phase)
    ensures Inv(w, Next(w, s, a), c', phase') && c <= c'
  {
    hide Inv, Next, Laws;
    c', phase' := c, phase;
    match a
    case Enter(_, _) => EnterKeeps(w, s, a, c, phase);
    case Write(_) => c', phase' := WriteKeeps(w, s, a, c, phase);
    case Recovered(_) => RecoveredKeeps(w, s, a, c, phase);
    case Begin(_, _, _, _, _) => BeginKeeps(w, s, a, c, phase);
    case Acknowledge(_) => AcknowledgeKeeps(w, s, a, c, phase);
    case Fail(_) => FailKeeps(w, s, a, c, phase);
    case Leave(_) => LeaveKeeps(w, s, a, c, phase);
  }
}
