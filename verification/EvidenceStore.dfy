/** The evidence store as it runs: a lock, a journal, a log and a state file, changed
    one effect at a time, with every place a call may be cut short. */
module EvidenceStore {
  import opened Json
  import opened PyText
  import opened Utf8
  import opened Models
  import opened Store
  import Recovery

  // The files of one store and the lock over them, shared by every process.  Each
  // effect that reaches the disk is recorded in order.
  class Files {
    var log: Option<seq<byte>>
    var state: Option<NodeState>
    var journal: Option<string>
    var locked: bool
    ghost const origin: Disk
    ghost var effects: seq<Effect>

    ghost function Image(): Disk
      reads this
    {
      Disk(log, state, journal)
    }

    ghost predicate Valid()
      reads this
    {
      Image() == ApplyAll(origin, effects)
    }

    constructor ()
      ensures Valid() && Image() == Disk(None, None, None) && !locked && effects == []
    {
      log, state, journal, locked := None, None, None, false;
      origin, effects := Disk(None, None, None), [];
    }

    method Do(e: Effect)
      requires Valid()
      modifies `log, `state, `journal, `effects
      ensures Valid() && effects == old(effects) + [e] && Image() == Apply(old(Image()), e)
    {
      hide Truncated, ApplyAll;
      var bytes := if log.Some? then log.value else [];
      match e {
        case CreateLog => log := Some(bytes);
        case WriteJournal(text) => journal := Some(text);
        case AppendByte(b) => log := Some(bytes + [b]);
        case SetState(s) => state := Some(s);
        case Truncate(offset) => log := Some(Truncated(bytes, offset));
        case DropJournal => journal := None;
      }
      effects := effects + [e];
      ApplyAppend(origin, old(effects), e);
    }
  }

  // What finishing a journalled append comes to.
  lemma CompletePlan(who: Owner, d: Disk, memory: Option<NodeState>, v: JournalView)
    requires v.Readable? && Appended(LogBytes(d), v.offset, Payload(v.record))
    ensures var read := ReadThrough(who, d, memory);
      var plan := ReplayEntry(who, d, memory, v);
      && (read.Err? ==> plan == Plan([], Some(read.error)))
      && (read.Ok? && read.value.lastSequence < v.sequence ==>
            && plan == Plan([SetState(ReplayState(who, read.value, v))] + [DropJournal], None)
            && ReadAfter(who, d, memory, plan) == Ok(ReplayState(who, read.value, v)))
      && (read.Ok? && read.value.lastSequence >= v.sequence ==>
            plan == Plan([DropJournal], None) && ReadAfter(who, d, memory, plan) == read)
  {
    hide Payload, Appended, ReadThrough, ReplayState;
    assert [] + [DropJournal] == [DropJournal];
  }

  lemma UndoPlan(who: Owner, d: Disk, memory: Option<NodeState>, v: JournalView)
    requires v.Readable?
    ensures !Appended(LogBytes(d), v.offset, Payload(v.record)) ==>
      ReplayEntry(who, d, memory, v)
      == if d.log.None? then Plan([], Some(MissingLog)) else Plan([Truncate(v.offset)] + [DropJournal], None)
    ensures !Appended(LogBytes(d), v.offset, Payload(v.record)) ==>
      ReadAfter(who, d, memory, ReplayEntry(who, d, memory, v)) == ReadThrough(who, d, memory)
  {
    hide Payload, Appended, ReadThrough;
  }

  lemma ApplyAppend(d: Disk, effects: seq<Effect>, e: Effect)
    ensures ApplyAll(d, effects + [e]) == Apply(ApplyAll(d, effects), e)
  {
    hide Apply;
    assert (effects + [e])[..|effects|] == effects;
  }

  // Where an append is cut short, if anywhere: by its caller's fault hook at one of
  // the six stages, or by an error of the system while a file is being written.
  datatype Mishap =
    | Fine
    | BeforeSign
    | AfterSign
    | JournalCut(k: nat)   // the journal holds k characters when writing it fails
    | AfterJournal
    | LogCut(k: nat)       // k bytes of the record are in the log when writing it fails
    | AfterAppend
    | StateCut
    | AfterCommit

  // The effects of an append that gets as far as its journal, and how it ends.
  function AppendEffects(d: Disk, e: Entry, s: NodeState, mishap: Mishap): Plan {
    var written := Creation(d) + JournalWrites(JournalText(e));
    var record := LogWrites(Payload(e.record));
    match mishap
    case Fine => Plan(WritePlan(d, e) + CommitPlan(s), None)
    case BeforeSign => Plan([], Some(Interrupted))
    case AfterSign => Plan([], Some(Interrupted))
    case JournalCut(k) =>
      Plan(Creation(d) + JournalWrites(JournalText(e))[..Least(k, |JournalText(e)|) + 1], Some(TransactionAborted))
    case AfterJournal => Plan(written, Some(Interrupted))
    case LogCut(k) =>
      var part := written + record[..Least(k, |record|)];
      Plan(part + RollbackPlan(ApplyAll(d, part), e.offset), Some(TransactionAborted))
    case AfterAppend => Plan(WritePlan(d, e), Some(Interrupted))
    case StateCut => Plan(WritePlan(d, e), Some(TransactionAborted))
    case AfterCommit => Plan(WritePlan(d, e) + [SetState(s)], Some(Interrupted))
  }

  function Least(a: nat, b: nat): nat {
    if a < b then a else b
  }

  // Every file but the state gets written.
  predicate Unharmed(mishap: Mishap) {
    mishap.Fine? || mishap.AfterAppend? || mishap.StateCut? || mishap.AfterCommit?
  }

  // The whole of an append: nothing reaches the files before signing has succeeded.
  function AppendPlan(env: Env, who: Owner, d: Disk, memory: Option<NodeState>,
                      build: (int, string) -> Result<Signed, StoreError>, keyId: string, writtenAt: string, mishap: Mishap)
    : Plan
  {
    match ReadThrough(who, d, memory)
    case Err(error) => Plan([], Some(error))
    case Ok(s) =>
      var previous := ExpectedPreviousHash(env, who.nodeId, s.lastSequence + 1, s.lastEventHash);
      if previous.None? then Plan([], Some(StateCorruption))
      else if mishap.BeforeSign? then Plan([], Some(Interrupted))
      else match build(s.lastSequence + 1, previous.value)
           case Err(error) => Plan([], Some(error))
           case Ok(signed) =>
             AppendEffects(d, NewEntry(who, keyId, s, d, signed, writtenAt), NewState(who, keyId, s, signed), mishap)
  }

  // What the caller of an append is told: the number and hash of the record, or why not.
  function AppendResult(env: Env, who: Owner, d: Disk, memory: Option<NodeState>,
                        build: (int, string) -> Result<Signed, StoreError>, keyId: string, writtenAt: string, mishap: Mishap)
    : Result<(int, string), StoreError>
  {
    var plan := AppendPlan(env, who, d, memory, build, keyId, writtenAt, mishap);
    if plan.error.Some? then Err(plan.error.value)
    else
      var s := ReadThrough(who, d, memory).value;
      var previous := ExpectedPreviousHash(env, who.nodeId, s.lastSequence + 1, s.lastEventHash).value;
      Ok((s.lastSequence + 1, build(s.lastSequence + 1, previous).value.eventHash))
  }

  // What the store remembers afterwards: the new state once it is written, else what
  // it read to begin with.
  function AppendMemory(env: Env, who: Owner, d: Disk, memory: Option<NodeState>,
                        build: (int, string) -> Result<Signed, StoreError>, keyId: string, mishap: Mishap)
    : Option<NodeState>
  {
    match ReadThrough(who, d, memory)
    case Err(_) => memory
    case Ok(s) =>
      var previous := ExpectedPreviousHash(env, who.nodeId, s.lastSequence + 1, s.lastEventHash);
      if previous.None? || (!mishap.Fine? && !mishap.AfterCommit?) then Some(s)
      else match build(s.lastSequence + 1, previous.value)
           case Err(_) => Some(s)
           case Ok(signed) => Some(NewState(who, keyId, s, signed))
  }

  class EvidenceStore {
    const env: Env
    const files: Files
    const nodeId: string
    const keyId: string
    var holding: bool
    var memory: Option<NodeState>

    constructor (env: Env, files: Files, nodeId: string, keyId: string)
      ensures this.env == env && this.files == files && this.nodeId == nodeId && this.keyId == keyId
      ensures !holding && memory.None?
    {
      this.env, this.files, this.nodeId, this.keyId := env, files, nodeId, keyId;
      holding, memory := false, None;
    }

    function Who(): Owner {
      Owner(nodeId, keyId)
    }

    // A store that holds the lock is the one that does.
    ghost predicate Valid()
      reads this, files
    {
      files.Valid() && (holding ==> files.locked)
    }

    ghost predicate Fresh()
      reads this, files
    {
      Valid() && memory.None?
    }

    // What the store remembers of the state is what the file holds.
    ghost predicate Coherent()
      reads this, files
    {
      Remembers(Who(), files.state, memory)
    }

    // ---- lock -----------------------------------------------------------------------

    method Acquire() returns (r: Result<(), StoreError>)
      requires Valid()
      modifies `holding, files`locked
      ensures Valid()
      ensures r == if old(holding) || !old(files.locked) then Ok(()) else Err(LockTimeout)
      ensures holding <==> r.Ok?
      ensures files.locked == (old(files.locked) || r.Ok?)
    {
      if holding {
        return Ok(());
      }
      if files.locked {
        return Err(LockTimeout);
      }
      files.locked, holding := true, true;
      r := Ok(());
    }

    // Releasing the lock does not forget the state: a store is not for reuse.
    method Release()
      requires Valid()
      modifies `holding, files`locked
      ensures Valid() && !holding && memory == old(memory)
      ensures files.locked == (old(files.locked) && !old(holding))
    {
      if holding {
        holding := false;
        files.locked := false;
      }
    }

    // ---- state -----------------------------------------------------------------------

    method ReadState() returns (r: Result<NodeState, StoreError>)
      requires Valid()
      modifies `memory
      ensures r == if holding then ReadThrough(Who(), files.Image(), old(memory)) else Err(NotLocked)
      ensures memory == if r.Ok? then Some(r.value) else old(memory)
      ensures old(Coherent()) ==> Coherent()
    {
      if !holding {
        return Err(NotLocked);
      }
      if memory.Some? {
        return Ok(memory.value);
      }
      if files.state.None? {
        memory := Some(NodeState(nodeId, keyId, 0, None, FORMAT_VERSION));
        return Ok(memory.value);
      }
      if !ValidState(files.state.value, nodeId) {
        return Err(StateCorruption);
      }
      memory := files.state;
      r := Ok(memory.value);
    }

    method WriteState(s: NodeState)
      requires Valid()
      modifies `memory, files`log, files`state, files`journal, files`effects
      ensures Valid() && memory == Some(s) && Coherent()
      ensures files.effects == old(files.effects) + [SetState(s)]
      ensures files.Image() == Apply(old(files.Image()), SetState(s))
    {
      files.Do(SetState(s));
      memory := Some(s);
    }

    // ---- recovery ----------------------------------------------------------------------

    // The record was appended: make the state count it.
    method Complete(v: JournalView) returns (error: Option<StoreError>)
      requires Valid() && holding && v.Readable?
      requires Appended(LogBytes(files.Image()), v.offset, Payload(v.record))
      modifies `memory, files`log, files`state, files`journal, files`effects
      ensures Valid()
      ensures var plan := ReplayEntry(Who(), old(files.Image()), old(memory), v);
        && files.effects == old(files.effects) + plan.effects && error == plan.error
        && (error.None? ==> memory.Some? && Ok(memory.value) == ReadAfter(Who(), old(files.Image()), old(memory), plan))
      ensures old(Coherent()) ==> Coherent()
    {
      hide Payload, Store.ReadState, Appended, Or, Remembers, ReplayState, ReplayEntry, ReadAfter;
      CompletePlan(Who(), files.Image(), memory, v);
      var read := ReadState();
      if read.Err? {
        return Some(read.error);
      }
      if read.value.lastSequence < v.sequence {
        WriteState(ReplayState(Who(), read.value, v));
      }
      files.Do(DropJournal);
      error := None;
    }

    // Finish or undo the append a journal tells of.
    method CompleteOrUndo(v: JournalView) returns (error: Option<StoreError>)
      requires Valid() && holding && v.Readable?
      modifies `memory, files`log, files`state, files`journal, files`effects
      ensures Valid()
      ensures var plan := ReplayEntry(Who(), old(files.Image()), old(memory), v);
        && files.effects == old(files.effects) + plan.effects && error == plan.error
        && (error.None? ==> ReadThrough(Who(), files.Image(), memory) == ReadAfter(Who(), old(files.Image()), old(memory), plan))
      ensures old(Coherent()) ==> Coherent()
    {
      hide Payload, Appended, ValidState, Remembers, ReplayEntry, ReadAfter, Truncated, ApplyAll;
      UndoPlan(Who(), files.Image(), memory, v);
      var log := if files.log.Some? then files.log.value else [];
      if Appended(log, v.offset, Payload(v.record)) {
        error := Complete(v);
        return;
      }
      if files.log.None? {
        return Some(MissingLog);
      }
      files.Do(Truncate(v.offset));
      files.Do(DropJournal);
      error := None;
    }

    method ReplayJournal() returns (error: Option<StoreError>)
      requires Valid() && holding
      modifies `memory, files`log, files`state, files`journal, files`effects
      ensures Valid()
      ensures var plan := ReplayPlan(Who(), old(files.Image()), old(memory));
        && files.effects == old(files.effects) + plan.effects && error == plan.error
        && (error.None? ==> ReadThrough(Who(), files.Image(), memory) == ReadAfter(Who(), old(files.Image()), old(memory), plan))
      ensures old(Coherent()) ==> Coherent()
    {
      hide ViewJournal, ReplayEntry, Encode, Remembers;
      error := None;
      if files.journal.Some? {
        if |Encode(files.journal.value)| > MAX_JOURNAL_BYTES {
          return Some(StateCorruption);
        }
        var v := ViewJournal(nodeId, files.journal.value);
        match v {
          case Unreadable => files.Do(DropJournal);
          case Foreign => files.Do(DropJournal);
          case Broken => error := Some(BadJournal);
          case Readable(_, _, _, _, _) => error := CompleteOrUndo(v);
        }
      }
    }

    // The last complete record of this node in the log.
    method LastLoggedRecord() returns (last: Option<Logged>)
      ensures last == LogTail(nodeId, files.Image())
    {
      last := None;
      if files.log.Some? {
        var lines := Lines(DecodeReplace(files.log.value));
        var i := 0;
        while i < |lines|
          invariant 0 <= i <= |lines| && last == LastLogged(nodeId, lines[..i])
        {
          assert lines[..i + 1][..i] == lines[..i];
          var record := LoggedRecord(nodeId, lines[i]);
          if record.Some? {
            last := record;
          }
          i := i + 1;
        }
        assert lines[..i] == lines;
      }
    }

    method CheckStateAgainstLog() returns (error: Option<StoreError>)
      requires Valid() && holding
      modifies `memory, files`log, files`state, files`journal, files`effects
      ensures Valid()
      ensures var read := ReadThrough(Who(), old(files.Image()), old(memory));
        var plan := CheckPlan(Who(), old(files.Image()), read);
        && files.effects == old(files.effects) + plan.effects && error == plan.error
        && memory == (if read.Err? then old(memory) else Some(CheckedState(plan, read).value))
      ensures old(Coherent()) ==> Coherent()
    {
      hide LogTail;
      var read := ReadState();
      if read.Err? {
        return Some(read.error);
      }
      if read.value.lastSequence == 0 {
        return None;
      }
      var tail := LastLoggedRecord();
      if tail.None? || tail.value.sequence < read.value.lastSequence {
        return Some(Divergence);
      }
      if tail.value.sequence > read.value.lastSequence {
        WriteState(NodeState(nodeId, Or(keyId, read.value.keyId), tail.value.sequence, Some(tail.value.eventHash),
                             FORMAT_VERSION));
      }
      error := None;
    }

    method Recover() returns (error: Option<StoreError>)
      requires Valid()
      modifies `memory, files`log, files`state, files`journal, files`effects
      ensures Valid()
      ensures !holding ==> error == Some(NotLocked) && files.effects == old(files.effects)
      ensures holding ==>
        var plan := RecoverFrom(Who(), old(files.Image()), old(memory));
        && files.effects == old(files.effects) + plan.effects && error == plan.error
        && (error.None? ==> memory.Some? && Ok(memory.value) == RecoveredState(Who(), old(files.Image()), old(memory)))
      ensures old(Coherent()) ==> Coherent()
    {
      hide ReplayPlan, CheckPlan, ReadThrough, ReadAfter, Remembers;
      if !holding {
        return Some(NotLocked);
      }
      ghost var before := files.effects;
      ghost var replay := ReplayPlan(Who(), files.Image(), memory);
      error := ReplayJournal();
      if error.Some? {
        return;
      }
      Recovery.ApplyConcat(files.origin, before, replay.effects);
      UnreadFails(Who(), files.Image(), ReadThrough(Who(), files.Image(), memory));
      error := CheckStateAgainstLog();
    }

    // ---- one append -----------------------------------------------------------------------

    // Opening truncates; the text then arrives a piece at a time, up to `cut` of it.
    method WriteJournal(text: string, cut: nat)
      requires Valid() && cut <= |text|
      modifies files`log, files`state, files`journal, files`effects
      ensures Valid()
      ensures files.effects == old(files.effects) + JournalWrites(text)[..cut + 1]
      ensures files.state == old(files.state)
    {
      files.Do(Effect.WriteJournal(text[..0]));
      var i := 0;
      while i < cut
        invariant 0 <= i <= cut && Valid()
        invariant files.effects == old(files.effects) + JournalWrites(text)[..i + 1]
        invariant files.state == old(files.state)
      {
        i := i + 1;
        files.Do(Effect.WriteJournal(text[..i]));
      }
    }

    method AppendBytes(payload: seq<byte>, cut: nat)
      requires Valid() && cut <= |payload|
      modifies files`log, files`state, files`journal, files`effects
      ensures Valid()
      ensures files.effects == old(files.effects) + LogWrites(payload)[..cut]
      ensures files.state == old(files.state)
    {
      hide LogWrites;
      Sizes("", payload);
      var i := 0;
      assert LogWrites(payload)[..0] == [];
      while i < cut
        invariant 0 <= i <= cut && Valid()
        invariant files.effects == old(files.effects) + LogWrites(payload)[..i]
        invariant files.state == old(files.state)
      {
        LogWritesStep(payload, i);
        files.Do(AppendByte(payload[i]));
        i := i + 1;
      }
    }

    method Rollback(offset: nat)
      requires Valid()
      modifies files`log, files`state, files`journal, files`effects
      ensures Valid()
      ensures files.effects == old(files.effects) + RollbackPlan(old(files.Image()), offset)
      ensures files.state == old(files.state)
    {
      if files.log.Some? && |files.log.value| > offset {
        files.Do(Truncate(offset));
      }
      files.Do(DropJournal);
    }

    method Commit(s: NodeState, mishap: Mishap) returns (error: Option<StoreError>)
      requires Valid()
      modifies `memory, files`log, files`state, files`journal, files`effects
      ensures Valid()
      ensures files.effects == old(files.effects)
        + (if mishap.AfterAppend? || mishap.StateCut? then [] else if mishap.AfterCommit? then [SetState(s)] else CommitPlan(s))
      ensures error == (if mishap.AfterAppend? || mishap.AfterCommit? then Some(Interrupted)
                        else if mishap.StateCut? then Some(TransactionAborted) else None)
      ensures memory == if mishap.AfterAppend? || mishap.StateCut? then old(memory) else Some(s)
      ensures error.None? ==> files.state == Some(s)
      ensures old(Coherent()) ==> Coherent()
    {
      if mishap.AfterAppend? {
        return Some(Interrupted);
      }
      if mishap.StateCut? {
        return Some(TransactionAborted);
      }
      WriteState(s);
      if mishap.AfterCommit? {
        return Some(Interrupted);
      }
      files.Do(DropJournal);
      error := None;
    }

    // Makes sure there is a log, and journals what is about to be appended to it.
    method WriteAhead(text: string, cut: nat)
      requires Valid() && cut <= |text|
      modifies files`log, files`state, files`journal, files`effects
      ensures Valid()
      ensures files.effects == old(files.effects) + (Creation(old(files.Image())) + JournalWrites(text)[..cut + 1])
      ensures files.state == old(files.state)
    {
      hide JournalWrites;
      ghost var before := files.effects;
      ghost var created := Creation(files.Image());
      Sizes(text, []);
      if files.log.None? {
        files.Do(CreateLog);
      }
      WriteJournal(text, cut);
      Associates(before, created, JournalWrites(text)[..cut + 1]);
    }

    // The append of a record failed part way.
    method Abandon(e: Entry, ghost d: Disk, ghost before: seq<Effect>, ghost part: seq<Effect>)
      requires Valid() && files.effects == before + part && d == ApplyAll(files.origin, before)
      modifies files`log, files`state, files`journal, files`effects
      ensures Valid() && files.effects == before + (part + RollbackPlan(ApplyAll(d, part), e.offset))
      ensures files.state == old(files.state)
    {
      hide RollbackPlan;
      Recovery.ApplyConcat(files.origin, before, part);
      Associates(before, part, RollbackPlan(files.Image(), e.offset));
      Rollback(e.offset);
    }

    // Everything up to the commit.
    method WriteFiles(e: Entry, s: NodeState, mishap: Mishap) returns (error: Option<StoreError>)
      requires Valid() && !mishap.BeforeSign? && !mishap.AfterSign?
      modifies files`log, files`state, files`journal, files`effects
      ensures Valid()
      ensures var plan := if Unharmed(mishap) then Plan(WritePlan(old(files.Image()), e), None)
                          else AppendEffects(old(files.Image()), e, s, mishap);
        files.effects == old(files.effects) + plan.effects && error == plan.error
      ensures files.state == old(files.state)
    {
      hide JournalText, Payload, JournalWrites, LogWrites, RollbackPlan, Creation, Apply;
      var text, payload := JournalText(e), Payload(e.record);
      Sizes(text, payload);
      ghost var before := files.effects;
      ghost var d := files.Image();
      WriteAhead(text, if mishap.JournalCut? then Least(mishap.k, |text|) else |text|);
      if mishap.JournalCut? {
        return Some(TransactionAborted);
      }
      if mishap.AfterJournal? {
        return Some(Interrupted);
      }
      var cut := if mishap.LogCut? then Least(mishap.k, |payload|) else |payload|;
      ghost var written := Creation(d) + JournalWrites(text);
      AppendBytes(payload, cut);
      Associates(before, written, LogWrites(payload)[..cut]);
      if mishap.LogCut? {
        Abandon(e, d, before, written + LogWrites(payload)[..cut]);
        return Some(TransactionAborted);
      }
      error := None;
    }

    // Everything after signing.
    method Persist(e: Entry, s: NodeState, mishap: Mishap) returns (error: Option<StoreError>)
      requires Valid() && !mishap.BeforeSign? && !mishap.AfterSign?
      modifies `memory, files`log, files`state, files`journal, files`effects
      ensures Valid()
      ensures var plan := AppendEffects(old(files.Image()), e, s, mishap);
        files.effects == old(files.effects) + plan.effects && error == plan.error
      ensures memory == if mishap.Fine? || mishap.AfterCommit? then Some(s) else old(memory)
      ensures error.None? ==> files.state == Some(s)
      ensures old(Coherent()) ==> Coherent()
    {
      hide JournalText, Payload, JournalWrites, LogWrites, RollbackPlan, WritePlan;
      ghost var before := files.effects;
      ghost var written := WritePlan(files.Image(), e);
      error := WriteFiles(e, s, mishap);
      if error.None? {
        error := Commit(s, mishap);
        Associates(before, written, CommitPlan(s));
        Associates(before, written, [SetState(s)]);
      }
    }

    // `build` receives the sequence number and the previous hash, and signs.  The caller
    // is told the number and the hash that the state now has.
    method AppendSigned(build: (int, string) -> Result<Signed, StoreError>, keyId: string, writtenAt: string, mishap: Mishap)
      returns (r: Result<(int, string), StoreError>)
      requires Valid()
      modifies `memory, files`log, files`state, files`journal, files`effects
      ensures Valid()
      ensures !holding ==> r == Err(NotLocked) && files.effects == old(files.effects)
      ensures holding ==>
        var plan := AppendPlan(env, Who(), old(files.Image()), old(memory), build, keyId, writtenAt, mishap);
        && files.effects == old(files.effects) + plan.effects
        && r == AppendResult(env, Who(), old(files.Image()), old(memory), build, keyId, writtenAt, mishap)
        && memory == AppendMemory(env, Who(), old(files.Image()), old(memory), build, keyId, mishap)
      ensures r.Ok? ==>
        files.state.Some? && files.state.value.lastSequence == r.value.0 && files.state.value.lastEventHash == Some(r.value.1)
      ensures old(Coherent()) ==> Coherent()
    {
      hide AppendEffects, ReadThrough, Remembers;
      if !holding {
        return Err(NotLocked);
      }
      var read := ReadState();
      if read.Err? {
        return Err(read.error);
      }
      var s := read.value;
      var sequence := s.lastSequence + 1;
      var previous := ExpectedPreviousHash(env, nodeId, sequence, s.lastEventHash);
      if previous.None? {
        return Err(StateCorruption);
      }
      if mishap.BeforeSign? {
        return Err(Interrupted);
      }
      var signed := build(sequence, previous.value);
      if signed.Err? {
        return Err(signed.error);
      }
      if mishap.AfterSign? {
        EarlyStops(files.Image(), NewEntry(Who(), keyId, s, files.Image(), signed.value, writtenAt),
                   NewState(Who(), keyId, s, signed.value));
        return Err(Interrupted);
      }
      var offset := if files.log.Some? then |files.log.value| else 0;
      var entry := Entry(nodeId, Or(keyId, this.keyId), sequence, signed.value.eventHash, offset, signed.value.line, writtenAt);
      var state := NodeState(nodeId, Or(keyId, Or(this.keyId, s.keyId)), sequence, Some(signed.value.eventHash), FORMAT_VERSION);
      var error := Persist(entry, state, mishap);
      if error.Some? {
        return Err(error.value);
      }
      r := Ok((sequence, signed.value.eventHash));
    }

    // ---- administration ---------------------------------------------------------------------

    method RepairFromLog() returns (r: Result<NodeState, StoreError>)
      requires Valid()
      modifies `memory, files`log, files`state, files`journal, files`effects
      ensures Valid()
      ensures !holding ==> r == Err(NotLocked) && files.effects == old(files.effects)
      ensures holding ==>
        var plan := RepairPlan(Who(), old(files.Image()), old(memory));
        && files.effects == old(files.effects) + plan.effects
        && (r.Err? ==> plan == Plan([], Some(r.error)))
        && (r.Ok? ==> plan == Plan([SetState(r.value)], None) && memory == Some(r.value))
      ensures old(Coherent()) ==> Coherent()
    {
      hide LogTail;
      if !holding {
        return Err(NotLocked);
      }
      var tail := LastLoggedRecord();
      var read := ReadState();
      var current := if read.Ok? then read.value.lastSequence else 0;
      var repaired: NodeState;
      if tail.None? {
        if current != 0 {
          return Err(Divergence);
        }
        repaired := NodeState(nodeId, keyId, 0, None, FORMAT_VERSION);
      } else {
        repaired := NodeState(nodeId, keyId, tail.value.sequence, Some(tail.value.eventHash), FORMAT_VERSION);
      }
      memory := None;
      WriteState(repaired);
      r := Ok(repaired);
    }
  }

  lemma UnreadFails(who: Owner, d: Disk, read: Result<NodeState, StoreError>)
    ensures read.Err? ==> CheckPlan(who, d, read).error.Some?
  {
  }

  lemma EarlyStops(d: Disk, e: Entry, s: NodeState)
    ensures AppendEffects(d, e, s, AfterSign) == Plan([], Some(Interrupted))
  {
  }

  lemma Associates(a: seq<Effect>, b: seq<Effect>, c: seq<Effect>)
    ensures a + b + c == a + (b + c)
  {
  }

  lemma LogWritesStep(payload: seq<byte>, i: nat)
    requires i < |payload|
    ensures LogWrites(payload)[..i + 1] == LogWrites(payload)[..i] + [AppendByte(payload[i])]
  {
  }

  lemma Sizes(text: string, payload: seq<byte>)
    ensures |JournalWrites(text)| == |text| + 1 && |LogWrites(payload)| == |payload|
    ensures JournalWrites(text)[..|text| + 1] == JournalWrites(text) && LogWrites(payload)[..|payload|] == LogWrites(payload)
  {
  }
}
