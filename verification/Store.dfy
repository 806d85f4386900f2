/** The evidence store's files and what each operation does to them, one durable
    effect at a time.  A crash may fall between any two effects. */
module Store {
  import opened Json
  import opened JsonParser
  import opened Utf8
  import opened PyText
  import opened Models

  const MAX_JOURNAL_BYTES := 1024 * 1024

  // ---- files --------------------------------------------------------------------------

  datatype NodeState = NodeState(nodeId: string, keyId: string, lastSequence: int, lastEventHash: Option<string>,
                                 formatVersion: string)

  // The log as bytes, the state file (always replaced whole), the journal's text.
  datatype Disk = Disk(log: Option<seq<byte>>, state: Option<NodeState>, journal: Option<string>)

  datatype StoreError =
    | NotLocked | LockTimeout | StateCorruption | Divergence | TransactionAborted | MissingLog | BadJournal
    | SigningFailed | Interrupted | NotNext

  datatype Effect =
    | CreateLog
    | WriteJournal(text: string)   // the journal file now holds this much
    | AppendByte(b: byte)
    | SetState(state: NodeState)
    | Truncate(offset: nat)
    | DropJournal

  function LogBytes(d: Disk): seq<byte> {
    if d.log.Some? then d.log.value else []
  }

  // Truncating past the end extends the file with zero bytes.
  function Truncated(log: seq<byte>, offset: nat): seq<byte> {
    if offset <= |log| then log[..offset] else log + seq(offset - |log|, i => 0)
  }

  function Apply(d: Disk, e: Effect): Disk {
    match e
    case CreateLog => d.(log := Some(LogBytes(d)))
    case WriteJournal(text) => d.(journal := Some(text))
    case AppendByte(b) => d.(log := Some(LogBytes(d) + [b]))
    case SetState(s) => d.(state := Some(s))
    case Truncate(offset) => d.(log := Some(Truncated(LogBytes(d), offset)))
    case DropJournal => d.(journal := None)
  }

  function ApplyAll(d: Disk, effects: seq<Effect>): Disk {
    if effects == [] then d else Apply(ApplyAll(d, effects[..|effects| - 1]), effects[|effects| - 1])
  }

  // What an operation does to the files, and the exception it ends with, if any.
  datatype Plan = Plan(effects: seq<Effect>, error: Option<StoreError>)

  // ---- state ----------------------------------------------------------------------------

  // Whose store this is; the key identifier may be empty.
  datatype Owner = Owner(nodeId: string, keyId: string)

  predicate ValidState(s: NodeState, nodeId: string) {
    && s.nodeId == nodeId && s.nodeId != "" && s.keyId != ""
    && s.lastSequence >= 0
    && (s.lastEventHash.Some? ==> Hex64(s.lastEventHash.value))
    && (s.lastSequence > 0 <==> s.lastEventHash.Some?)
    && s.formatVersion == FORMAT_VERSION
  }

  function ReadState(who: Owner, d: Disk): Result<NodeState, StoreError> {
    if d.state.None? then Ok(ZeroState(who))
    else if ValidState(d.state.value, who.nodeId) then Ok(d.state.value)
    else Err(StateCorruption)
  }

  // A store object remembers the state it last read or wrote, and answers from memory.
  function ReadThrough(who: Owner, d: Disk, memory: Option<NodeState>): Result<NodeState, StoreError> {
    if memory.Some? then Ok(memory.value) else ReadState(who, d)
  }

  function ZeroState(who: Owner): NodeState {
    NodeState(who.nodeId, who.keyId, 0, None, FORMAT_VERSION)
  }

  // What is remembered, if anything, is what the file holds.
  predicate Remembers(who: Owner, state: Option<NodeState>, memory: Option<NodeState>) {
    memory.Some? ==> if state.Some? then memory == state else memory.value == ZeroState(who)
  }

  function Or(a: string, b: string): string {
    if a != "" then a else b
  }

  // ---- the journal -------------------------------------------------------------------------

  datatype Entry = Entry(nodeId: string, keyId: string, sequence: int, eventHash: string, offset: nat, record: string,
                         writtenAt: string)

  function EntryFields(e: Entry): seq<Field> {
    [ Field("node_id", Str(e.nodeId)), Field("key_id", Str(e.keyId)), Field("sequence", Int(e.sequence)),
      Field("event_hash", Str(e.eventHash)), Field("offset", Int(e.offset)), Field("record", Str(e.record)),
      Field("written_at", Str(e.writtenAt)) ]
  }

  function JournalText(e: Entry): string {
    Print(DUMP, Obj(EntryFields(e)))
  }

  datatype JournalView = Unreadable | Foreign | Broken | Readable(keyId: string, sequence: int, eventHash: string,
                                                                  offset: nat, record: string)

  const REQUIRED := ["sequence", "event_hash", "offset", "record", "node_id"]

  function ViewJournal(nodeId: string, text: string): JournalView {
    match ParseDocument(text)
    case None => Unreadable
    case Some(Obj(fields)) =>
      if (exists k :: k in REQUIRED && Lookup(fields, k).None?) || Get(fields, "node_id") != Str(nodeId) then Foreign
      else ViewEntry(Get(fields, "key_id"), Get(fields, "sequence"), Get(fields, "event_hash"),
                     Get(fields, "offset"), Get(fields, "record"))
    case Some(Arr(items)) =>
      // a list passes for a set of keys until it is asked for one
      if (exists x :: x in items && (x.Arr? || x.Obj?)) || (forall k :: k in REQUIRED ==> Str(k) in items) then Broken
      else Foreign
    case Some(Str(_)) => Foreign
    case Some(_) => Broken
  }

  function ViewEntry(keyId: Json, sequence: Json, eventHash: Json, offset: Json, record: Json): JournalView {
    if !sequence.Int? || !eventHash.Str? || !offset.Int? || offset.i < 0 || !record.Str? then Broken
    else Readable(if keyId.Str? then keyId.s else "", sequence.i, eventHash.s, offset.i, record.s)
  }

  function Payload(record: string): seq<byte> {
    Encode(record + "\n")
  }

  // The record the journal names lies whole at the offset it names.
  predicate Appended(log: seq<byte>, offset: nat, payload: seq<byte>) {
    offset + |payload| <= |log| && log[offset..offset + |payload|] == payload
  }

  // ---- recovery -------------------------------------------------------------------------------

  function ReplayEntry(who: Owner, d: Disk, memory: Option<NodeState>, v: JournalView): Plan
    requires v.Readable?
  {
    if Appended(LogBytes(d), v.offset, Payload(v.record)) then
      match ReadThrough(who, d, memory)
      case Err(error) => Plan([], Some(error))
      case Ok(s) =>
        Plan((if s.lastSequence < v.sequence then [SetState(ReplayState(who, s, v))] else []) + [DropJournal], None)
    else if d.log.None? then Plan([], Some(MissingLog))
    else Plan([Truncate(v.offset), DropJournal], None)
  }

  function ReplayState(who: Owner, s: NodeState, v: JournalView): NodeState
    requires v.Readable?
  {
    NodeState(who.nodeId, Or(v.keyId, Or(who.keyId, s.keyId)), v.sequence, Some(v.eventHash), FORMAT_VERSION)
  }

  function ReplayPlan(who: Owner, d: Disk, memory: Option<NodeState>): Plan {
    if d.journal.None? then Plan([], None)
    else if |Encode(d.journal.value)| > MAX_JOURNAL_BYTES then Plan([], Some(StateCorruption))
    else
      var v := ViewJournal(who.nodeId, d.journal.value);
      if v.Unreadable? || v.Foreign? then Plan([DropJournal], None)
      else if v.Broken? then Plan([], Some(BadJournal))
      else ReplayEntry(who, d, memory, v)
  }

  // A complete record of this node, as a line of the log shows it.
  datatype Logged = Logged(sequence: int, eventHash: string)

  // `isinstance(True, int)` holds, so a boolean sequence counts.
  function AsInt(v: Json): Option<int> {
    match v
    case Int(i) => Some(i)
    case Bool(b) => Some(if b then 1 else 0)
    case _ => None
  }

  function LoggedRecord(nodeId: string, raw: string): Option<Logged> {
    var v := ParseDocument(Strip(raw));
    if Strip(raw) == [] || v.None? || !v.value.Obj? then None
    else
      var f := v.value.fields;
      if Get(f, "node_id") == Str(nodeId) && AsInt(Get(f, "sequence")).Some? && Get(f, "event_hash").Str? then
        Some(Logged(AsInt(Get(f, "sequence")).value, Get(f, "event_hash").s))
      else None
  }

  function LastLogged(nodeId: string, lines: seq<string>): Option<Logged> {
    if lines == [] then None
    else
      var last := LoggedRecord(nodeId, lines[|lines| - 1]);
      if last.Some? then last else LastLogged(nodeId, lines[..|lines| - 1])
  }

  function LogTail(nodeId: string, d: Disk): Option<Logged> {
    if d.log.None? then None else LastLogged(nodeId, Lines(DecodeReplace(d.log.value)))
  }

  // The state, as read or remembered, against the log.
  function CheckPlan(who: Owner, d: Disk, read: Result<NodeState, StoreError>): Plan {
    match read
    case Err(error) => Plan([], Some(error))
    case Ok(s) =>
      if s.lastSequence == 0 then Plan([], None)
      else
        var tail := LogTail(who.nodeId, d);
        if tail.None? || tail.value.sequence < s.lastSequence then Plan([], Some(Divergence))
        else if tail.value.sequence > s.lastSequence then Plan([SetState(AdoptedState(who, s, tail.value))], None)
        else Plan([], None)
  }

  function AdoptedState(who: Owner, s: NodeState, tail: Logged): NodeState {
    NodeState(who.nodeId, Or(who.keyId, s.keyId), tail.sequence, Some(tail.eventHash), FORMAT_VERSION)
  }

  // What the store takes the state to be once the journal is dealt with.
  function ReadAfter(who: Owner, d: Disk, memory: Option<NodeState>, replay: Plan): Result<NodeState, StoreError> {
    if replay.effects != [] && replay.effects[0].SetState? then Ok(replay.effects[0].state)
    else ReadThrough(who, d, memory)
  }

  // Replay the journal, then hold the state against the log.
  function RecoverFrom(who: Owner, d: Disk, memory: Option<NodeState>): Plan {
    var replay := ReplayPlan(who, d, memory);
    if replay.error.Some? then replay
    else
      var check := CheckPlan(who, ApplyAll(d, replay.effects), ReadAfter(who, d, memory, replay));
      Plan(replay.effects + check.effects, check.error)
  }

  // A store made for this hold of the lock remembers nothing.
  function RecoverPlan(who: Owner, d: Disk): Plan {
    RecoverFrom(who, d, None)
  }

  // ---- one append ----------------------------------------------------------------------------------

  function JournalWrites(text: string): seq<Effect> {
    seq(|text| + 1, i requires 0 <= i <= |text| => WriteJournal(text[..i]))
  }

  function LogWrites(payload: seq<byte>): seq<Effect> {
    seq(|payload|, i requires 0 <= i < |payload| => AppendByte(payload[i]))
  }

  function Creation(d: Disk): seq<Effect> {
    if d.log.None? then [CreateLog] else []
  }

  function ExpectedPreviousHash(env: Env, nodeId: string, sequence: int, last: Option<string>): Option<string> {
    if sequence == FIRST_SEQUENCE then Some(GenesisPreviousHash(env, nodeId)) else last
  }

  // What signing hands back to the store: the line to append, and its hash.
  datatype Signed = Signed(line: string, eventHash: string)

  // The journal entry and the state of an append that found state `s` and disk `d`.
  function NewEntry(who: Owner, keyId: string, s: NodeState, d: Disk, signed: Signed, writtenAt: string): Entry {
    Entry(who.nodeId, Or(keyId, who.keyId), s.lastSequence + 1, signed.eventHash, |LogBytes(d)|, signed.line, writtenAt)
  }

  function NewState(who: Owner, keyId: string, s: NodeState, signed: Signed): NodeState {
    NodeState(who.nodeId, Or(keyId, Or(who.keyId, s.keyId)), s.lastSequence + 1, Some(signed.eventHash), FORMAT_VERSION)
  }

  // Creating the log, the journal, the record: everything before the commit.
  function WritePlan(d: Disk, e: Entry): seq<Effect> {
    Creation(d) + JournalWrites(JournalText(e)) + LogWrites(Payload(e.record))
  }

  function CommitPlan(s: NodeState): seq<Effect> {
    [SetState(s), DropJournal]
  }

  function RollbackPlan(d: Disk, offset: nat): seq<Effect> {
    (if |LogBytes(d)| > offset then [Truncate(offset)] else []) + [DropJournal]
  }

  // The state the store goes on from after a recovery without error.
  function RecoveredState(who: Owner, d: Disk, memory: Option<NodeState>): Result<NodeState, StoreError> {
    var replay := ReplayPlan(who, d, memory);
    var read := ReadAfter(who, d, memory, replay);
    CheckedState(CheckPlan(who, ApplyAll(d, replay.effects), read), read)
  }

  function CheckedState(check: Plan, read: Result<NodeState, StoreError>): Result<NodeState, StoreError> {
    if check.effects != [] && check.effects[0].SetState? then Ok(check.effects[0].state) else read
  }

  // What the administrative repair writes: the log's last complete record, whatever
  // the state said before.
  function RepairPlan(who: Owner, d: Disk, memory: Option<NodeState>): Plan {
    match LogTail(who.nodeId, d)
    case None =>
      var current := ReadThrough(who, d, memory);
      if current.Ok? && current.value.lastSequence != 0 then Plan([], Some(Divergence))
      else Plan([SetState(NodeState(who.nodeId, who.keyId, 0, None, FORMAT_VERSION))], None)
    case Some(t) =>
      Plan([SetState(NodeState(who.nodeId, who.keyId, t.sequence, Some(t.eventHash), FORMAT_VERSION))], None)
  }
}
