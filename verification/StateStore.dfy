/** The state store on its own: commits move a chain on by one, recovery only moves it
    forward, a reset starts it again, and what memory does to those promises. */
module StateStore {
  import opened Json
  import opened Models
  import opened Store

  // The state file as an object reads it.
  function ReadFile(who: Owner, file: Option<NodeState>): Result<NodeState, StoreError> {
    ReadState(who, Disk(None, file, None))
  }

  // The state file, and what one object remembers of it.
  datatype Cell = Cell(file: Option<NodeState>, memory: Option<NodeState>)

  datatype Op =
    | Read
    | Commit(sequence: int, eventHash: string, keyId: string)
    | RecoverFrom(sequence: int, eventHash: string, keyId: string)
    | Reset(keyId: string)

  datatype Done = Done(cell: Cell, result: Result<NodeState, StoreError>)

  function Written(s: NodeState): Done {
    Done(Cell(Some(s), Some(s)), Ok(s))
  }

  // A refused call has still read, and remembers what it read.
  function Refused(c: Cell, read: NodeState): Done {
    Done(Cell(c.file, Some(read)), Err(NotNext))
  }

  // One call by an object that holds the lock.  A commit trusts what the object
  // remembers, and reads only if it remembers nothing; a recovery always reads.
  function Call(who: Owner, c: Cell, op: Op): Done {
    match op
    case Read =>
      var read := ReadFile(who, c.file);
      Done(if read.Ok? then Cell(c.file, Some(read.value)) else c, read)
    case Commit(sequence, eventHash, keyId) =>
      var read := if c.memory.Some? then Ok(c.memory.value) else ReadFile(who, c.file);
      if read.Err? then Done(c, read)
      else if sequence != read.value.lastSequence + 1 then Refused(c, read.value)
      else Written(NodeState(Or(read.value.nodeId, who.nodeId), Or(keyId, Or(who.keyId, read.value.keyId)), sequence,
                             Some(eventHash), FORMAT_VERSION))
    case RecoverFrom(sequence, eventHash, keyId) =>
      var read := ReadFile(who, c.file);
      if read.Err? then Done(c, read)
      else if sequence < read.value.lastSequence then Refused(c, read.value)
      else Written(NodeState(who.nodeId, Or(keyId, Or(who.keyId, read.value.keyId)), sequence, Some(eventHash),
                             FORMAT_VERSION))
    case Reset(keyId) => Written(NodeState(who.nodeId, Or(keyId, who.keyId), 0, None, FORMAT_VERSION))
  }

  // A call by an object that may not hold the lock.
  function Asked(holding: bool, who: Owner, c: Cell, op: Op): Done {
    if holding then Call(who, c, op) else Done(c, Err(NotLocked))
  }

  class StateFile {
    var state: Option<NodeState>
    var locked: bool

    constructor ()
      ensures state.None? && !locked
    {
      state, locked := None, false;
    }
  }

  class StateStore {
    const file: StateFile
    const nodeId: string
    const keyId: string
    var holding: bool
    var memory: Option<NodeState>

    constructor (file: StateFile, nodeId: string, keyId: string)
      ensures this.file == file && this.nodeId == nodeId && this.keyId == keyId && !holding && memory.None?
    {
      this.file, this.nodeId, this.keyId, holding, memory := file, nodeId, keyId, false, None;
    }

    function Who(): Owner {
      Owner(nodeId, keyId)
    }

    ghost function Value(): Cell
      reads this, file
    {
      Cell(file.state, memory)
    }

    method Acquire() returns (r: Result<(), StoreError>)
      requires holding ==> file.locked
      modifies `holding, file`locked
      ensures r == if old(holding) || !old(file.locked) then Ok(()) else Err(LockTimeout)
      ensures holding == r.Ok? && file.locked && Value() == old(Value())
    {
      if holding {
        return Ok(());
      }
      if file.locked {
        return Err(LockTimeout);
      }
      file.locked, holding := true, true;
      r := Ok(());
    }

    // What was read before is still remembered after the lock is given up.
    method Release()
      modifies `holding, file`locked
      ensures !holding && Value() == old(Value())
      ensures file.locked == (old(file.locked) && !old(holding))
    {
      if holding {
        holding := false;
        file.locked := false;
      }
    }

    method Read() returns (r: Result<NodeState, StoreError>)
      modifies `memory
      ensures Done(Value(), r) == Asked(holding, Who(), old(Value()), Op.Read)
    {
      if !holding {
        return Err(NotLocked);
      }
      if file.state.None? {
        memory := Some(NodeState(nodeId, keyId, 0, None, FORMAT_VERSION));
        return Ok(memory.value);
      }
      if !ValidState(file.state.value, nodeId) {
        return Err(StateCorruption);
      }
      memory := file.state;
      r := Ok(memory.value);
    }

    method Write(s: NodeState) returns (r: Result<NodeState, StoreError>)
      modifies `memory, file`state
      ensures Done(Value(), r) == if holding then Written(s) else Done(old(Value()), Err(NotLocked))
    {
      if !holding {
        return Err(NotLocked);
      }
      file.state := Some(s);
      memory := Some(s);
      r := Ok(s);
    }

    method Commit(sequence: int, eventHash: string, keyId: string) returns (r: Result<NodeState, StoreError>)
      modifies `memory, file`state
      ensures Done(Value(), r) == Asked(holding, Who(), old(Value()), Op.Commit(sequence, eventHash, keyId))
    {
      if !holding {
        return Err(NotLocked);
      }
      if memory.None? {
        var read := Read();
        if read.Err? {
          return read;
        }
      }
      var s := memory.value;
      if sequence <= s.lastSequence {
        return Err(NotNext);
      }
      if sequence != s.lastSequence + 1 {
        return Err(NotNext);
      }
      r := Write(NodeState(Or(s.nodeId, nodeId), Or(keyId, Or(this.keyId, s.keyId)), sequence, Some(eventHash),
                           FORMAT_VERSION));
    }

    method RecoverFrom(sequence: int, eventHash: string, keyId: string) returns (r: Result<NodeState, StoreError>)
      modifies `memory, file`state
      ensures Done(Value(), r) == Asked(holding, Who(), old(Value()), Op.RecoverFrom(sequence, eventHash, keyId))
    {
      var current := Read();
      if current.Err? {
        return current;
      }
      if sequence < current.value.lastSequence {
        return Err(NotNext);
      }
      r := Write(NodeState(nodeId, Or(keyId, Or(this.keyId, current.value.keyId)), sequence, Some(eventHash),
                           FORMAT_VERSION));
    }

    method Reset(keyId: string) returns (r: Result<NodeState, StoreError>)
      modifies `memory, file`state
      ensures Done(Value(), r) == Asked(holding, Who(), old(Value()), Op.Reset(keyId))
    {
      r := Write(NodeState(nodeId, Or(keyId, this.keyId), 0, None, FORMAT_VERSION));
    }
  }

  // ---- many objects on one file -----------------------------------------------------------

  function PlaceOf(file: Option<NodeState>): int {
    if file.Some? then file.value.lastSequence else 0
  }

  // A commit puts the file at a place it had already reached exactly when the object
  // remembers an older place than the file holds.
  lemma CommitRewinds(who: Owner, c: Cell, sequence: int, eventHash: string, keyId: string)
    requires Call(who, c, Commit(sequence, eventHash, keyId)).result.Ok?
    ensures PlaceOf(Call(who, c, Commit(sequence, eventHash, keyId)).cell.file) <= PlaceOf(c.file)
      <==> c.memory.Some? && c.memory.value.lastSequence < PlaceOf(c.file)
  {
  }

  // A recovery is refused exactly when it is behind the file, whatever the object
  // remembers; else the file is at the number and hash it was given.
  lemma RecoveryMoves(who: Owner, c: Cell, sequence: int, eventHash: string, keyId: string)
    requires ReadFile(who, c.file).Ok?
    ensures var done := Call(who, c, RecoverFrom(sequence, eventHash, keyId));
      && (done.result.Err? <==> sequence < PlaceOf(c.file))
      && (done.result.Err? ==> done.cell.file == c.file)
      && (done.result.Ok? ==>
            && done.cell.file.Some? && done.cell.file.value.lastSequence == sequence
            && done.cell.file.value.lastEventHash == Some(eventHash) && done.cell.file.value.nodeId == who.nodeId
            && done.cell.file.value.keyId == FirstNamed(keyId, who.keyId, ReadFile(who, c.file).value.keyId)
            && done.cell.memory == done.cell.file)
  {
    hide ValidState;
  }

  // A commit is refused exactly unless it is the number after the remembered one, or
  // after the file's if nothing is remembered; else the file is at that number and hash.
  lemma CommitMoves(who: Owner, c: Cell, sequence: int, eventHash: string, keyId: string)
    requires ReadFile(who, c.file).Ok?
    ensures var done := Call(who, c, Commit(sequence, eventHash, keyId));
      var place := if c.memory.Some? then c.memory.value.lastSequence else PlaceOf(c.file);
      var was := if c.memory.Some? then c.memory.value else ReadFile(who, c.file).value;
      && (done.result.Ok? <==> sequence == place + 1)
      && (done.result.Err? ==> done.cell.file == c.file)
      && (done.result.Ok? ==>
            && done.cell.file.Some? && done.cell.file.value.lastSequence == sequence
            && done.cell.file.value.lastEventHash == Some(eventHash) && done.cell.memory == done.cell.file
            && done.cell.file.value.nodeId == (if was.nodeId != "" then was.nodeId else who.nodeId)
            && done.cell.file.value.keyId == FirstNamed(keyId, who.keyId, was.keyId))
  {
    hide ValidState;
  }

  // The key a state is given: the caller's, or the object's, or the one it had.
  function FirstNamed(given: string, own: string, had: string): string {
    if given != "" then given else if own != "" then own else had
  }

  // After a reset, whatever the file held, every object that has not read yet finds the
  // chain empty, under the key it was reset for, and may commit number 1.
  lemma ResetBeginsAgain(who: Owner, c: Cell, keyId: string, other: Owner, eventHash: string, nextKey: string)
    requires who.nodeId != "" && FirstNamed(keyId, who.keyId, "") != "" && other.nodeId == who.nodeId
    ensures var done := Call(who, c, Reset(keyId));
      var read := Call(other, Cell(done.cell.file, None), Read).result;
      && done.result.Ok? && done.cell.memory == done.cell.file && read == done.result
      && read.value.lastSequence == 0 && read.value.lastEventHash.None?
      && read.value.keyId == FirstNamed(keyId, who.keyId, "")
      && Call(other, Cell(done.cell.file, None), Commit(1, eventHash, nextKey)).result.Ok?
  {
  }

  // What a recovery or a commit wrote, any object of the node reads back, if the node
  // and the key have names and the number and the hash can be those of a record.
  lemma WrittenReadsBack(who: Owner, c: Cell, op: Op, other: Owner, memory: Option<NodeState>)
    requires op.RecoverFrom? || (op.Commit? && (c.memory.Some? ==> c.memory.value.nodeId == who.nodeId))
    requires Call(who, c, op).result.Ok? && other.nodeId == who.nodeId != ""
    requires op.keyId != "" && op.sequence >= 1 && Hex64(op.eventHash)
    ensures var done := Call(who, c, op);
      && Call(other, Cell(done.cell.file, memory), Read).result == done.result
      && done.result.value == NodeState(who.nodeId, op.keyId, op.sequence, Some(op.eventHash), FORMAT_VERSION)
  {
    hide Hex64;
  }

  // Whoever holds the lock calls; `Renew` puts a fresh object in the place of one.
  datatype Action = Renew(p: nat) | By(p: nat, op: Op)

  datatype World = World(file: Option<NodeState>, memories: map<nat, Option<NodeState>>)

  function MemoryOf(w: World, p: nat): Option<NodeState> {
    if p in w.memories then w.memories[p] else None
  }

  function CellOf(w: World, p: nat): Cell {
    Cell(w.file, MemoryOf(w, p))
  }

  function Next(who: Owner, w: World, a: Action): World {
    match a
    case Renew(p) => w.(memories := w.memories[p := None])
    case By(p, op) =>
      var c := Call(who, CellOf(w, p), op).cell;
      World(c.file, w.memories[p := c.memory])
  }

  function Play(who: Owner, actions: seq<Action>): World {
    if actions == [] then World(None, map[]) else Next(who, Play(who, actions[..|actions| - 1]), actions[|actions| - 1])
  }

  predicate CommitsNow(who: Owner, w: World, a: Action) {
    a.By? && a.op.Commit? && Call(who, CellOf(w, a.p), a.op).result.Ok?
  }

  // A caller can tell beforehand: a reset of a chain already begun, or a commit of
  // the number after the one remembered when the file has already reached it.
  predicate Repeats(w: World, a: Action) {
    a.By?
    && match a.op
       case Reset(_) => PlaceOf(w.file) > 0
       case Commit(sequence, _, _) => (
         var m := MemoryOf(w, a.p);
         m.Some? && sequence == m.value.lastSequence + 1 && sequence <= PlaceOf(w.file))
       case _ => false
  }

  lemma StepRepeats(who: Owner, w: World, a: Action)
    ensures var after := PlaceOf(Next(who, w, a).file);
      after < PlaceOf(w.file) || (CommitsNow(who, w, a) && after == PlaceOf(w.file)) <==> Repeats(w, a)
  {
    hide ValidState;
  }

  function PlaceAt(who: Owner, actions: seq<Action>, n: nat): int
    requires n <= |actions|
  {
    PlaceOf(Play(who, actions[..n]).file)
  }

  // From moment `n` to moment `m` the file has not gone back; and if a commit was the
  // last thing done, its number is above every number the file held before.
  predicate Onward(who: Owner, actions: seq<Action>, n: nat, m: nat)
    requires n <= m <= |actions|
  {
    && PlaceAt(who, actions, n) <= PlaceAt(who, actions, m)
    && (n < m && CommitsNow(who, Play(who, actions[..m - 1]), actions[m - 1]) ==>
          PlaceAt(who, actions, n) < PlaceAt(who, actions, m))
  }

  lemma OneStep(who: Owner, actions: seq<Action>, i: nat)
    requires i < |actions|
    ensures Onward(who, actions, i, i + 1) <==> !Repeats(Play(who, actions[..i]), actions[i])
  {
    hide Next, Repeats, CommitsNow;
    assert actions[..i + 1][..i] == actions[..i];
    StepRepeats(who, Play(who, actions[..i]), actions[i]);
  }

  lemma {:induction false} ManySteps(who: Owner, actions: seq<Action>, n: nat, m: nat)
    requires n <= m <= |actions|
    requires forall i :: 0 <= i < |actions| ==> !Repeats(Play(who, actions[..i]), actions[i])
    ensures Onward(who, actions, n, m)
    decreases m - n
  {
    hide Play, Repeats, CommitsNow, PlaceAt;
    if n < m {
      ManySteps(who, actions, n, m - 1);
      OneStep(who, actions, m - 1);
    }
  }

  // Over any run the file never goes back and no commit takes a number the file ever
  // held before, exactly when no call of the run is one that repeats.
  lemma NeverBack(who: Owner, actions: seq<Action>)
    ensures (forall n, m :: 0 <= n <= m <= |actions| ==> Onward(who, actions, n, m))
      <==> (forall i :: 0 <= i < |actions| ==> !Repeats(Play(who, actions[..i]), actions[i]))
  {
    hide Play, Repeats, Onward;
    if forall i :: 0 <= i < |actions| ==> !Repeats(Play(who, actions[..i]), actions[i]) {
      forall n, m | 0 <= n <= m <= |actions| ensures Onward(who, actions, n, m) {
        ManySteps(who, actions, n, m);
      }
    }
    if forall n, m :: 0 <= n <= m <= |actions| ==> Onward(who, actions, n, m) {
      forall i | 0 <= i < |actions| ensures !Repeats(Play(who, actions[..i]), actions[i]) {
        OneStep(who, actions, i);
      }
    }
  }

  // One such run: an object whose first call was refused still remembers the start,
  // and commits number 1 again after another object has reached 2.
  lemma RefusedCallReuses(who: Owner, first: Action, a: string, b: string, c: string)
    requires who.nodeId != "" && who.keyId != "" && Hex64(a) && Hex64(b) && Hex64(c)
    requires first == By(0, Read) || (first.By? && first.p == 0 && first.op.Commit? && first.op.sequence != 1)
    ensures var run := [first, By(1, Commit(1, a, "")), By(1, Commit(2, b, "")), By(0, Commit(1, c, ""))];
      && PlaceOf(Play(who, run[..3]).file) == 2 && PlaceOf(Play(who, run).file) == 1
      && Play(who, run).file.value.lastEventHash == Some(c)
  {
    hide Hex64;
    var run := [first, By(1, Commit(1, a, "")), By(1, Commit(2, b, "")), By(0, Commit(1, c, ""))];
    assert run[..3][..2] == run[..2] && run[..2][..1] == run[..1] && run[..1][..0] == [];
    var zero := NodeState(who.nodeId, who.keyId, 0, None, FORMAT_VERSION);
    var one := NodeState(who.nodeId, who.keyId, 1, Some(a), FORMAT_VERSION);
    var two := NodeState(who.nodeId, who.keyId, 2, Some(b), FORMAT_VERSION);
    var w0 := World(None, map[]);
    assert Play(who, run[..1][..0]) == w0;
    var w1 := Next(who, w0, first);
    assert Play(who, run[..1]) == w1 && w1.file.None? && MemoryOf(w1, 0) == Some(zero) && MemoryOf(w1, 1).None?;
    var w2 := Next(who, w1, By(1, Commit(1, a, "")));
    assert Play(who, run[..2]) == w2 && w2.file == Some(one);
    assert MemoryOf(w2, 0) == Some(zero) && MemoryOf(w2, 1) == Some(one);
    var w3 := Next(who, w2, By(1, Commit(2, b, "")));
    assert Play(who, run[..3]) == w3 && w3.file == Some(two) && MemoryOf(w3, 0) == Some(zero);
  }

  // The same run on real objects: each call is one step of the machine.
  method Reuse(nodeId: string, keyId: string, a: string, b: string, c: string) returns (place: int)
    requires nodeId != "" && keyId != "" && Hex64(a) && Hex64(b) && Hex64(c)
    ensures place == 1
  {
    hide Hex64;
    var file := new StateFile();
    var p := new StateStore(file, nodeId, keyId);
    var q := new StateStore(file, nodeId, keyId);
    var _ := p.Acquire();
    var _ := p.Commit(5, c, "");
    p.Release();
    var _ := q.Acquire();
    var _ := q.Commit(1, a, "");
    var _ := q.Commit(2, b, "");
    q.Release();
    assert PlaceOf(file.state) == 2;
    var _ := p.Acquire();
    var _ := p.Commit(1, c, "");
    place := PlaceOf(file.state);
  }
}
