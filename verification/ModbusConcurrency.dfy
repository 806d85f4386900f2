/** Many clients on one set of registers: each handler takes the lock, touches one
    cell at a time, and releases it.  That one client at a time holds the lock is
    what `Lock` models, not a result; the result is that, whatever the interleaving,
    requests take effect one after another, each as a whole, in the order of their
    locks. */
module ModbusConcurrency {
  import opened Json
  import opened Utf8
  import opened Modbus
  import opened ModbusTheorems

  // What a handler has done under the lock so far: cells written, or values seen.
  datatype Work =
    | Idle
    | Inside(command: Command, done: nat, seen: seq<int>)

  // A request that has left its critical section, with what it saw there.
  datatype Served = Served(client: nat, command: Command, seen: seq<int>)

  datatype System = System(bank: Bank, holder: Option<nat>, work: map<nat, Work>, history: seq<Served>)

  datatype Action =
    | Lock(client: nat, pdu: seq<byte>)   // a request reaches its handler's lock
    | Touch(client: nat)                  // one cell is read or written
    | Unlock(client: nat)

  function WorkOf(s: System, client: nat): Work {
    if client in s.work then s.work[client] else Idle
  }

  // The cells a command touches.
  function Span(c: Command): nat {
    match c
    case ReadCoils(_, q) => q
    case ReadRegisters(_, q) => q
    case WriteCoil(_, _) => 1
    case WriteRegister(_, _) => 1
    case WriteRegisters(_, vs) => |vs|
    case Refused(_) => 0
  }

  function CoilValue(on: bool): int {
    if on then 1 else 0
  }

  // Cell number `k` of a command, on a bank: the new bank, and what was seen.
  function TouchCell(b: Bank, c: Command, k: nat): (r: (Bank, seq<int>))
    requires WellSized(b) && InRange(c) && k < Span(c)
    ensures WellSized(r.0)
  {
    match c
    case ReadCoils(a, _) => (b, [CoilValue(b.coils[a + k])])
    case ReadRegisters(a, _) => (b, [b.registers[a + k]])
    case WriteCoil(a, on) => (b.(coils := b.coils[a := on]), [])
    case WriteRegister(a, v) => (b.(registers := b.registers[a := v]), [])
    case WriteRegisters(a, vs) => (b.(registers := b.registers[a + k := vs[k]]), [])
  }

  predicate WellFormed(s: System) {
    WellSized(s.bank) && forall c :: c in s.work && s.work[c].Inside? ==> InRange(s.work[c].command)
  }

  function Next(s: System, a: Action): (r: System)
    requires WellFormed(s)
    ensures WellFormed(r)
  {
    var w := WorkOf(s, a.client);
    match a
    case Lock(client, pdu) =>
      if s.holder.Some? || !w.Idle? || pdu == [] then s
      else s.(holder := Some(client), work := s.work[client := Inside(Understand(pdu), 0, [])])
    case Touch(client) =>
      if !w.Inside? || w.done >= Span(w.command) then s
      else
        var (bank, seen) := TouchCell(s.bank, w.command, w.done);
        s.(bank := bank, work := s.work[client := Inside(w.command, w.done + 1, w.seen + seen)])
    case Unlock(client) =>
      if !w.Inside? || w.done < Span(w.command) then s
      else s.(holder := None, work := s.work[client := Idle], history := s.history + [Served(client, w.command, w.seen)])
  }

  function Run(b: Bank, actions: seq<Action>): (r: System)
    requires WellSized(b)
    ensures WellFormed(r)
  {
    if actions == [] then System(b, None, map[], [])
    else Next(Run(b, actions[..|actions| - 1]), actions[|actions| - 1])
  }

  // ---- one at a time -------------------------------------------------------------------

  predicate Understood(h: seq<Served>) {
    forall i :: 0 <= i < |h| ==> InRange(h[i].command)
  }

  // The bank after whole requests, in the order they left the lock.
  function Serial(b: Bank, h: seq<Served>): (r: Bank)
    requires WellSized(b) && Understood(h)
    ensures WellSized(r)
  {
    if h == [] then b else After(Serial(b, h[..|h| - 1]), h[|h| - 1].command)
  }

  // What a read returns when nothing else happens meanwhile.
  function Snapshot(b: Bank, c: Command): seq<int>
    requires WellSized(b) && InRange(c)
  {
    match c
    case ReadCoils(a, q) => seq(q, i requires 0 <= i < q => CoilValue(b.coils[a + i]))
    case ReadRegisters(a, q) => seq(q, i requires 0 <= i < q => b.registers[a + i] as int)
    case _ => []
  }

  // A command stopped after `k` of its cells.
  function Part(b: Bank, c: Command, k: nat): (r: Bank)
    requires WellSized(b) && InRange(c) && k <= Span(c)
  {
    if k == Span(c) then After(b, c)
    else match c
         case WriteRegisters(a, vs) => b.(registers := b.registers[..a] + vs[..k] + b.registers[a + k..])
         case _ => b
  }

  lemma PartStart(b: Bank, c: Command)
    requires WellSized(b) && InRange(c)
    ensures Part(b, c, 0) == b
  {
    if c.WriteRegisters? {
      assert b.registers[..c.address] + c.values[..0] + b.registers[c.address..] == b.registers;
    }
  }

  lemma PartStep(b: Bank, c: Command, k: nat)
    requires WellSized(b) && InRange(c) && k < Span(c)
    ensures WellSized(Part(b, c, k))
    ensures TouchCell(Part(b, c, k), c, k).0 == Part(b, c, k + 1)
    ensures k < |Snapshot(b, c)| ==> TouchCell(Part(b, c, k), c, k).1 == [Snapshot(b, c)[k]]
    ensures k >= |Snapshot(b, c)| ==> TouchCell(Part(b, c, k), c, k).1 == []
  {
    if c.WriteRegisters? {
      var p := Part(b, c, k).registers;
      assert p == b.registers[..c.address] + c.values[..k] + b.registers[c.address + k..];
      assert p[c.address + k := c.values[k]] == b.registers[..c.address] + c.values[..k + 1] + b.registers[c.address + k + 1..];
      assert c.values[..|c.values|] == c.values;
    }
  }

  // Under the lock the bank is the serial one with the holder's command part done.
  predicate Atomic(b: Bank, s: System)
    requires WellSized(b) && WellFormed(s)
  {
    && Understood(s.history)
    && (forall c :: c in s.work && s.work[c].Inside? ==> s.holder == Some(c))
    && (s.holder.None? ==> s.bank == Serial(b, s.history))
    && (s.holder.Some? ==> WorkOf(s, s.holder.value).Inside? && InPart(Serial(b, s.history), s.bank, WorkOf(s, s.holder.value)))
  }

  predicate InPart(before: Bank, now: Bank, w: Work)
    requires WellSized(before)
  {
    && w.Inside? && InRange(w.command) && w.done <= Span(w.command)
    && now == Part(before, w.command, w.done)
    && var shot := Snapshot(before, w.command);
       w.seen == shot[..if w.done <= |shot| then w.done else |shot|]
  }

  lemma TouchKeepsPart(before: Bank, now: Bank, w: Work)
    requires WellSized(before) && InPart(before, now, w) && w.done < Span(w.command)
    ensures WellSized(now)
    ensures var (bank, seen) := TouchCell(now, w.command, w.done);
      InPart(before, bank, Inside(w.command, w.done + 1, w.seen + seen))
  {
    hide TouchCell, Part, Snapshot;
    PartStep(before, w.command, w.done);
    var shot := Snapshot(before, w.command);
    if w.done < |shot| {
      assert shot[..w.done] + [shot[w.done]] == shot[..w.done + 1];
    } else {
      assert w.seen + [] == w.seen;
    }
  }

  lemma StepAtomic(b: Bank, s: System, a: Action)
    requires WellSized(b) && WellFormed(s) && Atomic(b, s)
    ensures Atomic(b, Next(s, a))
  {
    hide TouchCell, Part, Snapshot, After, Understand;
    var w := WorkOf(s, a.client);
    match a
    case Lock(client, pdu) =>
      if s.holder.None? && w.Idle? && pdu != [] {
        PartStart(Serial(b, s.history), Understand(pdu));
      }
    case Touch(client) =>
      if w.Inside? && w.done < Span(w.command) {
        TouchKeepsPart(Serial(b, s.history), s.bank, w);
      }
    case Unlock(client) =>
      if w.Inside? && w.done >= Span(w.command) {
        UnlockAtomic(b, s, client);
      }
  }

  lemma UnlockAtomic(b: Bank, s: System, client: nat)
    requires WellSized(b) && WellFormed(s) && Atomic(b, s)
    requires WorkOf(s, client).Inside? && WorkOf(s, client).done >= Span(WorkOf(s, client).command)
    ensures Atomic(b, Next(s, Unlock(client)))
    ensures WorkOf(s, client).seen == Snapshot(Serial(b, s.history), WorkOf(s, client).command)
  {
    hide Snapshot, After;
    var w := WorkOf(s, client);
    var h := s.history + [Served(client, w.command, w.seen)];
    assert h[..|h| - 1] == s.history;
    var shot := Snapshot(Serial(b, s.history), w.command);
    assert |shot| <= Span(w.command) by { SnapshotSize(Serial(b, s.history), w.command); }
    assert shot[..|shot|] == shot;
  }

  lemma SnapshotSize(b: Bank, c: Command)
    requires WellSized(b) && InRange(c)
    ensures |Snapshot(b, c)| <= Span(c)
  {
  }

  // Every request saw, and left, what it would have alone, at its place in the order.
  ghost predicate Linear(b: Bank, h: seq<Served>)
    requires WellSized(b) && Understood(h)
  {
    forall i :: 0 <= i < |h| ==> h[i].seen == Snapshot(Serial(b, h[..i]), h[i].command)
  }

  lemma LinearExtends(b: Bank, h: seq<Served>, e: Served)
    requires WellSized(b) && Understood(h) && InRange(e.command) && Linear(b, h)
    requires e.seen == Snapshot(Serial(b, h), e.command)
    ensures Understood(h + [e]) && Linear(b, h + [e])
  {
    hide Snapshot, Serial;
    var more := h + [e];
    forall i | 0 <= i < |more| ensures more[i].seen == Snapshot(Serial(b, more[..i]), more[i].command) {
      assert i < |h| ==> more[..i] == h[..i];
      assert i == |h| ==> more[..i] == h;
    }
  }

  // For every interleaving of any number of clients: whenever the lock is free the
  // registers are those of the served requests one after another, and every read
  // returned one instant of them.
  lemma {:induction false} Linearizable(b: Bank, actions: seq<Action>)
    requires WellSized(b)
    ensures var s := Run(b, actions);
      && Atomic(b, s) && Linear(b, s.history)
      && (s.holder.None? ==> s.bank == Serial(b, s.history))
    decreases |actions|
  {
    hide Snapshot, Part, TouchCell, Understand, After;
    if actions != [] {
      var front, a := actions[..|actions| - 1], actions[|actions| - 1];
      var s := Run(b, front);
      Linearizable(b, front);
      StepAtomic(b, s, a);
      if a.Unlock? && WorkOf(s, a.client).Inside? && WorkOf(s, a.client).done >= Span(WorkOf(s, a.client).command) {
        UnlockAtomic(b, s, a.client);
        var w := WorkOf(s, a.client);
        LinearExtends(b, s.history, Served(a.client, w.command, w.seen));
      }
    }
  }

  datatype Entry = Entry(client: nat, command: Command)

  function Entries(h: seq<Served>): seq<Entry> {
    if h == [] then []
    else Entries(h[..|h| - 1]) + [Entry(h[|h| - 1].client, h[|h| - 1].command)]
  }

  // The requests that took the lock, in the order they took it.
  function Entered(b: Bank, actions: seq<Action>): seq<Entry>
    requires WellSized(b)
  {
    if actions == [] then []
    else
      var front, a := actions[..|actions| - 1], actions[|actions| - 1];
      var s := Run(b, front);
      if a.Lock? && s.holder.None? && WorkOf(s, a.client).Idle? && a.pdu != []
      then Entered(b, front) + [Entry(a.client, Understand(a.pdu))]
      else Entered(b, front)
  }

  function InHand(s: System): seq<Entry> {
    if s.holder.Some? && WorkOf(s, s.holder.value).Inside?
    then [Entry(s.holder.value, WorkOf(s, s.holder.value).command)]
    else []
  }

  // The serial order is the order of the locks, so of each client's own requests too:
  // what took the lock is what was served, and then the request still holding it.
  lemma {:induction false} LockOrder(b: Bank, actions: seq<Action>)
    requires WellSized(b)
    ensures Entered(b, actions) == Entries(Run(b, actions).history) + InHand(Run(b, actions))
    decreases |actions|
  {
    hide TouchCell, Understand, Serial, InPart, Atomic;
    if actions != [] {
      var front, a := actions[..|actions| - 1], actions[|actions| - 1];
      LockOrder(b, front);
      Linearizable(b, front);
      OrderStep(b, Run(b, front), a);
    }
  }

  lemma OrderStep(b: Bank, s: System, a: Action)
    requires WellSized(b) && WellFormed(s) && Atomic(b, s)
    ensures var t := Next(s, a);
      Entries(t.history) + InHand(t)
      == Entries(s.history) + InHand(s)
         + (if a.Lock? && s.holder.None? && WorkOf(s, a.client).Idle? && a.pdu != []
            then [Entry(a.client, Understand(a.pdu))] else [])
  {
    hide TouchCell, Understand, Serial, InPart;
    var w := WorkOf(s, a.client);
    if a.Unlock? && w.Inside? && w.done >= Span(w.command) {
      var h := s.history + [Served(a.client, w.command, w.seen)];
      assert h[..|h| - 1] == s.history;
      assert Entries(h) == Entries(s.history) + InHand(s);
    }
  }

  // What was seen under the lock is what the reply carries: words big-endian, coils packed.
  lemma SeenWords(b: Bank, pdu: seq<byte>, i: nat)
    requires WellSized(b) && 1 <= |pdu| <= MAX_PDU_LEN && Understand(pdu).ReadRegisters?
    requires i < Understand(pdu).quantity
    ensures 4 + 2 * i <= |Answer(b, pdu)| && Be16(Answer(b, pdu), 2 + 2 * i) == Snapshot(b, Understand(pdu))[i]
  {
    hide Understand, WordBytes, Pack, Be16;
    var c := Understand(pdu);
    var ws := b.registers[c.address..c.address + c.quantity];
    WordBytesAt(ws, i);
    assert Answer(b, pdu) == [READ_HOLDING_REGISTERS, 2 * c.quantity] + WordBytes(ws);
    Be16Behind([READ_HOLDING_REGISTERS, 2 * c.quantity], WordBytes(ws), 2 * i);
  }

  lemma Be16Behind(head: seq<byte>, b: seq<byte>, i: nat)
    requires i + 2 <= |b|
    ensures Be16(head + b, |head| + i) == Be16(b, i)
  {
  }

  lemma SeenCoils(b: Bank, pdu: seq<byte>, i: nat)
    requires WellSized(b) && 1 <= |pdu| <= MAX_PDU_LEN && Understand(pdu).ReadCoils?
    requires i < Understand(pdu).quantity
    ensures 2 + i / 8 < |Answer(b, pdu)|
    ensures BitOf(Answer(b, pdu)[2 + i / 8], i % 8) <==> Snapshot(b, Understand(pdu))[i] == 1
  {
    hide Understand, WordBytes, Pack, BitOf;
    var c := Understand(pdu);
    var bits := b.coils[c.address..c.address + c.quantity];
    PackedAt(bits, i);
    assert Answer(b, pdu) == [READ_COILS, (c.quantity + 7) / 8] + Pack(bits);
    assert Answer(b, pdu)[2 + i / 8] == Pack(bits)[i / 8];
    assert Snapshot(b, c)[i] == CoilValue(b.coils[c.address + i]) == CoilValue(bits[i]);
    assert BitOf(Pack(bits)[i / 8], i % 8) == bits[i];
  }
}
