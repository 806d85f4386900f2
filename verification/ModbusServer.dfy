/** The native server as it runs: arrays of coils and registers changed in place, a
    buffer grown by each chunk received and cut by each frame served. */
module ModbusServer {
  import opened Json
  import opened Utf8
  import opened Modbus
  import opened ModbusTheorems

  // ---- building replies ---------------------------------------------------------------

  lemma AduBytes(transaction: word, unit: byte, pdu: seq<byte>)
    requires |pdu| <= MAX_PDU_LEN
    ensures Adu(transaction, unit, pdu)
         == [transaction / 256, transaction % 256, 0, 0, (|pdu| + 1) / 256, (|pdu| + 1) % 256, unit] + pdu
  {
  }

  method BuildAdu(transaction: word, unit: byte, pdu: seq<byte>) returns (adu: seq<byte>)
    requires |pdu| <= MAX_PDU_LEN
    ensures adu == Adu(transaction, unit, pdu)
  {
    adu := [];
    adu := adu + [transaction / 256, transaction % 256];
    adu := adu + [0, 0];
    adu := adu + [(|pdu| + 1) / 256, (|pdu| + 1) % 256];
    adu := adu + [unit];
    adu := adu + pdu;
    AduBytes(transaction, unit, pdu);
  }

  method BuildException(transaction: word, unit: byte, functionCode: byte, code: byte) returns (adu: seq<byte>)
    ensures adu == Adu(transaction, unit, [ExceptionCode(functionCode), code])
  {
    adu := BuildAdu(transaction, unit, [ExceptionCode(functionCode), code]);
  }

  lemma EvenBelow(v: nat, p: nat, m: nat, q: nat, r: nat)
    requires p >= 1 && v == p * q + r && r < p && v < 2 * m * p && q % 2 == 0
    ensures v + p < 2 * m * p
  {
    assert p * (2 * m) == 2 * m * p;
    Grows(p, 2 * m, q);
    Grows(p, q + 2, 2 * m);
    assert p * (q + 2) == p * q + 2 * p;
  }

  // A byte has room for a bit that is clear in it.
  lemma Room(v: byte, k: nat)
    requires k < 8 && !BitOf(v, k)
    ensures v + Power2(k) < 256
  {
    hide Power2;
    PowerPositive(k);
    Byte();
    var m := PowerFactor(k, 8);
    EvenBelow(v, Power2(k), m, v / Power2(k), v % Power2(k));
  }

  lemma Byte()
    ensures Power2(8) == 256
  {
  }

  // `v |= 1 << k`
  function SetBit(v: byte, k: nat): (r: byte)
    requires k < 8
  {
    if BitOf(v, k) then v else Room(v, k); v + Power2(k)
  }

  // ---- packing, byte by byte ----------------------------------------------------------------

  function Slice(bits: seq<bool>, k: nat): seq<bool>
    requires 8 * k <= |bits|
  {
    bits[8 * k..if 8 * k + 8 <= |bits| then 8 * k + 8 else |bits|]
  }

  lemma SliceLater(bits: seq<bool>, k: nat)
    requires 1 <= k && 8 * k <= |bits|
    ensures Slice(bits[8..], k - 1) == Slice(bits, k)
  {
    var n := if 8 * k + 8 <= |bits| then 8 * k + 8 else |bits|;
    assert bits[8..][8 * (k - 1)..n - 8] == bits[8 * k..n];
  }

  lemma PackHead(bits: seq<bool>)
    requires bits != []
    ensures Pack(bits) != [] && Pack(bits)[0] == BitsValue(Slice(bits, 0))
    ensures |bits| > 8 ==> Pack(bits)[1..] == Pack(bits[8..])
  {
    hide BitsValue, Power2;
    if |bits| <= 8 {
      assert Slice(bits, 0) == bits;
    } else {
      assert Slice(bits, 0) == bits[..8];
    }
  }

  lemma {:induction false} PackSlice(bits: seq<bool>, k: nat)
    requires k < (|bits| + 7) / 8
    ensures Pack(bits)[k] == BitsValue(Slice(bits, k))
    decreases |bits|
  {
    hide BitsValue, Power2, Pack, Slice;
    PackHead(bits);
    if k > 0 {
      PackSlice(bits[8..], k - 1);
      SliceLater(bits, k);
    }
  }

  // Byte `k` of a reply once the first `i` coils have been looked at.
  function Partly(bits: seq<bool>, i: nat, k: nat): (v: nat)
    requires i <= |bits|
    ensures v < 256
  {
    if 8 * k >= i then 0
    else
      SmallPower(|Slice(bits[..i], k)|, 8);
      assert Power2(8) == 256;
      BitsValue(Slice(bits[..i], k))
  }

  lemma PartlyIs(bits: seq<bool>, i: nat, k: nat)
    requires i <= |bits|
    ensures 8 * k >= i ==> Partly(bits, i, k) == 0
    ensures 8 * k < i <= 8 * k + 8 ==> Partly(bits, i, k) == BitsValue(bits[8 * k..i])
    ensures 8 * k + 8 <= i ==> Partly(bits, i, k) == BitsValue(bits[8 * k..8 * k + 8])
  {
    hide BitsValue, Power2;
    if 8 * k < i {
      assert Slice(bits[..i], k) == bits[8 * k..if 8 * k + 8 <= i then 8 * k + 8 else i];
    }
  }

  // Setting the next bit up.
  lemma NextBit(low: seq<bool>, bit: bool)
    requires |low| < 8
    ensures BitsValue(low) < 256
    ensures BitsValue(low + [bit]) == if bit then SetBit(BitsValue(low), |low|) else BitsValue(low)
  {
    hide BitOf;
    SmallPower(|low|, 8);
    Byte();
    assert (low + [bit])[..|low|] == low;
    BitsAt(low, |low|);
  }

  lemma PartlyStep(bits: seq<bool>, i: nat, k: nat)
    requires i < |bits|
    ensures Partly(bits, i + 1, k)
         == if k == i / 8 && bits[i] then SetBit(Partly(bits, i, k), i % 8) else Partly(bits, i, k)
  {
    hide Partly, SetBit, BitsValue;
    PartlyIs(bits, i, k);
    PartlyIs(bits, i + 1, k);
    if k == i / 8 {
      var low := bits[8 * k..i];
      assert bits[8 * k..i + 1] == low + [bits[i]] && |low| == i % 8;
      NextBit(low, bits[i]);
      assert low == [] ==> BitsValue(low) == 0 by { NoBits(); }
    }
  }

  lemma NoBits()
    ensures BitsValue([]) == 0
  {
  }

  lemma WordBytesAppend(ws: seq<word>, w: word)
    ensures WordBytes(ws + [w]) == WordBytes(ws) + PutBe16(w)
  {
    if ws == [] {
      assert ws + [w] == [w] && [w][1..] == [];
    } else {
      assert (ws + [w])[1..] == ws[1..] + [w];
      WordBytesAppend(ws[1..], w);
    }
  }

  // ---- the shared state -------------------------------------------------------------------------

  class PlcState {
    const coils: array<bool>
    const registers: array<word>

    constructor ()
      ensures Valid() && fresh(coils) && fresh(registers)
      ensures Image() == Bank(seq(CELLS, i => false), seq(CELLS, i => 0))
    {
      coils := new bool[CELLS](i => false);
      registers := new word[CELLS](i => 0);
    }

    ghost predicate Valid() {
      coils.Length == CELLS && registers.Length == CELLS
    }

    ghost function Image(): (b: Bank)
      requires Valid()
      reads coils, registers
      ensures WellSized(b)
    {
      Bank(coils[..], registers[..])
    }
  }

  class Server {
    const state: PlcState
    const range: Range

    constructor (state: PlcState, range: Range)
      ensures this.state == state && this.range == range
    {
      this.state, this.range := state, range;
    }

    method HandleReadCoils(r: Request) returns (reply: seq<byte>)
      requires state.Valid() && Servable(r) && r.pdu[0] == READ_COILS
      ensures reply == Reply(state.Image(), r)
    {
      hide Adu, Pack, Partly, SetBit;
      var pdu := r.pdu;
      if |pdu| != 5 {
        reply := BuildException(r.transaction, r.unit, READ_COILS, ILLEGAL_DATA_VALUE);
        return;
      }
      var address, quantity := Be16(pdu, 1), Be16(pdu, 3);
      if quantity == 0 || quantity > 2000 {
        reply := BuildException(r.transaction, r.unit, READ_COILS, ILLEGAL_DATA_VALUE);
        return;
      }
      if address + quantity > CELLS {
        reply := BuildException(r.transaction, r.unit, READ_COILS, ILLEGAL_DATA_ADDRESS);
        return;
      }
      var packed := PackCoils(address, quantity);
      reply := BuildAdu(r.transaction, r.unit, [READ_COILS, (quantity + 7) / 8] + packed);
    }

    method PackCoils(address: nat, quantity: nat) returns (packed: seq<byte>)
      requires state.Valid() && address + quantity <= CELLS
      ensures packed == Pack(state.coils[address..address + quantity])
    {
      hide Pack, Partly, SetBit;
      ghost var bits := state.coils[address..address + quantity];
      var count := (quantity + 7) / 8;
      packed := seq(count, i => 0);
      var i := 0;
      NothingPacked(bits, count);
      while i < quantity
        invariant 0 <= i <= quantity && |packed| == count
        invariant forall k :: 0 <= k < count ==> packed[k] == Partly(bits, i, k)
      {
        forall k | 0 <= k < count
          ensures Partly(bits, i + 1, k)
               == if k == i / 8 && bits[i] then SetBit(Partly(bits, i, k), i % 8) else Partly(bits, i, k)
        {
          PartlyStep(bits, i, k);
        }
        if state.coils[address + i] {
          packed := packed[i / 8 := SetBit(packed[i / 8], i % 8)];
        }
        i := i + 1;
      }
      forall k | 0 <= k < count ensures packed[k] == Pack(bits)[k] {
        AllPacked(bits, k);
      }
    }

    method HandleReadRegisters(r: Request) returns (reply: seq<byte>)
      requires state.Valid() && Servable(r) && r.pdu[0] == READ_HOLDING_REGISTERS
      ensures reply == Reply(state.Image(), r)
    {
      hide Adu, WordBytes;
      var pdu := r.pdu;
      if |pdu| != 5 {
        reply := BuildException(r.transaction, r.unit, READ_HOLDING_REGISTERS, ILLEGAL_DATA_VALUE);
        return;
      }
      var address, quantity := Be16(pdu, 1), Be16(pdu, 3);
      if quantity == 0 || quantity > 125 {
        reply := BuildException(r.transaction, r.unit, READ_HOLDING_REGISTERS, ILLEGAL_DATA_VALUE);
        return;
      }
      if address + quantity > CELLS {
        reply := BuildException(r.transaction, r.unit, READ_HOLDING_REGISTERS, ILLEGAL_DATA_ADDRESS);
        return;
      }
      var read := ReadWords(address, quantity);
      reply := BuildAdu(r.transaction, r.unit, [READ_HOLDING_REGISTERS, quantity * 2] + read);
    }

    method ReadWords(address: nat, quantity: nat) returns (read: seq<byte>)
      requires state.Valid() && address + quantity <= CELLS
      ensures read == WordBytes(state.registers[address..address + quantity])
    {
      read := [];
      var i := 0;
      while i < quantity
        invariant 0 <= i <= quantity && read == WordBytes(state.registers[address..address + i])
      {
        WordBytesAppend(state.registers[address..address + i], state.registers[address + i]);
        assert state.registers[address..address + i] + [state.registers[address + i]]
            == state.registers[address..address + i + 1];
        read := read + PutBe16(state.registers[address + i]);
        i := i + 1;
      }
    }

    method HandleWriteCoil(r: Request) returns (reply: seq<byte>, sabotage: Option<int>)
      requires state.Valid() && Servable(r) && r.pdu[0] == WRITE_SINGLE_COIL
      modifies state.coils
      ensures reply == Reply(old(state.Image()), r) && sabotage == Sabotage(range, Understand(r.pdu))
      ensures state.Image() == After(old(state.Image()), Understand(r.pdu))
    {
      hide Adu;
      sabotage := None;
      if |r.pdu| != 5 {
        reply := BuildException(r.transaction, r.unit, WRITE_SINGLE_COIL, ILLEGAL_DATA_VALUE);
        return;
      }
      var address, value := Be16(r.pdu, 1), Be16(r.pdu, 3);
      if value != 0x0000 && value != 0xFF00 {
        reply := BuildException(r.transaction, r.unit, WRITE_SINGLE_COIL, ILLEGAL_DATA_VALUE);
        return;
      }
      if address >= CELLS {
        reply := BuildException(r.transaction, r.unit, WRITE_SINGLE_COIL, ILLEGAL_DATA_ADDRESS);
        return;
      }
      state.coils[address] := value == 0xFF00;
      if Critical(range, address) {
        sabotage := Some(address);
      }
      reply := BuildAdu(r.transaction, r.unit, r.pdu);
    }

    method HandleWriteRegister(r: Request) returns (reply: seq<byte>, sabotage: Option<int>)
      requires state.Valid() && Servable(r) && r.pdu[0] == WRITE_SINGLE_REGISTER
      modifies state.registers
      ensures reply == Reply(old(state.Image()), r) && sabotage == Sabotage(range, Understand(r.pdu))
      ensures state.Image() == After(old(state.Image()), Understand(r.pdu))
    {
      hide Adu;
      sabotage := None;
      if |r.pdu| != 5 {
        reply := BuildException(r.transaction, r.unit, WRITE_SINGLE_REGISTER, ILLEGAL_DATA_VALUE);
        return;
      }
      var address, value := Be16(r.pdu, 1), Be16(r.pdu, 3);
      if address >= CELLS {
        reply := BuildException(r.transaction, r.unit, WRITE_SINGLE_REGISTER, ILLEGAL_DATA_ADDRESS);
        return;
      }
      state.registers[address] := value;
      if Critical(range, address) {
        sabotage := Some(address);
      }
      reply := BuildAdu(r.transaction, r.unit, r.pdu);
    }

    method StoreWords(address: nat, payload: seq<byte>)
      requires state.Valid() && |payload| % 2 == 0 && address + |payload| / 2 <= CELLS
      modifies state.registers
      ensures state.Image() == old(state.Image()).(
        registers := old(state.registers[..])[..address] + Words(payload) + old(state.registers[..])[address + |payload| / 2..])
    {
      hide Words;
      ghost var was := state.registers[..];
      var n, i := |payload| / 2, 0;
      assert was[..address] + Words(payload)[..0] + was[address..] == was;
      while i < n
        invariant 0 <= i <= n
        invariant state.registers[..] == was[..address] + Words(payload)[..i] + was[address + i..]
      {
        StoreStep(was, Words(payload), address, i);
        state.registers[address + i] := Be16(payload, 2 * i);
        i := i + 1;
      }
      assert Words(payload)[..n] == Words(payload);
    }

    method LookForSabotage(address: nat, quantity: nat) returns (sabotage: Option<int>)
      ensures sabotage == FirstCritical(range, address, quantity)
    {
      sabotage := None;
      var i := 0;
      while i < quantity
        invariant 0 <= i <= quantity
        invariant FirstCritical(range, address, quantity) == FirstCritical(range, address + i, quantity - i)
      {
        if Critical(range, address + i) {
          return Some(address + i);
        }
        i := i + 1;
      }
    }

    method HandleWriteRegisters(r: Request) returns (reply: seq<byte>, sabotage: Option<int>)
      requires state.Valid() && Servable(r) && r.pdu[0] == WRITE_MULTIPLE_REGISTERS
      modifies state.registers
      ensures reply == Reply(old(state.Image()), r) && sabotage == Sabotage(range, Understand(r.pdu))
      ensures state.Image() == After(old(state.Image()), Understand(r.pdu))
    {
      hide Adu, Words, FirstCritical;
      var pdu := r.pdu;
      sabotage := None;
      if |pdu| < 6 {
        reply := BuildException(r.transaction, r.unit, WRITE_MULTIPLE_REGISTERS, ILLEGAL_DATA_VALUE);
        return;
      }
      var address, quantity, byteCount := Be16(pdu, 1), Be16(pdu, 3), pdu[5];
      if quantity == 0 || quantity > 123 || byteCount != (quantity * 2) % 256 || |pdu| != 6 + byteCount {
        reply := BuildException(r.transaction, r.unit, WRITE_MULTIPLE_REGISTERS, ILLEGAL_DATA_VALUE);
        return;
      }
      if address + quantity > CELLS {
        reply := BuildException(r.transaction, r.unit, WRITE_MULTIPLE_REGISTERS, ILLEGAL_DATA_ADDRESS);
        return;
      }
      StoreWords(address, pdu[6..]);
      sabotage := LookForSabotage(address, quantity);
      reply := BuildAdu(r.transaction, r.unit, [WRITE_MULTIPLE_REGISTERS] + PutBe16(address) + PutBe16(quantity));
    }

    method ProcessPdu(r: Request) returns (reply: seq<byte>, sabotage: Option<int>)
      requires state.Valid() && Servable(r)
      modifies state.coils, state.registers
      ensures reply == Reply(old(state.Image()), r) && sabotage == Sabotage(range, Understand(r.pdu))
      ensures state.Image() == After(old(state.Image()), Understand(r.pdu))
    {
      hide Adu, Reply;
      var functionCode := r.pdu[0];
      sabotage := None;
      if functionCode == READ_COILS {
        reply := HandleReadCoils(r);
      } else if functionCode == READ_HOLDING_REGISTERS {
        reply := HandleReadRegisters(r);
      } else if functionCode == WRITE_SINGLE_COIL {
        reply, sabotage := HandleWriteCoil(r);
      } else if functionCode == WRITE_SINGLE_REGISTER {
        reply, sabotage := HandleWriteRegister(r);
      } else if functionCode == WRITE_MULTIPLE_REGISTERS {
        reply, sabotage := HandleWriteRegisters(r);
      } else {
        reply := BuildException(r.transaction, r.unit, functionCode, ILLEGAL_FUNCTION);
        UnknownFunction(state.Image(), r);
      }
    }

    // Serve every complete frame already buffered.
    method DrainBuffer(start: seq<byte>)
      returns (frames: seq<Request>, replies: seq<seq<byte>>, rest: seq<byte>, fault: Option<Fault>)
      requires state.Valid()
      modifies state.coils, state.registers
      ensures Drained(frames, rest, fault) == Drain(start)
      ensures replies == Replies(old(state.Image()), frames)
      ensures state.Image() == BankAfter(old(state.Image()), frames)
    {
      hide Reply, After, Drain, Look;
      frames, replies, rest, fault := [], [], start, None;
      while true
        invariant fault.None? && AllServable(frames)
        invariant Drain(start) == Drained(frames + Drain(rest).frames, Drain(rest).rest, Drain(rest).fault)
        invariant replies == Replies(old(state.Image()), frames)
        invariant state.Image() == BankAfter(old(state.Image()), frames)
        decreases |rest|
      {
        DrainStep(rest);
        var h := Look(rest);
        if h.Incomplete? {
          break;
        }
        if h.Faulty? {
          fault := Some(h.fault);
          break;
        }
        var buffer := rest[h.size..];
        var reply, _ := ProcessPdu(h.request);
        assert (frames + [h.request])[..|frames|] == frames;
        assert frames + Drain(rest).frames == frames + [h.request] + Drain(buffer).frames;
        frames, replies, rest := frames + [h.request], replies + [reply], buffer;
      }
      assert frames + [] == frames;
    }

    // A connection, from the chunks its peer sends until it closes.
    method HandleClient(chunks: seq<seq<byte>>)
      returns (frames: seq<Request>, replies: seq<seq<byte>>, rest: seq<byte>, end: End)
      requires state.Valid()
      modifies state.coils, state.registers
      ensures Outcome(frames, rest, end) == Native([], chunks)
      ensures AllServable(frames) && replies == Replies(old(state.Image()), frames)
      ensures state.Image() == BankAfter(old(state.Image()), frames)
    {
      hide Drain, Replies, BankAfter;
      frames, replies, rest, end := [], [], [], Open;
      ghost var first := state.Image();
      NothingServed(first);
      var i := 0;
      while true
        invariant 0 <= i <= |chunks| && end == Open && AllServable(frames)
        invariant Native([], chunks) == Native(rest, chunks[i..]).(frames := frames + Native(rest, chunks[i..]).frames)
        invariant replies == Replies(first, frames) && state.Image() == BankAfter(first, frames)
        decreases |chunks| - i
      {
        ghost var before, served := state.Image(), frames;
        ghost var o := Native(rest, chunks[i..]);
        var more, answers, left, fault := DrainBuffer(rest);
        ServedInTurn(first, served, more);
        frames, replies, rest := frames + more, replies + answers, left;
        if fault.Some? {
          end := Malformed(fault.value);
          return;
        }
        if |rest| > MAX_BUFFER {
          end := Overflow;
          return;
        }
        if i == |chunks| || chunks[i] == [] {
          return;
        }
        assert chunks[i..][1..] == chunks[i + 1..];
        assert served + o.frames == frames + Native(rest + chunks[i], chunks[i + 1..]).frames;
        rest := rest + chunks[i];
        i := i + 1;
      }
    }
  }

  lemma StoreStep(was: seq<word>, ws: seq<word>, address: nat, i: nat)
    requires i < |ws| && address + |ws| <= |was|
    ensures (was[..address] + ws[..i] + was[address + i..])[address + i := ws[i]]
         == was[..address] + ws[..i + 1] + was[address + i + 1..]
  {
  }

  lemma UnknownFunction(b: Bank, r: Request)
    requires WellSized(b) && Servable(r) && Understand(r.pdu) == Refused(ILLEGAL_FUNCTION)
    ensures Reply(b, r) == Adu(r.transaction, r.unit, [ExceptionCode(r.pdu[0]), ILLEGAL_FUNCTION])
    ensures After(b, Understand(r.pdu)) == b
  {
  }

  lemma NothingPacked(bits: seq<bool>, count: nat)
    ensures forall k :: 0 <= k < count ==> Partly(bits, 0, k) == 0
  {
  }

  lemma AllPacked(bits: seq<bool>, k: nat)
    requires k < (|bits| + 7) / 8
    ensures Partly(bits, |bits|, k) == Pack(bits)[k]
  {
    assert bits[..|bits|] == bits;
    PackSlice(bits, k);
  }

  lemma NothingServed(b: Bank)
    requires WellSized(b)
    ensures BankAfter(b, []) == b && Replies(b, []) == []
  {
  }

  // Serving two batches one after the other is serving both as one.
  lemma {:induction false} ServedInTurn(b: Bank, rs: seq<Request>, more: seq<Request>)
    requires WellSized(b) && AllServable(rs) && AllServable(more)
    ensures AllServable(rs + more)
    ensures BankAfter(b, rs + more) == BankAfter(BankAfter(b, rs), more)
    ensures Replies(b, rs + more) == Replies(b, rs) + Replies(BankAfter(b, rs), more)
    decreases |more|
  {
    hide After, Reply;
    if more == [] {
      assert rs + more == rs;
    } else {
      ServedInTurn(b, rs, more[..|more| - 1]);
      assert (rs + more)[..|rs + more| - 1] == rs + more[..|more| - 1];
    }
  }
}
