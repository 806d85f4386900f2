/** The Python twin of the Modbus server, with registers only and its overflow test
    before the drain. */
module ModbusTwin {
  import opened Json
  import opened Utf8
  import opened Modbus
  import opened ModbusTheorems

  predicate Full(registers: seq<word>) {
    |registers| == CELLS
  }

  function RegistersAfter(registers: seq<word>, rs: seq<Request>): (r: seq<word>)
    requires Full(registers) && AllServable(rs)
    ensures Full(r)
  {
    if rs == [] then registers
    else
      assert Servable(rs[|rs| - 1]);
      PythonAfter(RegistersAfter(registers, rs[..|rs| - 1]), rs[|rs| - 1].pdu)
  }

  function Answered(registers: seq<word>, r: Request): seq<byte>
    requires Full(registers) && Servable(r)
  {
    AnswerFits(registers, r.pdu);
    Adu(r.transaction, r.unit, PythonAnswer(registers, r.pdu))
  }

  lemma AnswerFits(registers: seq<word>, pdu: seq<byte>)
    requires Full(registers) && 1 <= |pdu| <= MAX_PDU_LEN
    ensures 2 <= |PythonAnswer(registers, pdu)| <= MAX_PDU_LEN
  {
  }

  function AllAnswered(registers: seq<word>, rs: seq<Request>): seq<seq<byte>>
    requires Full(registers) && AllServable(rs)
  {
    if rs == [] then []
    else
      assert Servable(rs[|rs| - 1]);
      AllAnswered(registers, rs[..|rs| - 1]) + [Answered(RegistersAfter(registers, rs[..|rs| - 1]), rs[|rs| - 1])]
  }

  class RegisterBank {
    const registers: array<word>

    constructor ()
      ensures Valid() && fresh(registers) && registers[..] == seq(CELLS, i => 0)
    {
      registers := new word[CELLS](i => 0);
    }

    ghost predicate Valid() {
      registers.Length == CELLS
    }

    method Read(address: nat, quantity: nat) returns (values: seq<word>)
      requires Valid() && address + quantity <= CELLS
      ensures values == registers[address..address + quantity]
    {
      values := registers[address..address + quantity];
    }

    // `value & 0xFFFF`
    method Write(address: nat, value: nat)
      requires Valid() && address < CELLS
      modifies registers
      ensures registers[..] == old(registers[..])[address := value % 0x1_0000]
    {
      registers[address] := value % 0x1_0000;
    }
  }

  class Server {
    const bank: RegisterBank

    constructor (bank: RegisterBank)
      ensures this.bank == bank
    {
      this.bank := bank;
    }

    method ReadHoldingRegisters(r: Request) returns (answer: seq<byte>)
      requires bank.Valid() && Servable(r) && r.pdu[0] == READ_HOLDING_REGISTERS
      ensures answer == PythonAnswer(bank.registers[..], r.pdu)
    {
      if |r.pdu| != 5 {
        return [ExceptionCode(READ_HOLDING_REGISTERS), ILLEGAL_DATA_VALUE];
      }
      var address, quantity := Be16(r.pdu, 1), Be16(r.pdu, 3);
      if quantity == 0 || quantity > 125 {
        return [ExceptionCode(READ_HOLDING_REGISTERS), ILLEGAL_DATA_VALUE];
      }
      if address + quantity > CELLS {
        return [ExceptionCode(READ_HOLDING_REGISTERS), ILLEGAL_DATA_ADDRESS];
      }
      var values := bank.Read(address, quantity);
      answer := [READ_HOLDING_REGISTERS, |WordBytes(values)|] + WordBytes(values);
    }

    method WriteSingleRegister(r: Request) returns (answer: seq<byte>)
      requires bank.Valid() && Servable(r) && r.pdu[0] == WRITE_SINGLE_REGISTER
      modifies bank.registers
      ensures answer == PythonAnswer(old(bank.registers[..]), r.pdu)
      ensures bank.registers[..] == PythonAfter(old(bank.registers[..]), r.pdu)
    {
      if |r.pdu| != 5 {
        return [ExceptionCode(WRITE_SINGLE_REGISTER), ILLEGAL_DATA_VALUE];
      }
      var address, value := Be16(r.pdu, 1), Be16(r.pdu, 3);
      if address >= CELLS {
        return [ExceptionCode(WRITE_SINGLE_REGISTER), ILLEGAL_DATA_ADDRESS];
      }
      bank.Write(address, value);
      answer := r.pdu;
    }

    method Dispatch(r: Request) returns (reply: seq<byte>)
      requires bank.Valid() && Servable(r)
      modifies bank.registers
      ensures reply == Answered(old(bank.registers[..]), r)
      ensures bank.registers[..] == PythonAfter(old(bank.registers[..]), r.pdu)
    {
      hide Adu;
      AnswerFits(bank.registers[..], r.pdu);
      var functionCode := r.pdu[0];
      var answer := [ExceptionCode(functionCode), ILLEGAL_FUNCTION];
      if functionCode == READ_HOLDING_REGISTERS {
        answer := ReadHoldingRegisters(r);
      } else if functionCode == WRITE_SINGLE_REGISTER {
        answer := WriteSingleRegister(r);
      }
      reply := Adu(r.transaction, r.unit, answer);
    }

    method DrainBuffer(start: seq<byte>)
      returns (frames: seq<Request>, replies: seq<seq<byte>>, rest: seq<byte>, fault: Option<Fault>)
      requires bank.Valid()
      modifies bank.registers
      ensures Drained(frames, rest, fault) == Drain(start)
      ensures replies == AllAnswered(old(bank.registers[..]), frames)
      ensures bank.registers[..] == RegistersAfter(old(bank.registers[..]), frames)
    {
      hide Answered, PythonAfter, Drain, Look, AllAnswered, RegistersAfter;
      NothingServed(bank.registers[..]);
      frames, replies, rest, fault := [], [], start, None;
      while true
        invariant fault.None? && AllServable(frames)
        invariant Drain(start) == Drained(frames + Drain(rest).frames, Drain(rest).rest, Drain(rest).fault)
        invariant replies == AllAnswered(old(bank.registers[..]), frames)
        invariant bank.registers[..] == RegistersAfter(old(bank.registers[..]), frames)
        decreases |rest|
      {
        DrainStep(rest);
        var h := Look(rest);
        if h.Incomplete? {
          break;
        }
        if h.Faulty? {
          fault := Some(h.fault);
          break;
        }
        var buffer := rest[h.size..];
        var reply := Dispatch(h.request);
        OneMore(old(bank.registers[..]), frames, h.request);
        assert frames + Drain(rest).frames == frames + [h.request] + Drain(buffer).frames;
        frames, replies, rest := frames + [h.request], replies + [reply], buffer;
      }
      assert frames + [] == frames;
    }

    // A connection: a malformed frame or too much unread input ends it.
    method Handle(chunks: seq<seq<byte>>)
      returns (frames: seq<Request>, replies: seq<seq<byte>>, buffer: seq<byte>, end: End)
      requires bank.Valid()
      modifies bank.registers
      ensures Outcome(frames, buffer, end) == Python([], chunks)
      ensures AllServable(frames) && replies == AllAnswered(old(bank.registers[..]), frames)
      ensures bank.registers[..] == RegistersAfter(old(bank.registers[..]), frames)
    {
      hide Drain, AllAnswered, RegistersAfter, Python;
      frames, replies, buffer, end := [], [], [], Open;
      ghost var first := bank.registers[..];
      NothingServed(first);
      var i := 0;
      assert chunks[0..] == chunks;
      while i < |chunks| && chunks[i] != []
        invariant 0 <= i <= |chunks| && end == Open && AllServable(frames)
        invariant Python([], chunks) == Python(buffer, chunks[i..]).(frames := frames + Python(buffer, chunks[i..]).frames)
        invariant replies == AllAnswered(first, frames) && bank.registers[..] == RegistersAfter(first, frames)
      {
        ghost var served, o := frames, Python(buffer, chunks[i..]);
        PythonStep(buffer, chunks, i);
        buffer := buffer + chunks[i];
        if |buffer| > MAX_BUFFER {
          end := Overflow;
          assert frames + [] == frames;
          return;
        }
        var more, answers, left, fault := DrainBuffer(buffer);
        ServedInTurn(first, served, more);
        frames, replies := frames + more, replies + answers;
        if fault.Some? {
          buffer := [];
          end := Malformed(fault.value);
          return;
        }
        assert served + o.frames == frames + Python(left, chunks[i + 1..]).frames;
        buffer := left;
        i := i + 1;
      }
      PythonStops(buffer, chunks, i);
      assert frames + [] == frames;
    }
  }

  lemma PythonStep(buffer: seq<byte>, chunks: seq<seq<byte>>, i: nat)
    requires i < |chunks| && chunks[i] != []
    ensures var o := Python(buffer, chunks[i..]);
      var d := Drain(buffer + chunks[i]);
      && (|buffer + chunks[i]| > MAX_BUFFER ==> o == Outcome([], buffer + chunks[i], Overflow))
      && (|buffer + chunks[i]| <= MAX_BUFFER && d.fault.Some? ==> o == Outcome(d.frames, [], Malformed(d.fault.value)))
      && (|buffer + chunks[i]| <= MAX_BUFFER && d.fault.None? ==>
            var more := Python(d.rest, chunks[i + 1..]); o == more.(frames := d.frames + more.frames))
  {
    hide Drain;
    assert chunks[i..][0] == chunks[i] && chunks[i..][1..] == chunks[i + 1..];
  }

  lemma PythonStops(buffer: seq<byte>, chunks: seq<seq<byte>>, i: nat)
    requires i == |chunks| || (i < |chunks| && chunks[i] == [])
    ensures Python(buffer, chunks[i..]) == Outcome([], buffer, Open)
  {
    hide Drain;
    assert i < |chunks| ==> chunks[i..][0] == chunks[i];
  }

  lemma NothingServed(registers: seq<word>)
    requires Full(registers)
    ensures RegistersAfter(registers, []) == registers && AllAnswered(registers, []) == []
  {
  }

  lemma OneMore(registers: seq<word>, rs: seq<Request>, r: Request)
    requires Full(registers) && AllServable(rs) && Servable(r)
    ensures AllServable(rs + [r])
    ensures RegistersAfter(registers, rs + [r]) == PythonAfter(RegistersAfter(registers, rs), r.pdu)
    ensures AllAnswered(registers, rs + [r]) == AllAnswered(registers, rs) + [Answered(RegistersAfter(registers, rs), r)]
  {
    hide Answered, PythonAfter;
    assert (rs + [r])[..|rs|] == rs;
  }

  lemma {:induction false} ServedInTurn(registers: seq<word>, rs: seq<Request>, more: seq<Request>)
    requires Full(registers) && AllServable(rs) && AllServable(more)
    ensures AllServable(rs + more)
    ensures RegistersAfter(registers, rs + more) == RegistersAfter(RegistersAfter(registers, rs), more)
    ensures AllAnswered(registers, rs + more) == AllAnswered(registers, rs) + AllAnswered(RegistersAfter(registers, rs), more)
    decreases |more|
  {
    hide PythonAfter, Answered;
    if more == [] {
      assert rs + more == rs;
    } else {
      ServedInTurn(registers, rs, more[..|more| - 1]);
      assert (rs + more)[..|rs + more| - 1] == rs + more[..|more| - 1];
    }
  }
}
