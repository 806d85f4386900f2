/** The server as its peers see it, in the bytes on the wire: which buffers hold a frame,
    which requests are refused and how, and that every cell reads as it was last written. */
module ModbusWire {
  import opened Json
  import opened Utf8
  import opened Modbus
  import opened ModbusTheorems

  // ---- frames -----------------------------------------------------------------------------

  function AduOf(r: Request): seq<byte>
    requires Servable(r)
  {
    Adu(r.transaction, r.unit, r.pdu)
  }

  ghost predicate Starts(r: Request, b: seq<byte>) {
    Servable(r) && AduOf(r) <= b
  }

  // What the reader takes for a frame is exactly the bytes of one.
  lemma FrameIsAdu(b: seq<byte>, r: Request, size: nat)
    ensures Look(b) == Frame(r, size) <==> Starts(r, b) && size == |AduOf(r)|
  {
    if Look(b) == Frame(r, size) {
      var adu := AduOf(r);
      assert Be16(b, 4) == |r.pdu| + 1;
      forall i | 0 <= i < |adu| ensures adu[i] == b[i] {
        FrameByte(b, i);
      }
      assert b[..|adu|] == adu;
    }
    if Starts(r, b) {
      var adu := AduOf(r);
      assert b == adu + b[|adu|..];
      AduReadsBack(r.transaction, r.unit, r.pdu, b[|adu|..]);
    }
  }

  lemma FrameByte(b: seq<byte>, i: nat)
    requires Look(b).Frame? && i < |AduOf(Look(b).request)|
    ensures i < |b| && AduOf(Look(b).request)[i] == b[i]
  {
    var r := Look(b).request;
    assert Be16(b, 2) == 0 ==> b[2] == 0 && b[3] == 0;
    if i >= MBAP_HEADER_LEN {
      assert AduOf(r)[i] == r.pdu[i - MBAP_HEADER_LEN];
    }
  }

  // With the seven bytes of a header there, a buffer is given up exactly when nothing
  // that may follow can make it start with a frame.
  lemma FaultIsFinal(b: seq<byte>)
    ensures Look(b).Faulty? <==> |b| >= MBAP_HEADER_LEN && forall more, r :: !Starts(r, b + more)
    ensures Look(b).Faulty? ==> (Look(b).fault == BadProtocol <==> Be16(b, 2) != 0)
  {
    hide Starts, AduOf;
    if Look(b).Faulty? {
      forall more, r ensures !Starts(r, b + more) {
        LookAhead(b, more);
        NoFrame(b + more, r);
      }
    } else if |b| >= MBAP_HEADER_LEN {
      var r, more := Completed(b);
      assert Starts(r, b + more);
    }
  }

  lemma NoFrame(b: seq<byte>, r: Request)
    requires !Look(b).Frame?
    ensures !Starts(r, b)
  {
    hide AduOf;
    if Servable(r) {
      FrameIsAdu(b, r, |AduOf(r)|);
    }
  }

  // Bytes that make a frame of a buffer whose header is sound.
  lemma Completed(b: seq<byte>) returns (r: Request, more: seq<byte>)
    requires |b| >= MBAP_HEADER_LEN && !Look(b).Faulty?
    ensures Starts(r, b + more)
  {
    hide Starts;
    var size := MBAP_HEADER_LEN - 1 + Be16(b, 4);
    more := if |b| < size then seq(size - |b|, i => 0) else [];
    var all := b + more;
    assert Be16(all, 0) == Be16(b, 0) && Be16(all, 2) == Be16(b, 2) && Be16(all, 4) == Be16(b, 4);
    assert Look(all).Frame?;
    r := Look(all).request;
    FrameIsAdu(all, r, Look(all).size);
  }

  // ---- refusals ------------------------------------------------------------------------------

  predicate Known(code: byte) {
    code == 1 || code == 3 || code == 5 || code == 6 || code == 16
  }

  // Two bytes, the high one first.
  function Pair(high: int, low: int): int {
    high * 256 + low
  }

  // The address and the second field of a request that is long enough.
  function AddressOf(pdu: seq<byte>): int
    requires |pdu| >= 5
  {
    Pair(pdu[1], pdu[2])
  }

  function OperandOf(pdu: seq<byte>): int
    requires |pdu| >= 5
  {
    Pair(pdu[3], pdu[4])
  }

  // Length and second field are what the function asks for.
  predicate WellFormed(pdu: seq<byte>)
    requires pdu != []
  {
    if pdu[0] == 1 then |pdu| == 5 && 1 <= OperandOf(pdu) <= 2000
    else if pdu[0] == 3 then |pdu| == 5 && 1 <= OperandOf(pdu) <= 125
    else if pdu[0] == 5 then |pdu| == 5 && (pdu[3..] == [0xFF, 0x00] || pdu[3..] == [0x00, 0x00])
    else if pdu[0] == 6 then |pdu| == 5
    else |pdu| >= 6 && 1 <= OperandOf(pdu) <= 123 && pdu[5] == 2 * OperandOf(pdu) && |pdu| == 6 + 2 * OperandOf(pdu)
  }

  // The cells it speaks of.
  function Count(pdu: seq<byte>): int
    requires |pdu| >= 5
  {
    if pdu[0] == 5 || pdu[0] == 6 then 1 else OperandOf(pdu)
  }

  predicate Legal(pdu: seq<byte>)
    requires pdu != []
  {
    Known(pdu[0]) && WellFormed(pdu) && AddressOf(pdu) + Count(pdu) <= 256
  }

  function CodeWithFlag(code: byte): byte {
    if code >= 0x80 then code else code + 0x80
  }

  // The exception every illegal request gets, unknown functions first, then wrong
  // values, then wrong addresses; and every legal one is answered under its own code.
  lemma Refusals(b: Bank, pdu: seq<byte>)
    requires WellSized(b) && 1 <= |pdu| <= MAX_PDU_LEN
    ensures !Legal(pdu) ==>
      && Answer(b, pdu) == [CodeWithFlag(pdu[0]), if !Known(pdu[0]) then 1 else if !WellFormed(pdu) then 3 else 2]
      && After(b, Understand(pdu)) == b
    ensures Legal(pdu) ==> !Understand(pdu).Refused? && Answer(b, pdu)[0] == pdu[0]
  {
    hide Pack, WordBytes, Words;
    CommandOf(pdu);
  }

  lemma CommandOf(pdu: seq<byte>)
    requires pdu != []
    ensures !Legal(pdu) ==> Understand(pdu) == Refused(if !Known(pdu[0]) then 1 else if !WellFormed(pdu) then 3 else 2)
    ensures Legal(pdu) ==>
      var a, n, c := AddressOf(pdu), OperandOf(pdu), Understand(pdu);
      && (pdu[0] == 1 ==> c == ReadCoils(a, n))
      && (pdu[0] == 3 ==> c == ReadRegisters(a, n))
      && (pdu[0] == 5 ==> c == WriteCoil(a, pdu[3] == 0xFF))
      && (pdu[0] == 6 ==> c == WriteRegister(a, n))
      && (pdu[0] == 16 ==>
            c.WriteRegisters? && c.address == a && |c.values| == n
            && forall i :: 0 <= i < n ==> c.values[i] == Pair(pdu[6 + 2 * i], pdu[7 + 2 * i]))
  {
    hide Understand, Legal;
    if pdu[0] == 1 || pdu[0] == 3 {
      ReadOf(pdu);
    } else if pdu[0] == 5 || pdu[0] == 6 {
      WriteOf(pdu);
    } else if pdu[0] == 16 {
      ManyOf(pdu);
    } else {
      NoneOf(pdu);
    }
  }

  lemma NoneOf(pdu: seq<byte>)
    requires pdu != [] && !Known(pdu[0])
    ensures !Legal(pdu) && Understand(pdu) == Refused(1)
  {
  }

  lemma ReadOf(pdu: seq<byte>)
    requires pdu != [] && (pdu[0] == 1 || pdu[0] == 3)
    ensures !Legal(pdu) ==> Understand(pdu) == Refused(if !WellFormed(pdu) then 3 else 2)
    ensures Legal(pdu) ==>
      var a, n := AddressOf(pdu), OperandOf(pdu);
      Understand(pdu) == if pdu[0] == 1 then ReadCoils(a, n) else ReadRegisters(a, n)
  {
  }

  lemma WriteOf(pdu: seq<byte>)
    requires pdu != [] && (pdu[0] == 5 || pdu[0] == 6)
    ensures !Legal(pdu) ==> Understand(pdu) == Refused(if !WellFormed(pdu) then 3 else 2)
    ensures Legal(pdu) && pdu[0] == 5 ==> Understand(pdu) == WriteCoil(AddressOf(pdu), pdu[3] == 0xFF)
    ensures Legal(pdu) && pdu[0] == 6 ==> Understand(pdu) == WriteRegister(AddressOf(pdu), OperandOf(pdu))
  {
    if |pdu| == 5 {
      assert pdu[3..] == [pdu[3], pdu[4]];
    }
  }

  lemma ManyOf(pdu: seq<byte>)
    requires pdu != [] && pdu[0] == 16
    ensures !Legal(pdu) ==> Understand(pdu) == Refused(if !WellFormed(pdu) then 3 else 2)
    ensures Legal(pdu) ==>
      var c := Understand(pdu);
      && c.WriteRegisters? && c.address == AddressOf(pdu) && |c.values| == OperandOf(pdu)
      && forall i :: 0 <= i < |c.values| ==> c.values[i] == Pair(pdu[6 + 2 * i], pdu[7 + 2 * i])
  {
    if Legal(pdu) {
      var data := pdu[6..];
      forall i | 0 <= i < OperandOf(pdu) ensures Be16(data, 2 * i) == Pair(pdu[6 + 2 * i], pdu[7 + 2 * i]) {
        assert data[2 * i] == pdu[6 + 2 * i] && data[2 * i + 1] == pdu[7 + 2 * i];
      }
    }
  }

  // ---- reads -------------------------------------------------------------------------------------

  // A read of coils: their count in bytes, then one bit a coil, the lowest first, and
  // zeros to fill the last byte; nothing changes.
  lemma ReadsCoils(b: Bank, pdu: seq<byte>, i: nat)
    requires WellSized(b) && 1 <= |pdu| <= MAX_PDU_LEN && pdu[0] == 1 && Legal(pdu)
    ensures var a, n, answer := AddressOf(pdu), OperandOf(pdu), Answer(b, pdu);
      && answer[0] == 1 && answer[1] == (n + 7) / 8 && |answer| == 2 + answer[1]
      && (i < 8 * ((n + 7) / 8) ==> (BitOf(answer[2 + i / 8], i % 8) <==> i < n && b.coils[a + i]))
      && After(b, Understand(pdu)) == b
  {
    hide Understand, Pack, BitOf, Legal;
    LongEnough(pdu);
    CommandOf(pdu);
    var a, n := AddressOf(pdu), OperandOf(pdu);
    var bits := b.coils[a..a + n];
    if i < 8 * ((n + 7) / 8) {
      PackedAt(bits, i);
      assert Answer(b, pdu)[2 + i / 8] == Pack(bits)[i / 8];
    }
  }

  // A read of registers: their count in bytes, then two bytes each, the high one first.
  lemma ReadsRegisters(b: Bank, pdu: seq<byte>, i: nat)
    requires WellSized(b) && 1 <= |pdu| <= MAX_PDU_LEN && pdu[0] == 3 && Legal(pdu) && i < OperandOf(pdu)
    ensures var a, n, answer := AddressOf(pdu), OperandOf(pdu), Answer(b, pdu);
      && answer[0] == 3 && answer[1] == 2 * n && |answer| == 2 + 2 * n
      && Pair(answer[2 + 2 * i], answer[3 + 2 * i]) == b.registers[a + i]
      && After(b, Understand(pdu)) == b
  {
    hide Understand, WordBytes, Legal;
    LongEnough(pdu);
    CommandOf(pdu);
    var a, n := AddressOf(pdu), OperandOf(pdu);
    var ws := b.registers[a..a + n];
    WordBytesAt(ws, i);
    assert Answer(b, pdu)[2 + 2 * i] == WordBytes(ws)[2 * i] && Answer(b, pdu)[3 + 2 * i] == WordBytes(ws)[2 * i + 1];
  }

  // ---- writes ----------------------------------------------------------------------------------------

  predicate SetsCoil(pdu: seq<byte>, k: nat)
    requires pdu != []
  {
    pdu[0] == 5 && Legal(pdu) && AddressOf(pdu) == k
  }

  predicate SetsRegister(pdu: seq<byte>, k: nat)
    requires pdu != []
  {
    (pdu[0] == 6 || pdu[0] == 16) && Legal(pdu) && AddressOf(pdu) <= k < AddressOf(pdu) + Count(pdu)
  }

  // The word a write carries for register `k`.
  function WordFor(pdu: seq<byte>, k: nat): int
    requires pdu != [] && SetsRegister(pdu, k)
  {
    var at := if pdu[0] == 6 then 3 else 6 + 2 * (k - AddressOf(pdu));
    Pair(pdu[at], pdu[at + 1])
  }

  // What one request does to every cell; a legal write answers with its first five
  // bytes, which for the single writes is the whole request.
  lemma CellsAfter(b: Bank, pdu: seq<byte>, k: nat)
    requires WellSized(b) && 1 <= |pdu| <= MAX_PDU_LEN && k < CELLS
    ensures var after := After(b, Understand(pdu));
      && after.coils[k] == (if SetsCoil(pdu, k) then pdu[3] == 0xFF else b.coils[k])
      && after.registers[k] == (if SetsRegister(pdu, k) then WordFor(pdu, k) else b.registers[k])
    ensures Legal(pdu) && (pdu[0] == 5 || pdu[0] == 6 || pdu[0] == 16) ==> Answer(b, pdu) == pdu[..5]
  {
    hide Understand, Legal, After, Answer, SetsCoil, SetsRegister, WordFor;
    LongEnough(pdu);
    if !Legal(pdu) {
      Untouched(b, pdu, k);
    } else if pdu[0] == 1 || pdu[0] == 3 {
      ReadOnly(b, pdu, k);
    } else if pdu[0] == 16 {
      ManyAfter(b, pdu, k);
    } else {
      OneAfter(b, pdu, k);
    }
  }

  lemma Untouched(b: Bank, pdu: seq<byte>, k: nat)
    requires WellSized(b) && 1 <= |pdu| <= MAX_PDU_LEN && !Legal(pdu)
    ensures After(b, Understand(pdu)) == b && !SetsCoil(pdu, k) && !SetsRegister(pdu, k)
  {
    hide Understand, Legal;
    CommandOf(pdu);
  }

  lemma ReadOnly(b: Bank, pdu: seq<byte>, k: nat)
    requires WellSized(b) && 1 <= |pdu| <= MAX_PDU_LEN && Legal(pdu) && (pdu[0] == 1 || pdu[0] == 3)
    ensures After(b, Understand(pdu)) == b && !SetsCoil(pdu, k) && !SetsRegister(pdu, k)
  {
    hide Understand, Legal;
    LongEnough(pdu);
    CommandOf(pdu);
  }

  lemma OneAfter(b: Bank, pdu: seq<byte>, k: nat)
    requires WellSized(b) && 1 <= |pdu| <= MAX_PDU_LEN && Legal(pdu) && (pdu[0] == 5 || pdu[0] == 6) && k < CELLS
    ensures var after := After(b, Understand(pdu));
      && after.coils[k] == (if SetsCoil(pdu, k) then pdu[3] == 0xFF else b.coils[k])
      && after.registers[k] == (if SetsRegister(pdu, k) then WordFor(pdu, k) else b.registers[k])
      && Answer(b, pdu) == pdu[..5]
  {
    hide Understand, Legal;
    LongEnough(pdu);
    CommandOf(pdu);
    assert pdu[..5] == pdu;
  }

  lemma ManyAfter(b: Bank, pdu: seq<byte>, k: nat)
    requires WellSized(b) && 1 <= |pdu| <= MAX_PDU_LEN && Legal(pdu) && pdu[0] == 16 && k < CELLS
    ensures var after := After(b, Understand(pdu));
      && after.coils == b.coils && !SetsCoil(pdu, k)
      && after.registers[k] == (if SetsRegister(pdu, k) then WordFor(pdu, k) else b.registers[k])
      && Answer(b, pdu) == pdu[..5]
  {
    hide Understand, Legal;
    LongEnough(pdu);
    CommandOf(pdu);
    var c := Understand(pdu);
    assert PutBe16(c.address) == pdu[1..3] && PutBe16(|c.values|) == pdu[3..5];
    if c.address <= k < c.address + |c.values| {
      assert After(b, c).registers[k] == c.values[k - c.address];
    }
  }

  lemma LongEnough(pdu: seq<byte>)
    requires pdu != []
    ensures Legal(pdu) ==> |pdu| >= 5 && (pdu[0] != 16 ==> |pdu| == 5)
    ensures Legal(pdu) && pdu[0] == 16 ==> |pdu| == 6 + 2 * OperandOf(pdu)
    ensures Legal(pdu) ==> Known(pdu[0])
    ensures Legal(pdu) ==> pdu[0] == 1 || pdu[0] == 3 || pdu[0] == 5 || pdu[0] == 6 || pdu[0] == 16
  {
  }

  // ---- whole conversations --------------------------------------------------------------------------

  // What the last of these requests to write coil `k` said, or how it was before.
  function LastCoil(b: Bank, rs: seq<Request>, k: nat): bool
    requires WellSized(b) && AllServable(rs) && k < CELLS
  {
    if rs == [] then b.coils[k]
    else
      var front, r := rs[..|rs| - 1], rs[|rs| - 1];
      assert Servable(r);
      if SetsCoil(r.pdu, k) then r.pdu[3] == 0xFF else LastCoil(b, front, k)
  }

  function LastWord(b: Bank, rs: seq<Request>, k: nat): int
    requires WellSized(b) && AllServable(rs) && k < CELLS
  {
    if rs == [] then b.registers[k]
    else
      var front, r := rs[..|rs| - 1], rs[|rs| - 1];
      assert Servable(r);
      if SetsRegister(r.pdu, k) then WordFor(r.pdu, k) else LastWord(b, front, k)
  }

  // Every cell is as the last legal write to it said, through any requests whatever.
  lemma {:induction false} LastWriteStays(b: Bank, rs: seq<Request>, k: nat)
    requires WellSized(b) && AllServable(rs) && k < CELLS
    ensures BankAfter(b, rs).coils[k] == LastCoil(b, rs, k) && BankAfter(b, rs).registers[k] == LastWord(b, rs, k)
  {
    hide After, Understand, SetsCoil, SetsRegister, WordFor;
    if rs != [] {
      var front, r := rs[..|rs| - 1], rs[|rs| - 1];
      assert Servable(r);
      LastWriteStays(b, front, k);
      CellsAfter(BankAfter(b, front), r.pdu, k);
    }
  }

  // So a coil switched on or off reads so, and no other coil is changed.
  lemma SwitchThenRead(b: Bank, address: word, on: bool)
    requires WellSized(b) && address < CELLS
    ensures var write := [5 as byte] + PutBe16(address) + (if on then [0xFF as byte, 0] else [0 as byte, 0]);
      var read := [1 as byte] + PutBe16(address) + [0 as byte, 1];
      var after := After(b, Understand(write));
      && Answer(b, write) == write && Answer(after, read) == [1, 1, if on then 1 else 0]
      && forall k :: 0 <= k < CELLS && k != address ==> after.coils[k] == b.coils[k]
  {
    hide After, Answer, Understand;
    var write := [5 as byte] + PutBe16(address) + (if on then [0xFF as byte, 0] else [0 as byte, 0]);
    var read := [1 as byte] + PutBe16(address) + [0 as byte, 1];
    assert AddressOf(write) == address && AddressOf(read) == address && OperandOf(read) == 1;
    assert write[3..] == if on then [0xFF, 0] else [0, 0];
    var after := After(b, Understand(write));
    assert write[..5] == write;
    forall k | 0 <= k < CELLS ensures after.coils[k] == (if k == address then on else b.coils[k]) {
      CellsAfter(b, write, k);
    }
    CellsAfter(b, write, address);
    var answer := Answer(after, read);
    ReadsCoils(after, read, 0);
    forall i | 0 <= i < 8 ensures BitOf(answer[2], i) <==> i == 0 && on {
      ReadsCoils(after, read, i);
    }
    OneBit(answer[2], on);
  }

  // A byte is its eight bits.
  lemma OneBit(v: byte, on: bool)
    requires forall i: nat :: i < 8 ==> (BitOf(v, i) <==> i == 0 && on)
    ensures v == if on then 1 else 0
  {
    assert Power2(1) == 2 && Power2(2) == 4 && Power2(3) == 8 && Power2(4) == 16;
    assert Power2(5) == 32 && Power2(6) == 64 && Power2(7) == 128;
    assert BitOf(v, 0) == on && !BitOf(v, 1) && !BitOf(v, 2) && !BitOf(v, 3);
    assert !BitOf(v, 4) && !BitOf(v, 5) && !BitOf(v, 6) && !BitOf(v, 7);
  }
}
