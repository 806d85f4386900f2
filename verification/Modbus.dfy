/** Modbus/TCP framing and the register machine behind it: what a byte stream holds,
    what one request asks for, what it does to the registers and what is answered.
    Frames follow section 3.1.3 of the MODBUS Messaging on TCP/IP Implementation
    Guide V1.0b, requests sections 6.1, 6.3, 6.5, 6.6, 6.12 and 7 of the MODBUS
    Application Protocol V1.1b3. */
module Modbus {
  import opened Json
  import opened Utf8

  type word = x: int | 0 <= x < 0x1_0000

  const MBAP_HEADER_LEN := 7
  const MAX_PDU_LEN := 253
  const MAX_ADU_LEN := 260
  const MIN_MBAP_LENGTH := 2
  const MAX_MBAP_LENGTH := 254
  const MAX_BUFFER := 1040

  const READ_COILS: byte := 0x01
  const READ_HOLDING_REGISTERS: byte := 0x03
  const WRITE_SINGLE_COIL: byte := 0x05
  const WRITE_SINGLE_REGISTER: byte := 0x06
  const WRITE_MULTIPLE_REGISTERS: byte := 0x10

  const ILLEGAL_FUNCTION: byte := 1
  const ILLEGAL_DATA_ADDRESS: byte := 2
  const ILLEGAL_DATA_VALUE: byte := 3

  const CELLS := 256   // coils, and registers

  // ---- framing ----------------------------------------------------------------------

  function Be16(b: seq<byte>, i: nat): word
    requires i + 2 <= |b|
  {
    b[i] as int * 256 + b[i + 1]
  }

  function PutBe16(w: word): (b: seq<byte>)
    ensures |b| == 2 && Be16(b, 0) == w
  {
    [w / 256, w % 256]
  }

  datatype Request = Request(transaction: word, unit: byte, pdu: seq<byte>)

  predicate Servable(r: Request) {
    1 <= |r.pdu| <= MAX_PDU_LEN
  }

  predicate AllServable(rs: seq<Request>) {
    forall i :: 0 <= i < |rs| ==> Servable(rs[i])
  }

  datatype Fault = BadProtocol | BadLength

  datatype Head = Incomplete | Faulty(fault: Fault) | Frame(request: Request, size: nat)

  // What the front of a buffer is.
  function Look(b: seq<byte>): (h: Head)
    ensures h.Frame? ==> 8 <= h.size <= |b| && h.size <= MAX_ADU_LEN
    ensures h.Incomplete? ==> |b| < MAX_ADU_LEN
    ensures h.Frame? ==> Servable(h.request)
  {
    if |b| < MBAP_HEADER_LEN then Incomplete
    else if Be16(b, 2) != 0 then Faulty(BadProtocol)
    else if Be16(b, 4) < MIN_MBAP_LENGTH || Be16(b, 4) > MAX_MBAP_LENGTH then Faulty(BadLength)
    else
      var size := MBAP_HEADER_LEN - 1 + Be16(b, 4);
      if |b| < size then Incomplete
      else Frame(Request(Be16(b, 0), b[6], b[MBAP_HEADER_LEN..size]), size)
  }

  // Whole frames taken off the front until what is left is partial or malformed.
  datatype Drained = Drained(frames: seq<Request>, rest: seq<byte>, fault: Option<Fault>)

  function Drain(b: seq<byte>): (d: Drained)
    ensures d.fault.None? ==> |d.rest| < MAX_ADU_LEN
    ensures AllServable(d.frames)
    decreases |b|
  {
    match Look(b)
    case Incomplete => Drained([], b, None)
    case Faulty(fault) => Drained([], b, Some(fault))
    case Frame(request, size) =>
      var more := Drain(b[size..]);
      more.(frames := [request] + more.frames)
  }

  function Adu(transaction: word, unit: byte, pdu: seq<byte>): seq<byte>
    requires |pdu| <= MAX_PDU_LEN
  {
    PutBe16(transaction) + PutBe16(0) + PutBe16(|pdu| + 1) + [unit] + pdu
  }

  // ---- the register machine -----------------------------------------------------------

  datatype Bank = Bank(coils: seq<bool>, registers: seq<word>)

  predicate WellSized(b: Bank) {
    |b.coils| == CELLS && |b.registers| == CELLS
  }

  datatype Command =
    | ReadCoils(address: nat, quantity: nat)
    | ReadRegisters(address: nat, quantity: nat)
    | WriteCoil(address: nat, on: bool)
    | WriteRegister(address: nat, value: word)
    | WriteRegisters(address: nat, values: seq<word>)
    | Refused(code: byte)

  predicate InRange(c: Command) {
    match c
    case ReadCoils(a, q) => 1 <= q <= 2000 && a + q <= CELLS
    case ReadRegisters(a, q) => 1 <= q <= 125 && a + q <= CELLS
    case WriteCoil(a, _) => a < CELLS
    case WriteRegister(a, _) => a < CELLS
    case WriteRegisters(a, vs) => 1 <= |vs| <= 123 && a + |vs| <= CELLS
    case Refused(code) => code == ILLEGAL_FUNCTION || code == ILLEGAL_DATA_ADDRESS || code == ILLEGAL_DATA_VALUE
  }

  function Words(b: seq<byte>): (w: seq<word>)
    requires |b| % 2 == 0
    ensures |w| == |b| / 2
    ensures forall i :: 0 <= i < |w| ==> w[i] == Be16(b, 2 * i)
  {
    seq(|b| / 2, i requires 0 <= i < |b| / 2 => Be16(b, 2 * i))
  }

  // What a request asks for, or the exception code it is refused with.
  function Understand(pdu: seq<byte>): (c: Command)
    requires pdu != []
    ensures InRange(c)
    ensures c.WriteRegisters? ==> |pdu| == 6 + 2 * |c.values|
  {
    if pdu[0] == READ_COILS || pdu[0] == READ_HOLDING_REGISTERS then UnderstandRead(pdu)
    else if pdu[0] == WRITE_SINGLE_COIL || pdu[0] == WRITE_SINGLE_REGISTER then UnderstandWrite(pdu)
    else if pdu[0] == WRITE_MULTIPLE_REGISTERS then UnderstandWriteMany(pdu)
    else Refused(ILLEGAL_FUNCTION)
  }

  function UnderstandRead(pdu: seq<byte>): (c: Command)
    requires pdu != []
    ensures InRange(c)
  {
    var limit := if pdu[0] == READ_COILS then 2000 else 125;
    if |pdu| != 5 || Be16(pdu, 3) == 0 || Be16(pdu, 3) > limit then Refused(ILLEGAL_DATA_VALUE)
    else if Be16(pdu, 1) + Be16(pdu, 3) > CELLS then Refused(ILLEGAL_DATA_ADDRESS)
    else if pdu[0] == READ_COILS then ReadCoils(Be16(pdu, 1), Be16(pdu, 3))
    else ReadRegisters(Be16(pdu, 1), Be16(pdu, 3))
  }

  function UnderstandWrite(pdu: seq<byte>): (c: Command)
    requires pdu != []
    ensures InRange(c)
  {
    if |pdu| != 5 then Refused(ILLEGAL_DATA_VALUE)
    else if pdu[0] == WRITE_SINGLE_COIL && Be16(pdu, 3) != 0 && Be16(pdu, 3) != 0xFF00 then Refused(ILLEGAL_DATA_VALUE)
    else if Be16(pdu, 1) >= CELLS then Refused(ILLEGAL_DATA_ADDRESS)
    else if pdu[0] == WRITE_SINGLE_COIL then WriteCoil(Be16(pdu, 1), Be16(pdu, 3) == 0xFF00)
    else WriteRegister(Be16(pdu, 1), Be16(pdu, 3))
  }

  function UnderstandWriteMany(pdu: seq<byte>): (c: Command)
    requires pdu != []
    ensures InRange(c)
    ensures c.WriteRegisters? ==> |pdu| == 6 + 2 * |c.values|
  {
    if |pdu| < 6 then Refused(ILLEGAL_DATA_VALUE)
    else if Be16(pdu, 3) == 0 || Be16(pdu, 3) > 123 || pdu[5] != (Be16(pdu, 3) * 2) % 256 || |pdu| != 6 + pdu[5] then
      Refused(ILLEGAL_DATA_VALUE)
    else if Be16(pdu, 1) + Be16(pdu, 3) > CELLS then Refused(ILLEGAL_DATA_ADDRESS)
    else WriteRegisters(Be16(pdu, 1), Words(pdu[6..]))
  }

  function After(b: Bank, c: Command): (r: Bank)
    requires WellSized(b) && InRange(c)
    ensures WellSized(r)
  {
    match c
    case WriteCoil(a, on) => b.(coils := b.coils[a := on])
    case WriteRegister(a, v) => b.(registers := b.registers[a := v])
    case WriteRegisters(a, vs) => b.(registers := b.registers[..a] + vs + b.registers[a + |vs|..])
    case _ => b
  }

  // ---- answers ---------------------------------------------------------------------------

  function Power2(k: nat): nat {
    if k == 0 then 1 else 2 * Power2(k - 1)
  }

  // The value of at most eight bits, the first the least significant.
  function BitsValue(bits: seq<bool>): (v: nat)
    ensures v < Power2(|bits|)
  {
    if bits == [] then 0
    else BitsValue(bits[..|bits| - 1]) + (if bits[|bits| - 1] then Power2(|bits| - 1) else 0)
  }

  function Octet(bits: seq<bool>): byte
    requires |bits| <= 8
  {
    assert Power2(8) == 256;
    SmallPower(|bits|, 8);
    BitsValue(bits)
  }

  lemma {:induction false} SmallPower(k: nat, n: nat)
    requires k <= n
    ensures 1 <= Power2(k) <= Power2(n)
  {
    if k < n {
      SmallPower(k, n - 1);
    } else if k > 0 {
      SmallPower(k - 1, k - 1);
    }
  }

  // Eight to a byte, the last byte filled up with zeros.
  function Pack(bits: seq<bool>): (b: seq<byte>)
    ensures |b| == (|bits| + 7) / 8
  {
    if |bits| <= 8 then (if bits == [] then [] else [Octet(bits)])
    else [Octet(bits[..8])] + Pack(bits[8..])
  }

  function WordBytes(ws: seq<word>): (b: seq<byte>)
    ensures |b| == 2 * |ws|
  {
    if ws == [] then [] else PutBe16(ws[0]) + WordBytes(ws[1..])
  }

  function ExceptionCode(functionCode: byte): byte {
    if functionCode >= 0x80 then functionCode else functionCode + 0x80
  }

  function Answer(b: Bank, pdu: seq<byte>): (a: seq<byte>)
    requires WellSized(b) && 1 <= |pdu| <= MAX_PDU_LEN
    ensures 2 <= |a| <= MAX_PDU_LEN
  {
    match Understand(pdu)
    case ReadCoils(a, q) => [READ_COILS, (q + 7) / 8] + Pack(b.coils[a..a + q])
    case ReadRegisters(a, q) => [READ_HOLDING_REGISTERS, 2 * q] + WordBytes(b.registers[a..a + q])
    case WriteCoil(_, _) => pdu
    case WriteRegister(_, _) => pdu
    case WriteRegisters(a, vs) => [WRITE_MULTIPLE_REGISTERS] + PutBe16(a) + PutBe16(|vs|)
    case Refused(code) => [ExceptionCode(pdu[0]), code]
  }

  function Reply(b: Bank, r: Request): seq<byte>
    requires WellSized(b) && Servable(r)
  {
    Adu(r.transaction, r.unit, Answer(b, r.pdu))
  }

  // The critical range of the decoy plant.
  datatype Range = Range(first: int, last: int)

  predicate Critical(range: Range, address: int) {
    range.first <= address <= range.last
  }

  // The lowest critical address from `a` on, among the next `n`.
  function FirstCritical(range: Range, a: nat, n: nat): Option<int>
    decreases n
  {
    if n == 0 then None else if Critical(range, a) then Some(a) else FirstCritical(range, a + 1, n - 1)
  }

  // The address a request is reported for as sabotage, if it is.
  function Sabotage(range: Range, c: Command): Option<int> {
    match c
    case WriteCoil(a, _) => FirstCritical(range, a, 1)
    case WriteRegister(a, _) => FirstCritical(range, a, 1)
    case WriteRegisters(a, vs) => FirstCritical(range, a, |vs|)
    case _ => None
  }

  // ---- a run of requests --------------------------------------------------------------------

  function BankAfter(b: Bank, rs: seq<Request>): (r: Bank)
    requires WellSized(b) && AllServable(rs)
    ensures WellSized(r)
  {
    if rs == [] then b
    else
      assert Servable(rs[|rs| - 1]);
      After(BankAfter(b, rs[..|rs| - 1]), Understand(rs[|rs| - 1].pdu))
  }

  function Replies(b: Bank, rs: seq<Request>): seq<seq<byte>>
    requires WellSized(b) && AllServable(rs)
  {
    if rs == [] then []
    else Replies(b, rs[..|rs| - 1]) + [Reply(BankAfter(b, rs[..|rs| - 1]), rs[|rs| - 1])]
  }
}
