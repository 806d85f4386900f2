/** What a peer can rely on: frames do not depend on how the stream was cut, every
    reply is a frame with the request's identifiers, reads give back what was
    written, and refusals change nothing. */
module ModbusTheorems {
  import opened Json
  import opened Utf8
  import opened Modbus

  // ---- draining a longer buffer -------------------------------------------------------

  lemma LookAhead(b: seq<byte>, more: seq<byte>)
    requires !Look(b).Incomplete?
    ensures Look(b + more) == Look(b)
  {
    assert (b + more)[..|b|] == b;
    if Look(b).Frame? {
      assert (b + more)[MBAP_HEADER_LEN..Look(b).size] == b[MBAP_HEADER_LEN..Look(b).size];
    }
  }

  lemma DrainStep(b: seq<byte>)
    ensures var h := Look(b);
      && (h.Incomplete? ==> Drain(b) == Drained([], b, None))
      && (h.Faulty? ==> Drain(b) == Drained([], b, Some(h.fault)))
      && (h.Frame? ==>
            var more := Drain(b[h.size..]);
            Drain(b) == Drained([h.request] + more.frames, more.rest, more.fault))
  {
    hide Look;
  }

  // What is drained now stays drained; the rest is looked at again with what follows.
  lemma {:induction false} DrainAhead(b: seq<byte>, more: seq<byte>)
    ensures var d := Drain(b);
      if d.fault.Some? then Drain(b + more).frames == d.frames && Drain(b + more).fault == d.fault
      else
        var m := Drain(d.rest + more);
        Drain(b + more) == Drained(d.frames + m.frames, m.rest, m.fault)
    decreases |b|
  {
    hide Look, Drain;
    var h := Look(b);
    DrainStep(b);
    DrainStep(b + more);
    if h.Incomplete? {
      assert [] + Drain(b + more).frames == Drain(b + more).frames;
    } else {
      LookAhead(b, more);
      if h.Frame? {
        DrainAhead(b[h.size..], more);
        assert (b + more)[h.size..] == b[h.size..] + more;
      }
    }
  }

  // ---- the reader loops, as functions --------------------------------------------------------

  datatype End = Open | Malformed(fault: Fault) | Overflow

  // What a connection dispatched, what it still held, and how it ended.
  datatype Outcome = Outcome(frames: seq<Request>, rest: seq<byte>, end: End)

  // The native server: drain, test for overflow, then receive.  An empty chunk is
  // the peer closing.
  function Native(buffer: seq<byte>, chunks: seq<seq<byte>>): Outcome
    decreases |chunks|
  {
    var d := Drain(buffer);
    if d.fault.Some? then Outcome(d.frames, d.rest, Malformed(d.fault.value))
    else if |d.rest| > MAX_BUFFER then Outcome(d.frames, d.rest, Overflow)
    else if chunks == [] || chunks[0] == [] then Outcome(d.frames, d.rest, Open)
    else
      var more := Native(d.rest + chunks[0], chunks[1..]);
      more.(frames := d.frames + more.frames)
  }

  // The Python server: receive, test for overflow, then drain.
  function Python(buffer: seq<byte>, chunks: seq<seq<byte>>): Outcome
    decreases |chunks|
  {
    if chunks == [] || chunks[0] == [] then Outcome([], buffer, Open)
    else if |buffer + chunks[0]| > MAX_BUFFER then Outcome([], buffer + chunks[0], Overflow)
    else
      var d := Drain(buffer + chunks[0]);
      if d.fault.Some? then Outcome(d.frames, [], Malformed(d.fault.value))
      else
        var more := Python(d.rest, chunks[1..]);
        more.(frames := d.frames + more.frames)
  }

  function Joined(chunks: seq<seq<byte>>): seq<byte> {
    if chunks == [] then [] else chunks[0] + Joined(chunks[1..])
  }

  predicate Received(chunks: seq<seq<byte>>, limit: nat) {
    forall i :: 0 <= i < |chunks| ==> 1 <= |chunks[i]| <= limit
  }

  function EndOf(d: Drained): End {
    if d.fault.Some? then Malformed(d.fault.value) else Open
  }

  lemma {:induction false} NativeFrom(buffer: seq<byte>, chunks: seq<seq<byte>>, limit: nat)
    requires Received(chunks, limit)
    ensures var o := Native(buffer, chunks);
      var d := Drain(buffer + Joined(chunks));
      && o.frames == d.frames && o.end == EndOf(d) && (d.fault.None? ==> o.rest == d.rest && |o.rest| < MAX_ADU_LEN)
    decreases |chunks|
  {
    hide Drain;
    var d := Drain(buffer);
    DrainAhead(buffer, Joined(chunks));
    if d.fault.None? {
      if chunks == [] {
        assert buffer + [] == buffer;
      } else {
        NativeFrom(d.rest + chunks[0], chunks[1..], limit);
        assert d.rest + chunks[0] + Joined(chunks[1..]) == d.rest + Joined(chunks);
      }
    }
  }

  // However the stream was cut into chunks, the native server dispatches the frames,
  // and reports the fault, that one look at the whole stream finds; fewer than 260
  // bytes wait for more, and the overflow branch is never taken.
  lemma ChunkingIrrelevant(chunks: seq<seq<byte>>)
    requires Received(chunks, 1024)
    ensures var o := Native([], chunks);
      var d := Drain(Joined(chunks));
      && o.frames == d.frames && o.end == EndOf(d) && o.end != Overflow
      && (d.fault.None? ==> o.rest == d.rest && |o.rest| <= 259)
  {
    NativeFrom([], chunks, 1024);
    assert [] + Joined(chunks) == Joined(chunks);
  }

  // The buffers a native connection ever holds, one before each drain.
  function Buffers(buffer: seq<byte>, chunks: seq<seq<byte>>): seq<seq<byte>>
    decreases |chunks|
  {
    if Drain(buffer).fault.Some? || chunks == [] || chunks[0] == [] then [buffer]
    else [buffer] + Buffers(Drain(buffer).rest + chunks[0], chunks[1..])
  }

  lemma {:induction false} BufferBound(buffer: seq<byte>, chunks: seq<seq<byte>>)
    requires Received(chunks, 1024) && |buffer| <= 1283
    ensures forall i :: 0 <= i < |Buffers(buffer, chunks)| ==> |Buffers(buffer, chunks)[i]| <= 1283
    decreases |chunks|
  {
    if !(Drain(buffer).fault.Some? || chunks == [] || chunks[0] == []) {
      BufferBound(Drain(buffer).rest + chunks[0], chunks[1..]);
    }
  }

  // ---- the Python twin --------------------------------------------------------------------------

  lemma {:induction false} PythonFrom(buffer: seq<byte>, chunks: seq<seq<byte>>)
    requires Received(chunks, 4096) && Drain(buffer) == Drained([], buffer, None) && Python(buffer, chunks).end != Overflow
    ensures var o := Python(buffer, chunks);
      var d := Drain(buffer + Joined(chunks));
      o.frames == d.frames && o.end == EndOf(d)
    decreases |chunks|
  {
    if chunks == [] {
      assert buffer + [] == buffer;
    } else {
      var d := Drain(buffer + chunks[0]);
      assert buffer + Joined(chunks) == buffer + chunks[0] + Joined(chunks[1..]);
      DrainAhead(buffer + chunks[0], Joined(chunks[1..]));
      if d.fault.None? {
        DrainRest(buffer + chunks[0]);
        PythonFrom(d.rest, chunks[1..]);
      }
    }
  }

  // Draining what was left by a drain takes nothing more.
  lemma {:induction false} DrainRest(b: seq<byte>)
    requires Drain(b).fault.None?
    ensures Drain(Drain(b).rest) == Drained([], Drain(b).rest, None)
    decreases |b|
  {
    var h := Look(b);
    if h.Frame? {
      DrainRest(b[h.size..]);
    }
  }

  // Some chunk arrives while it and the partial frame before it exceed the limit.
  predicate Crowded(chunks: seq<seq<byte>>, i: nat)
    requires i < |chunks|
  {
    var d := Drain(Joined(chunks[..i]));
    d.fault.None? && |d.rest| + |chunks[i]| > MAX_BUFFER
  }

  lemma {:induction false} OverflowFrom(buffer: seq<byte>, chunks: seq<seq<byte>>)
    requires Received(chunks, 4096) && Drain(buffer) == Drained([], buffer, None)
    ensures Python(buffer, chunks).end == Overflow
      <==> exists i :: 0 <= i < |chunks| && CrowdedAfter(buffer, chunks, i)
    decreases |chunks|
  {
    if chunks != [] {
      var d := Drain(buffer + chunks[0]);
      assert CrowdedAfter(buffer, chunks, 0) <==> |buffer + chunks[0]| > MAX_BUFFER by {
        assert chunks[..0] == [] && buffer + [] == buffer;
      }
      forall i | 1 <= i < |chunks|
        ensures CrowdedAfter(buffer, chunks, i) <==> d.fault.None? && CrowdedAfter(d.rest, chunks[1..], i - 1)
      {
        ShiftCrowded(buffer, chunks, i);
      }
      if d.fault.None? {
        DrainRest(buffer + chunks[0]);
        OverflowFrom(d.rest, chunks[1..]);
        if i :| 0 <= i < |chunks[1..]| && CrowdedAfter(d.rest, chunks[1..], i) {
          assert CrowdedAfter(buffer, chunks, i + 1);
        }
      }
    }
  }

  predicate CrowdedAfter(buffer: seq<byte>, chunks: seq<seq<byte>>, i: nat)
    requires i < |chunks|
  {
    var d := Drain(buffer + Joined(chunks[..i]));
    d.fault.None? && |d.rest| + |chunks[i]| > MAX_BUFFER
  }

  lemma ShiftCrowded(buffer: seq<byte>, chunks: seq<seq<byte>>, i: nat)
    requires 1 <= i < |chunks|
    ensures var d := Drain(buffer + chunks[0]);
      CrowdedAfter(buffer, chunks, i) <==> d.fault.None? && CrowdedAfter(d.rest, chunks[1..], i - 1)
  {
    var tail := Joined(chunks[1..][..i - 1]);
    assert chunks[..i][1..] == chunks[1..][..i - 1];
    assert buffer + Joined(chunks[..i]) == buffer + chunks[0] + tail;
    DrainAhead(buffer + chunks[0], tail);
  }

  // The Python server gives up for overflow exactly when some chunk is crowded.
  lemma PythonOverflows(chunks: seq<seq<byte>>)
    requires Received(chunks, 4096)
    ensures Python([], chunks).end == Overflow <==> exists i :: 0 <= i < |chunks| && Crowded(chunks, i)
  {
    hide Drain, Python, Joined, Crowded, CrowdedAfter, Received;
    NothingDrains();
    OverflowFrom([], chunks);
    forall i | 0 <= i < |chunks| ensures CrowdedAfter([], chunks, i) <==> Crowded(chunks, i) {
      CrowdedFromStart(chunks, i);
    }
  }

  lemma CrowdedFromStart(chunks: seq<seq<byte>>, i: nat)
    requires i < |chunks|
    ensures CrowdedAfter([], chunks, i) <==> Crowded(chunks, i)
  {
    hide Drain, Joined;
    assert [] + Joined(chunks[..i]) == Joined(chunks[..i]);
  }

  // From the same stream, however each received it, both servers dispatch the same
  // frames and end the same way exactly when no chunk the Python server got is crowded.
  lemma TwinsAgree(chunks: seq<seq<byte>>, others: seq<seq<byte>>)
    requires Received(chunks, 4096) && Received(others, 1024) && Joined(chunks) == Joined(others)
    ensures Python([], chunks).frames == Native([], others).frames && Python([], chunks).end == Native([], others).end
      <==> !exists i :: 0 <= i < |chunks| && Crowded(chunks, i)
  {
    hide Drain, Python, Native, Crowded, Joined, Received, EndOf;
    PythonOverflows(chunks);
    ChunkingIrrelevant(others);
    if Python([], chunks).end != Overflow {
      PythonDrains(chunks);
    }
  }

  lemma PythonDrains(chunks: seq<seq<byte>>)
    requires Received(chunks, 4096) && Python([], chunks).end != Overflow
    ensures var o := Python([], chunks);
      var d := Drain(Joined(chunks));
      o.frames == d.frames && o.end == EndOf(d)
  {
    hide Drain, Python, Joined;
    NothingDrains();
    PythonFrom([], chunks);
    assert [] + Joined(chunks) == Joined(chunks);
  }

  lemma RoomForShort(chunks: seq<seq<byte>>, i: nat)
    requires i < |chunks| && |chunks[i]| <= 781
    ensures !Crowded(chunks, i)
  {
  }

  // So they agree whenever no chunk is longer than 781 bytes.
  lemma ShortChunksAgree(chunks: seq<seq<byte>>, others: seq<seq<byte>>)
    requires Received(chunks, 781) && Received(others, 1024) && Joined(chunks) == Joined(others)
    ensures Python([], chunks).frames == Native([], others).frames && Python([], chunks).end == Native([], others).end
  {
    hide Crowded, Python, Native;
    forall i | 0 <= i < |chunks| ensures !Crowded(chunks, i) {
      RoomForShort(chunks, i);
    }
    TwinsAgree(chunks, others);
  }

  function Repeat(b: seq<byte>, n: nat): seq<byte> {
    if n == 0 then [] else b + Repeat(b, n - 1)
  }

  lemma NothingDrains()
    ensures Drain([]) == Drained([], [], None)
  {
  }

  lemma {:induction false} RepeatDrains(b: seq<byte>, n: nat)
    requires Look(b).Frame? && Look(b).size == |b|
    ensures |Repeat(b, n)| == n * |b|
    ensures Drain(Repeat(b, n)).fault.None? && |Drain(Repeat(b, n)).frames| == n
  {
    hide Look, Drain;
    if n == 0 {
      NothingDrains();
    } else {
      RepeatDrains(b, n - 1);
      DrainStep(b + Repeat(b, n - 1));
      assert n * |b| == (n - 1) * |b| + |b|;
      LookAhead(b, Repeat(b, n - 1));
      assert (b + Repeat(b, n - 1))[|b|..] == Repeat(b, n - 1);
    }
  }

  // 87 pipelined requests of twelve bytes, arriving at once: the native server
  // answers all of them, the Python server none.
  lemma TwinsDiffer(frame: seq<byte>)
    requires |frame| == 12 && Look(frame).Frame? && Look(frame).size == 12
    ensures var stream := Repeat(frame, 87);
      && |stream| == 1044
      && Python([], [stream]) == Outcome([], stream, Overflow)
      && |Native([], [stream[..1024], stream[1024..]]).frames| == 87
  {
    hide Look, Drain, Repeat, Native;
    var stream := Repeat(frame, 87);
    RepeatDrains(frame, 87);
    assert [] + stream == stream;
    var chunks: seq<seq<byte>> := [stream[..1024], stream[1024..]];
    assert chunks[1..] == [stream[1024..]] && chunks[1..][1..] == [];
    assert Joined(chunks[1..][1..]) == [];
    assert Joined(chunks) == stream[..1024] + stream[1024..];
    assert stream[..1024] + stream[1024..] == stream;
    ChunkingIrrelevant(chunks);
  }

  // ---- replies ---------------------------------------------------------------------------------------

  // A frame built around a PDU is read back whole, with its identifiers.
  lemma AduReadsBack(transaction: word, unit: byte, pdu: seq<byte>, more: seq<byte>)
    requires 1 <= |pdu| <= MAX_PDU_LEN
    ensures var adu := Adu(transaction, unit, pdu);
      |adu| == 7 + |pdu| <= MAX_ADU_LEN && Look(adu + more) == Frame(Request(transaction, unit, pdu), |adu|)
  {
    var adu := Adu(transaction, unit, pdu);
    assert adu[..2] == PutBe16(transaction) && adu[2..4] == PutBe16(0) && adu[4..6] == PutBe16(|pdu| + 1);
    assert Be16(adu, 0) == Be16(adu[..2], 0) && Be16(adu, 2) == Be16(adu[2..4], 0) && Be16(adu, 4) == Be16(adu[4..6], 0);
    assert adu[7..7 + |pdu|] == pdu;
    LookAhead(adu, more);
  }

  // Every reply fits an ADU and reads back with the request's identifiers, whatever follows it.
  lemma ReplyReadsBack(b: Bank, r: Request, more: seq<byte>)
    requires WellSized(b) && Servable(r)
    ensures |Reply(b, r)| <= MAX_ADU_LEN
    ensures Look(Reply(b, r) + more) == Frame(Request(r.transaction, r.unit, Answer(b, r.pdu)), |Reply(b, r)|)
  {
    hide Answer;
    AduReadsBack(r.transaction, r.unit, Answer(b, r.pdu), more);
  }

  // A request is refused with a two-byte PDU whose function code says so, and then
  // neither registers nor coils change.
  lemma RefusalChangesNothing(b: Bank, r: Request)
    requires WellSized(b) && Servable(r) && Understand(r.pdu).Refused?
    ensures After(b, Understand(r.pdu)) == b && |Reply(b, r)| == 9
    ensures Answer(b, r.pdu) == [ExceptionCode(r.pdu[0]), Understand(r.pdu).code] && ExceptionCode(r.pdu[0]) >= 0x80
  {
  }

  // The client side's request frames are twelve bytes that the server takes for just
  // what they ask, or refuses for their range alone.
  lemma BuiltRequestsUnderstood(transaction: word, unit: byte, address: word, operand: word, more: seq<byte>)
    ensures var read := [READ_HOLDING_REGISTERS] + PutBe16(address) + PutBe16(operand);
      && Look(Adu(transaction, unit, read) + more) == Frame(Request(transaction, unit, read), 12)
      && Understand(read) == (if operand == 0 || operand > 125 then Refused(ILLEGAL_DATA_VALUE)
                              else if address + operand > CELLS then Refused(ILLEGAL_DATA_ADDRESS)
                              else ReadRegisters(address, operand))
    ensures var write := [WRITE_SINGLE_REGISTER] + PutBe16(address) + PutBe16(operand);
      && Look(Adu(transaction, unit, write) + more) == Frame(Request(transaction, unit, write), 12)
      && Understand(write) == (if address >= CELLS then Refused(ILLEGAL_DATA_ADDRESS) else WriteRegister(address, operand))
  {
    hide Adu, Look;
    BuiltFields(READ_HOLDING_REGISTERS, address, operand);
    BuiltFields(WRITE_SINGLE_REGISTER, address, operand);
    AduReadsBack(transaction, unit, [READ_HOLDING_REGISTERS] + PutBe16(address) + PutBe16(operand), more);
    AduReadsBack(transaction, unit, [WRITE_SINGLE_REGISTER] + PutBe16(address) + PutBe16(operand), more);
  }

  lemma BuiltFields(code: byte, address: word, operand: word)
    ensures var pdu := [code] + PutBe16(address) + PutBe16(operand);
      |pdu| == 5 && pdu[0] == code && Be16(pdu, 1) == address && Be16(pdu, 3) == operand
  {
    var pdu := [code] + PutBe16(address) + PutBe16(operand);
    assert pdu[1..3] == PutBe16(address) && pdu[3..5] == PutBe16(operand);
    assert Be16(pdu, 1) == Be16(pdu[1..3], 0) && Be16(pdu, 3) == Be16(pdu[3..5], 0);
  }

  // ---- reading what was written --------------------------------------------------------------------------

  lemma {:induction false} WordBytesAt(ws: seq<word>, i: nat)
    requires i < |ws|
    ensures Be16(WordBytes(ws), 2 * i) == ws[i]
  {
    if i > 0 {
      WordBytesAt(ws[1..], i - 1);
      assert WordBytes(ws)[2..] == WordBytes(ws[1..]);
    }
  }

  lemma {:induction false} BytesRoundTrip(b: seq<byte>)
    requires |b| % 2 == 0
    ensures WordBytes(Words(b)) == b
  {
    if b != [] {
      BytesRoundTrip(b[2..]);
      assert Words(b)[1..] == Words(b[2..]);
    }
  }

  lemma WrittenValues(write: seq<byte>)
    requires write != [] && Understand(write).WriteRegisters?
    ensures |write[6..]| % 2 == 0 && Understand(write).values == Words(write[6..])
  {
    hide Words;
  }

  // A multiple write followed by a read of the same registers answers with the very
  // bytes that were written; no other register changed.
  lemma WriteThenRead(b: Bank, write: seq<byte>, read: seq<byte>)
    requires WellSized(b) && 1 <= |write| <= MAX_PDU_LEN && 1 <= |read| <= MAX_PDU_LEN
    requires Understand(write).WriteRegisters?
    requires Understand(read) == ReadRegisters(Understand(write).address, |Understand(write).values|)
    ensures Answer(After(b, Understand(write)), read)[2..] == write[6..]
    ensures var after := After(b, Understand(write));
      forall k :: 0 <= k < CELLS && !Writes(Understand(write), k) ==> after.registers[k] == b.registers[k]
  {
    hide Understand, WordBytes, Pack;
    var c := Understand(write);
    var after := After(b, c);
    assert after.registers[c.address..c.address + |c.values|] == c.values;
    WrittenValues(write);
    BytesRoundTrip(write[6..]);
  }

  // ---- packed coils ---------------------------------------------------------------------------------------

  predicate BitOf(v: nat, k: nat) {
    SmallPower(0, k);
    v / Power2(k) % 2 == 1
  }

  lemma Halve(v: nat, low: nat, p: nat, bit: bool)
    requires p >= 1 && low < p && v == low + (if bit then p else 0)
    ensures (v / p % 2 == 1) == bit
  {
    if bit {
      assert v / p == 1 by { assert v == p * 1 + low; QuotientIs(v, p, 1, low); }
    } else {
      QuotientIs(v, p, 0, low);
    }
  }

  lemma QuotientIs(v: nat, p: nat, q: nat, r: nat)
    requires p >= 1 && v == p * q + r && r < p
    ensures v / p == q
  {
    Grows(p, v / p + 1, q);
    Grows(p, q + 1, v / p);
  }

  lemma Grows(p: nat, a: nat, b: nat)
    ensures a <= b ==> p * a <= p * b
  {
  }

  lemma Spread(p: nat, q: nat, m: nat, r: nat)
    ensures p * q + r + 2 * m * p == p * (q + 2 * m) + r
  {
    assert p * (q + 2 * m) == p * q + p * (2 * m);
    assert p * (2 * m) == 2 * m * p;
  }

  // The high bit added on top does not disturb the ones below.
  lemma LowerBits(low: nat, k: nat, n: nat)
    requires k < n
    ensures BitOf(low + Power2(n), k) == BitOf(low, k)
  {
    hide Power2;
    SmallPower(0, k);
    var m := PowerFactor(k, n);
    var p := Power2(k);
    assert p >= 1 by { PowerPositive(k); }
    var q, r := low / p, low % p;
    assert low == p * q + r;
    Spread(p, q, m, r);
    QuotientIs(low + Power2(n), p, q + 2 * m, r);
    assert (q + 2 * m) % 2 == q % 2;
  }

  lemma PowerPositive(k: nat)
    ensures Power2(k) >= 1
  {
    SmallPower(0, k);
  }

  lemma {:induction false} PowerFactor(k: nat, n: nat) returns (m: nat)
    requires k < n
    ensures Power2(n) == 2 * m * Power2(k)
    decreases n
  {
    if k == n - 1 {
      m := 1;
    } else {
      var m' := PowerFactor(k, n - 1);
      m := 2 * m';
      assert Power2(n) == 2 * (2 * m' * Power2(k)) == 2 * m * Power2(k);
    }
  }

  lemma {:induction false} BitsAt(bits: seq<bool>, k: nat)
    ensures BitOf(BitsValue(bits), k) == (k < |bits| && bits[k])
    decreases |bits|
  {
    hide BitOf;
    if k >= |bits| {
      HighBits(bits, k);
    } else if k == |bits| - 1 {
      TopBit(bits);
    } else {
      var n := |bits| - 1;
      BitsAt(bits[..n], k);
      LowerBits(BitsValue(bits[..n]), k, n);
    }
  }

  lemma TopBit(bits: seq<bool>)
    requires bits != []
    ensures BitOf(BitsValue(bits), |bits| - 1) == bits[|bits| - 1]
  {
    var n := |bits| - 1;
    SmallPower(0, n);
    Halve(BitsValue(bits), BitsValue(bits[..n]), Power2(n), bits[n]);
  }

  lemma HighBits(bits: seq<bool>, k: nat)
    requires k >= |bits|
    ensures !BitOf(BitsValue(bits), k)
  {
    SmallPower(|bits|, k);
    QuotientIs(BitsValue(bits), Power2(k), 0, BitsValue(bits));
  }

  // Coil i of a read is bit i % 8 of byte i / 8, and the bits past the last are zero.
  lemma {:induction false} PackedAt(bits: seq<bool>, i: nat)
    requires i < 8 * |Pack(bits)|
    ensures BitOf(Pack(bits)[i / 8], i % 8) == (i < |bits| && bits[i])
    decreases |bits|
  {
    if |bits| <= 8 {
      BitsAt(bits, i);
    } else if i < 8 {
      BitsAt(bits[..8], i);
    } else {
      PackedAt(bits[8..], i - 8);
      assert (i - 8) / 8 == i / 8 - 1 && (i - 8) % 8 == i % 8;
    }
  }

  // ---- sabotage ----------------------------------------------------------------------------------------------

  lemma {:induction false} FirstCriticalIs(range: Range, a: nat, n: nat)
    ensures FirstCritical(range, a, n).Some? <==> exists k :: a <= k < a + n && Critical(range, k)
    ensures FirstCritical(range, a, n).Some? ==>
      var first := FirstCritical(range, a, n).value;
      a <= first < a + n && Critical(range, first) && forall k :: a <= k < first ==> !Critical(range, k)
    decreases n
  {
    if n > 0 && !Critical(range, a) {
      FirstCriticalIs(range, a + 1, n - 1);
    }
  }

  // The cells a command writes.
  predicate Writes(c: Command, k: int) {
    match c
    case WriteCoil(a, _) => k == a
    case WriteRegister(a, _) => k == a
    case WriteRegisters(a, vs) => a <= k < a + |vs|
    case _ => false
  }

  lemma FirstWritten(range: Range, c: Command)
    ensures Sabotage(range, c).Some? <==> exists k :: Writes(c, k) && Critical(range, k)
    ensures Sabotage(range, c).Some? ==>
      var first := Sabotage(range, c).value;
      Writes(c, first) && Critical(range, first) && forall k :: Writes(c, k) && Critical(range, k) ==> first <= k
  {
    match c
    case WriteCoil(a, _) => FirstCriticalIs(range, a, 1);
    case WriteRegister(a, _) => FirstCriticalIs(range, a, 1);
    case WriteRegisters(a, vs) => FirstCriticalIs(range, a, |vs|);
    case _ =>
  }

  // A request is reported exactly when it succeeded in writing a critical cell, and
  // at the lowest such address.
  lemma SabotageReported(range: Range, c: Command)
    ensures Sabotage(range, c).Some? <==> exists k :: Writes(c, k) && range.first <= k <= range.last
    ensures Sabotage(range, c).Some? ==>
      var first := Sabotage(range, c).value;
      && Writes(c, first) && range.first <= first <= range.last
      && forall k :: Writes(c, k) && range.first <= k <= range.last ==> first <= k
  {
    hide Sabotage, Writes;
    FirstWritten(range, c);
    assert forall k :: Writes(c, k) && range.first <= k <= range.last ==> Critical(range, k);
  }

  // ---- the twin's answers -----------------------------------------------------------------------------------------

  // The Python server knows reads and single writes of registers; its bank has no coils.
  function PythonUnderstand(pdu: seq<byte>): (c: Command)
    requires pdu != []
    ensures InRange(c) && !c.ReadCoils? && !c.WriteCoil? && !c.WriteRegisters?
  {
    if pdu[0] == READ_HOLDING_REGISTERS then
      if |pdu| != 5 then Refused(ILLEGAL_DATA_VALUE)
      else if Be16(pdu, 3) == 0 || Be16(pdu, 3) > 125 then Refused(ILLEGAL_DATA_VALUE)
      else if Be16(pdu, 1) + Be16(pdu, 3) > CELLS then Refused(ILLEGAL_DATA_ADDRESS)
      else ReadRegisters(Be16(pdu, 1), Be16(pdu, 3))
    else if pdu[0] == WRITE_SINGLE_REGISTER then
      if |pdu| != 5 then Refused(ILLEGAL_DATA_VALUE)
      else if Be16(pdu, 1) >= CELLS then Refused(ILLEGAL_DATA_ADDRESS)
      else WriteRegister(Be16(pdu, 1), Be16(pdu, 3))
    else Refused(ILLEGAL_FUNCTION)
  }

  function PythonAnswer(registers: seq<word>, pdu: seq<byte>): seq<byte>
    requires |registers| == CELLS && 1 <= |pdu| <= MAX_PDU_LEN
  {
    match PythonUnderstand(pdu)
    case ReadRegisters(a, q) => [READ_HOLDING_REGISTERS, |WordBytes(registers[a..a + q])|] + WordBytes(registers[a..a + q])
    case WriteRegister(_, _) => pdu
    case Refused(code) => [ExceptionCode(pdu[0]), code]
  }

  function PythonAfter(registers: seq<word>, pdu: seq<byte>): seq<word>
    requires |registers| == CELLS && pdu != []
  {
    var c := PythonUnderstand(pdu);
    if c.WriteRegister? then registers[c.address := c.value] else registers
  }

  // From equal registers both servers answer byte for byte alike, and leave equal
  // registers, on every request but those for codes 1, 5 and 16; on those the
  // Python server answers that it knows no such function.
  lemma TwinsAnswerAlike(b: Bank, pdu: seq<byte>)
    requires WellSized(b) && 1 <= |pdu| <= MAX_PDU_LEN
    ensures pdu[0] != READ_COILS && pdu[0] != WRITE_SINGLE_COIL && pdu[0] != WRITE_MULTIPLE_REGISTERS ==>
      && PythonAnswer(b.registers, pdu) == Answer(b, pdu)
      && PythonAfter(b.registers, pdu) == After(b, Understand(pdu)).registers
    ensures pdu[0] == READ_COILS || pdu[0] == WRITE_SINGLE_COIL || pdu[0] == WRITE_MULTIPLE_REGISTERS ==>
      && PythonAnswer(b.registers, pdu) == [pdu[0] + 0x80, ILLEGAL_FUNCTION]
      && PythonAfter(b.registers, pdu) == b.registers
  {
    hide WordBytes;
  }
}
