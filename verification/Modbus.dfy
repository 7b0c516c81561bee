/** Modbus RTU requests of the HM310T power supply
    (server/drv_serial_hm310t.cpp) against a slave that follows sections 6.3,
    6.6 and 7 of "MODBUS Application Protocol Specification V1.1b3" and drops
    frames whose CRC is wrong. */
module Modbus {
  import opened Results
  import CrcDistance
  import opened CrcRegister

  // What the driver throws.
  datatype ModbusError =
    | ReadTimeout
    | ShortResponse
    | WrongErrorLength(size: nat)
    | ExceptionCode(code: byte)
    | UnknownFunction(fc: byte)
    | UnexpectedLength
    | UnexpectedCount
    | UnexpectedResponse

  function Frame(body: seq<byte>): (f: seq<byte>)
    ensures |f| == |body| + 2
  {
    body + [Low(Crc(body)), High(Crc(body))]
  }

  function ReadRequest(dev: byte, addr: word): seq<byte> {
    Frame([dev, 3, High(addr), Low(addr), 0, 1])
  }

  function WriteRequest(dev: byte, addr: word, val: word): seq<byte> {
    Frame([dev, 6, High(addr), Low(addr), High(val), Low(val)])
  }

  // ---------------------------------------------------------------------
  // The slave.

  function Pair(hi: byte, lo: byte): word { 0x100 * hi + lo }

  function Data(regs: map<word, word>, addr: nat, count: nat): (d: Option<seq<byte>>)
    ensures d.Some? ==> |d.value| == 2 * count
    decreases count
  {
    if count == 0 then Some([])
    else if addr >= 0x1_0000 || addr !in regs then None
    else
      match Data(regs, addr + 1, count - 1)
      case None => None
      case Some(rest) => Some([High(regs[addr]), Low(regs[addr])] + rest)
  }

  function Refuse(own: byte, fc: byte, code: byte): Option<seq<byte>> {
    Some(Frame([own, (fc + 0x80) % 0x100, code]))
  }

  // The slave's registers after a frame f has arrived, and its reply.  A
  // fault is an exception the slave raises on its own account.
  function Serve(own: byte, regs: map<word, word>, fault: Option<byte>, f: seq<byte>)
    : (map<word, word>, Option<seq<byte>>)
  {
    if |f| < 4 || Crc(f) != 0 || f[0] != own then (regs, None)
    else if fault.Some? then (regs, Refuse(own, f[1], fault.value))
    else if f[1] == 3 then
      if |f| != 8 || !(1 <= Pair(f[4], f[5]) <= 125) then (regs, Refuse(own, 3, 3))
      else
        match Data(regs, Pair(f[2], f[3]), Pair(f[4], f[5]))
        case None => (regs, Refuse(own, 3, 2))
        case Some(data) => (regs, Some(Frame([own, 3, 2 * Pair(f[4], f[5])] + data)))
    else if f[1] == 6 then
      if |f| != 8 then (regs, Refuse(own, 6, 3))
      else if Pair(f[2], f[3]) !in regs then (regs, Refuse(own, 6, 2))
      else (regs[Pair(f[2], f[3]) := Pair(f[4], f[5])], Some(Frame(f[..6])))
    else (regs, Refuse(own, f[1], 1))
  }

  // What becomes of a frame on the line.
  datatype Wire = Intact | Lost | Changed(bytes: seq<byte>) {
    function Through(sent: seq<byte>): Option<seq<byte>> {
      match this
      case Intact => Some(sent)
      case Lost => None
      case Changed(bytes) => Some(bytes)
    }
  }

  // What may go wrong in one exchange: on the way of the request, in the
  // slave, and on the way of the reply; and whether the reply comes after the
  // driver has stopped waiting for it.
  datatype Exchange = Exchange(request: Wire, fault: Option<byte>, reply: Wire, late: bool)

  // The slave's registers after a frame has been sent, and what comes back.
  function Travel(own: byte, regs: map<word, word>, sent: seq<byte>, x: Exchange)
    : (map<word, word>, Option<seq<byte>>)
  {
    match x.request.Through(sent)
    case None => (regs, None)
    case Some(got) =>
      var (regs', reply) := Serve(own, regs, x.fault, got);
      (regs', match reply case None => None case Some(r) => x.reply.Through(r))
  }

  // The slave's registers, and the replies that wait in the port to be read.
  datatype Port = Port(regs: map<word, word>, waiting: seq<seq<byte>>)

  function Came(reply: Option<seq<byte>>): seq<seq<byte>> {
    match reply case None => [] case Some(r) => [r]
  }

  // Sending a request and reading the port once: the oldest reply that waits
  // is read, and otherwise the one that comes in time.
  function Pass(own: byte, p: Port, sent: seq<byte>, x: Exchange): (Port, Option<seq<byte>>) {
    var (regs, reply) := Travel(own, p.regs, sent, x);
    if p.waiting != [] then (Port(regs, p.waiting[1..] + Came(reply)), Some(p.waiting[0]))
    else if x.late then (Port(regs, Came(reply)), None)
    else (Port(regs, []), reply)
  }

  // The line damages a frame in a way the checksum is made for: inside 16
  // consecutive bits, in an odd number of bits, or in two bits.
  ghost predicate Damaged(sent: seq<byte>, got: seq<byte>) {
    && |got| == |sent|
    && got != sent
    && (Parity(Xor(MessageBits(sent), MessageBits(got)))
        || (exists k :: SameOutsideBurst(MessageBits(sent), MessageBits(got), k))
        || (exists i, j :: CrcDistance.DifferAt(MessageBits(sent), MessageBits(got), i, j)))
  }

  // The line delivers the request, loses it or damages it detectably, and a
  // reply that it changes does not become the echo of the request.
  ghost predicate Delivers(sent: seq<byte>, x: Exchange) {
    && (x.request.Changed? ==> Damaged(sent, x.request.bytes))
    && (x.reply.Changed? ==> x.reply.bytes != sent)
  }

  lemma FrameResidue(body: seq<byte>)
    ensures Crc(Frame(body)) == 0
  {
    ResidueIff(body, Low(Crc(body)), High(Crc(body)));
  }

  lemma DamagedIsDropped(own: byte, regs: map<word, word>, fault: Option<byte>, body: seq<byte>, got: seq<byte>)
    requires Damaged(Frame(body), got) && |body| <= 254
    ensures Crc(got) != 0
    ensures Serve(own, regs, fault, got) == (regs, None)
  {
    var sent := Frame(body);
    FrameResidue(body);
    if Parity(Xor(MessageBits(sent), MessageBits(got))) {
      OddFlipsDetected(sent, got);
    } else if k :| SameOutsideBurst(MessageBits(sent), MessageBits(got), k) {
      BurstDetected(sent, got, k);
    } else {
      var i, j :| CrcDistance.DifferAt(MessageBits(sent), MessageBits(got), i, j);
      CrcDistance.TwoFlipsIff(sent, got, i, j);
    }
  }

  // ---------------------------------------------------------------------
  // The driver's reading of a reply.

  function ReadOutcome(reply: Option<seq<byte>>): Result<word, ModbusError> {
    match reply
    case None => Err(ReadTimeout)
    case Some(res) =>
      if |res| < 2 then Err(ShortResponse)
      else if res[1] == 0x83 then
        if |res| != 5 then Err(WrongErrorLength(|res|)) else Err(ExceptionCode(res[2]))
      else if res[1] != 3 then Err(UnknownFunction(res[1]))
      else if |res| != 7 then Err(UnexpectedLength)
      else if res[2] != 2 then Err(UnexpectedCount)
      else Ok(Pair(res[3], res[4]))
  }

  function WriteOutcome(sent: seq<byte>, reply: Option<seq<byte>>): Result<(), ModbusError> {
    match reply
    case None => Err(ReadTimeout)
    case Some(res) =>
      if |res| < 2 then Err(ShortResponse)
      else if res[1] == 0x86 then
        if |res| != 5 then Err(WrongErrorLength(|res|)) else Err(ExceptionCode(res[2]))
      else if res[1] != 6 then Err(UnknownFunction(res[1]))
      else if res != sent then Err(UnexpectedResponse)
      else Ok(())
  }

  // With nothing waiting, and replies in time.
  function ReadRegister(dev: byte, own: byte, regs: map<word, word>, addr: word, x: Exchange)
    : (map<word, word>, Result<word, ModbusError>)
  {
    var (regs', reply) := Travel(own, regs, ReadRequest(dev, addr), x);
    (regs', ReadOutcome(reply))
  }

  function WriteRegister(dev: byte, own: byte, regs: map<word, word>, addr: word, val: word, x: Exchange)
    : (map<word, word>, Result<(), ModbusError>)
  {
    var (regs', reply) := Travel(own, regs, WriteRequest(dev, addr, val), x);
    (regs', WriteOutcome(WriteRequest(dev, addr, val), reply))
  }

  function ReadPort(dev: byte, own: byte, p: Port, addr: word, x: Exchange): (Port, Result<word, ModbusError>) {
    var (p', reply) := Pass(own, p, ReadRequest(dev, addr), x);
    (p', ReadOutcome(reply))
  }

  function WritePort(dev: byte, own: byte, p: Port, addr: word, val: word, x: Exchange)
    : (Port, Result<(), ModbusError>)
  {
    var (p', reply) := Pass(own, p, WriteRequest(dev, addr, val), x);
    (p', WriteOutcome(WriteRequest(dev, addr, val), reply))
  }

  lemma Nibbles(v: nat)
    ensures v % 0x1000 == 0x100 * ((v / 0x100) % 0x10) + 0x10 * ((v / 0x10) % 0x10) + v % 0x10
  {
    var a, b := v / 0x10, v / 0x100;
    assert b == a / 0x10;
    assert v == 0x1000 * (b / 0x10) + (0x100 * (b % 0x10) + 0x10 * (a % 0x10) + v % 0x10);
  }

  // ---------------------------------------------------------------------
  // The driver and the line.

  // The serial port with the slave at the far end of its line.
  class Line {
    const own: byte
    var regs: map<word, word>
    // Replies that have come and have not been read.
    var waiting: seq<seq<byte>>
    // The reply on its way, and whether it will be late.
    var coming: Option<seq<byte>>
    var late: bool

    constructor (own: byte, regs: map<word, word>)
      ensures this.own == own && View() == Port(regs, []) && coming == None
    {
      this.own, this.regs, waiting, coming, late := own, regs, [], None, false;
    }

    ghost function View(): Port
      reads this
    {
      Port(regs, waiting)
    }

    method Write(msg: seq<byte>, x: Exchange)
      modifies this
      ensures (regs, coming) == Travel(own, old(regs), msg, x) && late == x.late && waiting == old(waiting)
    {
      var travelled := Travel(own, regs, msg, x);
      regs, coming, late := travelled.0, travelled.1, x.late;
    }

    // One read of the port; nothing to read in time is a timeout.
    method Read() returns (r: Option<seq<byte>>)
      modifies this`waiting, this`coming
      ensures coming == None
      ensures (waiting, r) ==
              if old(waiting) != [] then (old(waiting)[1..] + Came(old(coming)), Some(old(waiting)[0]))
              else if late then (Came(old(coming)), None)
              else ([], old(coming))
    {
      if |waiting| > 0 {
        r, waiting := Some(waiting[0]), waiting[1..] + Came(coming);
      } else if late {
        r, waiting := None, Came(coming);
      } else {
        r := coming;
      }
      coming := None;
    }
  }

  class Hm310t {
    const line: Line
    const devAddr: byte
    // Decimal point positions of volts, amperes and watts.
    var Ve: nat
    var Ie: nat
    var Pe: nat

    constructor (line: Line)
      ensures this.line == line && devAddr == 1
    {
      this.line, devAddr := line, 1;
      Ve, Ie, Pe := 0, 0, 0;
    }

    // Function 3: read one register.
    method Func3(addr: word, x: Exchange) returns (r: Result<word, ModbusError>)
      requires line.coming == None
      modifies line
      ensures line.coming == None
      ensures (line.View(), r) == ReadPort(devAddr, line.own, old(line.View()), addr, x)
    {
      hide Crc, Travel, Low, High;
      var fcode := 3;
      var msg := new byte[8](_ => 0);
      msg[0] := devAddr;
      msg[1] := fcode;
      msg[2] := High(addr);
      msg[3] := Low(addr);
      msg[5] := 1;
      assert msg[..6] == [devAddr, 3, High(addr), Low(addr), 0, 1];
      var crc := ModbusCrc(msg, 6);
      msg[6] := Low(crc);
      msg[7] := High(crc);
      assert msg[..] == msg[..6] + [Low(crc), High(crc)];
      line.Write(msg[..], x);
      var reply := line.Read();
      if reply.None? { return Err(ReadTimeout); }
      var res := reply.value;
      if |res| < 2 { return Err(ShortResponse); }
      var fc := res[1];
      if fc == 0x80 + fcode {
        if |res| != 5 { return Err(WrongErrorLength(|res|)); }
        return Err(ExceptionCode(res[2]));
      }
      if fc != fcode { return Err(UnknownFunction(fc)); }
      if |res| != 7 { return Err(UnexpectedLength); }
      if res[2] != 2 { return Err(UnexpectedCount); }
      r := Ok(Pair(res[3], res[4]));
    }

    // Function 6: write one register.
    method Func6(addr: word, val: word, x: Exchange) returns (r: Result<(), ModbusError>)
      requires line.coming == None
      modifies line
      ensures line.coming == None
      ensures (line.View(), r) == WritePort(devAddr, line.own, old(line.View()), addr, val, x)
    {
      hide Crc, Travel, Low, High;
      var fcode := 6;
      var msg := new byte[8](_ => 0);
      msg[0] := devAddr;
      msg[1] := fcode;
      msg[2] := High(addr);
      msg[3] := Low(addr);
      msg[4] := High(val);
      msg[5] := Low(val);
      assert msg[..6] == [devAddr, 6, High(addr), Low(addr), High(val), Low(val)];
      var crc := ModbusCrc(msg, 6);
      msg[6] := Low(crc);
      msg[7] := High(crc);
      assert msg[..] == msg[..6] + [Low(crc), High(crc)];
      line.Write(msg[..], x);
      var reply := line.Read();
      if reply.None? { return Err(ReadTimeout); }
      var res := reply.value;
      if |res| < 2 { return Err(ShortResponse); }
      var fc := res[1];
      if fc == 0x80 + fcode {
        if |res| != 5 { return Err(WrongErrorLength(|res|)); }
        return Err(ExceptionCode(res[2]));
      }
      if fc != fcode { return Err(UnknownFunction(fc)); }
      if res != msg[..] { return Err(UnexpectedResponse); }
      r := Ok(());
    }

    // Decimal positions are three nibbles of register 5; a failed read
    // leaves them as they are.
    method ReadDpt(x: Exchange) returns (r: Result<(), ModbusError>)
      requires line.coming == None
      modifies line, `Ve, `Ie, `Pe
      ensures line.coming == None
      ensures var (port, v) := ReadPort(devAddr, line.own, old(line.View()), 0x05, x);
              && line.View() == port
              && r.Ok? == v.Ok?
              && (v.Ok? ==> Ve < 16 && Ie < 16 && Pe < 16 && v.value % 0x1000 == 0x100 * Ve + 0x10 * Ie + Pe)
              && (v.Err? ==> r.error == v.error && Ve == old(Ve) && Ie == old(Ie) && Pe == old(Pe))
    {
      hide ReadPort;
      var dpt := Func3(0x05, x);
      if dpt.Err? { return Err(dpt.error); }
      Ve := (dpt.value / 0x100) % 0x10;
      Ie := (dpt.value / 0x10) % 0x10;
      Pe := dpt.value % 0x10;
      Nibbles(dpt.value);
      r := Ok(());
    }
  }

  // ---------------------------------------------------------------------
  // The slave's registers seen through the driver.

  lemma ByteHalves(v: word)
    ensures Pair(High(v), Low(v)) == v
  {}

  lemma ReadRequestFields(dev: byte, addr: word)
    ensures var f := ReadRequest(dev, addr);
            |f| == 8 && f[0] == dev && f[1] == 3 && Pair(f[2], f[3]) == addr && Pair(f[4], f[5]) == 1 && Crc(f) == 0
  {
    var body := [dev, 3, High(addr), Low(addr), 0, 1];
    FrameResidue(body);
    ByteHalves(addr);
    hide Crc, Low, High;
    assert Frame(body)[..6] == body;
  }

  lemma WriteRequestFields(dev: byte, addr: word, val: word)
    ensures var f := WriteRequest(dev, addr, val);
            |f| == 8 && f[0] == dev && f[1] == 6 && Pair(f[2], f[3]) == addr && Pair(f[4], f[5]) == val && Crc(f) == 0
    ensures Frame(WriteRequest(dev, addr, val)[..6]) == WriteRequest(dev, addr, val)
  {
    var body := [dev, 6, High(addr), Low(addr), High(val), Low(val)];
    FrameResidue(body);
    ByteHalves(addr);
    ByteHalves(val);
    hide Crc, Low, High;
    assert Frame(body)[..6] == body;
  }

  // The slave's answer to an intact read request.
  lemma ServeRead(dev: byte, regs: map<word, word>, addr: word)
    ensures Serve(dev, regs, None, ReadRequest(dev, addr)) ==
            (regs,
             if addr in regs then Some(Frame([dev, 3, 2, High(regs[addr]), Low(regs[addr])])) else Refuse(dev, 3, 2))
  {
    ReadRequestFields(dev, addr);
    hide Crc, Low, High, ReadRequest, Frame, Refuse;
    assert Data(regs, addr + 1, 0) == Some([]);
    if addr in regs {
      var halves := [High(regs[addr]), Low(regs[addr])];
      assert halves + [] == halves;
      assert Data(regs, addr, 1) == Some(halves);
      assert [dev, 3, 2] + [High(regs[addr]), Low(regs[addr])] == [dev, 3, 2, High(regs[addr]), Low(regs[addr])];
    }
  }

  lemma ServeFault(dev: byte, regs: map<word, word>, code: byte, f: seq<byte>)
    requires |f| == 8 && f[0] == dev && Crc(f) == 0
    ensures Serve(dev, regs, Some(code), f) == (regs, Refuse(dev, f[1], code))
  {}

  // The slave's answer to an intact write request: an echo, or exception 2.
  lemma ServeWrite(dev: byte, regs: map<word, word>, addr: word, val: word)
    ensures Serve(dev, regs, None, WriteRequest(dev, addr, val)) ==
            if addr in regs then (regs[addr := val], Some(WriteRequest(dev, addr, val))) else (regs, Refuse(dev, 6, 2))
  {
    WriteRequestFields(dev, addr, val);
    hide Crc, Low, High, WriteRequest, Frame, Refuse;
  }

  lemma Replies(dev: byte, val: word, sent: seq<byte>, code: byte)
    ensures ReadOutcome(Some(Frame([dev, 3, 2, High(val), Low(val)]))) == Ok(val)
    ensures ReadOutcome(Refuse(dev, 3, code)) == Err(ExceptionCode(code))
    ensures WriteOutcome(sent, Refuse(dev, 6, code)) == Err(ExceptionCode(code))
    ensures |sent| == 8 && sent[1] == 6 ==> WriteOutcome(sent, Some(sent)) == Ok(())
    ensures ReadOutcome(None) == Err(ReadTimeout) && WriteOutcome(sent, None) == Err(ReadTimeout)
  {
    ByteHalves(val);
    hide Crc, Low, High;
  }

  // The request gets to the slave, which serves it.
  predicate Reaches(regs: map<word, word>, addr: word, x: Exchange) {
    x.request.Intact? && x.fault.None? && addr in regs
  }

  // A request that does not arrive intact is not answered.
  lemma Unanswered(dev: byte, regs: map<word, word>, body: seq<byte>, x: Exchange)
    requires Delivers(Frame(body), x) && |body| <= 254 && !x.request.Intact?
    ensures Travel(dev, regs, Frame(body), x) == (regs, None)
  {
    hide Serve, Damaged, Frame;
    if x.request.Changed? {
      DamagedIsDropped(dev, regs, x.fault, body, x.request.bytes);
    }
  }

  // The frame of a value read is accepted by its second and third byte, and
  // gives the register's value exactly if the value's bytes are spared.
  lemma ChangedRead(b: seq<byte>, v: word)
    ensures ReadOutcome(Some(b)) == Ok(v) <==>
            |b| == 7 && b[1] == 3 && b[2] == 2 && b[3] == High(v) && b[4] == Low(v)
  {
    ByteHalves(v);
  }

  // The bytes of the two requests, address and value high byte first, and
  // the checksum low byte first.
  lemma RequestBytes(dev: byte, addr: word, val: word)
    ensures ReadRequest(dev, addr) ==
            [dev, 3, addr / 0x100, addr % 0x100, 0, 1] +
            [Crc([dev, 3, addr / 0x100, addr % 0x100, 0, 1]) % 0x100,
             Crc([dev, 3, addr / 0x100, addr % 0x100, 0, 1]) / 0x100]
    ensures WriteRequest(dev, addr, val) ==
            [dev, 6, addr / 0x100, addr % 0x100, val / 0x100, val % 0x100] +
            [Crc([dev, 6, addr / 0x100, addr % 0x100, val / 0x100, val % 0x100]) % 0x100,
             Crc([dev, 6, addr / 0x100, addr % 0x100, val / 0x100, val % 0x100]) / 0x100]
  {
    hide Crc;
  }

  // What every reply to a read request means, and when each error is given.
  lemma ReadMeaning(res: seq<byte>)
    ensures var r := ReadOutcome(Some(res));
            && (forall v: word :: r == Ok(v) <==>
                  |res| == 7 && res[1] == 3 && res[2] == 2 && res[3] == v / 0x100 && res[4] == v % 0x100)
            && (r == Err(ShortResponse) <==> |res| < 2)
            && (forall n :: r == Err(WrongErrorLength(n)) <==> |res| == n >= 2 && res[1] == 0x83 && n != 5)
            && (forall code: byte :: r == Err(ExceptionCode(code)) <==> |res| == 5 && res[1] == 0x83 && res[2] == code)
            && (forall fc: byte :: r == Err(UnknownFunction(fc)) <==>
                  |res| >= 2 && res[1] == fc && fc != 0x83 && fc != 3)
            && (r == Err(UnexpectedLength) <==> |res| >= 2 && |res| != 7 && res[1] == 3)
            && (r == Err(UnexpectedCount) <==> |res| == 7 && res[1] == 3 && res[2] != 2)
    ensures ReadOutcome(None) == Err(ReadTimeout)
  {}

  // The same for a write request: only its echo is a success.
  lemma WriteMeaning(dev: byte, addr: word, val: word, res: seq<byte>)
    ensures var sent := WriteRequest(dev, addr, val);
            var r := WriteOutcome(sent, Some(res));
            && (r == Ok(()) <==> res == sent)
            && (r == Err(ShortResponse) <==> |res| < 2)
            && (forall n :: r == Err(WrongErrorLength(n)) <==> |res| == n >= 2 && res[1] == 0x86 && n != 5)
            && (forall code: byte :: r == Err(ExceptionCode(code)) <==> |res| == 5 && res[1] == 0x86 && res[2] == code)
            && (forall fc: byte :: r == Err(UnknownFunction(fc)) <==>
                  |res| >= 2 && res[1] == fc && fc != 0x86 && fc != 6)
            && (r == Err(UnexpectedResponse) <==> |res| >= 2 && res[1] == 6 && res != sent)
    ensures WriteOutcome(WriteRequest(dev, addr, val), None) == Err(ReadTimeout)
  {
    WriteRequestFields(dev, addr, val);
    hide WriteRequest;
  }

  // A read never changes a register.  With an intact reply it yields a value
  // exactly when the request arrives intact, the slave raises no fault and
  // has the register, and then it is the register's value.  A lost reply is a
  // timeout; a changed one is believed as it stands.
  lemma ReadIsLookup(dev: byte, regs: map<word, word>, addr: word, x: Exchange)
    requires Delivers(ReadRequest(dev, addr), x)
    ensures var (regs', r) := ReadRegister(dev, dev, regs, addr, x);
            && regs' == regs
            && (!x.request.Intact? || x.reply.Lost? ==> r == Err(ReadTimeout))
            && (x.reply.Intact? ==> (r.Ok? <==> Reaches(regs, addr, x)) && (r.Ok? ==> r.value == regs[addr]))
            && (x.reply.Intact? && x.request.Intact? && x.fault.Some? ==> r == Err(ExceptionCode(x.fault.value)))
            && (x.reply.Changed? && x.request.Intact? ==> r == ReadOutcome(Some(x.reply.bytes)))
  {
    hide Travel, ReadOutcome, ReadReply, ReadRequest, Damaged;
    TravelRead(dev, regs, addr, x);
    ReadReplies(dev, regs, addr, x.fault);
  }

  // The slave's reply to an intact read request.
  function ReadReply(dev: byte, regs: map<word, word>, addr: word, fault: Option<byte>): seq<byte> {
    if fault.Some? then Refuse(dev, 3, fault.value).value
    else if addr in regs then Frame([dev, 3, 2, High(regs[addr]), Low(regs[addr])])
    else Refuse(dev, 3, 2).value
  }

  lemma TravelRead(dev: byte, regs: map<word, word>, addr: word, x: Exchange)
    requires Delivers(ReadRequest(dev, addr), x)
    ensures Travel(dev, regs, ReadRequest(dev, addr), x) ==
            (regs, if x.request.Intact? then x.reply.Through(ReadReply(dev, regs, addr, x.fault)) else None)
  {
    var body: seq<byte> := [dev, 3, High(addr), Low(addr), 0, 1];
    if x.request.Intact? {
      ServeReadAny(dev, regs, addr, x.fault);
      hide ReadRequest, Serve, ReadReply;
    } else {
      Unanswered(dev, regs, body, x);
      hide Crc, Low, High, Travel, Frame;
    }
  }

  lemma ServeReadAny(dev: byte, regs: map<word, word>, addr: word, fault: Option<byte>)
    ensures Serve(dev, regs, fault, ReadRequest(dev, addr)) == (regs, Some(ReadReply(dev, regs, addr, fault)))
  {
    ReadRequestFields(dev, addr);
    ServeRead(dev, regs, addr);
    hide Crc, Low, High, ReadRequest, Frame, Serve;
    if fault.Some? {
      ServeFault(dev, regs, fault.value, ReadRequest(dev, addr));
    }
  }

  lemma ReadReplies(dev: byte, regs: map<word, word>, addr: word, fault: Option<byte>)
    ensures ReadOutcome(None) == Err(ReadTimeout)
    ensures ReadOutcome(Some(ReadReply(dev, regs, addr, fault))) ==
            if fault.Some? then Err(ExceptionCode(fault.value))
            else if addr in regs then Ok(regs[addr])
            else Err(ExceptionCode(2))
  {
    Replies(dev, if addr in regs then regs[addr] else 0, [], if fault.Some? then fault.value else 2);
    hide ReadOutcome, Frame, Low, High;
  }

  // A write takes effect exactly when the request arrives intact, the slave
  // raises no fault and has the register: then this register, and no other,
  // takes the value.  The driver reports success exactly when the reply is
  // intact too; so a write that is reported as failed may have taken effect.
  lemma WriteIsUpdate(dev: byte, regs: map<word, word>, addr: word, val: word, x: Exchange)
    requires Delivers(WriteRequest(dev, addr, val), x)
    ensures var (regs', r) := WriteRegister(dev, dev, regs, addr, val, x);
            && regs' == (if Reaches(regs, addr, x) then regs[addr := val] else regs)
            && (r.Ok? <==> Reaches(regs, addr, x) && x.reply.Intact?)
            && (!x.request.Intact? || x.reply.Lost? ==> r == Err(ReadTimeout))
            && (x.reply.Intact? && x.request.Intact? && x.fault.Some? ==> r == Err(ExceptionCode(x.fault.value)))
  {
    hide Travel, WriteOutcome, WriteReply, WriteRequest, Damaged;
    TravelWrite(dev, regs, addr, val, x);
    WriteReplies(dev, regs, addr, val, x.fault);
    if x.reply.Changed? {
      OtherReply(WriteRequest(dev, addr, val), x.reply.bytes);
    }
  }

  // The slave's reply to an intact write request: its echo, or an exception.
  function WriteReply(dev: byte, regs: map<word, word>, addr: word, val: word, fault: Option<byte>): seq<byte> {
    if fault.Some? then Refuse(dev, 6, fault.value).value
    else if addr in regs then WriteRequest(dev, addr, val)
    else Refuse(dev, 6, 2).value
  }

  lemma TravelWrite(dev: byte, regs: map<word, word>, addr: word, val: word, x: Exchange)
    requires Delivers(WriteRequest(dev, addr, val), x)
    ensures Travel(dev, regs, WriteRequest(dev, addr, val), x) ==
            (if Reaches(regs, addr, x) then regs[addr := val] else regs,
             if x.request.Intact? then x.reply.Through(WriteReply(dev, regs, addr, val, x.fault)) else None)
  {
    var body: seq<byte> := [dev, 6, High(addr), Low(addr), High(val), Low(val)];
    if x.request.Intact? {
      ServeWriteAny(dev, regs, addr, val, x);
      hide WriteRequest, Serve, WriteReply;
    } else {
      Unanswered(dev, regs, body, x);
      hide Crc, Low, High, Travel, Frame;
    }
  }

  lemma ServeWriteAny(dev: byte, regs: map<word, word>, addr: word, val: word, x: Exchange)
    requires x.request.Intact?
    ensures Serve(dev, regs, x.fault, WriteRequest(dev, addr, val)) ==
            (if Reaches(regs, addr, x) then regs[addr := val] else regs,
             Some(WriteReply(dev, regs, addr, val, x.fault)))
  {
    WriteRequestFields(dev, addr, val);
    ServeWrite(dev, regs, addr, val);
    hide Crc, Low, High, WriteRequest, Frame, Serve;
    if x.fault.Some? {
      ServeFault(dev, regs, x.fault.value, WriteRequest(dev, addr, val));
    }
  }

  lemma WriteReplies(dev: byte, regs: map<word, word>, addr: word, val: word, fault: Option<byte>)
    ensures WriteOutcome(WriteRequest(dev, addr, val), None) == Err(ReadTimeout)
    ensures WriteOutcome(WriteRequest(dev, addr, val), Some(WriteReply(dev, regs, addr, val, fault))) ==
            if fault.Some? then Err(ExceptionCode(fault.value))
            else if addr in regs then Ok(())
            else Err(ExceptionCode(2))
  {
    WriteRequestFields(dev, addr, val);
    Replies(dev, 0, WriteRequest(dev, addr, val), if fault.Some? then fault.value else 2);
    hide WriteOutcome, Frame, Low, High, WriteRequest;
  }

  lemma OtherReply(sent: seq<byte>, res: seq<byte>)
    requires res != sent
    ensures WriteOutcome(sent, Some(res)).Err?
  {}

  // The echo is compared whole, so whatever the slave or the line did, a
  // successful write has seen a reply of residue 0.
  lemma WriteChecksReply(dev: byte, addr: word, val: word, reply: seq<byte>)
    requires WriteOutcome(WriteRequest(dev, addr, val), Some(reply)).Ok?
    ensures Crc(reply) == 0
  {
    WriteRequestFields(dev, addr, val);
    hide Crc, WriteRequest;
  }

  // The checksum of a read reply is not looked at: any two bytes will do.
  lemma ReadIgnoresChecksum(dev: byte, val: word, lo: byte, hi: byte)
    ensures ReadOutcome(Some([dev, 3, 2, High(val), Low(val), lo, hi])) == Ok(val)
    ensures Crc([dev, 3, 2, High(val), Low(val), lo, hi]) == 0 <==>
            [dev, 3, 2, High(val), Low(val), lo, hi] == Frame([dev, 3, 2, High(val), Low(val)])
  {
    var body := [dev, 3, 2, High(val), Low(val)];
    ByteHalves(val);
    ResidueIff(body, lo, hi);
    assert body + [lo, hi] == [dev, 3, 2, High(val), Low(val), lo, hi];
    hide Crc;
    var c := Crc(body);
    assert Frame(body)[5] == Low(c) && Frame(body)[6] == High(c);
  }

  // ---------------------------------------------------------------------
  // Whole runs.

  datatype Op =
    | ReadOp(addr: word, x: Exchange)
    | WriteOp(addr: word, val: word, x: Exchange)
  {
    function Request(dev: byte): seq<byte> {
      match this
      case ReadOp(addr, _) => ReadRequest(dev, addr)
      case WriteOp(addr, val, _) => WriteRequest(dev, addr, val)
    }
  }

  // The registers and the value read or written, if the operation succeeds.
  function Perform(dev: byte, regs: map<word, word>, op: Op): (map<word, word>, Result<word, ModbusError>) {
    match op
    case ReadOp(addr, x) => ReadRegister(dev, dev, regs, addr, x)
    case WriteOp(addr, val, x) =>
      var (regs', r) := WriteRegister(dev, dev, regs, addr, val, x);
      (regs', match r case Ok(_) => Ok(val) case Err(e) => Err(e))
  }

  function Registers(dev: byte, regs: map<word, word>, ops: seq<Op>): map<word, word> {
    if ops == [] then regs
    else Perform(dev, Registers(dev, regs, ops[..|ops| - 1]), ops[|ops| - 1]).0
  }

  // What operation number i of a run gives back to the driver's caller.
  function Outcome(dev: byte, regs: map<word, word>, ops: seq<Op>, i: nat): Result<word, ModbusError>
    requires i < |ops|
  {
    Perform(dev, Registers(dev, regs, ops[..i]), ops[i]).1
  }

  // The value last written with success to an address before operation i,
  // or the initial one.  Only the callers' view of the run is consulted.
  function LastWritten(dev: byte, regs: map<word, word>, ops: seq<Op>, i: nat, addr: word): word
    requires i <= |ops| && addr in regs
  {
    if i == 0 then regs[addr]
    else if ops[i - 1].WriteOp? && ops[i - 1].addr == addr && Outcome(dev, regs, ops, i - 1).Ok? then ops[i - 1].val
    else LastWritten(dev, regs, ops, i - 1, addr)
  }

  // This value, and those of the later writes that failed.
  function Candidates(dev: byte, regs: map<word, word>, ops: seq<Op>, i: nat, addr: word): set<word>
    requires i <= |ops| && addr in regs
  {
    if i == 0 then {regs[addr]}
    else if ops[i - 1].WriteOp? && ops[i - 1].addr == addr then
      if Outcome(dev, regs, ops, i - 1).Ok? then {ops[i - 1].val}
      else Candidates(dev, regs, ops, i - 1, addr) + {ops[i - 1].val}
    else Candidates(dev, regs, ops, i - 1, addr)
  }

  // A write that takes effect although its caller is told that it failed.
  predicate Unreported(regs: map<word, word>, op: Op) {
    op.WriteOp? && Reaches(regs, op.addr, op.x) && !op.x.reply.Intact?
  }

  ghost predicate AllDelivered(dev: byte, ops: seq<Op>) {
    forall j :: 0 <= j < |ops| ==> Delivers(ops[j].Request(dev), ops[j].x)
  }

  // One operation of a run: what it does to the registers, and what its
  // caller is told.
  lemma PerformOne(dev: byte, regs: map<word, word>, op: Op)
    requires Delivers(op.Request(dev), op.x)
    ensures var (regs', r) := Perform(dev, regs, op);
            && regs' == (if op.WriteOp? && Reaches(regs, op.addr, op.x) then regs[op.addr := op.val] else regs)
            && (op.WriteOp? || !op.x.reply.Changed? ==> (r.Ok? <==> Reaches(regs, op.addr, op.x) && op.x.reply.Intact?))
            && (op.ReadOp? && op.x.reply.Intact? && r.Ok? ==> r.value == regs[op.addr])
  {
    hide ReadRegister, WriteRegister, Delivers;
    match op
    case ReadOp(addr, x) => ReadIsLookup(dev, regs, addr, x);
    case WriteOp(addr, val, x) => WriteIsUpdate(dev, regs, addr, val, x);
  }

  lemma RegistersNext(dev: byte, regs: map<word, word>, ops: seq<Op>, i: nat)
    requires 0 < i <= |ops|
    ensures Registers(dev, regs, ops[..i]) == Perform(dev, Registers(dev, regs, ops[..i - 1]), ops[i - 1]).0
    ensures Outcome(dev, regs, ops, i - 1) == Perform(dev, Registers(dev, regs, ops[..i - 1]), ops[i - 1]).1
  {
    assert ops[..i][..i - 1] == ops[..i - 1];
  }

  // After any run every register holds the value last written to it with
  // success, or that of a later write that was reported as failed.
  lemma {:induction false} RegistersAreCandidates(dev: byte, regs: map<word, word>, ops: seq<Op>, i: nat)
    requires i <= |ops| && AllDelivered(dev, ops)
    ensures Registers(dev, regs, ops[..i]).Keys == regs.Keys
    ensures forall addr :: addr in regs ==>
              Registers(dev, regs, ops[..i])[addr] in Candidates(dev, regs, ops, i, addr)
  {
    if i > 0 {
      RegistersAreCandidates(dev, regs, ops, i - 1);
      RegistersNext(dev, regs, ops, i);
      PerformOne(dev, Registers(dev, regs, ops[..i - 1]), ops[i - 1]);
      hide Perform, Registers, Outcome;
    }
  }

  // The registers are the values last written with success.
  ghost predicate Settled(dev: byte, regs: map<word, word>, ops: seq<Op>, i: nat)
    requires i <= |ops|
  {
    forall addr :: addr in regs ==>
      addr in Registers(dev, regs, ops[..i]) &&
      Registers(dev, regs, ops[..i])[addr] == LastWritten(dev, regs, ops, i, addr)
  }

  // From one operation to the next they stay so, unless a write that is
  // reported as failed brings in another value.
  lemma SettledNext(dev: byte, regs: map<word, word>, ops: seq<Op>, i: nat)
    requires i < |ops| && AllDelivered(dev, ops) && Settled(dev, regs, ops, i)
    ensures Settled(dev, regs, ops, i + 1) <==>
            (Unreported(regs, ops[i]) ==> ops[i].val == LastWritten(dev, regs, ops, i, ops[i].addr))
  {
    RegistersAreCandidates(dev, regs, ops, i);
    RegistersNext(dev, regs, ops, i + 1);
    var now, op := Registers(dev, regs, ops[..i]), ops[i];
    PerformOne(dev, now, op);
    assert Reaches(now, op.addr, op.x) <==> Reaches(regs, op.addr, op.x);
    hide Perform, Registers, Outcome, Reaches, AllDelivered;
    if Unreported(regs, op) && op.addr in regs {
      assert LastWritten(dev, regs, ops, i + 1, op.addr) == LastWritten(dev, regs, ops, i, op.addr);
      assert Registers(dev, regs, ops[..i + 1])[op.addr] == op.val;
    }
  }

  // Throughout a run the registers are the values last written with success
  // exactly when every write that takes effect and is reported as failed
  // writes the value that was there.
  lemma {:induction false} RegistersAreLastWritten(dev: byte, regs: map<word, word>, ops: seq<Op>, n: nat)
    requires n <= |ops| && AllDelivered(dev, ops)
    ensures (forall i :: 0 <= i <= n ==> Settled(dev, regs, ops, i)) <==>
            (forall i :: 0 <= i < n && Unreported(regs, ops[i]) ==>
               ops[i].val == LastWritten(dev, regs, ops, i, ops[i].addr))
  {
    hide Registers, Reaches, AllDelivered;
    if n == 0 {
      assert ops[..0] == [];
      assert Settled(dev, regs, ops, 0) by { RegistersNone(dev, regs); }
    } else {
      RegistersAreLastWritten(dev, regs, ops, n - 1);
      if Settled(dev, regs, ops, n - 1) {
        SettledNext(dev, regs, ops, n - 1);
      }
      hide Settled, LastWritten, Unreported;
    }
  }

  lemma RegistersNone(dev: byte, regs: map<word, word>)
    ensures Registers(dev, regs, []) == regs
  {}

  // A run of reads and writes as its callers see it.  A write succeeds
  // exactly when it reaches the slave and its reply comes back intact, and so
  // does a read whose reply is not changed on the way.  The value such a read
  // gives is that of the last successful write to its address, or of a later
  // write that was reported as failed; never anything else, and nothing when
  // the slave raises an exception.
  lemma RegisterFile(dev: byte, regs: map<word, word>, ops: seq<Op>, i: nat)
    requires i < |ops| && AllDelivered(dev, ops)
    ensures var r, op := Outcome(dev, regs, ops, i), ops[i];
            && (op.WriteOp? || !op.x.reply.Changed? ==>
                  (r.Ok? <==> Reaches(regs, op.addr, op.x) && op.x.reply.Intact?))
            && (op.ReadOp? && op.x.reply.Intact? && r.Ok? ==>
                  r.value in Candidates(dev, regs, ops, i, op.addr))
            && (op.ReadOp? && op.x.reply.Intact? && r.Ok? && Settled(dev, regs, ops, i) ==>
                  r.value == LastWritten(dev, regs, ops, i, op.addr))
  {
    RegistersAreCandidates(dev, regs, ops, i);
    RegistersNext(dev, regs, ops, i + 1);
    var now := Registers(dev, regs, ops[..i]);
    PerformOne(dev, now, ops[i]);
    hide Perform, Registers, Outcome, AllDelivered, LastWritten, Candidates;
  }

  // When the echo of a write is lost, the caller is told that the write
  // failed, and the next read gives its value.
  lemma LostEcho(dev: byte, regs: map<word, word>, addr: word, val: word)
    requires addr in regs
    ensures var ops := [WriteOp(addr, val, Exchange(Intact, None, Lost, false)),
                        ReadOp(addr, Exchange(Intact, None, Intact, false))];
            && AllDelivered(dev, ops)
            && Outcome(dev, regs, ops, 0) == Err(ReadTimeout)
            && Outcome(dev, regs, ops, 1) == Ok(val)
            && LastWritten(dev, regs, ops, 1, addr) == regs[addr]
  {
    var bad, good := Exchange(Intact, None, Lost, false), Exchange(Intact, None, Intact, false);
    var ops := [WriteOp(addr, val, bad), ReadOp(addr, good)];
    assert ops[..0] == [];
    RegistersNone(dev, regs);
    RegistersNext(dev, regs, ops, 1);
    RegistersNext(dev, regs, ops, 2);
    EchoLost(dev, regs, addr, val, bad);
    PerformOne(dev, regs[addr := val], ops[1]);
    hide Perform, Registers, Outcome, Damaged;
  }

  lemma EchoLost(dev: byte, regs: map<word, word>, addr: word, val: word, x: Exchange)
    requires addr in regs && x.request.Intact? && x.fault.None? && x.reply.Lost?
    ensures Perform(dev, regs, WriteOp(addr, val, x)) == (regs[addr := val], Err(ReadTimeout))
  {
    WriteIsUpdate(dev, regs, addr, val, x);
    hide WriteRegister, WriteRequest, Damaged;
  }
}
