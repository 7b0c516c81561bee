/** Runs of Modbus requests over a serial port in which replies may wait: a
    reply that comes after its timeout is the next thing read
    (server/drv_serial_hm310t.cpp, server/drv_serial.cpp:384-401).  A reply of
    function 3 does not name its register, so the driver cannot tell. */
module ModbusPort {
  import opened Results
  import opened CrcRegister
  import opened Modbus

  function PerformAt(dev: byte, p: Port, op: Op): (Port, Result<word, ModbusError>) {
    match op
    case ReadOp(addr, x) => ReadPort(dev, dev, p, addr, x)
    case WriteOp(addr, val, x) =>
      var (p', r) := WritePort(dev, dev, p, addr, val, x);
      (p', match r case Ok(_) => Ok(val) case Err(e) => Err(e))
  }

  function PortAfter(dev: byte, p: Port, ops: seq<Op>): Port {
    if ops == [] then p else PerformAt(dev, PortAfter(dev, p, ops[..|ops| - 1]), ops[|ops| - 1]).0
  }

  // What operation number i of a run gives back to the driver's caller.
  function PortOutcome(dev: byte, p: Port, ops: seq<Op>, i: nat): Result<word, ModbusError>
    requires i < |ops|
  {
    PerformAt(dev, PortAfter(dev, p, ops[..i]), ops[i]).1
  }

  // The reply that an operation brings about, in time or not.
  function ReplyTo(dev: byte, regs: map<word, word>, op: Op): Option<seq<byte>> {
    Travel(dev, regs, op.Request(dev), op.x).1
  }

  // One operation: the registers change as without a port, and the reply that
  // is read is the oldest.
  lemma PerformAtOne(dev: byte, p: Port, op: Op)
    ensures var (p', r) := PerformAt(dev, p, op);
            && p'.regs == Perform(dev, p.regs, op).0
            && (p.waiting == [] && (op.x.late ==> ReplyTo(dev, p.regs, op) == None) ==>
                  p'.waiting == [] && r == Perform(dev, p.regs, op).1)
            && (p.waiting == [] && op.x.late ==> p'.waiting == Came(ReplyTo(dev, p.regs, op)) && r == Err(ReadTimeout))
            && (p.waiting != [] ==> p'.waiting == p.waiting[1..] + Came(ReplyTo(dev, p.regs, op)))
  {
    hide Travel, ReadRequest, WriteRequest;
  }

  lemma PortNext(dev: byte, p: Port, ops: seq<Op>, i: nat)
    requires i < |ops|
    ensures PortAfter(dev, p, ops[..i + 1]) == PerformAt(dev, PortAfter(dev, p, ops[..i]), ops[i]).0
    ensures PortOutcome(dev, p, ops, i) == PerformAt(dev, PortAfter(dev, p, ops[..i]), ops[i]).1
  {
    hide PerformAt;
    assert ops[..i + 1][..i] == ops[..i];
  }

  // Waiting replies make no difference to the slave.
  lemma {:induction false} PortRegisters(dev: byte, p: Port, ops: seq<Op>, i: nat)
    requires i <= |ops|
    ensures PortAfter(dev, p, ops[..i]).regs == Registers(dev, p.regs, ops[..i])
  {
    if i == 0 {
      assert ops[..0] == [];
    } else {
      PortRegisters(dev, p, ops, i - 1);
      PortNext(dev, p, ops, i - 1);
      RegistersNext(dev, p.regs, ops, i);
      PerformAtOne(dev, PortAfter(dev, p, ops[..i - 1]), ops[i - 1]);
      hide PerformAt, Perform, PortAfter, Registers;
    }
  }

  // The reply to operation i comes late, and will wait.
  predicate LateReply(dev: byte, regs: map<word, word>, ops: seq<Op>, i: nat)
    requires i < |ops|
  {
    ops[i].x.late && ReplyTo(dev, Registers(dev, regs, ops[..i]), ops[i]).Some?
  }

  // Nothing waits before operation i of a run that starts with an empty port.
  predicate Empty(dev: byte, regs: map<word, word>, ops: seq<Op>, i: nat)
    requires i <= |ops|
  {
    PortAfter(dev, Port(regs, []), ops[..i]).waiting == []
  }

  ghost predicate NoLateReply(dev: byte, regs: map<word, word>, ops: seq<Op>, n: nat)
    requires n <= |ops|
  {
    forall i :: 0 <= i < n ==> !LateReply(dev, regs, ops, i)
  }

  ghost predicate EmptyThroughout(dev: byte, regs: map<word, word>, ops: seq<Op>, n: nat)
    requires n <= |ops|
  {
    forall i :: 0 <= i <= n ==> Empty(dev, regs, ops, i)
  }

  // The port is empty throughout a run that starts with an empty port exactly
  // if no reply of the run comes late.
  lemma {:induction false} EmptyIff(dev: byte, regs: map<word, word>, ops: seq<Op>, n: nat)
    requires n <= |ops|
    ensures EmptyThroughout(dev, regs, ops, n) <==> NoLateReply(dev, regs, ops, n)
  {
    hide Empty, LateReply;
    if n == 0 {
      EmptyAtStart(dev, regs, ops);
    } else {
      EmptyIff(dev, regs, ops, n - 1);
      if Empty(dev, regs, ops, n - 1) {
        EmptyNext(dev, regs, ops, n - 1);
      }
    }
  }

  lemma EmptyAtStart(dev: byte, regs: map<word, word>, ops: seq<Op>)
    ensures Empty(dev, regs, ops, 0)
  {
    hide PerformAt;
    assert ops[..0] == [];
  }

  lemma EmptyNext(dev: byte, regs: map<word, word>, ops: seq<Op>, i: nat)
    requires i < |ops| && Empty(dev, regs, ops, i)
    ensures Empty(dev, regs, ops, i + 1) <==> !LateReply(dev, regs, ops, i)
  {
    var p := Port(regs, []);
    PortNext(dev, p, ops, i);
    PortRegisters(dev, p, ops, i);
    PerformAtOne(dev, PortAfter(dev, p, ops[..i]), ops[i]);
    hide PerformAt, Perform, PortAfter, Registers, ReplyTo;
  }

  // Then every operation gives what it gives without a port, so that
  // RegisterFile holds of it.
  lemma OnTime(dev: byte, regs: map<word, word>, ops: seq<Op>, i: nat)
    requires i < |ops| && NoLateReply(dev, regs, ops, i + 1)
    ensures PortOutcome(dev, Port(regs, []), ops, i) == Outcome(dev, regs, ops, i)
  {
    var p := Port(regs, []);
    assert NoLateReply(dev, regs, ops, i) && !LateReply(dev, regs, ops, i);
    EmptyIff(dev, regs, ops, i);
    assert Empty(dev, regs, ops, i);
    PortNext(dev, p, ops, i);
    PortRegisters(dev, p, ops, i);
    RegistersNext(dev, regs, ops, i + 1);
    PerformAtOne(dev, PortAfter(dev, p, ops[..i]), ops[i]);
    hide PerformAt, Perform, PortAfter, Registers, ReplyTo, NoLateReply, EmptyThroughout;
  }

  lemma PortRegisterFile(dev: byte, regs: map<word, word>, ops: seq<Op>, i: nat)
    requires i < |ops| && AllDelivered(dev, ops) && NoLateReply(dev, regs, ops, i + 1)
    ensures var r, op := PortOutcome(dev, Port(regs, []), ops, i), ops[i];
            && (op.WriteOp? || !op.x.reply.Changed? ==>
                  (r.Ok? <==> Reaches(regs, op.addr, op.x) && op.x.reply.Intact?))
            && (op.ReadOp? && op.x.reply.Intact? && r.Ok? ==>
                  r.value in Candidates(dev, regs, ops, i, op.addr))
            && (op.ReadOp? && op.x.reply.Intact? && r.Ok? && Settled(dev, regs, ops, i) ==>
                  r.value == LastWritten(dev, regs, ops, i, op.addr))
  {
    OnTime(dev, regs, ops, i);
    RegisterFile(dev, regs, ops, i);
    hide *;
  }

  // ---------------------------------------------------------------------
  // When a reply waits.

  // A read that the slave serves is right exactly if nothing waits and its
  // reply comes in time, or the reply that waits happens to say the same.
  lemma ReadRightIff(dev: byte, p: Port, addr: word, x: Exchange)
    requires Delivers(ReadRequest(dev, addr), x) && Reaches(p.regs, addr, x) && x.reply.Intact?
    ensures ReadPort(dev, dev, p, addr, x).1 == Ok(p.regs[addr]) <==>
            if p.waiting == [] then !x.late
            else
              var b, v := p.waiting[0], p.regs[addr];
              |b| == 7 && b[1] == 3 && b[2] == 2 && b[3] == High(v) && b[4] == Low(v)
  {
    ReadIsLookup(dev, p.regs, addr, x);
    if p.waiting != [] {
      ChangedRead(p.waiting[0], p.regs[addr]);
    }
    hide Travel, ReadOutcome, Low, High, ReadRequest, Delivers;
    assert ReadOutcome(None) == Err(ReadTimeout) by { ReadNothing(); }
  }

  lemma ReadNothing()
    ensures ReadOutcome(None) == Err(ReadTimeout)
  {}

  // A write is reported as successful exactly if nothing waits and it is
  // served with an intact reply in time, or an old echo of the same write
  // waits.
  lemma WriteReportIff(dev: byte, p: Port, addr: word, val: word, x: Exchange)
    requires Delivers(WriteRequest(dev, addr, val), x)
    ensures WritePort(dev, dev, p, addr, val, x).1.Ok? <==>
            if p.waiting == [] then !x.late && Reaches(p.regs, addr, x) && x.reply.Intact?
            else p.waiting[0] == WriteRequest(dev, addr, val)
  {
    WriteIsUpdate(dev, p.regs, addr, val, x);
    WriteRequestFields(dev, addr, val);
    hide Travel, Low, High, WriteRequest, Delivers, Reaches;
  }

  // The slave serves the operation, and its reply comes back.
  predicate Served(regs: map<word, word>, op: Op) { Reaches(regs, op.addr, op.x) && op.x.reply.Intact? }

  lemma ServedReply(dev: byte, regs: map<word, word>, op: Op)
    requires Delivers(op.Request(dev), op.x) && Served(regs, op)
    ensures op.ReadOp? ==> ReplyTo(dev, regs, op) == Some(Frame([dev, 3, 2, High(regs[op.addr]), Low(regs[op.addr])]))
    ensures op.WriteOp? ==> ReplyTo(dev, regs, op) == Some(op.Request(dev))
  {
    match op
    case ReadOp(addr, x) =>
      TravelRead(dev, regs, addr, x);
      hide Frame, Travel, Low, High, ReadRequest, Delivers;
    case WriteOp(addr, val, x) =>
      TravelWrite(dev, regs, addr, val, x);
      hide Travel, Low, High, WriteRequest, Delivers;
  }

  // Once one reply waits, it goes on: as long as the slave serves every
  // request there is always exactly one, that of the operation before.
  lemma {:induction false} AlwaysOneBehind(dev: byte, p: Port, ops: seq<Op>, i: nat)
    requires 0 < i <= |ops| && |p.waiting| == 1 && AllDelivered(dev, ops)
    requires forall j :: 0 <= j < i ==> Served(p.regs, ops[j])
    ensures var was := Registers(dev, p.regs, ops[..i - 1]);
            && was.Keys == p.regs.Keys
            && ReplyTo(dev, was, ops[i - 1]).Some?
            && PortAfter(dev, p, ops[..i]).waiting == [ReplyTo(dev, was, ops[i - 1]).value]
  {
    var was := Registers(dev, p.regs, ops[..i - 1]);
    if i == 1 {
      assert ops[..0] == [];
    } else {
      AlwaysOneBehind(dev, p, ops, i - 1);
    }
    RegistersAreCandidates(dev, p.regs, ops, i - 1);
    PortNext(dev, p, ops, i - 1);
    PortRegisters(dev, p, ops, i - 1);
    assert Served(was, ops[i - 1]);
    ServedReply(dev, was, ops[i - 1]);
    var now := PortAfter(dev, p, ops[..i - 1]);
    PerformAtOne(dev, now, ops[i - 1]);
    hide PerformAt, Perform, PortAfter, Registers, ReplyTo, Frame, AllDelivered, Served;
    assert |now.waiting| == 1 && now.waiting[1..] == [];
  }

  // So a read after a read gives the value of the register that was read
  // before.
  lemma StaleRead(dev: byte, p: Port, ops: seq<Op>, i: nat)
    requires 0 < i < |ops| && |p.waiting| == 1 && AllDelivered(dev, ops)
    requires forall j :: 0 <= j < i ==> Served(p.regs, ops[j])
    requires ops[i - 1].ReadOp? && ops[i].ReadOp?
    ensures ops[i - 1].addr in Registers(dev, p.regs, ops[..i - 1])
    ensures PortOutcome(dev, p, ops, i) == Ok(Registers(dev, p.regs, ops[..i - 1])[ops[i - 1].addr])
  {
    var was := Registers(dev, p.regs, ops[..i - 1]);
    AlwaysOneBehind(dev, p, ops, i);
    assert ops[i - 1].addr in was;
    assert Served(was, ops[i - 1]);
    ServedReply(dev, was, ops[i - 1]);
    Replies(dev, was[ops[i - 1].addr], [], 0);
    PortNext(dev, p, ops, i);
    hide Travel, Registers, PortAfter, ReplyTo, Frame, Low, High, ReadOutcome, ReadRequest, AllDelivered, Served;
  }
}
