/** The Device class of server/device.h and server/device.cpp: mutable users,
    lock, driver and log buffers, tied to the functions of DeviceModel. */
module Devices {
  import opened Connections
  import opened Results
  import opened DeviceModel

  // An open driver; what it is sent is recorded in order.
  class Driver {
    ghost var received: seq<(Conn, string)>

    constructor ()
      ensures received == []
    {
      received := [];
    }

    method Ask(ghost conn: Conn, msg: string, reply: Result<string, string>) returns (r: Result<string, string>)
      modifies this
      ensures r == reply && received == old(received) + [(conn, msg)]
    {
      received := received + [(conn, msg)];
      r := reply;
    }
  }

  class Device {
    const devName: string
    const drvName: string
    const drvArgs: map<string, string>

    var drv: Driver?
    var users: set<Conn>
    var locked: bool
    var logBufs: map<Conn, seq<string>>
    const maxLogSize: nat := MAX_LOG_SIZE

    // Messages that reached the driver, over all its openings.
    ghost var sent: seq<(Conn, string)>
    // Openings and closings of a driver.
    ghost var openings: nat
    ghost var closings: nat

    ghost function View(): State
      reads this
    {
      State(users, locked, drv != null, logBufs)
    }

    ghost predicate Valid()
      reads this
    {
      && Inv(View())
      && openings == closings + (if drv != null then 1 else 0)
    }

    ghost function Repr(): set<object>
      reads this
    {
      {this} + (if drv != null then {drv} else {})
    }

    constructor (devName: string, drvName: string, drvArgs: map<string, string>)
      ensures Valid() && View() == FRESH && sent == []
      ensures this.devName == devName && this.drvName == drvName && this.drvArgs == drvArgs
    {
      this.devName, this.drvName, this.drvArgs := devName, drvName, drvArgs;
      drv, users, locked, logBufs := null, {}, false, map[];
      sent, openings, closings := [], 0, 0;
    }

    method Use(conn: Conn, opening: Option<string>) returns (r: Answer)
      requires Valid()
      modifies this
      ensures Valid() && fresh(Repr() - old(Repr()))
      ensures Step(View(), r, []) == UseStep(old(View()), conn, opening) && sent == old(sent)
      ensures closings == old(closings) && (old(drv) != null ==> drv == old(drv))
    {
      NextKeepsInv(View(), DeviceModel.Use(conn, opening));
      if conn in users { return Ok(""); }
      if locked { return Err(DeviceLocked); }
      if drv == null {
        if opening.Some? { return Err(OpenFailed(opening.value)); }
        drv := new Driver();
        openings := openings + 1;
      }
      users := users + {conn};
      r := Ok("");
    }

    method Release(conn: Conn)
      requires Valid()
      modifies this
      ensures Valid()
      ensures View() == ReleaseStep(old(View()), conn).state
      ensures drv == old(drv) && sent == old(sent) && openings == old(openings) && closings == old(closings)
    {
      NextKeepsInv(View(), DeviceModel.Release(conn));
      if conn in logBufs {
        logBufs := logBufs - {conn};
      }
      assert logBufs == old(logBufs) - {conn};
      if conn !in users { return; }
      if locked { locked := false; }
      users := users - {conn};
    }

    method Close()
      requires Valid()
      modifies this
      ensures Valid() && View() == FRESH && drv == null
      ensures sent == old(sent) && openings == old(openings)
      ensures closings == old(closings) + (if old(drv) != null then 1 else 0)
    {
      logBufs := map[];
      users := {};
      if locked { locked := false; }
      if drv != null {
        closings := closings + 1;
      }
      drv := null;
    }

    method Lock(conn: Conn, opening: Option<string>) returns (r: Answer)
      requires Valid()
      modifies this
      ensures Valid() && fresh(Repr() - old(Repr()))
      ensures Step(View(), r, []) == LockStep(old(View()), conn, opening) && sent == old(sent)
      ensures closings == old(closings) && (old(drv) != null ==> drv == old(drv))
    {
      NextKeepsInv(View(), DeviceModel.Lock(conn, opening));
      if conn !in users {
        r := Use(conn, opening);
        if r.Err? { return; }
      }
      if |users| != 1 { return Err(DeviceInUse); }
      locked := true;
      r := Ok("");
    }

    method Unlock(conn: Conn) returns (r: Answer)
      requires Valid()
      modifies this`locked
      ensures Valid()
      ensures Step(View(), r, []) == UnlockStep(old(View()), conn)
    {
      if !locked { return Ok(""); }
      if conn !in users { return Err(LockedByAnother); }
      locked := false;
      r := Ok("");
    }

    method LogStart(conn: Conn)
      requires Valid()
      modifies this`logBufs
      ensures Valid()
      ensures View() == Next(old(View()), DeviceModel.LogStart(conn)).state
    {
      logBufs := logBufs[conn := []];
    }

    method LogFinish(conn: Conn)
      requires Valid()
      modifies this`logBufs
      ensures Valid()
      ensures View() == Next(old(View()), DeviceModel.LogFinish(conn)).state
    {
      logBufs := logBufs - {conn};
    }

    // Empties the buffer from the front, joining its lines.
    method LogGet(conn: Conn) returns (r: Answer)
      requires Valid()
      modifies this`logBufs
      ensures Valid()
      ensures Step(View(), r, []) == Next(old(View()), DeviceModel.LogGet(conn))
    {
      if conn !in logBufs { return Err(LoggingOff); }
      var ret := "";
      while |logBufs[conn]| > 0
        invariant conn in logBufs && logBufs == old(logBufs)[conn := logBufs[conn]]
        invariant |logBufs[conn]| <= |old(logBufs)[conn]|
        invariant ret + Concat(logBufs[conn]) == Concat(old(logBufs)[conn])
        decreases |logBufs[conn]|
      {
        ret := ret + logBufs[conn][0];
        logBufs := logBufs[conn := logBufs[conn][1..]];
      }
      assert ret + "" == ret;
      r := Ok(ret);
    }

    // Drops old entries from the front.
    method Limit(q: seq<string>) returns (b: seq<string>)
      ensures b == LastN(q, MAX_LOG_SIZE)
    {
      b := q;
      while |b| > maxLogSize
        invariant |LastN(q, MAX_LOG_SIZE)| <= |b| <= |q| && b == q[|q| - |b|..]
        decreases |b|
      {
        b := b[1..];
      }
    }

    // Appends an entry to every buffer and drops old entries beyond the limit.
    method LogMessage(pref: string, msg: string)
      modifies this`logBufs
      ensures logBufs == Logged(old(logBufs), pref + msg + "\n")
    {
      if |logBufs| == 0 { return; }
      var s := pref + msg + "\n";
      ghost var was, target := logBufs, Logged(logBufs, s);
      var todo := logBufs.Keys;
      assert forall c :: c in was ==> target[c] == LastN(was[c] + [s], MAX_LOG_SIZE);
      hide Logged;
      while todo != {}
        invariant todo <= was.Keys && logBufs.Keys == was.Keys
        invariant forall c :: c in todo ==> logBufs[c] == was[c]
        invariant forall c :: c in was && c !in todo ==> logBufs[c] == target[c]
        decreases todo
      {
        var c :| c in todo;
        var b := Limit(logBufs[c] + [s]);
        logBufs := logBufs[c := b];
        todo := todo - {c};
      }
    }

    // The section under the command lock: one message to the driver, logged.
    method Exchange(conn: Conn, msg: string, reply: Result<string, string>) returns (r: Answer)
      requires drv != null
      modifies `logBufs, `sent, drv
      ensures logBufs == Logged(Logged(old(logBufs), SentEntry(msg)), ReplyEntry(reply))
      ensures r == match reply case Ok(text) => Ok(text) case Err(text) => Err(DriverFailed(text))
      ensures sent == old(sent) + [(conn, msg)] && drv.received == old(drv.received) + [(conn, msg)]
    {
      hide Logged;
      LoggedEntries(logBufs, msg, reply);
      sent := sent + [(conn, msg)];
      var ans: Result<string, string>;
      if |logBufs| == 0 {
        ans := drv.Ask(conn, msg, reply);
      } else {
        LogMessage(">> ", msg);
        ans := drv.Ask(conn, msg, reply);
        match ans
        case Ok(text) => LogMessage("<< ", text);
        case Err(text) => LogMessage("EE ", text);
      }
      match ans
      case Ok(text) => r := Ok(text);
      case Err(text) => r := Err(DriverFailed(text));
    }

    method Ask(conn: Conn, msg: string, opening: Option<string>, reply: Result<string, string>) returns (r: Answer)
      requires Valid()
      modifies this, Repr()
      ensures Valid() && fresh(Repr() - old(Repr()))
      ensures var step := AskStep(old(View()), conn, msg, opening, reply);
              && View() == step.state && r == step.answer && sent == old(sent) + step.sent
              && (drv != null && drv == old(drv) ==> drv.received == old(drv.received) + step.sent)
      ensures closings == old(closings) && (old(drv) != null ==> drv == old(drv))
    {
      hide Logged, SentEntry, ReplyEntry;
      ghost var used := UseStep(View(), conn, opening);
      if conn !in users {
        r := Use(conn, opening);
        if r.Err? { return; }
      }
      assert View() == used.state && used.answer.Ok?;
      assert conn in users;
      hide UseStep, Inv;
      r := Exchange(conn, msg, reply);
      LoggingKeepsInv(used.state, msg, reply);
    }
  }

  lemma LoggingKeepsInv(s: State, msg: string, reply: Result<string, string>)
    requires Inv(s)
    ensures Inv(s.(logs := Logged(Logged(s.logs, SentEntry(msg)), ReplyEntry(reply))))
  {}

  lemma LoggedEntries(logs: map<Conn, seq<string>>, msg: string, reply: Result<string, string>)
    ensures SentEntry(msg) == ">> " + msg + "\n"
    ensures ReplyEntry(reply) == (if reply.Ok? then "<< " + reply.value else "EE " + reply.error) + "\n"
    ensures |logs| == 0 ==> logs == Logged(Logged(logs, SentEntry(msg)), ReplyEntry(reply))
  {}
}
