/** What the unprotected tests of use are worth (server/device.cpp:33-35): a
    late user has passed them while the device was not locked, and a connection
    that comes to a locked device does not get in. */
module ThreadTests {
  import opened Connections
  import opened Results
  import opened Threads
  import opened ThreadLocks

  // ---------------------------------------------------------------------
  // The window.

  // Between the test of locked and the insertion.
  predicate PastTest(pc: Pc) { pc == WaitData(Open) || pc == InData(Open) || pc == InData(Insert) }

  // Instruction of c at which it finds the device not locked.
  predicate FindsUnlocked(s: Sys, e: Event, c: Conn) {
    e.Advance? && e.conn == c && PcOf(s, c) == UseTestLocked && !s.locked
  }

  // Instructions of others, and events that are no instructions.
  lemma OtherPc(s: Sys, e: Event, c: Conn)
    requires !(e.Advance? && e.conn == c)
    ensures PastTest(PcOf(Happen(s, e), c)) ==> PastTest(PcOf(s, c))
  {
    if e.Advance? {
      AdvanceHappens(s, e.conn, e.ok);
      if e.conn in s.threads && Instruction(s, e.conn, e.ok).Some? {
        InstructionPc(s, e.conn, e.ok, c);
      }
      hide Happen, Instruction;
    } else if e.Begin? {
      BeginPc(s, e.conn, e.goal, c);
      hide Happen;
    } else {
      hide Instruction;
    }
  }

  lemma BeginPc(s: Sys, c: Conn, goal: Goal, d: Conn)
    ensures PastTest(PcOf(Happen(s, Begin(c, goal)), d)) ==> PastTest(PcOf(s, d))
  {
    assert !PastTest(First(goal));
    hide First, PastTest, Instruction, Emptied, Detached;
  }

  lemma ExchangePc(s: Sys, c: Conn, d: Conn)
    requires c in s.threads && Exchange(s, c).Some?
    ensures d != c ==> PcOf(Exchange(s, c).value, d) == PcOf(s, d)
    ensures !PastTest(PcOf(Exchange(s, c).value, c))
  {
    match s.threads[c].pc
    case WaitCmd => hide WriteOut, ReadIn;
    case Writing => hide TakeCmd, ReadIn;
    case Reading => hide TakeCmd, WriteOut;
    case UnlockCmd => hide TakeCmd, WriteOut, ReadIn;
    case _ => hide TakeCmd, WriteOut, ReadIn, Goto;
  }

  lemma ExecutePc(s: Sys, c: Conn, section: Section, ok: bool, d: Conn)
    requires c in s.threads && d != c
    ensures PcOf(Execute(s, c, section, ok), d) == PcOf(s, d)
  {
    hide OneUser;
  }

  // An instruction moves its own thread only.
  lemma InstructionPc(s: Sys, c: Conn, ok: bool, d: Conn)
    requires c in s.threads && Instruction(s, c, ok).Some? && d != c
    ensures PcOf(Instruction(s, c, ok).value, d) == PcOf(s, d)
  {
    var pc := s.threads[c].pc;
    if pc.InData? {
      ExecutePc(s, c, pc.section, ok, d);
      hide Execute;
    } else if Exchanging(pc) {
      ExchangePc(s, c, d);
      hide Exchange;
    } else {
      hide Exchange, Execute, TestNext;
    }
  }

  lemma OwnTest(s: Sys, c: Conn)
    requires c in s.threads && Test(s, c).Some? && PastTest(PcOf(Test(s, c).value, c))
    ensures PcOf(s, c) == UseTestLocked && !s.locked
  {}

  lemma OwnTake(s: Sys, c: Conn, section: Section)
    requires PcOf(s, c) == WaitData(section) && ThreadOk(s, c)
    requires Take(s, c, section).Some? && PastTest(PcOf(Take(s, c, section).value, c))
    ensures section == Open
  {}

  lemma OwnLeave(s: Sys, c: Conn)
    requires c in s.threads
    ensures !PastTest(PcOf(Leave(s, c), c))
  {}

  lemma OwnInstruction(s: Sys, c: Conn, ok: bool)
    requires ThreadOk(s, c) && c in s.threads && Instruction(s, c, ok).Some?
    requires PastTest(PcOf(Instruction(s, c, ok).value, c))
    ensures PastTest(PcOf(s, c)) || (PcOf(s, c) == UseTestLocked && !s.locked)
  {
    hide Execute, Exchange, Test, Take, Leave, ThreadOk;
    var pc := s.threads[c].pc;
    if pc.InData? {
      OwnSection(s, c, pc.section, ok);
    } else if Exchanging(pc) {
      ExchangePc(s, c, c);
    } else if pc.WaitData? {
      OwnTake(s, c, pc.section);
    } else if pc == Leaving {
      OwnLeave(s, c);
    } else {
      OwnTest(s, c);
    }
  }

  // Its own instruction brings a thread past the test only from there, or
  // from a test that finds the device not locked.
  lemma OwnPc(s: Sys, c: Conn, ok: bool)
    requires ThreadOk(s, c) && PastTest(PcOf(Happen(s, Advance(c, ok)), c))
    ensures PastTest(PcOf(s, c)) || FindsUnlocked(s, Advance(c, ok), c)
  {
    AdvanceHappens(s, c, ok);
    hide Happen, Instruction, ThreadOk;
    if c in s.threads && Instruction(s, c, ok).Some? {
      OwnInstruction(s, c, ok);
    }
  }

  lemma OwnSection(s: Sys, c: Conn, section: Section, ok: bool)
    requires c in s.threads && PastTest(PcOf(Execute(s, c, section, ok), c))
    ensures section == Open
  {
    hide OneUser;
  }

  // Event j of the run lets c through the test, and c is on its way to the
  // insertion ever since.
  ghost predicate Passed(es: seq<Event>, j: nat, c: Conn) {
    && j < |es|
    && FindsUnlocked(After(START, es[..j]), es[j], c)
    && forall k :: j < k <= |es| ==> PastTest(PcOf(After(START, es[..k]), c))
  }

  lemma PassedMore(es: seq<Event>, j: nat, c: Conn)
    requires es != [] && PastTest(PcOf(After(START, es), c))
    requires Passed(es[..|es| - 1], j, c) || (j == |es| - 1 && FindsUnlocked(After(START, es[..j]), es[j], c))
    ensures Passed(es, j, c)
  {
    hide After, PastTest, FindsUnlocked;
    var n := |es| - 1;
    assert es[..n + 1] == es;
    assert forall k :: 0 <= k <= n ==> es[..n][..k] == es[..k];
  }

  lemma StillPast(s: Sys, e: Event, c: Conn)
    requires ThreadOk(s, c) && PastTest(PcOf(Happen(s, e), c)) && !FindsUnlocked(s, e, c)
    ensures PastTest(PcOf(s, c))
  {
    hide Happen, PastTest, ThreadOk;
    if e.Advance? && e.conn == c {
      OwnPc(s, c, e.ok);
    } else {
      OtherPc(s, e, c);
    }
  }

  lemma {:induction false} PassedOnce(es: seq<Event>, c: Conn) returns (j: nat)
    requires PastTest(PcOf(After(START, es), c))
    ensures Passed(es, j, c)
  {
    hide Happen, FindsUnlocked, ThreadOk, DeviceOk, Passed;
    if es == [] {
      assert false;
    } else {
      j := |es| - 1;
      var front, e := es[..j], es[j];
      DriverOpenAlways(front);
      var now := After(START, front);
      assert ThreadOk(now, c);
      if !FindsUnlocked(now, e, c) {
        StillPast(now, e, c);
        j := PassedOnce(front, c);
      }
      PassedMore(es, j, c);
    }
  }

  // Only the window between the test of locked and the insertion makes a late
  // user: it has found the device not locked, and has been on its way to the
  // insertion ever since.
  lemma LateUserWindow(es: seq<Event>, i: nat)
    requires i < |es| && LateUser(After(START, es[..i]), es[i])
    ensures exists j :: Passed(es[..i], j, es[i].conn)
  {
    var c := es[i].conn;
    var j := PassedOnce(es[..i], c);
    hide After, Passed;
  }

  // ---------------------------------------------------------------------
  // What goes wrong, and when.

  // The marks of t are those of s.
  predicate SameMarks(s: Sys, t: Sys) { t.crashed == s.crashed && t.torn == s.torn }

  lemma SectionMarks(s: Sys, c: Conn, section: Section, ok: bool)
    requires c in s.threads
    ensures SameMarks(s, Execute(s, c, section, ok))
  {
    hide OneUser, AfterUse;
  }

  lemma ExchangeMarks(s: Sys, c: Conn)
    requires c in s.threads && Exchange(s, c).Some?
    ensures Exchange(s, c).value.torn == s.torn
    ensures Exchange(s, c).value.crashed <==> s.crashed || (PcOf(s, c) == Writing && !s.open)
  {}

  lemma InstructionMarks(s: Sys, c: Conn, ok: bool)
    requires c in s.threads && Instruction(s, c, ok).Some?
    ensures Instruction(s, c, ok).value.torn == s.torn
    ensures Instruction(s, c, ok).value.crashed <==> s.crashed || (PcOf(s, c) == Writing && !s.open)
  {
    hide TestNext, Execute, Exchange;
    if s.threads[c].pc.InData? {
      SectionMarks(s, c, s.threads[c].pc.section, ok);
    } else if Exchanging(s.threads[c].pc) {
      ExchangeMarks(s, c);
    }
  }

  lemma WritesAnyway(s: Sys, c: Conn, ok: bool)
    requires PcOf(s, c) == Writing && !s.open
    ensures c in s.threads && Instruction(s, c, ok).Some?
  {
    hide TakeCmd, ReadIn, Execute;
  }

  // A message is written to a driver that is gone exactly when its thread is
  // about to write and a close has come in between.
  lemma CrashIff(s: Sys, e: Event)
    ensures Happen(s, e).crashed <==> s.crashed || (e.Advance? && PcOf(s, e.conn) == Writing && !s.open)
  {
    hide Instruction, Detached, First;
    if e.Advance? {
      AdvanceMarks(s, e.conn, e.ok);
      hide Happen;
    }
  }

  lemma AdvanceMarks(s: Sys, c: Conn, ok: bool)
    ensures Happen(s, Advance(c, ok)).torn == s.torn
    ensures Happen(s, Advance(c, ok)).crashed <==> s.crashed || (PcOf(s, c) == Writing && !s.open)
  {
    hide Happen, Instruction;
    AdvanceHappens(s, c, ok);
    if PcOf(s, c) == Writing && !s.open {
      WritesAnyway(s, c, ok);
    }
    if c in s.threads && Instruction(s, c, ok).Some? {
      InstructionMarks(s, c, ok);
    }
  }

  // A reload tears a release away from its device exactly when it swaps the
  // table while the release is running.
  lemma TornIff(s: Sys, e: Event)
    ensures Happen(s, e).torn <==>
            s.torn || (e.ReloadSwaps? && s.reloading && exists c :: c in s.threads && Dropping(s.threads[c]))
  {
    hide Instruction, Detached, First, Dropping;
    if e.Advance? {
      AdvanceMarks(s, e.conn, e.ok);
      hide Happen;
    }
  }

  // ---------------------------------------------------------------------
  // Coming to a locked device.

  // A connection that is no user and is not on its way to become one.
  predicate Outside(s: Sys, c: Conn) {
    c !in s.users && !PastTest(PcOf(s, c)) && !Exchanging(PcOf(s, c)) && !Pending(PcOf(s, c))
  }

  lemma OutsideSection(s: Sys, c: Conn, section: Section, ok: bool, d: Conn)
    requires ThreadOk(s, c) && PcOf(s, c) == InData(section) && Outside(s, d)
    ensures Outside(Execute(s, c, section, ok), d)
  {
    hide OneUser;
  }

  lemma OutsideTest(s: Sys, c: Conn, d: Conn)
    requires c in s.threads && Test(s, c).Some? && s.locked && Outside(s, d)
    ensures Outside(Test(s, c).value, d)
  {}

  lemma OutsideTake(s: Sys, c: Conn, section: Section, d: Conn)
    requires ThreadOk(s, c) && PcOf(s, c) == WaitData(section) && Take(s, c, section).Some? && Outside(s, d)
    ensures Outside(Take(s, c, section).value, d)
  {}

  lemma OutsideExchange(s: Sys, c: Conn, d: Conn)
    requires c in s.threads && Exchanging(s.threads[c].pc) && Exchange(s, c).Some? && Outside(s, d)
    ensures Outside(Exchange(s, c).value, d)
  {
    ExchangeQuiet(s, c, d);
    if d != c {
      ExchangePc(s, c, d);
    }
    hide Exchange;
  }

  lemma OutsideInstruction(s: Sys, c: Conn, ok: bool, d: Conn)
    requires ThreadOk(s, c) && s.locked && Outside(s, d) && c in s.threads && Instruction(s, c, ok).Some?
    ensures Outside(Instruction(s, c, ok).value, d)
  {
    hide Execute, Test, Exchange, Take, ThreadOk, Outside;
    var pc := s.threads[c].pc;
    if pc.InData? {
      OutsideSection(s, c, pc.section, ok, d);
    } else if Exchanging(pc) {
      OutsideExchange(s, c, d);
    } else if pc.WaitData? {
      OutsideTake(s, c, pc.section, d);
    } else if pc == Leaving {
      OutsideLeave(s, c, d);
    } else {
      OutsideTest(s, c, d);
    }
  }

  lemma OutsideLeave(s: Sys, c: Conn, d: Conn)
    requires c in s.threads && Outside(s, d)
    ensures Outside(Leave(s, c), d)
  {}

  lemma OutsideBegin(s: Sys, c: Conn, goal: Goal, d: Conn)
    requires Outside(s, d)
    ensures Outside(Happen(s, Begin(c, goal)), d)
  {
    BeginsOutside(goal);
    assert !PastTest(First(goal));
    hide First, Exchanging, Pending, PastTest, Instruction, Emptied, Detached;
  }

  lemma OutsideElse(s: Sys, e: Event, d: Conn)
    requires Outside(s, d) && !e.Begin? && !e.Advance?
    ensures Outside(Happen(s, e), d)
  {
    hide Instruction;
  }

  lemma OutsideStays(s: Sys, e: Event, d: Conn)
    requires Inv(s) && s.locked && Outside(s, d)
    ensures Outside(Happen(s, e), d)
  {
    hide Happen, Outside, Instruction;
    match e
    case Begin(c, goal) => OutsideBegin(s, c, goal, d);
    case Advance(c, ok) =>
      AdvanceHappens(s, c, ok);
      assert ThreadOk(s, c);
      if c in s.threads && Instruction(s, c, ok).Some? {
        OutsideInstruction(s, c, ok, d);
      }
    case _ => OutsideElse(s, e, d);
  }

  // While a device stays locked, a connection that is no user and not on its
  // way to become one, in particular one that begins after the lock, never
  // becomes a user, never waits to open or insert, and never enters an
  // exchange.
  lemma {:induction false} LockedOut(es: seq<Event>, m: nat, n: nat, c: Conn)
    requires m <= n <= |es| && Outside(After(START, es[..m]), c)
    requires forall k :: m <= k < n ==> After(START, es[..k]).locked
    ensures Outside(After(START, es[..n]), c)
    decreases n
  {
    if m < n {
      LockedOut(es, m, n - 1, c);
      var front := es[..n - 1];
      DriverOpenAlways(front);
      OutsideStays(After(START, front), es[n - 1], c);
      assert es[..n][..n - 1] == front;
      hide Happen, Outside, Inv;
    }
  }
}
