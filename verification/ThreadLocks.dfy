/** The device lock under interleaved requests: what the unprotected test in
    use breaks (server/device.cpp:33-35), what a close beside an exchange or
    beside a lock breaks (server/device.cpp:71-75, server/device.cpp:126-134),
    and what holds without them. */
module ThreadLocks {
  import opened Connections
  import opened Results
  import opened Threads

  // ---------------------------------------------------------------------
  // Instructions outside the sections.

  // From the success of use to the end of the section of lock.
  predicate Pending(pc: Pc) { pc == WaitData(SetLock) || pc == InData(SetLock) }

  // Nothing about the sharing changes, and d does not get into an exchange or
  // a lock unless it is a user.
  predicate Quiet(s: Sys, t: Sys, d: Conn) {
    && t.users == s.users && t.locked == s.locked && t.holder == s.holder
    && (Exchanging(PcOf(t, d)) ==> Exchanging(PcOf(s, d)) || d in s.users)
    && (Pending(PcOf(t, d)) ==> Pending(PcOf(s, d)) || d in s.users)
  }

  lemma GotoQuiet(s: Sys, c: Conn, pc: Pc, d: Conn)
    requires c in s.threads
    requires Exchanging(pc) ==> Exchanging(PcOf(s, c)) || c in s.users
    requires Pending(pc) ==> Pending(PcOf(s, c)) || c in s.users
    ensures Quiet(s, Goto(s, c, pc), d)
  {}

  lemma TestQuiet(s: Sys, c: Conn, d: Conn)
    requires c in s.threads && Test(s, c).Some?
    ensures Quiet(s, Test(s, c).value, d)
  {
    GotoQuiet(s, c, TestNext(s, c).value, d);
    hide Goto, Quiet;
  }

  lemma TakeCmdQuiet(s: Sys, c: Conn, d: Conn)
    requires PcOf(s, c) == WaitCmd && TakeCmd(s, c).Some?
    ensures Quiet(s, TakeCmd(s, c).value, d)
  {}

  lemma WriteOutQuiet(s: Sys, c: Conn, d: Conn)
    requires PcOf(s, c) == Writing && WriteOut(s, c).Some?
    ensures Quiet(s, WriteOut(s, c).value, d)
  {}

  lemma ReadInQuiet(s: Sys, c: Conn, d: Conn)
    requires PcOf(s, c) == Reading && ReadIn(s, c).Some?
    ensures Quiet(s, ReadIn(s, c).value, d)
  {}

  lemma GiveCmdQuiet(s: Sys, c: Conn, d: Conn)
    requires PcOf(s, c) == UnlockCmd
    ensures Quiet(s, Goto(s.(cmdMutex := None), c, Leaving), d)
  {}

  lemma ExchangeQuiet(s: Sys, c: Conn, d: Conn)
    requires c in s.threads && Exchange(s, c).Some?
    ensures Quiet(s, Exchange(s, c).value, d)
  {
    hide Quiet, TakeCmd, WriteOut, ReadIn, Goto;
    match s.threads[c].pc
    case WaitCmd => TakeCmdQuiet(s, c, d);
    case Writing => WriteOutQuiet(s, c, d);
    case Reading => ReadInQuiet(s, c, d);
    case UnlockCmd => GiveCmdQuiet(s, c, d);
    case _ =>
  }

  lemma TakeQuiet(s: Sys, c: Conn, section: Section, d: Conn)
    requires PcOf(s, c) == WaitData(section) && Take(s, c, section).Some?
    ensures Quiet(s, Take(s, c, section).value, d)
  {}

  lemma LeaveQuiet(s: Sys, c: Conn, d: Conn)
    requires c in s.threads
    ensures Quiet(s, Leave(s, c), d)
  {}

  predicate InSection(s: Sys, e: Event) { e.Advance? && PcOf(s, e.conn).InData? }

  lemma InstructionQuiet(s: Sys, c: Conn, ok: bool, d: Conn)
    requires c in s.threads && !s.threads[c].pc.InData? && Instruction(s, c, ok).Some?
    ensures Quiet(s, Instruction(s, c, ok).value, d)
  {
    hide Test, Exchange, Take, Leave, Quiet;
    var pc := s.threads[c].pc;
    if Exchanging(pc) {
      ExchangeQuiet(s, c, d);
    } else if pc.WaitData? {
      TakeQuiet(s, c, pc.section, d);
    } else if pc == Leaving {
      LeaveQuiet(s, c, d);
    } else {
      TestQuiet(s, c, d);
    }
  }

  lemma BeginsOutside(goal: Goal)
    ensures !Exchanging(First(goal)) && !Pending(First(goal))
  {}

  lemma BeginQuiet(s: Sys, c: Conn, goal: Goal, d: Conn)
    ensures Quiet(s, Happen(s, Begin(c, goal)), d)
  {
    BeginsOutside(goal);
    hide First, Exchanging, Pending, Instruction, Emptied, Detached;
  }

  lemma AdvanceHappens(s: Sys, c: Conn, ok: bool)
    ensures Happen(s, Advance(c, ok)) ==
            if c in s.threads && Instruction(s, c, ok).Some? then Instruction(s, c, ok).value else s
  {
    hide Instruction;
  }

  lemma WaitingQuiet(s: Sys, e: Event, d: Conn)
    requires e.PeerReplies? || e.ReloadBegins? || e.ReloadEnds?
    ensures Quiet(s, Happen(s, e), d) && Quiet(s, s, d)
  {
    hide Instruction, Exchanging, Pending;
  }

  // Every event but a section and the swap of a reload is quiet.
  lemma HappenQuiet(s: Sys, e: Event, d: Conn)
    requires !InSection(s, e) && !e.ReloadSwaps?
    ensures Quiet(s, Happen(s, e), d)
  {
    hide Happen, Instruction, Quiet;
    match e
    case Begin(c, goal) => BeginQuiet(s, c, goal, d);
    case Advance(c, ok) =>
      AdvanceHappens(s, c, ok);
      WaitingQuiet(s, PeerReplies, d);
      if c in s.threads && Instruction(s, c, ok).Some? {
        InstructionQuiet(s, c, ok, d);
      }
    case _ => WaitingQuiet(s, e, d);
  }

  lemma SectionHappens(s: Sys, e: Event)
    requires InSection(s, e)
    ensures Happen(s, e) == Execute(s, e.conn, PcOf(s, e.conn).section, e.ok)
  {
    hide Execute;
  }

  lemma SwapHappens(s: Sys, d: Conn)
    ensures !s.reloading ==> Happen(s, ReloadSwaps) == s
    ensures s.reloading ==> !Happen(s, ReloadSwaps).locked
    ensures Exchanging(PcOf(Happen(s, ReloadSwaps), d)) ==> Exchanging(PcOf(s, d))
    ensures Pending(PcOf(Happen(s, ReloadSwaps), d)) ==> Pending(PcOf(s, d))
  {}

  // ---------------------------------------------------------------------
  // The number of users.

  // The serial invariant of the lock.
  predicate LockExclusive(s: Sys) { s.locked ==> |s.users| == 1 }

  // Adding a user to a device that has been locked since the test of line 34.
  ghost predicate LateUser(s: Sys, e: Event) {
    e.Advance? && PcOf(s, e.conn) == InData(Insert) && s.locked && e.conn !in s.users
  }

  lemma ExecuteLockExclusive(s: Sys, c: Conn, section: Section, ok: bool)
    requires LockExclusive(s) && c in s.threads
    ensures LockExclusive(Execute(s, c, section, ok)) <==> !(section == Insert && s.locked && c !in s.users)
  {}

  // An event breaks the invariant exactly if it adds a user to a locked
  // device; nothing but the unprotected test keeps this from happening.
  lemma LockBrokenIff(s: Sys, e: Event)
    requires LockExclusive(s)
    ensures LockExclusive(Happen(s, e)) <==> !LateUser(s, e)
  {
    hide Execute, Happen;
    if InSection(s, e) {
      SectionHappens(s, e);
      ExecuteLockExclusive(s, e.conn, PcOf(s, e.conn).section, e.ok);
    } else if e.ReloadSwaps? {
      SwapHappens(s, 0);
    } else {
      HappenQuiet(s, e, 0);
    }
  }

  // ---------------------------------------------------------------------
  // The lock as its users understand it: it belongs to the connection it was
  // granted to, and others cannot use the device.

  // Granting the lock to a connection that is no user, because a close came
  // between its use and its lock; the one user is another.
  ghost predicate MislaidLock(s: Sys, e: Event) {
    e.Advance? && PcOf(s, e.conn) == InData(SetLock) && OneUser(s) && e.conn !in s.users
  }

  // The only user is the connection the lock was granted to.
  predicate HolderUses(s: Sys) { s.locked ==> s.holder.Some? && s.users == {s.holder.value} }

  lemma OneUserIs(s: Sys, c: Conn)
    requires OneUser(s) && c in s.users
    ensures s.users == {c}
  {
    assert |s.users - {c}| == 0;
  }

  lemma OneHolder(s: Sys)
    ensures s.locked && HolderUses(s) ==> OneUser(s)
  {}

  lemma InsertHolder(s: Sys, c: Conn)
    requires HolderUses(s) && c in s.threads
    ensures HolderUses(InsertSection(s, c)) <==> !(s.locked && c !in s.users)
  {
    if s.locked && c !in s.users {
      assert c in InsertSection(s, c).users;
    }
  }

  lemma LockHolder(s: Sys, c: Conn)
    requires HolderUses(s) && c in s.threads
    ensures HolderUses(LockSection(s, c)) <==> !(OneUser(s) && c !in s.users)
  {
    OneHolder(s);
    if OneUser(s) && c in s.users {
      OneUserIs(s, c);
    }
    hide OneUser;
  }

  lemma UnlockHolder(s: Sys, c: Conn)
    requires HolderUses(s) && c in s.threads
    ensures HolderUses(UnlockSection(s, c)) && HolderUses(RemoveSection(s, c))
    ensures HolderUses(ResetSection(s, c))
  {
    if c !in s.users {
      assert s.users - {c} == s.users;
    }
  }

  lemma OpenHolder(s: Sys, c: Conn, ok: bool)
    requires HolderUses(s) && c in s.threads
    ensures HolderUses(OpenSection(s, c, ok))
  {}

  lemma ExecuteHolder(s: Sys, c: Conn, section: Section, ok: bool)
    requires HolderUses(s) && c in s.threads
    ensures HolderUses(Execute(s, c, section, ok)) <==>
            !(section == Insert && s.locked && c !in s.users) &&
            !(section == SetLock && OneUser(s) && c !in s.users)
  {
    hide HolderUses, OneUser, OpenSection, InsertSection, LockSection, UnlockSection, RemoveSection, ResetSection;
    match section
    case Open => OpenHolder(s, c, ok);
    case Insert => InsertHolder(s, c);
    case SetLock => LockHolder(s, c);
    case _ => UnlockHolder(s, c);
  }

  lemma HolderBrokenIff(s: Sys, e: Event)
    requires HolderUses(s)
    ensures HolderUses(Happen(s, e)) <==> !LateUser(s, e) && !MislaidLock(s, e)
  {
    hide Execute, Happen;
    if InSection(s, e) {
      SectionHappens(s, e);
      ExecuteHolder(s, e.conn, PcOf(s, e.conn).section, e.ok);
    } else if e.ReloadSwaps? {
      SwapHappens(s, 0);
    } else {
      HappenQuiet(s, e, 0);
    }
  }

  // A connection between its use and its reply is a user.
  predicate Known(s: Sys, d: Conn) { Exchanging(PcOf(s, d)) ==> d in s.users }

  ghost predicate NoStranger(s: Sys) { forall d: Conn :: Known(s, d) }

  // The only user of a locked device is the connection the lock was granted
  // to, and nobody else is in an exchange with it.
  ghost predicate Guarded(s: Sys) { HolderUses(s) && (s.locked ==> NoStranger(s)) }

  // Locking a device that a connection which is no user is in an exchange
  // with.
  ghost predicate StaleLock(s: Sys, e: Event) {
    e.Advance? && PcOf(s, e.conn) == InData(SetLock) && OneUser(s) && !NoStranger(s)
  }

  lemma ExecuteKnown(s: Sys, c: Conn, section: Section, ok: bool, d: Conn)
    requires PcOf(s, c) == InData(section)
    ensures var t := Execute(s, c, section, ok);
            && (t.locked && Known(s, d) ==> Known(t, d))
            && (section == SetLock ==> t.users == s.users && (Known(t, d) ==> Known(s, d)))
            && (t.locked && !s.locked ==> section == SetLock && OneUser(s))
            && (section == SetLock && OneUser(s) ==> t.locked)
  {
    hide OneUser;
  }

  // While the device is locked no event makes a stranger, and only the
  // section of lock locks it.
  lemma HappenKnown(s: Sys, e: Event, d: Conn)
    ensures var t := Happen(s, e);
            && (t.locked && Known(s, d) ==> Known(t, d))
            && (t.locked && !s.locked ==> e.Advance? && PcOf(s, e.conn) == InData(SetLock) && OneUser(s))
  {
    hide Execute, Happen, OneUser;
    if InSection(s, e) {
      SectionHappens(s, e);
      ExecuteKnown(s, e.conn, PcOf(s, e.conn).section, e.ok, d);
    } else if e.ReloadSwaps? {
      SwapHappens(s, d);
    } else {
      HappenQuiet(s, e, d);
    }
  }

  // The section of lock leaves the strangers as they are.
  lemma SetLockKnown(s: Sys, e: Event, d: Conn)
    requires e.Advance? && PcOf(s, e.conn) == InData(SetLock)
    ensures var t := Happen(s, e);
            && t.users == s.users
            && (Known(t, d) ==> Known(s, d))
            && (OneUser(s) ==> t.locked)
  {
    SectionHappens(s, e);
    ExecuteKnown(s, e.conn, SetLock, e.ok, d);
    hide Execute, Known, Happen;
  }

  // The exact step: an event ends the guard exactly if it is a late user, a
  // mislaid lock, or a lock beside a stale exchange.
  lemma GuardBrokenIff(s: Sys, e: Event)
    requires Guarded(s)
    ensures Guarded(Happen(s, e)) <==> !LateUser(s, e) && !MislaidLock(s, e) && !StaleLock(s, e)
  {
    HolderBrokenIff(s, e);
    hide Happen, Known, HolderUses, OneUser;
    var t := Happen(s, e);
    if StaleLock(s, e) {
      var d: Conn :| !Known(s, d);
      SetLockKnown(s, e, d);
    } else if t.locked {
      HappenKnown(s, e, 0);
      forall d: Conn
        ensures Known(t, d)
      {
        HappenKnown(s, e, d);
      }
    }
  }

  ghost predicate GuardedThroughout(es: seq<Event>) {
    forall i :: 0 <= i <= |es| ==> Guarded(After(START, es[..i]))
  }

  ghost predicate NoLateUser(es: seq<Event>) {
    forall i :: 0 <= i < |es| ==> !LateUser(After(START, es[..i]), es[i])
  }

  ghost predicate NoStaleLock(es: seq<Event>) {
    forall i :: 0 <= i < |es| ==> !StaleLock(After(START, es[..i]), es[i])
  }

  ghost predicate NoMislaidLock(es: seq<Event>) {
    forall i :: 0 <= i < |es| ==> !MislaidLock(After(START, es[..i]), es[i])
  }

  // A close whose section runs while a thread is between its use and the
  // section of its lock.
  ghost predicate ClosesLock(s: Sys, e: Event) {
    && e.Advance? && PcOf(s, e.conn) == InData(Reset)
    && exists d: Conn :: Pending(PcOf(s, d))
  }

  ghost predicate NoClosedLock(es: seq<Event>) {
    forall i :: 0 <= i < |es| ==> !ClosesLock(After(START, es[..i]), es[i])
  }

  // The last event of a run.
  lemma LastEvent(es: seq<Event>)
    requires es != []
    ensures var front := es[..|es| - 1];
            && (GuardedThroughout(es) <==> GuardedThroughout(front) && Guarded(After(START, es)))
            && (NoLateUser(es) <==> NoLateUser(front) && !LateUser(After(START, front), es[|es| - 1]))
            && (NoStaleLock(es) <==> NoStaleLock(front) && !StaleLock(After(START, front), es[|es| - 1]))
            && (NoMislaidLock(es) <==> NoMislaidLock(front) && !MislaidLock(After(START, front), es[|es| - 1]))
            && (NoRacingClose(es) <==> NoRacingClose(front) && !RacingClose(After(START, front), es[|es| - 1]))
            && (NoClosedLock(es) <==> NoClosedLock(front) && !ClosesLock(After(START, front), es[|es| - 1]))
  {
    hide Guarded, LateUser, StaleLock, MislaidLock, RacingClose, ClosesLock, After;
    var k := |es| - 1;
    assert es[..k + 1] == es;
    assert forall i :: 0 <= i <= k ==> es[..k][..i] == es[..i];
  }

  // The exact run: the guard holds throughout a run exactly if no event of
  // the run is a late user, a mislaid lock or a stale lock.
  lemma {:induction false} GuardedThroughoutIff(es: seq<Event>)
    ensures GuardedThroughout(es) <==> NoLateUser(es) && NoMislaidLock(es) && NoStaleLock(es)
  {
    if es == [] {
      assert es[..0] == [];
    } else {
      hide *;
      GuardedThroughoutIff(es[..|es| - 1]);
      LastEvent(es);
      if GuardedThroughout(es[..|es| - 1]) {
        LastGuarded(es);
      }
    }
  }

  lemma LastGuarded(es: seq<Event>)
    requires es != [] && GuardedThroughout(es[..|es| - 1])
    ensures var now, e := After(START, es[..|es| - 1]), es[|es| - 1];
            Guarded(After(START, es)) <==> !LateUser(now, e) && !MislaidLock(now, e) && !StaleLock(now, e)
  {
    hide Happen, LateUser, StaleLock, MislaidLock, Guarded;
    var front := es[..|es| - 1];
    assert front[..|front|] == front;
    GuardBrokenIff(After(START, front), es[|es| - 1]);
  }

  // Without a close beside an exchange or beside a lock, no lock is stale or
  // mislaid: then the guard fails through late users only, and every message
  // written to a locked device is from the connection the lock was granted
  // to.
  lemma LockGuards(es: seq<Event>)
    requires NoRacingClose(es) && NoClosedLock(es) && NoLateUser(es)
    ensures GuardedThroughout(es)
    ensures var s := After(START, es);
            forall c: Conn :: s.locked && PcOf(s, c) == Writing ==> s.users == {c} && s.holder == Some(c)
  {
    NeverStale(es);
    NeverMislaid(es);
    GuardedThroughoutIff(es);
    assert es[..|es|] == es;
    NoStrangers(es);
    var s := After(START, es);
    assert Guarded(s);
    hide After, NoLateUser, NoRacingClose, NoClosedLock, GuardedThroughout;
    forall c: Conn | s.locked && PcOf(s, c) == Writing
      ensures s.users == {c} && s.holder == Some(c)
    {
      assert Known(s, c);
    }
  }

  // The lock of a guarded device ends exactly with an unlock or a release by
  // its holder, a close by anyone, or a reload.
  lemma GuardedLockEnds(s: Sys, e: Event)
    requires Guarded(s) && s.locked
    ensures !Happen(s, e).locked <==>
            || (e.ReloadSwaps? && s.reloading)
            || (e.Advance? && PcOf(s, e.conn) == InData(Reset))
            || (e.Advance? && Some(e.conn) == s.holder
                && (PcOf(s, e.conn) == InData(ClearLock) || PcOf(s, e.conn) == InData(Remove)))
  {
    hide Execute, Happen, NoStranger;
    if InSection(s, e) {
      SectionHappens(s, e);
      ExecuteUnlocks(s, e.conn, PcOf(s, e.conn).section, e.ok);
    } else if e.ReloadSwaps? {
      SwapHappens(s, 0);
    } else {
      HappenQuiet(s, e, 0);
    }
  }

  lemma ExecuteUnlocks(s: Sys, c: Conn, section: Section, ok: bool)
    requires c in s.threads && s.locked
    ensures !Execute(s, c, section, ok).locked <==>
            section == Reset || ((section == ClearLock || section == Remove) && c in s.users)
  {
    hide OneUser;
  }

  // ---- Locks in progress.

  // A connection between its use and the section of its lock is a user.
  predicate Ready(s: Sys, d: Conn) { Pending(PcOf(s, d)) ==> d in s.users }

  lemma ExecuteReady(s: Sys, c: Conn, section: Section, ok: bool, d: Conn)
    requires PcOf(s, c) == InData(section) && Ready(s, d) && (section == Reset ==> !Pending(PcOf(s, d)))
    ensures Ready(Execute(s, c, section, ok), d)
  {
    hide OneUser;
  }

  lemma HappenReady(s: Sys, e: Event, d: Conn)
    requires DeviceOk(s) && ThreadOk(s, d) && Ready(s, d) && !ClosesLock(s, e)
    ensures Ready(Happen(s, e), d)
  {
    hide Execute, Happen;
    if InSection(s, e) {
      SectionHappens(s, e);
      ExecuteReady(s, e.conn, PcOf(s, e.conn).section, e.ok, d);
    } else if e.ReloadSwaps? {
      SwapHappens(s, d);
    } else {
      HappenQuiet(s, e, d);
    }
  }

  lemma {:induction false} AllReady(es: seq<Event>, d: Conn)
    requires NoClosedLock(es)
    ensures Ready(After(START, es), d)
  {
    if es != [] {
      var front, e := es[..|es| - 1], es[|es| - 1];
      LastEvent(es);
      AllReady(front, d);
      DriverOpenAlways(front);
      var now := After(START, front);
      assert ThreadOk(now, d);
      HappenReady(now, e, d);
      hide Happen, Ready, ClosesLock, NoClosedLock;
    }
  }

  lemma {:induction false} NeverMislaid(es: seq<Event>)
    requires NoClosedLock(es)
    ensures NoMislaidLock(es)
  {
    if es != [] {
      var front, e := es[..|es| - 1], es[|es| - 1];
      LastEvent(es);
      NeverMislaid(front);
      if e.Advance? {
        AllReady(front, e.conn);
      }
      hide After, ClosesLock, NoClosedLock, NoMislaidLock;
    }
  }

  lemma {:induction false} NeverStale(es: seq<Event>)
    requires NoRacingClose(es)
    ensures NoStaleLock(es)
  {
    if es != [] {
      LastEvent(es);
      var front := es[..|es| - 1];
      NeverStale(front);
      NoStrangers(front);
      hide After, NoStranger, RacingClose, NoRacingClose, NoStaleLock;
    }
  }

  lemma NoStrangers(es: seq<Event>)
    requires NoRacingClose(es)
    ensures NoStranger(After(START, es))
  {
    RepliesPaired(es);
    var s := After(START, es);
    hide After, NoRacingClose;
    forall d: Conn
      ensures Known(s, d)
    {
      assert ThreadPaired(s, d);
    }
  }

  // ---------------------------------------------------------------------
  // Runs in which it fails.

  lemma Extend(es: seq<Event>, s: Sys, e: Event) returns (fs: seq<Event>, t: Sys)
    requires s == After(START, es)
    ensures fs == es + [e] && t == Happen(s, e) == After(START, fs)
    ensures NoLateUser(es) && !LateUser(s, e) ==> NoLateUser(fs)
    ensures NoStaleLock(es) && !StaleLock(s, e) ==> NoStaleLock(fs)
  {
    fs, t := es + [e], Happen(s, e);
    assert fs[..|fs| - 1] == es;
    assert forall i :: 0 <= i < |es| ==> fs[..i] == es[..i];
    hide Happen, LateUser, StaleLock;
  }

  lemma BeginStep(s: Sys, c: Conn, goal: Goal)
    requires PcOf(s, c) == Idle && !s.reloading && goal != Drop
    ensures Happen(s, Begin(c, goal)) ==
            s.(readers := s.readers + {c}, threads := s.threads[c := Thread(First(goal), goal, None)])
    ensures !LateUser(s, Begin(c, goal)) && !StaleLock(s, Begin(c, goal))
  {}

  // The three tests of a connection that is no user of an unlocked device.
  lemma TestStep(s: Sys, c: Conn)
    requires PcOf(s, c) == TestUser || PcOf(s, c) == UseTestUser || PcOf(s, c) == UseTestLocked
    requires c !in s.users && !s.locked
    ensures Happen(s, Advance(c, true)) ==
            Goto(s, c, if PcOf(s, c) == TestUser then UseTestUser
                       else if PcOf(s, c) == UseTestUser then UseTestLocked
                       else WaitData(Open))
    ensures !LateUser(s, Advance(c, true)) && !StaleLock(s, Advance(c, true))
  {
    hide Execute, Exchange, Take, Leave;
  }

  lemma TakeStep(s: Sys, c: Conn, section: Section)
    requires PcOf(s, c) == WaitData(section) && s.dataMutex == None
    ensures Happen(s, Advance(c, true)) == Goto(s.(dataMutex := Some(c)), c, InData(section))
    ensures !LateUser(s, Advance(c, true)) && !StaleLock(s, Advance(c, true))
  {
    hide Execute, Exchange, Test, Leave;
  }

  lemma ExecuteStep(s: Sys, c: Conn, section: Section)
    requires PcOf(s, c) == InData(section)
    ensures Happen(s, Advance(c, true)) == Execute(s, c, section, true)
    ensures LateUser(s, Advance(c, true)) <==> section == Insert && s.locked && c !in s.users
    ensures StaleLock(s, Advance(c, true)) ==> section == SetLock && !NoStranger(s)
  {
    hide Execute, Exchange, Test, Take, Leave;
  }

  lemma TakeCmdStep(s: Sys, c: Conn)
    requires PcOf(s, c) == WaitCmd && s.cmdMutex == None
    ensures Happen(s, Advance(c, true)) == Goto(s.(cmdMutex := Some(c)), c, Writing)
    ensures !LateUser(s, Advance(c, true)) && !StaleLock(s, Advance(c, true))
  {
    hide Execute, Test, Take, Leave;
  }

  lemma WriteStep(s: Sys, c: Conn)
    requires PcOf(s, c) == Writing && s.threads[c].goal.Ask?
    ensures Happen(s, Advance(c, true)) == WriteOut(s, c).value
    ensures !LateUser(s, Advance(c, true)) && !StaleLock(s, Advance(c, true))
  {
    hide Execute, Test, Take, Leave;
  }

  // Up to the wait for data_mutex in use.
  lemma Approach(es: seq<Event>, s: Sys, c: Conn, goal: Goal) returns (fs: seq<Event>, t: Sys)
    requires s == After(START, es)
    requires PcOf(s, c) == Idle && !s.reloading && c !in s.users && !s.locked && (goal == Lock || goal.Ask?)
    ensures t == After(START, fs) && (NoLateUser(es) ==> NoLateUser(fs)) && (NoStaleLock(es) ==> NoStaleLock(fs))
    ensures t == s.(threads := s.threads[c := Thread(WaitData(Open), goal, None)], readers := s.readers + {c})
  {
    hide After, Happen, LateUser, NoLateUser, StaleLock, NoStaleLock;
    BeginStep(s, c, goal);
    fs, t := Extend(es, s, Begin(c, goal));
    TestStep(t, c);
    fs, t := Extend(fs, t, Advance(c, true));
    TestStep(t, c);
    fs, t := Extend(fs, t, Advance(c, true));
    TestStep(t, c);
    fs, t := Extend(fs, t, Advance(c, true));
  }

  // From there to the end of the section; on a locked device this adds a
  // late user.
  lemma Enter(es: seq<Event>, s: Sys, c: Conn) returns (fs: seq<Event>, t: Sys)
    requires s == After(START, es)
    requires PcOf(s, c) == WaitData(Open) && s.dataMutex == None
    ensures t == After(START, fs) && (NoLateUser(es) && !s.locked ==> NoLateUser(fs))
    ensures NoStaleLock(es) ==> NoStaleLock(fs)
    ensures t == s.(threads := s.threads[c := s.threads[c].(pc := AfterUse(s.threads[c].goal))],
                    users := s.users + {c}, open := true, created := t.created)
  {
    hide After, Happen, LateUser, NoLateUser, StaleLock, NoStaleLock;
    TakeStep(s, c, Open);
    fs, t := Extend(es, s, Advance(c, true));
    ExecuteStep(t, c, Open);
    fs, t := Extend(fs, t, Advance(c, true));
    ExecuteStep(t, c, Insert);
    fs, t := Extend(fs, t, Advance(c, true));
  }

  lemma OneUserMeans(s: Sys)
    ensures OneUser(s) <==> |s.users| == 1
  {}

  lemma LockStep(s: Sys, c: Conn)
    requires PcOf(s, c) == InData(SetLock) && |s.users| == 1
    ensures Happen(s, Advance(c, true)) ==
            s.(threads := s.threads[c := s.threads[c].(pc := Leaving)],
               locked := true, holder := Some(c), dataMutex := None)
    ensures !LateUser(s, Advance(c, true)) && (StaleLock(s, Advance(c, true)) ==> !NoStranger(s))
  {
    ExecuteStep(s, c, SetLock);
    assert OneUser(s);
    hide OneUser, Happen, LateUser, StaleLock, NoStranger;
  }

  // The section of lock while there is one user.
  lemma LockIt(es: seq<Event>, s: Sys, c: Conn) returns (fs: seq<Event>, t: Sys)
    requires s == After(START, es)
    requires PcOf(s, c) == WaitData(SetLock) && s.dataMutex == None && |s.users| == 1
    ensures t == After(START, fs) && (NoLateUser(es) ==> NoLateUser(fs))
    ensures NoStaleLock(es) && NoStranger(s) ==> NoStaleLock(fs)
    ensures t == s.(threads := s.threads[c := s.threads[c].(pc := Leaving)], locked := true, holder := Some(c))
  {
    hide After, Happen, LateUser, NoLateUser, StaleLock, NoStaleLock, NoStranger, OneUser;
    assert OneUser(s) by { OneUserMeans(s); }
    TakeStep(s, c, SetLock);
    StillNoStranger(s, c);
    fs, t := Extend(es, s, Advance(c, true));
    LockStep(t, c);
    fs, t := Extend(fs, t, Advance(c, true));
  }

  lemma StillNoStranger(s: Sys, c: Conn)
    requires PcOf(s, c) == WaitData(SetLock)
    ensures NoStranger(s) ==> NoStranger(Goto(s.(dataMutex := Some(c)), c, InData(SetLock)))
  {
    if NoStranger(s) {
      forall d: Conn
        ensures Known(Goto(s.(dataMutex := Some(c)), c, InData(SetLock)), d)
      {
        assert Known(s, d);
      }
    }
  }

  // A whole close.
  lemma CloseIt(es: seq<Event>, s: Sys, c: Conn) returns (fs: seq<Event>, t: Sys)
    requires s == After(START, es)
    requires PcOf(s, c) == Idle && !s.reloading && s.dataMutex == None
    ensures t == After(START, fs) && (NoLateUser(es) ==> NoLateUser(fs)) && (NoStaleLock(es) ==> NoStaleLock(fs))
    ensures t == Emptied(s).(threads := s.threads[c := Thread(Leaving, Close, None)], readers := s.readers + {c})
  {
    hide After, Happen, LateUser, NoLateUser, StaleLock, NoStaleLock;
    BeginStep(s, c, Close);
    fs, t := Extend(es, s, Begin(c, Close));
    TakeStep(t, c, Reset);
    fs, t := Extend(fs, t, Advance(c, true));
    ExecuteStep(t, c, Reset);
    fs, t := Extend(fs, t, Advance(c, true));
  }

  // The message of a connection that waits for the command mutex.
  lemma WriteLate(es: seq<Event>, s: Sys, c: Conn) returns (fs: seq<Event>, t: Sys)
    requires s == After(START, es)
    requires PcOf(s, c) == WaitCmd && s.cmdMutex == None && s.threads[c].goal.Ask?
    ensures t == After(START, fs) && (NoLateUser(es) ==> NoLateUser(fs)) && (NoStaleLock(es) ==> NoStaleLock(fs))
    ensures t.locked == s.locked && t.holder == s.holder && t.users == s.users
    ensures s.open ==> t.crashed == s.crashed && t.requests == s.requests + [Token(c, s.threads[c].goal.msg)]
    ensures !s.open ==> t.crashed
  {
    hide After, Happen, LateUser, NoLateUser, StaleLock, NoStaleLock;
    TakeCmdStep(s, c);
    fs, t := Extend(es, s, Advance(c, true));
    WriteStep(t, c);
    fs, t := Extend(fs, t, Advance(c, true));
  }

  lemma AtStart()
    ensures After(START, []) == START && NoLateUser([]) && NoStaleLock([])
  {}

  lemma BothUsers()
    ensures {2} + {1} == {1, 2}
  {}

  // A run in which a device ends up locked with two users: connection 1 has
  // passed the test of locked when connection 2 locks the device.
  lemma LockRace()
    ensures exists es :: After(START, es).locked && After(START, es).users == {1, 2}
  {
    AtStart();
    hide After, NoStaleLock, NoLateUser, Emptied;
    var es: seq<Event>, s := [], START;
    es, s := Approach(es, s, 1, Ask("*idn?"));
    es, s := Approach(es, s, 2, Lock);
    es, s := Enter(es, s, 2);
    assert s.users == {2};
    es, s := LockIt(es, s, 2);
    es, s := Enter(es, s, 1);
    BothUsers();
    assert s.users == {2} + {1};
  }

  // A run in which a close takes the driver away between the use and the
  // message of another connection.
  lemma CloseRace()
    ensures exists es :: After(START, es).crashed
  {
    AtStart();
    hide After, NoStaleLock, NoLateUser;
    var es: seq<Event>, s := [], START;
    es, s := Approach(es, s, 1, Ask("*idn?"));
    es, s := Enter(es, s, 1);
    es, s := CloseIt(es, s, 3);
    es, s := WriteLate(es, s, 1);
  }

  // A run in which a message of connection 1 reaches the device that
  // connection 2 has locked as its only user, although no user was late:
  // connection 3 has closed the device in between, and nothing is tested
  // again after the use.
  lemma StaleRun()
    ensures exists es ::
              && NoLateUser(es)
              && After(START, es).locked && After(START, es).users == {2}
              && After(START, es).requests == [Token(1, "*idn?")]
  {
    AtStart();
    hide After, NoStaleLock, NoLateUser;
    var es: seq<Event>, s := [], START;
    es, s := Approach(es, s, 1, Ask("*idn?"));
    es, s := Enter(es, s, 1);
    es, s := CloseIt(es, s, 3);
    es, s := Approach(es, s, 2, Lock);
    es, s := Enter(es, s, 2);
    assert s.users == {2};
    es, s := LockIt(es, s, 2);
    es, s := WriteLate(es, s, 1);
  }

  // A run in which connection 1 is told that it has locked the device, of
  // which connection 2 is the only user and to which it goes on writing:
  // connection 3 has closed the device between the use and the lock of
  // connection 1, and lock does not test again whether its caller is a user.
  // No user was late, and no exchange was stale.
  lemma MislaidRun()
    ensures exists es ::
              && NoLateUser(es) && NoStaleLock(es)
              && After(START, es).locked && After(START, es).holder == Some(1) && After(START, es).users == {2}
              && After(START, es).requests == [Token(2, "*idn?")]
  {
    AtStart();
    hide After, NoStaleLock, NoLateUser;
    var es: seq<Event>, s := [], START;
    es, s := Approach(es, s, 1, Lock);
    es, s := Enter(es, s, 1);
    es, s := CloseIt(es, s, 3);
    es, s := Approach(es, s, 2, Ask("*idn?"));
    es, s := Enter(es, s, 2);
    assert s.users == {2};
    assert NoStranger(s) by {
      forall d: Conn
        ensures Known(s, d)
      {}
    }
    es, s := LockIt(es, s, 1);
    es, s := WriteLate(es, s, 2);
  }

  lemma ReloadSteps(s: Sys, c: Conn)
    requires PcOf(s, c) == Idle
    ensures Happen(s, Begin(c, Drop)) == s.(threads := s.threads[c := Thread(WaitData(Remove), Drop, None)])
    ensures s.readers == {} && !s.reloading ==> Happen(s, ReloadBegins) == s.(reloading := true)
  {}

  lemma SwapStep(s: Sys, c: Conn)
    requires s.reloading && c in s.threads && Dropping(s.threads[c])
    ensures Happen(s, ReloadSwaps).torn
  {
    hide Dropping, Emptied, Detached;
  }

  // A run in which a reload replaces the device under the release of a
  // connection that closes.
  lemma ReloadRace()
    ensures exists es :: After(START, es).torn
  {
    AtStart();
    hide After, Happen, LateUser, NoLateUser, StaleLock, NoStaleLock;
    var es: seq<Event>, s := [], START;
    ReloadSteps(s, 1);
    es, s := Extend(es, s, ReloadBegins);
    ReloadSteps(s, 1);
    es, s := Extend(es, s, Begin(1, Drop));
    SwapStep(s, 1);
    es, s := Extend(es, s, ReloadSwaps);
  }
}
