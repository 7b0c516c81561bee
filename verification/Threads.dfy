/** One device under concurrent requests, one thread a connection
    (server/device.cpp, server/dev_manager.cpp, server/drv_spp.cpp).

    A thread runs one instruction at a time between the points where others
    can interfere: the unprotected tests of users and locked, the sections
    under data_mutex, the exchange under cmd_mutex, and the shared or unique
    lock on the device table around it all.  The releases of conn_close and of
    release_all go without the lock on the table, as in the code. */
module Threads {
  import opened Connections
  import opened Results

  // A message on its way through the pipe, and the reply made to it.
  datatype Token = Token(conn: Conn, msg: string)

  // Drop is the release by conn_close or release_all.
  datatype Goal = Ask(msg: string) | Use | Lock | Unlock | Release | Close | Drop

  // The sections under data_mutex.
  datatype Section = Open | Insert | SetLock | ClearLock | Remove | Reset

  // The next instruction of a thread.
  datatype Pc =
    | Idle
    | TestUser              // users.count in ask or lock
    | UseTestUser           // users.count in use
    | UseTestLocked         // locked in use
    | WaitData(section: Section)
    | InData(section: Section)
    | WaitCmd
    | Writing
    | Reading
    | UnlockCmd
    | Leaving

  datatype Thread = Thread(pc: Pc, goal: Goal, got: Option<Token>)

  datatype Sys = Sys(
    threads: map<Conn, Thread>,
    readers: set<Conn>,          // holders of the shared table lock
    reloading: bool,             // the unique table lock is held
    dataMutex: Option<Conn>,
    cmdMutex: Option<Conn>,
    users: set<Conn>,
    locked: bool,
    holder: Option<Conn>,        // history: whom the lock was last granted to
    open: bool,
    requests: seq<Token>,        // written to the driver's pipe
    replies: seq<Token>,         // waiting to be read from it
    created: nat,                // drivers created so far
    closed: nat,                 // live drivers closed so far
    crashed: bool,               // a message was written to a driver that is gone
    torn: bool                   // a reload replaced the device under a release
  )

  const START: Sys := Sys(map[], {}, false, None, None, {}, false, None, false, [], [], 0, 0, false, false)

  datatype Event =
    | Begin(conn: Conn, goal: Goal)
    | Advance(conn: Conn, ok: bool)     // ok: the driver can be opened
    | PeerReplies
    | ReloadBegins
    | ReloadSwaps
    | ReloadEnds

  function PcOf(s: Sys, c: Conn): Pc {
    if c in s.threads then s.threads[c].pc else Idle
  }

  predicate HoldsCmd(pc: Pc) { pc == Writing || pc == Reading || pc == UnlockCmd }

  // From the success of use to the end of the exchange.
  predicate Exchanging(pc: Pc) { pc == WaitCmd || HoldsCmd(pc) }

  function First(goal: Goal): Pc {
    match goal
    case Ask(_) => TestUser
    case Use => UseTestUser
    case Lock => TestUser
    case Unlock => WaitData(ClearLock)
    case Release => WaitData(Remove)
    case Drop => WaitData(Remove)
    case Close => WaitData(Reset)
  }

  // Where a thread goes on once its connection is a user.
  function AfterUse(goal: Goal): Pc {
    match goal
    case Ask(_) => WaitCmd
    case Lock => WaitData(SetLock)
    case _ => Leaving
  }

  function Goto(s: Sys, c: Conn, pc: Pc): Sys
    requires c in s.threads
  {
    s.(threads := s.threads[c := s.threads[c].(pc := pc)])
  }

  // The device without users and without a driver.
  function Emptied(s: Sys): Sys {
    s.(users := {}, locked := false, open := false, requests := [], replies := [],
       closed := s.closed + if s.open then 1 else 0)
  }

  // The sections under data_mutex; all but a successful opening give the
  // mutex back.
  function OpenSection(s: Sys, c: Conn, ok: bool): Sys
    requires c in s.threads
  {
    if s.open then Goto(s, c, InData(Insert))
    else if ok then Goto(s.(open := true, created := s.created + 1), c, InData(Insert))
    else Goto(s.(dataMutex := None), c, Leaving)
  }

  function InsertSection(s: Sys, c: Conn): Sys
    requires c in s.threads
  {
    Goto(s.(users := s.users + {c}, dataMutex := None), c, AfterUse(s.threads[c].goal))
  }

  predicate OneUser(s: Sys) { |s.users| == 1 }

  // The lock is granted to whoever asks while there is one user, whether or
  // not it is the one.
  function LockSection(s: Sys, c: Conn): Sys
    requires c in s.threads
  {
    var locked, holder := s.locked || OneUser(s), if OneUser(s) then Some(c) else s.holder;
    Goto(s.(locked := locked, holder := holder, dataMutex := None), c, Leaving)
  }

  function UnlockSection(s: Sys, c: Conn): Sys
    requires c in s.threads
  {
    Goto(s.(locked := s.locked && c !in s.users, dataMutex := None), c, Leaving)
  }

  function RemoveSection(s: Sys, c: Conn): Sys
    requires c in s.threads
  {
    Goto(s.(locked := s.locked && c !in s.users, users := s.users - {c}, dataMutex := None), c, Leaving)
  }

  function ResetSection(s: Sys, c: Conn): Sys
    requires c in s.threads
  {
    Goto(Emptied(s).(dataMutex := None), c, Leaving)
  }

  function Execute(s: Sys, c: Conn, section: Section, ok: bool): Sys
    requires c in s.threads
  {
    match section
    case Open => OpenSection(s, c, ok)
    case Insert => InsertSection(s, c)
    case SetLock => LockSection(s, c)
    case ClearLock => UnlockSection(s, c)
    case Remove => RemoveSection(s, c)
    case Reset => ResetSection(s, c)
  }

  predicate Dropping(t: Thread) { t.goal == Drop && t.pc != Idle }

  // Releases that are still at the old device do nothing to the new one.
  function Detached(threads: map<Conn, Thread>): map<Conn, Thread> {
    map c | c in threads :: if Dropping(threads[c]) then threads[c].(pc := Leaving) else threads[c]
  }

  // The unprotected tests of users and locked: where they lead.
  function TestNext(s: Sys, c: Conn): Option<Pc>
    requires c in s.threads
  {
    var t := s.threads[c];
    match t.pc
    case TestUser => Some(if c in s.users then AfterUse(t.goal) else UseTestUser)
    case UseTestUser => Some(if c in s.users then AfterUse(t.goal) else UseTestLocked)
    case UseTestLocked => Some(if s.locked then Leaving else WaitData(Open))
    case _ => None
  }

  function Test(s: Sys, c: Conn): Option<Sys>
    requires c in s.threads
  {
    match TestNext(s, c)
    case Some(pc) => Some(Goto(s, c, pc))
    case None => None
  }

  // Taking data_mutex.
  function Take(s: Sys, c: Conn, section: Section): Option<Sys>
    requires c in s.threads
  {
    if s.dataMutex.Some? then None else Some(Goto(s.(dataMutex := Some(c)), c, InData(section)))
  }

  // Giving back the shared lock of the table.
  function Leave(s: Sys, c: Conn): Sys
    requires c in s.threads
  {
    Goto(s.(readers := s.readers - {c}), c, Idle)
  }

  // The exchange with the driver under cmd_mutex.
  function TakeCmd(s: Sys, c: Conn): Option<Sys>
    requires c in s.threads
  {
    if s.cmdMutex.Some? then None else Some(Goto(s.(cmdMutex := Some(c)), c, Writing))
  }

  function WriteOut(s: Sys, c: Conn): Option<Sys>
    requires c in s.threads
  {
    if !s.open then Some(Goto(s.(cmdMutex := None, crashed := true), c, Leaving))
    else
      match s.threads[c].goal
      case Ask(msg) => Some(Goto(s.(requests := s.requests + [Token(c, msg)]), c, Reading))
      case _ => None
  }

  function ReadIn(s: Sys, c: Conn): Option<Sys>
    requires c in s.threads
  {
    if s.replies == [] then None
    else
      var t := s.threads[c].(pc := UnlockCmd, got := Some(s.replies[0]));
      Some(s.(replies := s.replies[1..], threads := s.threads[c := t]))
  }

  function Exchange(s: Sys, c: Conn): Option<Sys>
    requires c in s.threads
  {
    match s.threads[c].pc
    case WaitCmd => TakeCmd(s, c)
    case Writing => WriteOut(s, c)
    case Reading => ReadIn(s, c)
    case UnlockCmd => Some(Goto(s.(cmdMutex := None), c, Leaving))
    case _ => None
  }

  // One instruction of thread c; None when the thread has to wait.
  function Instruction(s: Sys, c: Conn, ok: bool): Option<Sys>
    requires c in s.threads
  {
    var pc := s.threads[c].pc;
    if pc.InData? then Some(Execute(s, c, pc.section, ok))
    else if Exchanging(pc) then Exchange(s, c)
    else if pc.WaitData? then Take(s, c, pc.section)
    else if pc == Leaving then Some(Leave(s, c))
    else Test(s, c)
  }

  function Fire(s: Sys, e: Event): Option<Sys> {
    match e
    case Begin(c, goal) =>
      if PcOf(s, c) != Idle || (s.reloading && goal != Drop) then None
      else
        var readers := if goal == Drop then s.readers else s.readers + {c};
        Some(s.(readers := readers, threads := s.threads[c := Thread(First(goal), goal, None)]))
    case Advance(c, ok) => if c in s.threads then Instruction(s, c, ok) else None
    case PeerReplies =>
      if s.requests == [] then None
      else Some(s.(requests := s.requests[1..], replies := s.replies + [s.requests[0]]))
    case ReloadBegins => if s.readers != {} || s.reloading then None else Some(s.(reloading := true))
    case ReloadSwaps =>
      if s.reloading then
        Some(Emptied(s).(dataMutex := None, cmdMutex := None, threads := Detached(s.threads),
                         torn := s.torn || exists c :: c in s.threads && Dropping(s.threads[c])))
      else None
    case ReloadEnds => if s.reloading then Some(s.(reloading := false)) else None
  }

  // An event that is not enabled does nothing.
  function Happen(s: Sys, e: Event): Sys {
    match Fire(s, e) case Some(t) => t case None => s
  }

  // The state after a run.
  function After(s: Sys, es: seq<Event>): Sys {
    if es == [] then s else Happen(After(s, es[..|es| - 1]), es[|es| - 1])
  }

  // ---------------------------------------------------------------------
  // Locks and the driver.

  // A lock is held by the thread that is past taking it, and by no other;
  // a thread about to add its user has a driver.
  predicate ThreadOk(s: Sys, c: Conn) {
    var pc := PcOf(s, c);
    && (pc.InData? <==> s.dataMutex == Some(c))
    && (HoldsCmd(pc) <==> s.cmdMutex == Some(c))
    && (pc != Idle && s.threads[c].goal != Drop <==> c in s.readers)
    && (pc != Idle && s.threads[c].goal == Drop ==> AtDrop(pc))
    && (Exchanging(pc) ==> s.threads[c].goal.Ask?)
    && (pc == InData(Insert) ==> s.open) && pc != WaitData(Insert)
  }

  predicate AtDrop(pc: Pc) { pc == WaitData(Remove) || pc == InData(Remove) || pc == Leaving }

  // A reload excludes every request but the releases without the table lock;
  // a used device has a driver; the drivers created are those closed, and the
  // open one.
  predicate DeviceOk(s: Sys) {
    && (s.reloading ==> s.readers == {})
    && (s.users != {} ==> s.open)
    && s.created == s.closed + if s.open then 1 else 0
  }

  ghost predicate Inv(s: Sys) {
    DeviceOk(s) && forall c: Conn :: ThreadOk(s, c)
  }

  lemma OpenKeeps(s: Sys, c: Conn, ok: bool, d: Conn)
    requires DeviceOk(s) && ThreadOk(s, c) && ThreadOk(s, d) && PcOf(s, c) == InData(Open)
    ensures DeviceOk(OpenSection(s, c, ok)) && ThreadOk(OpenSection(s, c, ok), d)
  {}

  lemma InsertKeeps(s: Sys, c: Conn, d: Conn)
    requires DeviceOk(s) && ThreadOk(s, c) && ThreadOk(s, d) && PcOf(s, c) == InData(Insert)
    ensures DeviceOk(InsertSection(s, c)) && ThreadOk(InsertSection(s, c), d)
  {}

  lemma LockKeeps(s: Sys, c: Conn, d: Conn)
    requires DeviceOk(s) && ThreadOk(s, c) && ThreadOk(s, d) && PcOf(s, c) == InData(SetLock)
    ensures DeviceOk(LockSection(s, c)) && ThreadOk(LockSection(s, c), d)
  {
    hide OneUser;
  }

  lemma UnlockKeeps(s: Sys, c: Conn, d: Conn)
    requires DeviceOk(s) && ThreadOk(s, c) && ThreadOk(s, d) && PcOf(s, c) == InData(ClearLock)
    ensures DeviceOk(UnlockSection(s, c)) && ThreadOk(UnlockSection(s, c), d)
  {}

  lemma RemoveKeeps(s: Sys, c: Conn, d: Conn)
    requires DeviceOk(s) && ThreadOk(s, c) && ThreadOk(s, d) && PcOf(s, c) == InData(Remove)
    ensures DeviceOk(RemoveSection(s, c)) && ThreadOk(RemoveSection(s, c), d)
  {}

  lemma ResetKeeps(s: Sys, c: Conn, d: Conn)
    requires DeviceOk(s) && ThreadOk(s, c) && ThreadOk(s, d) && PcOf(s, c) == InData(Reset)
    ensures DeviceOk(ResetSection(s, c)) && ThreadOk(ResetSection(s, c), d)
  {}

  lemma ExecuteKeeps(s: Sys, c: Conn, section: Section, ok: bool, d: Conn)
    requires DeviceOk(s) && ThreadOk(s, c) && ThreadOk(s, d) && PcOf(s, c) == InData(section)
    ensures DeviceOk(Execute(s, c, section, ok)) && ThreadOk(Execute(s, c, section, ok), d)
  {
    hide DeviceOk, ThreadOk, OpenSection, InsertSection, LockSection, UnlockSection, RemoveSection, ResetSection;
    match section
    case Open => OpenKeeps(s, c, ok, d);
    case Insert => InsertKeeps(s, c, d);
    case SetLock => LockKeeps(s, c, d);
    case ClearLock => UnlockKeeps(s, c, d);
    case Remove => RemoveKeeps(s, c, d);
    case Reset => ResetKeeps(s, c, d);
  }

  lemma TestKeeps(s: Sys, c: Conn, d: Conn)
    requires DeviceOk(s) && ThreadOk(s, c) && ThreadOk(s, d) && c in s.threads && Test(s, c).Some?
    ensures DeviceOk(Test(s, c).value) && ThreadOk(Test(s, c).value, d)
  {
    GotoKeeps(s, c, TestNext(s, c).value, d);
    hide Goto, DeviceOk;
  }

  lemma GotoKeeps(s: Sys, c: Conn, pc: Pc, d: Conn)
    requires DeviceOk(s) && ThreadOk(s, c) && ThreadOk(s, d)
    requires c in s.threads && s.threads[c].pc != Idle && !s.threads[c].pc.InData? && !HoldsCmd(s.threads[c].pc)
    requires pc != Idle && !pc.InData? && !HoldsCmd(pc) && pc != WaitData(Insert)
    requires pc == WaitCmd ==> s.threads[c].goal.Ask?
    requires s.threads[c].goal != Drop
    ensures DeviceOk(Goto(s, c, pc)) && ThreadOk(Goto(s, c, pc), d)
  {}

  lemma TakeKeeps(s: Sys, c: Conn, section: Section, d: Conn)
    requires DeviceOk(s) && ThreadOk(s, c) && ThreadOk(s, d) && PcOf(s, c) == WaitData(section)
    requires Take(s, c, section).Some?
    ensures DeviceOk(Take(s, c, section).value) && ThreadOk(Take(s, c, section).value, d)
  {}

  lemma LeaveKeeps(s: Sys, c: Conn, d: Conn)
    requires DeviceOk(s) && ThreadOk(s, c) && ThreadOk(s, d) && PcOf(s, c) == Leaving
    ensures DeviceOk(Leave(s, c)) && ThreadOk(Leave(s, c), d)
  {}

  lemma TakeCmdKeeps(s: Sys, c: Conn, d: Conn)
    requires DeviceOk(s) && ThreadOk(s, c) && ThreadOk(s, d) && PcOf(s, c) == WaitCmd && TakeCmd(s, c).Some?
    ensures DeviceOk(TakeCmd(s, c).value) && ThreadOk(TakeCmd(s, c).value, d)
  {}

  lemma WriteOutKeeps(s: Sys, c: Conn, d: Conn)
    requires DeviceOk(s) && ThreadOk(s, c) && ThreadOk(s, d) && PcOf(s, c) == Writing && WriteOut(s, c).Some?
    ensures DeviceOk(WriteOut(s, c).value) && ThreadOk(WriteOut(s, c).value, d)
  {}

  lemma ReadInKeeps(s: Sys, c: Conn, d: Conn)
    requires DeviceOk(s) && ThreadOk(s, c) && ThreadOk(s, d) && PcOf(s, c) == Reading && ReadIn(s, c).Some?
    ensures DeviceOk(ReadIn(s, c).value) && ThreadOk(ReadIn(s, c).value, d)
  {}

  lemma GiveCmdKeeps(s: Sys, c: Conn, d: Conn)
    requires DeviceOk(s) && ThreadOk(s, c) && ThreadOk(s, d) && PcOf(s, c) == UnlockCmd
    ensures DeviceOk(Goto(s.(cmdMutex := None), c, Leaving)) && ThreadOk(Goto(s.(cmdMutex := None), c, Leaving), d)
  {}

  lemma ExchangeKeeps(s: Sys, c: Conn, d: Conn)
    requires DeviceOk(s) && ThreadOk(s, c) && ThreadOk(s, d) && c in s.threads && Exchange(s, c).Some?
    ensures DeviceOk(Exchange(s, c).value) && ThreadOk(Exchange(s, c).value, d)
  {
    hide DeviceOk, ThreadOk, TakeCmd, WriteOut, ReadIn, Goto;
    match s.threads[c].pc
    case WaitCmd => TakeCmdKeeps(s, c, d);
    case Writing => WriteOutKeeps(s, c, d);
    case Reading => ReadInKeeps(s, c, d);
    case UnlockCmd => GiveCmdKeeps(s, c, d);
    case _ =>
  }

  lemma InstructionKeeps(s: Sys, c: Conn, ok: bool, d: Conn)
    requires DeviceOk(s) && ThreadOk(s, c) && ThreadOk(s, d) && c in s.threads && Instruction(s, c, ok).Some?
    ensures DeviceOk(Instruction(s, c, ok).value) && ThreadOk(Instruction(s, c, ok).value, d)
  {
    hide Execute, Test, Take, Leave, Exchange, DeviceOk, ThreadOk;
    var pc := s.threads[c].pc;
    if pc.InData? {
      ExecuteKeeps(s, c, pc.section, ok, d);
    } else if Exchanging(pc) {
      ExchangeKeeps(s, c, d);
    } else if pc.WaitData? {
      TakeKeeps(s, c, pc.section, d);
    } else if pc == Leaving {
      LeaveKeeps(s, c, d);
    } else {
      TestKeeps(s, c, d);
    }
  }

  lemma FireKeeps(s: Sys, e: Event, d: Conn)
    requires DeviceOk(s) && ThreadOk(s, d) && Fire(s, e).Some?
    requires (e.Begin? || e.Advance?) ==> ThreadOk(s, e.conn)
    ensures DeviceOk(Fire(s, e).value) && ThreadOk(Fire(s, e).value, d)
  {
    if e.Advance? {
      InstructionKeeps(s, e.conn, e.ok, d);
    }
    hide Instruction;
  }

  // In every reachable state of any number of threads, closes and reloads
  // included: the locks exclude each other, a nonempty set of users has a
  // driver, and the drivers created exceed those closed by the open one.
  lemma {:induction false} DriverOpenAlways(es: seq<Event>)
    ensures Inv(After(START, es))
  {
    hide DeviceOk, ThreadOk, Fire;
    if es == [] {
      StartOk(0);
      forall d: Conn
        ensures DeviceOk(START) && ThreadOk(START, d)
      {
        StartOk(d);
      }
    } else {
      var now, e := After(START, es[..|es| - 1]), es[|es| - 1];
      DriverOpenAlways(es[..|es| - 1]);
      if Fire(now, e).Some? {
        FireKeeps(now, e, 0);
        forall d: Conn
          ensures DeviceOk(Fire(now, e).value) && ThreadOk(Fire(now, e).value, d)
        {
          FireKeeps(now, e, d);
        }
      }
    }
  }

  lemma StartOk(d: Conn)
    ensures DeviceOk(START) && ThreadOk(START, d)
    ensures PipeOk(START) && ThreadPaired(START, d)
  {}

  // ---------------------------------------------------------------------
  // Requests and their replies.

  // A close whose section runs while a thread is between its use and its
  // reply: only the shared table lock is held by both.
  ghost predicate RacingClose(s: Sys, e: Event) {
    && e.Advance? && PcOf(s, e.conn) == InData(Reset)
    && exists d: Conn :: Exchanging(PcOf(s, d))
  }

  // A reload does not race: it starts when no request is running.
  ghost predicate NoRacingClose(es: seq<Event>) {
    forall i :: 0 <= i < |es| ==> !RacingClose(After(START, es[..i]), es[i])
  }

  predicate ThreadPaired(s: Sys, c: Conn) {
    var pc := PcOf(s, c);
    && (Exchanging(pc) ==> c in s.users)
    && (pc == Reading ==> s.threads[c].goal.Ask? && s.requests + s.replies == [Token(c, s.threads[c].goal.msg)])
    && (pc == Writing || pc == UnlockCmd ==> s.requests == [] && s.replies == [])
    && (pc == UnlockCmd ==> s.threads[c].got.Some?)
    && (c in s.threads && s.threads[c].got.Some? ==>
          s.threads[c].goal.Ask? && s.threads[c].got.value == Token(c, s.threads[c].goal.msg))
  }

  // While nobody holds the command mutex the pipe is empty.
  predicate PipeOk(s: Sys) {
    && (s.cmdMutex == None ==> s.requests == [] && s.replies == [])
    && !s.crashed
  }

  ghost predicate Paired(s: Sys) {
    PipeOk(s) && forall c: Conn :: ThreadPaired(s, c)
  }

  lemma OpenPairs(s: Sys, c: Conn, ok: bool, d: Conn)
    requires ThreadOk(s, d) && PipeOk(s) && ThreadPaired(s, c) && ThreadPaired(s, d) && PcOf(s, c) == InData(Open)
    ensures PipeOk(OpenSection(s, c, ok)) && ThreadPaired(OpenSection(s, c, ok), d)
  {}

  lemma InsertPairs(s: Sys, c: Conn, d: Conn)
    requires ThreadOk(s, d) && PipeOk(s) && ThreadPaired(s, c) && ThreadPaired(s, d) && PcOf(s, c) == InData(Insert)
    ensures PipeOk(InsertSection(s, c)) && ThreadPaired(InsertSection(s, c), d)
  {}

  lemma LockPairs(s: Sys, c: Conn, d: Conn)
    requires ThreadOk(s, d) && PipeOk(s) && ThreadPaired(s, c) && ThreadPaired(s, d) && PcOf(s, c) == InData(SetLock)
    ensures PipeOk(LockSection(s, c)) && ThreadPaired(LockSection(s, c), d)
  {
    hide OneUser;
  }

  lemma UnlockPairs(s: Sys, c: Conn, d: Conn)
    requires ThreadOk(s, d) && PipeOk(s) && ThreadPaired(s, c) && ThreadPaired(s, d) && PcOf(s, c) == InData(ClearLock)
    ensures PipeOk(UnlockSection(s, c)) && ThreadPaired(UnlockSection(s, c), d)
  {}

  lemma RemovePairs(s: Sys, c: Conn, d: Conn)
    requires ThreadOk(s, d) && PipeOk(s) && ThreadPaired(s, c) && ThreadPaired(s, d) && PcOf(s, c) == InData(Remove)
    ensures PipeOk(RemoveSection(s, c)) && ThreadPaired(RemoveSection(s, c), d)
  {}

  lemma ResetPairs(s: Sys, c: Conn, d: Conn)
    requires ThreadOk(s, d) && PipeOk(s) && ThreadPaired(s, c) && ThreadPaired(s, d) && PcOf(s, c) == InData(Reset)
    requires !Exchanging(PcOf(s, d)) && s.cmdMutex == None
    ensures PipeOk(ResetSection(s, c)) && ThreadPaired(ResetSection(s, c), d)
  {}

  lemma ExecutePairs(s: Sys, c: Conn, section: Section, ok: bool, d: Conn)
    requires ThreadOk(s, d) && PipeOk(s) && ThreadPaired(s, c) && ThreadPaired(s, d) && PcOf(s, c) == InData(section)
    requires section == Reset ==> !Exchanging(PcOf(s, d)) && s.cmdMutex == None
    ensures PipeOk(Execute(s, c, section, ok)) && ThreadPaired(Execute(s, c, section, ok), d)
  {
    hide ThreadOk, PipeOk, ThreadPaired;
    hide OpenSection, InsertSection, LockSection, UnlockSection, RemoveSection, ResetSection;
    match section
    case Open => OpenPairs(s, c, ok, d);
    case Insert => InsertPairs(s, c, d);
    case SetLock => LockPairs(s, c, d);
    case ClearLock => UnlockPairs(s, c, d);
    case Remove => RemovePairs(s, c, d);
    case Reset => ResetPairs(s, c, d);
  }

  lemma GotoPairs(s: Sys, c: Conn, pc: Pc, d: Conn)
    requires PipeOk(s) && ThreadPaired(s, c) && ThreadPaired(s, d) && c in s.threads
    requires !HoldsCmd(pc) && (pc == WaitCmd ==> c in s.users)
    ensures PipeOk(Goto(s, c, pc)) && ThreadPaired(Goto(s, c, pc), d)
  {}

  lemma TestPairs(s: Sys, c: Conn, d: Conn)
    requires PipeOk(s) && ThreadPaired(s, c) && ThreadPaired(s, d) && c in s.threads && Test(s, c).Some?
    ensures PipeOk(Test(s, c).value) && ThreadPaired(Test(s, c).value, d)
  {
    GotoPairs(s, c, TestNext(s, c).value, d);
    hide Goto, PipeOk, ThreadPaired;
  }

  lemma TakePairs(s: Sys, c: Conn, section: Section, d: Conn)
    requires PipeOk(s) && ThreadPaired(s, c) && ThreadPaired(s, d) && PcOf(s, c) == WaitData(section)
    requires Take(s, c, section).Some?
    ensures PipeOk(Take(s, c, section).value) && ThreadPaired(Take(s, c, section).value, d)
  {}

  lemma LeavePairs(s: Sys, c: Conn, d: Conn)
    requires PipeOk(s) && ThreadPaired(s, c) && ThreadPaired(s, d) && PcOf(s, c) == Leaving
    ensures PipeOk(Leave(s, c)) && ThreadPaired(Leave(s, c), d)
  {}

  lemma TakeCmdPairs(s: Sys, c: Conn, d: Conn)
    requires ThreadOk(s, d) && PipeOk(s) && ThreadPaired(s, c) && ThreadPaired(s, d)
    requires PcOf(s, c) == WaitCmd && TakeCmd(s, c).Some?
    ensures PipeOk(TakeCmd(s, c).value) && ThreadPaired(TakeCmd(s, c).value, d)
  {}

  lemma WriteOutPairs(s: Sys, c: Conn, d: Conn)
    requires DeviceOk(s) && ThreadOk(s, c) && ThreadOk(s, d)
    requires PipeOk(s) && ThreadPaired(s, c) && ThreadPaired(s, d)
    requires PcOf(s, c) == Writing && WriteOut(s, c).Some?
    ensures PipeOk(WriteOut(s, c).value) && ThreadPaired(WriteOut(s, c).value, d)
  {}

  lemma ReadInPairs(s: Sys, c: Conn, d: Conn)
    requires ThreadOk(s, c) && ThreadOk(s, d) && PipeOk(s) && ThreadPaired(s, c) && ThreadPaired(s, d)
    requires PcOf(s, c) == Reading && ReadIn(s, c).Some?
    ensures PipeOk(ReadIn(s, c).value) && ThreadPaired(ReadIn(s, c).value, d)
  {
    assert s.replies == (s.requests + s.replies)[|s.requests|..];
  }

  lemma GiveCmdPairs(s: Sys, c: Conn, d: Conn)
    requires ThreadOk(s, c) && ThreadOk(s, d) && PipeOk(s) && ThreadPaired(s, c) && ThreadPaired(s, d)
    requires PcOf(s, c) == UnlockCmd
    ensures PipeOk(Goto(s.(cmdMutex := None), c, Leaving)) && ThreadPaired(Goto(s.(cmdMutex := None), c, Leaving), d)
  {}

  lemma ExchangePairs(s: Sys, c: Conn, d: Conn)
    requires DeviceOk(s) && ThreadOk(s, c) && ThreadOk(s, d)
    requires PipeOk(s) && ThreadPaired(s, c) && ThreadPaired(s, d) && c in s.threads && Exchange(s, c).Some?
    ensures PipeOk(Exchange(s, c).value) && ThreadPaired(Exchange(s, c).value, d)
  {
    hide DeviceOk, ThreadOk, PipeOk, ThreadPaired, TakeCmd, WriteOut, ReadIn, Goto;
    match s.threads[c].pc
    case WaitCmd => TakeCmdPairs(s, c, d);
    case Writing => WriteOutPairs(s, c, d);
    case Reading => ReadInPairs(s, c, d);
    case UnlockCmd => GiveCmdPairs(s, c, d);
    case _ =>
  }

  lemma InstructionPairs(s: Sys, c: Conn, ok: bool, d: Conn)
    requires DeviceOk(s) && ThreadOk(s, c) && ThreadOk(s, d)
    requires PipeOk(s) && ThreadPaired(s, c) && ThreadPaired(s, d)
    requires c in s.threads && Instruction(s, c, ok).Some?
    requires PcOf(s, c) == InData(Reset) ==> !Exchanging(PcOf(s, d)) && s.cmdMutex == None
    ensures PipeOk(Instruction(s, c, ok).value) && ThreadPaired(Instruction(s, c, ok).value, d)
  {
    hide Execute, Test, Take, Leave, Exchange, DeviceOk, ThreadOk, PipeOk, ThreadPaired;
    var pc := s.threads[c].pc;
    if pc.InData? {
      ExecutePairs(s, c, pc.section, ok, d);
    } else if Exchanging(pc) {
      ExchangePairs(s, c, d);
    } else if pc.WaitData? {
      TakePairs(s, c, pc.section, d);
    } else if pc == Leaving {
      LeavePairs(s, c, d);
    } else {
      TestPairs(s, c, d);
    }
  }

  lemma CmdHolder(s: Sys)
    requires Inv(s)
    ensures s.cmdMutex.Some? ==> Exchanging(PcOf(s, s.cmdMutex.value))
  {
    if s.cmdMutex.Some? {
      assert ThreadOk(s, s.cmdMutex.value);
    }
  }

  lemma BeginPairs(s: Sys, c: Conn, goal: Goal, d: Conn)
    requires PipeOk(s) && ThreadPaired(s, d) && Fire(s, Begin(c, goal)).Some?
    ensures PipeOk(Fire(s, Begin(c, goal)).value) && ThreadPaired(Fire(s, Begin(c, goal)).value, d)
  {}

  lemma PeerPairs(s: Sys, d: Conn)
    requires Inv(s) && Paired(s) && Fire(s, PeerReplies).Some?
    ensures PipeOk(Fire(s, PeerReplies).value) && ThreadPaired(Fire(s, PeerReplies).value, d)
  {
    assert ThreadOk(s, d) && ThreadPaired(s, d);
    assert s.cmdMutex.Some? && ThreadOk(s, s.cmdMutex.value) && ThreadPaired(s, s.cmdMutex.value);
  }

  lemma SwapPairs(s: Sys, d: Conn)
    requires Inv(s) && Paired(s) && Fire(s, ReloadSwaps).Some?
    ensures PipeOk(Fire(s, ReloadSwaps).value) && ThreadPaired(Fire(s, ReloadSwaps).value, d)
  {
    assert ThreadOk(s, d) && ThreadPaired(s, d);
    NobodyReloading(s, d);
    if s.cmdMutex.Some? {
      NobodyReloading(s, s.cmdMutex.value);
    }
  }

  lemma FirePairs(s: Sys, e: Event, d: Conn)
    requires Inv(s) && Paired(s) && Fire(s, e).Some? && !RacingClose(s, e)
    ensures PipeOk(Fire(s, e).value) && ThreadPaired(Fire(s, e).value, d)
  {
    assert ThreadOk(s, d) && ThreadPaired(s, d);
    match e
    case Advance(c, ok) =>
      assert ThreadOk(s, c) && ThreadPaired(s, c);
      CmdHolder(s);
      InstructionPairs(s, c, ok, d);
      hide Instruction, PipeOk, ThreadPaired, ThreadOk;
    case Begin(c, goal) =>
      BeginPairs(s, c, goal, d);
      hide Fire;
    case PeerReplies =>
      PeerPairs(s, d);
      hide Fire;
    case ReloadSwaps =>
      SwapPairs(s, d);
      hide Fire;
    case _ =>
  }

  lemma NobodyReloading(s: Sys, d: Conn)
    requires DeviceOk(s) && ThreadOk(s, d) && s.reloading
    ensures (PcOf(s, d) == Idle || Dropping(s.threads[d])) && s.cmdMutex != Some(d)
  {}

  // As long as no close races with an exchange: no message goes to a driver
  // that is gone, the pipe is empty whenever the command mutex is free, and
  // every reply a thread has got is the reply to its own message.
  lemma {:induction false} RepliesPaired(es: seq<Event>)
    requires NoRacingClose(es)
    ensures Paired(After(START, es))
  {
    hide PipeOk, ThreadPaired, Fire, RacingClose;
    if es == [] {
      StartOk(0);
      forall d: Conn
        ensures PipeOk(START) && ThreadPaired(START, d)
      {
        StartOk(d);
      }
    } else {
      var front, e := es[..|es| - 1], es[|es| - 1];
      var now := After(START, front);
      assert NoRacingClose(front) by {
        assert forall i :: 0 <= i < |front| ==> front[..i] == es[..i];
      }
      assert !RacingClose(now, e);
      RepliesPaired(front);
      DriverOpenAlways(front);
      if Fire(now, e).Some? {
        FirePairs(now, e, 0);
        forall d: Conn
          ensures PipeOk(Fire(now, e).value) && ThreadPaired(Fire(now, e).value, d)
        {
          FirePairs(now, e, d);
        }
      }
    }
  }

  // A close beside an exchange leaves a thread in the exchange that is no
  // user any more.
  lemma RacingBreaks(s: Sys, e: Event)
    requires Inv(s) && RacingClose(s, e)
    ensures !Paired(Happen(s, e))
  {
    var d: Conn :| Exchanging(PcOf(s, d));
    assert d != e.conn;
    CloseForgets(s, e.conn, e.ok, d);
    hide PipeOk, Happen;
    assert !ThreadPaired(Happen(s, e), d);
  }

  lemma CloseForgets(s: Sys, c: Conn, ok: bool, d: Conn)
    requires PcOf(s, c) == InData(Reset) && d != c
    ensures var t := Happen(s, Advance(c, ok));
            t.users == {} && PcOf(t, d) == PcOf(s, d)
  {}

  // The exact run: requests and replies stay paired throughout exactly if no
  // close runs beside an exchange.
  lemma PairedThroughoutIff(es: seq<Event>)
    ensures (forall i :: 0 <= i <= |es| ==> Paired(After(START, es[..i]))) <==> NoRacingClose(es)
  {
    hide Paired, Inv, Happen;
    if NoRacingClose(es) {
      forall i | 0 <= i <= |es|
        ensures Paired(After(START, es[..i]))
      {
        PrefixNoRacing(es, i);
        RepliesPaired(es[..i]);
      }
    } else {
      var i :| 0 <= i < |es| && RacingClose(After(START, es[..i]), es[i]);
      DriverOpenAlways(es[..i]);
      RacingBreaks(After(START, es[..i]), es[i]);
      assert es[..i + 1][..i] == es[..i];
      assert After(START, es[..i + 1]) == Happen(After(START, es[..i]), es[i]);
    }
  }

  lemma PrefixNoRacing(es: seq<Event>, i: nat)
    requires NoRacingClose(es) && i <= |es|
    ensures NoRacingClose(es[..i])
  {
    hide RacingClose, After;
    assert forall j :: 0 <= j < i ==> es[..i][..j] == es[..j];
  }
}
