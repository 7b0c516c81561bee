/** The threads one at a time: a request whose thread runs alone does what
    DeviceModel says it does, so that the interleaved and the serial model are
    of the same code (server/device.cpp:31-148). */
module ThreadSerial {
  import opened Connections
  import opened Results
  import opened Threads
  import ThreadLocks
  import Model = DeviceModel

  // Instructions of one thread.
  function Steps(s: Sys, c: Conn, ok: bool, n: nat): Sys
    decreases n
  {
    if n == 0 then s else Steps(Happen(s, Advance(c, ok)), c, ok, n - 1)
  }

  // A whole request: instructions as far as they go, the reply of the peer if
  // it was asked, and the remaining instructions.
  function Alone(s: Sys, c: Conn, goal: Goal, ok: bool): Sys {
    Steps(Happen(Steps(Happen(s, Begin(c, goal)), c, ok, 9), PeerReplies), c, ok, 3)
  }

  // Nobody does anything.
  ghost predicate AtRest(s: Sys) {
    && s.dataMutex == None && s.cmdMutex == None && !s.reloading && s.readers == {}
    && s.requests == [] && s.replies == []
    && (s.users != {} ==> s.open)
    && forall c: Conn :: PcOf(s, c) == Idle
  }

  function View(s: Sys): Model.State { Model.State(s.users, s.locked, s.open, map[]) }

  function RequestOf(c: Conn, goal: Goal, ok: bool): Model.Request {
    var opening := if ok then None else Some("");
    match goal
    case Ask(msg) => Model.Ask(c, msg, opening, Ok(""))
    case Use => Model.Use(c, opening)
    case Lock => Model.Lock(c, opening)
    case Unlock => Model.Unlock(c)
    case Release => Model.Release(c)
    case Drop => Model.Release(c)
    case Close => Model.Close
  }

  // ---------------------------------------------------------------------
  // Single instructions.

  function At(s: Sys, c: Conn, pc: Pc): map<Conn, Thread>
    requires c in s.threads
  {
    s.threads[c := s.threads[c].(pc := pc)]
  }

  lemma TestIs(s: Sys, c: Conn, ok: bool)
    requires PcOf(s, c) == TestUser || PcOf(s, c) == UseTestUser || PcOf(s, c) == UseTestLocked
    ensures Happen(s, Advance(c, ok)) == s.(threads := At(s, c, TestNext(s, c).value))
  {
    ThreadLocks.AdvanceHappens(s, c, ok);
    hide Happen, Execute, Exchange, Take, Leave;
  }

  lemma TakeIs(s: Sys, c: Conn, ok: bool, section: Section)
    requires PcOf(s, c) == WaitData(section) && s.dataMutex == None
    ensures Happen(s, Advance(c, ok)) == s.(dataMutex := Some(c), threads := At(s, c, InData(section)))
  {
    ThreadLocks.AdvanceHappens(s, c, ok);
    hide Happen, Execute, Exchange, Test, Leave;
  }

  lemma ExecuteIs(s: Sys, c: Conn, ok: bool, section: Section)
    requires PcOf(s, c) == InData(section)
    ensures Happen(s, Advance(c, ok)) == Execute(s, c, section, ok)
  {
    ThreadLocks.AdvanceHappens(s, c, ok);
    hide Happen, Execute, Exchange, Test, Take, Leave;
  }

  lemma LeaveIs(s: Sys, c: Conn, ok: bool)
    requires PcOf(s, c) == Leaving
    ensures Happen(s, Advance(c, ok)) == s.(readers := s.readers - {c}, threads := At(s, c, Idle))
  {
    ThreadLocks.AdvanceHappens(s, c, ok);
    hide Happen, Execute, Exchange, Test, Take;
  }

  lemma ExchangeIs(s: Sys, c: Conn, ok: bool)
    requires Exchanging(PcOf(s, c)) && Exchange(s, c).Some?
    ensures Happen(s, Advance(c, ok)) == Exchange(s, c).value
  {
    ThreadLocks.AdvanceHappens(s, c, ok);
    hide Happen, Execute, Exchange, Test, Take, Leave;
  }

  // A thread that is idle or waits for a reply does nothing.
  lemma NothingDone(s: Sys, c: Conn, ok: bool)
    requires PcOf(s, c) == Idle || (PcOf(s, c) == Reading && s.replies == [])
    ensures Happen(s, Advance(c, ok)) == s
  {
    ThreadLocks.AdvanceHappens(s, c, ok);
    hide Happen, Execute, Take, Leave, TakeCmd, WriteOut;
  }

  lemma {:induction false} StepsNothing(s: Sys, c: Conn, ok: bool, n: nat)
    requires PcOf(s, c) == Idle || (PcOf(s, c) == Reading && s.replies == [])
    ensures Steps(s, c, ok, n) == s
  {
    hide Happen;
    if n > 0 {
      NothingDone(s, c, ok);
      StepsNothing(s, c, ok, n - 1);
    }
  }

  lemma {:induction false} StepsAdd(s: Sys, c: Conn, ok: bool, m: nat, n: nat)
    ensures Steps(s, c, ok, m + n) == Steps(Steps(s, c, ok, m), c, ok, n)
    decreases m
  {
    hide Happen;
    if m > 0 {
      StepsAdd(Happen(s, Advance(c, ok)), c, ok, m - 1, n);
    }
  }

  lemma OneMore(s: Sys, c: Conn, ok: bool, k: nat)
    ensures Steps(s, c, ok, k + 1) == Happen(Steps(s, c, ok, k), Advance(c, ok))
    ensures Steps(s, c, ok, 0) == s
  {
    StepsAdd(s, c, ok, k, 1);
    hide Happen;
    assert Steps(Steps(s, c, ok, k), c, ok, 1) == Steps(Happen(Steps(s, c, ok, k), Advance(c, ok)), c, ok, 0);
  }

  // ---------------------------------------------------------------------
  // Getting in.

  predicate GetsIn(s: Sys, c: Conn, ok: bool) { c in s.users || (!s.locked && (s.open || ok)) }

  // The tests, up to the wait for the mutex, or the end.
  lemma Tests(b: Sys, c: Conn, ok: bool) returns (k: nat, t: Sys)
    requires PcOf(b, c) == TestUser || PcOf(b, c) == UseTestUser
    ensures k <= 3 && t == Steps(b, c, ok, k)
    ensures t == b.(threads := At(b, c, if c in b.users then AfterUse(b.threads[c].goal)
                                        else if b.locked then Leaving
                                        else WaitData(Open)))
  {
    OneMore(b, c, ok, 0);
    hide Happen, Steps, AfterUse;
    k, t := 0, b;
    if PcOf(t, c) == TestUser {
      TestIs(t, c, ok);
      k, t := 1, Happen(t, Advance(c, ok));
      OneMore(b, c, ok, 1);
    }
    if c !in b.users || PcOf(b, c) == UseTestUser {
      OneMore(b, c, ok, k);
      TestIs(t, c, ok);
      k, t := k + 1, Happen(t, Advance(c, ok));
    }
    if c !in b.users {
      OneMore(b, c, ok, k);
      TestIs(t, c, ok);
      k, t := k + 1, Happen(t, Advance(c, ok));
    }
  }

  // The section that opens and inserts.
  lemma Inserts(b: Sys, c: Conn, ok: bool, k: nat, t: Sys) returns (m: nat, u: Sys)
    requires t == Steps(b, c, ok, k) && PcOf(t, c) == WaitData(Open) && t.dataMutex == None
    ensures m <= 3 && u == Steps(b, c, ok, k + m)
    ensures t.open || ok ==>
              u == t.(threads := At(t, c, AfterUse(t.threads[c].goal)), users := t.users + {c}, open := true,
                      created := t.created + if t.open then 0 else 1)
    ensures !t.open && !ok ==> u == t.(threads := At(t, c, Leaving))
  {
    hide Happen, Steps, AfterUse, Execute;
    OneMore(b, c, ok, k);
    TakeIs(t, c, ok, Open);
    m, u := 1, Happen(t, Advance(c, ok));
    OneMore(b, c, ok, k + m);
    ExecuteIs(u, c, ok, Open);
    OpenIs(u, c, ok);
    m, u := 2, Happen(u, Advance(c, ok));
    if t.open || ok {
      OneMore(b, c, ok, k + m);
      ExecuteIs(u, c, ok, Insert);
      InsertIs(u, c, ok);
      m, u := 3, Happen(u, Advance(c, ok));
    }
  }

  lemma OpenIs(s: Sys, c: Conn, ok: bool)
    requires PcOf(s, c) == InData(Open)
    ensures Execute(s, c, Open, ok) ==
            if s.open || ok then
              s.(threads := At(s, c, InData(Insert)), open := true, created := s.created + if s.open then 0 else 1)
            else s.(threads := At(s, c, Leaving), dataMutex := None)
  {}

  lemma InsertIs(s: Sys, c: Conn, ok: bool)
    requires PcOf(s, c) == InData(Insert)
    ensures Execute(s, c, Insert, ok) ==
            s.(threads := At(s, c, AfterUse(s.threads[c].goal)), users := s.users + {c}, dataMutex := None)
  {}

  lemma GetIn(b: Sys, c: Conn, ok: bool) returns (k: nat, t: Sys)
    requires (PcOf(b, c) == TestUser || PcOf(b, c) == UseTestUser) && b.dataMutex == None
    requires b.users != {} ==> b.open
    ensures k <= 6 && t == Steps(b, c, ok, k)
    ensures GetsIn(b, c, ok) ==>
              t == b.(threads := At(b, c, AfterUse(b.threads[c].goal)), users := b.users + {c}, open := true,
                      created := b.created + if b.open then 0 else 1)
    ensures !GetsIn(b, c, ok) ==> t == b.(threads := At(b, c, Leaving))
  {
    hide Happen, Steps, AfterUse;
    k, t := Tests(b, c, ok);
    if c in b.users {
      assert b.users + {c} == b.users;
    } else if !b.locked {
      var m;
      m, t := Inserts(b, c, ok, k, t);
      k := k + m;
    }
  }

  // A section of its own.
  lemma OneSection(b: Sys, c: Conn, ok: bool, k: nat, t: Sys, section: Section) returns (u: Sys)
    requires t == Steps(b, c, ok, k) && PcOf(t, c) == WaitData(section) && t.dataMutex == None
    ensures u == Steps(b, c, ok, k + 2)
    ensures u == Execute(t.(dataMutex := Some(c), threads := At(t, c, InData(section))), c, section, ok)
  {
    hide Happen, Steps, Execute;
    OneMore(b, c, ok, k);
    TakeIs(t, c, ok, section);
    OneMore(b, c, ok, k + 1);
    u := Happen(t, Advance(c, ok));
    ExecuteIs(u, c, ok, section);
    u := Happen(u, Advance(c, ok));
  }

  // The end of a request that has sent nothing.
  lemma Ends(b: Sys, c: Conn, ok: bool, k: nat, t: Sys)
    requires k <= 8 && t == Steps(b, c, ok, k) && PcOf(t, c) == Leaving && t.requests == []
    ensures Steps(Happen(Steps(b, c, ok, 9), PeerReplies), c, ok, 3) ==
            t.(readers := t.readers - {c}, threads := At(t, c, Idle))
  {
    hide Steps, Happen;
    OneMore(b, c, ok, k);
    LeaveIs(t, c, ok);
    var u := Happen(t, Advance(c, ok));
    StepsAdd(b, c, ok, k + 1, 8 - k);
    StepsNothing(u, c, ok, 8 - k);
    assert k + 1 + (8 - k) == 9;
    NoReply(u);
    StepsNothing(u, c, ok, 3);
  }

  lemma NoReply(s: Sys)
    requires s.requests == []
    ensures Happen(s, PeerReplies) == s
  {
    hide Instruction;
  }

  // The exchange.
  lemma Exchanges(b: Sys, c: Conn, ok: bool, k: nat, t: Sys, msg: string)
    requires k <= 6 && t == Steps(b, c, ok, k) && PcOf(t, c) == WaitCmd && t.threads[c].goal == Ask(msg)
    requires t.cmdMutex == None && t.open && t.requests == [] && t.replies == []
    ensures Steps(Happen(Steps(b, c, ok, 9), PeerReplies), c, ok, 3) ==
            t.(readers := t.readers - {c}, threads := t.threads[c := Thread(Idle, Ask(msg), Some(Token(c, msg)))])
  {
    hide Steps, Happen;
    OneMore(b, c, ok, k);
    ExchangeIs(t, c, ok);
    var u := Happen(t, Advance(c, ok));
    OneMore(b, c, ok, k + 1);
    ExchangeIs(u, c, ok);
    u := Happen(u, Advance(c, ok));
    StepsAdd(b, c, ok, k + 2, 7 - k);
    StepsNothing(u, c, ok, 7 - k);
    assert k + 2 + (7 - k) == 9 && u == Steps(b, c, ok, 9);
    OneReply(u);
    var v := Happen(u, PeerReplies);
    Replied(v, c, ok, msg);
    assert v.threads[c := Thread(Idle, Ask(msg), Some(Token(c, msg)))] ==
           t.threads[c := Thread(Idle, Ask(msg), Some(Token(c, msg)))];
  }

  lemma OneReply(s: Sys)
    requires |s.requests| == 1 && s.replies == []
    ensures Happen(s, PeerReplies) == s.(requests := [], replies := s.requests)
  {
    hide Instruction;
    assert s.requests == [s.requests[0]];
  }

  lemma Replied(v: Sys, c: Conn, ok: bool, msg: string)
    requires PcOf(v, c) == Reading && v.threads[c].goal == Ask(msg) && v.replies == [Token(c, msg)]
    ensures Steps(v, c, ok, 3) ==
            v.(replies := [], cmdMutex := None, readers := v.readers - {c},
               threads := v.threads[c := Thread(Idle, Ask(msg), Some(Token(c, msg)))])
  {
    hide Steps, Happen;
    OneMore(v, c, ok, 0);
    ExchangeIs(v, c, ok);
    var u := Happen(v, Advance(c, ok));
    OneMore(v, c, ok, 1);
    ExchangeIs(u, c, ok);
    u := Happen(u, Advance(c, ok));
    OneMore(v, c, ok, 2);
    LeaveIs(u, c, ok);
  }

  // ---------------------------------------------------------------------
  // Whole requests.

  lemma Begins(s: Sys, c: Conn, goal: Goal)
    requires AtRest(s)
    ensures Happen(s, Begin(c, goal)) ==
            s.(readers := if goal == Drop then {} else {c}, threads := s.threads[c := Thread(First(goal), goal, None)])
  {
    assert PcOf(s, c) == Idle;
    hide Instruction, First;
    assert {} + {c} == {c};
  }

  // The thread of a request that is over.
  function Over(s: Sys, c: Conn, goal: Goal, got: Option<Token>): map<Conn, Thread> {
    s.threads[c := Thread(Idle, goal, got)]
  }

  function Opened(s: Sys): nat { s.created + if s.open then 0 else 1 }

  lemma UseLeads(goal: Goal)
    ensures goal == Use ==> First(goal) == UseTestUser && AfterUse(goal) == Leaving
    ensures goal.Ask? ==> First(goal) == TestUser && AfterUse(goal) == WaitCmd
    ensures goal == Lock ==> First(goal) == TestUser && AfterUse(goal) == WaitData(SetLock)
  {}

  lemma RestMeans(s: Sys)
    requires AtRest(s)
    ensures s.dataMutex == None && s.cmdMutex == None && !s.reloading && s.readers == {}
    ensures s.requests == [] && s.replies == [] && (s.users != {} ==> s.open)
  {}

  // A thread that is in, or has been refused.
  function Within(s: Sys, c: Conn, goal: Goal, pc: Pc): Sys {
    s.(threads := s.threads[c := Thread(pc, goal, None)], readers := {c}, users := s.users + {c}, open := true,
       created := Opened(s))
  }

  function Refused(s: Sys, c: Conn, goal: Goal): Sys {
    s.(threads := s.threads[c := Thread(Leaving, goal, None)], readers := {c})
  }

  lemma AtTwice(s: Sys, m: map<Conn, Thread>, c: Conn, pc: Pc, goal: Goal, got: Option<Token>, next: Pc)
    requires s.threads == m[c := Thread(pc, goal, got)]
    ensures c in s.threads && PcOf(s, c) == pc && s.threads[c].goal == goal
    ensures At(s, c, next) == m[c := Thread(next, goal, got)]
  {}

  lemma SameGetsIn(s: Sys, t: Sys, c: Conn, ok: bool)
    requires s.users == t.users && s.locked == t.locked && s.open == t.open
    ensures GetsIn(s, c, ok) <==> GetsIn(t, c, ok)
  {}

  lemma Enters(s: Sys, c: Conn, goal: Goal, ok: bool) returns (k: nat, t: Sys)
    requires AtRest(s) && (goal == Use || goal == Lock || goal.Ask?)
    ensures k <= 6 && t == Steps(Happen(s, Begin(c, goal)), c, ok, k)
    ensures t == if GetsIn(s, c, ok) then Within(s, c, goal, AfterUse(goal)) else Refused(s, c, goal)
  {
    RestMeans(s);
    Begins(s, c, goal);
    UseLeads(goal);
    hide Happen, Steps, AfterUse, First, AtRest, At, GetsIn;
    var b := Happen(s, Begin(c, goal));
    AtTwice(b, s.threads, c, First(goal), goal, None, Leaving);
    AtTwice(b, s.threads, c, First(goal), goal, None, AfterUse(goal));
    SameGetsIn(b, s, c, ok);
    k, t := GetIn(b, c, ok);
  }

  lemma EndsAlone(s: Sys, c: Conn, goal: Goal, ok: bool, k: nat, t: Sys)
    requires k <= 8 && t == Steps(Happen(s, Begin(c, goal)), c, ok, k)
    requires t.threads == s.threads[c := Thread(Leaving, goal, None)]
    requires t.requests == [] && (t.readers == {c} || t.readers == {})
    ensures Alone(s, c, goal, ok) == t.(readers := {}, threads := Over(s, c, goal, None))
  {
    AtTwice(t, s.threads, c, Leaving, goal, None, Idle);
    Ends(Happen(s, Begin(c, goal)), c, ok, k, t);
    assert {c} - {c} == {} && {} - {c} == {};
    hide Happen, Steps, At;
  }

  lemma AloneUse(s: Sys, c: Conn, ok: bool)
    requires AtRest(s)
    ensures Alone(s, c, Use, ok) ==
            if GetsIn(s, c, ok) then
              s.(threads := Over(s, c, Use, None), users := s.users + {c}, open := true, created := Opened(s))
            else s.(threads := Over(s, c, Use, None))
  {
    RestMeans(s);
    UseLeads(Use);
    hide Happen, Steps, AfterUse, AtRest, Alone, GetsIn, At;
    var k, t := Enters(s, c, Use, ok);
    EndsAlone(s, c, Use, ok, k, t);
  }

  lemma AloneAsk(s: Sys, c: Conn, msg: string, ok: bool)
    requires AtRest(s)
    ensures Alone(s, c, Ask(msg), ok) ==
            if GetsIn(s, c, ok) then
              s.(threads := Over(s, c, Ask(msg), Some(Token(c, msg))), users := s.users + {c}, open := true,
                 created := Opened(s))
            else s.(threads := Over(s, c, Ask(msg), None))
  {
    RestMeans(s);
    UseLeads(Ask(msg));
    hide Happen, Steps, AfterUse, AtRest, Alone, GetsIn, At;
    var k, t := Enters(s, c, Ask(msg), ok);
    if GetsIn(s, c, ok) {
      ExchangesAlone(s, c, msg, ok, k, t);
    } else {
      EndsAlone(s, c, Ask(msg), ok, k, t);
    }
  }

  lemma ExchangesAlone(s: Sys, c: Conn, msg: string, ok: bool, k: nat, t: Sys)
    requires k <= 6 && t == Steps(Happen(s, Begin(c, Ask(msg))), c, ok, k)
    requires t.threads == s.threads[c := Thread(WaitCmd, Ask(msg), None)]
    requires t.cmdMutex == None && t.open && t.requests == [] && t.replies == [] && t.readers == {c}
    ensures Alone(s, c, Ask(msg), ok) == t.(readers := {}, threads := Over(s, c, Ask(msg), Some(Token(c, msg))))
  {
    Exchanges(Happen(s, Begin(c, Ask(msg))), c, ok, k, t, msg);
    assert {c} - {c} == {};
    hide Happen, Steps;
  }

  lemma LocksAlone(s: Sys, c: Conn, ok: bool, k: nat, t: Sys)
    requires k <= 6 && t == Steps(Happen(s, Begin(c, Lock)), c, ok, k)
    requires t.threads == s.threads[c := Thread(WaitData(SetLock), Lock, None)]
    requires t.dataMutex == None && t.requests == [] && t.readers == {c}
    ensures var u := t.(readers := {}, threads := Over(s, c, Lock, None));
            Alone(s, c, Lock, ok) == if OneUser(t) then u.(locked := true, holder := Some(c)) else u
  {
    hide Happen, Steps, Alone, OneUser, Execute, At;
    AtTwice(t, s.threads, c, WaitData(SetLock), Lock, None, InData(SetLock));
    var u := OneSection(Happen(s, Begin(c, Lock)), c, ok, k, t, SetLock);
    var inside := t.(dataMutex := Some(c), threads := At(t, c, InData(SetLock)));
    SameUsers(inside, t);
    Locks(inside, c, ok);
    AtTwice(inside, s.threads, c, InData(SetLock), Lock, None, Leaving);
    EndsAlone(s, c, Lock, ok, k + 2, u);
  }

  lemma AloneLock(s: Sys, c: Conn, ok: bool)
    requires AtRest(s)
    ensures Alone(s, c, Lock, ok) ==
            if GetsIn(s, c, ok) then
              var threads := Over(s, c, Lock, None);
              var u := s.(threads := threads, users := s.users + {c}, open := true, created := Opened(s));
              if OneUser(u) then u.(locked := true, holder := Some(c)) else u
            else s.(threads := Over(s, c, Lock, None))
  {
    RestMeans(s);
    UseLeads(Lock);
    hide Happen, Steps, AfterUse, AtRest, Alone, OneUser, Execute, GetsIn, At;
    var k, t := Enters(s, c, Lock, ok);
    if GetsIn(s, c, ok) {
      LocksAlone(s, c, ok, k, t);
      SameUsers(t,
        s.(threads := Over(s, c, Lock, None), users := s.users + {c}, open := true, created := Opened(s)));
    } else {
      EndsAlone(s, c, Lock, ok, k, t);
    }
  }

  lemma SameUsers(s: Sys, t: Sys)
    requires s.users == t.users
    ensures OneUser(s) <==> OneUser(t)
  {}

  lemma Locks(s: Sys, c: Conn, ok: bool)
    requires c in s.threads
    ensures var t := s.(threads := At(s, c, Leaving), dataMutex := None);
            Execute(s, c, SetLock, ok) == if OneUser(s) then t.(locked := true, holder := Some(c)) else t
  {
    hide OneUser;
  }

  // What the other sections do.
  lemma SectionIs(s: Sys, c: Conn, ok: bool, section: Section)
    requires c in s.threads && (section == ClearLock || section == Remove || section == Reset)
    ensures var b := s.(threads := At(s, c, Leaving), dataMutex := None);
            Execute(s, c, section, ok) ==
            match section
            case ClearLock => b.(locked := s.locked && c !in s.users)
            case Remove => b.(locked := s.locked && c !in s.users, users := s.users - {c})
            case _ => Emptied(b)
  {}

  // The requests of one section.
  lemma AloneSection(s: Sys, c: Conn, goal: Goal, ok: bool, section: Section)
    requires AtRest(s) && First(goal) == WaitData(section)
    requires section == ClearLock || section == Remove || section == Reset
    ensures var b := s.(threads := Over(s, c, goal, None));
            Alone(s, c, goal, ok) ==
            match section
            case ClearLock => b.(locked := s.locked && c !in s.users)
            case Remove => b.(locked := s.locked && c !in s.users, users := s.users - {c})
            case _ => Emptied(b)
  {
    RestMeans(s);
    Begins(s, c, goal);
    hide Happen, Steps, First, AtRest, Alone, Execute, At;
    var b := Happen(s, Begin(c, goal));
    OneMore(b, c, ok, 0);
    AtTwice(b, s.threads, c, WaitData(section), goal, None, InData(section));
    var u := OneSection(b, c, ok, 0, b, section);
    var inside := b.(dataMutex := Some(c), threads := At(b, c, InData(section)));
    AtTwice(inside, s.threads, c, InData(section), goal, None, Leaving);
    SectionIs(inside, c, ok, section);
    EndsAlone(s, c, goal, ok, 2, u);
  }

  // ---- The same on the serial model.

  lemma ViewUse(s: Sys, c: Conn, ok: bool)
    ensures var r := Model.Next(View(s), RequestOf(c, Use, ok));
            && (r.answer.Ok? <==> GetsIn(s, c, ok))
            && r.state == if r.answer.Err? then View(s)
                          else Model.State(s.users + {c}, s.locked, s.open || c !in s.users, map[])
  {
    if c in s.users {
      assert s.users + {c} == s.users;
    }
  }

  lemma ViewAsk(s: Sys, c: Conn, msg: string, ok: bool)
    ensures var r := Model.Next(View(s), RequestOf(c, Ask(msg), ok));
            && (r.answer.Ok? <==> GetsIn(s, c, ok))
            && r.state == if r.answer.Err? then View(s)
                          else Model.State(s.users + {c}, s.locked, s.open || c !in s.users, map[])
  {
    ViewUse(s, c, ok);
    hide Model.UseStep, Model.Logged;
    NoLogs(Model.SentEntry(msg));
    NoLogs(Model.ReplyEntry(Ok("")));
  }

  lemma NoLogs(entry: string)
    ensures Model.Logged(map[], entry) == map[]
  {}

  lemma ViewLock(s: Sys, c: Conn, ok: bool)
    ensures var r := Model.Next(View(s), RequestOf(c, Lock, ok));
            && (r.answer.Ok? <==> GetsIn(s, c, ok) && |s.users + {c}| == 1)
            && r.state == if GetsIn(s, c, ok) then
                            Model.State(s.users + {c}, s.locked || |s.users + {c}| == 1, s.open || c !in s.users, map[])
                          else View(s)
  {
    ViewUse(s, c, ok);
    hide Model.UseStep;
  }

  // Nothing has been received, or the reply to the message.
  function Got(s: Sys, c: Conn): Option<Token> {
    if c in s.threads then s.threads[c].got else None
  }

  // One request: the device is as the serial model says, everything is at
  // rest again, an ask has its reply exactly if it is answered, and a lock
  // that is granted belongs to its caller.
  ghost predicate Agrees(s: Sys, t: Sys, c: Conn, goal: Goal, ok: bool) {
    var r := Model.Next(View(s), RequestOf(c, goal, ok));
    && AtRest(t)
    && View(t) == r.state
    && t.crashed == s.crashed && t.torn == s.torn
    && (goal.Ask? ==> Got(t, c) == if r.answer.Ok? then Some(Token(c, goal.msg)) else None)
    && (goal.Lock? && r.answer.Ok? ==> t.locked && t.holder == Some(c))
  }

  lemma Rests(s: Sys, t: Sys, c: Conn, goal: Goal, got: Option<Token>)
    requires AtRest(s) && t.threads == Over(s, c, goal, got) && (t.users != {} ==> t.open)
    requires t.dataMutex == None && t.cmdMutex == None && !t.reloading && t.readers == {}
    requires t.requests == [] && t.replies == []
    ensures AtRest(t)
  {
    forall d: Conn
      ensures PcOf(t, d) == Idle
    {
      assert PcOf(s, d) == Idle;
    }
  }

  lemma AgreesUse(s: Sys, c: Conn, ok: bool)
    requires AtRest(s)
    ensures Agrees(s, Alone(s, c, Use, ok), c, Use, ok)
  {
    AloneUse(s, c, ok);
    ViewUse(s, c, ok);
    hide Alone, Model.Next;
    Rests(s, Alone(s, c, Use, ok), c, Use, None);
  }

  lemma AgreesAsk(s: Sys, c: Conn, msg: string, ok: bool)
    requires AtRest(s)
    ensures Agrees(s, Alone(s, c, Ask(msg), ok), c, Ask(msg), ok)
  {
    AloneAsk(s, c, msg, ok);
    ViewAsk(s, c, msg, ok);
    hide Alone, Model.Next;
    Rests(s, Alone(s, c, Ask(msg), ok), c, Ask(msg), if GetsIn(s, c, ok) then Some(Token(c, msg)) else None);
  }

  lemma AgreesLock(s: Sys, c: Conn, ok: bool)
    requires AtRest(s)
    ensures Agrees(s, Alone(s, c, Lock, ok), c, Lock, ok)
  {
    AloneLock(s, c, ok);
    ViewLock(s, c, ok);
    hide Alone, Model.Next;
    Rests(s, Alone(s, c, Lock, ok), c, Lock, None);
  }

  lemma ViewOther(s: Sys, c: Conn, goal: Goal, ok: bool)
    requires goal == Unlock || goal == Release || goal == Drop || goal == Close
    ensures Model.Next(View(s), RequestOf(c, goal, ok)).state ==
            if goal == Unlock then Model.State(s.users, s.locked && c !in s.users, s.open, map[])
            else if goal == Close then Model.FRESH
            else Model.State(s.users - {c}, s.locked && c !in s.users, s.open, map[])
  {
    if c !in s.users {
      assert s.users - {c} == s.users;
    }
    assert View(s).logs - {c} == View(s).logs;
  }

  lemma AgreesOther(s: Sys, c: Conn, goal: Goal, ok: bool)
    requires AtRest(s) && (goal == Unlock || goal == Release || goal == Drop || goal == Close)
    ensures Agrees(s, Alone(s, c, goal, ok), c, goal, ok)
  {
    AloneSection(s, c, goal, ok, if goal == Unlock then ClearLock else if goal == Close then Reset else Remove);
    ViewOther(s, c, goal, ok);
    hide Alone, Model.Next;
    Rests(s, Alone(s, c, goal, ok), c, goal, None);
  }

  lemma AloneIs(s: Sys, c: Conn, goal: Goal, ok: bool)
    requires AtRest(s)
    ensures Agrees(s, Alone(s, c, goal, ok), c, goal, ok)
  {
    hide Alone, Agrees, AtRest;
    match goal
    case Use => AgreesUse(s, c, ok);
    case Ask(msg) => AgreesAsk(s, c, msg, ok);
    case Lock => AgreesLock(s, c, ok);
    case _ => AgreesOther(s, c, goal, ok);
  }

  // Requests one after the other.
  datatype Job = Job(conn: Conn, goal: Goal, ok: bool)

  function Serially(s: Sys, jobs: seq<Job>): Sys {
    if jobs == [] then s
    else
      var job := jobs[|jobs| - 1];
      Alone(Serially(s, jobs[..|jobs| - 1]), job.conn, job.goal, job.ok)
  }

  function Requests(jobs: seq<Job>): (rs: seq<Model.Request>)
    ensures |rs| == |jobs|
  {
    seq(|jobs|, i requires 0 <= i < |jobs| => RequestOf(jobs[i].conn, jobs[i].goal, jobs[i].ok))
  }

  // Threads that run one after the other are a run of the serial model.
  lemma {:induction false} SerialRuns(jobs: seq<Job>)
    ensures AtRest(Serially(START, jobs))
    ensures View(Serially(START, jobs)) == Model.Run(Model.FRESH, Requests(jobs))
  {
    hide Alone, Model.Next;
    if jobs != [] {
      var front, job := jobs[..|jobs| - 1], jobs[|jobs| - 1];
      SerialRuns(front);
      AloneIs(Serially(START, front), job.conn, job.goal, job.ok);
      assert Requests(jobs)[..|front|] == Requests(front);
    }
  }

  // A reload replaces the device by a new one.
  lemma ReloadIs(s: Sys)
    requires s.reloading
    ensures View(Happen(s, ReloadSwaps)) == Model.FRESH
    ensures Happen(s, ReloadSwaps).requests == [] && Happen(s, ReloadSwaps).replies == []
  {
    hide Instruction;
  }
}
