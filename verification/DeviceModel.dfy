/** The sharing state of one device and what every request does to it
    (server/device.h, server/device.cpp), on values.  The class Devices.Device
    is tied to these functions; runs of requests are reasoned about here.

    What the outside world does is a parameter: whether the driver can be
    opened, and what it replies to a message. */
module DeviceModel {
  import opened Connections
  import opened Results

  datatype DeviceError =
    | DeviceLocked
    | DeviceInUse
    | LockedByAnother
    | LoggingOff
    | OpenFailed(text: string)
    | DriverFailed(text: string)

  type Answer = Result<string, DeviceError>

  // The state of a device.  Nothing in it names the holder of the lock.
  datatype State = State(users: set<Conn>, locked: bool, open: bool, logs: map<Conn, seq<string>>)

  const MAX_LOG_SIZE: nat := 1024

  const FRESH: State := State({}, false, false, map[])

  // The last n elements of a sequence, or all of them.
  function LastN<T>(q: seq<T>, n: nat): (r: seq<T>)
    ensures |r| == if |q| <= n then |q| else n
  {
    if |q| <= n then q else q[|q| - n..]
  }

  function Concat(lines: seq<string>): string {
    if lines == [] then "" else lines[0] + Concat(lines[1..])
  }

  // An entry goes into the buffer of every connection that has one.
  function Logged(logs: map<Conn, seq<string>>, entry: string): map<Conn, seq<string>> {
    map c | c in logs :: LastN(logs[c] + [entry], MAX_LOG_SIZE)
  }

  function SentEntry(msg: string): string { ">> " + msg + "\n" }

  function ReplyEntry(reply: Result<string, string>): string {
    match reply
    case Ok(text) => "<< " + text + "\n"
    case Err(text) => "EE " + text + "\n"
  }

  // A request, with what the world answers to it.
  datatype Request =
    | Use(conn: Conn, opening: Option<string>)
    | Release(conn: Conn)
    | Close
    | Lock(conn: Conn, opening: Option<string>)
    | Unlock(conn: Conn)
    | LogStart(conn: Conn)
    | LogFinish(conn: Conn)
    | LogGet(conn: Conn)
    | Ask(conn: Conn, msg: string, opening: Option<string>, reply: Result<string, string>)

  // A step: the state, the answer, and the messages that reached the driver.
  datatype Step = Step(state: State, answer: Answer, sent: seq<(Conn, string)>)

  function UseStep(s: State, c: Conn, opening: Option<string>): Step {
    if c in s.users then Step(s, Ok(""), [])
    else if s.locked then Step(s, Err(DeviceLocked), [])
    else if !s.open && opening.Some? then Step(s, Err(OpenFailed(opening.value)), [])
    else Step(s.(open := true, users := s.users + {c}), Ok(""), [])
  }

  function ReleaseStep(s: State, c: Conn): Step {
    var logs := s.logs - {c};
    if c !in s.users then Step(s.(logs := logs), Ok(""), [])
    else Step(s.(logs := logs, locked := false, users := s.users - {c}), Ok(""), [])
  }

  function LockStep(s: State, c: Conn, opening: Option<string>): Step {
    var used := UseStep(s, c, opening);
    if used.answer.Err? then used
    else if |used.state.users| != 1 then Step(used.state, Err(DeviceInUse), [])
    else Step(used.state.(locked := true), Ok(""), [])
  }

  function UnlockStep(s: State, c: Conn): Step {
    if !s.locked then Step(s, Ok(""), [])
    else if c !in s.users then Step(s, Err(LockedByAnother), [])
    else Step(s.(locked := false), Ok(""), [])
  }

  function AskStep(s: State, c: Conn, msg: string, opening: Option<string>, reply: Result<string, string>): Step {
    var used := UseStep(s, c, opening);
    if used.answer.Err? then used
    else
      var t := used.state;
      Step(t.(logs := Logged(Logged(t.logs, SentEntry(msg)), ReplyEntry(reply))),
           match reply case Ok(text) => Ok(text) case Err(text) => Err(DriverFailed(text)),
           [(c, msg)])
  }

  function Next(s: State, r: Request): Step {
    match r
    case Use(c, opening) => UseStep(s, c, opening)
    case Release(c) => ReleaseStep(s, c)
    case Close => Step(FRESH, Ok(""), [])
    case Lock(c, opening) => LockStep(s, c, opening)
    case Unlock(c) => UnlockStep(s, c)
    case LogStart(c) => Step(s.(logs := s.logs[c := []]), Ok(""), [])
    case LogFinish(c) => Step(s.(logs := s.logs - {c}), Ok(""), [])
    case LogGet(c) =>
      if c !in s.logs then Step(s, Err(LoggingOff), [])
      else Step(s.(logs := s.logs[c := []]), Ok(Concat(s.logs[c])), [])
    case Ask(c, msg, opening, reply) => AskStep(s, c, msg, opening, reply)
  }

  // The state after a run of requests, served one at a time.
  function Run(s: State, rs: seq<Request>): State {
    if rs == [] then s else Next(Run(s, rs[..|rs| - 1]), rs[|rs| - 1]).state
  }

  // What request number i of a run meets and does.
  function At(s: State, rs: seq<Request>, i: nat): Step
    requires i < |rs|
  {
    Next(Run(s, rs[..i]), rs[i])
  }

  // ---------------------------------------------------------------------
  // The invariant behind every authorisation check.

  // A locked device has one user, and a used device is open.
  ghost predicate Inv(s: State) {
    && (s.locked ==> |s.users| == 1)
    && (s.users != {} ==> s.open)
    && forall c :: c in s.logs ==> |s.logs[c]| <= MAX_LOG_SIZE
  }

  // The connection that holds the lock.
  ghost predicate Holds(s: State, c: Conn) {
    s.locked && s.users == {c}
  }

  lemma UseKeepsInv(s: State, c: Conn, opening: Option<string>)
    requires Inv(s)
    ensures Inv(UseStep(s, c, opening).state)
  {}

  lemma ReleaseKeepsInv(s: State, c: Conn)
    requires Inv(s)
    ensures Inv(ReleaseStep(s, c).state)
  {
    if s.locked && c in s.users {
      assert s.users - {c} == {} by { OnlyUser(s.users, c); }
    }
  }

  lemma LoggedKeepsInv(s: State, entry: string)
    requires Inv(s)
    ensures Inv(s.(logs := Logged(s.logs, entry)))
  {}

  lemma AskKeepsInv(s: State, c: Conn, msg: string, opening: Option<string>, reply: Result<string, string>)
    requires Inv(s)
    ensures Inv(AskStep(s, c, msg, opening, reply).state)
  {
    UseKeepsInv(s, c, opening);
    hide UseStep, Inv, Logged;
    var t := UseStep(s, c, opening).state;
    LoggedKeepsInv(t, SentEntry(msg));
    LoggedKeepsInv(t.(logs := Logged(t.logs, SentEntry(msg))), ReplyEntry(reply));
  }

  lemma NextKeepsInv(s: State, r: Request)
    requires Inv(s)
    ensures Inv(Next(s, r).state)
  {
    hide ReleaseStep, AskStep, UseStep;
    match r
    case Use(c, opening) => UseKeepsInv(s, c, opening);
    case Lock(c, opening) => UseKeepsInv(s, c, opening);
    case Release(c) => ReleaseKeepsInv(s, c);
    case Ask(c, msg, opening, reply) => AskKeepsInv(s, c, msg, opening, reply);
    case _ =>
  }

  lemma OnlyUser(users: set<Conn>, c: Conn)
    requires |users| == 1 && c in users
    ensures users == {c}
  {
    assert |users - {c}| == 0;
  }

  lemma {:induction false} RunKeepsInv(s: State, rs: seq<Request>)
    requires Inv(s)
    ensures Inv(Run(s, rs))
  {
    if rs != [] {
      RunKeepsInv(s, rs[..|rs| - 1]);
      NextKeepsInv(Run(s, rs[..|rs| - 1]), rs[|rs| - 1]);
    }
  }

  // In every reachable state the lock has a holder, and only one.
  lemma LockHasOneHolder(rs: seq<Request>)
    ensures var s := Run(FRESH, rs);
            s.locked <==> exists c :: Holds(s, c)
    ensures var s := Run(FRESH, rs);
            forall c, d :: Holds(s, c) && Holds(s, d) ==> c == d
  {
    RunKeepsInv(FRESH, rs);
    var s := Run(FRESH, rs);
    if s.locked {
      assert s.users != {};
      var c :| c in s.users;
      OnlyUser(s.users, c);
      assert Holds(s, c);
    }
    forall c, d | Holds(s, c) && Holds(s, d)
      ensures c == d
    {
      assert c in s.users;
    }
  }

  // A lock is granted exactly to a connection that is, or becomes, the only
  // user.  A refused lock still leaves the caller a user when it was let in.
  lemma LockGranted(s: State, c: Conn, opening: Option<string>)
    requires Inv(s)
    ensures var t := Next(s, Lock(c, opening));
            && (t.answer.Ok? <==>
                s.users <= {c} && (c in s.users || (!s.locked && (s.open || opening.None?))))
            && (t.answer.Ok? ==> Holds(t.state, c) && t.state.open && t.state.logs == s.logs)
            && (t.answer.Err? ==> t.state.locked == s.locked && t.state.logs == s.logs)
            && (t.answer == Err(DeviceInUse) ==> t.state.users == s.users + {c})
            && (t.answer.Err? && t.answer != Err(DeviceInUse) ==> t.state == s)
  {
    var u := UseStep(s, c, opening).state.users;
    if |u| == 1 && c in u {
      OnlyUser(u, c);
    }
    if s.users <= {c} && c in u {
      assert u == {c};
    }
  }

  // ---------------------------------------------------------------------
  // When a device is open.

  // A request that lets its connection in, opening the driver if need be.
  predicate LetsIn(s: State, r: Request) {
    (r.Use? || r.Lock? || r.Ask?) && r.conn !in s.users && !s.locked && r.opening.None?
  }

  lemma OpenStep(s: State, r: Request)
    ensures Next(s, r).state.open <==> !r.Close? && (s.open || LetsIn(s, r))
  {}

  predicate NoClose(rs: seq<Request>) { forall i :: 0 <= i < |rs| ==> !rs[i].Close? }

  // Request number i lets its connection in, and no close follows.
  predicate OpenedBy(s: State, rs: seq<Request>, i: nat) {
    i < |rs| && LetsIn(Run(s, rs[..i]), rs[i]) && NoClose(rs[i + 1..])
  }

  lemma NoCloseMore(rs: seq<Request>, r: Request)
    ensures NoClose(rs + [r]) <==> NoClose(rs) && !r.Close?
  {
    assert (rs + [r])[|rs|] == r;
    assert forall i :: 0 <= i < |rs| ==> (rs + [r])[i] == rs[i];
  }

  lemma OpenedByMore(s: State, rs: seq<Request>, r: Request, i: nat)
    ensures OpenedBy(s, rs + [r], i) <==>
            if i < |rs| then OpenedBy(s, rs, i) && !r.Close? else i == |rs| && LetsIn(Run(s, rs), r)
  {
    hide LetsIn, Run;
    if i < |rs| {
      assert (rs + [r])[i + 1..] == rs[i + 1..] + [r] && (rs + [r])[..i] == rs[..i];
      NoCloseMore(rs[i + 1..], r);
    } else if i == |rs| {
      assert (rs + [r])[i + 1..] == [] && (rs + [r])[..i] == rs;
    }
    hide NoClose;
  }

  // After any run the driver is open exactly if it was opened, at the start
  // or by a request of the run, and not closed since.  Releases and the
  // number of users play no part.
  lemma {:induction false} OpenIff(s: State, rs: seq<Request>)
    ensures Run(s, rs).open <==> (s.open && NoClose(rs)) || exists i: nat :: OpenedBy(s, rs, i)
  {
    if rs != [] {
      var front, r := rs[..|rs| - 1], rs[|rs| - 1];
      assert rs == front + [r];
      OpenIff(s, front);
      OpenStep(Run(s, front), r);
      NoCloseMore(front, r);
      hide Next, LetsIn, NoClose, OpenedBy;
      forall i: nat
        ensures OpenedBy(s, rs, i) <==>
                if i < |front| then OpenedBy(s, front, i) && !r.Close? else i == |front| && LetsIn(Run(s, front), r)
      {
        OpenedByMore(s, front, r, i);
      }
      InRange(s, front);
      assert OpenedBy(s, rs, |front|) <==> LetsIn(Run(s, front), r);
    }
  }

  lemma InRange(s: State, rs: seq<Request>)
    ensures forall i: nat :: OpenedBy(s, rs, i) ==> i < |rs|
  {}

  // So the driver outlives its last user.
  lemma LastUserLeaves(c: Conn)
    ensures Run(FRESH, [Use(c, None), Release(c)]) == State({}, false, true, map[])
  {
    var rs := [Use(c, None), Release(c)];
    assert rs[..1] == [Use(c, None)] && rs[..1][..0] == [];
    assert Run(FRESH, rs[..1]) == State({c}, false, true, map[]);
    assert {c} - {c} == {};
  }

  // ---------------------------------------------------------------------
  // Lock exclusion.

  // The requests that end the lock of connection c.
  predicate EndsLockOf(r: Request, c: Conn) {
    r == Release(c) || r == Unlock(c) || r == Close
  }

  // One request under a lock: the lock ends exactly with a request of the
  // holder, or a close; the other connections are refused and change nothing
  // but their own log buffers and the log of the holder's traffic.
  lemma UnderLock(s: State, c: Conn, r: Request)
    requires Inv(s) && Holds(s, c)
    ensures var t := Next(s, r);
            && (Holds(t.state, c) <==> !EndsLockOf(r, c))
            && (forall m :: m in t.sent ==> m.0 == c)
            && (!EndsLockOf(r, c) ==> t.state.open == s.open)
            && ((r.Use? || r.Lock? || r.Ask?) && r.conn != c ==> t == Step(s, Err(DeviceLocked), []))
            && (r.Unlock? && r.conn != c ==> t == Step(s, Err(LockedByAnother), []))
  {}

  lemma {:induction false} LockKept(s: State, c: Conn, rs: seq<Request>)
    requires Inv(s) && Holds(s, c)
    requires forall i :: 0 <= i < |rs| ==> !EndsLockOf(rs[i], c)
    ensures Holds(Run(s, rs), c) && Run(s, rs).open == s.open
  {
    if rs != [] {
      var k := |rs| - 1;
      LockKept(s, c, rs[..k]);
      RunKeepsInv(s, rs[..k]);
      UnderLock(Run(s, rs[..k]), c, rs[k]);
      hide Next;
    }
  }

  // Whole runs: from a state in which c holds the lock, as long as no request
  // ends it, c goes on holding it, only messages of c reach the driver, and
  // every other connection is refused with the state unchanged.
  lemma LockExclusion(s: State, c: Conn, rs: seq<Request>, i: nat)
    requires Inv(s) && Holds(s, c) && i < |rs|
    requires forall j :: 0 <= j <= i ==> !EndsLockOf(rs[j], c)
    ensures var now, t := Run(s, rs[..i]), At(s, rs, i);
            && Holds(t.state, c)
            && (forall m :: m in t.sent ==> m.0 == c)
            && ((rs[i].Use? || rs[i].Lock? || rs[i].Ask?) && rs[i].conn != c ==> t == Step(now, Err(DeviceLocked), []))
            && (rs[i].Unlock? && rs[i].conn != c ==> t == Step(now, Err(LockedByAnother), []))
            && (rs[i].Release? && rs[i].conn != c ==> t.state == now.(logs := now.logs - {rs[i].conn}))
  {
    LockKept(s, c, rs[..i]);
    RunKeepsInv(s, rs[..i]);
    var now := Run(s, rs[..i]);
    UnderLock(now, c, rs[i]);
    assert rs[i].Release? && rs[i].conn != c ==> rs[i].conn !in now.users;
  }

  // The first request of a run that ends the lock frees the device.
  lemma LockFreed(s: State, c: Conn, r: Request)
    requires Inv(s) && Holds(s, c) && EndsLockOf(r, c)
    ensures !Next(s, r).state.locked && Next(s, r).answer.Ok?
  {}

  // ---------------------------------------------------------------------
  // Log buffers.

  // The two lines a request adds to the log, if its message gets to the
  // driver.  Who is logging plays no part in it.
  function Traffic(s: State, r: Request): seq<string> {
    if r.Ask? && UseStep(s, r.conn, r.opening).answer.Ok? then [SentEntry(r.msg), ReplyEntry(r.reply)] else []
  }

  // The unbounded log of one connection: everything since its latest start
  // or reading of the log.  Requests of other connections that start, stop
  // or read logs play no part in it.
  function Record(log: Option<seq<string>>, s: State, r: Request, c: Conn): Option<seq<string>> {
    match r
    case LogStart(d) => if d == c then Some([]) else log
    case LogFinish(d) => if d == c then None else log
    case Release(d) => if d == c then None else log
    case Close => None
    case LogGet(d) => if d == c && log.Some? then Some([]) else log
    case _ => if log.Some? then Some(log.value + Traffic(s, r)) else None
  }

  function History(rs: seq<Request>, c: Conn): Option<seq<string>> {
    if rs == [] then None
    else
      var front := rs[..|rs| - 1];
      Record(History(front, c), Run(FRESH, front), rs[|rs| - 1], c)
  }

  // The bounded buffers of a state hold the ends of the unbounded logs.
  ghost predicate Bounds(s: State, log: Option<seq<string>>, c: Conn) {
    && (c in s.logs <==> log.Some?)
    && (c in s.logs ==> s.logs[c] == LastN(log.value, MAX_LOG_SIZE))
  }

  lemma LoggedTwice(logs: map<Conn, seq<string>>, a: string, b: string, c: Conn, whole: seq<string>)
    requires c in logs && logs[c] == LastN(whole, MAX_LOG_SIZE)
    ensures c in Logged(Logged(logs, a), b)
    ensures Logged(Logged(logs, a), b)[c] == LastN(whole + [a, b], MAX_LOG_SIZE)
  {}

  lemma StepBounds(s: State, r: Request, log: Option<seq<string>>, c: Conn)
    requires Bounds(s, log, c)
    ensures Bounds(Next(s, r).state, Record(log, s, r, c), c)
  {
    if log.Some? {
      assert log.value + [] == log.value;
      if r.Ask? && Traffic(s, r) != [] {
        LoggedTwice(s.logs, SentEntry(r.msg), ReplyEntry(r.reply), c, log.value);
      }
    }
  }

  // Log refinement: after any run, the buffer of a connection is the last
  // 1024 entries of its unbounded log, and there is one exactly when the
  // other exists.
  lemma {:induction false} LogRefinement(rs: seq<Request>, c: Conn)
    ensures Bounds(Run(FRESH, rs), History(rs, c), c)
  {
    if rs != [] {
      var front := rs[..|rs| - 1];
      LogRefinement(front, c);
      StepBounds(Run(FRESH, front), rs[|rs| - 1], History(front, c), c);
      hide Next, Record, Bounds;
    }
  }

  // ---- Buffers of different connections.

  predicate ForeignLogRequest(r: Request, c: Conn) {
    (r.LogStart? || r.LogFinish? || r.LogGet?) && r.conn != c
  }

  // The run without the log requests of the other connections.
  function WithoutForeignLogs(rs: seq<Request>, c: Conn): seq<Request> {
    if rs == [] then []
    else
      var front, r := WithoutForeignLogs(rs[..|rs| - 1], c), rs[|rs| - 1];
      if ForeignLogRequest(r, c) then front else front + [r]
  }

  ghost predicate SameSharing(s: State, t: State) {
    s.users == t.users && s.locked == t.locked && s.open == t.open
  }

  lemma SharingIgnoresLogs(s: State, t: State, r: Request)
    requires SameSharing(s, t)
    ensures SameSharing(Next(s, r).state, Next(t, r).state)
    ensures Traffic(s, r) == Traffic(t, r)
    ensures r.LogStart? || r.LogFinish? || r.LogGet? ==> SameSharing(Next(s, r).state, t)
  {
    hide Logged, SentEntry, ReplyEntry, Concat, LastN, UseStep;
    if r.Use? || r.Lock? || r.Ask? {
      SameUse(s, t, r.conn, r.opening);
    }
  }

  lemma SameUse(s: State, t: State, c: Conn, opening: Option<string>)
    requires SameSharing(s, t)
    ensures SameSharing(UseStep(s, c, opening).state, UseStep(t, c, opening).state)
    ensures UseStep(s, c, opening).answer == UseStep(t, c, opening).answer
  {}

  lemma RecordIgnoresForeign(log: Option<seq<string>>, s: State, t: State, r: Request, c: Conn)
    requires Traffic(s, r) == Traffic(t, r)
    ensures Record(log, s, r, c) == if ForeignLogRequest(r, c) then log else Record(log, t, r, c)
  {}

  // Logging by other connections changes nothing for c: neither who uses and
  // locks the device nor the log of c.
  lemma {:induction false} LogsIndependent(rs: seq<Request>, c: Conn)
    ensures SameSharing(Run(FRESH, rs), Run(FRESH, WithoutForeignLogs(rs, c)))
    ensures History(rs, c) == History(WithoutForeignLogs(rs, c), c)
  {
    if rs != [] {
      var front, r := rs[..|rs| - 1], rs[|rs| - 1];
      var kept := WithoutForeignLogs(front, c);
      LogsIndependent(front, c);
      SharingIgnoresLogs(Run(FRESH, front), Run(FRESH, kept), r);
      assert (kept + [r])[..|kept|] == kept;
      RecordIgnoresForeign(History(front, c), Run(FRESH, front), Run(FRESH, kept), r, c);
      hide Next, Traffic, SameSharing, Record;
    }
  }

  // What reading the log gives: the end of the unbounded log, all of it when
  // it has at most 1024 entries, and an error exactly when there is no log.
  lemma LogGetAnswer(rs: seq<Request>, c: Conn)
    ensures var a := Next(Run(FRESH, rs), LogGet(c)).answer;
            match History(rs, c)
            case None => a == Err(LoggingOff)
            case Some(log) =>
              && a == Ok(Concat(LastN(log, MAX_LOG_SIZE)))
              && (|log| <= MAX_LOG_SIZE ==> a == Ok(Concat(log)))
  {
    LogRefinement(rs, c);
  }

  // ---- Reading the log again and again.

  predicate EndsLogOf(r: Request, c: Conn) {
    r == LogStart(c) || r == LogFinish(c) || r == Release(c) || r == Close
  }

  // Everything connection c has read from its log during the run rs from s.
  function Collected(s: State, rs: seq<Request>, c: Conn): string {
    if rs == [] then ""
    else
      var front, r := rs[..|rs| - 1], rs[|rs| - 1];
      if r == LogGet(c) && Next(Run(s, front), r).answer.Ok? then
        Collected(s, front, c) + Next(Run(s, front), r).answer.value
      else
        Collected(s, front, c)
  }

  // All traffic of the run.
  function AllTraffic(s: State, rs: seq<Request>): seq<string> {
    if rs == [] then []
    else AllTraffic(s, rs[..|rs| - 1]) + Traffic(Run(s, rs[..|rs| - 1]), rs[|rs| - 1])
  }

  // The traffic of a run since the connection last read its log.
  function Unread(s: State, rs: seq<Request>, c: Conn): seq<string> {
    if rs == [] then []
    else
      var front, r := rs[..|rs| - 1], rs[|rs| - 1];
      if r == LogGet(c) then [] else Unread(s, front, c) + Traffic(Run(s, front), r)
  }

  lemma {:induction false} ConcatAppend(p: seq<string>, q: seq<string>)
    ensures Concat(p + q) == Concat(p) + Concat(q)
  {
    if p == [] {
      assert p + q == q;
    } else {
      assert (p + q)[1..] == p[1..] + q;
      ConcatAppend(p[1..], q);
    }
  }

  lemma {:induction false} BufferIsUnread(s: State, rs: seq<Request>, c: Conn)
    requires c in s.logs && s.logs[c] == []
    requires forall i :: 0 <= i < |rs| ==> !EndsLogOf(rs[i], c)
    ensures Bounds(Run(s, rs), Some(Unread(s, rs, c)), c)
  {
    if rs != [] {
      var k := |rs| - 1;
      var u := Unread(s, rs[..k], c);
      BufferIsUnread(s, rs[..k], c);
      StepBounds(Run(s, rs[..k]), rs[k], Some(u), c);
      assert Record(Some(u), Run(s, rs[..k]), rs[k], c) == Some(Unread(s, rs, c)) by {
        assert u + [] == u;
      }
      hide Next, Record, Bounds;
    }
  }

  // Nothing is lost: after the start of a log, if never more than 1024 lines
  // come between two readings, all that was read, followed by what is still
  // in the buffer, is the whole traffic.
  lemma {:induction false} NothingLost(s: State, rs: seq<Request>, c: Conn)
    requires c in s.logs && s.logs[c] == []
    requires forall i :: 0 <= i < |rs| ==> !EndsLogOf(rs[i], c)
    requires forall i :: 0 <= i <= |rs| ==> |Unread(s, rs[..i], c)| <= MAX_LOG_SIZE
    ensures c in Run(s, rs).logs
    ensures Collected(s, rs, c) + Concat(Run(s, rs).logs[c]) == Concat(AllTraffic(s, rs))
  {
    BufferIsUnread(s, rs, c);
    assert rs[..|rs|] == rs;
    if rs != [] {
      var k := |rs| - 1;
      var front, now := rs[..k], Run(s, rs[..k]);
      forall i | 0 <= i <= k
        ensures front[..i] == rs[..i]
      {}
      NothingLost(s, front, c);
      BufferIsUnread(s, front, c);
      NothingLostStep(s, rs, c);
    }
  }

  lemma NothingLostStep(s: State, rs: seq<Request>, c: Conn)
    requires rs != [] && !EndsLogOf(rs[|rs| - 1], c)
    requires var front := rs[..|rs| - 1];
             && c in Run(s, front).logs && Run(s, front).logs[c] == Unread(s, front, c)
             && c in Run(s, rs).logs && Run(s, rs).logs[c] == Unread(s, rs, c)
             && Collected(s, front, c) + Concat(Unread(s, front, c)) == Concat(AllTraffic(s, front))
    ensures Collected(s, rs, c) + Concat(Unread(s, rs, c)) == Concat(AllTraffic(s, rs))
  {
    hide Next, Traffic, Run, Concat;
    var front, r := rs[..|rs| - 1], rs[|rs| - 1];
    var now := Run(s, front);
    var traffic, unread := Traffic(now, r), Unread(s, front, c);
    var all, read := AllTraffic(s, front), Collected(s, front, c);
    assert AllTraffic(s, rs) == all + traffic;
    ConcatAppend(all, traffic);
    if r == LogGet(c) {
      LogGetReads(now, c);
      assert Collected(s, rs, c) == read + Concat(unread) && Unread(s, rs, c) == [] && all + [] == all;
    } else {
      ConcatAppend(unread, traffic);
      assert Collected(s, rs, c) == read && Unread(s, rs, c) == unread + traffic;
      assert read + (Concat(unread) + Concat(traffic)) == (read + Concat(unread)) + Concat(traffic);
    }
  }

  lemma LogGetReads(s: State, c: Conn)
    requires c in s.logs
    ensures Next(s, LogGet(c)).answer == Ok(Concat(s.logs[c]))
    ensures Traffic(s, LogGet(c)) == [] && Concat([]) == ""
  {}
}
