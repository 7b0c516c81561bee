/** The whole server on values: its device table and its connection names, and
    what every request and connection event does to them
    (server/dev_manager.h, server/dev_manager.cpp).

    The class Manager.DevManager is tied to these functions; runs of events
    are reasoned about here. */
module ServerModel {
  import opened Connections
  import opened Results
  import opened DeviceModel
  import ConfModel
  import Url

  // ---------------------------------------------------------------------
  // Connection names.

  function Digit(d: nat): char
    requires d < 10
  {
    "0123456789"[d]
  }

  function Decimal(n: nat): (t: string)
    ensures t != ""
  {
    if n < 10 then [Digit(n)] else Decimal(n / 10) + [Digit(n % 10)]
  }

  function DefaultName(c: Conn): string { "#" + Decimal(c) }

  lemma {:induction false} DecimalInjective(m: nat, n: nat)
    requires Decimal(m) == Decimal(n)
    ensures m == n
  {
    var s, t := Decimal(m), Decimal(n);
    DecimalLength(m);
    DecimalLength(n);
    DigitInjective(m % 10, n % 10);
    hide Digit;
    if m >= 10 && n >= 10 {
      assert s[|s| - 1] == Digit(m % 10) && t[|t| - 1] == Digit(n % 10);
      assert s[..|s| - 1] == Decimal(m / 10) && t[..|t| - 1] == Decimal(n / 10);
      DecimalInjective(m / 10, n / 10);
      assert m % 10 == n % 10;
    }
  }

  lemma DecimalLength(n: nat)
    ensures |Decimal(n)| == 1 <==> n < 10
  {}

  lemma DigitInjective(d: nat, e: nat)
    requires d < 10 && e < 10
    ensures Digit(d) == Digit(e) ==> d == e
  {}

  // The number that a text of digits stands for.
  function Value(t: string): int {
    if t == "" then 0 else 10 * Value(t[..|t| - 1]) + (t[|t| - 1] as int - '0' as int)
  }

  predicate IsDigit(c: char) { '0' <= c <= '9' }

  // A number is written in decimal digits, without leading zeros.
  lemma {:induction false} DecimalValue(n: nat)
    ensures Value(Decimal(n)) == n
    ensures forall i :: 0 <= i < |Decimal(n)| ==> IsDigit(Decimal(n)[i])
    ensures Decimal(n)[0] == '0' ==> n == 0
  {
    DigitValue(n % 10);
    if n >= 10 {
      var front, t := Decimal(n / 10), Decimal(n);
      DecimalValue(n / 10);
      assert t[..|t| - 1] == front && t[|t| - 1] == Digit(n % 10) && t[0] == front[0];
      hide Digit;
    } else {
      assert Decimal(n)[..0] == "" && Value("") == 0;
    }
  }

  lemma DigitValue(d: nat)
    requires d < 10
    ensures IsDigit(Digit(d)) && Digit(d) as int - '0' as int == d
  {}

  datatype ServerError =
    | NameExpected
    | UnknownDevice(name: string)
    | OfDevice(error: DeviceError)
    | UnexpectedArgument
    | UnknownAction(act: string)
    | NameStartsWithHash
    | NameTaken
    | BadConf(fault: ConfModel.ConfError)

  // The text of an answer; the texts of listings are not part of this model.
  datatype Reply = Text(text: string) | Listing

  type Response = Result<Reply, ServerError>

  type Names = map<Conn, string>

  predicate Taken(names: Names, c: Conn, name: string) {
    exists d :: d in names && d != c && names[d] == name
  }

  function SetName(names: Names, c: Conn, name: string): (Names, Result<(), ServerError>) {
    if name != "" && name[0] == '#' then (names, Err(NameStartsWithHash))
    else
      var full := if name == "" then DefaultName(c) else name;
      if Taken(names, c, full) then (names, Err(NameTaken)) else (names[c := full], Ok(()))
  }

  // Every name is its connection's default one or one without a hash, and no
  // two connections have the same.
  ghost predicate NamesOk(names: Names) {
    && (forall c :: c in names ==> names[c] == DefaultName(c) || (names[c] != "" && names[c][0] != '#'))
    && (forall c, d :: c in names && d in names && c != d ==> names[c] != names[d])
  }

  lemma DefaultNameFree(names: Names, c: Conn)
    requires NamesOk(names)
    ensures !Taken(names, c, DefaultName(c))
  {
    if Taken(names, c, DefaultName(c)) {
      var d :| d in names && d != c && names[d] == DefaultName(c);
      assert DefaultName(c)[0] == '#';
      assert names[d] == DefaultName(d);
      assert DefaultName(c)[1..] == Decimal(c) && DefaultName(d)[1..] == Decimal(d);
      DecimalInjective(c, d);
    }
  }

  // Setting a name: fails exactly for a name with a leading hash or a name of
  // another connection, never for the default name, and changes nothing then.
  lemma SetNameIff(names: Names, c: Conn, name: string)
    requires NamesOk(names)
    ensures var (names', r) := SetName(names, c, name);
            && NamesOk(names')
            && (r.Ok? <==> name == "" || (name[0] != '#' && forall d :: d in names && d != c ==> names[d] != name))
            && (r.Ok? ==> names' == names[c := if name == "" then DefaultName(c) else name])
            && (r.Err? ==> names' == names)
  {
    DefaultNameFree(names, c);
    hide DefaultName;
  }

  // ---------------------------------------------------------------------
  // The server.

  datatype Server = Server(devices: map<string, State>, names: Names)

  // What the outside world answers during a request: the opening of a driver,
  // the reply of a device, the device list file.
  datatype World = World(
    opening: Option<string>,
    reply: Result<string, string>,
    file: Option<seq<ConfModel.Words>>)

  // A request for one device.
  function OnDevice(s: Server, name: string, r: Request): (Server, Response) {
    if name == "" then (s, Err(NameExpected))
    else if name !in s.devices then (s, Err(UnknownDevice(name)))
    else
      var step := Next(s.devices[name], r);
      (s.(devices := s.devices[name := step.state]),
       match step.answer case Ok(text) => Ok(Text(text)) case Err(e) => Err(OfDevice(e)))
  }

  function ReleaseAll(devices: map<string, State>, c: Conn): map<string, State> {
    map n | n in devices :: ReleaseStep(devices[n], c).state
  }

  function FreshTable(table: ConfModel.Table): map<string, State> {
    map n | n in table :: FRESH
  }

  // The server as it starts: the devices of the list, and no connection.  A
  // list that cannot be read gives the empty table.
  function Initial(table: ConfModel.Table): Server { Server(FreshTable(table), map[]) }

  function Reload(s: Server, file: Option<seq<ConfModel.Words>>): (Server, Response) {
    match ConfModel.ReadFile(file)
    case Err(e) => (s, Err(BadConf(e)))
    case Ok(table) => (s.(devices := FreshTable(table)), Ok(Listing))
  }

  // What the first part of a path asks for.
  datatype Action =
    | AskIt | UseIt | ReleaseIt | LockIt | UnlockIt | StartLog | FinishLog | GetLog | CloseIt
    | Info | ListAll | ReloadAll | Ping | SetConnName | GetConnName | ReleaseEverything | Unknown

  function ActionOf(act: string): Action {
    if act == "ask" then AskIt
    else if act == "use" then UseIt
    else if act == "release" then ReleaseIt
    else if act == "lock" then LockIt
    else if act == "unlock" then UnlockIt
    else if act == "log_start" then StartLog
    else if act == "log_finish" then FinishLog
    else if act == "log_get" then GetLog
    else if act == "info" then Info
    else if act == "devices" || act == "list" then ListAll
    else if act == "reload" then ReloadAll
    else if act == "close" then CloseIt
    else if act == "ping" then Ping
    else if act == "get_time" then ListAll
    else if act == "set_conn_name" then SetConnName
    else if act == "get_conn_name" then GetConnName
    else if act == "list_conn_names" then ListAll
    else if act == "release_all" then ReleaseEverything
    else Unknown
  }

  // The request to one device behind an action.
  function DeviceRequest(action: Action, msg: string, c: Conn, w: World): Option<Request> {
    match action
    case AskIt => Some(Ask(c, msg, w.opening, w.reply))
    case UseIt => Some(Use(c, w.opening))
    case ReleaseIt => Some(Release(c))
    case LockIt => Some(Lock(c, w.opening))
    case UnlockIt => Some(Unlock(c))
    case StartLog => Some(LogStart(c))
    case FinishLog => Some(LogFinish(c))
    case GetLog => Some(LogGet(c))
    case CloseIt => Some(Close)
    case _ => None
  }

  function NameResponse(r: Result<(), ServerError>): Response {
    match r case Ok(_) => Ok(Text("")) case Err(e) => Err(e)
  }

  // The requests that are not for one device.
  function ServerRequest(s: Server, p: Url.Path, action: Action, c: Conn, w: World): (Server, Response) {
    match action
    case Info =>
      (s, if p.arg == "" then Err(NameExpected)
          else if p.arg !in s.devices then Err(UnknownDevice(p.arg))
          else Ok(Listing))
    case ListAll => (s, if p.arg != "" then Err(UnexpectedArgument) else Ok(Listing))
    case ReloadAll => Reload(s, w.file)
    case Ping => (s, Ok(Text("")))
    case SetConnName =>
      if p.msg != "" then (s, Err(UnexpectedArgument))
      else
        var (names, r) := SetName(s.names, c, p.arg);
        (s.(names := names), NameResponse(r))
    case GetConnName =>
      if p.arg != "" then (s, Err(UnexpectedArgument))
      else
        // Looking a name up creates an empty one if there is none.
        var names := if c in s.names then s.names else s.names[c := ""];
        (s.(names := names), Ok(Text(names[c])))
    case ReleaseEverything =>
      if p.arg != "" then (s, Err(UnexpectedArgument))
      else
        var (names, r) := SetName(s.names, c, "");
        (Server(ReleaseAll(s.devices, c), names), NameResponse(r))
    case _ => (s, Err(UnknownAction(p.act)))
  }

  function Run(s: Server, url: string, c: Conn, w: World): (Server, Response) {
    var p := Url.Parse(url);
    var request := DeviceRequest(ActionOf(p.act), p.msg, c, w);
    if request.Some? then OnDevice(s, p.arg, request.value)
    else ServerRequest(s, p, ActionOf(p.act), c, w)
  }

  function ConnOpen(s: Server, c: Conn): (Server, Result<(), ServerError>) {
    var (names, r) := SetName(s.names, c, "");
    (s.(names := names), r)
  }

  function ConnClose(s: Server, c: Conn): Server {
    Server(ReleaseAll(s.devices, c), s.names - {c})
  }

  // ---------------------------------------------------------------------
  // Runs.

  datatype Event =
    | Opened(conn: Conn)
    | Closed(conn: Conn)
    | Requested(conn: Conn, url: string, world: World)

  function Happen(s: Server, e: Event): Server {
    match e
    case Opened(c) => ConnOpen(s, c).0
    case Closed(c) => ConnClose(s, c)
    case Requested(c, url, w) => Run(s, url, c, w).0
  }

  function After(s: Server, es: seq<Event>): Server {
    if es == [] then s else Happen(After(s, es[..|es| - 1]), es[|es| - 1])
  }

  // The open connections, kept apart from the state of the server.
  function OpenConns(es: seq<Event>): set<Conn> {
    if es == [] then {}
    else
      NowOpen(OpenConns(es[..|es| - 1]), es[|es| - 1])
  }

  function NowOpen(open: set<Conn>, e: Event): set<Conn> {
    match e
    case Opened(c) => open + {c}
    case Closed(c) => open - {c}
    case Requested(_, _, _) => open
  }

  // Only open connections make requests.
  ghost predicate Orderly(es: seq<Event>) {
    forall i :: 0 <= i < |es| && es[i].Requested? ==> es[i].conn in OpenConns(es[..i])
  }

  // A device mentions connections of a set only.
  ghost predicate Mentions(s: State, open: set<Conn>) {
    s.users <= open && s.logs.Keys <= open
  }

  ghost predicate Inv(s: Server, open: set<Conn>) {
    && NamesOk(s.names)
    && s.names.Keys == open
    && forall n :: n in s.devices ==> DeviceModel.Inv(s.devices[n]) && Mentions(s.devices[n], open)
  }

  lemma UseMentions(s: State, c: Conn, opening: Option<string>, open: set<Conn>)
    requires Mentions(s, open) && c in open
    ensures Mentions(UseStep(s, c, opening).state, open)
  {}

  lemma LoggedKeys(logs: map<Conn, seq<string>>, entry: string)
    ensures Logged(logs, entry).Keys == logs.Keys
  {}

  lemma AskMentions(s: State, c: Conn, msg: string, opening: Option<string>, reply: Result<string, string>,
                    open: set<Conn>)
    requires Mentions(s, open) && c in open
    ensures Mentions(AskStep(s, c, msg, opening, reply).state, open)
  {
    UseMentions(s, c, opening, open);
    hide UseStep, Logged, SentEntry, ReplyEntry;
    var logs := UseStep(s, c, opening).state.logs;
    LoggedKeys(logs, SentEntry(msg));
    LoggedKeys(Logged(logs, SentEntry(msg)), ReplyEntry(reply));
  }

  lemma StepMentions(s: State, r: Request, open: set<Conn>)
    requires Mentions(s, open) && DeviceModel.Inv(s)
    requires r.Close? || r.conn in open
    ensures Mentions(Next(s, r).state, open) && DeviceModel.Inv(Next(s, r).state)
  {
    NextKeepsInv(s, r);
    hide DeviceModel.Inv, UseStep, AskStep;
    match r
    case Use(c, opening) => UseMentions(s, c, opening, open);
    case Lock(c, opening) => UseMentions(s, c, opening, open);
    case Ask(c, msg, opening, reply) => AskMentions(s, c, msg, opening, reply, open);
    case _ =>
  }

  // After a release nothing of the connection is left, and everything of the
  // others is as it was: their use, their logs, and their lock.
  lemma ReleaseLeavesNothing(s: State, c: Conn)
    requires DeviceModel.Inv(s)
    ensures var t := ReleaseStep(s, c).state;
            && t.users == s.users - {c} && t.logs == s.logs - {c} && t.open == s.open
            && !Holds(t, c)
            && (forall d :: d != c ==> (Holds(t, d) <==> Holds(s, d)))
            && DeviceModel.Inv(t)
  {}

  lemma ReleaseAllKeeps(devices: map<string, State>, c: Conn, open: set<Conn>)
    requires forall n :: n in devices ==> DeviceModel.Inv(devices[n]) && Mentions(devices[n], open)
    ensures forall n :: n in devices ==>
              DeviceModel.Inv(ReleaseAll(devices, c)[n]) && Mentions(ReleaseAll(devices, c)[n], open - {c})
  {
    forall n | n in devices
      ensures DeviceModel.Inv(ReleaseAll(devices, c)[n]) && Mentions(ReleaseAll(devices, c)[n], open - {c})
    {
      ReleaseLeavesNothing(devices[n], c);
    }
  }

  lemma OnDeviceKeepsInv(s: Server, name: string, r: Request, open: set<Conn>)
    requires Inv(s, open) && (r.Close? || r.conn in open)
    ensures Inv(OnDevice(s, name, r).0, open)
    ensures OnDevice(s, name, r).0.names == s.names
  {
    if name != "" && name in s.devices {
      StepMentions(s.devices[name], r, open);
      hide Next;
    }
  }

  lemma DeviceRequestConn(action: Action, msg: string, c: Conn, w: World)
    requires DeviceRequest(action, msg, c, w).Some?
    ensures DeviceRequest(action, msg, c, w).value.Close? || DeviceRequest(action, msg, c, w).value.conn == c
  {}

  lemma RenamedKeepsInv(s: Server, c: Conn, name: string, open: set<Conn>)
    requires Inv(s, open) && c in open
    ensures Inv(s.(names := SetName(s.names, c, name).0), open)
  {
    SetNameIff(s.names, c, name);
    hide SetName, DeviceModel.Inv, NamesOk, Mentions;
  }

  lemma ReleasedKeepsInv(s: Server, c: Conn, open: set<Conn>)
    requires Inv(s, open) && c in open
    ensures Inv(s.(devices := ReleaseAll(s.devices, c)), open)
  {
    ReleaseAllKeeps(s.devices, c, open);
    hide DeviceModel.Inv, ReleaseStep, NamesOk;
    assert open - {c} <= open;
  }

  lemma ReloadKeepsInv(s: Server, file: Option<seq<ConfModel.Words>>, open: set<Conn>)
    requires Inv(s, open)
    ensures Inv(Reload(s, file).0, open)
  {
    FreshOk(open);
    hide DeviceModel.Inv, Mentions, ConfModel.ReadFile, NamesOk;
  }

  lemma ServerRequestKeepsInv(s: Server, p: Url.Path, action: Action, c: Conn, w: World, open: set<Conn>)
    requires Inv(s, open) && c in open
    ensures Inv(ServerRequest(s, p, action, c, w).0, open)
  {
    assert c in s.names;
    hide SetName, ReleaseAll, Inv, Reload;
    match action
    case SetConnName => RenamedKeepsInv(s, c, p.arg, open);
    case ReleaseEverything =>
      ReleasedKeepsInv(s, c, open);
      RenamedKeepsInv(s.(devices := ReleaseAll(s.devices, c)), c, "", open);
    case ReloadAll => ReloadKeepsInv(s, w.file, open);
    case _ =>
  }

  lemma RunKeepsInv(s: Server, url: string, c: Conn, w: World, open: set<Conn>)
    requires Inv(s, open) && c in open
    ensures Inv(Run(s, url, c, w).0, open)
  {
    hide Url.Parse, ActionOf, DeviceRequest, OnDevice, ServerRequest, Inv;
    var p := Url.Parse(url);
    var request := DeviceRequest(ActionOf(p.act), p.msg, c, w);
    if request.Some? {
      DeviceRequestConn(ActionOf(p.act), p.msg, c, w);
      OnDeviceKeepsInv(s, p.arg, request.value, open);
    } else {
      ServerRequestKeepsInv(s, p, ActionOf(p.act), c, w, open);
    }
  }

  lemma FreshOk(open: set<Conn>)
    ensures DeviceModel.Inv(FRESH) && Mentions(FRESH, open)
  {}

  lemma OpenedKeepsInv(s: Server, c: Conn, open: set<Conn>)
    requires Inv(s, open)
    ensures Inv(ConnOpen(s, c).0, open + {c})
  {
    SetNameIff(s.names, c, "");
    WiderMentions(s, open, open + {c});
    hide SetName, DeviceModel.Inv, Mentions, NamesOk;
  }

  lemma ClosedKeepsInv(s: Server, c: Conn, open: set<Conn>)
    requires Inv(s, open)
    ensures Inv(ConnClose(s, c), open - {c})
  {
    ReleaseAllKeeps(s.devices, c, open);
    hide DeviceModel.Inv, Mentions, ReleaseStep;
  }

  lemma HappenKeepsInv(s: Server, e: Event, open: set<Conn>)
    requires Inv(s, open) && (e.Requested? ==> e.conn in open)
    ensures Inv(Happen(s, e), NowOpen(open, e))
  {
    hide Inv, Run, ConnOpen, ConnClose;
    match e
    case Opened(c) => OpenedKeepsInv(s, c, open);
    case Closed(c) => ClosedKeepsInv(s, c, open);
    case Requested(c, url, w) => RunKeepsInv(s, url, c, w, open);
  }

  lemma OrderlyFront(es: seq<Event>)
    requires Orderly(es) && es != []
    ensures var front, e := es[..|es| - 1], es[|es| - 1];
            Orderly(front) && (e.Requested? ==> e.conn in OpenConns(front))
  {
    hide OpenConns;
    var front := es[..|es| - 1];
    assert forall i :: 0 <= i < |front| ==> front[..i] == es[..i];
  }

  // No leaks: from any device list, when only open connections make requests,
  // in every reachable state the named connections are the open ones, names
  // are unique, and the users of a device and the owners of its logs are open
  // connections.
  lemma {:induction false} NoLeaks(table: ConfModel.Table, es: seq<Event>)
    requires Orderly(es)
    ensures Inv(After(Initial(table), es), OpenConns(es))
  {
    if es == [] {
      FreshOk({});
    } else {
      hide Inv, Happen, NowOpen, Orderly;
      var front, e := es[..|es| - 1], es[|es| - 1];
      OrderlyFront(es);
      NoLeaks(table, front);
      HappenKeepsInv(After(Initial(table), front), e, OpenConns(front));
    }
  }

  lemma WiderMentions(s: Server, open: set<Conn>, more: set<Conn>)
    requires open <= more
    requires forall n :: n in s.devices ==> Mentions(s.devices[n], open)
    ensures forall n :: n in s.devices ==> Mentions(s.devices[n], more)
  {}

  // Opening a connection and releasing all never fail on the name.
  lemma DefaultNamesNeverFail(table: ConfModel.Table, es: seq<Event>, c: Conn, w: World)
    requires Orderly(es)
    ensures var s := After(Initial(table), es);
            && ConnOpen(s, c).1.Ok? && ConnOpen(s, c).0.names == s.names[c := DefaultName(c)]
            && Run(s, "/release_all", c, w) ==
               (Server(ReleaseAll(s.devices, c), s.names[c := DefaultName(c)]), Ok(Text("")))
  {
    NoLeaks(table, es);
    var s := After(Initial(table), es);
    SetNameIff(s.names, c, "");
    ParseReleaseAll();
    RunReleaseAll(s, c, w);
    hide SetName, NamesOk, Run;
  }

  lemma RunReleaseAll(s: Server, c: Conn, w: World)
    ensures Run(s, "/release_all", c, w) ==
            var (names, r) := SetName(s.names, c, ""); (Server(ReleaseAll(s.devices, c), names), NameResponse(r))
  {
    ParseReleaseAll();
    ActionReleaseAll();
    hide Url.Parse, ActionOf, SetName, ReleaseAll;
  }

  lemma ActionReleaseAll()
    ensures ActionOf("release_all") == ReleaseEverything
  {}

  lemma NoSlash()
    ensures '/' !in "release_all" && '/' !in ""
  {
    var act := ['r', 'e', 'l', 'e', 'a', 's', 'e', '_', 'a', 'l', 'l'];
    assert act == "release_all" && '/' !in act;
  }

  lemma ParseReleaseAll()
    ensures Url.Parse("/release_all") == Url.Path("release_all", "", "")
  {
    NoSlash();
    Url.ParseParts(Url.Path("release_all", "", ""));
    hide Url.Parse;
    assert Url.Build(Url.Path("release_all", "", "")) == "/release_all";
  }

  // After a connection closes, or releases all, no device mentions it or is
  // locked by it, and the uses, logs and locks of the others are as before.
  lemma GoneEverywhere(table: ConfModel.Table, es: seq<Event>, c: Conn, w: World, n: string)
    requires Orderly(es)
    ensures var s := After(Initial(table), es);
            n in s.devices ==>
              && n in ConnClose(s, c).devices && n in Run(s, "/release_all", c, w).0.devices
              && ConnClose(s, c).devices[n] == Run(s, "/release_all", c, w).0.devices[n]
              && var was, now := s.devices[n], ConnClose(s, c).devices[n];
              && now.users == was.users - {c} && now.logs == was.logs - {c} && !Holds(now, c)
              && (forall d :: d != c ==> (Holds(now, d) <==> Holds(was, d)))
  {
    NoLeaks(table, es);
    DefaultNamesNeverFail(table, es, c, w);
    var s := After(Initial(table), es);
    hide Run;
    if n in s.devices {
      ReleaseLeavesNothing(s.devices[n], c);
    }
  }

  // A reload swaps in exactly the devices of an acceptable file, all of them
  // unused and unlocked and without logs, or it changes nothing.
  lemma ReloadIff(s: Server, file: Option<seq<ConfModel.Words>>)
    ensures var (t, r) := Reload(s, file);
            && t.names == s.names
            && (r.Ok? <==> file.Some? && ConfModel.Acceptable(map[], ConfModel.Body(file.value)))
            && (r.Err? ==> t == s)
            && (r.Ok? ==>
                  && (forall n :: n in t.devices ==> t.devices[n] == FRESH)
                  && (forall n :: n in t.devices <==>
                        exists i :: 0 <= i < |ConfModel.Body(file.value)| && ConfModel.Body(file.value)[i][0] == n))
  {
    ConfModel.FileAcceptedIff(file);
    hide ConfModel.ReadFile, ConfModel.Acceptable;
  }
}
