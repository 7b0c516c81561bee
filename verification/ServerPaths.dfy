/** The request paths of the server, literally: what each of them does
    (server/dev_manager.cpp, run).  None of the statements goes through the
    table of actions of ServerModel. */
module ServerPaths {
  import opened Connections
  import opened Results
  import opened DeviceModel
  import ConfModel
  import Server = ServerModel
  import Url

  type World = Server.World

  // ---------------------------------------------------------------------
  // The words.

  lemma AskWord()
    ensures '/' !in "ask" && Server.ActionOf("ask") == Server.AskIt
  {
    var act := ['a', 's', 'k'];
    assert act == "ask" && '/' !in act;
  }

  lemma UseWord()
    ensures '/' !in "use" && Server.ActionOf("use") == Server.UseIt
  {
    var act := ['u', 's', 'e'];
    assert act == "use" && '/' !in act;
  }

  lemma ReleaseWord()
    ensures '/' !in "release" && Server.ActionOf("release") == Server.ReleaseIt
  {
    var act := ['r', 'e', 'l', 'e', 'a', 's', 'e'];
    assert act == "release" && '/' !in act;
  }

  lemma LockWord()
    ensures '/' !in "lock" && Server.ActionOf("lock") == Server.LockIt
  {
    var act := ['l', 'o', 'c', 'k'];
    assert act == "lock" && '/' !in act;
  }

  lemma UnlockWord()
    ensures '/' !in "unlock" && Server.ActionOf("unlock") == Server.UnlockIt
  {
    var act := ['u', 'n', 'l', 'o', 'c', 'k'];
    assert act == "unlock" && '/' !in act;
  }

  lemma LogStartWord()
    ensures '/' !in "log_start" && Server.ActionOf("log_start") == Server.StartLog
  {
    var act := ['l', 'o', 'g', '_', 's', 't', 'a', 'r', 't'];
    assert act == "log_start" && '/' !in act;
  }

  lemma LogFinishWord()
    ensures '/' !in "log_finish" && Server.ActionOf("log_finish") == Server.FinishLog
  {
    var act := ['l', 'o', 'g', '_', 'f', 'i', 'n', 'i', 's', 'h'];
    assert act == "log_finish" && '/' !in act;
  }

  lemma LogGetWord()
    ensures '/' !in "log_get" && Server.ActionOf("log_get") == Server.GetLog
  {
    var act := ['l', 'o', 'g', '_', 'g', 'e', 't'];
    assert act == "log_get" && '/' !in act;
  }

  lemma CloseWord()
    ensures '/' !in "close" && Server.ActionOf("close") == Server.CloseIt
  {
    var act := ['c', 'l', 'o', 's', 'e'];
    assert act == "close" && '/' !in act;
  }

  lemma InfoWord()
    ensures '/' !in "info" && Server.ActionOf("info") == Server.Info
  {
    var act := ['i', 'n', 'f', 'o'];
    assert act == "info" && '/' !in act;
  }

  lemma DevicesWord()
    ensures '/' !in "devices" && Server.ActionOf("devices") == Server.ListAll
  {
    var act := ['d', 'e', 'v', 'i', 'c', 'e', 's'];
    assert act == "devices" && '/' !in act;
  }

  lemma ListWord()
    ensures '/' !in "list" && Server.ActionOf("list") == Server.ListAll
  {
    var act := ['l', 'i', 's', 't'];
    assert act == "list" && '/' !in act;
  }

  lemma ReloadWord()
    ensures '/' !in "reload" && Server.ActionOf("reload") == Server.ReloadAll
  {
    var act := ['r', 'e', 'l', 'o', 'a', 'd'];
    assert act == "reload" && '/' !in act;
  }

  lemma PingWord()
    ensures '/' !in "ping" && Server.ActionOf("ping") == Server.Ping
  {
    var act := ['p', 'i', 'n', 'g'];
    assert act == "ping" && '/' !in act;
  }

  lemma GetTimeWord()
    ensures '/' !in "get_time" && Server.ActionOf("get_time") == Server.ListAll
  {
    var act := ['g', 'e', 't', '_', 't', 'i', 'm', 'e'];
    assert act == "get_time" && '/' !in act;
  }

  lemma SetConnNameWord()
    ensures '/' !in "set_conn_name" && Server.ActionOf("set_conn_name") == Server.SetConnName
  {
    var act := ['s', 'e', 't', '_', 'c', 'o', 'n', 'n', '_', 'n', 'a', 'm', 'e'];
    assert act == "set_conn_name" && '/' !in act;
  }

  lemma GetConnNameWord()
    ensures '/' !in "get_conn_name" && Server.ActionOf("get_conn_name") == Server.GetConnName
  {
    var act := ['g', 'e', 't', '_', 'c', 'o', 'n', 'n', '_', 'n', 'a', 'm', 'e'];
    assert act == "get_conn_name" && '/' !in act;
  }

  lemma ListConnNamesWord()
    ensures '/' !in "list_conn_names" && Server.ActionOf("list_conn_names") == Server.ListAll
  {
    var act := ['l', 'i', 's', 't', '_', 'c', 'o', 'n', 'n', '_', 'n', 'a', 'm', 'e', 's'];
    assert act == "list_conn_names" && '/' !in act;
  }

  lemma ReleaseAllWord()
    ensures '/' !in "release_all" && Server.ActionOf("release_all") == Server.ReleaseEverything
  {
    var act := ['r', 'e', 'l', 'e', 'a', 's', 'e', '_', 'a', 'l', 'l'];
    assert act == "release_all" && '/' !in act;
  }

  // A path of an action, a device and a message.
  lemma Parsed(act: string, arg: string, msg: string)
    requires '/' !in act && '/' !in arg && (msg != "" ==> arg != "")
    ensures arg == "" ==> Url.Parse("/" + act) == Url.Path(act, arg, msg)
    ensures arg != "" && msg == "" ==> Url.Parse("/" + act + "/" + arg) == Url.Path(act, arg, msg)
    ensures msg != "" ==> Url.Parse("/" + act + "/" + arg + "/" + msg) == Url.Path(act, arg, msg)
  {
    var p := Url.Path(act, arg, msg);
    Url.ParseParts(p);
    BuildCases(p);
    hide *;
  }

  lemma BuildCases(p: Url.Path)
    ensures p.arg == "" && p.msg == "" ==> Url.Build(p) == "/" + p.act
    ensures p.arg != "" && p.msg == "" ==> Url.Build(p) == "/" + p.act + "/" + p.arg
    ensures p.arg != "" && p.msg != "" ==> Url.Build(p) == "/" + p.act + "/" + p.arg + "/" + p.msg
  {}

  // ---------------------------------------------------------------------
  // Requests for one device.

  // The device of this name makes the step, the rest of the server stays as
  // it is, and the response is the device's answer.
  predicate Steps(s: Server.Server, n: string, step: Step, t: Server.Server, r: Server.Response) {
    && t == s.(devices := s.devices[n := step.state])
    && (step.answer.Ok? ==> r == Ok(Server.Text(step.answer.value)))
    && (step.answer.Err? ==> r == Err(Server.OfDevice(step.answer.error)))
  }

  // What a path that names a device does: a name is expected, it must be
  // known, and then the device makes the step of the request.
  ghost predicate Serves(s: Server.Server, act: string, n: string, c: Conn, w: World, r: Request) {
    && Server.Run(s, "/" + act, c, w) == (s, Err(Server.NameExpected))
    && (n != "" && '/' !in n ==>
          var (t, response) := Server.Run(s, "/" + act + "/" + n, c, w);
          && (n !in s.devices ==> t == s && response == Err(Server.UnknownDevice(n)))
          && (n in s.devices ==> Steps(s, n, Next(s.devices[n], r), t, response)))
  }

  lemma DevicePath(s: Server.Server, act: string, n: string, c: Conn, w: World, r: Request)
    requires '/' !in act && Server.DeviceRequest(Server.ActionOf(act), "", c, w) == Some(r)
    ensures Serves(s, act, n, c, w, r)
  {
    Parsed(act, "", "");
    hide Url.Parse, Server.ActionOf, Server.DeviceRequest, Next;
    if n != "" && '/' !in n {
      Parsed(act, n, "");
    }
  }

  lemma UsePath(s: Server.Server, n: string, c: Conn, w: World)
    ensures Serves(s, "use", n, c, w, Use(c, w.opening))
  {
    UseWord();
    hide Server.ActionOf, Serves;
    DevicePath(s, "use", n, c, w, Use(c, w.opening));
  }

  lemma ReleasePath(s: Server.Server, n: string, c: Conn, w: World)
    ensures Serves(s, "release", n, c, w, Release(c))
  {
    ReleaseWord();
    hide Server.ActionOf, Serves;
    DevicePath(s, "release", n, c, w, Release(c));
  }

  lemma LockPath(s: Server.Server, n: string, c: Conn, w: World)
    ensures Serves(s, "lock", n, c, w, Lock(c, w.opening))
  {
    LockWord();
    hide Server.ActionOf, Serves;
    DevicePath(s, "lock", n, c, w, Lock(c, w.opening));
  }

  lemma UnlockPath(s: Server.Server, n: string, c: Conn, w: World)
    ensures Serves(s, "unlock", n, c, w, Unlock(c))
  {
    UnlockWord();
    hide Server.ActionOf, Serves;
    DevicePath(s, "unlock", n, c, w, Unlock(c));
  }

  lemma LogStartPath(s: Server.Server, n: string, c: Conn, w: World)
    ensures Serves(s, "log_start", n, c, w, LogStart(c))
  {
    LogStartWord();
    hide Server.ActionOf, Serves;
    DevicePath(s, "log_start", n, c, w, LogStart(c));
  }

  lemma LogFinishPath(s: Server.Server, n: string, c: Conn, w: World)
    ensures Serves(s, "log_finish", n, c, w, LogFinish(c))
  {
    LogFinishWord();
    hide Server.ActionOf, Serves;
    DevicePath(s, "log_finish", n, c, w, LogFinish(c));
  }

  lemma LogGetPath(s: Server.Server, n: string, c: Conn, w: World)
    ensures Serves(s, "log_get", n, c, w, LogGet(c))
  {
    LogGetWord();
    hide Server.ActionOf, Serves;
    DevicePath(s, "log_get", n, c, w, LogGet(c));
  }

  lemma ClosePath(s: Server.Server, n: string, c: Conn, w: World)
    ensures Serves(s, "close", n, c, w, Close)
  {
    CloseWord();
    hide Server.ActionOf, Serves;
    DevicePath(s, "close", n, c, w, Close);
  }

  // A message may hold slashes; without one it is empty.
  lemma AskPath(s: Server.Server, n: string, msg: string, c: Conn, w: World)
    ensures Serves(s, "ask", n, c, w, Ask(c, "", w.opening, w.reply))
    ensures n != "" && '/' !in n && msg != "" ==>
              var (t, response) := Server.Run(s, "/ask" + "/" + n + "/" + msg, c, w);
              && (n !in s.devices ==> t == s && response == Err(Server.UnknownDevice(n)))
              && (n in s.devices ==> Steps(s, n, Next(s.devices[n], Ask(c, msg, w.opening, w.reply)), t, response))
  {
    AskWord();
    hide Server.ActionOf, Serves, Next, Url.Parse;
    DevicePath(s, "ask", n, c, w, Ask(c, "", w.opening, w.reply));
    if n != "" && '/' !in n && msg != "" {
      Parsed("ask", n, msg);
      assert "/" + "ask" == "/ask";
    }
  }

  // ---------------------------------------------------------------------
  // Requests for the server.

  // A path whose action is not for one device.
  lemma ServerPath(s: Server.Server, act: string, arg: string, action: Server.Action, c: Conn, w: World)
    requires '/' !in act && '/' !in arg && Server.ActionOf(act) == action
    requires Server.DeviceRequest(action, "", c, w) == None
    ensures arg == "" ==>
              Server.Run(s, "/" + act, c, w) == Server.ServerRequest(s, Url.Path(act, "", ""), action, c, w)
    ensures arg != "" ==>
              Server.Run(s, "/" + act + "/" + arg, c, w)
              == Server.ServerRequest(s, Url.Path(act, arg, ""), action, c, w)
  {
    Parsed(act, arg, "");
    hide Url.Parse, Server.ActionOf, Server.DeviceRequest, Server.ServerRequest;
  }

  // The response to a request that names no device: with an argument there is
  // an error, and nothing changes.
  lemma InfoPath(s: Server.Server, n: string, c: Conn, w: World)
    ensures Server.Run(s, "/info", c, w) == (s, Err(Server.NameExpected))
    ensures n != "" && '/' !in n ==>
              Server.Run(s, "/info" + "/" + n, c, w) ==
              (s, if n in s.devices then Ok(Server.Listing) else Err(Server.UnknownDevice(n)))
  {
    InfoWord();
    assert "/" + "info" == "/info";
    hide Server.ActionOf, Server.Run;
    ServerPath(s, "info", "", Server.Info, c, w);
    if n != "" && '/' !in n {
      ServerPath(s, "info", n, Server.Info, c, w);
    }
  }

  lemma DevicesPath(s: Server.Server, n: string, c: Conn, w: World)
    ensures Server.Run(s, "/devices", c, w) == (s, Ok(Server.Listing))
    ensures n != "" && '/' !in n ==> Server.Run(s, "/devices" + "/" + n, c, w) == (s, Err(Server.UnexpectedArgument))
  {
    DevicesWord();
    assert "/" + "devices" == "/devices";
    hide Server.ActionOf, Server.Run;
    ServerPath(s, "devices", "", Server.ListAll, c, w);
    if n != "" && '/' !in n {
      ServerPath(s, "devices", n, Server.ListAll, c, w);
    }
  }

  lemma ListPath(s: Server.Server, n: string, c: Conn, w: World)
    ensures Server.Run(s, "/list", c, w) == (s, Ok(Server.Listing))
    ensures n != "" && '/' !in n ==> Server.Run(s, "/list" + "/" + n, c, w) == (s, Err(Server.UnexpectedArgument))
  {
    ListWord();
    assert "/" + "list" == "/list";
    hide Server.ActionOf, Server.Run;
    ServerPath(s, "list", "", Server.ListAll, c, w);
    if n != "" && '/' !in n {
      ServerPath(s, "list", n, Server.ListAll, c, w);
    }
  }

  lemma GetTimePath(s: Server.Server, n: string, c: Conn, w: World)
    ensures Server.Run(s, "/get_time", c, w) == (s, Ok(Server.Listing))
    ensures n != "" && '/' !in n ==> Server.Run(s, "/get_time" + "/" + n, c, w) == (s, Err(Server.UnexpectedArgument))
  {
    GetTimeWord();
    assert "/" + "get_time" == "/get_time";
    hide Server.ActionOf, Server.Run;
    ServerPath(s, "get_time", "", Server.ListAll, c, w);
    if n != "" && '/' !in n {
      ServerPath(s, "get_time", n, Server.ListAll, c, w);
    }
  }

  lemma ListConnNamesPath(s: Server.Server, n: string, c: Conn, w: World)
    ensures Server.Run(s, "/list_conn_names", c, w) == (s, Ok(Server.Listing))
    ensures n != "" && '/' !in n ==>
              Server.Run(s, "/list_conn_names" + "/" + n, c, w) == (s, Err(Server.UnexpectedArgument))
  {
    ListConnNamesWord();
    assert "/" + "list_conn_names" == "/list_conn_names";
    hide Server.ActionOf, Server.Run;
    ServerPath(s, "list_conn_names", "", Server.ListAll, c, w);
    if n != "" && '/' !in n {
      ServerPath(s, "list_conn_names", n, Server.ListAll, c, w);
    }
  }

  lemma PingPath(s: Server.Server, c: Conn, w: World)
    ensures Server.Run(s, "/ping", c, w) == (s, Ok(Server.Text("")))
  {
    PingWord();
    Parsed("ping", "", "");
    assert "/" + "ping" == "/ping";
    hide Server.ActionOf, Url.Parse;
  }

  // A reload: all or nothing.
  lemma ReloadPath(s: Server.Server, c: Conn, w: World)
    ensures var (t, r) := Server.Run(s, "/reload", c, w);
            && t.names == s.names
            && (r.Ok? <==> w.file.Some? && ConfModel.Acceptable(map[], ConfModel.Body(w.file.value)))
            && (r.Err? ==> t == s)
            && (r.Ok? ==>
                  && (forall n :: n in t.devices ==> t.devices[n] == State({}, false, false, map[]))
                  && (forall n :: n in t.devices <==>
                        exists i :: 0 <= i < |ConfModel.Body(w.file.value)| && ConfModel.Body(w.file.value)[i][0] == n))
  {
    ReloadWord();
    Parsed("reload", "", "");
    assert "/" + "reload" == "/reload";
    Server.ReloadIff(s, w.file);
    hide Server.ActionOf, Url.Parse, Server.Reload;
  }

  lemma NamingLaw(names: Server.Names, c: Conn, name: string)
    requires Server.NamesOk(names)
    ensures var (t, r) := Server.SetName(names, c, name);
            && (name == "" ==> r == Ok(()) && t == names[c := "#" + Server.Decimal(c)])
            && (name != "" && name[0] == '#' ==> r == Err(Server.NameStartsWithHash) && t == names)
            && (name != "" && name[0] != '#' && (exists d :: d in names && d != c && names[d] == name) ==>
                  r == Err(Server.NameTaken) && t == names)
            && (name != "" && name[0] != '#' && (forall d :: d in names && d != c ==> names[d] != name) ==>
                  r == Ok(()) && t == names[c := name])
  {
    Server.DefaultNameFree(names, c);
    hide Server.Decimal, Server.NamesOk;
  }

  // The name of a connection: a leading hash is refused, and a name of
  // another connection; no name means the hash and the connection's number.
  lemma SetConnNamePath(s: Server.Server, name: string, c: Conn, w: World)
    requires Server.NamesOk(s.names) && '/' !in name
    ensures var (t, r) := Server.Run(s, if name == "" then "/set_conn_name" else "/set_conn_name" + "/" + name, c, w);
            && (name == "" ==> r == Ok(Server.Text("")) && t == s.(names := s.names[c := "#" + Server.Decimal(c)]))
            && (name != "" && name[0] == '#' ==> r == Err(Server.NameStartsWithHash) && t == s)
            && (name != "" && name[0] != '#' && (exists d :: d in s.names && d != c && s.names[d] == name) ==>
                  r == Err(Server.NameTaken) && t == s)
            && (name != "" && name[0] != '#' && (forall d :: d in s.names && d != c ==> s.names[d] != name) ==>
                  r == Ok(Server.Text("")) && t == s.(names := s.names[c := name]))
  {
    SetConnNameWord();
    assert "/" + "set_conn_name" == "/set_conn_name";
    hide Server.ActionOf, Server.Run;
    ServerPath(s, "set_conn_name", name, Server.SetConnName, c, w);
    NamingLaw(s.names, c, name);
    hide Server.SetName, Server.NamesOk, Server.Decimal;
  }

  lemma GetConnNamePath(s: Server.Server, n: string, c: Conn, w: World)
    ensures c in s.names ==> Server.Run(s, "/get_conn_name", c, w) == (s, Ok(Server.Text(s.names[c])))
    ensures c !in s.names ==>
              Server.Run(s, "/get_conn_name", c, w) == (s.(names := s.names[c := ""]), Ok(Server.Text("")))
    ensures n != "" && '/' !in n ==>
              Server.Run(s, "/get_conn_name" + "/" + n, c, w) == (s, Err(Server.UnexpectedArgument))
  {
    GetConnNameWord();
    assert "/" + "get_conn_name" == "/get_conn_name";
    hide Server.ActionOf, Server.Run;
    ServerPath(s, "get_conn_name", "", Server.GetConnName, c, w);
    if n != "" && '/' !in n {
      ServerPath(s, "get_conn_name", n, Server.GetConnName, c, w);
    }
  }

  lemma ReleasesAll(s: Server.Server, p: Url.Path, c: Conn, w: World, n: string)
    requires Server.NamesOk(s.names) && p.arg == ""
    ensures var (t, r) := Server.ServerRequest(s, p, Server.ReleaseEverything, c, w);
            && r == Ok(Server.Text(""))
            && t.names == s.names[c := "#" + Server.Decimal(c)]
            && t.devices.Keys == s.devices.Keys
            && (n in s.devices ==> t.devices[n] == Next(s.devices[n], Release(c)).state)
  {
    NamingLaw(s.names, c, "");
    hide Server.SetName, Server.NamesOk, Server.Decimal, ReleaseStep;
  }

  // Every device is released, and the name goes back to the default.
  lemma ReleaseAllPath(s: Server.Server, c: Conn, w: World, n: string)
    requires Server.NamesOk(s.names)
    ensures var (t, r) := Server.Run(s, "/release_all", c, w);
            && r == Ok(Server.Text(""))
            && t.names == s.names[c := "#" + Server.Decimal(c)]
            && t.devices.Keys == s.devices.Keys
            && (n in s.devices ==> t.devices[n] == Next(s.devices[n], Release(c)).state)
  {
    ReleaseAllWord();
    assert "/" + "release_all" == "/release_all";
    ReleasesAll(s, Url.Path("release_all", "", ""), c, w, n);
    hide *;
    ServerPath(s, "release_all", "", Server.ReleaseEverything, c, w);
  }

  lemma SurplusPaths(s: Server.Server, n: string, msg: string, c: Conn, w: World)
    requires n != "" && '/' !in n && msg != ""
    ensures Server.Run(s, "/release_all" + "/" + n, c, w) == (s, Err(Server.UnexpectedArgument))
    ensures Server.Run(s, "/set_conn_name" + "/" + n + "/" + msg, c, w) == (s, Err(Server.UnexpectedArgument))
  {
    ReleaseAllWord();
    SetConnNameWord();
    assert "/" + "release_all" == "/release_all" && "/" + "set_conn_name" == "/set_conn_name";
    hide Server.ActionOf, Url.Parse, Server.SetName;
    ServerPath(s, "release_all", n, Server.ReleaseEverything, c, w);
    Parsed("set_conn_name", n, msg);
  }

  lemma MessageUnused(s: Server.Server, action: Server.Action, act: string, n: string, msg: string, c: Conn, w: World)
    requires action != Server.AskIt && action != Server.SetConnName
    ensures Server.DeviceRequest(action, msg, c, w) == Server.DeviceRequest(action, "", c, w)
    ensures Server.ServerRequest(s, Url.Path(act, n, msg), action, c, w) ==
            Server.ServerRequest(s, Url.Path(act, n, ""), action, c, w)
  {
    hide Server.SetName, Server.Reload;
  }

  lemma MessageUsers(act: string)
    ensures Server.ActionOf(act) == Server.AskIt <==> act == "ask"
    ensures Server.ActionOf(act) == Server.SetConnName <==> act == "set_conn_name"
  {
    AskWord();
    SetConnNameWord();
  }

  // Only ask and set_conn_name look at what follows the name of a device.
  lemma MessageIgnored(s: Server.Server, act: string, n: string, msg: string, c: Conn, w: World)
    requires '/' !in act && n != "" && '/' !in n && msg != "" && act != "ask" && act != "set_conn_name"
    ensures Server.Run(s, "/" + act + "/" + n + "/" + msg, c, w) == Server.Run(s, "/" + act + "/" + n, c, w)
  {
    Parsed(act, n, msg);
    Parsed(act, n, "");
    MessageUsers(act);
    MessageUnused(s, Server.ActionOf(act), act, n, msg, c, w);
    hide Server.ActionOf, Url.Parse, Server.OnDevice, Server.DeviceRequest, Server.ServerRequest;
  }

  // A reload and a ping take any argument.
  lemma ArgumentIgnored(s: Server.Server, act: string, n: string, c: Conn, w: World)
    requires (act == "reload" || act == "ping") && n != "" && '/' !in n
    ensures Server.Run(s, "/" + act + "/" + n, c, w) == Server.Run(s, "/" + act, c, w)
  {
    ReloadWord();
    PingWord();
    Parsed(act, n, "");
    Parsed(act, "", "");
    hide Server.ActionOf, Url.Parse, Server.Reload;
  }

  // Nothing else is an action.
  lemma UnknownPath(s: Server.Server, act: string, n: string, c: Conn, w: World)
    requires '/' !in act
    requires act !in {"ask", "use", "release", "lock", "unlock", "log_start", "log_finish", "log_get", "info",
                      "devices", "list", "reload", "close", "ping", "get_time", "set_conn_name", "get_conn_name",
                      "list_conn_names", "release_all"}
    ensures Server.Run(s, "/" + act, c, w) == (s, Err(Server.UnknownAction(act)))
    ensures n != "" && '/' !in n ==> Server.Run(s, "/" + act + "/" + n, c, w) == (s, Err(Server.UnknownAction(act)))
  {
    assert Server.ActionOf(act) == Server.Unknown;
    Parsed(act, "", "");
    if n != "" && '/' !in n {
      Parsed(act, n, "");
    }
    hide Server.ActionOf, Url.Parse;
  }
}
