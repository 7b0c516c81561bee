/** The DevManager class of server/dev_manager.h and server/dev_manager.cpp: a
    mutable table of Device objects and of connection names, tied to the
    functions of ServerModel. */
module Manager {
  import opened Connections
  import opened Results
  import opened DeviceModel
  import opened Devices
  import ConfModel
  import ServerModel
  import Url

  type Words = ConfModel.Words

  class DevManager {
    var devices: map<string, Device>
    var connNames: map<Conn, string>

    // The state of every device.
    ghost function Views(): map<string, State>
      reads this`devices, devices.Values
    {
      map n | n in devices :: devices[n].View()
    }

    ghost function View(): ServerModel.Server
      reads this, devices.Values
    {
      ServerModel.Server(Views(), connNames)
    }

    // Every name has an object of its own.
    ghost predicate Valid()
      reads this`devices, devices.Values
    {
      && (forall n :: n in devices ==> devices[n].Valid())
      && (forall m, n :: m in devices && n in devices && m != n ==> devices[m] != devices[n])
    }

    // The open drivers.
    ghost function Drivers(): set<object>
      reads this`devices, devices.Values
    {
      set n | n in devices && devices[n].drv != null :: devices[n].drv
    }

    // A device list that cannot be read leaves the table empty.
    constructor (file: Option<seq<Words>>)
      ensures Valid() && fresh(devices.Values) && Drivers() == {}
      ensures connNames == map[]
      ensures match ConfModel.ReadFile(file)
              case Err(_) => View() == ServerModel.Initial(map[])
              case Ok(table) => Represents(devices, table) && View() == ServerModel.Initial(table)
    {
      devices, connNames := map[], map[];
      new;
      var r := ReadConf(file);
    }

    method ReleaseAll(conn: Conn)
      requires Valid()
      modifies devices.Values
      ensures Valid()
      ensures Views() == ServerModel.ReleaseAll(old(Views()), conn)
      ensures Drivers() == old(Drivers())
    {
      hide ReleaseStep, Device.View, Device.Valid;
      var todo := devices.Keys;
      while todo != {}
        invariant Valid() && todo <= devices.Keys
        invariant forall n :: n in todo ==> devices[n].View() == old(devices[n].View())
        invariant forall n :: n in devices && n !in todo ==>
                    devices[n].View() == ReleaseStep(old(devices[n].View()), conn).state
        invariant forall n :: n in devices ==> devices[n].drv == old(devices[n].drv)
        decreases todo
      {
        var n :| n in todo;
        devices[n].Release(conn);
        todo := todo - {n};
      }
    }

    method SetConnName(conn: Conn, name: string) returns (r: Result<(), ServerModel.ServerError>)
      modifies this`connNames
      ensures (connNames, r) == ServerModel.SetName(old(connNames), conn, name)
    {
      if |name| > 0 && name[0] == '#' { return Err(ServerModel.NameStartsWithHash); }
      var full := if name == "" then ServerModel.DefaultName(conn) else name;
      var todo := connNames.Keys;
      while todo != {}
        invariant todo <= connNames.Keys
        invariant forall c :: c in connNames && c !in todo && c != conn ==> connNames[c] != full
        decreases todo
      {
        var c :| c in todo;
        if c != conn && connNames[c] == full { return Err(ServerModel.NameTaken); }
        todo := todo - {c};
      }
      connNames := connNames[conn := full];
      r := Ok(());
    }

    method ConnOpen(conn: Conn) returns (r: Result<(), ServerModel.ServerError>)
      requires Valid()
      modifies this`connNames
      ensures Valid() && (View(), r) == ServerModel.ConnOpen(old(View()), conn)
    {
      r := SetConnName(conn, "");
    }

    method ConnClose(conn: Conn)
      requires Valid()
      modifies this`connNames, devices.Values
      ensures Valid() && View() == ServerModel.ConnClose(old(View()), conn)
      ensures Drivers() == old(Drivers())
    {
      ReleaseAll(conn);
      connNames := connNames - {conn};
    }

    // Serves a request path.
    method Run(url: string, conn: Conn, w: ServerModel.World) returns (r: ServerModel.Response)
      requires Valid()
      modifies this, devices.Values, Drivers()
      ensures Valid() && (View(), r) == ServerModel.Run(old(View()), url, conn, w)
      ensures fresh(devices.Values - old(devices.Values)) && fresh(Drivers() - old(Drivers()))
    {
      hide Valid, Views, Url.Parse, ServerModel.ActionOf, ServerModel.DeviceRequest,
        ServerModel.OnDevice, ServerModel.ServerRequest;
      var vs := Url.ParseUrl(url);
      var act, arg, msg := vs[0], vs[1], vs[2];
      var action := ServerModel.ActionOf(act);
      var request := ServerModel.DeviceRequest(action, msg, conn, w);
      if request.Some? {
        r := OnDevice(arg, request.value);
      } else {
        r := OnServer(Url.Path(act, arg, msg), action, conn, w);
      }
    }

    // One request that is not for a single device.
    method OnServer(p: Url.Path, action: ServerModel.Action, conn: Conn, w: ServerModel.World)
      returns (r: ServerModel.Response)
      requires Valid() && ServerModel.DeviceRequest(action, p.msg, conn, w).None?
      modifies this, devices.Values
      ensures Valid() && (View(), r) == ServerModel.ServerRequest(old(View()), p, action, conn, w)
      ensures fresh(devices.Values - old(devices.Values)) && fresh(Drivers() - old(Drivers()))
    {
      hide Valid, Drivers, ReleaseStep, ConfModel.ReadFile, ServerModel.SetName, Represents;
      match action
      case Info =>
        if p.arg == "" { return Err(ServerModel.NameExpected); }
        if p.arg !in devices { return Err(ServerModel.UnknownDevice(p.arg)); }
        r := Ok(ServerModel.Listing);
      case ListAll =>
        if p.arg != "" { return Err(ServerModel.UnexpectedArgument); }
        r := Ok(ServerModel.Listing);
      case ReloadAll =>
        var read := ReadConf(w.file);
        if read.Err? { return Err(ServerModel.BadConf(read.error)); }
        r := Ok(ServerModel.Listing);
      case Ping =>
        r := Ok(ServerModel.Text(""));
      case SetConnName =>
        if p.msg != "" { return Err(ServerModel.UnexpectedArgument); }
        var named := SetConnName(conn, p.arg);
        r := ServerModel.NameResponse(named);
      case GetConnName =>
        if p.arg != "" { return Err(ServerModel.UnexpectedArgument); }
        if conn !in connNames { connNames := connNames[conn := ""]; }
        r := Ok(ServerModel.Text(connNames[conn]));
      case ReleaseEverything =>
        if p.arg != "" { return Err(ServerModel.UnexpectedArgument); }
        ReleaseAll(conn);
        var named := SetConnName(conn, "");
        r := ServerModel.NameResponse(named);
      case _ =>
        r := Err(ServerModel.UnknownAction(p.act));
    }

    // Builds a new table and puts it in place if the whole file is good.
    method ReadConf(file: Option<seq<Words>>) returns (r: Result<(), ConfModel.ConfError>)
      requires Valid()
      modifies this`devices
      ensures Valid()
      ensures match ConfModel.ReadFile(file)
              case Err(e) => r == Err(e) && devices == old(devices)
              case Ok(table) =>
                && r.Ok? && Represents(devices, table) && fresh(devices.Values)
                && Views() == ServerModel.FreshTable(table) && Drivers() == {}
    {
      hide ConfModel.ReadFile;
      var ret := ReadTable(file);
      if ret.Err? { return Err(ret.error); }
      devices := ret.value;
      r := Ok(());
    }

    // A request to the device of a name changes that device only.
    method AtDevice(name: string, request: Request) returns (answer: Answer)
      requires Valid() && name in devices
      modifies devices.Values, Drivers()
      ensures Valid() && fresh(Drivers() - old(Drivers()))
      ensures Step(devices[name].View(), answer, []) == Next(old(devices[name].View()), request).(sent := [])
      ensures forall n :: n in devices && n != name ==> devices[n].View() == old(devices[n].View())
    {
      hide Next, Device.View, Device.Valid;
      answer := Serve(devices[name], request);
    }

    // One request that names a device.
    method OnDevice(name: string, request: Request) returns (r: ServerModel.Response)
      requires Valid()
      modifies devices.Values, Drivers()
      ensures Valid() && (View(), r) == ServerModel.OnDevice(old(View()), name, request)
      ensures devices == old(devices) && fresh(Drivers() - old(Drivers()))
    {
      if name == "" { return Err(ServerModel.NameExpected); }
      if name !in devices { return Err(ServerModel.UnknownDevice(name)); }
      hide Valid, Drivers, Next, Device.View, Device.Valid;
      ghost var was := Views();
      var answer := AtDevice(name, request);
      Updated(was, Views(), name);
      match answer
      case Ok(text) => r := Ok(ServerModel.Text(text));
      case Err(e) => r := Err(ServerModel.OfDevice(e));
    }
  }

  lemma Updated(was: map<string, State>, now: map<string, State>, name: string)
    requires name in was && now.Keys == was.Keys
    requires forall n :: n in was && n != name ==> now[n] == was[n]
    ensures now == was[name := now[name]]
  {}

  // The objects of a device table: new, unused and distinct.
  ghost predicate Represents(devices: map<string, Device>, table: ConfModel.Table)
    reads devices.Values
  {
    && devices.Keys == table.Keys
    && (forall n :: n in table ==>
          && devices[n].devName == n && devices[n].drvName == table[n].drv && devices[n].drvArgs == table[n].args
          && devices[n].Valid() && devices[n].View() == FRESH)
    && (forall m, n :: m in devices && n in devices && m != n ==> devices[m] != devices[n])
  }

  method ReadTable(file: Option<seq<Words>>) returns (r: Result<map<string, Device>, ConfModel.ConfError>)
    ensures match ConfModel.ReadFile(file)
            case Err(e) => r == Err(e)
            case Ok(table) => r.Ok? && Represents(r.value, table) && fresh(r.value.Values)
  {
    if file.None? { return Err(ConfModel.CannotOpen); }
    hide ConfModel.ParseLine, Represents;
    var lines := file.value;
    var ret: map<string, Device> := map[];
    ghost var table: ConfModel.Table := map[];
    RepresentsNone();
    assert lines[0..] == lines;
    var i := 0;
    while i < |lines| && lines[i] != []
      invariant 0 <= i <= |lines|
      invariant ConfModel.ReadFile(file) == ConfModel.AddLines(table, lines[i..])
      invariant Represents(ret, table) && fresh(ret.Values)
    {
      assert lines[i..][0] == lines[i] && lines[i..][1..] == lines[i + 1..];
      var more := AddDevice(ret, table, lines[i]);
      if more.Err? { return Err(more.error); }
      ret := more.value;
      table := ConfModel.AddLine(table, lines[i]).value;
      i := i + 1;
    }
    r := Ok(ret);
  }

  lemma RepresentsNone()
    ensures Represents(map[], map[])
  {}

  // Adds the device of one line to a table under construction.
  method AddDevice(ret: map<string, Device>, ghost table: ConfModel.Table, vs: Words)
    returns (r: Result<map<string, Device>, ConfModel.ConfError>)
    requires vs != [] && Represents(ret, table)
    ensures match ConfModel.AddLine(table, vs)
            case Err(e) => r == Err(e)
            case Ok(more) => r.Ok? && Represents(r.value, more) && fresh(r.value.Values - ret.Values)
  {
    hide ConfModel.ParseLine, Inv;
    var conf := ReadLine(vs);
    if conf.Err? { return Err(conf.error); }
    if vs[0] in ret { return Err(ConfModel.Duplicate(vs[0])); }
    var dev := new Device(vs[0], conf.value.drv, conf.value.args);
    r := Ok(ret[vs[0] := dev]);
  }

  // One line of the device list: its checks, and the loop over its parameters.
  method ReadLine(vs: Words) returns (r: Result<ConfModel.Conf, ConfModel.ConfError>)
    requires vs != []
    ensures r == ConfModel.ParseLine(vs)
  {
    if |vs| < 2 { return Err(ConfModel.TooFewWords); }
    var dev, drv := vs[0], vs[1];
    if dev == "" { return Err(ConfModel.EmptyName); }
    var k := 0;
    while k < |dev|
      invariant 0 <= k <= |dev| && forall i :: 0 <= i < k ==> dev[i] !in ConfModel.BAD_SYMBOLS
    {
      if dev[k] in ConfModel.BAD_SYMBOLS { return Err(ConfModel.BadSymbol(dev)); }
      k := k + 1;
    }
    if (|vs| - 2) % 2 != 0 { return Err(ConfModel.OddParameters); }
    var opt: map<string, string> := map[];
    var i := 2;
    while i + 1 < |vs|
      invariant 2 <= i <= |vs| && i % 2 == 0
      invariant ConfModel.PutAll(map[], vs[2..]) == ConfModel.PutAll(opt, vs[i..])
    {
      if |vs[i]| < 2 || vs[i][0] != '-' { return Err(ConfModel.BadParameter(vs[i])); }
      opt := opt[vs[i][1..] := vs[i + 1]];
      i := i + 2;
    }
    r := Ok(ConfModel.Conf(drv, opt));
  }

  // Serves a request to a device by the method for it.
  method Serve(d: Device, request: Request) returns (answer: Answer)
    requires d.Valid()
    modifies d, d.Repr()
    ensures d.Valid() && fresh(d.Repr() - old(d.Repr()))
    ensures var step := Next(old(d.View()), request); d.View() == step.state && answer == step.answer
  {
    answer := Ok("");
    match request
    case Use(conn, opening) => answer := d.Use(conn, opening);
    case Release(conn) => d.Release(conn);
    case Close => d.Close();
    case Lock(conn, opening) => answer := d.Lock(conn, opening);
    case Unlock(conn) => answer := d.Unlock(conn);
    case LogStart(conn) => d.LogStart(conn);
    case LogFinish(conn) => d.LogFinish(conn);
    case LogGet(conn) => answer := d.LogGet(conn);
    case Ask(conn, msg, opening, reply) => answer := d.Ask(conn, msg, opening, reply);
  }
}
