/** Runs of the whole server seen from one of its devices: between reloads a
    device goes through a run of DeviceModel, so what is proved there holds
    for every device of a server that serves requests, opens and closes
    connections (server/dev_manager.cpp). */
module ServerRuns {
  import opened Connections
  import opened Results
  import opened DeviceModel
  import ConfModel
  import Server = ServerModel
  import Url

  // What an event of the server asks of the device with name n.
  function RequestsFor(n: string, e: Server.Event): seq<Request> {
    match e
    case Opened(_) => []
    case Closed(c) => [Release(c)]
    case Requested(c, url, w) =>
      var p := Url.Parse(url);
      var action := Server.ActionOf(p.act);
      var request := Server.DeviceRequest(action, p.msg, c, w);
      if request.Some? then if p.arg == n then [request.value] else []
      else if action == Server.ReleaseEverything && p.arg == "" then [Release(c)]
      else []
  }

  function Projection(n: string, es: seq<Server.Event>): seq<Request> {
    if es == [] then [] else Projection(n, es[..|es| - 1]) + RequestsFor(n, es[|es| - 1])
  }

  // A reload that puts a new table in place.
  predicate Reloads(e: Server.Event) {
    && e.Requested?
    && Server.ActionOf(Url.Parse(e.url).act) == Server.ReloadAll
    && ConfModel.ReadFile(e.world.file).Ok?
  }

  lemma RunOne(s: State, r: Request)
    ensures DeviceModel.Run(s, []) == s
    ensures DeviceModel.Run(s, [r]) == Next(s, r).state
  {}

  lemma RunMore(s: State, rs: seq<Request>, more: seq<Request>)
    requires |more| <= 1
    ensures DeviceModel.Run(s, rs + more) == DeviceModel.Run(DeviceModel.Run(s, rs), more)
  {
    hide Next;
    if more == [] {
      assert rs + more == rs;
    } else {
      assert (rs + more)[..|rs|] == rs;
      RunOne(DeviceModel.Run(s, rs), more[0]);
      assert more == [more[0]];
    }
  }

  // One event of the server is at most one request to the device.
  lemma HappenOnDevice(s: Server.Server, e: Server.Event, n: string)
    requires n in s.devices && n != "" && !Reloads(e)
    ensures n in Server.Happen(s, e).devices && |RequestsFor(n, e)| <= 1
    ensures Server.Happen(s, e).devices[n] == DeviceModel.Run(s.devices[n], RequestsFor(n, e))
  {
    hide Next, DeviceModel.Run, ConfModel.ReadFile, Url.Parse, Server.ActionOf, Server.SetName, Server.DeviceRequest;
    RunOne(s.devices[n], if RequestsFor(n, e) != [] then RequestsFor(n, e)[0] else Close);
    if e.Closed? {
      ReleaseIsNext(s.devices[n], e.conn);
    } else if e.Requested? {
      ReleaseIsNext(s.devices[n], e.conn);
    }
  }

  lemma ReleaseIsNext(s: State, c: Conn)
    ensures Next(s, Release(c)) == ReleaseStep(s, c)
  {}

  // As long as no reload replaces the table, the state of a device is that of
  // the run of the requests that concern it.
  lemma {:induction false} DeviceOfRun(s: Server.Server, es: seq<Server.Event>, n: string)
    requires n in s.devices && n != ""
    requires forall i :: 0 <= i < |es| ==> !Reloads(es[i])
    ensures n in Server.After(s, es).devices
    ensures Server.After(s, es).devices[n] == DeviceModel.Run(s.devices[n], Projection(n, es))
  {
    hide Next, Server.Happen, RequestsFor, Reloads;
    if es == [] {
      RunOne(s.devices[n], Close);
    } else {
      var front, e := es[..|es| - 1], es[|es| - 1];
      DeviceOfRun(s, front, n);
      HappenOnDevice(Server.After(s, front), e, n);
      RunMore(s.devices[n], Projection(n, front), RequestsFor(n, e));
    }
  }

  // The events that end the lock of connection c on the device n: a release,
  // unlock or release_all by c, the close of its connection, or a close of
  // the device by anyone.
  ghost predicate EndsLock(e: Server.Event, n: string, c: Conn) {
    exists r :: r in RequestsFor(n, e) && EndsLockOf(r, c)
  }

  lemma {:induction false} ProjectionKeeps(n: string, es: seq<Server.Event>, c: Conn)
    requires forall i :: 0 <= i < |es| ==> !EndsLock(es[i], n, c)
    ensures forall i :: 0 <= i < |Projection(n, es)| ==> !EndsLockOf(Projection(n, es)[i], c)
  {
    hide RequestsFor;
    if es != [] {
      var front, e := es[..|es| - 1], es[|es| - 1];
      ProjectionKeeps(n, front, c);
      assert !EndsLock(e, n, c);
    }
  }

  // A request of connection d for the device n that c has locked.
  lemma Refused(s: Server.Server, n: string, c: Conn, d: Conn, r: Request)
    requires n in s.devices && n != "" && Inv(s.devices[n]) && Holds(s.devices[n], c)
    requires d != c && (r.Use? || r.Lock? || r.Ask? || r.Unlock?) && r.conn == d
    ensures Server.OnDevice(s, n, r) ==
            (s, Err(Server.OfDevice(if r.Unlock? then LockedByAnother else DeviceLocked)))
  {
    UnderLock(s.devices[n], c, r);
    hide Next, Inv, Holds;
    assert s.devices[n := s.devices[n]] == s.devices;
  }

  lemma RequestConn(action: Server.Action, msg: string, d: Conn, w: Server.World)
    requires Server.DeviceRequest(action, msg, d, w).Some?
    ensures var r := Server.DeviceRequest(action, msg, d, w).value;
            r.Use? || r.Lock? || r.Ask? || r.Unlock? ==> r.conn == d
  {}

  // Lock exclusion on the server: from a state in which c holds the lock of
  // a device, through any run of connections and requests that neither ends
  // this lock nor reloads, c goes on holding it, and every other connection
  // that asks for the device is refused, with the whole server unchanged.
  lemma ServerLockExclusion(s: Server.Server, es: seq<Server.Event>, n: string, c: Conn,
                            d: Conn, url: string, w: Server.World)
    requires n in s.devices && n != "" && Inv(s.devices[n]) && Holds(s.devices[n], c)
    requires forall i :: 0 <= i < |es| ==> !Reloads(es[i]) && !EndsLock(es[i], n, c)
    ensures var now, p := Server.After(s, es), Url.Parse(url);
            var request := Server.DeviceRequest(Server.ActionOf(p.act), p.msg, d, w);
            && n in now.devices && Holds(now.devices[n], c)
            && (d != c && p.arg == n && request.Some? ==>
                  && (request.value.Use? || request.value.Lock? || request.value.Ask? ==>
                        Server.Run(now, url, d, w) == (now, Err(Server.OfDevice(DeviceLocked))))
                  && (request.value.Unlock? ==>
                        Server.Run(now, url, d, w) == (now, Err(Server.OfDevice(LockedByAnother)))))
  {
    hide *;
    DeviceOfRun(s, es, n);
    ProjectionKeeps(n, es, c);
    var rs := Projection(n, es);
    LockKept(s.devices[n], c, rs);
    RunKeepsInv(s.devices[n], rs);
    var now, p := Server.After(s, es), Url.Parse(url);
    var request := Server.DeviceRequest(Server.ActionOf(p.act), p.msg, d, w);
    RunOnDevice(now, url, d, w);
    if d != c && p.arg == n && request.Some? {
      RequestConn(Server.ActionOf(p.act), p.msg, d, w);
      if request.value.Use? || request.value.Lock? || request.value.Ask? || request.value.Unlock? {
        Refused(now, n, c, d, request.value);
      }
    }
  }

  lemma RunOnDevice(s: Server.Server, url: string, d: Conn, w: Server.World)
    ensures var p := Url.Parse(url);
            var request := Server.DeviceRequest(Server.ActionOf(p.act), p.msg, d, w);
            request.Some? ==> Server.Run(s, url, d, w) == Server.OnDevice(s, p.arg, request.value)
  {
    hide Url.Parse, Server.ActionOf, Server.DeviceRequest, Server.OnDevice;
  }
}
