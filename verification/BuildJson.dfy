/** The status document: what is listed of proxies, services, connections and tunnels, and the code that prints it. */
module BuildJson {
  import opened Sequences
  import opened ClientConnections
  import opened Json
  import opened JsonBuffer

  //// What is printed

  datatype ServiceType = NoService | SocksService | PortForward | Http
  datatype Service = Service(id: nat, kind: ServiceType, bindAddress: string, port: int,
                             remoteHost: string, remotePort: int, baseDir: string)

  /** A host as printed: no name is the empty name, and the address is text already. */
  datatype Host = Host(name: string, hasAddr: bool, addrText: string, port: int)

  /** The copy of a connection that is taken under its lock. */
  datatype Connection = Connection(id: nat, service: Service, tunnel: Option<string>, socksVersion: int, socksCommand: int,
                                   dstOriginal: Host, dst: Host, status: int, statusName: string, statusDescription: string,
                                   bytesTx: nat, bytesRx: nat, urlPath: string, src: Host, startTime: nat, endTime: int)
  datatype Proxy = Proxy(name: string, logLevel: string, logFile: Option<string>,
                         services: seq<Service>, connections: seq<Connection>)
  datatype Tunnel = Tunnel(name: string, pid: int, startTime: nat, connectionCount: nat, socksPort: int)
  datatype World = World(currentTime: int, startTime: int, version: string, buildDate: string, gitHash: string,
                         proxies: seq<Proxy>, tunnels: seq<Tunnel>)

  //// The tree it stands for

  function Text(name: string, value: string): Member {
    Member(name, Str(value))
  }

  function Number(name: string, value: int): Member {
    Member(name, Num(value))
  }

  function Opt(present: bool, m: Member): seq<Member> {
    if present then [m] else []
  }

  function TypeName(kind: ServiceType): string {
    match kind
    case NoService => "none"
    case SocksService => "SOCKS"
    case PortForward => "portForward"
    case Http => "HTTP"
  }

  function ServiceMembers(s: Service): seq<Member> {
    [Number("serviceId", s.id)] + [Text("type", TypeName(s.kind))]
      + Opt(s.kind.PortForward?, Text("remoteAddress", s.remoteHost))
      + Opt(s.kind.PortForward?, Number("remotePort", s.remotePort))
      + Opt(s.kind.Http?, Text("baseDir", s.baseDir))
      + [Text("localAddress", s.bindAddress)]
  }

  function ServiceTree(s: Service): Member {
    Member(Digits(s.id), Obj(ServiceMembers(s) + [Number("localPort", s.port)]))
  }

  predicate ShowsRoute(c: Connection) {
    (c.service.kind.SocksService? || c.service.kind.PortForward?) && c.tunnel.Some?
  }

  function RouteMembers(c: Connection): seq<Member> {
    if ShowsRoute(c) then
      [Text("route", c.tunnel.value)] + [Number("socksVersion", c.socksVersion)] + [Number("socksCommand", c.socksCommand)]
    else []
  }

  function HostMembers(h: Host, suffix: string): seq<Member> {
    Opt(h.name != "", Text("remoteName" + suffix, h.name))
      + Opt(h.hasAddr, Text("remoteAddress" + suffix, h.addrText))
      + [Number("remotePort" + suffix, h.port)]
  }

  function StatusMembers(c: Connection): seq<Member> {
    [Number("status", c.status)]
      + Opt(c.statusName != "", Text("statusName", c.statusName))
      + Opt(c.statusDescription != "", Text("statusDescription", c.statusDescription))
  }

  function TrafficMembers(c: Connection): seq<Member> {
    [Number("bytesTx", c.bytesTx)] + [Number("bytesRx", c.bytesRx)]
      + Opt(c.service.kind.Http? && c.urlPath != "", Text("urlPath", c.urlPath))
  }

  function SourceMembers(c: Connection): seq<Member> {
    Opt(c.src.name != "", Text("sourceName", c.src.name))
      + [Text("sourceAddress", c.src.addrText)] + [Number("sourcePort", c.src.port)]
      + Opt(c.endTime > 0, Number("timeEnd", c.endTime))
  }

  function ConnectionMembers(c: Connection): seq<Member> {
    [Number("connectionId", c.id)] + [Number("service", c.service.id)] + RouteMembers(c)
      + HostMembers(c.dstOriginal, "") + HostMembers(c.dst, "Effective") + StatusMembers(c) + TrafficMembers(c) + SourceMembers(c)
  }

  function ConnectionTree(c: Connection): Member {
    Member(Digits(c.id), Obj(ConnectionMembers(c) + [Number("timeStart", c.startTime)]))
  }

  function Services(s: seq<Service>): seq<Member> {
    if s == [] then [] else Services(s[..|s| - 1]) + [ServiceTree(s[|s| - 1])]
  }

  lemma ServicesGrow(s: seq<Service>, i: nat)
    requires i < |s|
    ensures Services(s[..i + 1]) == Services(s[..i]) + [ServiceTree(s[i])]
  {
    assert s[..i + 1][..i] == s[..i];
  }

  function Connections(s: seq<Connection>): seq<Member> {
    if s == [] then [] else Connections(s[..|s| - 1]) + [ConnectionTree(s[|s| - 1])]
  }

  lemma ConnectionsGrow(s: seq<Connection>, i: nat)
    requires i < |s|
    ensures Connections(s[..i + 1]) == Connections(s[..i]) + [ConnectionTree(s[i])]
  {
    assert s[..i + 1][..i] == s[..i];
  }

  function LogFilename(p: Proxy): string {
    if p.logFile.Some? then p.logFile.value else "-"
  }

  function ProxyMembers(p: Proxy): seq<Member> {
    [Text("name", p.name)] + [Text("logLevel", p.logLevel)] + [Text("logFilename", LogFilename(p))]
      + [Member("service", Obj(Services(p.services)))]
  }

  function ProxyTree(p: Proxy): Member {
    Member(p.name, Obj(ProxyMembers(p) + [Member("connection", Obj(Connections(p.connections)))]))
  }

  function Proxies(s: seq<Proxy>): seq<Member> {
    if s == [] then [] else Proxies(s[..|s| - 1]) + [ProxyTree(s[|s| - 1])]
  }

  lemma ProxiesGrow(s: seq<Proxy>, i: nat)
    requires i < |s|
    ensures Proxies(s[..i + 1]) == Proxies(s[..i]) + [ProxyTree(s[i])]
  {
    assert s[..i + 1][..i] == s[..i];
  }

  function PidMembers(t: Tunnel): seq<Member> {
    if t.pid > 0 then
      [Number("pid", t.pid)] + [Number("timeStart", t.startTime)] + [Number("numConnections", t.connectionCount)]
    else []
  }

  function TunnelTree(t: Tunnel): Member {
    Member(t.name, Obj([Text("name", t.name)] + PidMembers(t) + [Number("socksPort", t.socksPort)]))
  }

  /** The built-in tunnels, which have no port, are not printed. */
  function Tunnels(s: seq<Tunnel>): seq<Member> {
    if s == [] then []
    else Tunnels(s[..|s| - 1]) + Opt(s[|s| - 1].socksPort != 0, TunnelTree(s[|s| - 1]))
  }

  function HeaderMembers(w: World): seq<Member> {
    [Number("currentTime", w.currentTime)] + [Number("proxyStartTime", w.startTime)] + [Text("version", w.version)]
      + [Text("buildDate", w.buildDate)] + [Text("gitHash", w.gitHash)]
  }

  function Document(w: World): Json {
    Obj(HeaderMembers(w)
      + [Member("proxyInstance", Obj(Proxies(w.proxies)))] + [Member("sshTunnel", Obj(Tunnels(w.tunnels)))])
  }

  //// Printing members: `base` is the text before the object, `done` its members so far

  ghost predicate At(b: Buffer, base: string, done: seq<Member>)
    reads b, b.buf
  {
    b.Valid() && (b.whole ==> b.Text() == base + Trail(done))
  }

  lemma Reached(base: string, done: seq<Member>, m: Member, text: string)
    requires text == base + Trail(done) + PrintMember(m) + ","
    ensures text == base + Trail(done + [m])
  {
    TrailGrows(done, m);
    assert base + Trail(done) + PrintMember(m) + "," == base + (Trail(done) + (PrintMember(m) + ","));
  }

  method AddStringMember(b: Buffer, name: string, value: string, ghost base: string, ghost done: seq<Member>)
    requires At(b, base, done)
    modifies b, b.buf
    ensures At(b, base, done + [Text(name, value)]) && (b.buf == old(b.buf) || fresh(b.buf))
    ensures (old(b.Ready()) ==> b.Ready()) && (b.whole ==> old(b.whole))
  {
    b.AddString(name, value);
    b.AddComma();
    if b.whole {
      Reached(base, done, Text(name, value), b.Text());
    }
  }

  method AddIntMember(b: Buffer, name: string, value: int, ghost base: string, ghost done: seq<Member>)
    requires At(b, base, done)
    modifies b, b.buf
    ensures At(b, base, done + [Number(name, value)]) && (b.buf == old(b.buf) || fresh(b.buf))
    ensures (old(b.Ready()) ==> b.Ready()) && (b.whole ==> old(b.whole))
  {
    b.AddInt(name, value);
    b.AddComma();
    if b.whole {
      Reached(base, done, Number(name, value), b.Text());
    }
  }

  method AddUintMember(b: Buffer, name: string, value: nat, ghost base: string, ghost done: seq<Member>)
    requires At(b, base, done)
    modifies b, b.buf
    ensures At(b, base, done + [Number(name, value)]) && (b.buf == old(b.buf) || fresh(b.buf))
    ensures (old(b.Ready()) ==> b.Ready()) && (b.whole ==> old(b.whole))
  {
    b.AddUint(name, value);
    b.AddComma();
    if b.whole {
      Reached(base, done, Number(name, value), b.Text());
    }
  }

  method AddOptionalString(b: Buffer, present: bool, name: string, value: string, ghost base: string, ghost done: seq<Member>)
    requires At(b, base, done)
    modifies b, b.buf
    ensures At(b, base, done + Opt(present, Text(name, value))) && (b.buf == old(b.buf) || fresh(b.buf))
    ensures (old(b.Ready()) ==> b.Ready()) && (b.whole ==> old(b.whole))
  {
    if present {
      AddStringMember(b, name, value, base, done);
    } else {
      assert done + [] == done;
    }
  }

  lemma OpensObject(before: string, name: string)
    ensures before + "\"" + name + "\":{" == before + Key(name) + "{"
  {
    assert Key(name) == "\"" + name + "\":";
  }

  /** A key and the brace that opens its object. */
  method OpenObject(b: Buffer, name: string)
    requires b.Valid()
    modifies b, b.buf
    ensures b.Valid() && (b.buf == old(b.buf) || fresh(b.buf)) && (old(b.Ready()) ==> b.Ready())
    ensures b.whole ==> old(b.whole) && b.Text() == old(b.Text()) + Key(name) + "{"
  {
    ghost var before := b.Text();
    b.AddToBuf("\"");
    b.AddToBuf(name);
    b.AddToBuf("\":{");
    OpensObject(before, name);
  }

  //// Services

  method AddService(b: Buffer, srv: Service)
    requires b.Valid()
    modifies b, b.buf
    ensures b.Valid() && (b.buf == old(b.buf) || fresh(b.buf)) && (old(b.Ready()) ==> b.Ready())
    ensures b.whole ==> old(b.whole) && b.Text() == old(b.Text()) + PrintMember(ServiceTree(srv))
  {
    ghost var before := b.Text();
    OpenObject(b, Digits(srv.id));
    AddServiceMembers(b, srv, b.Text());
    b.AddInt("localPort", srv.port);
    b.AddToBuf("}");
    ClosesObject(before, Digits(srv.id), ServiceMembers(srv), Number("localPort", srv.port));
  }

  method AddServiceMembers(b: Buffer, srv: Service, ghost base: string)
    requires b.Valid() && (b.whole ==> b.Text() == base)
    modifies b, b.buf
    ensures At(b, base, ServiceMembers(srv)) && (b.buf == old(b.buf) || fresh(b.buf))
    ensures (old(b.Ready()) ==> b.Ready()) && (b.whole ==> old(b.whole))
  {
    ghost var done: seq<Member> := [];
    assert base + Trail([]) == base;
    AddUintMember(b, "serviceId", srv.id, base, done);
    done := done + [Number("serviceId", srv.id)];
    assert done == [Number("serviceId", srv.id)];
    AddStringMember(b, "type", TypeName(srv.kind), base, done);
    done := done + [Text("type", TypeName(srv.kind))];
    AddForwardMembers(b, srv, base, done);
    done := done + Opt(srv.kind.PortForward?, Text("remoteAddress", srv.remoteHost))
      + Opt(srv.kind.PortForward?, Number("remotePort", srv.remotePort));
    AddOptionalString(b, srv.kind.Http?, "baseDir", srv.baseDir, base, done);
    done := done + Opt(srv.kind.Http?, Text("baseDir", srv.baseDir));
    AddStringMember(b, "localAddress", srv.bindAddress, base, done);
  }

  method AddForwardMembers(b: Buffer, srv: Service, ghost base: string, ghost done: seq<Member>)
    requires At(b, base, done)
    modifies b, b.buf
    ensures b.buf == old(b.buf) || fresh(b.buf)
    ensures (old(b.Ready()) ==> b.Ready()) && (b.whole ==> old(b.whole))
    ensures At(b, base, done + Opt(srv.kind.PortForward?, Text("remoteAddress", srv.remoteHost))
      + Opt(srv.kind.PortForward?, Number("remotePort", srv.remotePort)))
  {
    if srv.kind.PortForward? {
      AddStringMember(b, "remoteAddress", srv.remoteHost, base, done);
      AddIntMember(b, "remotePort", srv.remotePort, base, done + [Text("remoteAddress", srv.remoteHost)]);
    } else {
      assert done + [] + [] == done;
    }
  }

  /** A separator before every element but the first. */
  method AddSeparator(b: Buffer, needComma: bool)
    requires b.Valid()
    modifies b, b.buf
    ensures b.Valid() && (b.buf == old(b.buf) || fresh(b.buf)) && (old(b.Ready()) ==> b.Ready())
    ensures b.whole ==> old(b.whole) && b.Text() == old(b.Text()) + (if needComma then "," else "")
  {
    if needComma {
      b.AddToBuf(",");
    } else {
      assert b.Text() + "" == b.Text();
    }
  }

  lemma Listed(base: string, done: seq<Member>, m: Member, text: string)
    requires text == base + PrintMembers(done) + (if done == [] then "" else ",") + PrintMember(m)
    ensures text == base + PrintMembers(done + [m])
  {
    ListGrows(done, m);
    var comma := if done == [] then "" else ",";
    Associative(base + PrintMembers(done), comma, PrintMember(m));
    Associative(base, PrintMembers(done), comma + PrintMember(m));
  }

  method AddListedService(b: Buffer, srv: Service, needComma: bool, ghost base: string, ghost done: seq<Member>)
    requires b.Valid() && (b.whole ==> b.Text() == base + PrintMembers(done)) && needComma == (done != [])
    modifies b, b.buf
    ensures b.Valid() && (b.buf == old(b.buf) || fresh(b.buf)) && (old(b.Ready()) ==> b.Ready())
    ensures b.whole ==> old(b.whole) && b.Text() == base + PrintMembers(done + [ServiceTree(srv)])
  {
    AddSeparator(b, needComma);
    AddService(b, srv);
    if b.whole {
      Listed(base, done, ServiceTree(srv), b.Text());
    }
  }

  method AddServices(b: Buffer, services: seq<Service>)
    requires b.Valid()
    modifies b, b.buf
    ensures b.Valid() && (b.buf == old(b.buf) || fresh(b.buf)) && (old(b.Ready()) ==> b.Ready())
    ensures b.whole ==> old(b.whole) && b.Text() == old(b.Text()) + PrintMembers(Services(services))
  {
    ghost var base := b.Text();
    ghost var done: seq<Member> := [];
    assert base + PrintMembers([]) == base;
    var needComma := false;
    for i := 0 to |services|
      invariant b.Valid() && (old(b.Ready()) ==> b.Ready()) && (b.buf == old(b.buf) || fresh(b.buf)) && needComma == (done != [])
      invariant (b.whole ==> old(b.whole) && b.Text() == base + PrintMembers(done)) && done == Services(services[..i])
    {
      ServicesGrow(services, i);
      AddListedService(b, services[i], needComma, base, done);
      needComma := true;
      done := done + [ServiceTree(services[i])];
    }
    assert services[..|services|] == services;
  }

  //// Connections

  method AddRoute(b: Buffer, con: Connection, ghost base: string, ghost done: seq<Member>)
    requires At(b, base, done)
    modifies b, b.buf
    ensures At(b, base, done + RouteMembers(con)) && (b.buf == old(b.buf) || fresh(b.buf))
    ensures (old(b.Ready()) ==> b.Ready()) && (b.whole ==> old(b.whole))
  {
    if (con.service.kind.SocksService? || con.service.kind.PortForward?) && con.tunnel.Some? {
      ghost var route, version := Text("route", con.tunnel.value), Number("socksVersion", con.socksVersion);
      AddStringMember(b, "route", con.tunnel.value, base, done);
      AddIntMember(b, "socksVersion", con.socksVersion, base, done + [route]);
      AddIntMember(b, "socksCommand", con.socksCommand, base, done + [route] + [version]);
      assert done + RouteMembers(con) == done + [route] + [version] + [Number("socksCommand", con.socksCommand)];
    } else {
      assert done + [] == done;
    }
  }

  method AddHost(b: Buffer, h: Host, suffix: string, ghost base: string, ghost done: seq<Member>)
    requires At(b, base, done)
    modifies b, b.buf
    ensures At(b, base, done + HostMembers(h, suffix)) && (b.buf == old(b.buf) || fresh(b.buf))
    ensures (old(b.Ready()) ==> b.Ready()) && (b.whole ==> old(b.whole))
  {
    ghost var name := Opt(h.name != "", Text("remoteName" + suffix, h.name));
    ghost var address := Opt(h.hasAddr, Text("remoteAddress" + suffix, h.addrText));
    AddOptionalString(b, h.name != "", "remoteName" + suffix, h.name, base, done);
    AddOptionalString(b, h.hasAddr, "remoteAddress" + suffix, h.addrText, base, done + name);
    AddIntMember(b, "remotePort" + suffix, h.port, base, done + name + address);
    Regroup(done, name, address, [Number("remotePort" + suffix, h.port)]);
  }

  method AddStatus(b: Buffer, con: Connection, ghost base: string, ghost done: seq<Member>)
    requires At(b, base, done)
    modifies b, b.buf
    ensures At(b, base, done + StatusMembers(con)) && (b.buf == old(b.buf) || fresh(b.buf))
    ensures (old(b.Ready()) ==> b.Ready()) && (b.whole ==> old(b.whole))
  {
    ghost var status := [Number("status", con.status)];
    ghost var name := Opt(con.statusName != "", Text("statusName", con.statusName));
    AddIntMember(b, "status", con.status, base, done);
    AddOptionalString(b, con.statusName != "", "statusName", con.statusName, base, done + status);
    AddOptionalString(b, con.statusDescription != "", "statusDescription", con.statusDescription, base, done + status + name);
    Regroup(done, status, name, Opt(con.statusDescription != "", Text("statusDescription", con.statusDescription)));
  }

  method AddTraffic(b: Buffer, con: Connection, ghost base: string, ghost done: seq<Member>)
    requires At(b, base, done)
    modifies b, b.buf
    ensures At(b, base, done + TrafficMembers(con)) && (b.buf == old(b.buf) || fresh(b.buf))
    ensures (old(b.Ready()) ==> b.Ready()) && (b.whole ==> old(b.whole))
  {
    ghost var tx, rx := [Number("bytesTx", con.bytesTx)], [Number("bytesRx", con.bytesRx)];
    AddUintMember(b, "bytesTx", con.bytesTx, base, done);
    AddUintMember(b, "bytesRx", con.bytesRx, base, done + tx);
    AddOptionalString(b, con.service.kind.Http? && con.urlPath != "", "urlPath", con.urlPath, base, done + tx + rx);
    Regroup(done, tx, rx, Opt(con.service.kind.Http? && con.urlPath != "", Text("urlPath", con.urlPath)));
  }

  method AddSource(b: Buffer, con: Connection, ghost base: string, ghost done: seq<Member>)
    requires At(b, base, done)
    modifies b, b.buf
    ensures At(b, base, done + SourceMembers(con)) && (b.buf == old(b.buf) || fresh(b.buf))
    ensures (old(b.Ready()) ==> b.Ready()) && (b.whole ==> old(b.whole))
  {
    ghost var name := Opt(con.src.name != "", Text("sourceName", con.src.name));
    ghost var address, port := [Text("sourceAddress", con.src.addrText)], [Number("sourcePort", con.src.port)];
    AddOptionalString(b, con.src.name != "", "sourceName", con.src.name, base, done);
    AddStringMember(b, "sourceAddress", con.src.addrText, base, done + name);
    AddIntMember(b, "sourcePort", con.src.port, base, done + name + address);
    Regroup(done, name, address, port);
    ghost var sofar := name + address + port;
    if con.endTime > 0 {
      AddUintMember(b, "timeEnd", con.endTime, base, done + sofar);
      assert done + SourceMembers(con) == done + sofar + [Number("timeEnd", con.endTime)];
    } else {
      assert SourceMembers(con) == sofar;
    }
  }

  method AddClientConnection(b: Buffer, con: Connection)
    requires b.Valid()
    modifies b, b.buf
    ensures b.Valid() && (b.buf == old(b.buf) || fresh(b.buf)) && (old(b.Ready()) ==> b.Ready())
    ensures b.whole ==> old(b.whole) && b.Text() == old(b.Text()) + PrintMember(ConnectionTree(con))
  {
    ghost var before := b.Text();
    OpenObject(b, Digits(con.id));
    AddConnectionMembers(b, con, b.Text());
    b.AddUint("timeStart", con.startTime);
    b.AddToBuf("}");
    ClosesObject(before, Digits(con.id), ConnectionMembers(con), Number("timeStart", con.startTime));
  }

  method AddConnectionMembers(b: Buffer, con: Connection, ghost base: string)
    requires b.Valid() && (b.whole ==> b.Text() == base)
    modifies b, b.buf
    ensures At(b, base, ConnectionMembers(con)) && (b.buf == old(b.buf) || fresh(b.buf))
    ensures (old(b.Ready()) ==> b.Ready()) && (b.whole ==> old(b.whole))
  {
    ghost var done: seq<Member> := [];
    assert base + Trail([]) == base;
    AddUintMember(b, "connectionId", con.id, base, done);
    done := done + [Number("connectionId", con.id)];
    assert done == [Number("connectionId", con.id)];
    AddUintMember(b, "service", con.service.id, base, done);
    done := done + [Number("service", con.service.id)];
    AddRoute(b, con, base, done);
    done := done + RouteMembers(con);
    AddHost(b, con.dstOriginal, "", base, done);
    done := done + HostMembers(con.dstOriginal, "");
    AddHost(b, con.dst, "Effective", base, done);
    done := done + HostMembers(con.dst, "Effective");
    AddProgressMembers(b, con, base, done);
  }

  method AddProgressMembers(b: Buffer, con: Connection, ghost base: string, ghost done: seq<Member>)
    requires At(b, base, done)
    modifies b, b.buf
    ensures At(b, base, done + StatusMembers(con) + TrafficMembers(con) + SourceMembers(con))
    ensures (b.buf == old(b.buf) || fresh(b.buf)) && (old(b.Ready()) ==> b.Ready()) && (b.whole ==> old(b.whole))
  {
    AddStatus(b, con, base, done);
    AddTraffic(b, con, base, done + StatusMembers(con));
    AddSource(b, con, base, done + StatusMembers(con) + TrafficMembers(con));
  }

  method AddListedConnection(b: Buffer, con: Connection, needComma: bool, ghost base: string, ghost done: seq<Member>)
    requires b.Valid() && (b.whole ==> b.Text() == base + PrintMembers(done)) && needComma == (done != [])
    modifies b, b.buf
    ensures b.Valid() && (b.buf == old(b.buf) || fresh(b.buf)) && (old(b.Ready()) ==> b.Ready())
    ensures b.whole ==> old(b.whole) && b.Text() == base + PrintMembers(done + [ConnectionTree(con)])
  {
    AddSeparator(b, needComma);
    AddClientConnection(b, con);
    if b.whole {
      Listed(base, done, ConnectionTree(con), b.Text());
    }
  }

  method AddConnections(b: Buffer, connections: seq<Connection>)
    requires b.Valid()
    modifies b, b.buf
    ensures b.Valid() && (b.buf == old(b.buf) || fresh(b.buf)) && (old(b.Ready()) ==> b.Ready())
    ensures b.whole ==> old(b.whole) && b.Text() == old(b.Text()) + PrintMembers(Connections(connections))
  {
    ghost var base := b.Text();
    ghost var done: seq<Member> := [];
    assert base + PrintMembers([]) == base;
    var needComma := false;
    for i := 0 to |connections|
      invariant b.Valid() && (old(b.Ready()) ==> b.Ready()) && (b.buf == old(b.buf) || fresh(b.buf)) && needComma == (done != [])
      invariant (b.whole ==> old(b.whole) && b.Text() == base + PrintMembers(done)) && done == Connections(connections[..i])
    {
      ConnectionsGrow(connections, i);
      AddListedConnection(b, connections[i], needComma, base, done);
      needComma := true;
      done := done + [ConnectionTree(connections[i])];
    }
    assert connections[..|connections|] == connections;
  }

  //// Proxies, tunnels and the document

  method AddProxyInstance(b: Buffer, proxy: Proxy)
    requires b.Valid()
    modifies b, b.buf
    ensures b.Valid() && (b.buf == old(b.buf) || fresh(b.buf)) && (old(b.Ready()) ==> b.Ready())
    ensures b.whole ==> old(b.whole) && b.Text() == old(b.Text()) + PrintMember(ProxyTree(proxy))
  {
    ghost var before := b.Text();
    OpenObject(b, proxy.name);
    AddProxyMembers(b, proxy, b.Text());
    AddConnectionSection(b, proxy.connections);
    b.AddToBuf("}");
    ClosesObject(before, proxy.name, ProxyMembers(proxy), Member("connection", Obj(Connections(proxy.connections))));
  }

  method AddProxyMembers(b: Buffer, proxy: Proxy, ghost base: string)
    requires b.Valid() && (b.whole ==> b.Text() == base)
    modifies b, b.buf
    ensures At(b, base, ProxyMembers(proxy)) && (b.buf == old(b.buf) || fresh(b.buf))
    ensures (old(b.Ready()) ==> b.Ready()) && (b.whole ==> old(b.whole))
  {
    ghost var done: seq<Member> := [];
    assert base + Trail([]) == base;
    AddStringMember(b, "name", proxy.name, base, done);
    done := done + [Text("name", proxy.name)];
    assert done == [Text("name", proxy.name)];
    AddStringMember(b, "logLevel", proxy.logLevel, base, done);
    done := done + [Text("logLevel", proxy.logLevel)];
    AddStringMember(b, "logFilename", if proxy.logFile.Some? then proxy.logFile.value else "-", base, done);
    done := done + [Text("logFilename", LogFilename(proxy))];
    AddServiceSection(b, proxy.services, base, done);
  }

  method AddServiceSection(b: Buffer, services: seq<Service>, ghost base: string, ghost done: seq<Member>)
    requires At(b, base, done)
    modifies b, b.buf
    ensures At(b, base, done + [Member("service", Obj(Services(services)))]) && (b.buf == old(b.buf) || fresh(b.buf))
    ensures (old(b.Ready()) ==> b.Ready()) && (b.whole ==> old(b.whole))
  {
    ghost var here := b.Text();
    OpenObject(b, "service");
    AddServices(b, services);
    b.AddToBuf("},");
    ClosesListWithComma(here, "service", Services(services));
    if b.whole {
      Reached(base, done, Member("service", Obj(Services(services))), b.Text());
    }
  }

  method AddConnectionSection(b: Buffer, connections: seq<Connection>)
    requires b.Valid()
    modifies b, b.buf
    ensures b.Valid() && (b.buf == old(b.buf) || fresh(b.buf)) && (old(b.Ready()) ==> b.Ready())
    ensures b.whole ==> old(b.whole) && b.Text() == old(b.Text()) + PrintMember(Member("connection", Obj(Connections(connections))))
  {
    ghost var here := b.Text();
    OpenObject(b, "connection");
    AddConnections(b, connections);
    b.AddToBuf("}");
    ClosesList(here, "connection", Connections(connections));
  }

  lemma ClosesListWithComma(here: string, name: string, members: seq<Member>)
    ensures here + Key(name) + "{" + PrintMembers(members) + "}," == here + PrintMember(Member(name, Obj(members))) + ","
  {
    ClosesList(here, name, members);
    assert here + Key(name) + "{" + PrintMembers(members) + "}," == here + Key(name) + "{" + PrintMembers(members) + "}" + ",";
  }

  method AddListedProxy(b: Buffer, proxy: Proxy, needComma: bool, ghost base: string, ghost done: seq<Member>)
    requires b.Valid() && (b.whole ==> b.Text() == base + PrintMembers(done)) && needComma == (done != [])
    modifies b, b.buf
    ensures b.Valid() && (b.buf == old(b.buf) || fresh(b.buf)) && (old(b.Ready()) ==> b.Ready())
    ensures b.whole ==> old(b.whole) && b.Text() == base + PrintMembers(done + [ProxyTree(proxy)])
  {
    AddSeparator(b, needComma);
    AddProxyInstance(b, proxy);
    if b.whole {
      Listed(base, done, ProxyTree(proxy), b.Text());
    }
  }

  method AddProxies(b: Buffer, proxies: seq<Proxy>)
    requires b.Valid()
    modifies b, b.buf
    ensures b.Valid() && (b.buf == old(b.buf) || fresh(b.buf)) && (old(b.Ready()) ==> b.Ready())
    ensures b.whole ==> old(b.whole) && b.Text() == old(b.Text()) + PrintMembers(Proxies(proxies))
  {
    ghost var base := b.Text();
    ghost var done: seq<Member> := [];
    assert base + PrintMembers([]) == base;
    var needComma := false;
    for i := 0 to |proxies|
      invariant b.Valid() && (old(b.Ready()) ==> b.Ready()) && (b.buf == old(b.buf) || fresh(b.buf)) && needComma == (done != [])
      invariant (b.whole ==> old(b.whole) && b.Text() == base + PrintMembers(done)) && done == Proxies(proxies[..i])
    {
      ProxiesGrow(proxies, i);
      AddListedProxy(b, proxies[i], needComma, base, done);
      needComma := true;
      done := done + [ProxyTree(proxies[i])];
    }
    assert proxies[..|proxies|] == proxies;
  }

  method AddSshTunnel(b: Buffer, ssh: Tunnel)
    requires b.Valid()
    modifies b, b.buf
    ensures b.Valid() && (b.buf == old(b.buf) || fresh(b.buf)) && (old(b.Ready()) ==> b.Ready())
    ensures b.whole ==> old(b.whole) && b.Text() == old(b.Text()) + PrintMember(TunnelTree(ssh))
  {
    ghost var before := b.Text();
    OpenObject(b, ssh.name);
    ghost var base, done := b.Text(), [];
    assert base + Trail([]) == base;
    AddStringMember(b, "name", ssh.name, base, done);
    done := done + [Text("name", ssh.name)];
    assert done == [Text("name", ssh.name)];
    AddPid(b, ssh, base, done);
    b.AddInt("socksPort", ssh.socksPort);
    b.AddToBuf("}");
    ClosesObject(before, ssh.name, done + PidMembers(ssh), Number("socksPort", ssh.socksPort));
  }

  method AddPid(b: Buffer, ssh: Tunnel, ghost base: string, ghost done: seq<Member>)
    requires At(b, base, done)
    modifies b, b.buf
    ensures At(b, base, done + PidMembers(ssh)) && (b.buf == old(b.buf) || fresh(b.buf))
    ensures (old(b.Ready()) ==> b.Ready()) && (b.whole ==> old(b.whole))
  {
    if ssh.pid > 0 {
      ghost var pid, start := [Number("pid", ssh.pid)], [Number("timeStart", ssh.startTime)];
      AddUintMember(b, "pid", ssh.pid, base, done);
      AddUintMember(b, "timeStart", ssh.startTime, base, done + pid);
      AddUintMember(b, "numConnections", ssh.connectionCount, base, done + pid + start);
      Regroup(done, pid, start, [Number("numConnections", ssh.connectionCount)]);
    } else {
      assert done + [] == done;
    }
  }

  method AddListedTunnel(b: Buffer, ssh: Tunnel, needComma: bool, ghost base: string, ghost done: seq<Member>)
    requires b.Valid() && (b.whole ==> b.Text() == base + PrintMembers(done)) && needComma == (done != [])
    modifies b, b.buf
    ensures b.Valid() && (b.buf == old(b.buf) || fresh(b.buf)) && (old(b.Ready()) ==> b.Ready())
    ensures b.whole ==> old(b.whole) && b.Text() == base + PrintMembers(done + [TunnelTree(ssh)])
  {
    AddSeparator(b, needComma);
    AddSshTunnel(b, ssh);
    if b.whole {
      Listed(base, done, TunnelTree(ssh), b.Text());
    }
  }

  method AddTunnels(b: Buffer, tunnels: seq<Tunnel>)
    requires b.Valid()
    modifies b, b.buf
    ensures b.Valid() && (b.buf == old(b.buf) || fresh(b.buf)) && (old(b.Ready()) ==> b.Ready())
    ensures b.whole ==> old(b.whole) && b.Text() == old(b.Text()) + PrintMembers(Tunnels(tunnels))
  {
    ghost var base := b.Text();
    ghost var done: seq<Member> := [];
    assert base + PrintMembers([]) == base;
    var needComma := false;
    for i := 0 to |tunnels|
      invariant b.Valid() && (old(b.Ready()) ==> b.Ready()) && (b.buf == old(b.buf) || fresh(b.buf)) && needComma == (done != [])
      invariant (b.whole ==> old(b.whole) && b.Text() == base + PrintMembers(done)) && done == Tunnels(tunnels[..i])
    {
      assert tunnels[..i + 1][..i] == tunnels[..i];
      if tunnels[i].socksPort == 0 {
        assert done + [] == done;
        continue;
      }
      AddListedTunnel(b, tunnels[i], needComma, base, done);
      needComma := true;
      done := done + [TunnelTree(tunnels[i])];
    }
    assert tunnels[..|tunnels|] == tunnels;
  }

  /** The whole document. The next one starts with a buffer of the size that this one needed. */
  method BuildJson(w: World, defaultSize: nat, failures: seq<bool>) returns (b: Buffer, newDefault: nat)
    requires defaultSize > 0
    ensures fresh(b) && fresh(b.buf) && b.Valid() && newDefault == b.buf.Length
    ensures b.whole ==> b.Text() == Print(Document(w))
    ensures true !in failures ==> b.whole
  {
    b := new Buffer(defaultSize, failures);
    b.AddToBuf("{");
    ghost var base: string := "{";
    assert b.whole ==> b.Text() == base + Trail([]);
    AddHeader(b, w, base);
    ghost var done := HeaderMembers(w);
    AddProxySection(b, w.proxies, base, done);
    done := done + [Member("proxyInstance", Obj(Proxies(w.proxies)))];
    AddTunnelSection(b, w.tunnels, base, done);
    if b.whole {
      DocumentText(done + [Member("sshTunnel", Obj(Tunnels(w.tunnels)))], b.Text());
    }
    b.AddToBuf("}");
    newDefault := b.buf.Length;
  }

  method AddHeader(b: Buffer, w: World, ghost base: string)
    requires At(b, base, [])
    modifies b, b.buf
    ensures At(b, base, HeaderMembers(w)) && (b.buf == old(b.buf) || fresh(b.buf))
    ensures (old(b.Ready()) ==> b.Ready()) && (b.whole ==> old(b.whole))
  {
    ghost var done: seq<Member> := [];
    AddIntMember(b, "currentTime", w.currentTime, base, done);
    done := done + [Number("currentTime", w.currentTime)];
    assert done == [Number("currentTime", w.currentTime)];
    AddIntMember(b, "proxyStartTime", w.startTime, base, done);
    done := done + [Number("proxyStartTime", w.startTime)];
    AddStringMember(b, "version", w.version, base, done);
    done := done + [Text("version", w.version)];
    AddStringMember(b, "buildDate", w.buildDate, base, done);
    done := done + [Text("buildDate", w.buildDate)];
    AddStringMember(b, "gitHash", w.gitHash, base, done);
  }

  method AddProxySection(b: Buffer, proxies: seq<Proxy>, ghost base: string, ghost done: seq<Member>)
    requires At(b, base, done)
    modifies b, b.buf
    ensures At(b, base, done + [Member("proxyInstance", Obj(Proxies(proxies)))]) && (b.buf == old(b.buf) || fresh(b.buf))
    ensures (old(b.Ready()) ==> b.Ready()) && (b.whole ==> old(b.whole))
  {
    ghost var here := b.Text();
    OpenObject(b, "proxyInstance");
    AddProxies(b, proxies);
    b.AddToBuf("},");
    ClosesListWithComma(here, "proxyInstance", Proxies(proxies));
    if b.whole {
      Reached(base, done, Member("proxyInstance", Obj(Proxies(proxies))), b.Text());
    }
  }

  method AddTunnelSection(b: Buffer, tunnels: seq<Tunnel>, ghost base: string, ghost done: seq<Member>)
    requires At(b, base, done)
    modifies b, b.buf
    ensures b.Valid() && (b.buf == old(b.buf) || fresh(b.buf)) && (old(b.Ready()) ==> b.Ready())
    ensures b.whole ==> old(b.whole) && b.Text() == base + PrintMembers(done + [Member("sshTunnel", Obj(Tunnels(tunnels)))])
  {
    ghost var here := b.Text();
    OpenObject(b, "sshTunnel");
    AddTunnels(b, tunnels);
    b.AddToBuf("}");
    if b.whole {
      ClosesLastList(base, done, "sshTunnel", Tunnels(tunnels), here, b.Text());
    }
  }

  lemma ClosesLastList(base: string, done: seq<Member>, name: string, members: seq<Member>, here: string, text: string)
    requires here == base + Trail(done) && text == here + Key(name) + "{" + PrintMembers(members) + "}"
    ensures text == base + PrintMembers(done + [Member(name, Obj(members))])
  {
    var member := Member(name, Obj(members));
    ClosesList(here, name, members);
    LastHasNoComma(done, member);
    Associative(base, Trail(done), PrintMember(member));
  }

  lemma DocumentText(members: seq<Member>, text: string)
    requires text == "{" + PrintMembers(members)
    ensures text + "}" == Print(Obj(members))
  {
    Associative("{", PrintMembers(members), "}");
  }

  /** What the document says can be read back from its text exactly when none of its strings needs escaping. */
  lemma DocumentReadsBack(w: World)
    ensures ReadValue(Print(Document(w))) == Done(Document(w), "") <==> Plain(Document(w))
  {
    PrintRoundTrip(Document(w));
  }
}
