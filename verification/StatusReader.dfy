/** What a reader of the status document finds in it, name by name. */
module StatusReader {
  import opened ClientConnections
  import opened Json
  import opened BuildJson

  /** What stands under a name in an object: the first member that has it. */
  function Field(members: seq<Member>, name: string): Option<Json> {
    if members == [] then None
    else if members[0].name == name then Some(members[0].value)
    else Field(members[1..], name)
  }

  function Or(a: Option<Json>, b: Option<Json>): Option<Json> {
    if a.Some? then a else b
  }

  function When(present: bool, value: Json): Option<Json> {
    if present then Some(value) else None
  }

  /** Of two parts of an object the first has the say. */
  lemma {:induction false} FieldOfParts(a: seq<Member>, b: seq<Member>, name: string)
    ensures Field(a + b, name) == Or(Field(a, name), Field(b, name))
  {
    if a == [] {
      assert a + b == b;
    } else {
      assert (a + b)[0] == a[0] && (a + b)[1..] == a[1..] + b;
      FieldOfParts(a[1..], b, name);
    }
  }

  lemma FieldOfOne(m: Member, name: string)
    ensures Field([m], name) == When(m.name == name, m.value)
  {
    assert [m][1..] == [];
  }

  lemma FieldOfOpt(present: bool, m: Member, name: string)
    ensures Field(Opt(present, m), name) == When(present && m.name == name, m.value)
  {
    FieldOfOne(m, name);
  }

  lemma FieldOfThree(a: seq<Member>, b: seq<Member>, c: seq<Member>, name: string)
    ensures Field(a + b + c, name) == Or(Field(a, name), Or(Field(b, name), Field(c, name)))
  {
    FieldOfParts(a + b, c, name);
    FieldOfParts(a, b, name);
  }

  //// A connection

  /** The route of a connection of a SOCKS or port forwarding service that has a tunnel. */
  function RouteShown(c: Connection, name: string): Option<Json> {
    if (c.service.kind != SocksService && c.service.kind != PortForward) || c.tunnel == None then None
    else if name == "route" then Some(Str(c.tunnel.value))
    else if name == "socksVersion" then Some(Num(c.socksVersion))
    else When(name == "socksCommand", Num(c.socksCommand))
  }

  /** A host under three names: its name and its address, if it has them, and its port. */
  function HostShown(h: Host, nameName: string, addressName: string, portName: string, name: string): Option<Json> {
    Or(When(name == nameName && h.name != "", Str(h.name)),
       Or(When(name == addressName && h.hasAddr, Str(h.addrText)), When(name == portName, Num(h.port))))
  }

  function ProgressShown(c: Connection, name: string): Option<Json> {
    if name == "status" then Some(Num(c.status))
    else if name == "statusName" then When(c.statusName != "", Str(c.statusName))
    else if name == "statusDescription" then When(c.statusDescription != "", Str(c.statusDescription))
    else if name == "bytesTx" then Some(Num(c.bytesTx))
    else if name == "bytesRx" then Some(Num(c.bytesRx))
    else When(name == "urlPath" && c.service.kind == Http && c.urlPath != "", Str(c.urlPath))
  }

  function SourceShown(c: Connection, name: string): Option<Json> {
    if name == "sourceName" then When(c.src.name != "", Str(c.src.name))
    else if name == "sourceAddress" then Some(Str(c.src.addrText))
    else if name == "sourcePort" then Some(Num(c.src.port))
    else if name == "timeEnd" then When(c.endTime > 0, Num(c.endTime))
    else When(name == "timeStart", Num(c.startTime))
  }

  /** All of a connection. The destination stands there as the client gave it, and as it was rewritten. */
  function ConnectionShown(c: Connection, name: string): Option<Json> {
    if name == "connectionId" then Some(Num(c.id))
    else if name == "service" then Some(Num(c.service.id))
    else
      Or(RouteShown(c, name),
      Or(HostShown(c.dstOriginal, "remoteName", "remoteAddress", "remotePort", name),
      Or(HostShown(c.dst, "remoteNameEffective", "remoteAddressEffective", "remotePortEffective", name),
      Or(ProgressShown(c, name), SourceShown(c, name)))))
  }

  lemma RouteField(c: Connection, name: string)
    ensures Field(RouteMembers(c), name) == RouteShown(c, name)
  {
    if ShowsRoute(c) {
      var route, version, command := Text("route", c.tunnel.value), Number("socksVersion", c.socksVersion), Number("socksCommand", c.socksCommand);
      FieldOfThree([route], [version], [command], name);
      FieldOfOne(route, name);
      FieldOfOne(version, name);
      FieldOfOne(command, name);
    }
  }

  lemma HostField(h: Host, suffix: string, name: string)
    ensures Field(HostMembers(h, suffix), name) ==
      HostShown(h, "remoteName" + suffix, "remoteAddress" + suffix, "remotePort" + suffix, name)
  {
    var hostName, address := Text("remoteName" + suffix, h.name), Text("remoteAddress" + suffix, h.addrText);
    var port := Number("remotePort" + suffix, h.port);
    FieldOfThree(Opt(h.name != "", hostName), Opt(h.hasAddr, address), [port], name);
    FieldOfOpt(h.name != "", hostName, name);
    FieldOfOpt(h.hasAddr, address, name);
    FieldOfOne(port, name);
  }

  lemma StatusField(c: Connection, name: string)
    ensures Field(StatusMembers(c), name) ==
      Or(When(name == "status", Num(c.status)),
         Or(When(name == "statusName" && c.statusName != "", Str(c.statusName)),
            When(name == "statusDescription" && c.statusDescription != "", Str(c.statusDescription))))
  {
    var statusName, description := Text("statusName", c.statusName), Text("statusDescription", c.statusDescription);
    FieldOfThree([Number("status", c.status)], Opt(c.statusName != "", statusName), Opt(c.statusDescription != "", description), name);
    FieldOfOne(Number("status", c.status), name);
    FieldOfOpt(c.statusName != "", statusName, name);
    FieldOfOpt(c.statusDescription != "", description, name);
  }

  lemma TrafficField(c: Connection, name: string)
    ensures Field(TrafficMembers(c), name) ==
      Or(When(name == "bytesTx", Num(c.bytesTx)),
         Or(When(name == "bytesRx", Num(c.bytesRx)), When(name == "urlPath" && c.service.kind == Http && c.urlPath != "", Str(c.urlPath))))
  {
    var path, shown := Text("urlPath", c.urlPath), c.service.kind.Http? && c.urlPath != "";
    FieldOfThree([Number("bytesTx", c.bytesTx)], [Number("bytesRx", c.bytesRx)], Opt(shown, path), name);
    FieldOfOne(Number("bytesTx", c.bytesTx), name);
    FieldOfOne(Number("bytesRx", c.bytesRx), name);
    FieldOfOpt(shown, path, name);
  }

  lemma SourceField(c: Connection, name: string)
    ensures Field(SourceMembers(c), name) ==
      Or(When(name == "sourceName" && c.src.name != "", Str(c.src.name)),
         Or(When(name == "sourceAddress", Str(c.src.addrText)),
            Or(When(name == "sourcePort", Num(c.src.port)), When(name == "timeEnd" && c.endTime > 0, Num(c.endTime)))))
  {
    var sourceName, address := Opt(c.src.name != "", Text("sourceName", c.src.name)), [Text("sourceAddress", c.src.addrText)];
    var port, end := [Number("sourcePort", c.src.port)], Opt(c.endTime > 0, Number("timeEnd", c.endTime));
    FieldOfParts(sourceName + address + port, end, name);
    FieldOfThree(sourceName, address, port, name);
    FieldOfOpt(c.src.name != "", Text("sourceName", c.src.name), name);
    FieldOfOne(Text("sourceAddress", c.src.addrText), name);
    FieldOfOne(Number("sourcePort", c.src.port), name);
    FieldOfOpt(c.endTime > 0, Number("timeEnd", c.endTime), name);
  }

  lemma ProgressField(c: Connection, name: string)
    ensures Or(Field(StatusMembers(c), name), Field(TrafficMembers(c), name)) == ProgressShown(c, name)
  {
    StatusField(c, name);
    TrafficField(c, name);
  }

  lemma SourceAndStartField(c: Connection, name: string)
    ensures Or(Field(SourceMembers(c), name), Field([Number("timeStart", c.startTime)], name)) == SourceShown(c, name)
  {
    SourceField(c, name);
    FieldOfOne(Number("timeStart", c.startTime), name);
  }

  lemma HostsField(c: Connection, name: string)
    ensures Field(HostMembers(c.dstOriginal, ""), name) == HostShown(c.dstOriginal, "remoteName", "remoteAddress", "remotePort", name)
    ensures Field(HostMembers(c.dst, "Effective"), name) ==
      HostShown(c.dst, "remoteNameEffective", "remoteAddressEffective", "remotePortEffective", name)
  {
    HostField(c.dstOriginal, "", name);
    HostField(c.dst, "Effective", name);
    PlainNames();
    EffectiveNames();
  }

  lemma PlainNames()
    ensures "remoteName" + "" == "remoteName" && "remoteAddress" + "" == "remoteAddress" && "remotePort" + "" == "remotePort"
  {
  }

  lemma EffectiveNames()
    ensures "remoteName" + "Effective" == "remoteNameEffective"
    ensures "remoteAddress" + "Effective" == "remoteAddressEffective"
    ensures "remotePort" + "Effective" == "remotePortEffective"
  {
  }

  /** The parts of a connection, the later ones behind the earlier ones. */
  lemma PartsField(c: Connection, name: string)
    ensures Field(ConnectionMembers(c) + [Number("timeStart", c.startTime)], name) ==
      Or(When(name == "connectionId", Num(c.id)), Or(When(name == "service", Num(c.service.id)),
      Or(Field(RouteMembers(c), name),
      Or(Field(HostMembers(c.dstOriginal, ""), name), Or(Field(HostMembers(c.dst, "Effective"), name),
      Or(Or(Field(StatusMembers(c), name), Field(TrafficMembers(c), name)),
         Or(Field(SourceMembers(c), name), Field([Number("timeStart", c.startTime)], name))))))))
  {
    var id, service, route := [Number("connectionId", c.id)], [Number("service", c.service.id)], RouteMembers(c);
    var first := id + service + route;
    var second := first + HostMembers(c.dstOriginal, "") + HostMembers(c.dst, "Effective");
    var third := second + StatusMembers(c) + TrafficMembers(c);
    FieldOfThree(id, service, route, name);
    FieldOfOne(id[0], name);
    FieldOfOne(service[0], name);
    FieldOfThree(first, HostMembers(c.dstOriginal, ""), HostMembers(c.dst, "Effective"), name);
    FieldOfThree(second, StatusMembers(c), TrafficMembers(c), name);
    FieldOfThree(third, SourceMembers(c), [Number("timeStart", c.startTime)], name);
  }

  /** Under every name a reader finds of a connection just what belongs there. */
  lemma ConnectionField(c: Connection, name: string)
    ensures ConnectionTree(c).value.Obj?
    ensures Field(ConnectionTree(c).value.members, name) == ConnectionShown(c, name)
  {
    PartsField(c, name);
    RouteField(c, name);
    HostsField(c, name);
    ProgressField(c, name);
    SourceAndStartField(c, name);
  }

  //// Services, tunnels, proxies and the document

  function TypeShown(kind: ServiceType): string {
    if kind == SocksService then "SOCKS"
    else if kind == PortForward then "portForward"
    else if kind == Http then "HTTP"
    else "none"
  }

  function ServiceShown(s: Service, name: string): Option<Json> {
    if name == "serviceId" then Some(Num(s.id))
    else if name == "type" then Some(Str(TypeShown(s.kind)))
    else if name == "remoteAddress" then When(s.kind == PortForward, Str(s.remoteHost))
    else if name == "remotePort" then When(s.kind == PortForward, Num(s.remotePort))
    else if name == "baseDir" then When(s.kind == Http, Str(s.baseDir))
    else if name == "localAddress" then Some(Str(s.bindAddress))
    else When(name == "localPort", Num(s.port))
  }

  lemma ServiceParts(s: Service, name: string)
    ensures Field(ServiceMembers(s) + [Number("localPort", s.port)], name) ==
      Or(When(name == "serviceId", Num(s.id)),
      Or(When(name == "type", Str(TypeName(s.kind))),
      Or(When(s.kind.PortForward? && name == "remoteAddress", Str(s.remoteHost)),
      Or(When(s.kind.PortForward? && name == "remotePort", Num(s.remotePort)),
      Or(When(s.kind.Http? && name == "baseDir", Str(s.baseDir)),
      Or(When(name == "localAddress", Str(s.bindAddress)), When(name == "localPort", Num(s.port))))))))
  {
    var id, kind := [Number("serviceId", s.id)], [Text("type", TypeName(s.kind))];
    var address, port := Text("remoteAddress", s.remoteHost), Number("remotePort", s.remotePort);
    var dir, local := Text("baseDir", s.baseDir), [Text("localAddress", s.bindAddress)];
    var first := id + kind + Opt(s.kind.PortForward?, address);
    var second := first + Opt(s.kind.PortForward?, port) + Opt(s.kind.Http?, dir);
    FieldOfThree(id, kind, Opt(s.kind.PortForward?, address), name);
    FieldOfThree(first, Opt(s.kind.PortForward?, port), Opt(s.kind.Http?, dir), name);
    FieldOfThree(second, local, [Number("localPort", s.port)], name);
    FieldOfOne(id[0], name);
    FieldOfOne(kind[0], name);
    FieldOfOpt(s.kind.PortForward?, address, name);
    FieldOfOpt(s.kind.PortForward?, port, name);
    FieldOfOpt(s.kind.Http?, dir, name);
    FieldOfOne(local[0], name);
    FieldOfOne(Number("localPort", s.port), name);
  }

  lemma ServiceField(s: Service, name: string)
    ensures ServiceTree(s).name == Digits(s.id) && ServiceTree(s).value.Obj?
    ensures Field(ServiceTree(s).value.members, name) == ServiceShown(s, name)
  {
    ServiceParts(s, name);
  }

  /** Process id, start and connections of a tunnel are shown while it has a process. */
  function TunnelShown(t: Tunnel, name: string): Option<Json> {
    if name == "name" then Some(Str(t.name))
    else if name == "pid" then When(t.pid > 0, Num(t.pid))
    else if name == "timeStart" then When(t.pid > 0, Num(t.startTime))
    else if name == "numConnections" then When(t.pid > 0, Num(t.connectionCount))
    else When(name == "socksPort", Num(t.socksPort))
  }

  lemma TunnelField(t: Tunnel, name: string)
    ensures TunnelTree(t).name == t.name && TunnelTree(t).value.Obj?
    ensures Field(TunnelTree(t).value.members, name) == TunnelShown(t, name)
  {
    var first, last := [Text("name", t.name)], [Number("socksPort", t.socksPort)];
    FieldOfThree(first, PidMembers(t), last, name);
    FieldOfOne(first[0], name);
    FieldOfOne(last[0], name);
    if t.pid > 0 {
      var pid, start, count := Number("pid", t.pid), Number("timeStart", t.startTime), Number("numConnections", t.connectionCount);
      FieldOfThree([pid], [start], [count], name);
      FieldOfOne(pid, name);
      FieldOfOne(start, name);
      FieldOfOne(count, name);
    }
  }

  function ProxyShown(p: Proxy, name: string): Option<Json> {
    if name == "name" then Some(Str(p.name))
    else if name == "logLevel" then Some(Str(p.logLevel))
    else if name == "logFilename" then Some(Str(if p.logFile.Some? then p.logFile.value else "-"))
    else if name == "service" then Some(Obj(Services(p.services)))
    else When(name == "connection", Obj(Connections(p.connections)))
  }

  lemma ProxyField(p: Proxy, name: string)
    ensures ProxyTree(p).name == p.name && ProxyTree(p).value.Obj?
    ensures Field(ProxyTree(p).value.members, name) == ProxyShown(p, name)
  {
    var first, level, log := Text("name", p.name), Text("logLevel", p.logLevel), Text("logFilename", LogFilename(p));
    var services, connections := Member("service", Obj(Services(p.services))), Member("connection", Obj(Connections(p.connections)));
    FieldOfThree([first] + [level] + [log], [services], [connections], name);
    FieldOfThree([first], [level], [log], name);
    FieldOfOne(first, name);
    FieldOfOne(level, name);
    FieldOfOne(log, name);
    FieldOfOne(services, name);
    FieldOfOne(connections, name);
  }

  function WorldShown(w: World, name: string): Option<Json> {
    if name == "currentTime" then Some(Num(w.currentTime))
    else if name == "proxyStartTime" then Some(Num(w.startTime))
    else if name == "version" then Some(Str(w.version))
    else if name == "buildDate" then Some(Str(w.buildDate))
    else if name == "gitHash" then Some(Str(w.gitHash))
    else if name == "proxyInstance" then Some(Obj(Proxies(w.proxies)))
    else When(name == "sshTunnel", Obj(Tunnels(w.tunnels)))
  }

  lemma WorldField(w: World, name: string)
    ensures Document(w).Obj? && Field(Document(w).members, name) == WorldShown(w, name)
  {
    var now, start, version := Number("currentTime", w.currentTime), Number("proxyStartTime", w.startTime), Text("version", w.version);
    var date, hash := Text("buildDate", w.buildDate), Text("gitHash", w.gitHash);
    var proxies, tunnels := Member("proxyInstance", Obj(Proxies(w.proxies))), Member("sshTunnel", Obj(Tunnels(w.tunnels)));
    var first := [now] + [start] + [version];
    FieldOfThree(first + [date] + [hash], [proxies], [tunnels], name);
    FieldOfThree(first, [date], [hash], name);
    FieldOfThree([now], [start], [version], name);
    FieldOfOne(now, name);
    FieldOfOne(start, name);
    FieldOfOne(version, name);
    FieldOfOne(date, name);
    FieldOfOne(hash, name);
    FieldOfOne(proxies, name);
    FieldOfOne(tunnels, name);
  }

  //// The lists

  lemma {:induction false} ConnectionsInOrder(s: seq<Connection>)
    ensures |Connections(s)| == |s| && forall i :: 0 <= i < |s| ==> Connections(s)[i] == ConnectionTree(s[i])
  {
    if s != [] {
      ConnectionsInOrder(s[..|s| - 1]);
    }
  }

  lemma {:induction false} ServicesInOrder(s: seq<Service>)
    ensures |Services(s)| == |s| && forall i :: 0 <= i < |s| ==> Services(s)[i] == ServiceTree(s[i])
  {
    if s != [] {
      ServicesInOrder(s[..|s| - 1]);
    }
  }

  lemma {:induction false} ProxiesInOrder(s: seq<Proxy>)
    ensures |Proxies(s)| == |s| && forall i :: 0 <= i < |s| ==> Proxies(s)[i] == ProxyTree(s[i])
  {
    if s != [] {
      ProxiesInOrder(s[..|s| - 1]);
    }
  }

  /** The member at a place is found under its name, unless one before it has the name. */
  lemma {:induction false} FieldAt(members: seq<Member>, i: nat)
    requires i < |members| && forall j :: 0 <= j < i ==> members[j].name != members[i].name
    ensures Field(members, members[i].name) == Some(members[i].value)
  {
    if i > 0 {
      FieldAt(members[1..], i - 1);
    }
  }

  /** Numbers are told apart by their digits. */
  lemma {:induction false} DigitsDiffer(a: nat, b: nat)
    requires a != b
    ensures Digits(a) != Digits(b)
  {
    if Print(Num(a)) == Print(Num(b)) {
      PrintIsInjective(Num(a), Num(b));
    }
  }

  lemma {:induction false} ConnectionFound(s: seq<Connection>, i: nat)
    requires i < |s| && forall j :: 0 <= j < i ==> s[j].id != s[i].id
    ensures Field(Connections(s), Digits(s[i].id)) == Some(ConnectionTree(s[i]).value)
  {
    ConnectionsInOrder(s);
    forall j | 0 <= j < i ensures Connections(s)[j].name != Connections(s)[i].name {
      DigitsDiffer(s[j].id, s[i].id);
    }
    FieldAt(Connections(s), i);
  }

  lemma {:induction false} ServiceFound(s: seq<Service>, i: nat)
    requires i < |s| && forall j :: 0 <= j < i ==> s[j].id != s[i].id
    ensures Field(Services(s), Digits(s[i].id)) == Some(ServiceTree(s[i]).value)
  {
    ServicesInOrder(s);
    forall j | 0 <= j < i ensures Services(s)[j].name != Services(s)[i].name {
      DigitsDiffer(s[j].id, s[i].id);
    }
    FieldAt(Services(s), i);
  }

  lemma {:induction false} ProxyFound(s: seq<Proxy>, i: nat)
    requires i < |s| && forall j :: 0 <= j < i ==> s[j].name != s[i].name
    ensures Field(Proxies(s), s[i].name) == Some(ProxyTree(s[i]).value)
  {
    ProxiesInOrder(s);
    FieldAt(Proxies(s), i);
  }

  lemma TunnelOrBefore(s: seq<Tunnel>, name: string)
    requires s != []
    ensures var last := s[|s| - 1];
      Field(Tunnels(s), name) == Or(Field(Tunnels(s[..|s| - 1]), name), When(last.socksPort != 0 && last.name == name, TunnelTree(last).value))
  {
    var last := s[|s| - 1];
    FieldOfParts(Tunnels(s[..|s| - 1]), Opt(last.socksPort != 0, TunnelTree(last)), name);
    FieldOfOpt(last.socksPort != 0, TunnelTree(last), name);
  }

  lemma {:induction false} NoSuchTunnel(s: seq<Tunnel>, name: string)
    requires forall j :: 0 <= j < |s| ==> s[j].name != name
    ensures Field(Tunnels(s), name) == None
  {
    if s != [] {
      NoSuchTunnel(s[..|s| - 1], name);
      TunnelOrBefore(s, name);
    }
  }

  /** A tunnel is found under its name exactly when it has a port. */
  lemma {:induction false} TunnelFound(s: seq<Tunnel>, i: nat, t: Tunnel)
    requires i < |s| && t == s[i] && forall j :: 0 <= j < |s| && j != i ==> s[j].name != t.name
    ensures Field(Tunnels(s), t.name) == When(t.socksPort != 0, TunnelTree(t).value)
  {
    var k := |s| - 1;
    TunnelOrBefore(s, t.name);
    if i < k {
      assert s[k].name != t.name;
      TunnelFound(s[..k], i, t);
    } else {
      NoSuchTunnel(s[..k], t.name);
    }
  }

  //// Main result

  /** The members of what is found, if it is an object. */
  function Into(found: Option<Json>): seq<Member> {
    if found.Some? && found.value.Obj? then found.value.members else []
  }

  /** The way from the document to a connection of a proxy. */
  function ConnectionIn(document: seq<Member>, proxy: string, id: nat): seq<Member> {
    var proxies := Into(Field(document, "proxyInstance"));
    Into(Field(Into(Field(Into(Field(proxies, proxy)), "connection")), Digits(id)))
  }

  /**
    Whoever reads the text of the document and goes to a connection, by proxy and number, finds under
    every name what belongs there, when no string needs escaping and names and numbers are not repeated.
   */
  lemma ReaderFindsConnection(w: World, p: nat, i: nat, name: string)
    requires Plain(Document(w)) && p < |w.proxies| && i < |w.proxies[p].connections|
    requires forall j :: 0 <= j < p ==> w.proxies[j].name != w.proxies[p].name
    requires forall j :: 0 <= j < i ==> w.proxies[p].connections[j].id != w.proxies[p].connections[i].id
    ensures var read, c := ReadValue(Print(Document(w))), w.proxies[p].connections[i];
      && read.Done? && read.value.Obj?
      && Field(ConnectionIn(read.value.members, w.proxies[p].name, c.id), name) == ConnectionShown(c, name)
  {
    var proxy := w.proxies[p];
    DocumentReadsBack(w);
    WorldField(w, "proxyInstance");
    ProxyFound(w.proxies, p);
    ProxyField(proxy, "connection");
    ConnectionFound(proxy.connections, i);
    ConnectionField(proxy.connections[i], name);
  }
}
