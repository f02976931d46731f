/** One client from its first byte to its last: the stages of the SOCKS service put together. */
module ConnectionHandler {
  import opened Sequences
  import opened Kernel
  import opened HostIds
  import opened SafeBlockingReadWrite
  import opened ClientConnections
  import opened RouteRules
  import opened Socks
  import opened ServiceSocks
  import opened Socks5Client
  import opened SocksCodec
  import opened Routing
  import opened Relay
  import opened SocksConnections
  import opened Shuttle

  //// What parsing and routing guarantee of a destination

  /** A destination that can be connected to: an IPv4 one has an address and no name. */
  predicate Connectable(d: Destination) {
    && (d.addressType == ADDRTYPE_IPV4 || d.addressType == ADDRTYPE_DOMAIN)
    && (d.addressType == ADDRTYPE_IPV4 ==> d.host.addr.Inet? && d.host.name == [])
    && |d.host.name| < MAX_DNS && 0 <= d.host.port < 0x1_0000
    && (d.host.addr.Inet? ==> d.host.addr.sinPort == d.host.port)
  }

  lemma ParsedIsConnectable(s: seq<byte>)
    requires ParseHandshake(s, EMPTY_HOST).Got?
    ensures Connectable(Requested(ParseHandshake(s, EMPTY_HOST).value))
  {
  }

  lemma {:induction false} RoutedIsConnectable(rules: seq<Rule>, dns: Resolver, start: Destination, i: nat)
    requires i <= |rules| && Connectable(start)
    ensures Connectable(Before(rules, dns, start, i)) && Before(rules, dns, start, i).host.port == start.host.port
  {
    if i > 0 {
      RoutedIsConnectable(rules, dns, start, i - 1);
    }
  }

  /** What is asked of the server behind a tunnel for a request that rule k was chosen for. */
  function Outgoing(r: Request, rules: seq<Rule>, dns: Resolver, k: nat): seq<byte>
    requires k <= |rules| && Connectable(After(rules, dns, Requested(r), k))
  {
    var d := After(rules, dns, Requested(r), k);
    EncodeRequest(r.command, d.addressType, d.host)
  }

  /** Lookups on the way do not change what is asked. */
  lemma LookupsAreNotSent(d: Destination, tunnels: seq<SshTunnel>, env: nat -> World, k: nat, command: byte)
    requires Connectable(d) && tunnels != []
    ensures var host := HostBefore(d.host, tunnels, env, k);
      && (d.addressType == ADDRTYPE_IPV4 ==> host.addr.Inet?)
      && EncodeRequest(command, d.addressType, host) == EncodeRequest(command, d.addressType, d.host)
  {
    HostIsLookedUpOnce(d.host, tunnels, env, k);
  }

  /** A socket goes to a destination: to its address, or to one that its name was found to mean, at its port. */
  ghost predicate GoesTo(peer: Address, d: Destination, env: nat -> World) {
    peer.Inet? && peer.sinPort == d.host.port &&
    if d.host.HasAddr() then peer == d.host.addr
    else d.host.HasName() && exists j: nat :: env(j).lookup == Some(peer.ip)
  }

  lemma LookedUpGoesThere(d: Destination, tunnels: seq<SshTunnel>, env: nat -> World, k: nat)
    requires Connectable(d) && tunnels != [] && HostBefore(d.host, tunnels, env, k).HasAddr()
    ensures GoesTo(HostBefore(d.host, tunnels, env, k).addr, d, env)
  {
    HostIsLookedUpOnce(d.host, tunnels, env, k);
  }

  //// The stages

  ghost function DestinationOf(con: ClientConnection): Destination
    reads con
  {
    Destination(con.dstHost, con.socksAddressType)
  }

  /** The request that the client's bytes are parsed to, routed by rule k, is what the connection holds. */
  ghost predicate Routed(con: ClientConnection, parsed: Parsed<Request>, rules: seq<Rule>, dns: Resolver, k: nat)
    reads con
  {
    && parsed.Got? && k < |rules| && IsChoice(rules, dns, Requested(parsed.value), k) && con.route == Some(rules[k])
    && con.socksVersion == parsed.value.version && con.socksCommand == parsed.value.command
    && DestinationOf(con) == After(rules, dns, Requested(parsed.value), k) && Connectable(DestinationOf(con))
  }

  /**
    Handshake and routing. Without a fault it fails exactly when the handshake is refused or
    no rule selects, and then the client has been sent the handshake's answers and no more.
   */
  method AcceptAndRoute(con: ClientConnection, fd: Socket, rules: seq<Rule>, dns: Resolver, defaultDirect: Rule)
    returns (ok: bool, ghost k: nat)
    requires con.fdIn == fd && con.dstHost == EMPTY_HOST
    modifies fd
    modifies con`socksVersion, con`socksCommand, con`socksCommandOriginal
    modifies con`socksAddressType, con`socksAddressTypeOriginal, con`dstHost, con`dstHostOriginal, con`route
    ensures ok ==> Routed(con, ParseHandshake(old(fd.incoming), EMPTY_HOST), rules, dns, k)
    ensures ok ==> fd.incoming == ParseHandshake(old(fd.incoming), EMPTY_HOST).rest
    ensures old(FaultlessSocket(fd)) ==> var parsed := ParseHandshake(old(fd.incoming), EMPTY_HOST);
      && FaultlessSocket(fd)
      && (ok <==> parsed.Got? && AnySelects(rules, dns, Requested(parsed.value)))
      && (parsed.Got? && !ok ==> con.route == Some(defaultDirect))
    ensures ok || old(FaultlessSocket(fd)) ==> fd.sent == old(fd.sent) + HandshakeReply(old(fd.incoming))
    ensures SentSome(old(fd.sent), fd.sent, HandshakeReply(old(fd.incoming)))
  {
    ghost var stream := fd.incoming;
    k := 0;
    ok := ServiceSocks.Handshake(con, fd);
    if ok {
      ParsedIsConnectable(stream);
      ghost var start := DestinationOf(con);
      ok, k := DecideApplicableRule(rules, dns, defaultDirect, con);
      RoutedIsConnectable(rules, dns, start, if k < |rules| then k + 1 else k);
      ChosenIfAny(rules, dns, start, k);
    }
  }

  /** The attempts at a destination over the tunnels of a rule, in a world: in turn, to their end, and as the world lets them. */
  ghost predicate Attempted(trace: seq<Attempt>, rule: Rule, host: HostId, env: nat -> World, initial: byte) {
    && trace != [] && RoundRobin(trace, Tunnels(rule.tunnel)) && Finished(trace, Tunnels(rule.tunnel))
    && Followed(trace, Tunnels(rule.tunnel), host, true, env, initial)
  }

  /** The last attempt connected. */
  predicate Success(trace: seq<Attempt>) {
    trace != [] && trace[|trace| - 1].created
  }

  /**
    The connection goes to a server: straight to the destination, or through a tunnel whose
    server was asked for it. All the server sends from now on is still to be read.
   */
  ghost predicate Connected(con: ClientConnection, net: Outbound, trace: seq<Attempt>, env: nat -> World, d: Destination, asked: seq<byte>)
    requires trace != []
    reads con, con.fdOut, net
  {
    var tun, w := trace[|trace| - 1].tunnel, env(|trace| - 1);
    && con.tunnel == tun
    && (tun.role != Null ==>
          && con.fdOut != null && con.fdOut in net.peers
          && con.fdOut.sent == (if tun.role == Direct then [] else asked)
          && con.fdOut.incoming == ServerStream(tun, w)
          && (Quiet(w) ==> FaultlessSocket(con.fdOut))
          && ServerIs(net.peers[con.fdOut], tun, d, env))
  }

  /**
    Connecting and telling the client. A rule with tunnels makes at least one attempt. The
    client is told nothing unless the last attempt connected, and the server was asked.
   */
  method ConnectAndRespond(con: ClientConnection, fd: Socket, rule: Rule, net: Outbound, env: nat -> World, initial: byte)
    returns (ok: bool, connected: bool, status: byte, ghost trace: seq<Attempt>)
    requires con.fdIn == fd && Terminated(rule.tunnel) && rule.Final() && Connectable(DestinationOf(con))
    requires con.fdOut == null && net.live == {} && net.peak == 0
    modifies con`tunnel, con`fdOut, con`dstHost, net, fd`sent, fd`writeScript
    ensures Attempted(trace, rule, old(con.dstHost), env, initial) && (connected <==> Success(trace))
    ensures !connected ==> !ok && fd.sent == old(fd.sent)
    ensures connected ==>
      Connected(con, net, trace, env, old(DestinationOf(con)), HELLO + EncodeRequest(con.socksCommand, con.socksAddressType, old(con.dstHost)))
    ensures connected && con.tunnel.role != Null ==> fresh(con.fdOut) && status == REPLY_SUCCEED
    ensures SentSome(old(fd.sent), fd.sent, ReplyBytes(con.socksVersion, status))
    ensures ok ==> fd.sent == old(fd.sent) + ReplyBytes(con.socksVersion, status)
    ensures Faultless(old(fd.writeScript)) ==> Faultless(fd.writeScript) && ok == connected
  {
    ghost var d, tunnels := DestinationOf(con), Tunnels(rule.tunnel);
    FinalHasTunnels(rule);
    connected, status, trace := SocksConnect(con, rule, net, env, initial);
    LookupsAreNotSent(d, tunnels, env, |trace|, con.socksCommand);
    if con.dstHost.HasAddr() {
      LookedUpGoesThere(d, tunnels, env, |trace|);
    }
    ok := connected;
    if ok {
      ok := SocksRespond(con, fd, status);
    }
  }

  /** What the client may have been sent before the first byte of payload. */
  function Answers(stream: seq<byte>, status: byte): seq<byte> {
    var parsed := ParseHandshake(stream, EMPTY_HOST);
    HandshakeReply(stream) + if parsed.Got? then ReplyBytes(parsed.value.version, status) else []
  }

  /**
    What a client makes of all it is sent: whichever version it speaks, it takes exactly the
    answers, concludes success just when the status is 0, and has the payload left.
   */
  lemma AnswersAreUnderstood(stream: seq<byte>, status: byte, t: seq<byte>)
    requires ParseHandshake(stream, EMPTY_HOST).Got?
    ensures if ParseHandshake(stream, EMPTY_HOST).value.version == 4
      then ReadSocks4Reply(Answers(stream, status) + t) == Got(status == REPLY_SUCCEED, t)
      else ClientVerdict(Answers(stream, status) + t) == Verdict(status == REPLY_SUCCEED, status, t)
  {
    var parsed := ParseHandshake(stream, EMPTY_HOST);
    AnsweredByVersion(stream);
    if parsed.value.version == 4 {
      assert Answers(stream, status) == EncodeSocks4Reply(status);
      Socks4ReplyIsRead(status, t);
    } else {
      assert Answers(stream, status) == METHOD_CHOSEN + EncodeReply(status);
      ReplyAsSent(status, t);
    }
  }

  lemma AnsweredByVersion(stream: seq<byte>)
    requires ParseHandshake(stream, EMPTY_HOST).Got?
    ensures var version := ParseHandshake(stream, EMPTY_HOST).value.version;
      (version == 4 || version == 5) && HandshakeReply(stream) == if version == 4 then [] else METHOD_CHOSEN
  {
  }

  lemma ReplyAsSent(status: byte, t: seq<byte>)
    ensures ClientVerdict(METHOD_CHOSEN + EncodeReply(status) + t) == Verdict(status == REPLY_SUCCEED, status, t)
  {
    var addr: seq<byte>, port: seq<byte> := [0, 0, 0, 0], [0, 0];
    assert EncodeReply(status) + t == [5, status, 0, ADDRTYPE_IPV4] + (addr + port + t);
    Associative(METHOD_CHOSEN, EncodeReply(status), t);
    ReplyIsRead(status, ADDRTYPE_IPV4, addr, port, t);
  }

  lemma SentPart(before: seq<byte>, first: seq<byte>, now: seq<byte>, reply: seq<byte>)
    requires SentSome(before, now, first) && first <= reply
    ensures SentSome(before, now, reply)
  {
    assert before + first <= before + reply;
  }

  /** The answers to the handshake, and the reply behind them, are all the answers. */
  lemma AnswersInTwoParts(before: seq<byte>, first: seq<byte>, reply: seq<byte>, now: seq<byte>)
    ensures before + first + reply == before + (first + reply)
    ensures SentSome(before + first, now, reply) ==> SentSome(before, now, first + reply)
  {
    Associative(before, first, reply);
    if SentSome(before + first, now, reply) {
      assert before <= before + first <= now;
    }
  }

  /** Reads the client to its end, one byte at a time, and drops what it reads. */
  method ShuttleNullConnection(con: ClientConnection, fd: Socket) returns (ok: bool)
    modifies con`bytesRx, fd`incoming, fd`readScript
    ensures con.bytesRx - old(con.bytesRx) <= |old(fd.incoming)| - |fd.incoming|
    ensures ok ==> fd.incoming == [] && con.bytesRx == old(con.bytesRx) + |old(fd.incoming)|
    ensures Faultless(old(fd.readScript)) ==> ok
  {
    var buf := new byte[10];
    ghost var taken;
    var rc;
    rc, taken := SbReadLen(fd, buf, 0, 1);
    while rc == 1
      invariant con.bytesRx - old(con.bytesRx) + (if rc == 1 then 1 else 0) <= |old(fd.incoming)| - |fd.incoming|
      invariant rc >= 0 ==> con.bytesRx - old(con.bytesRx) + rc == |old(fd.incoming)| - |fd.incoming|
      invariant rc == 0 ==> fd.incoming == []
      invariant 0 <= rc <= 1 || (rc == -1 && !Faultless(old(fd.readScript)))
      invariant forall e :: e in fd.readScript ==> e in old(fd.readScript)
      decreases |fd.incoming|, rc
    {
      con.bytesRx := con.bytesRx + 1;
      rc, taken := SbReadLen(fd, buf, 0, 1);
    }
    ok := rc == 0;
  }

  /** A session with a server: where it is connected to, what both ends were sent, and what they have left to be read. */
  datatype Link = Link(peer: Address, toServer: seq<byte>, fromServer: seq<byte>, toClient: seq<byte>, fromClient: seq<byte>)

  ghost function LinkOf(fd: Socket, server: Socket, net: Outbound): Link
    requires server in net.peers
    reads fd, server, net
  {
    Link(net.peers[server], server.sent, server.incoming, fd.sent, fd.incoming)
  }

  /** What was carried, in how many rounds of the loop. */
  datatype Passage = Passage(rounds: nat, up: History, down: History)

  const NO_PASSAGE := Passage(0, Start, Start)

  /**
    Both streams of a session: each end has what was asked or answered, and then only the
    other's bytes. In each of the rounds every readable side was read from.
   */
  ghost predicate Carried(l: Link, p: Passage, polls: seq<PollResult>, asked: seq<byte>, answered: seq<byte>, payload: seq<byte>, served: seq<byte>) {
    && l.toServer == asked + Now(p.up).given && payload == Now(p.up).taken + l.fromClient
    && l.toClient == answered + Now(p.down).given && served == Now(p.down).taken + l.fromServer
    && Conserving(p.up) && Conserving(p.down) && Relayed(polls, p.rounds, payload, served, p.up, p.down)
  }

  /** A session's end without an error: a side was read to its end, or is silently gone. */
  predicate Over(p: Passage, polls: seq<PollResult>, payload: seq<byte>, served: seq<byte>) {
    p.rounds <= |polls| && (Now(p.up).taken == payload || Now(p.down).taken == served || Silent(polls, p.rounds))
  }

  /** Its end with one, when no call on a socket fails. */
  predicate Broken(p: Passage, polls: seq<PollResult>) {
    p.rounds <= |polls| && Breaks(polls, p.rounds)
  }

  ghost predicate CountedBy(con: ClientConnection, p: Passage, tx: nat, rx: nat)
    reads con
  {
    con.bytesTx == tx + |Now(p.up).taken| && con.bytesRx == rx + |Now(p.down).taken|
  }

  /** Carrying the payload to a server. */
  method Carry(con: ClientConnection, fd: Socket, polls: seq<PollResult>, ghost net: Outbound) returns (ok: bool, ghost p: Passage)
    requires con.fdIn == fd && con.fdOut != null && con.fdOut != fd && con.fdOut in net.peers
    modifies con`fdIn, con`fdOut, con`bytesTx, con`bytesRx, fd, con.fdOut
    ensures Carried(LinkOf(fd, old(con.fdOut), net), p, polls,
                    old(con.fdOut.sent), old(fd.sent), old(fd.incoming), old(con.fdOut.incoming))
    ensures ok ==> Over(p, polls, old(fd.incoming), old(con.fdOut.incoming)) && CountedBy(con, p, old(con.bytesTx), old(con.bytesRx))
    ensures !ok && old(FaultlessSocket(fd)) && old(FaultlessSocket(con.fdOut)) ==> Broken(p, polls)
  {
    ghost var up, down, rounds;
    ok, up, down, rounds := ShuttleDataBackAndForth(con, polls);
    p := Passage(rounds, up, down);
  }

  /** The server of a session: the destination itself, or what listens for the tunnel on this machine. */
  ghost predicate ServerIs(peer: Address, tun: SshTunnel, d: Destination, env: nat -> World) {
    match tun.role
    case Direct => GoesTo(peer, d, env)
    case Managed => peer == Inet(LOCALHOST, Htons(tun.socksPort))
    case Null => false
  }

  /** A session through the last tunnel tried, for a destination. */
  ghost predicate Session(l: Link, p: Passage, polls: seq<PollResult>, last: SshTunnel, w: World, env: nat -> World, d: Destination,
                          asked: seq<byte>, answered: seq<byte>, payload: seq<byte>, ok: bool)
  {
    && ServerIs(l.peer, last, d, env)
    && Carried(l, p, polls, if last.role == Direct then [] else asked, answered, payload, ServerStream(last, w))
    && (ok ==> Over(p, polls, payload, ServerStream(last, w)))
  }

  /** How it ends in a world without faults, once tunnels are tried. */
  ghost predicate Concludes(trace: seq<Attempt>, p: Passage, polls: seq<PollResult>, ok: bool, served: bool) {
    && (served <==> Success(trace) && trace[|trace| - 1].tunnel.role != Null)
    && (served && !ok ==> Broken(p, polls))
    && (!served ==> ok == Success(trace))
  }

  /** Everything behind routing, for a destination and the rule chosen for it. */
  method ConnectAndCarry(con: ClientConnection, fd: Socket, rule: Rule, net: Outbound, env: nat -> World, initial: byte, polls: seq<PollResult>)
    returns (ok: bool, ghost status: byte, ghost trace: seq<Attempt>, ghost server: Socket?, ghost p: Passage)
    requires con.fdIn == fd && Terminated(rule.tunnel) && rule.Final() && Connectable(DestinationOf(con))
    requires con.fdOut == null && net.live == {} && net.peak == 0
    modifies con`tunnel, con`fdIn, con`fdOut, con`dstHost, con`bytesTx, con`bytesRx, net, fd
    ensures Attempted(trace, rule, old(con.dstHost), env, initial)
    ensures server == null ==> SentSome(old(fd.sent), fd.sent, ReplyBytes(con.socksVersion, status)) && p == NO_PASSAGE
    ensures server != null ==>
      && fresh(server) && status == REPLY_SUCCEED && Success(trace) && con.tunnel == trace[|trace| - 1].tunnel && server in net.peers
      && Session(LinkOf(fd, server, net), p, polls, con.tunnel, env(|trace| - 1), env, old(DestinationOf(con)),
                 HELLO + EncodeRequest(con.socksCommand, con.socksAddressType, old(con.dstHost)),
                 old(fd.sent) + ReplyBytes(con.socksVersion, status), old(fd.incoming), ok)
    ensures ok ==> con.tunnel != null && (con.tunnel.role != Null ==> server != null)
    ensures ok && server == null ==> fd.sent == old(fd.sent) + ReplyBytes(con.socksVersion, status) && fd.incoming == []
    ensures ok && server != null ==> CountedBy(con, p, old(con.bytesTx), old(con.bytesRx))
    ensures old(FaultlessSocket(fd)) && AllQuiet(env) ==> Concludes(trace, p, polls, ok, server != null)
  {
    server, p := null, NO_PASSAGE;
    var connected;
    var failureType;
    ok, connected, failureType, trace := ConnectAndRespond(con, fd, rule, net, env, initial);
    status := failureType;
    if ok {
      assert AllQuiet(env) ==> Quiet(env(|trace| - 1));
      assert con.bytesTx == old(con.bytesTx) && con.bytesRx == old(con.bytesRx) && fd.incoming == old(fd.incoming);
      if con.tunnel.role == Null {
        ok := ShuttleNullConnection(con, fd);
      } else {
        server := con.fdOut;
        ok, p := Carry(con, fd, polls, net);
      }
    }
  }

  /** What a session goes by: the request as parsed, the rules, the choice among them, and the attempts in a world. */
  datatype Course = Course(parsed: Parsed<Request>, rules: seq<Rule>, dns: Resolver, k: nat,
                           trace: seq<Attempt>, env: nat -> World, initial: byte) {
    /** The request is routed by rule k, and the tunnels of that rule are tried for its destination. */
    ghost predicate Tries() {
      && parsed.Got? && k < |rules| && IsChoice(rules, dns, Requested(parsed.value), k) && Connectable(Goal())
      && Attempted(trace, rules[k], Goal().host, env, initial)
    }

    function Goal(): Destination
      requires parsed.Got? && k <= |rules|
    {
      After(rules, dns, Requested(parsed.value), k)
    }

    ghost predicate Selectable() {
      parsed.Got? && AnySelects(rules, dns, Requested(parsed.value))
    }
  }

  /** How it ended: with or without a server, and what the client was sent and has left to be read. */
  datatype Ending = Ending(ok: bool, status: byte, link: Option<Link>, passage: Passage, toClient: seq<byte>, fromClient: seq<byte>)

  ghost function EndingOf(ok: bool, status: byte, fd: Socket, server: Socket?, net: Outbound, p: Passage): Ending
    requires server != null ==> server in net.peers
    reads fd, server, net
  {
    Ending(ok, status, if server == null then None else Some(LinkOf(fd, server, net)), p, fd.sent, fd.incoming)
  }

  function ReplyTo(parsed: Parsed<Request>, status: byte): seq<byte> {
    if parsed.Got? then ReplyBytes(parsed.value.version, status) else []
  }

  /**
    However a session ends. Without a server the client has been sent some first part of the answers.
    With one, which is the destination itself or listens for the tunnel on this machine, all
    of them and one success reply were sent, and then only bytes that the server sent, in
    order; and the server was sent the greeting and the request as routed, and then only bytes
    that the client sent behind its handshake, in order. In a world without faults there
    is a server exactly when the handshake is accepted, a rule selects and the last attempt
    connects to one, and only a broken poll is an error.
   */
  ghost predicate Outcome(c: Course, e: Ending, polls: seq<PollResult>, before: seq<byte>, handshake: seq<byte>, faultless: bool) {
    var answers := handshake + ReplyTo(c.parsed, e.status);
    && (e.link.None? ==> SentSome(before, e.toClient, answers) && e.passage == NO_PASSAGE)
    && (e.link.Some? ==>
          && c.Tries() && Success(c.trace) && e.status == REPLY_SUCCEED
          && Session(e.link.value, e.passage, polls, c.trace[|c.trace| - 1].tunnel, c.env(|c.trace| - 1), c.env, c.Goal(),
                     HELLO + Outgoing(c.parsed.value, c.rules, c.dns, c.k), before + answers, c.parsed.rest, e.ok))
    && (e.ok && e.link.None? ==> e.toClient == before + answers && e.fromClient == [])
    && (faultless ==>
          if c.Selectable() then c.Tries() && Concludes(c.trace, e.passage, polls, e.ok, e.link.Some?)
          else !e.ok && e.link.None?)
  }

  /** Everything behind routing, seen from the whole session. */
  method Proceed(con: ClientConnection, fd: Socket, net: Outbound, env: nat -> World, initial: byte, polls: seq<PollResult>,
                 ghost parsed: Parsed<Request>, ghost rules: seq<Rule>, ghost dns: Resolver, ghost k: nat,
                 ghost before: seq<byte>, ghost handshake: seq<byte>, ghost faultless: bool)
    returns (ok: bool, ghost status: byte, ghost trace: seq<Attempt>, ghost server: Socket?, ghost p: Passage)
    requires con.fdIn == fd && con.fdOut == null && net.live == {} && net.peak == 0
    requires Routed(con, parsed, rules, dns, k) && Terminated(rules[k].tunnel)
    requires fd.incoming == parsed.rest && fd.sent == before + handshake && (faultless ==> FaultlessSocket(fd) && AllQuiet(env))
    modifies con`tunnel, con`fdIn, con`fdOut, con`dstHost, con`bytesTx, con`bytesRx, net, fd
    ensures server != null ==> fresh(server) && server in net.peers
    ensures Outcome(Course(parsed, rules, dns, k, trace, env, initial), EndingOf(ok, status, fd, server, net, p), polls,
                    before, handshake, faultless)
    ensures ok ==> con.tunnel != null && (con.tunnel.role != Null ==> server != null)
    ensures ok && server != null ==> CountedBy(con, p, old(con.bytesTx), old(con.bytesRx))
  {
    ChosenIfAny(rules, dns, Requested(parsed.value), k);
    ok, status, trace, server, p := ConnectAndCarry(con, fd, con.route.value, net, env, initial, polls);
    AnswersInTwoParts(before, handshake, ReplyTo(parsed, status), fd.sent);
  }

  /** A session that routing ends. */
  lemma NotRouted(c: Course, e: Ending, polls: seq<PollResult>, before: seq<byte>, handshake: seq<byte>, faultless: bool)
    requires !e.ok && e.link.None? && e.passage == NO_PASSAGE && SentSome(before, e.toClient, handshake)
    requires faultless ==> !c.Selectable()
    ensures Outcome(c, e, polls, before, handshake, faultless)
  {
    SentPart(before, handshake, e.toClient, handshake + ReplyTo(c.parsed, e.status));
  }

  /** The whole life of a client. An end without error counts exactly what was carried. */
  method ServiceSocksConnectionHandler(con: ClientConnection, fd: Socket, rules: seq<Rule>, dns: Resolver, defaultDirect: Rule,
                                       net: Outbound, env: nat -> World, initial: byte, polls: seq<PollResult>)
    returns (ok: bool, ghost k: nat, ghost status: byte, ghost trace: seq<Attempt>, ghost server: Socket?, ghost p: Passage)
    requires con.fdIn == fd && con.dstHost == EMPTY_HOST && con.fdOut == null && net.live == {} && net.peak == 0
    requires forall i :: 0 <= i < |rules| ==> Terminated(rules[i].tunnel)
    modifies con, fd, net
    ensures server != null ==> fresh(server) && server in net.peers
    ensures Outcome(Course(ParseHandshake(old(fd.incoming), EMPTY_HOST), rules, dns, k, trace, env, initial),
                    EndingOf(ok, status, fd, server, net, p), polls,
                    old(fd.sent), HandshakeReply(old(fd.incoming)), old(FaultlessSocket(fd)) && AllQuiet(env))
    ensures ok ==> con.tunnel != null && (con.tunnel.role != Null ==> server != null)
    ensures ok && server != null ==> CountedBy(con, p, old(con.bytesTx), old(con.bytesRx))
  {
    ghost var parsed, handshake, before := ParseHandshake(fd.incoming, EMPTY_HOST), HandshakeReply(fd.incoming), fd.sent;
    ghost var faultless := FaultlessSocket(fd) && AllQuiet(env);
    status, trace, server, p := 0, [], null, NO_PASSAGE;
    ok, k := AcceptAndRoute(con, fd, rules, dns, defaultDirect);
    assert con.bytesTx == old(con.bytesTx) && con.bytesRx == old(con.bytesRx);
    if ok {
      ok, status, trace, server, p := Proceed(con, fd, net, env, initial, polls, parsed, rules, dns, k, before, handshake, faultless);
    } else {
      NotRouted(Course(parsed, rules, dns, k, trace, env, initial), EndingOf(ok, status, fd, server, net, p), polls, before, handshake, faultless);
    }
  }

  //// What this means for a client that no "to" rule concerns

  /** The bytes of the request itself: behind the version, the number of methods and that many methods. */
  function RequestStream(s: seq<byte>): seq<byte> {
    if |s| < 2 then [] else Drop(s, 2 + s[1] as int)
  }

  lemma RequestIsInTheStream(s: seq<byte>)
    requires ParseHandshake(s, EMPTY_HOST).Got? && ParseHandshake(s, EMPTY_HOST).value.version == 5
    ensures ParseHandshake(s, EMPTY_HOST) == ParseSocks5Command(RequestStream(s), EMPTY_HOST)
  {
  }

  /** What is asked is the part of the stream that the request was parsed from, exactly when its name has no NUL. */
  predicate AskedUnlessNul(r: Request, rest: seq<byte>, stream: seq<byte>, asked: seq<byte>) {
    && 7 <= |stream| - |rest|
    && var wire := stream[..|stream| - |rest|];
    asked == wire <==> (r.addressType == ADDRTYPE_DOMAIN ==> 0 !in WireName(wire))
  }

  /** For such a client of version 5, the server is asked exactly what the client asked, unless a NUL was in the name. */
  lemma AskedAsTheClientAsked(s: seq<byte>, rules: seq<Rule>, dns: Resolver, k: nat)
    requires var parsed := ParseHandshake(s, EMPTY_HOST);
      parsed.Got? && parsed.value.version == 5 && IsChoice(rules, dns, Requested(parsed.value), k)
    requires forall j :: 0 <= j < |rules| && j <= k ==> rules[j].toNetwork.None?
    ensures var parsed, stream := ParseHandshake(s, EMPTY_HOST), RequestStream(s);
      && Connectable(After(rules, dns, Requested(parsed.value), k))
      && AskedUnlessNul(parsed.value, parsed.rest, stream, Outgoing(parsed.value, rules, dns, k))
  {
    ParsedIsConnectable(s);
    RequestIsInTheStream(s);
    AskedAsRequested(RequestStream(s), rules, dns, k);
  }

  lemma AskedAsRequested(stream: seq<byte>, rules: seq<Rule>, dns: Resolver, k: nat)
    requires var parsed := ParseSocks5Command(stream, EMPTY_HOST);
      parsed.Got? && Connectable(Requested(parsed.value)) && IsChoice(rules, dns, Requested(parsed.value), k)
    requires forall j :: 0 <= j < |rules| && j <= k ==> rules[j].toNetwork.None?
    ensures var parsed := ParseSocks5Command(stream, EMPTY_HOST);
      && Connectable(After(rules, dns, Requested(parsed.value), k))
      && AskedUnlessNul(parsed.value, parsed.rest, stream, Outgoing(parsed.value, rules, dns, k))
  {
    RoutedIsConnectable(rules, dns, Requested(ParseSocks5Command(stream, EMPTY_HOST).value), if k < |rules| then k + 1 else k);
    RoutedRequestIsTransparent(stream, rules, dns, k);
  }

  /**
    Whatever the rules, what is asked has the client's own command and port; only the address
    and its type can differ, and then they are those of an IPv4 address.
   */
  lemma RoutingKeepsCommandAndPort(s: seq<byte>, rules: seq<Rule>, dns: Resolver, k: nat)
    requires ParseHandshake(s, EMPTY_HOST).Got? && k <= |rules|
    ensures var r := ParseHandshake(s, EMPTY_HOST).value;
      && Connectable(After(rules, dns, Requested(r), k))
      && OnlyAddressDiffers(Outgoing(r, rules, dns, k), r, After(rules, dns, Requested(r), k))
  {
    var r := ParseHandshake(s, EMPTY_HOST).value;
    var i := if k < |rules| then k + 1 else k;
    ParsedIsConnectable(s);
    RoutedIsConnectable(rules, dns, Requested(r), i);
    RewritingKeeps(rules, dns, Requested(r), i);
    PortAtTheEnd(r.command, Before(rules, dns, Requested(r), i));
  }

  predicate OnlyAddressDiffers(asked: seq<byte>, r: Request, d: Destination) {
    && |asked| >= 7 && asked[..4] == [5, r.command, 0, d.addressType] && asked[|asked| - 2..] == PortBytes(r.host.port)
    && (d.addressType == ADDRTYPE_IPV4 || (d.addressType == r.addressType && d.host.name == r.host.name))
  }

  lemma PortAtTheEnd(command: byte, d: Destination)
    requires Connectable(d)
    ensures var asked := EncodeRequest(command, d.addressType, d.host);
      |asked| >= 7 && asked[..4] == [5, command, 0, d.addressType] && asked[|asked| - 2..] == PortBytes(d.host.port)
  {
  }

  /** So the first three and the last two bytes of what is asked are those that a SOCKS5 client sent. */
  lemma ClientsCommandAndPort(s: seq<byte>, rules: seq<Rule>, dns: Resolver, k: nat)
    requires ParseHandshake(s, EMPTY_HOST).Got? && ParseHandshake(s, EMPTY_HOST).value.version == 5 && k <= |rules|
    ensures var parsed, stream := ParseHandshake(s, EMPTY_HOST), RequestStream(s);
      && Connectable(After(rules, dns, Requested(parsed.value), k)) && 7 <= |stream| - |parsed.rest|
      && SameEnds(Outgoing(parsed.value, rules, dns, k), stream[..|stream| - |parsed.rest|])
  {
    RequestIsInTheStream(s);
    RoutingKeepsCommandAndPort(s, rules, dns, k);
    var stream := RequestStream(s);
    var addr, port := WireOfParse5(stream, EMPTY_HOST);
    var r := ParseHandshake(s, EMPTY_HOST).value;
    var wire := Wire5(r.command, r.addressType, addr, port);
    assert stream[..|wire|] == wire;
    PortRoundTrip(0, port);
  }

  predicate SameEnds(asked: seq<byte>, wire: seq<byte>) {
    |asked| >= 7 && |wire| >= 7 && asked[..3] == wire[..3] && asked[|asked| - 2..] == wire[|wire| - 2..]
  }
}
