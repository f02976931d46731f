/** Connecting a routed request: the tunnels of its rule are tried in turn until one works. */
module SocksConnections {
  import Arithmetic
  import opened Kernel
  import opened HostIds
  import opened ClientConnections
  import opened RouteRules
  import opened Socks
  import opened Socks5Client

  const MAX_ATTEMPTS: nat := 101
  const LOCALHOST: nat := 0x7F00_0001

  datatype ConnectResult = Connected | PeerRefused | OtherError

  /** What the world answers in one attempt: name lookup, socket(), connect(), and the peer. */
  datatype World = World(
    lookup: Option<nat>,
    number: int,
    result: ConnectResult,
    incoming: seq<byte>,
    readScript: seq<IoEvent>,
    writeScript: seq<IoEvent>)

  /** The outbound sockets: which are open now, how many have been open at once, and what each was connected to. */
  class Outbound {
    ghost var live: set<Socket>
    ghost var peak: nat
    ghost var peers: map<Socket, Address>

    constructor ()
      ensures live == {} && peak == 0 && peers == map[]
    {
      live, peak, peers := {}, 0, map[];
    }

    /** socket(): a negative number is an error. */
    method NewSocket(w: World) returns (s: Socket?)
      modifies this`live, this`peak
      ensures w.number < 0 ==> s == null && live == old(live) && peak == old(peak)
      ensures w.number >= 0 ==> s != null && fresh(s) && s.number == w.number && s.sent == []
      ensures w.number >= 0 ==> s.incoming == w.incoming && s.readScript == w.readScript && s.writeScript == w.writeScript
      ensures w.number >= 0 ==> live == old(live) + {s} && peak == Max(old(peak), |live|)
    {
      if w.number < 0 {
        return null;
      }
      s := new Socket(w.number, w.incoming, w.readScript, w.writeScript);
      live := live + {s};
      peak := Max(peak, |live|);
    }

    /** connect() to the address that is handed to it. */
    method Connect(s: Socket, w: World, to: Address) returns (result: ConnectResult)
      modifies this`peers
      ensures result == w.result
      ensures peers == if result == Connected then old(peers)[s := to] else old(peers)
    {
      result := w.result;
      if result == Connected {
        peers := peers[s := to];
      }
    }

    method CloseSocket(s: Socket)
      modifies this`live
      ensures live == old(live) - {s} && peak == old(peak)
    {
      live := live - {s};
    }
  }

  /** How one attempt ended: the tunnel tried, whether it connected, and the status it left. */
  datatype Attempt = Attempt(tunnel: SshTunnel, created: bool, failureType: byte)

  /** Always succeeds, and leaves the status as it was. */
  method ConnectNull(failureType: byte) returns (created: bool, failure: byte)
    ensures created && failure == failureType
  {
    return true, failureType;
  }

  /** A host whose name has been found to mean an address. */
  function Resolved(host: HostId, ip: nat): HostId {
    HostId(host.name, Inet(ip, Htons(host.port)), Htons(host.port))
  }

  /** A name that has no address yet is looked up; everything else stays as it is. */
  function AfterLookup(host: HostId, w: World): HostId {
    if host.HasName() && !host.HasAddr() && w.lookup.Some? then Resolved(host, w.lookup.value) else host
  }

  /** There is an address to connect to, or a name that the lookup knows. */
  predicate Reachable(host: HostId, w: World) {
    host.HasAddr() || (host.HasName() && w.lookup.Some?)
  }

  /** To the address that a host has, or else to the one that its name is found to mean, at its port. */
  predicate GoesToHost(peer: Address, host: HostId, w: World) {
    if host.HasAddr() then peer == host.addr else w.lookup.Some? && peer == Inet(w.lookup.value, Htons(host.port))
  }

  /**
    A direct connection: the name is looked up if there is no address yet. Success means
    status 0 and an open socket connected to the address that the host had, or else to the
    one that its name was found to mean, at the host's port; failure leaves no new socket open.
   */
  method ConnectDirect(con: ClientConnection, net: Outbound, w: World) returns (created: bool, failure: byte)
    modifies con`dstHost, con`fdOut, net
    ensures con.dstHost == AfterLookup(old(con.dstHost), w) && (old(Addressable(con)) ==> Addressable(con))
    ensures created ==> con.fdOut != null && fresh(con.fdOut) && con.fdOut.number == w.number && FreshFrom(con.fdOut, w)
    ensures created ==> net.live == old(net.live) + {con.fdOut}
    ensures created ==> con.fdOut in net.peers && GoesToHost(net.peers[con.fdOut], old(con.dstHost), w)
    ensures !created ==> (con.fdOut == null || con.fdOut == old(con.fdOut)) && net.live == old(net.live)
    ensures created <==> Reachable(old(con.dstHost), w) && w.number >= 0 && w.result == Connected
    ensures failure == REPLY_SUCCEED <==> created
    ensures failure == REPLY_ADDRESS_TYPE_NOT_SUPPORTED <==> !Reachable(old(con.dstHost), w)
    ensures failure == REPLY_CONNECTION_REFUSED <==> Reachable(old(con.dstHost), w) && w.number >= 0 && w.result == PeerRefused
    ensures failure in {REPLY_SUCCEED, REPLY_SERVER_FAILURE, REPLY_ADDRESS_TYPE_NOT_SUPPORTED, REPLY_CONNECTION_REFUSED}
    ensures net.peak <= Max(old(net.peak), |old(net.live)| + 1)
  {
    failure := REPLY_SERVER_FAILURE;
    if con.dstHost.HasName() && !con.dstHost.HasAddr() {
      if w.lookup.Some? {
        con.dstHost := con.dstHost.SetAddrIn(w.lookup.value, Htons(con.dstHost.port));
      }
    }
    if !con.dstHost.HasAddr() {
      return false, REPLY_ADDRESS_TYPE_NOT_SUPPORTED;
    }
    var address := con.dstHost.addr;
    con.fdOut := net.NewSocket(w);
    if con.fdOut == null {
      return false, failure;
    }
    var result := net.Connect(con.fdOut, w, address);
    if result != Connected {
      net.CloseSocket(con.fdOut);
      con.fdOut := null;
      if result == PeerRefused {
        failure := REPLY_CONNECTION_REFUSED;
      }
      return false, failure;
    }
    return true, REPLY_SUCCEED;
  }

  /** Nothing has been read from or written to a socket yet. */
  ghost predicate FreshFrom(s: Socket, w: World)
    reads s
  {
    s.sent == [] && s.incoming == w.incoming && s.readScript == w.readScript && s.writeScript == w.writeScript
  }

  /**
    A connection through the SOCKS5 server at the end of a tunnel, which listens on this
    machine at the tunnel's port. Success means that the server was sent exactly the request
    this connection stands for, granted it, and that what is left to read is what it sends behind its reply.
   */
  method ConnectViaSshSocks5(con: ClientConnection, tun: SshTunnel, net: Outbound, w: World) returns (created: bool, failure: byte)
    requires Addressable(con)
    modifies con`fdOut, net
    ensures con.fdOut == null <==> w.number < 0 || w.result != Connected
    ensures con.fdOut == null ==> net.live == old(net.live)
    ensures con.fdOut != null ==> fresh(con.fdOut) && con.fdOut.number == w.number >= 0 && net.live == old(net.live) + {con.fdOut}
    ensures con.fdOut != null ==>
      con.fdOut in net.peers && net.peers[con.fdOut] == Inet(LOCALHOST, Htons(tun.socksPort))
    ensures created ==> failure == REPLY_SUCCEED && con.fdOut != null && KnownAddressType(con)
    ensures created ==> con.fdOut.sent == HELLO + EncodeRequest(con.socksCommand, con.socksAddressType, con.dstHost)
    ensures created ==> ClientVerdict(w.incoming) == Verdict(true, failure, con.fdOut.incoming)
    ensures con.fdOut == null || !KnownAddressType(con) ==> !created
    ensures con.fdOut == null ==> failure == REPLY_SERVER_FAILURE
    ensures con.fdOut != null && Quiet(w) ==> Faultless(con.fdOut.readScript) && Faultless(con.fdOut.writeScript)
    ensures con.fdOut != null && Quiet(w) ==> if KnownAddressType(con)
      then created == ClientVerdict(w.incoming).ok && failure == ClientVerdict(w.incoming).failureType
      else failure == REPLY_SERVER_FAILURE
    ensures net.peak <= Max(old(net.peak), |old(net.live)| + 1)
  {
    created, failure := false, REPLY_SERVER_FAILURE;
    con.fdOut := net.NewSocket(w);
    if con.fdOut == null {
      return;
    }
    var proxyIp, proxyPort := LOCALHOST, tun.socksPort;
    var result := net.Connect(con.fdOut, w, Inet(proxyIp, Htons(proxyPort)));
    if result != Connected {
      net.CloseSocket(con.fdOut);
      con.fdOut := null;
      return;
    }
    created, failure := SpeakSocks5(con, con.fdOut);
    assert [] + HELLO == HELLO;
  }

  /** No read or write on the socket of this attempt will fail. */
  predicate Quiet(w: World) {
    Faultless(w.readScript) && Faultless(w.writeScript)
  }

  //// What an attempt comes to

  /** Whether an attempt through a tunnel connects; `known` tells that the address type can be sent. */
  predicate Works(tun: SshTunnel, host: HostId, known: bool, w: World) {
    match tun.role
    case Direct => Reachable(host, w) && w.number >= 0 && w.result == Connected
    case Null => true
    case Managed => known && w.number >= 0 && w.result == Connected && ClientVerdict(w.incoming).ok
  }

  /** The status it leaves. */
  function StatusOf(tun: SshTunnel, host: HostId, known: bool, w: World, before: byte): byte {
    match tun.role
    case Direct =>
      if !Reachable(host, w) then REPLY_ADDRESS_TYPE_NOT_SUPPORTED
      else if w.number < 0 || w.result == OtherError then REPLY_SERVER_FAILURE
      else if w.result == PeerRefused then REPLY_CONNECTION_REFUSED
      else REPLY_SUCCEED
    case Null => before
    case Managed =>
      if known && w.number >= 0 && w.result == Connected then ClientVerdict(w.incoming).failureType else REPLY_SERVER_FAILURE
  }

  /** An attempt connects only if it works, and without faults of its socket it does and leaves that status. */
  predicate Explained(a: Attempt, host: HostId, known: bool, w: World, before: byte) {
    && (a.created ==> Works(a.tunnel, host, known, w) && (a.tunnel.role != Null ==> a.failureType == REPLY_SUCCEED))
    && (a.tunnel.role != Managed || Quiet(w) ==>
          a.created == Works(a.tunnel, host, known, w) && a.failureType == StatusOf(a.tunnel, host, known, w, before))
  }

  /** The destination before attempt k: a direct attempt may have looked up its name. */
  function HostBefore(host: HostId, tunnels: seq<SshTunnel>, env: nat -> World, k: nat): HostId
    requires tunnels != []
  {
    if k == 0 then host
    else
      var h := HostBefore(host, tunnels, env, k - 1);
      if tunnels[(k - 1) % |tunnels|].role == Direct then AfterLookup(h, env(k - 1)) else h
  }

  /** It is the host as it was, or the host with the first answer to a lookup, which is an address of its name. */
  lemma {:induction false} HostIsLookedUpOnce(host: HostId, tunnels: seq<SshTunnel>, env: nat -> World, k: nat)
    requires tunnels != []
    ensures var h := HostBefore(host, tunnels, env, k);
      h == host || (host.HasName() && !host.HasAddr() && exists j: nat :: j < k && env(j).lookup.Some? && h == Resolved(host, env(j).lookup.value))
  {
    if k > 0 {
      HostIsLookedUpOnce(host, tunnels, env, k - 1);
      var h := HostBefore(host, tunnels, env, k - 1);
      if HostBefore(host, tunnels, env, k) != h {
        var j := k - 1;
        assert env(j).lookup.Some?;
      }
    }
  }

  //// The retry policy

  /** The status in force before the last attempt. */
  ghost function StatusBefore(trace: seq<Attempt>, initial: byte): byte {
    if |trace| >= 2 then trace[|trace| - 2].failureType else initial
  }

  /**
    The attempts go round the tunnels in order. All but the last failed without being
    refused; the last one connected, was refused, or was the 101st.
   */
  ghost predicate RoundRobin(trace: seq<Attempt>, tunnels: seq<SshTunnel>) {
    && |trace| <= MAX_ATTEMPTS
    && (tunnels == [] ==> trace == [])
    && (forall k :: 0 <= k < |trace| ==> |tunnels| > 0 && trace[k].tunnel == tunnels[k % |tunnels|])
    && (forall k :: 0 <= k < |trace| - 1 ==> !trace[k].created && trace[k].failureType != REPLY_CONNECTION_REFUSED)
  }

  ghost predicate Finished(trace: seq<Attempt>, tunnels: seq<SshTunnel>) {
    tunnels != [] ==>
      && trace != []
      && var last := trace[|trace| - 1];
      last.created || last.failureType == REPLY_CONNECTION_REFUSED || |trace| == MAX_ATTEMPTS
  }

  /** The server behind the tunnel has been sent the request of this connection, and nothing else. */
  ghost predicate Asked(con: ClientConnection)
    reads con, con.fdOut
  {
    con.fdOut != null && KnownAddressType(con) && Addressable(con) &&
    con.fdOut.sent == HELLO + EncodeRequest(con.socksCommand, con.socksAddressType, con.dstHost)
  }

  /** What the server of an attempt sends behind its reply to the request. */
  function ServerStream(tun: SshTunnel, w: World): seq<byte> {
    if tun.role == Managed then ClientVerdict(w.incoming).rest else w.incoming
  }

  /** The socket is connected to the destination itself, or to the tunnel's end on this machine. */
  ghost predicate Reached(con: ClientConnection, net: Outbound, tun: SshTunnel)
    reads con, net
  {
    && con.fdOut != null && con.fdOut in net.peers
    && (tun.role == Direct ==> con.dstHost.HasAddr() && net.peers[con.fdOut] == con.dstHost.addr)
    && (tun.role == Managed ==> net.peers[con.fdOut] == Inet(LOCALHOST, Htons(tun.socksPort)))
  }

  /** What an attempt that connected leaves, unless it was through "null". */
  ghost predicate Established(con: ClientConnection, net: Outbound, tun: SshTunnel, w: World)
    reads con, con.fdOut, net
  {
    && Reached(con, net, tun)
    && (if tun.role == Managed then Asked(con) else con.fdOut.sent == [])
    && con.fdOut.incoming == ServerStream(tun, w)
    && (Quiet(w) ==> Faultless(con.fdOut.readScript) && Faultless(con.fdOut.writeScript))
  }

  /** What a successful last attempt leaves: status 0 and a socket, except that "null" leaves the status alone. */
  ghost predicate Succeeded(con: ClientConnection, net: Outbound, trace: seq<Attempt>, env: nat -> World, failureType: byte, initial: byte)
    requires trace != []
    reads con, con.fdOut, net
  {
    var last := trace[|trace| - 1];
    && last.created && con.tunnel == last.tunnel && failureType == last.failureType
    && (last.tunnel.role != Null ==> failureType == REPLY_SUCCEED && Established(con, net, last.tunnel, env(|trace| - 1)))
    && (last.tunnel.role == Null ==> failureType == StatusBefore(trace, initial))
  }

  /** Every attempt comes to what the world makes of it. */
  ghost predicate Followed(trace: seq<Attempt>, tunnels: seq<SshTunnel>, host: HostId, known: bool, env: nat -> World, initial: byte) {
    forall k :: 0 <= k < |trace| ==> FollowedAt(trace, tunnels, host, known, env, initial, k)
  }

  ghost predicate FollowedAt(trace: seq<Attempt>, tunnels: seq<SshTunnel>, host: HostId, known: bool, env: nat -> World, initial: byte, k: nat)
    requires k < |trace|
  {
    tunnels != [] &&
    Explained(trace[k], HostBefore(host, tunnels, env, k), known, env(k), if k == 0 then initial else trace[k - 1].failureType)
  }

  /** Closing what the connection holds would close nothing: it holds no descriptor above 0. */
  ghost predicate NothingToClose(con: ClientConnection)
    reads con
  {
    con.fdOut == null || con.fdOut.number <= 0
  }

  /** A failed attempt leaves its socket open exactly when it is one to a tunnel, connected, with descriptor 0. */
  predicate LeavesOpen(tun: SshTunnel, w: World) {
    tun.role == Managed && w.number == 0 && w.result == Connected
  }

  /** One attempt: the tunnel is recorded, tried, and on failure given up again and its socket closed. */
  method TryTunnel(con: ClientConnection, tun: SshTunnel, net: Outbound, w: World, before: byte)
    returns (created: bool, failureType: byte)
    requires Addressable(con)
    modifies con`tunnel, con`fdOut, con`dstHost, net
    ensures Addressable(con)
    ensures created ==> con.tunnel == tun
    ensures created && tun.role != Null ==> con.fdOut != null && fresh(con.fdOut) && Established(con, net, tun, w)
    ensures tun.role == Null ==> con.fdOut == old(con.fdOut)
    ensures !created ==> con.tunnel == null && (con.fdOut == null || con.fdOut.number <= 0)
    ensures con.dstHost == if tun.role == Direct then AfterLookup(old(con.dstHost), w) else old(con.dstHost)
    ensures Explained(Attempt(tun, created, failureType), old(con.dstHost), KnownAddressType(con), w, before)
    ensures old(NothingToClose(con)) ==>
      if (created && tun.role != Null) || (!created && LeavesOpen(tun, w))
      then con.fdOut != null && con.fdOut.number == w.number && con.fdOut !in old(net.live) && net.live == old(net.live) + {con.fdOut}
      else net.live == old(net.live)
    ensures net.peak <= Max(old(net.peak), |old(net.live)| + 1)
  {
    con.tunnel := tun;
    created, failureType := ConnectThrough(con, tun, net, w, before);
    if !created {
      GiveUpTunnel(con, net);
    }
  }

  /**
    An attempt that leaves descriptor 0 open: the server behind the tunnel closes without
    an answer, the attempt fails, and its socket is still there.
   */
  method DescriptorZeroStaysOpen() returns (con: ClientConnection, net: Outbound, created: bool)
    ensures !created && con.fdOut != null && con.fdOut.number == 0 && net.live == {con.fdOut}
  {
    con := new ClientConnection(null);
    con.socksAddressType := ADDRTYPE_DOMAIN;
    net := new Outbound();
    var tun := new SshTunnel([], Managed, 1080);
    var failureType;
    var w := World(None, 0, Connected, [], [], []);
    assert !ClientVerdict(w.incoming).ok;
    created, failureType := TryTunnel(con, tun, net, w, REPLY_SERVER_FAILURE);
  }

  /** The three kinds of tunnel. */
  method ConnectThrough(con: ClientConnection, tun: SshTunnel, net: Outbound, w: World, before: byte)
    returns (created: bool, failureType: byte)
    requires Addressable(con)
    modifies con`fdOut, con`dstHost, net
    ensures Addressable(con)
    ensures created && tun.role != Null ==> con.fdOut != null && fresh(con.fdOut) && Established(con, net, tun, w)
    ensures tun.role == Null ==> con.fdOut == old(con.fdOut) && net.live == old(net.live)
    ensures con.dstHost == if tun.role == Direct then AfterLookup(old(con.dstHost), w) else old(con.dstHost)
    ensures Explained(Attempt(tun, created, failureType), old(con.dstHost), KnownAddressType(con), w, before)
    ensures if (created && tun.role != Null) || (tun.role == Managed && w.number >= 0 && w.result == Connected)
      then con.fdOut != null && fresh(con.fdOut) && con.fdOut.number == w.number && net.live == old(net.live) + {con.fdOut}
      else net.live == old(net.live) && (con.fdOut == null || con.fdOut == old(con.fdOut))
    ensures net.peak <= Max(old(net.peak), |old(net.live)| + 1)
  {
    failureType := before;
    if tun.role == Direct {
      created, failureType := ConnectDirect(con, net, w);
    } else if tun.role == Null {
      created, failureType := ConnectNull(before);
    } else {
      created, failureType := ConnectViaSshSocks5(con, tun, net, w);
    }
  }

  /** After a failed attempt the tunnel is forgotten and a descriptor above 0 closed. */
  method GiveUpTunnel(con: ClientConnection, net: Outbound)
    modifies con`tunnel, con`fdOut, net
    ensures con.tunnel == null && net.peak == old(net.peak)
    ensures con.fdOut == if old(NothingToClose(con)) then old(con.fdOut) else null
    ensures net.live == if old(NothingToClose(con)) then old(net.live) else old(net.live) - {old(con.fdOut)}
  {
    con.tunnel := null;
    if con.fdOut != null && con.fdOut.number > 0 {
      net.CloseSocket(con.fdOut);
      con.fdOut := null;
    }
  }

  method CountTunnels(rule: Rule) returns (tunMax: nat)
    requires Terminated(rule.tunnel)
    ensures tunMax == |Tunnels(rule.tunnel)| < MAX_SSH_TUNNELS_PER_RULE
  {
    TerminatedFits(rule.tunnel);
    tunMax := 0;
    while rule.tunnel[tunMax] != null && tunMax < MAX_SSH_TUNNELS_PER_RULE
      invariant tunMax <= |Tunnels(rule.tunnel)|
    {
      tunMax := tunMax + 1;
    }
  }

  /**
    socks_connect: round robin over the tunnels of the rule, at most 101 attempts, ending
    early on success or refusal. Each attempt connects if its tunnel works for the destination
    as known by then, and a direct one connects to the destination's own address; for
    faultless sockets this settles the whole run. The sockets open at the end are the one that succeeded
    and those that failed attempts left, which had descriptor 0; without an earlier one
    of these, at most one outbound socket is open at any time.
   */
  method SocksConnect(con: ClientConnection, rule: Rule, net: Outbound, env: nat -> World, initial: byte)
    returns (ok: bool, failureType: byte, ghost trace: seq<Attempt>)
    requires Terminated(rule.tunnel) && Addressable(con)
    requires con.fdOut == null && net.live == {} && net.peak == 0
    modifies con`tunnel, con`fdOut, con`dstHost, net
    ensures RoundRobin(trace, Tunnels(rule.tunnel)) && Finished(trace, Tunnels(rule.tunnel))
    ensures ok <==> trace != [] && trace[|trace| - 1].created
    ensures ok ==> Succeeded(con, net, trace, env, failureType, initial)
    ensures Followed(trace, Tunnels(rule.tunnel), old(con.dstHost), KnownAddressType(con), env, initial)
    ensures con.dstHost == if trace == [] then old(con.dstHost) else HostBefore(old(con.dstHost), Tunnels(rule.tunnel), env, |trace|)
    ensures !ok && trace != [] ==> con.tunnel == null && NothingToClose(con)
    ensures SocketsCounted(con, net, trace, env, ok)
    ensures Addressable(con)
    ensures ok && con.tunnel.role != Null ==> fresh(con.fdOut)
  {
    ghost var tunnels := Tunnels(rule.tunnel);
    trace, failureType := [], initial;
    ok := true;
    var tunMax := CountTunnels(rule);
    if tunMax == 0 {
      ok := false;
    }
    var attemptToConnect, connectAttempt := true, 0;
    while ok && attemptToConnect
      invariant 0 <= connectAttempt == |trace| <= MAX_ATTEMPTS && tunMax == |tunnels|
      invariant Progress(con, net, ok, attemptToConnect, trace, tunnels, env, failureType, initial)
      invariant KnownAddressType(con) == old(KnownAddressType(con))
      invariant Settled(con, trace, tunnels, old(con.dstHost), env, initial)
      invariant ok && !attemptToConnect && con.tunnel.role != Null ==> fresh(con.fdOut)
      invariant SocketsCounted(con, net, trace, env, ok && !attemptToConnect)
      decreases MAX_ATTEMPTS - connectAttempt, ok && attemptToConnect
    {
      ok, attemptToConnect, failureType, trace :=
        NextAttempt(con, rule, tunMax, net, env, connectAttempt, failureType, trace, initial, old(con.dstHost));
      connectAttempt := connectAttempt + 1;
    }
  }

  /** How many of the first n attempts failed and left their socket open. */
  ghost function LeftOpen(trace: seq<Attempt>, env: nat -> World, n: nat): nat
    requires n <= |trace|
  {
    if n == 0 then 0
    else LeftOpen(trace, env, n - 1) + if !trace[n - 1].created && LeavesOpen(trace[n - 1].tunnel, env(n - 1)) then 1 else 0
  }

  /** Open are the socket that succeeded and those left open; and how many were open at once. */
  ghost predicate SocketsCounted(con: ClientConnection, net: Outbound, trace: seq<Attempt>, env: nat -> World, connected: bool)
    reads con, net
  {
    && (connected ==> con.tunnel != null)
    && |net.live| == LeftOpen(trace, env, |trace|) + (if connected && con.tunnel.role != Null then 1 else 0)
    && (connected && con.tunnel.role != Null ==> con.fdOut in net.live)
    && net.peak <= if trace == [] then 0 else LeftOpen(trace, env, |trace| - 1) + 1
  }

  lemma {:induction false} LeftOpenOfPrefix(before: seq<Attempt>, trace: seq<Attempt>, env: nat -> World, n: nat)
    requires n <= |before| && before <= trace
    ensures LeftOpen(trace, env, n) == LeftOpen(before, env, n)
  {
    if n > 0 {
      LeftOpenOfPrefix(before, trace, env, n - 1);
    }
  }

  lemma LeftOpenGrows(before: seq<Attempt>, trace: seq<Attempt>, env: nat -> World)
    requires before <= trace && |trace| == |before| + 1
    ensures LeftOpen(trace, env, |before|) == LeftOpen(before, env, |before|)
    ensures before != [] ==> LeftOpen(before, env, |before| - 1) <= LeftOpen(trace, env, |before|)
    ensures LeftOpen(trace, env, |trace|) == LeftOpen(before, env, |before|) +
      if !trace[|before|].created && LeavesOpen(trace[|before|].tunnel, env(|before|)) then 1 else 0
  {
    LeftOpenOfPrefix(before, trace, env, |before|);
  }

  /** How far the attempts have come, at every turn of the loop. */
  ghost predicate Progress(con: ClientConnection, net: Outbound, ok: bool, attempting: bool, trace: seq<Attempt>, tunnels: seq<SshTunnel>,
                           env: nat -> World, failureType: byte, initial: byte)
    reads con, con.fdOut, net
  {
    && RoundRobin(trace, tunnels) && Addressable(con) && (tunnels == [] ==> !ok)
    && failureType == (if trace == [] then initial else trace[|trace| - 1].failureType)
    && (ok && attempting && trace != [] ==>
          |trace| < MAX_ATTEMPTS && !trace[|trace| - 1].created && failureType != REPLY_CONNECTION_REFUSED)
    && (ok && !attempting ==> trace != [] && Succeeded(con, net, trace, env, failureType, initial))
    && (!ok && tunnels != [] ==> trace != [] && !trace[|trace| - 1].created && Finished(trace, tunnels))
    && (trace != [] && !trace[|trace| - 1].created ==> con.tunnel == null && NothingToClose(con))
    && (trace == [] ==> con.fdOut == null)
  }

  /** The attempts so far went as the world let them, and the destination is what they left it. */
  ghost predicate Settled(con: ClientConnection, trace: seq<Attempt>, tunnels: seq<SshTunnel>, host: HostId, env: nat -> World, initial: byte)
    reads con
  {
    && (tunnels == [] ==> trace == [])
    && Followed(trace, tunnels, host, KnownAddressType(con), env, initial)
    && con.dstHost == if tunnels == [] then host else HostBefore(host, tunnels, env, |trace|)
  }

  lemma FollowedOnce(trace: seq<Attempt>, a: Attempt, tunnels: seq<SshTunnel>, host: HostId, known: bool, env: nat -> World, initial: byte)
    requires tunnels != [] && Followed(trace, tunnels, host, known, env, initial)
    requires Explained(a, HostBefore(host, tunnels, env, |trace|), known, env(|trace|),
                       if trace == [] then initial else trace[|trace| - 1].failureType)
    ensures Followed(trace + [a], tunnels, host, known, env, initial)
  {
    var longer := trace + [a];
    forall k | 0 <= k < |longer| ensures FollowedAt(longer, tunnels, host, known, env, initial, k) {
      if k < |trace| {
        assert FollowedAt(trace, tunnels, host, known, env, initial, k);
      }
    }
  }

  /** The body of the loop. */
  method NextAttempt(con: ClientConnection, rule: Rule, tunMax: nat, net: Outbound, env: nat -> World, connectAttempt: nat, before: byte,
                     ghost trace: seq<Attempt>, ghost initial: byte, ghost host: HostId)
    returns (ok: bool, attemptToConnect: bool, failureType: byte, ghost trace': seq<Attempt>)
    requires Terminated(rule.tunnel) && tunMax == |Tunnels(rule.tunnel)| && connectAttempt == |trace| < MAX_ATTEMPTS
    requires Progress(con, net, true, true, trace, Tunnels(rule.tunnel), env, before, initial)
    requires Settled(con, trace, Tunnels(rule.tunnel), host, env, initial)
    requires SocketsCounted(con, net, trace, env, false)
    modifies con`tunnel, con`fdOut, con`dstHost, net
    ensures |trace'| == |trace| + 1 && trace <= trace'
    ensures Progress(con, net, ok, attemptToConnect, trace', Tunnels(rule.tunnel), env, failureType, initial)
    ensures Settled(con, trace', Tunnels(rule.tunnel), host, env, initial) && KnownAddressType(con) == old(KnownAddressType(con))
    ensures ok && !attemptToConnect && con.tunnel.role != Null ==> fresh(con.fdOut)
    ensures SocketsCounted(con, net, trace', env, ok && !attemptToConnect)
  {
    ok, attemptToConnect := true, true;
    var tunIdx := connectAttempt % tunMax;
    var tun := rule.tunnel[tunIdx];
    var created;
    created, failureType := TryAndCount(con, tun, net, env(connectAttempt), before, trace, env);
    trace' := trace + [Attempt(tun, created, failureType)];
    FollowedOnce(trace, Attempt(tun, created, failureType), Tunnels(rule.tunnel), host, KnownAddressType(con), env, initial);
    if !created && failureType == REPLY_CONNECTION_REFUSED {
      ok := false;
      attemptToConnect := false;
    }
    if created {
      attemptToConnect := false;
    } else {
      if connectAttempt >= 100 {
        ok := false;
      }
    }
  }

  /** One attempt, with the sockets it opens and leaves counted. */
  method TryAndCount(con: ClientConnection, tun: SshTunnel, net: Outbound, w: World, before: byte,
                     ghost trace: seq<Attempt>, ghost env: nat -> World)
    returns (created: bool, failureType: byte)
    requires Addressable(con) && NothingToClose(con) && SocketsCounted(con, net, trace, env, false) && w == env(|trace|)
    modifies con`tunnel, con`fdOut, con`dstHost, net
    ensures Addressable(con)
    ensures created ==> con.tunnel == tun
    ensures created && tun.role != Null ==> con.fdOut != null && fresh(con.fdOut) && Established(con, net, tun, w)
    ensures con.dstHost == if tun.role == Direct then AfterLookup(old(con.dstHost), w) else old(con.dstHost)
    ensures Explained(Attempt(tun, created, failureType), old(con.dstHost), KnownAddressType(con), w, before)
    ensures !created ==> con.tunnel == null && NothingToClose(con)
    ensures SocketsCounted(con, net, trace + [Attempt(tun, created, failureType)], env, created)
  {
    created, failureType := TryTunnel(con, tun, net, w, before);
    LeftOpenGrows(trace, trace + [Attempt(tun, created, failureType)], env);
  }

  /** Worlds in which no call on an outbound socket fails. */
  ghost predicate AllQuiet(env: nat -> World) {
    forall k: nat :: Quiet(env(k))
  }

  /** Two runs over the same tunnels in the same faultless world agree as far as they both go. */
  lemma {:induction false} RunsAgree(a: seq<Attempt>, b: seq<Attempt>, tunnels: seq<SshTunnel>, host: HostId, known: bool,
                                     env: nat -> World, initial: byte, k: nat)
    requires AllQuiet(env) && RoundRobin(a, tunnels) && RoundRobin(b, tunnels) && k <= |a| && k <= |b|
    requires Followed(a, tunnels, host, known, env, initial) && Followed(b, tunnels, host, known, env, initial)
    ensures a[..k] == b[..k]
  {
    if k > 0 {
      RunsAgree(a, b, tunnels, host, known, env, initial, k - 1);
      var n := k - 1;
      assert FollowedAt(a, tunnels, host, known, env, initial, n) && FollowedAt(b, tunnels, host, known, env, initial, n) && Quiet(env(n));
      assert n > 0 ==> a[n - 1] == a[..n][n - 1] == b[..n][n - 1] == b[n - 1];
      assert a[..k] == a[..n] + [a[n]] && b[..k] == b[..n] + [b[n]];
    }
  }

  /** So the world settles the run: there is one sequence of attempts that it allows. */
  lemma RunIsSettled(a: seq<Attempt>, b: seq<Attempt>, tunnels: seq<SshTunnel>, host: HostId, known: bool, env: nat -> World, initial: byte)
    requires AllQuiet(env) && RoundRobin(a, tunnels) && RoundRobin(b, tunnels) && Finished(a, tunnels) && Finished(b, tunnels)
    requires Followed(a, tunnels, host, known, env, initial) && Followed(b, tunnels, host, known, env, initial)
    ensures a == b
  {
    if tunnels != [] {
      var k := Min(|a|, |b|);
      RunsAgree(a, b, tunnels, host, known, env, initial, k);
      assert a[k - 1] == a[..k][k - 1] == b[..k][k - 1] == b[k - 1];
      assert a[..k] == b[..k];
    }
  }

  /** How often tunnel j of n is tried in m attempts. */
  function Share(m: nat, n: nat, j: nat): nat
    requires n > 0
  {
    if m == 0 then 0 else Share(m - 1, n, j) + if (m - 1) % n == j then 1 else 0
  }

  lemma {:induction false} ShareAt(q: nat, r: nat, n: nat, j: nat)
    requires r < n && j < n
    ensures Share(q * n + r, n, j) == q + if j < r then 1 else 0
    decreases q, r
  {
    if r > 0 {
      ShareAt(q, r - 1, n, j);
      Arithmetic.DivModUnique(q * n + r - 1, n, q, r - 1);
    } else if q > 0 {
      assert q * n - 1 == (q - 1) * n + (n - 1);
      ShareAt(q - 1, n - 1, n, j);
      Arithmetic.DivModUnique(q * n - 1, n, q - 1, n - 1);
    }
  }

  lemma SharesAreClose(m: nat, n: nat, i: nat, j: nat)
    requires i < n && j < n
    ensures -1 <= Share(m, n, i) - Share(m, n, j) <= 1
  {
    Arithmetic.Division(m, n);
    ShareAt(m / n, m % n, n, i);
    ShareAt(m / n, m % n, n, j);
  }

  /** Whatever the rule, its entries take turns: none is tried more than once more often than another. */
  lemma EntriesTakeTurns(trace: seq<Attempt>, tunnels: seq<SshTunnel>, i: nat, j: nat)
    requires RoundRobin(trace, tunnels) && i < |tunnels| && j < |tunnels|
    ensures -1 <= Share(|trace|, |tunnels|, i) - Share(|trace|, |tunnels|, j) <= 1
    ensures forall k :: 0 <= k < |trace| ==> trace[k].tunnel == tunnels[k % |tunnels|]
  {
    SharesAreClose(|trace|, |tunnels|, i, j);
  }

  /** How often a tunnel was tried. */
  ghost function Tried(trace: seq<Attempt>, tunnel: SshTunnel): nat {
    if trace == [] then 0
    else Tried(trace[..|trace| - 1], tunnel) + if trace[|trace| - 1].tunnel == tunnel then 1 else 0
  }

  /** How often the first m turns around a list come to a tunnel. */
  ghost function Turns(tunnels: seq<SshTunnel>, m: nat, tunnel: SshTunnel): nat
    requires tunnels != []
  {
    if m == 0 then 0 else Turns(tunnels, m - 1, tunnel) + if tunnels[(m - 1) % |tunnels|] == tunnel then 1 else 0
  }

  lemma {:induction false} TriedIsTurns(trace: seq<Attempt>, tunnels: seq<SshTunnel>, tunnel: SshTunnel)
    requires RoundRobin(trace, tunnels) && tunnels != []
    ensures Tried(trace, tunnel) == Turns(tunnels, |trace|, tunnel)
  {
    if trace != [] {
      TriedIsTurns(trace[..|trace| - 1], tunnels, tunnel);
    }
  }

  /** Every full round comes to a tunnel as often as the list names it. */
  lemma {:induction false} TurnsOfRounds(tunnels: seq<SshTunnel>, q: nat, r: nat, tunnel: SshTunnel)
    requires tunnels != [] && r <= |tunnels|
    ensures Turns(tunnels, q * |tunnels| + r, tunnel) == q * Turns(tunnels, |tunnels|, tunnel) + Turns(tunnels, r, tunnel)
    decreases q, r
  {
    var n := |tunnels|;
    if r > 0 {
      TurnsOfRounds(tunnels, q, r - 1, tunnel);
      Arithmetic.DivModUnique(q * n + r - 1, n, q, r - 1);
      Arithmetic.DivModUnique(r - 1, n, 0, r - 1);
    } else if q > 0 {
      TurnsOfRounds(tunnels, q - 1, n, tunnel);
      OneRoundMore(q, n, Turns(tunnels, n, tunnel));
    }
  }

  lemma OneRoundMore(q: nat, n: nat, turns: nat)
    requires q > 0
    ensures q * n == (q - 1) * n + n && q * turns == (q - 1) * turns + turns
  {
  }

  /** The same by division. */
  lemma TurnsByRounds(tunnels: seq<SshTunnel>, m: nat, tunnel: SshTunnel)
    requires tunnels != []
    ensures Turns(tunnels, m, tunnel) ==
      m / |tunnels| * Turns(tunnels, |tunnels|, tunnel) + Turns(tunnels, m % |tunnels|, tunnel)
  {
    Arithmetic.Division(m, |tunnels|);
    TurnsOfRounds(tunnels, m / |tunnels|, m % |tunnels|, tunnel);
  }

  lemma {:induction false} TurnsGrow(tunnels: seq<SshTunnel>, r: nat, m: nat, tunnel: SshTunnel)
    requires tunnels != [] && r <= m
    ensures Turns(tunnels, r, tunnel) <= Turns(tunnels, m, tunnel)
  {
    if r < m {
      TurnsGrow(tunnels, r, m - 1, tunnel);
    }
  }

  /**
    For every rule, repeated tunnels or not: with q full rounds and r attempts more, a tunnel
    was tried q times as often as the rule names it, and once for each time it is among
    the first r entries.
   */
  lemma TriedByRounds(trace: seq<Attempt>, tunnels: seq<SshTunnel>, tunnel: SshTunnel)
    requires RoundRobin(trace, tunnels) && tunnels != []
    ensures var n := |tunnels|; var full := |trace| / n * Turns(tunnels, n, tunnel);
      && Tried(trace, tunnel) == full + Turns(tunnels, |trace| % n, tunnel)
      && full <= Tried(trace, tunnel) <= full + Turns(tunnels, n, tunnel)
  {
    TriedIsTurns(trace, tunnels, tunnel);
    TurnsByRounds(tunnels, |trace|, tunnel);
    TurnsGrow(tunnels, |trace| % |tunnels|, |tunnels|, tunnel);
  }

  predicate Close(a: int, b: int) {
    -1 <= a - b <= 1
  }

  /** The first two rounds, as far as 101 attempts reach, come to two tunnels equally often but for one. */
  ghost predicate BalancedRule(tunnels: seq<SshTunnel>, a: SshTunnel, b: SshTunnel)
    requires tunnels != []
  {
    forall m: nat :: m <= MAX_ATTEMPTS && m <= 2 * |tunnels| ==> Close(Turns(tunnels, m, a), Turns(tunnels, m, b))
  }

  /** Two balanced rounds are enough for all that follow. */
  lemma BalanceLasts(tunnels: seq<SshTunnel>, a: SshTunnel, b: SshTunnel, m: nat)
    requires tunnels != [] && BalancedRule(tunnels, a, b) && m <= MAX_ATTEMPTS
    ensures Close(Turns(tunnels, m, a), Turns(tunnels, m, b))
  {
    var n, r := |tunnels|, m % |tunnels|;
    if m > 2 * n {
      assert Close(Turns(tunnels, 2 * n, a), Turns(tunnels, 2 * n, b));
      TwoRounds(tunnels, a);
      TwoRounds(tunnels, b);
      assert Turns(tunnels, n, a) == Turns(tunnels, n, b);
      assert Close(Turns(tunnels, r, a), Turns(tunnels, r, b));
      TurnsByRounds(tunnels, m, a);
      TurnsByRounds(tunnels, m, b);
    }
  }

  lemma TwoRounds(tunnels: seq<SshTunnel>, tunnel: SshTunnel)
    requires tunnels != []
    ensures Turns(tunnels, 2 * |tunnels|, tunnel) == 2 * Turns(tunnels, |tunnels|, tunnel)
  {
    TurnsOfRounds(tunnels, 2, 0, tunnel);
  }

  /** A run whose attempts all fail without being refused: one of each length there is. */
  ghost function FailingRun(tunnels: seq<SshTunnel>, m: nat): (trace: seq<Attempt>)
    requires tunnels != [] && m <= MAX_ATTEMPTS
    ensures |trace| == m && RoundRobin(trace, tunnels)
  {
    if m == 0 then []
    else FailingRun(tunnels, m - 1) + [Attempt(tunnels[(m - 1) % |tunnels|], false, REPLY_SERVER_FAILURE)]
  }

  /** Two tunnels of a rule are tried equally often, but for one attempt, in every run exactly when the rule is balanced. */
  lemma RoundRobinIsFair(tunnels: seq<SshTunnel>, a: SshTunnel, b: SshTunnel)
    requires tunnels != []
    ensures (forall trace :: RoundRobin(trace, tunnels) ==> Close(Tried(trace, a), Tried(trace, b))) <==>
      BalancedRule(tunnels, a, b)
  {
    if BalancedRule(tunnels, a, b) {
      forall trace | RoundRobin(trace, tunnels) ensures Close(Tried(trace, a), Tried(trace, b)) {
        TriedIsTurns(trace, tunnels, a);
        TriedIsTurns(trace, tunnels, b);
        BalanceLasts(tunnels, a, b, |trace|);
      }
    } else {
      var m: nat :| m <= MAX_ATTEMPTS && m <= 2 * |tunnels| && !Close(Turns(tunnels, m, a), Turns(tunnels, m, b));
      var trace := FailingRun(tunnels, m);
      TriedIsTurns(trace, tunnels, a);
      TriedIsTurns(trace, tunnels, b);
    }
  }

  lemma {:induction false} TurnsOfOneEntry(tunnels: seq<SshTunnel>, m: nat, j: nat)
    requires j < |tunnels|
    requires forall a, b :: 0 <= a < b < |tunnels| ==> tunnels[a] != tunnels[b]
    ensures Turns(tunnels, m, tunnels[j]) == Share(m, |tunnels|, j)
  {
    if m > 0 {
      TurnsOfOneEntry(tunnels, m - 1, j);
    }
  }

  /** A rule that names no tunnel twice is balanced. */
  lemma DistinctIsBalanced(tunnels: seq<SshTunnel>, i: nat, j: nat)
    requires i < |tunnels| && j < |tunnels|
    requires forall a, b :: 0 <= a < b < |tunnels| ==> tunnels[a] != tunnels[b]
    ensures BalancedRule(tunnels, tunnels[i], tunnels[j])
  {
    forall m: nat ensures Close(Turns(tunnels, m, tunnels[i]), Turns(tunnels, m, tunnels[j])) {
      TurnsOfOneEntry(tunnels, m, i);
      TurnsOfOneEntry(tunnels, m, j);
      SharesAreClose(m, |tunnels|, i, j);
    }
  }

  /** "via a,a,b": after five failed attempts a was tried four times and b once. */
  lemma RepeatedTunnelIsFavoured(a: SshTunnel, b: SshTunnel)
    requires a != b
    ensures var trace := FailingRun([a, a, b], 5);
      RoundRobin(trace, [a, a, b]) && Tried(trace, a) == 4 && Tried(trace, b) == 1
    ensures !BalancedRule([a, a, b], a, b)
  {
    var tunnels := [a, a, b];
    var trace := FailingRun(tunnels, 5);
    TriedIsTurns(trace, tunnels, a);
    TriedIsTurns(trace, tunnels, b);
    TurnsOfRounds(tunnels, 1, 2, a);
    TurnsOfRounds(tunnels, 1, 2, b);
    assert Turns(tunnels, 1, a) == 1 && Turns(tunnels, 1, b) == 0;
    assert Turns(tunnels, 2, a) == 2 && Turns(tunnels, 2, b) == 0;
    assert Turns(tunnels, 3, a) == 2 && Turns(tunnels, 3, b) == 1;
    assert !Close(Turns(tunnels, 5, a), Turns(tunnels, 5, b));
  }
}
