/**
  Framing and codec laws: the parsers recognise a prefix-free set of wire forms, they
  invert the encoders, and a request relayed through the proxy keeps its bytes.
 */
module SocksCodec {
  import opened Sequences
  import opened Kernel
  import opened HostIds
  import opened Socks

  predicate SupportedAddress(addressType: byte, addr: seq<byte>) {
    || (addressType == ADDRTYPE_IPV4 && |addr| == 4)
    || (addressType == ADDRTYPE_DOMAIN && |addr| < 256)
  }

  predicate ValidCommand(command: byte) {
    CMD_CONNECT <= command <= CMD_UDP_ASSOCIATE
  }

  /** The wire form of a SOCKS5 request, section 4 of RFC 1928. */
  function Wire5(command: byte, addressType: byte, addr: seq<byte>, port: seq<byte>): seq<byte>
    requires SupportedAddress(addressType, addr) && |port| == 2
  {
    [5, command, 0, addressType] + WireAddress(addressType, addr) + port
  }

  lemma ReadBack(a: seq<byte>, t: seq<byte>)
    ensures ReadExactly(a + t, |a|) == Got(a, t)
  {
    assert (a + t)[..|a|] == a && (a + t)[|a|..] == t;
  }

  lemma ReadSplit(s: seq<byte>, n: nat)
    requires ReadExactly(s, n).Got?
    ensures s == ReadExactly(s, n).value + ReadExactly(s, n).rest && |ReadExactly(s, n).value| == n
  {
    assert s == s[..n] + s[n..];
  }

  function WireAddress(addressType: byte, addr: seq<byte>): seq<byte>
    requires SupportedAddress(addressType, addr)
  {
    if addressType == ADDRTYPE_IPV4 then addr else [|addr|] + addr
  }

  lemma ParseOfAddress(addressType: byte, addr: seq<byte>, t: seq<byte>)
    requires SupportedAddress(addressType, addr)
    ensures ParseSocks5Address(WireAddress(addressType, addr) + t, addressType) == Got(addr, t)
  {
    ReadBack(addr, t);
    if addressType == ADDRTYPE_DOMAIN {
      assert [|addr|] + addr + t == [|addr|] + (addr + t);
      ReadBack([|addr|], addr + t);
    }
  }

  lemma AddressOfParse(addressType: byte, s: seq<byte>)
    requires ParseSocks5Address(s, addressType).Got?
    ensures var parsed := ParseSocks5Address(s, addressType);
      SupportedAddress(addressType, parsed.value) && s == WireAddress(addressType, parsed.value) + parsed.rest
  {
    if addressType == ADDRTYPE_IPV4 {
      ReadSplit(s, 4);
    } else {
      ReadSplit(s, 1);
      ReadSplit(s[1..], s[0]);
    }
  }

  lemma ParseOfDestination(addressType: byte, addr: seq<byte>, port: seq<byte>, t: seq<byte>, before: HostId)
    requires SupportedAddress(addressType, addr) && |port| == 2
    ensures ParseSocks5Destination(WireAddress(addressType, addr) + (port + t), addressType, before) ==
            Got(StoreHost(before, addressType, addr, PortOfBytes(port)), t)
  {
    ParseOfAddress(addressType, addr, port + t);
    ReadBack(port, t);
  }

  lemma DestinationOfParse(s: seq<byte>, addressType: byte, before: HostId) returns (addr: seq<byte>, port: seq<byte>)
    requires ParseSocks5Destination(s, addressType, before).Got?
    ensures SupportedAddress(addressType, addr) && |port| == 2
    ensures var parsed := ParseSocks5Destination(s, addressType, before);
      && s == WireAddress(addressType, addr) + (port + parsed.rest)
      && parsed.value == StoreHost(before, addressType, addr, PortOfBytes(port))
  {
    AddressOfParse(addressType, s);
    var parsed := ParseSocks5Address(s, addressType);
    ReadSplit(parsed.rest, 2);
    addr, port := parsed.value, parsed.rest[..2];
  }

  /** Any four bytes that open a request, followed by u. */
  lemma CommandOfHead(command: byte, addressType: byte, u: seq<byte>, before: HostId)
    ensures ParseSocks5Command([5, command, 0, addressType] + u, before) ==
            var parsed := ParseSocks5Destination(u, addressType, before);
            if parsed.Got? && ValidCommand(command) then Got(Request(5, command, addressType, parsed.value), parsed.rest)
            else Refused(parsed.rest)
  {
    ReadBack([5, command, 0, addressType], u);
  }

  lemma ParseOfWire5(command: byte, addressType: byte, addr: seq<byte>, port: seq<byte>, t: seq<byte>, before: HostId)
    requires SupportedAddress(addressType, addr) && |port| == 2 && ValidCommand(command)
    ensures ParseSocks5Command(Wire5(command, addressType, addr, port) + t, before) ==
            Got(Request(5, command, addressType, StoreHost(before, addressType, addr, PortOfBytes(port))), t)
  {
    var u := WireAddress(addressType, addr) + (port + t);
    assert Wire5(command, addressType, addr, port) + t == [5, command, 0, addressType] + u;
    CommandOfHead(command, addressType, u, before);
    ParseOfDestination(addressType, addr, port, t, before);
  }

  lemma HeadOfParse(s: seq<byte>, before: HostId)
    requires ParseSocks5Command(s, before).Got?
    ensures |s| >= 4 && s == [5, s[1], 0, s[3]] + s[4..]
  {
    ReadSplit(s, 4);
  }

  lemma WireOfParse5(s: seq<byte>, before: HostId) returns (addr: seq<byte>, port: seq<byte>)
    requires ParseSocks5Command(s, before).Got?
    ensures var r := ParseSocks5Command(s, before).value;
      && SupportedAddress(r.addressType, addr) && |port| == 2 && ValidCommand(r.command) && r.version == 5
      && s == Wire5(r.command, r.addressType, addr, port) + ParseSocks5Command(s, before).rest
      && r.host == StoreHost(before, r.addressType, addr, PortOfBytes(port))
  {
    var command, addressType, u := s[1], s[3], s[4..];
    HeadOfParse(s, before);
    CommandOfHead(command, addressType, u, before);
    addr, port := DestinationOfParse(u, addressType, before);
  }

  /**
    What is refused, and how far it has been read by then: four bytes of another form, an IPv6
    address behind them, a request whole when only its command is unknown, and nothing
    behind the four bytes of an unknown address type.
   */
  lemma RefusedRequests(version: byte, command: byte, reserved: byte, addressType: byte, addr: seq<byte>, port: seq<byte>, t: seq<byte>, before: HostId)
    ensures version != 5 || reserved != 0 ==>
      ParseSocks5Command([version, command, reserved, addressType] + t, before) == Refused(t)
    ensures |addr| == 16 ==> ParseSocks5Command([5, command, 0, ADDRTYPE_IPV6] + (addr + t), before) == Refused(t)
    ensures addressType != ADDRTYPE_IPV4 && addressType != ADDRTYPE_IPV6 && addressType != ADDRTYPE_DOMAIN ==>
      ParseSocks5Command([5, command, 0, addressType] + t, before) == Refused(t)
    ensures !ValidCommand(command) && SupportedAddress(addressType, addr) && |port| == 2 ==>
      ParseSocks5Command([5, command, 0, addressType] + (WireAddress(addressType, addr) + (port + t)), before) == Refused(t)
  {
    ReadBack([version, command, reserved, addressType], t);
    CommandOfHead(command, addressType, t, before);
    CommandOfHead(command, ADDRTYPE_IPV6, addr + t, before);
    ReadBack(addr, t);
    if !ValidCommand(command) && SupportedAddress(addressType, addr) && |port| == 2 {
      CommandOfHead(command, addressType, WireAddress(addressType, addr) + (port + t), before);
      ParseOfDestination(addressType, addr, port, t, before);
    }
  }

  /** Of SOCKS4 any command but CONNECT is refused at once, and a userid that goes on too long after 1000 bytes of it. */
  lemma RefusedRequests4(command: byte, port: seq<byte>, addr: seq<byte>, userid: seq<byte>, t: seq<byte>, before: HostId)
    ensures command != CMD_CONNECT ==> ParseSocks4Command([command] + t, before) == Refused(t)
    ensures |port| == 2 && |addr| == 4 && |userid| == 1000 && 0 !in userid ==>
      ParseSocks4Command([CMD_CONNECT] + (port + (addr + (userid + t))), before) == Refused(t)
  {
    ReadBack([command], t);
    if |port| == 2 && |addr| == 4 && |userid| == 1000 && 0 !in userid {
      Command4OfHead(port + (addr + (userid + t)), before);
      ParseOfDestination4(port, addr, userid + t, before);
      CStringPrefix(userid, t);
      assert (userid + t)[1000..] == t;
    }
  }

  //// Framing

  function Wire4(command: byte, port: seq<byte>, addr: seq<byte>, userid: seq<byte>): seq<byte> {
    [command] + port + addr + userid + [0]
  }

  lemma ParseOfDestination4(port: seq<byte>, addr: seq<byte>, t: seq<byte>, before: HostId)
    requires |port| == 2 && |addr| == 4
    ensures ParseSocks4Destination(port + (addr + t), before) == Got(StoreHost(before, ADDRTYPE_IPV4, addr, PortOfBytes(port)), t)
  {
    ReadBack(port, addr + t);
    ReadBack(addr, t);
  }

  lemma ParseOfWire4(port: seq<byte>, addr: seq<byte>, userid: seq<byte>, t: seq<byte>, before: HostId)
    requires |port| == 2 && |addr| == 4 && 0 !in userid
    ensures var parsed := ParseSocks4Command(Wire4(CMD_CONNECT, port, addr, userid) + t, before);
      && (parsed.Got? <==> |userid| <= MAX_USERID)
      && (parsed.Got? ==> parsed == Got(Request(4, CMD_CONNECT, ADDRTYPE_IPV4, StoreHost(before, ADDRTYPE_IPV4, addr, PortOfBytes(port))), t))
  {
    var tail := userid + ([0] + t);
    assert Wire4(CMD_CONNECT, port, addr, userid) + t == [CMD_CONNECT] + (port + (addr + tail));
    Command4OfHead(port + (addr + tail), before);
    ParseOfDestination4(port, addr, tail, before);
    CStringPrefix(userid, [0] + t);
    assert CString(tail) == userid;
    assert tail[|userid| + 1..] == t;
  }

  lemma WireOfParse4(s: seq<byte>, before: HostId) returns (port: seq<byte>, addr: seq<byte>, userid: seq<byte>)
    requires ParseSocks4Command(s, before).Got?
    ensures |port| == 2 && |addr| == 4 && 0 !in userid && |userid| <= MAX_USERID
    ensures s == Wire4(CMD_CONNECT, port, addr, userid) + ParseSocks4Command(s, before).rest
    ensures ParseSocks4Command(s, before).value ==
            Request(4, CMD_CONNECT, ADDRTYPE_IPV4, StoreHost(before, ADDRTYPE_IPV4, addr, PortOfBytes(port)))
  {
    var u := s[1..];
    assert s == [CMD_CONNECT] + u;
    Command4OfHead(u, before);
    port, addr := DestinationOfParse4(u, before);
    userid := UseridOfParse(ParseSocks4Destination(u, before).rest);
  }

  lemma Command4OfHead(u: seq<byte>, before: HostId)
    ensures ParseSocks4Command([CMD_CONNECT] + u, before) ==
            var d := ParseSocks4Destination(u, before);
            if d.Refused? then Refused(d.rest)
            else if ParseUserid(d.rest).Refused? then Refused(ParseUserid(d.rest).rest)
            else Got(Request(4, CMD_CONNECT, ADDRTYPE_IPV4, d.value), ParseUserid(d.rest).rest)
  {
    ReadBack([CMD_CONNECT], u);
  }

  lemma UseridOfParse(v: seq<byte>) returns (userid: seq<byte>)
    requires ParseUserid(v).Got?
    ensures 0 !in userid && |userid| <= MAX_USERID && v == userid + [0] + ParseUserid(v).rest
  {
    userid := CString(v);
    assert v == v[..|userid|] + [v[|userid|]] + v[|userid| + 1..];
  }

  lemma DestinationOfParse4(s: seq<byte>, before: HostId) returns (port: seq<byte>, addr: seq<byte>)
    requires ParseSocks4Destination(s, before).Got?
    ensures |port| == 2 && |addr| == 4
    ensures var parsed := ParseSocks4Destination(s, before);
      s == port + addr + parsed.rest && parsed.value == StoreHost(before, ADDRTYPE_IPV4, addr, PortOfBytes(port))
  {
    ReadSplit(s, 2);
    ReadSplit(s[2..], 4);
    port, addr := s[..2], s[2..][..4];
  }

  type Parser<T> = seq<byte> -> Parsed<T>

  /** The bytes a successful parse takes from the stream. */
  function Taken<T>(p: Parser<T>, s: seq<byte>): seq<byte>
    requires p(s).Got? && |p(s).rest| <= |s|
  {
    s[..|s| - |p(s).rest|]
  }

  /** A success at s depends on the bytes it took and on nothing after them: any t may follow. */
  ghost predicate Framed<T>(p: Parser<T>, s: seq<byte>, t: seq<byte>) {
    p(s).Got? ==>
      && |p(s).rest| <= |s|
      && s == Taken(p, s) + p(s).rest
      && p(Taken(p, s) + t) == Got(p(s).value, t)
  }

  lemma FramedBy<T>(p: Parser<T>, s: seq<byte>, t: seq<byte>, w: seq<byte>)
    requires p(s).Got? && s == w + p(s).rest && p(w + t) == Got(p(s).value, t)
    ensures Framed(p, s, t)
  {
    assert Taken(p, s) == w;
  }

  /** Parsing p and then q is framed when both are. */
  lemma SequenceFramed<A, B>(p: Parser<A>, q: Parser<B>, both: Parser<B>, s: seq<byte>, t: seq<byte>)
    requires forall x :: both(x) == if p(x).Got? then q(p(x).rest) else Refused(p(x).rest)
    requires forall x, y :: Framed(p, x, y)
    requires forall x, y :: Framed(q, x, y)
    ensures Framed(both, s, t)
  {
    if both(s).Got? {
      var s1 := p(s).rest;
      assert Framed(q, s1, t) && Framed(p, s, []);
      var v, w := Taken(p, s), Taken(q, s1);
      assert Framed(p, s, w + t);
      assert v + w + t == v + (w + t);
      assert s == (v + w) + q(s1).rest;
      FramedBy(both, s, t, v + w);
    }
  }

  /** A leading byte that selects the parser of what follows keeps framing. */
  lemma SelectionFramed<T>(p4: Parser<T>, p5: Parser<T>, p: Parser<T>, s: seq<byte>, t: seq<byte>)
    requires forall u :: p([4] + u) == p4(u) && p([5] + u) == p5(u)
    requires p(s).Got? ==> s != [] && (s[0] == 4 || s[0] == 5)
    requires forall x, y :: Framed(p4, x, y)
    requires forall x, y :: Framed(p5, x, y)
    ensures Framed(p, s, t)
  {
    if p(s).Got? {
      assert s == [s[0]] + s[1..];
      BehindAByteFramed(if s[0] == 4 then p4 else p5, p, s[0], s[1..], t);
    }
  }

  lemma BehindAByteFramed<T>(q: Parser<T>, p: Parser<T>, b: byte, u: seq<byte>, t: seq<byte>)
    requires forall x :: p([b] + x) == q(x)
    requires Framed(q, u, t) && q(u).Got?
    ensures Framed(p, [b] + u, t)
  {
    var w := Taken(q, u);
    Associative([b], w, t);
    Associative([b], w, q(u).rest);
    FramedBy(p, [b] + u, t, [b] + w);
  }

  lemma AuthMethodsFramed(s: seq<byte>, t: seq<byte>)
    ensures Framed(ParseAuthMethods, s, t)
  {
    if ParseAuthMethods(s).Got? {
      ReadSplit(s, 1);
      ReadSplit(s[1..], s[0]);
      var n, methods := s[..1], s[1..][..s[0]];
      assert n + methods + t == n + (methods + t);
      ReadBack(n, methods + t);
      ReadBack(methods, t);
      FramedBy(ParseAuthMethods, s, t, n + methods);
    }
  }

  lemma Socks5CommandFramed(s: seq<byte>, t: seq<byte>, before: HostId)
    ensures Framed(s => ParseSocks5Command(s, before), s, t)
  {
    if ParseSocks5Command(s, before).Got? {
      var addr, port := WireOfParse5(s, before);
      var r := ParseSocks5Command(s, before).value;
      ParseOfWire5(r.command, r.addressType, addr, port, t, before);
      FramedBy(s => ParseSocks5Command(s, before), s, t, Wire5(r.command, r.addressType, addr, port));
    }
  }

  lemma Socks4CommandFramed(s: seq<byte>, t: seq<byte>, before: HostId)
    ensures Framed(s => ParseSocks4Command(s, before), s, t)
  {
    if ParseSocks4Command(s, before).Got? {
      var port, addr, userid := WireOfParse4(s, before);
      ParseOfWire4(port, addr, userid, t, before);
      FramedBy(s => ParseSocks4Command(s, before), s, t, Wire4(CMD_CONNECT, port, addr, userid));
    }
  }

  lemma Socks5StagesFramed(s: seq<byte>, t: seq<byte>, before: HostId)
    ensures Framed(s => ParseSocks5Stages(s, before), s, t)
  {
    var command: Parser<Request> := s => ParseSocks5Command(s, before);
    var stages: Parser<Request> := s => ParseSocks5Stages(s, before);
    forall x, y ensures Framed(ParseAuthMethods, x, y) {
      AuthMethodsFramed(x, y);
    }
    forall x, y ensures Framed(command, x, y) {
      Socks5CommandFramed(x, y, before);
    }
    SequenceFramed(ParseAuthMethods, command, stages, s, t);
  }

  /** The version byte selects the parser of what follows. */
  lemma HandshakeOfVersion(version: byte, u: seq<byte>, before: HostId)
    requires version == 4 || version == 5
    ensures ParseHandshake([version] + u, before) ==
            if version == 4 then ParseSocks4Command(u, before) else ParseSocks5Stages(u, before)
  {
    ReadBack([version], u);
  }

  function Handshake(before: HostId): Parser<Request> {
    s => ParseHandshake(s, before)
  }

  /** A successful handshake of either version takes exactly its own bytes from the stream. */
  lemma HandshakeFramed(s: seq<byte>, t: seq<byte>, before: HostId)
    ensures Framed(Handshake(before), s, t)
  {
    var p4: Parser<Request> := s => ParseSocks4Command(s, before);
    var p5: Parser<Request> := s => ParseSocks5Stages(s, before);
    forall u ensures Handshake(before)([4] + u) == p4(u) && Handshake(before)([5] + u) == p5(u) {
      HandshakeOfVersion(4, u, before);
      HandshakeOfVersion(5, u, before);
    }
    forall x, y ensures Framed(p4, x, y) {
      Socks4CommandFramed(x, y, before);
    }
    forall x, y ensures Framed(p5, x, y) {
      Socks5StagesFramed(x, y, before);
    }
    SelectionFramed(p4, p5, Handshake(before), s, t);
  }

  /** No proper prefix of the bytes taken is already a handshake: the set of handshakes is prefix-free. */
  lemma HandshakeIsPrefixFree(s: seq<byte>, k: nat, before: HostId)
    requires var p := Handshake(before); p(s).Got? && |p(s).rest| <= |s| && k < |Taken(p, s)|
    ensures ParseHandshake(s[..k], before).Refused?
  {
    var p := Handshake(before);
    forall x, y ensures Framed(p, x, y) {
      HandshakeFramed(x, y, before);
    }
    if p(s[..k]).Got? {
      EarlyTakenIsTaken(p, s, k);
    }
  }

  /** What is accepted of a prefix is accepted, and no more, of the whole: so it is for any framed parser. */
  lemma EarlyTakenIsTaken<T>(p: Parser<T>, s: seq<byte>, k: nat)
    requires k <= |s| && p(s[..k]).Got?
    requires forall x, y :: Framed(p, x, y)
    ensures p(s).Got? && |p(s).rest| <= |s| && |Taken(p, s)| <= k
  {
    assert Framed(p, s[..k], []);
    var early := Taken(p, s[..k]);
    assert Framed(p, s[..k], s[|early|..]);
    assert early + s[|early|..] == s;
  }

  /** A SOCKS4 CONNECT is accepted exactly when its userid has at most 999 bytes, and then framed exactly. */
  lemma Socks4Framing(ip: nat, port: int, userid: seq<byte>, payload: seq<byte>)
    requires ip < 0x1_0000_0000 && 0 <= port < 0x1_0000 && 0 !in userid
    ensures var parsed := ParseHandshake(EncodeSocks4(ip, port, userid) + payload, EMPTY_HOST);
      && (parsed.Got? <==> |userid| <= MAX_USERID)
      && (parsed.Got? ==>
            parsed == Got(Request(4, CMD_CONNECT, ADDRTYPE_IPV4, HostId([], Inet(ip, port), port)), payload))
  {
    var wire := Wire4(CMD_CONNECT, PortBytes(port), BytesOfIp(ip), userid);
    assert (EncodeSocks4(ip, port, userid) + payload)[1..] == wire + payload;
    ParseOfWire4(PortBytes(port), BytesOfIp(ip), userid, payload, EMPTY_HOST);
    IpRoundTrip(ip, BytesOfIp(ip));
    PortRoundTrip(port, PortBytes(port));
  }

  //// Round trips

  /** A host that the client can be asked to send. */
  predicate Sendable(addressType: byte, host: HostId) {
    && 0 <= host.port < 0x1_0000
    && (addressType == ADDRTYPE_IPV4 || addressType == ADDRTYPE_DOMAIN)
    && (addressType == ADDRTYPE_IPV4 ==> host.addr.Inet? && host.addr.ip < 0x1_0000_0000)
    && (addressType == ADDRTYPE_DOMAIN ==> 0 !in host.name && |host.name| < MAX_DNS)
  }

  /** The part of a host that travels in a request of the given address type. */
  function Transmitted(addressType: byte, host: HostId): HostId {
    if addressType == ADDRTYPE_IPV4 && host.addr.Inet? then HostId([], Inet(host.addr.ip, Htons(host.port)), host.port)
    else HostId(host.name, Unspecified, host.port)
  }

  lemma EncodeIsWire(command: byte, addressType: byte, host: HostId)
    requires Sendable(addressType, host) && |host.name| < 256
    ensures addressType == ADDRTYPE_IPV4 ==>
      EncodeRequest(command, addressType, host) == Wire5(command, addressType, BytesOfIp(host.addr.ip), PortBytes(host.port))
    ensures addressType == ADDRTYPE_DOMAIN ==>
      EncodeRequest(command, addressType, host) == Wire5(command, addressType, host.name, PortBytes(host.port))
  {
  }

  function Decoded(command: byte, addressType: byte, host: HostId, payload: seq<byte>): Parsed<Request> {
    Got(Request(5, command, addressType, Transmitted(addressType, host)), payload)
  }

  lemma AddressRoundTrip(command: byte, host: HostId, payload: seq<byte>)
    requires ValidCommand(command) && Sendable(ADDRTYPE_IPV4, host)
    ensures ParseSocks5Command(EncodeRequest(command, ADDRTYPE_IPV4, host) + payload, EMPTY_HOST) ==
            Decoded(command, ADDRTYPE_IPV4, host, payload)
  {
    EncodeIsWire(command, ADDRTYPE_IPV4, host.(name := []));
    ParseOfWire5(command, ADDRTYPE_IPV4, BytesOfIp(host.addr.ip), PortBytes(host.port), payload, EMPTY_HOST);
    IpRoundTrip(host.addr.ip, BytesOfIp(host.addr.ip));
    PortRoundTrip(host.port, PortBytes(host.port));
  }

  lemma NameRoundTrip(command: byte, host: HostId, payload: seq<byte>)
    requires ValidCommand(command) && Sendable(ADDRTYPE_DOMAIN, host) && |host.name| <= 255
    ensures ParseSocks5Command(EncodeRequest(command, ADDRTYPE_DOMAIN, host) + payload, EMPTY_HOST) ==
            Decoded(command, ADDRTYPE_DOMAIN, host, payload)
  {
    EncodeIsWire(command, ADDRTYPE_DOMAIN, host);
    ParseOfWire5(command, ADDRTYPE_DOMAIN, host.name, PortBytes(host.port), payload, EMPTY_HOST);
    PortRoundTrip(host.port, PortBytes(host.port));
    CStringWhole(host.name);
    assert host.name[..|host.name|] == host.name;
  }

  lemma LongNameWire(command: byte, host: HostId, payload: seq<byte>) returns (u: seq<byte>)
    ensures EncodeRequest(command, ADDRTYPE_DOMAIN, host) + payload == [5, command, 0, ADDRTYPE_DOMAIN] + u
    ensures u != [] && u[0] == |host.name| % 256
  {
    var head, length: seq<byte>, port := [5, command, 0, ADDRTYPE_DOMAIN], [|host.name| % 256], PortBytes(host.port);
    u := length + (host.name + port + payload);
    Regroup(head, length + host.name, port, payload);
    Regroup(length, host.name, port, payload);
  }

  /** A decoded name is at most as long as its length byte says. */
  lemma NameOfLength(u: seq<byte>)
    requires ParseSocks5Destination(u, ADDRTYPE_DOMAIN, EMPTY_HOST).Got?
    ensures u != [] && |ParseSocks5Destination(u, ADDRTYPE_DOMAIN, EMPTY_HOST).value.name| <= u[0]
  {
    var addr, port := DestinationOfParse(u, ADDRTYPE_DOMAIN, EMPTY_HOST);
    assert u[0] == |addr|;
  }

  /** If a stream is accepted at all, then as one with a name at least 256 bytes shorter than n. */
  predicate ShorterNameRead(stream: seq<byte>, n: nat) {
    var parsed := ParseSocks5Command(stream, EMPTY_HOST);
    parsed.Got? ==> |parsed.value.host.name| <= n - 256
  }

  lemma WrappedLength(command: byte, u: seq<byte>, n: nat)
    requires u != [] && u[0] == n % 256 && n > 255
    ensures ShorterNameRead([5, command, 0, ADDRTYPE_DOMAIN] + u, n)
  {
    CommandOfHead(command, ADDRTYPE_DOMAIN, u, EMPTY_HOST);
    if ParseSocks5Destination(u, ADDRTYPE_DOMAIN, EMPTY_HOST).Got? {
      NameOfLength(u);
    }
  }

  /** A longer name wraps its length byte around, and the server reads another, shorter one. */
  lemma LongNameIsMisread(command: byte, host: HostId, payload: seq<byte>)
    requires Sendable(ADDRTYPE_DOMAIN, host) && |host.name| > 255
    ensures ShorterNameRead(EncodeRequest(command, ADDRTYPE_DOMAIN, host) + payload, |host.name|)
  {
    var u := LongNameWire(command, host, payload);
    WrappedLength(command, u, |host.name|);
  }

  /**
    What the client sends, the server decodes to the same request, leaving the payload:
    for addresses always, and for names exactly when they fit the one-byte length.
   */
  lemma RequestRoundTrip(command: byte, addressType: byte, host: HostId, payload: seq<byte>)
    requires ValidCommand(command) && Sendable(addressType, host)
    ensures ParseSocks5Command(EncodeRequest(command, addressType, host) + payload, EMPTY_HOST) ==
            Decoded(command, addressType, host, payload)
            <==> (addressType == ADDRTYPE_DOMAIN ==> |host.name| <= 255)
  {
    if addressType == ADDRTYPE_IPV4 {
      AddressRoundTrip(command, host, payload);
    } else if |host.name| <= 255 {
      NameRoundTrip(command, host, payload);
    } else {
      LongNameIsMisread(command, host, payload);
    }
  }

  /** What a SOCKS5 client sends before its request: the version, and the methods it offers. */
  function Greeting(methods: seq<byte>): seq<byte>
    requires |methods| < 256
  {
    [5, |methods|] + methods
  }

  /** Of a list of methods exactly the counted ones are read, whatever follows. */
  lemma MethodsAreRead(methods: seq<byte>, t: seq<byte>)
    requires |methods| < 256
    ensures ParseAuthMethods([|methods|] + methods + t) == Got(methods, t)
  {
    Associative([|methods|], methods, t);
    ReadBack([|methods|], methods + t);
    ReadBack(methods, t);
  }

  /** However many methods are offered, what stands behind them is read as the request, and "none required" is answered. */
  lemma GreetingIsRead(methods: seq<byte>, t: seq<byte>, before: HostId)
    requires |methods| < 256
    ensures ParseHandshake(Greeting(methods) + t, before) == ParseSocks5Command(t, before)
    ensures HandshakeReply(Greeting(methods) + t) == [5, AUTH_NONE_REQUIRED]
  {
    var u := [|methods|] + methods + t;
    assert Greeting(methods) + t == [5] + u && ([5] + u)[1..] == u;
    HandshakeOfVersion(5, u, before);
    MethodsAreRead(methods, t);
  }

  /** Another version is refused behind its byte, with the answer that no method is acceptable. */
  lemma OtherVersionIsRefused(version: byte, t: seq<byte>, before: HostId)
    requires version != 4 && version != 5
    ensures ParseHandshake([version] + t, before) == Refused(t)
    ensures HandshakeReply([version] + t) == [5, 255]
  {
    ReadBack([version], t);
  }

  /**
    The whole handshake of a SOCKS5 client that offers any methods: the server decodes the
    request and leaves the payload, exactly when the name fits its length byte.
   */
  lemma HandshakeRoundTrip(methods: seq<byte>, command: byte, addressType: byte, host: HostId, payload: seq<byte>)
    requires |methods| < 256 && ValidCommand(command) && Sendable(addressType, host)
    ensures ParseHandshake(Greeting(methods) + (EncodeRequest(command, addressType, host) + payload), EMPTY_HOST) ==
            Decoded(command, addressType, host, payload)
            <==> (addressType == ADDRTYPE_DOMAIN ==> |host.name| <= 255)
  {
    GreetingIsRead(methods, EncodeRequest(command, addressType, host) + payload, EMPTY_HOST);
    RequestRoundTrip(command, addressType, host, payload);
  }

  /** The part of a request that is the name, between the length byte and the port. */
  function WireName(wire: seq<byte>): seq<byte>
    requires 7 <= |wire|
  {
    wire[5..|wire| - 2]
  }

  lemma EncodeOfStored(command: byte, addressType: byte, addr: seq<byte>, port: seq<byte>)
    requires SupportedAddress(addressType, addr) && |port| == 2
    ensures var host := StoreHost(EMPTY_HOST, addressType, addr, PortOfBytes(port));
      && Sendable(addressType, host)
      && (EncodeRequest(command, addressType, host) == Wire5(command, addressType, addr, port) <==>
          (addressType == ADDRTYPE_DOMAIN ==> 0 !in addr))
  {
    PortRoundTrip(0, port);
    var host := StoreHost(EMPTY_HOST, addressType, addr, PortOfBytes(port));
    if addressType == ADDRTYPE_IPV4 {
      IpRoundTrip(0, addr);
      EncodeIsWire(command, addressType, host);
    } else if 0 !in addr {
      CStringWhole(addr);
      assert addr[..|addr|] == addr;
      EncodeIsWire(command, addressType, host);
    } else {
      assert |EncodeRequest(command, addressType, host)| < |Wire5(command, addressType, addr, port)|;
    }
  }

  lemma WireHoldsName(command: byte, addr: seq<byte>, port: seq<byte>)
    requires SupportedAddress(ADDRTYPE_DOMAIN, addr) && |port| == 2
    ensures var wire := Wire5(command, ADDRTYPE_DOMAIN, addr, port); |wire| >= 7 && WireName(wire) == addr
  {
  }

  /**
    Decoding a SOCKS5 request and encoding it again gives the original bytes, exactly
    when the request does not carry a name with a NUL in it.
   */
  lemma RelayTransparency(s: seq<byte>)
    requires ParseSocks5Command(s, EMPTY_HOST).Got?
    ensures var parsed := ParseSocks5Command(s, EMPTY_HOST);
      var r := parsed.value;
      && |s| - |parsed.rest| >= 7
      && Sendable(r.addressType, r.host)
      && var wire := s[..|s| - |parsed.rest|];
      EncodeRequest(r.command, r.addressType, r.host) == wire <==>
      (r.addressType == ADDRTYPE_DOMAIN ==> 0 !in WireName(wire))
  {
    var r := ParseSocks5Command(s, EMPTY_HOST).value;
    var addr, port := WireOfParse5(s, EMPTY_HOST);
    var wire := Wire5(r.command, r.addressType, addr, port);
    assert s[..|wire|] == wire;
    EncodeOfStored(r.command, r.addressType, addr, port);
    if r.addressType == ADDRTYPE_DOMAIN {
      WireHoldsName(r.command, addr, port);
    }
  }

  /** A SOCKS4 CONNECT is relayed as the SOCKS5 IPv4 CONNECT with the same port and address bytes. */
  lemma Socks4BecomesSocks5(s: seq<byte>)
    requires ParseSocks4Command(s, EMPTY_HOST).Got?
    ensures var r := ParseSocks4Command(s, EMPTY_HOST).value;
      && |s| >= 7 && r.addressType == ADDRTYPE_IPV4 && r.host.addr.Inet?
      && EncodeRequest(r.command, r.addressType, r.host) == [5, CMD_CONNECT, 0, ADDRTYPE_IPV4] + s[3..7] + s[1..3]
  {
    var port, addr, userid := WireOfParse4(s, EMPTY_HOST);
    assert s[1..3] == port && s[3..7] == addr;
    PortRoundTrip(0, port);
    IpRoundTrip(0, addr);
  }

  /** What a SOCKS4 client reads: eight bytes, a zero first, and then 90 for granted or 91 to 93 for one of the refusals. */
  function ReadSocks4Reply(s: seq<byte>): Parsed<bool> {
    var (reply, s) :- ReadExactly(s, 8);
    if reply[0] == 0 && 90 <= reply[1] <= 93 then Got(reply[1] == 90, s) else Refused(s)
  }

  /** So it takes exactly the reply, and concludes that it was granted just when the status is 0. */
  lemma Socks4ReplyIsRead(status: byte, t: seq<byte>)
    ensures ReadSocks4Reply(EncodeSocks4Reply(status) + t) == Got(status == REPLY_SUCCEED, t)
  {
    ReadBack(EncodeSocks4Reply(status), t);
  }
}
