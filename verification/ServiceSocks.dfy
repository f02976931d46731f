/** The server side of the handshake, reading from a socket and filling in the connection. */
module ServiceSocks {
  import opened Kernel
  import opened SafeBlockingReadWrite
  import opened HostIds
  import opened ClientConnections
  import opened Socks
  import opened SocksCodec

  const SOCKS_VERSION_ERROR := -1

  /**
    The run of a reader agrees with a parser: whenever it succeeds the parser does, with
    the same bytes left; and without a fault it succeeds exactly when the parser does
    and leaves the same bytes, however the stream was split.
   */
  ghost predicate Agrees<T>(ok: bool, rest: seq<byte>, parsed: Parsed<T>, faultless: bool) {
    && (ok ==> parsed.Got? && rest == parsed.rest)
    && (faultless ==> ok == parsed.Got? && rest == parsed.rest)
  }

  ghost predicate FaultlessSocket(fd: Socket)
    reads fd
  {
    Faultless(fd.readScript) && Faultless(fd.writeScript)
  }

  ghost function StoredRequest(con: ClientConnection): Request
    requires con.socksVersion == 4 || con.socksVersion == 5
    reads con
  {
    Request(con.socksVersion, con.socksCommand, con.socksAddressType, con.dstHost)
  }

  /** The copies that keep the request as the client made it. */
  ghost predicate OriginalsKept(con: ClientConnection)
    reads con
  {
    && con.socksCommandOriginal == con.socksCommand
    && con.socksAddressTypeOriginal == con.socksAddressType
    && con.dstHostOriginal == con.dstHost
  }

  /** What was sent grew by some first part of a reply: all of it, unless a write failed. */
  predicate SentSome(before: seq<byte>, now: seq<byte>, reply: seq<byte>) {
    before <= now <= before + reply
  }

  method SocksGetClientVersion(fd: Socket) returns (version: int)
    modifies fd
    ensures version == 4 || version == 5 || version == SOCKS_VERSION_ERROR
    ensures Agrees(version >= 0, fd.incoming, ParseVersion(old(fd.incoming)), old(FaultlessSocket(fd)))
    ensures version >= 0 ==> ParseVersion(old(fd.incoming)).value == version && fd.sent == old(fd.sent)
    ensures old(FaultlessSocket(fd)) ==> FaultlessSocket(fd)
    ensures old(FaultlessSocket(fd)) && version < 0 ==> fd.sent == old(fd.sent) + HandshakeReply(old(fd.incoming))
    ensures SentSome(old(fd.sent), fd.sent, HandshakeReply(old(fd.incoming)))
  {
    var buf := new byte[10];
    ghost var taken, done;
    var rc;
    rc, taken := SbReadLen(fd, buf, 0, 1);
    if rc != 1 {
      return SOCKS_VERSION_ERROR;
    }
    version := buf[0];
    if version != 4 && version != 5 {
      buf[0], buf[1] := 5, AUTH_NO_ACCEPTABLE_METHODS;
      rc, done := SbWriteLen(fd, buf, 2);
      assert buf[..2] == [5, AUTH_NO_ACCEPTABLE_METHODS];
      return SOCKS_VERSION_ERROR;
    }
  }

  method Socks5NegotiateAuth(fd: Socket) returns (ok: bool)
    modifies fd
    ensures Agrees(ok, fd.incoming, ParseAuthMethods(old(fd.incoming)), old(FaultlessSocket(fd)))
    ensures ok ==> fd.sent == old(fd.sent) + [5, AUTH_NONE_REQUIRED]
    ensures old(FaultlessSocket(fd)) ==> FaultlessSocket(fd) && (!ok ==> fd.sent == old(fd.sent))
    ensures SentSome(old(fd.sent), fd.sent, if ParseAuthMethods(old(fd.incoming)).Got? then [5, AUTH_NONE_REQUIRED] else [])
  {
    var buf := new byte[300];
    ghost var taken, done;
    var rc;
    rc, taken := SbReadLen(fd, buf, 0, 1);
    if rc != 1 {
      return false;
    }
    var count := buf[0];
    rc, taken := SbReadLen(fd, buf, 0, count);
    if rc != count {
      return false;
    }
    buf[0], buf[1] := 5, AUTH_NONE_REQUIRED;
    assert buf[..2] == [5, AUTH_NONE_REQUIRED];
    rc, done := SbWriteLen(fd, buf, 2);
    ok := rc == 2;
  }

  /** Stores a parsed request and the copies routing leaves alone. */
  method StoreRequest(con: ClientConnection, version: byte, command: byte, addressType: byte, host: HostId)
    modifies con`socksVersion, con`socksCommand, con`socksCommandOriginal
    modifies con`socksAddressType, con`socksAddressTypeOriginal, con`dstHost, con`dstHostOriginal
    ensures con.socksVersion == version && con.socksCommand == command
    ensures con.socksAddressType == addressType && con.dstHost == host && OriginalsKept(con)
  {
    con.socksVersion := version;
    con.socksCommand, con.socksCommandOriginal := command, command;
    con.socksAddressType, con.socksAddressTypeOriginal := addressType, addressType;
    con.dstHost := host;
    con.dstHostOriginal := con.dstHost;
  }

  /** Reads the address of a SOCKS5 request into addr; a negative length reports an error. */
  method ReadSocks5Address(fd: Socket, addr: array<byte>, addressType: byte) returns (length: int)
    requires addr.Length == 4096
    modifies fd`incoming, fd`readScript, addr
    ensures Agrees(length >= 0, fd.incoming, ParseSocks5Address(old(fd.incoming), addressType), old(FaultlessSocket(fd)))
    ensures length >= 0 ==> length < 256 && addr[..length] == ParseSocks5Address(old(fd.incoming), addressType).value
    ensures addressType == ADDRTYPE_IPV4 && length >= 0 ==> length == 4
    ensures old(FaultlessSocket(fd)) ==> FaultlessSocket(fd)
  {
    ghost var taken;
    var rc;
    if addressType == ADDRTYPE_IPV4 {
      rc, taken := SbReadLen(fd, addr, 0, 4);
      return if rc == 4 then 4 else -1;
    } else if addressType == ADDRTYPE_IPV6 {
      rc, taken := SbReadLen(fd, addr, 0, 16);
      return -1;
    } else if addressType == ADDRTYPE_DOMAIN {
      var buf := new byte[1];
      rc, taken := SbReadLen(fd, buf, 0, 1);
      if rc != 1 {
        return -1;
      }
      assert taken == buf[..1] == [buf[0]];
      rc, taken := SbReadLen(fd, addr, 0, buf[0]);
      if rc != buf[0] {
        return -1;
      }
      assert taken == addr[..buf[0]];
      return buf[0];
    }
    return -1;
  }

  /** Reads the address and the port of a SOCKS5 request. */
  method ReadSocks5Destination(fd: Socket, addressType: byte, before: HostId) returns (ok: bool, host: HostId)
    modifies fd`incoming, fd`readScript
    ensures Agrees(ok, fd.incoming, ParseSocks5Destination(old(fd.incoming), addressType, before), old(FaultlessSocket(fd)))
    ensures ok ==> host == ParseSocks5Destination(old(fd.incoming), addressType, before).value
    ensures old(FaultlessSocket(fd)) ==> FaultlessSocket(fd)
  {
    var buf := new byte[2];
    var addr := new byte[4096];
    var length := ReadSocks5Address(fd, addr, addressType);
    if length < 0 {
      return false, before;
    }
    ghost var taken;
    var rc;
    rc, taken := SbReadLen(fd, buf, 0, 2);
    if rc != 2 {
      return false, before;
    }
    assert taken == buf[..];
    var port := PortOfBytes(buf[..]);
    ok := true;
    host := if addressType == ADDRTYPE_IPV4 then before.SetAddrInFromByteArray(addr[..4], port)
            else before.SetName(addr[..length]).SetPort(port);
  }

  method Socks5GetCommand(con: ClientConnection, fd: Socket) returns (rc: int)
    modifies fd`incoming, fd`readScript
    modifies con`socksVersion, con`socksCommand, con`socksCommandOriginal
    modifies con`socksAddressType, con`socksAddressTypeOriginal, con`dstHost, con`dstHostOriginal
    ensures var parsed := ParseSocks5Command(old(fd.incoming), old(con.dstHost));
      && Agrees(rc != CMD_ERROR, fd.incoming, parsed, old(FaultlessSocket(fd)))
      && (rc != CMD_ERROR ==>
            con.socksVersion == 5 && StoredRequest(con) == parsed.value && OriginalsKept(con) && rc == con.socksCommand)
    ensures old(FaultlessSocket(fd)) ==> FaultlessSocket(fd)
  {
    var buf := new byte[300];
    ghost var taken;
    rc, taken := SbReadLen(fd, buf, 0, 4);
    if rc != 4 {
      return CMD_ERROR;
    }
    var version, command, rsv, addressType := buf[0], buf[1], buf[2], buf[3];
    ghost var afterHead := fd.incoming;
    assert taken == buf[..4] == [version, command, rsv, addressType];
    assert ReadExactly(old(fd.incoming), 4) == Got([version, command, rsv, addressType], afterHead);
    if version != 5 || rsv != 0 {
      return CMD_ERROR;
    }
    var known, host := ReadSocks5Destination(fd, addressType, con.dstHost);
    if !known {
      return CMD_ERROR;
    }
    StoreRequest(con, version, command, addressType, host);
    if con.socksCommand == CMD_CONNECT {
      return CMD_CONNECT;
    } else if con.socksCommand == CMD_BIND {
      return CMD_BIND;
    } else if con.socksCommand == CMD_UDP_ASSOCIATE {
      return CMD_UDP_ASSOCIATE;
    }
    return CMD_ERROR;
  }

  /** Reads the port and the address of a SOCKS4 request. */
  method ReadSocks4Destination(fd: Socket, before: HostId) returns (ok: bool, host: HostId)
    modifies fd`incoming, fd`readScript
    ensures Agrees(ok, fd.incoming, ParseSocks4Destination(old(fd.incoming), before), old(FaultlessSocket(fd)))
    ensures ok ==> host == ParseSocks4Destination(old(fd.incoming), before).value
    ensures old(FaultlessSocket(fd)) ==> FaultlessSocket(fd)
  {
    var buf := new byte[2];
    var ipv4 := new byte[4];
    ghost var taken;
    var rc;
    rc, taken := SbReadLen(fd, buf, 0, 2);
    if rc != 2 {
      return false, before;
    }
    assert taken == buf[..];
    var port := PortOfBytes(buf[..]);
    rc, taken := SbReadLen(fd, ipv4, 0, 4);
    if rc != 4 {
      return false, before;
    }
    assert taken == ipv4[..];
    return true, before.SetAddrInFromByteArray(ipv4[..], port);
  }

  method Socks4GetCommand(con: ClientConnection, fd: Socket) returns (rc: int)
    modifies fd`incoming, fd`readScript
    modifies con`socksVersion, con`socksCommand, con`socksCommandOriginal
    modifies con`socksAddressType, con`socksAddressTypeOriginal, con`dstHost, con`dstHostOriginal
    ensures var parsed := ParseSocks4Command(old(fd.incoming), old(con.dstHost));
      && Agrees(rc != CMD_ERROR, fd.incoming, parsed, old(FaultlessSocket(fd)))
      && (rc != CMD_ERROR ==>
            con.socksVersion == 4 && StoredRequest(con) == parsed.value && OriginalsKept(con) && rc == con.socksCommand)
    ensures old(FaultlessSocket(fd)) ==> FaultlessSocket(fd)
  {
    var buf := new byte[300];
    ghost var taken;
    rc, taken := SbReadLen(fd, buf, 0, 1);
    if rc != 1 {
      return CMD_ERROR;
    }
    var command := buf[0];
    if command != CMD_CONNECT {
      return CMD_ERROR;
    }
    var known, host := ReadSocks4Destination(fd, con.dstHost);
    if !known {
      return CMD_ERROR;
    }
    StoreRequest(con, 4, command, ADDRTYPE_IPV4, host);
    var ok := SkipUserid(fd);
    if !ok {
      return CMD_ERROR;
    }
    return CMD_CONNECT;
  }

  /** Reads the userid one byte at a time, giving up when the countdown reaches zero. */
  method SkipUserid(fd: Socket) returns (ok: bool)
    modifies fd`incoming, fd`readScript
    ensures Agrees(ok, fd.incoming, ParseUserid(old(fd.incoming)), old(FaultlessSocket(fd)))
    ensures old(FaultlessSocket(fd)) ==> FaultlessSocket(fd)
  {
    var buf := new byte[1];
    ghost var stream := fd.incoming;
    ghost var k := 0;
    var max, again := 1000, true;
    while again
      invariant 0 <= k <= |stream| && fd.incoming == stream[k..]
      invariant again ==> k == 1000 - max < 1000 && 0 !in stream[..k]
      invariant !again && max > 0 ==> 0 < k <= 1000 && 0 !in stream[..k - 1] && stream[k - 1] == 0
      invariant !again && max <= 0 ==> k == 1000 && 0 !in stream[..k]
      invariant old(FaultlessSocket(fd)) ==> FaultlessSocket(fd)
      decreases max, again
    {
      ghost var taken;
      var rc;
      rc, taken := SbReadLen(fd, buf, 0, 1);
      if rc != 1 {
        UseridSplit(stream, k);
        return false;
      }
      k := k + 1;
      again := false;
      if buf[0] != 0 {
        max := max - 1;
        again := max > 0;
      }
    }
    UseridSplit(stream, if max > 0 then k - 1 else k);
    ok := max > 0;
  }

  /** A NUL-free stretch of the stream that ends at its end, at 1000 bytes or at a NUL. */
  lemma UseridSplit(stream: seq<byte>, k: nat)
    requires k <= |stream| && 0 !in stream[..k]
    ensures k <= |CString(stream)|
    ensures k < |stream| && stream[k] == 0 ==> |CString(stream)| == k
  {
    CStringPrefix(stream[..k], stream[k..]);
    assert stream[..k] + stream[k..] == stream;
  }

  /** What a SOCKS5 client wants and sends: the methods it offers, its request, and its payload. */
  datatype Session = Session(methods: seq<byte>, command: byte, addressType: byte, host: HostId, payload: seq<byte>)

  predicate ClientSends(stream: seq<byte>, x: Session) {
    && |x.methods| < 256 && ValidCommand(x.command) && Sendable(x.addressType, x.host)
    && (x.addressType == ADDRTYPE_DOMAIN ==> |x.host.name| <= 255)
    && stream == Greeting(x.methods) + (EncodeRequest(x.command, x.addressType, x.host) + x.payload)
  }

  /**
    The stages of the connection handler up to the request. Success, the stored request
    and the position in the stream depend only on the bytes received. Of a SOCKS5 client,
    whatever methods it offers, the request is stored and the payload left.
   */
  method Handshake(con: ClientConnection, fd: Socket) returns (ok: bool)
    requires con.fdIn == fd
    modifies fd
    modifies con`socksVersion, con`socksCommand, con`socksCommandOriginal
    modifies con`socksAddressType, con`socksAddressTypeOriginal, con`dstHost, con`dstHostOriginal
    ensures var parsed := ParseHandshake(old(fd.incoming), old(con.dstHost).SetPort(0));
      && Agrees(ok, fd.incoming, parsed, old(FaultlessSocket(fd)))
      && (ok ==> (con.socksVersion == 4 || con.socksVersion == 5) && StoredRequest(con) == parsed.value && OriginalsKept(con))
    ensures ok || old(FaultlessSocket(fd)) ==> fd.sent == old(fd.sent) + HandshakeReply(old(fd.incoming))
    ensures SentSome(old(fd.sent), fd.sent, HandshakeReply(old(fd.incoming)))
    ensures old(FaultlessSocket(fd)) ==> FaultlessSocket(fd)
    ensures old(FaultlessSocket(fd)) && old(con.dstHost) == EMPTY_HOST ==> forall x ::
      ClientSends(old(fd.incoming), x) ==>
        ok && fd.incoming == x.payload && StoredRequest(con) == Request(5, x.command, x.addressType, Transmitted(x.addressType, x.host))
  {
    ghost var stream := fd.incoming;
    forall x | ClientSends(stream, x) ensures ParseHandshake(stream, EMPTY_HOST) == Decoded(x.command, x.addressType, x.host, x.payload) {
      HandshakeRoundTrip(x.methods, x.command, x.addressType, x.host, x.payload);
    }
    con.socksVersion := SOCKS_VERSION_ERROR;
    con.socksCommand, con.socksCommandOriginal := CMD_ERROR, CMD_ERROR;
    con.dstHost := con.dstHost.SetPort(0);
    ok := true;
    var socksVersion := SocksGetClientVersion(fd);
    con.socksVersion := socksVersion;
    if con.socksVersion == SOCKS_VERSION_ERROR {
      ok := false;
    }
    if ok && con.socksVersion == 5 {
      ok := Socks5NegotiateAuth(fd);
    }
    if ok {
      var commandType;
      if con.socksVersion == 4 {
        commandType := Socks4GetCommand(con, fd);
      } else {
        commandType := Socks5GetCommand(con, fd);
      }
      if commandType == CMD_ERROR {
        ok := false;
      }
    }
  }

  function ReplyBytes(socksVersion: int, failureType: byte): seq<byte> {
    if socksVersion == 4 then EncodeSocks4Reply(failureType) else EncodeReply(failureType)
  }

  method SocksRespond(con: ClientConnection, fd: Socket, failureType: byte) returns (ok: bool)
    modifies fd`sent, fd`writeScript
    ensures ok ==> fd.sent == old(fd.sent) + ReplyBytes(con.socksVersion, failureType)
    ensures SentSome(old(fd.sent), fd.sent, ReplyBytes(con.socksVersion, failureType))
    ensures Faultless(old(fd.writeScript)) ==> ok && Faultless(fd.writeScript)
  {
    var buf := new byte[300](_ => 0);
    var idx := 8;
    if con.socksVersion == 4 {
      buf[1] := if failureType == REPLY_SUCCEED then SOCKS4_REQUEST_GRANTED else SOCKS4_REQUEST_REJECTED_OR_FAILED;
      assert buf[..8] == EncodeSocks4Reply(failureType);
    } else {
      buf[0], buf[1], buf[2], buf[3] := 5, failureType, 0, ADDRTYPE_IPV4;
      idx := 10;
      assert buf[..10] == EncodeReply(failureType);
    }
    ghost var done;
    var rc;
    rc, done := SbWriteLen(fd, buf, idx);
    ok := rc == idx;
  }
}
