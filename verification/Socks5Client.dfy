/** The client side of the handshake, spoken to the SOCKS5 server at the end of a tunnel. */
module Socks5Client {
  import opened Kernel
  import opened SafeBlockingReadWrite
  import opened HostIds
  import opened ClientConnections
  import opened Socks

  const HELLO: seq<byte> := [5, 1, AUTH_NONE_REQUIRED]
  const METHOD_CHOSEN: seq<byte> := [5, AUTH_NONE_REQUIRED]

  /** What the client concludes from the server's reply, and what is left of the stream. */
  datatype Verdict = Verdict(ok: bool, failureType: byte, rest: seq<byte>)

  function Drop(s: seq<byte>, n: nat): seq<byte> {
    s[Min(n, |s|)..]
  }

  /**
    Reading a reply: a stream that ends within the first four bytes counts as a refused
    connection, and the address and port are skipped even when they are cut short.
   */
  function ReadReply(s: seq<byte>, before: byte): Verdict {
    if |s| < 4 then Verdict(false, REPLY_CONNECTION_REFUSED, [])
    else if s[0] != 5 then Verdict(false, before, s[4..])
    else if s[3] == ADDRTYPE_IPV4 then Verdict(s[1] == REPLY_SUCCEED, s[1], Drop(s, 10))
    else if s[3] == ADDRTYPE_IPV6 then Verdict(s[1] == REPLY_SUCCEED, s[1], Drop(s, 22))
    else Verdict(false, s[1], s[4..])
  }

  /** The outcome of a whole client handshake against a server that sends s. */
  function ClientVerdict(s: seq<byte>): Verdict {
    if METHOD_CHOSEN <= s then ReadReply(s[2..], REPLY_SERVER_FAILURE)
    else Verdict(false, REPLY_SERVER_FAILURE, Drop(s, 2))
  }

  /** An address as a reply carries it, section 6 of RFC 1928. */
  predicate WellFormedAddress(addressType: byte, addr: seq<byte>) {
    || (addressType == ADDRTYPE_IPV4 && |addr| == 4)
    || (addressType == ADDRTYPE_IPV6 && |addr| == 16)
    || (addressType == ADDRTYPE_DOMAIN && addr != [] && |addr| == 1 + addr[0] as int)
  }

  /**
    What the client makes of a well-formed reply: with an address of either kind it is taken
    whole and means its status; with a name it is always a failure, though one
    of that status, and name and port stay in the stream.
   */
  lemma ReplyIsRead(status: byte, addressType: byte, addr: seq<byte>, port: seq<byte>, t: seq<byte>)
    requires WellFormedAddress(addressType, addr) && |port| == 2
    ensures ClientVerdict(METHOD_CHOSEN + ([5, status, 0, addressType] + (addr + port + t))) ==
      if addressType == ADDRTYPE_DOMAIN then Verdict(false, status, addr + port + t)
      else Verdict(status == REPLY_SUCCEED, status, t)
  {
    var head, tail: seq<byte> := [5, status, 0, addressType], addr + port + t;
    var reply := head + tail;
    assert (METHOD_CHOSEN + reply)[2..] == reply;
    assert reply[4..] == tail && tail[|addr| + 2..] == t;
    assert addressType != ADDRTYPE_DOMAIN ==> Drop(reply, 4 + |addr| + 2) == t;
  }

  /** A reply that is cut short within address or port means its status all the same; only one cut before means refusal. */
  lemma CutReplyIsRead(status: byte, addressType: byte, part: seq<byte>, k: nat)
    requires (addressType == ADDRTYPE_IPV4 && |part| < 6) || (addressType == ADDRTYPE_IPV6 && |part| < 18)
    requires k <= |part| + 4
    ensures var reply := [5, status, 0, addressType] + part;
      ClientVerdict(METHOD_CHOSEN + reply[..k]) ==
      if k < 4 then Verdict(false, REPLY_CONNECTION_REFUSED, []) else Verdict(status == REPLY_SUCCEED, status, [])
  {
    var cut := ([5, status, 0, addressType] + part)[..k];
    assert (METHOD_CHOSEN + cut)[2..] == cut;
  }

  /** What routing guarantees of the destination before a tunnel is used. */
  ghost predicate Addressable(con: ClientConnection)
    reads con
  {
    && con.socksAddressType != ADDRTYPE_IPV6
    && (con.socksAddressType == ADDRTYPE_IPV4 ==> con.dstHost.addr.Inet?)
    && |con.dstHost.name| < MAX_DNS
  }

  ghost predicate KnownAddressType(con: ClientConnection)
    reads con
  {
    con.socksAddressType == ADDRTYPE_IPV4 || con.socksAddressType == ADDRTYPE_DOMAIN
  }

  method NegotiateAuth(fd: Socket) returns (ok: bool)
    modifies fd
    ensures ok ==> fd.sent == old(fd.sent) + HELLO && old(fd.incoming) == METHOD_CHOSEN + fd.incoming
    ensures Faultless(old(fd.readScript)) && Faultless(old(fd.writeScript)) ==>
      && Faultless(fd.readScript) && Faultless(fd.writeScript)
      && ok == (METHOD_CHOSEN <= old(fd.incoming)) && fd.incoming == Drop(old(fd.incoming), 2)
  {
    var buf := new byte[300];
    ghost var taken, done;
    var rc;
    buf[0], buf[1], buf[2] := 5, 1, AUTH_NONE_REQUIRED;
    assert buf[..3] == HELLO;
    rc, done := SbWriteLen(fd, buf, 3);
    if rc < 0 {
      return false;
    }
    rc, taken := SbReadLen(fd, buf, 0, 2);
    if rc < 0 {
      return false;
    }
    // A short read leaves the 1 written above in buf[1], so it cannot pass this test.
    assert |taken| < 2 ==> buf[1] == 1;
    assert |taken| == 2 ==> taken == buf[..2] == [buf[0], buf[1]];
    assert |taken| == 2 ==> old(fd.incoming)[..2] == taken;
    ok := buf[0] == 5 && buf[1] == AUTH_NONE_REQUIRED;
  }

  /** Writes the bytes of an IPv4 address into buf, if there is one. */
  method GetAddrAsByteArray(host: HostId, buf: array<byte>, at: nat) returns (count: nat)
    requires at + 4 <= buf.Length
    modifies buf
    ensures host.addr.Inet? ==> count == 4 && buf[at..at + 4] == BytesOfIp(host.addr.ip)
    ensures !host.addr.Inet? ==> count == 0
    ensures forall j :: 0 <= j < buf.Length && !(at <= j < at + count) ==> buf[j] == old(buf[j])
  {
    if host.addr.Unspecified? {
      return 0;
    }
    var addr := host.addr.ip;
    buf[at], buf[at + 1] := addr / 0x100_0000 % 256, addr / 0x1_0000 % 256;
    buf[at + 2], buf[at + 3] := addr / 0x100 % 256, addr % 256;
    return 4;
  }

  /** Copies a name, led by its one-byte length, to buf[4..]. */
  method PutName(name: seq<byte>, buf: array<byte>) returns (idx: nat)
    requires 5 + |name| <= buf.Length
    modifies buf
    ensures idx == 5 + |name| && buf[4] == |name| % 256
    ensures forall j :: 0 <= j < 4 ==> buf[j] == old(buf[j])
    ensures forall j :: 5 <= j < idx ==> buf[j] == name[j - 5]
  {
    var len := |name|;
    idx := 4;
    buf[idx] := len % 256;
    idx := idx + 1;
    forall i | 0 <= i < len {
      buf[5 + i] := name[i];
    }
    idx := idx + len;
  }

  method PutPort(port: int, buf: array<byte>, at: nat) returns (idx: nat)
    requires at + 2 <= buf.Length
    modifies buf
    ensures idx == at + 2 && buf[at..idx] == PortBytes(port)
    ensures forall j :: 0 <= j < at ==> buf[j] == old(buf[j])
  {
    idx := at;
    buf[idx] := port / 256 % 256;
    idx := idx + 1;
    buf[idx] := port % 256;
    idx := idx + 1;
  }

  /** Writes what stands between the head and the port; a negative result reports an unknown address type. */
  method PutAddress(addressType: byte, host: HostId, buf: array<byte>) returns (idx: int)
    requires |host.name| < MAX_DNS && buf.Length == 300
    modifies buf
    ensures idx < 0 <==> addressType != ADDRTYPE_IPV4 && addressType != ADDRTYPE_IPV6 && addressType != ADDRTYPE_DOMAIN
    ensures 0 <= idx ==> 4 <= idx <= 298
    ensures forall j :: 0 <= j < 4 ==> buf[j] == old(buf[j])
    ensures addressType == ADDRTYPE_IPV6 ==> idx == 20
    ensures addressType == ADDRTYPE_IPV4 && host.addr.Inet? ==> buf[4..idx] == EncodeAddress(addressType, host)
    ensures addressType == ADDRTYPE_DOMAIN ==> buf[4..idx] == EncodeAddress(addressType, host)
  {
    idx := 4;
    if addressType == ADDRTYPE_IPV4 {
      var count := GetAddrAsByteArray(host, buf, idx);
      idx := idx + 4;
    } else if addressType == ADDRTYPE_IPV6 {
      var count := GetAddrAsByteArray(host, buf, idx);
      idx := idx + 16;
    } else if addressType == ADDRTYPE_DOMAIN {
      idx := PutName(host.name, buf);
      assert buf[4..idx] == [buf[4]] + buf[5..idx] && buf[5..idx] == host.name;
    } else {
      return -1;
    }
  }

  /**
    Fills buf with the request; a negative result reports an unknown address type. The IPv6
    type, which no routed request has, gets the place of sixteen bytes between type and port.
   */
  method BuildCommand(con: ClientConnection, buf: array<byte>) returns (idx: int)
    requires |con.dstHost.name| < MAX_DNS && buf.Length == 300
    modifies buf
    ensures idx < 0 <==> !KnownAddressType(con) && con.socksAddressType != ADDRTYPE_IPV6
    ensures 0 <= idx ==> 6 <= idx <= 300 && buf[..4] == [5, con.socksCommand, 0, con.socksAddressType]
    ensures 0 <= idx ==> buf[idx - 2..idx] == PortBytes(con.dstHost.port)
    ensures con.socksAddressType == ADDRTYPE_IPV6 ==> idx == 22
    ensures KnownAddressType(con) && Addressable(con) ==>
      buf[..idx] == EncodeRequest(con.socksCommand, con.socksAddressType, con.dstHost)
  {
    buf[0], buf[1], buf[2], buf[3] := 5, con.socksCommand, 0, con.socksAddressType;
    idx := PutAddress(con.socksAddressType, con.dstHost, buf);
    if idx < 0 {
      return -1;
    }
    ghost var address := buf[4..idx];
    ghost var front := buf[..idx];
    assert front == [5, con.socksCommand, 0, con.socksAddressType] + address;
    idx := PutPort(con.dstHost.port, buf, idx);
    assert buf[..idx] == front + PortBytes(con.dstHost.port);
  }

  method SendCommand(con: ClientConnection, fd: Socket) returns (ok: bool)
    requires Addressable(con)
    modifies fd`sent, fd`writeScript
    ensures ok ==> KnownAddressType(con)
    ensures ok ==> fd.sent == old(fd.sent) + EncodeRequest(con.socksCommand, con.socksAddressType, con.dstHost)
    ensures Faultless(old(fd.writeScript)) ==> Faultless(fd.writeScript)
    ensures Faultless(old(fd.writeScript)) ==> ok == KnownAddressType(con)
  {
    var buf := new byte[300];
    var idx := BuildCommand(con, buf);
    if idx < 0 {
      return false;
    }
    ghost var done;
    var rc;
    rc, done := SbWriteLen(fd, buf, idx);
    ok := rc >= 0;
  }

  method GetCommandResponse(fd: Socket, before: byte) returns (ok: bool, failureType: byte)
    modifies fd`incoming, fd`readScript
    ensures ok ==> failureType == REPLY_SUCCEED && ReadReply(old(fd.incoming), before) == Verdict(true, failureType, fd.incoming)
    ensures Faultless(old(fd.readScript)) ==>
      Faultless(fd.readScript) && ReadReply(old(fd.incoming), before) == Verdict(ok, failureType, fd.incoming)
  {
    var buf := new byte[300];
    ghost var taken;
    var rc;
    ok, failureType := false, before;
    rc, taken := SbReadLen(fd, buf, 0, 4);
    if rc != 4 {
      if rc == 0 {
        failureType := REPLY_CONNECTION_REFUSED;
      }
      return;
    }
    assert taken == buf[..4] == [buf[0], buf[1], buf[2], buf[3]];
    if buf[0] != 5 {
      return;
    }
    failureType := buf[1];
    var idx := 4;
    var addressType := buf[3];
    if addressType == ADDRTYPE_IPV4 {
      rc, taken := SbReadLen(fd, buf, idx, 4);
      idx := idx + 4;
    } else if addressType == ADDRTYPE_IPV6 {
      rc, taken := SbReadLen(fd, buf, idx, 16);
      idx := idx + 16;
    } else {
      return;
    }
    if rc < 0 {
      return;
    }
    rc, taken := SbReadLen(fd, buf, idx, 2);
    if rc < 0 {
      return;
    }
    ok := buf[1] == REPLY_SUCCEED;
  }

  /**
    The exchange with the tunnel's server, once connected. Success means that exactly the
    hello and the encoded request were sent and that the status received was 0; without
    faults the outcome is a function of the bytes received.
   */
  method SpeakSocks5(con: ClientConnection, fd: Socket) returns (ok: bool, failureType: byte)
    requires Addressable(con)
    modifies fd
    ensures ok ==> failureType == REPLY_SUCCEED && KnownAddressType(con)
    ensures ok ==>
      fd.sent == old(fd.sent) + HELLO + EncodeRequest(con.socksCommand, con.socksAddressType, con.dstHost)
    ensures ok ==> ClientVerdict(old(fd.incoming)) == Verdict(true, failureType, fd.incoming)
    ensures Faultless(old(fd.readScript)) && Faultless(old(fd.writeScript)) ==>
      Faultless(fd.readScript) && Faultless(fd.writeScript) && if KnownAddressType(con)
      then Verdict(ok, failureType, fd.incoming) == ClientVerdict(old(fd.incoming))
      else !ok && failureType == REPLY_SERVER_FAILURE
  {
    failureType := REPLY_SERVER_FAILURE;
    ok := NegotiateAuth(fd);
    if ok {
      assert METHOD_CHOSEN <= old(fd.incoming) && old(fd.incoming)[2..] == fd.incoming;
      ok := SendCommand(con, fd);
    }
    if ok {
      ok, failureType := GetCommandResponse(fd, failureType);
    }
  }
}
