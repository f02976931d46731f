/**
  The SOCKS wire formats: constants, the request parsers as functions of the byte
  stream, and the encodings they are compared with.
 */
module Socks {
  import opened Kernel
  import opened HostIds

  const AUTH_NONE_REQUIRED: byte := 0x00
  const AUTH_NO_ACCEPTABLE_METHODS: byte := 0xFF
  const CMD_ERROR: byte := 0
  const CMD_CONNECT: byte := 1
  const CMD_BIND: byte := 2
  const CMD_UDP_ASSOCIATE: byte := 3
  const ADDRTYPE_IPV4: byte := 1
  const ADDRTYPE_DOMAIN: byte := 3
  const ADDRTYPE_IPV6: byte := 4
  const REPLY_SUCCEED: byte := 0
  const REPLY_SERVER_FAILURE: byte := 1
  const REPLY_CONNECTION_REFUSED: byte := 5
  const REPLY_ADDRESS_TYPE_NOT_SUPPORTED: byte := 8
  const SOCKS4_REQUEST_GRANTED: byte := 90
  const SOCKS4_REQUEST_REJECTED_OR_FAILED: byte := 91
  const MAX_USERID: nat := 999

  datatype Request = Request(version: byte, command: byte, addressType: byte, host: HostId)

  /** What a parser makes of a stream: a value and the bytes it left, or a refusal. */
  datatype Parsed<+T> = Got(value: T, rest: seq<byte>) | Refused(rest: seq<byte>) {
    predicate IsFailure() {
      Refused?
    }

    function PropagateFailure<U>(): Parsed<U>
      requires Refused?
    {
      Refused(rest)
    }

    function Extract(): (T, seq<byte>)
      requires Got?
    {
      (value, rest)
    }
  }

  function ReadExactly(s: seq<byte>, n: nat): Parsed<seq<byte>> {
    if n <= |s| then Got(s[..n], s[n..]) else Refused([])
  }

  function ParseVersion(s: seq<byte>): Parsed<byte> {
    var (b, s) :- ReadExactly(s, 1);
    if b[0] == 4 || b[0] == 5 then Got(b[0], s) else Refused(s)
  }

  function ParseAuthMethods(s: seq<byte>): Parsed<seq<byte>> {
    var (count, s) :- ReadExactly(s, 1);
    ReadExactly(s, count[0])
  }

  function ParseSocks5Address(s: seq<byte>, addressType: byte): Parsed<seq<byte>> {
    if addressType == ADDRTYPE_IPV4 then
      ReadExactly(s, 4)
    else if addressType == ADDRTYPE_IPV6 then
      var (_, s) :- ReadExactly(s, 16);
      Refused(s)
    else if addressType == ADDRTYPE_DOMAIN then
      var (length, s) :- ReadExactly(s, 1);
      ReadExactly(s, length[0])
    else
      Refused(s)
  }

  /** The host an address and port denote, stored over what the connection held before. */
  function StoreHost(before: HostId, addressType: byte, addr: seq<byte>, port: int): HostId
    requires addressType == ADDRTYPE_IPV4 ==> |addr| == 4
  {
    if addressType == ADDRTYPE_IPV4 then before.SetAddrInFromByteArray(addr, port)
    else before.SetName(addr).SetPort(port)
  }

  function ParseSocks5Destination(s: seq<byte>, addressType: byte, before: HostId): Parsed<HostId> {
    var (addr, s) :- ParseSocks5Address(s, addressType);
    var (port, s) :- ReadExactly(s, 2);
    Got(StoreHost(before, addressType, addr, PortOfBytes(port)), s)
  }

  function ParseSocks5Command(s: seq<byte>, before: HostId): Parsed<Request> {
    var (head, s) :- ReadExactly(s, 4);
    if head[0] != 5 || head[2] != 0 then Refused(s)
    else
      var (host, s) :- ParseSocks5Destination(s, head[3], before);
      if CMD_CONNECT <= head[1] <= CMD_UDP_ASSOCIATE then Got(Request(5, head[1], head[3], host), s) else Refused(s)
  }

  /** The userid field: everything up to a NUL, which must be among the first 1000 bytes. */
  function ParseUserid(s: seq<byte>): Parsed<seq<byte>> {
    var userid := CString(s);
    if |userid| < |s| && |userid| <= MAX_USERID then Got(userid, s[|userid| + 1..])
    else Refused(s[Min(MAX_USERID + 1, |s|)..])
  }

  function ParseSocks4Destination(s: seq<byte>, before: HostId): Parsed<HostId> {
    var (port, s) :- ReadExactly(s, 2);
    var (addr, s) :- ReadExactly(s, 4);
    Got(StoreHost(before, ADDRTYPE_IPV4, addr, PortOfBytes(port)), s)
  }

  function ParseSocks4Command(s: seq<byte>, before: HostId): Parsed<Request> {
    var (command, s) :- ReadExactly(s, 1);
    if command[0] != CMD_CONNECT then Refused(s)
    else
      var (host, s) :- ParseSocks4Destination(s, before);
      var (_, s) :- ParseUserid(s);
      Got(Request(4, command[0], ADDRTYPE_IPV4, host), s)
  }

  /** What follows version 5: the methods, then the request. */
  function ParseSocks5Stages(s: seq<byte>, before: HostId): Parsed<Request> {
    var (_, s) :- ParseAuthMethods(s);
    ParseSocks5Command(s, before)
  }

  /** The whole handshake up to the request, in the order the connection handler runs it. */
  function ParseHandshake(s: seq<byte>, before: HostId): Parsed<Request> {
    var (version, s) :- ParseVersion(s);
    if version == 4 then ParseSocks4Command(s, before) else ParseSocks5Stages(s, before)
  }

  /** The bytes the server sends before it routes the request. */
  function HandshakeReply(s: seq<byte>): seq<byte> {
    if s == [] || s[0] == 4 then []
    else if s[0] != 5 then [5, AUTH_NO_ACCEPTABLE_METHODS]
    else if ParseAuthMethods(s[1..]).Got? then [5, AUTH_NONE_REQUIRED]
    else []
  }

  //// Encodings

  /** What the client sends as address, given the address type (the length is one byte). */
  function EncodeAddress(addressType: byte, host: HostId): seq<byte>
    requires addressType == ADDRTYPE_IPV4 ==> host.addr.Inet?
  {
    if addressType == ADDRTYPE_IPV4 then BytesOfIp(host.addr.ip)
    else [|host.name| % 256] + host.name
  }

  function EncodeRequest(command: byte, addressType: byte, host: HostId): seq<byte>
    requires addressType == ADDRTYPE_IPV4 ==> host.addr.Inet?
  {
    [5, command, 0, addressType] + EncodeAddress(addressType, host) + PortBytes(host.port)
  }

  function EncodeSocks4(ip: nat, port: int, userid: seq<byte>): seq<byte> {
    [4, CMD_CONNECT] + PortBytes(port) + BytesOfIp(ip) + userid + [0]
  }

  function EncodeReply(status: byte): seq<byte> {
    [5, status, 0, ADDRTYPE_IPV4, 0, 0, 0, 0, 0, 0]
  }

  function EncodeSocks4Reply(status: byte): seq<byte> {
    [0, if status == REPLY_SUCCEED then SOCKS4_REQUEST_GRANTED else SOCKS4_REQUEST_REJECTED_OR_FAILED, 0, 0, 0, 0, 0, 0]
  }
}
