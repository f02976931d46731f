/**
  The client handshake run against the server handshake over two byte channels, one
  system call at a time, with every interleaving and every splitting of reads and
  writes. Both machines follow the code of the methods in Socks5Client and ServiceSocks.
 */
module TwoParty {
  import opened Kernel
  import opened HostIds
  import opened Socks
  import opened SocksCodec
  import opened Socks5Client

  /** What the server does once it has a request: routing and connecting are not part of this. */
  datatype Decision = ReplyWith(status: byte) | CloseSilently

  datatype Session = Session(command: byte, addressType: byte, host: HostId, decision: Decision)

  datatype ClientPc =
    | CHello | CMethod | CRequest | CHead | CAddr(length: nat) | CPort | CDone(ok: bool)

  datatype Client = Client(pc: ClientPc, out: seq<byte>, got: seq<byte>, failureType: byte)

  datatype ServerPc =
    | SVersion | SCount | SMethods(count: byte) | SChosen
    | SHead | SAddr4(head: seq<byte>) | SAddr6 | SLength(head: seq<byte>) | SName(head: seq<byte>, length: byte)
    | SPort(head: seq<byte>, addr: seq<byte>) | SDecide(request: Request) | SReply(request: Request)
    | SReject | SDone(request: Request) | SSocks4 | SClosed

  datatype Server = Server(pc: ServerPc, out: seq<byte>, got: seq<byte>)

  datatype World = World(client: Client, server: Server, toServer: seq<byte>, toClient: seq<byte>)

  datatype Event =
    | ClientSends(n: nat) | ClientReads(n: nat) | ClientMoves | ClientSeesEnd
    | ServerSends(n: nat) | ServerReads(n: nat) | ServerMoves | ServerSeesEnd

  /** How many bytes the current sb_read_len call asks for. */
  function ClientNeed(pc: ClientPc): nat {
    match pc
    case CMethod => 2
    case CHead => 4
    case CAddr(length) => length
    case CPort => 2
    case _ => 0
  }

  function ServerNeed(pc: ServerPc): nat {
    match pc
    case SVersion => 1
    case SCount => 1
    case SMethods(count) => count
    case SHead => 4
    case SAddr4(_) => 4
    case SAddr6 => 16
    case SLength(_) => 1
    case SName(_, length) => length
    case SPort(_, _) => 2
    case _ => 0
  }

  function Start(): World {
    World(Client(CHello, HELLO, [], REPLY_SERVER_FAILURE), Server(SVersion, [], []), [], [])
  }

  /** The client's next local step, once its writes are done and its read is complete. */
  function ClientMove(x: Session, c: Client): Client
    requires |c.got| == ClientNeed(c.pc)
    requires x.addressType == ADDRTYPE_IPV4 ==> x.host.addr.Inet?
  {
    match c.pc
    case CHello => c.(pc := CMethod)
    case CMethod =>
      if c.got[0] != 5 || c.got[1] != AUTH_NONE_REQUIRED then c.(pc := CDone(false), got := [])
      else c.(pc := CRequest, out := EncodeRequest(x.command, x.addressType, x.host), got := [])
    case CRequest => c.(pc := CHead)
    case CHead =>
      if c.got[0] != 5 then c.(pc := CDone(false), got := [])
      else if c.got[3] == ADDRTYPE_IPV4 then Client(CAddr(4), [], [], c.got[1])
      else if c.got[3] == ADDRTYPE_IPV6 then Client(CAddr(16), [], [], c.got[1])
      else Client(CDone(false), [], [], c.got[1])
    case CAddr(_) => c.(pc := CPort, got := [])
    case CPort => c.(pc := CDone(c.failureType == REPLY_SUCCEED), got := [])
    case CDone(_) => c
  }

  /** The client's read returns 0: the server has closed and the channel is empty. */
  function ClientEnd(c: Client): Client {
    match c.pc
    case CMethod => c.(pc := CDone(false), got := [])
    case CHead => Client(CDone(false), [], [], REPLY_CONNECTION_REFUSED)
    case CAddr(_) => c.(pc := CPort, got := [])
    case CPort => c.(pc := CDone(c.failureType == REPLY_SUCCEED), got := [])
    case _ => c
  }

  function ServerMove(x: Session, s: Server): Server
    requires |s.got| == ServerNeed(s.pc)
  {
    match s.pc
    case SVersion =>
      if s.got[0] == 5 then Server(SCount, [], [])
      else if s.got[0] == 4 then Server(SSocks4, [], [])
      else Server(SReject, [5, AUTH_NO_ACCEPTABLE_METHODS], [])
    case SCount => Server(SMethods(s.got[0]), [], [])
    case SMethods(_) => Server(SChosen, [5, AUTH_NONE_REQUIRED], [])
    case SChosen => Server(SHead, [], [])
    case SHead =>
      if s.got[0] != 5 || s.got[2] != 0 then Server(SClosed, [], [])
      else if s.got[3] == ADDRTYPE_IPV4 then Server(SAddr4(s.got), [], [])
      else if s.got[3] == ADDRTYPE_IPV6 then Server(SAddr6, [], [])
      else if s.got[3] == ADDRTYPE_DOMAIN then Server(SLength(s.got), [], [])
      else Server(SClosed, [], [])
    case SAddr4(head) => Server(SPort(head, s.got), [], [])
    case SAddr6 => Server(SClosed, [], [])
    case SLength(head) => Server(SName(head, s.got[0]), [], [])
    case SName(head, _) => Server(SPort(head, s.got), [], [])
    case SPort(head, addr) =>
      if |head| == 4 && ValidCommand(head[1]) && (head[3] == ADDRTYPE_IPV4 ==> |addr| == 4) then
        Server(SDecide(Request(5, head[1], head[3], StoreHost(EMPTY_HOST, head[3], addr, PortOfBytes(s.got)))), [], [])
      else Server(SClosed, [], [])
    case SDecide(request) =>
      if x.decision.ReplyWith? then Server(SReply(request), EncodeReply(x.decision.status), [])
      else Server(SClosed, [], [])
    case SReply(request) => Server(SDone(request), [], [])
    case SReject => Server(SClosed, [], [])
    case _ => s
  }

  predicate Enabled(x: Session, w: World, e: Event) {
    var c, s := w.client, w.server;
    match e
    case ClientSends(n) => 1 <= n <= |c.out|
    case ClientReads(n) => c.out == [] && 1 <= n <= |w.toClient| && |c.got| + n <= ClientNeed(c.pc)
    case ClientMoves => c.out == [] && |c.got| == ClientNeed(c.pc) && !c.pc.CDone?
    case ClientSeesEnd => c.out == [] && |c.got| < ClientNeed(c.pc) && w.toClient == [] && s.pc.SClosed?
    case ServerSends(n) => 1 <= n <= |s.out|
    case ServerReads(n) => s.out == [] && 1 <= n <= |w.toServer| && |s.got| + n <= ServerNeed(s.pc)
    case ServerMoves => s.out == [] && |s.got| == ServerNeed(s.pc) && !s.pc.SDone? && !s.pc.SClosed? && !s.pc.SSocks4?
    case ServerSeesEnd => s.out == [] && |s.got| < ServerNeed(s.pc) && w.toServer == [] && c.pc.CDone?
  }

  function Next(x: Session, w: World, e: Event): World
    requires x.addressType == ADDRTYPE_IPV4 ==> x.host.addr.Inet?
    requires Enabled(x, w, e)
  {
    var c, s := w.client, w.server;
    match e
    case ClientSends(n) => w.(client := c.(out := c.out[n..]), toServer := w.toServer + c.out[..n])
    case ClientReads(n) => w.(client := c.(got := c.got + w.toClient[..n]), toClient := w.toClient[n..])
    case ClientMoves => w.(client := ClientMove(x, c))
    case ClientSeesEnd => w.(client := ClientEnd(c))
    case ServerSends(n) => w.(server := s.(out := s.out[n..]), toClient := w.toClient + s.out[..n])
    case ServerReads(n) => w.(server := s.(got := s.got + w.toServer[..n]), toServer := w.toServer[n..])
    case ServerMoves => w.(server := ServerMove(x, s))
    case ServerSeesEnd => w.(server := Server(SClosed, [], []))
  }

  //// The streams, and how far each party has come in them

  /** The sessions the theorem is about: names without NUL of at most 255 bytes, or IPv4. */
  predicate Proper(x: Session) {
    Sendable(x.addressType, x.host) && |x.host.name| <= 255
  }

  predicate Replies(x: Session) {
    ValidCommand(x.command) && x.decision.ReplyWith?
  }

  function ClientStream(x: Session): seq<byte>
    requires Proper(x)
  {
    HELLO + EncodeRequest(x.command, x.addressType, x.host)
  }

  function ServerStream(x: Session): seq<byte> {
    METHOD_CHOSEN + if Replies(x) then EncodeReply(x.decision.status) else []
  }

  function Expected(x: Session): Request {
    Request(5, x.command, x.addressType, Transmitted(x.addressType, x.host))
  }

  function SentAddress(x: Session): seq<byte>
    requires Proper(x)
  {
    if x.addressType == ADDRTYPE_IPV4 then BytesOfIp(x.host.addr.ip) else x.host.name
  }

  /** What the proofs use of the two streams. */
  ghost predicate Streams(x: Session, C: seq<byte>, S: seq<byte>)
    requires Proper(x)
  {
    && |C| == (if x.addressType == ADDRTYPE_IPV4 then 13 else 10 + |x.host.name|)
    && C[0] == 5 && C[1] == 1 && C[2] == 0 && C[3] == 5 && C[4] == x.command && C[5] == 0 && C[6] == x.addressType
    && C[|C| - 2..] == PortBytes(x.host.port)
    && (x.addressType == ADDRTYPE_IPV4 ==> C[7..11] == SentAddress(x))
    && (x.addressType == ADDRTYPE_DOMAIN ==> C[7] == |x.host.name| && C[8..|C| - 2] == SentAddress(x))
    && C[..3] == HELLO && C[3..] == EncodeRequest(x.command, x.addressType, x.host)
    && |S| == (if Replies(x) then 12 else 2) && S[0] == 5 && S[1] == 0 && S[..2] == METHOD_CHOSEN
    && (Replies(x) ==> S[2] == 5 && S[3] == x.decision.status && S[5] == ADDRTYPE_IPV4)
    && (Replies(x) ==> S[2..] == EncodeReply(x.decision.status))
  }

  lemma StreamsAreStreams(x: Session)
    requires Proper(x)
    ensures Streams(x, ClientStream(x), ServerStream(x))
  {
    var C := ClientStream(x);
    assert C[3..] == EncodeRequest(x.command, x.addressType, x.host);
  }

  /** The positions up to which each party has written and read the streams C and S. */
  function ClientSent(C: seq<byte>, c: Client): int {
    match c.pc
    case CHello => 3 - |c.out|
    case CMethod => 3
    case _ => |C| - |c.out|
  }

  function ClientBase(S: seq<byte>, pc: ClientPc): int {
    match pc
    case CHello => 0
    case CMethod => 0
    case CRequest => 2
    case CHead => 2
    case CAddr(_) => 6
    case CPort => 10
    case CDone(_) => |S|
  }

  function ServerSent(S: seq<byte>, s: Server): int {
    match s.pc
    case SVersion => 0
    case SCount => 0
    case SMethods(_) => 0
    case SChosen => 2 - |s.out|
    case SReply(_) => |S| - |s.out|
    case SDone(_) => |S|
    case _ => 2
  }

  function ServerBase(C: seq<byte>, pc: ServerPc): int {
    match pc
    case SVersion => 0
    case SCount => 1
    case SMethods(_) => 2
    case SChosen => 3
    case SHead => 3
    case SAddr4(_) => 7
    case SLength(_) => 7
    case SName(_, _) => 8
    case SPort(_, _) => |C| - 2
    case _ => |C|
  }

  ghost predicate IsSlice(part: seq<byte>, whole: seq<byte>, from: int, to: int) {
    0 <= from <= to <= |whole| && |part| == to - from && forall i :: 0 <= i < |part| ==> part[i] == whole[from + i]
  }

  ghost predicate ClientInv(x: Session, S: seq<byte>, c: Client)
    requires Proper(x)
  {
    && (c.out != [] ==> c.pc.CHello? || c.pc.CRequest?)
    && |c.got| <= ClientNeed(c.pc)
    && IsSlice(c.got, S, ClientBase(S, c.pc), ClientBase(S, c.pc) + |c.got|)
    && (c.pc.CAddr? || c.pc.CPort? ==> Replies(x) && c.failureType == x.decision.status)
    && (c.pc.CAddr? ==> c.pc.length == 4)
    && (c.pc.CDone? ==>
          if Replies(x) then c.failureType == x.decision.status && c.pc.ok == (x.decision.status == REPLY_SUCCEED)
          else c.failureType == REPLY_CONNECTION_REFUSED && !c.pc.ok)
  }

  ghost predicate ServerInv(x: Session, C: seq<byte>, s: Server)
    requires Proper(x)
  {
    && (s.out != [] ==> s.pc.SChosen? || s.pc.SReply?)
    && |s.got| <= ServerNeed(s.pc)
    && IsSlice(s.got, C, ServerBase(C, s.pc), ServerBase(C, s.pc) + |s.got|)
    && ServerKnows(x, s.pc)
  }

  /** What the server has understood so far is what the client meant. */
  ghost predicate ServerKnows(x: Session, pc: ServerPc)
    requires Proper(x)
  {
    var head := [5, x.command, 0, x.addressType];
    match pc
    case SMethods(count) => count == 1
    case SAddr4(h) => h == head && x.addressType == ADDRTYPE_IPV4
    case SLength(h) => h == head && x.addressType == ADDRTYPE_DOMAIN
    case SName(h, length) => h == head && x.addressType == ADDRTYPE_DOMAIN && length == |x.host.name|
    case SPort(h, addr) => h == head && addr == SentAddress(x)
    case SDecide(request) => request == Expected(x) && ValidCommand(x.command)
    case SReply(request) => request == Expected(x) && Replies(x)
    case SDone(request) => request == Expected(x) && Replies(x)
    case SClosed => !Replies(x)
    case SVersion => true
    case SCount => true
    case SChosen => true
    case SHead => true
    case _ => false
  }

  /** The bytes from..sent of a stream are in the channel, and out holds the next ones. */
  ghost predicate InFlight(whole: seq<byte>, from: int, sent: int, channel: seq<byte>, out: seq<byte>) {
    IsSlice(channel, whole, from, sent) && IsSlice(out, whole, sent, sent + |out|)
  }

  /** Every reachable state: each channel holds exactly what was written and not yet read. */
  ghost predicate Inv(x: Session, C: seq<byte>, S: seq<byte>, w: World)
    requires Proper(x)
  {
    && ClientInv(x, S, w.client) && ServerInv(x, C, w.server)
    && (w.client.pc.CDone? && !Replies(x) ==> w.server.pc.SClosed?)
    && InFlight(C, ServerBase(C, w.server.pc) + |w.server.got|, ClientSent(C, w.client), w.toServer, w.client.out)
    && InFlight(S, ClientBase(S, w.client.pc) + |w.client.got|, ServerSent(S, w.server), w.toClient, w.server.out)
  }

  //// Every step keeps the invariant and brings the end nearer

  function ClientRank(pc: ClientPc): nat {
    match pc
    case CHello => 6
    case CMethod => 5
    case CRequest => 4
    case CHead => 3
    case CAddr(_) => 2
    case CPort => 1
    case CDone(_) => 0
  }

  function ServerRank(pc: ServerPc): nat {
    match pc
    case SVersion => 10
    case SCount => 9
    case SMethods(_) => 8
    case SChosen => 7
    case SHead => 6
    case SAddr4(_) => 5
    case SAddr6 => 5
    case SLength(_) => 5
    case SName(_, _) => 4
    case SPort(_, _) => 3
    case SDecide(_) => 2
    case SReply(_) => 1
    case SReject => 1
    case _ => 0
  }

  /** Bytes still to be written and read by both parties, and local steps still to be made. */
  function Distance(C: seq<byte>, S: seq<byte>, w: World): int {
    2 * |C| + 2 * |S|
    - ClientSent(C, w.client) - ServerBase(C, w.server.pc) - |w.server.got|
    - ServerSent(S, w.server) - ClientBase(S, w.client.pc) - |w.client.got|
    + ClientRank(w.client.pc) + ServerRank(w.server.pc)
  }

  ghost predicate Progress(x: Session, C: seq<byte>, S: seq<byte>, w: World, w': World)
    requires Proper(x)
  {
    Inv(x, C, S, w') && 0 <= Distance(C, S, w') < Distance(C, S, w)
  }

  lemma WriteInFlight(whole: seq<byte>, from: int, sent: int, channel: seq<byte>, out: seq<byte>, n: nat)
    requires InFlight(whole, from, sent, channel, out) && n <= |out|
    ensures InFlight(whole, from, sent + n, channel + out[..n], out[n..])
  {
  }

  lemma ReadInFlight(whole: seq<byte>, base: int, got: seq<byte>, sent: int, channel: seq<byte>, out: seq<byte>, n: nat)
    requires InFlight(whole, base + |got|, sent, channel, out) && IsSlice(got, whole, base, base + |got|) && n <= |channel|
    ensures InFlight(whole, base + |got| + n, sent, channel[n..], out)
    ensures IsSlice(got + channel[..n], whole, base, base + |got| + n)
  {
  }

  lemma ClientSendsProgress(x: Session, C: seq<byte>, S: seq<byte>, w: World, n: nat)
    requires Proper(x) && Inv(x, C, S, w) && 1 <= n <= |w.client.out|
    ensures var c := w.client;
      Progress(x, C, S, w, w.(client := c.(out := c.out[n..]), toServer := w.toServer + c.out[..n]))
  {
    var c, s := w.client, w.server;
    WriteInFlight(C, ServerBase(C, s.pc) + |s.got|, ClientSent(C, c), w.toServer, c.out, n);
  }

  lemma ServerSendsProgress(x: Session, C: seq<byte>, S: seq<byte>, w: World, n: nat)
    requires Proper(x) && Inv(x, C, S, w) && 1 <= n <= |w.server.out|
    ensures var s := w.server;
      Progress(x, C, S, w, w.(server := s.(out := s.out[n..]), toClient := w.toClient + s.out[..n]))
  {
    var c, s := w.client, w.server;
    WriteInFlight(S, ClientBase(S, c.pc) + |c.got|, ServerSent(S, s), w.toClient, s.out, n);
  }

  lemma ClientReadsProgress(x: Session, C: seq<byte>, S: seq<byte>, w: World, n: nat)
    requires Proper(x) && Inv(x, C, S, w)
    requires 1 <= n <= |w.toClient| && |w.client.got| + n <= ClientNeed(w.client.pc)
    ensures var c := w.client;
      Progress(x, C, S, w, w.(client := c.(got := c.got + w.toClient[..n]), toClient := w.toClient[n..]))
  {
    var c, s := w.client, w.server;
    ReadInFlight(S, ClientBase(S, c.pc), c.got, ServerSent(S, s), w.toClient, s.out, n);
  }

  lemma ServerReadsProgress(x: Session, C: seq<byte>, S: seq<byte>, w: World, n: nat)
    requires Proper(x) && Inv(x, C, S, w)
    requires 1 <= n <= |w.toServer| && |w.server.got| + n <= ServerNeed(w.server.pc)
    ensures var s := w.server;
      Progress(x, C, S, w, w.(server := s.(got := s.got + w.toServer[..n]), toServer := w.toServer[n..]))
  {
    var c, s := w.client, w.server;
    ReadInFlight(C, ServerBase(C, s.pc), s.got, ClientSent(C, c), w.toServer, c.out, n);
  }

  /** A local step keeps both positions of its party and leads to a lower rank. */
  ghost predicate ClientMoved(x: Session, C: seq<byte>, S: seq<byte>, c: Client, c': Client)
    requires Proper(x)
  {
    && ClientInv(x, S, c') && ClientRank(c'.pc) < ClientRank(c.pc)
    && ClientSent(C, c') == ClientSent(C, c)
    && ClientBase(S, c'.pc) + |c'.got| == ClientBase(S, c.pc) + |c.got|
    && IsSlice(c'.out, C, ClientSent(C, c'), ClientSent(C, c') + |c'.out|)
    && (c'.pc.CDone? ==> Replies(x))
  }

  lemma ClientGreetingIsSound(x: Session, C: seq<byte>, S: seq<byte>, c: Client)
    requires Proper(x) && Streams(x, C, S) && ClientInv(x, S, c) && c.out == [] && |c.got| == ClientNeed(c.pc)
    requires c.pc.CHello? || c.pc.CMethod? || c.pc.CRequest?
    ensures ClientMoved(x, C, S, c, ClientMove(x, c))
  {
  }

  lemma ClientReplyIsSound(x: Session, C: seq<byte>, S: seq<byte>, c: Client)
    requires Proper(x) && Streams(x, C, S) && ClientInv(x, S, c) && c.out == [] && |c.got| == ClientNeed(c.pc)
    requires c.pc.CHead? || c.pc.CAddr? || c.pc.CPort?
    ensures ClientMoved(x, C, S, c, ClientMove(x, c))
  {
  }

  lemma ClientMoveIsSound(x: Session, C: seq<byte>, S: seq<byte>, c: Client)
    requires Proper(x) && Streams(x, C, S) && ClientInv(x, S, c)
    requires c.out == [] && |c.got| == ClientNeed(c.pc) && !c.pc.CDone?
    ensures ClientMoved(x, C, S, c, ClientMove(x, c))
  {
    if c.pc.CHello? || c.pc.CMethod? || c.pc.CRequest? {
      ClientGreetingIsSound(x, C, S, c);
    } else {
      ClientReplyIsSound(x, C, S, c);
    }
  }

  ghost predicate ServerMoved(x: Session, C: seq<byte>, S: seq<byte>, s: Server, s': Server)
    requires Proper(x)
  {
    && ServerInv(x, C, s') && ServerRank(s'.pc) < ServerRank(s.pc)
    && ServerSent(S, s') == ServerSent(S, s)
    && ServerBase(C, s'.pc) + |s'.got| == ServerBase(C, s.pc) + |s.got|
    && IsSlice(s'.out, S, ServerSent(S, s'), ServerSent(S, s') + |s'.out|)
  }

  lemma ServerGreetingIsSound(x: Session, C: seq<byte>, S: seq<byte>, s: Server)
    requires Proper(x) && Streams(x, C, S) && ServerInv(x, C, s) && s.out == [] && |s.got| == ServerNeed(s.pc)
    requires s.pc.SVersion? || s.pc.SCount? || s.pc.SMethods? || s.pc.SChosen?
    ensures ServerMoved(x, C, S, s, ServerMove(x, s))
  {
  }

  lemma ServerRequestIsSound(x: Session, C: seq<byte>, S: seq<byte>, s: Server)
    requires Proper(x) && Streams(x, C, S) && ServerInv(x, C, s) && s.out == [] && |s.got| == ServerNeed(s.pc)
    requires s.pc.SHead? || s.pc.SAddr4? || s.pc.SLength? || s.pc.SName?
    ensures ServerMoved(x, C, S, s, ServerMove(x, s))
  {
    if s.pc.SHead? {
      assert s.got == [5, x.command, 0, x.addressType];
    }
  }

  lemma ServerPortIsSound(x: Session, C: seq<byte>, S: seq<byte>, s: Server)
    requires Proper(x) && Streams(x, C, S) && ServerInv(x, C, s) && s.out == [] && |s.got| == ServerNeed(s.pc)
    requires s.pc.SPort?
    ensures ServerMoved(x, C, S, s, ServerMove(x, s))
  {
    assert s.got == C[|C| - 2..];
    StoredIsExpected(x, s.got);
    assert ValidCommand(x.command) ==> ServerMove(x, s) == Server(SDecide(Expected(x)), [], []);
    assert !ValidCommand(x.command) ==> ServerMove(x, s) == Server(SClosed, [], []);
  }

  lemma ServerReplyIsSound(x: Session, C: seq<byte>, S: seq<byte>, s: Server)
    requires Proper(x) && Streams(x, C, S) && ServerInv(x, C, s) && s.out == [] && |s.got| == ServerNeed(s.pc)
    requires s.pc.SDecide? || s.pc.SReply?
    ensures ServerMoved(x, C, S, s, ServerMove(x, s))
  {
  }

  lemma ServerMoveIsSound(x: Session, C: seq<byte>, S: seq<byte>, s: Server)
    requires Proper(x) && Streams(x, C, S) && ServerInv(x, C, s)
    requires s.out == [] && |s.got| == ServerNeed(s.pc) && ServerRank(s.pc) > 0
    ensures ServerMoved(x, C, S, s, ServerMove(x, s))
  {
    if s.pc.SVersion? || s.pc.SCount? || s.pc.SMethods? || s.pc.SChosen? {
      ServerGreetingIsSound(x, C, S, s);
    } else if s.pc.SHead? || s.pc.SAddr4? || s.pc.SLength? || s.pc.SName? {
      ServerRequestIsSound(x, C, S, s);
    } else if s.pc.SPort? {
      ServerPortIsSound(x, C, S, s);
    } else {
      ServerReplyIsSound(x, C, S, s);
    }
  }

  lemma StoredIsExpected(x: Session, port: seq<byte>)
    requires Proper(x) && port == PortBytes(x.host.port)
    ensures StoreHost(EMPTY_HOST, x.addressType, SentAddress(x), PortOfBytes(port)) == Expected(x).host
  {
    PortRoundTrip(x.host.port, port);
    if x.addressType == ADDRTYPE_IPV4 {
      IpRoundTrip(x.host.addr.ip, SentAddress(x));
    } else {
      CStringWhole(x.host.name);
      assert x.host.name[..|x.host.name|] == x.host.name;
    }
  }

  lemma ClientEndProgress(x: Session, C: seq<byte>, S: seq<byte>, w: World)
    requires Proper(x) && Streams(x, C, S) && Inv(x, C, S, w) && Enabled(x, w, ClientSeesEnd)
    ensures Progress(x, C, S, w, w.(client := ClientEnd(w.client)))
  {
  }

  /** The client never leaves the server waiting: a reading server is never at the end of its stream. */
  lemma ServerNeverSeesEnd(x: Session, C: seq<byte>, S: seq<byte>, w: World)
    requires Proper(x) && Streams(x, C, S) && Inv(x, C, S, w)
    ensures !Enabled(x, w, ServerSeesEnd)
  {
  }

  lemma ClientMovedProgress(x: Session, C: seq<byte>, S: seq<byte>, w: World, c': Client)
    requires Proper(x) && Inv(x, C, S, w) && w.client.out == [] && ClientMoved(x, C, S, w.client, c')
    ensures Progress(x, C, S, w, w.(client := c'))
  {
  }

  lemma ServerMovedProgress(x: Session, C: seq<byte>, S: seq<byte>, w: World, s': Server)
    requires Proper(x) && Inv(x, C, S, w) && w.server.out == [] && ServerMoved(x, C, S, w.server, s')
    ensures Progress(x, C, S, w, w.(server := s'))
  {
  }

  lemma StepProgress(x: Session, C: seq<byte>, S: seq<byte>, w: World, e: Event)
    requires Proper(x) && Streams(x, C, S) && Inv(x, C, S, w) && Enabled(x, w, e)
    ensures Progress(x, C, S, w, Next(x, w, e))
  {
    match e
    case ClientSends(n) => ClientSendsProgress(x, C, S, w, n);
    case ClientReads(n) => ClientReadsProgress(x, C, S, w, n);
    case ClientMoves =>
      ClientMoveIsSound(x, C, S, w.client);
      ClientMovedProgress(x, C, S, w, ClientMove(x, w.client));
    case ClientSeesEnd => ClientEndProgress(x, C, S, w);
    case ServerSends(n) => ServerSendsProgress(x, C, S, w, n);
    case ServerReads(n) => ServerReadsProgress(x, C, S, w, n);
    case ServerMoves =>
      ServerMoveIsSound(x, C, S, w.server);
      ServerMovedProgress(x, C, S, w, ServerMove(x, w.server));
    case ServerSeesEnd => ServerNeverSeesEnd(x, C, S, w);
  }

  //// Whole runs

  ghost predicate IsRun(x: Session, events: seq<Event>, w: World)
    requires x.addressType == ADDRTYPE_IPV4 ==> x.host.addr.Inet?
  {
    if events == [] then w == Start()
    else
      var k := |events| - 1;
      exists v :: IsRun(x, events[..k], v) && Enabled(x, v, events[k]) && Next(x, v, events[k]) == w
  }

  /** Both parties are at the end and agree; nothing is left in either channel. */
  ghost predicate Agreement(x: Session, w: World)
    requires Proper(x)
  {
    && w.toServer == [] && w.toClient == []
    && if Replies(x) then
         && w.server.pc == SDone(Expected(x))
         && w.client.pc == CDone(x.decision.status == REPLY_SUCCEED)
         && w.client.failureType == x.decision.status
       else
         && w.server.pc == SClosed
         && w.client.pc == CDone(false)
         && w.client.failureType == REPLY_CONNECTION_REFUSED
  }

  /** Every run is bounded by the length of the two streams. */
  function RunBound(x: Session): nat
    requires Proper(x)
  {
    2 * |ClientStream(x)| + 2 * |ServerStream(x)| + 16
  }

  lemma {:induction false} RunInv(x: Session, events: seq<Event>, w: World)
    requires Proper(x) && IsRun(x, events, w)
    ensures Inv(x, ClientStream(x), ServerStream(x), w)
    ensures 0 <= Distance(ClientStream(x), ServerStream(x), w) <= RunBound(x) - |events|
  {
    StreamsAreStreams(x);
    var C, S := ClientStream(x), ServerStream(x);
    if events == [] {
      assert Inv(x, C, S, w);
    } else {
      var k := |events| - 1;
      var v :| IsRun(x, events[..k], v) && Enabled(x, v, events[k]) && Next(x, v, events[k]) == w;
      RunInv(x, events[..k], v);
      StepProgress(x, C, S, v, events[k]);
    }
  }

  /** Short of agreement some step is always possible; this finds one. */
  lemma NotStuck(x: Session, C: seq<byte>, S: seq<byte>, w: World) returns (e: Event)
    requires Proper(x) && Streams(x, C, S) && Inv(x, C, S, w) && !Agreement(x, w)
    ensures Enabled(x, w, e)
  {
    var c, s := w.client, w.server;
    if c.out != [] {
      return ClientSends(1);
    } else if s.out != [] {
      return ServerSends(1);
    } else if |c.got| == ClientNeed(c.pc) && !c.pc.CDone? {
      return ClientMoves;
    } else if |s.got| == ServerNeed(s.pc) && !s.pc.SDone? && !s.pc.SClosed? {
      return ServerMoves;
    } else if w.toClient != [] && |c.got| < ClientNeed(c.pc) {
      return ClientReads(1);
    } else if w.toServer != [] && |s.got| < ServerNeed(s.pc) {
      return ServerReads(1);
    }
    return ClientSeesEnd;
  }

  /**
    Two-party agreement. No run is longer than the bound, and a run that cannot be
    continued has ended in agreement: no other state is stuck. If the server replies
    with a status, the client ends with exactly that status, and both hold the same
    command, address type, host and port; if it closes instead, because it does not
    support the command or gives no reply, the client sees a refused connection.
   */
  lemma TwoPartyAgreement(x: Session, events: seq<Event>, w: World)
    requires Proper(x) && IsRun(x, events, w)
    ensures |events| <= RunBound(x)
    ensures (forall e :: !Enabled(x, w, e)) ==> Agreement(x, w)
    ensures w.server.pc.SDone? ==> w.server.pc.request == Expected(x)
    ensures w.client.pc.CDone? && w.client.pc.ok ==> x.decision == ReplyWith(REPLY_SUCCEED)
  {
    RunInv(x, events, w);
    StreamsAreStreams(x);
    if forall e :: !Enabled(x, w, e) {
      if !Agreement(x, w) {
        var e := NotStuck(x, ClientStream(x), ServerStream(x), w);
      }
    }
  }

  /**
    The machines against the sequential code: what the server ends up with is what its
    parser makes of the whole client stream, and the client's outcome is the verdict of
    SpeakSocks5 on the whole server stream.
   */
  lemma AgreementIsTheSequentialResult(x: Session, w: World)
    requires Proper(x) && Agreement(x, w)
    ensures ParseHandshake(ClientStream(x), EMPTY_HOST) ==
            if ValidCommand(x.command) then Got(Expected(x), []) else Refused([])
    ensures HandshakeReply(ClientStream(x)) == METHOD_CHOSEN
    ensures ClientVerdict(ServerStream(x)) == Verdict(w.client.pc.CDone? && w.client.pc.ok, w.client.failureType, [])
  {
    ParseOfClientStream(x);
    VerdictOfServerStream(x);
  }

  lemma VerdictOfServerStream(x: Session)
    ensures ClientVerdict(ServerStream(x)) ==
            if Replies(x) then Verdict(x.decision.status == REPLY_SUCCEED, x.decision.status, [])
            else Verdict(false, REPLY_CONNECTION_REFUSED, [])
  {
    var S := ServerStream(x);
    assert METHOD_CHOSEN <= S;
    assert S[2..] == if Replies(x) then EncodeReply(x.decision.status) else [];
  }

  lemma ParseOfClientStream(x: Session)
    requires Proper(x)
    ensures ParseHandshake(ClientStream(x), EMPTY_HOST) ==
            if ValidCommand(x.command) then Got(Expected(x), []) else Refused([])
    ensures HandshakeReply(ClientStream(x)) == METHOD_CHOSEN
  {
    var request := EncodeRequest(x.command, x.addressType, x.host);
    var u := [1] + ([0] + request);
    assert ClientStream(x) == [5] + u;
    OneMethod(request);
    HandshakeOfVersion(5, u, EMPTY_HOST);
    ParseOfRequest(x);
  }

  lemma OneMethod(request: seq<byte>)
    ensures ParseAuthMethods([1] + ([0] + request)) == Got([0], request)
    ensures HandshakeReply([5] + ([1] + ([0] + request))) == METHOD_CHOSEN
  {
    ReadBack([1], [0] + request);
    ReadBack([0], request);
    assert ([5] + ([1] + ([0] + request)))[1..] == [1] + ([0] + request);
  }

  lemma ParseOfRequest(x: Session)
    requires Proper(x)
    ensures ParseSocks5Command(EncodeRequest(x.command, x.addressType, x.host), EMPTY_HOST) ==
            if ValidCommand(x.command) then Got(Expected(x), []) else Refused([])
  {
    var addr, port := SentAddress(x), PortBytes(x.host.port);
    var u := WireAddress(x.addressType, addr) + (port + []);
    assert EncodeRequest(x.command, x.addressType, x.host) == [5, x.command, 0, x.addressType] + u;
    CommandOfHead(x.command, x.addressType, u, EMPTY_HOST);
    ParseOfDestination(x.addressType, addr, port, [], EMPTY_HOST);
    StoredIsExpected(x, port);
  }
}
