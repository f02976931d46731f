# Verified model of a routing SOCKS proxy

SmartSOCKSProxy accepts SOCKS4 and SOCKS5 clients, decides by a list of rewriting rules where each
request goes, connects it directly or through one of several supervised SSH children, and then carries
bytes both ways. This project models that program in Dafny and proves what it promises. `dafny verify
dfyconfig.toml` checks everything.

Code that changes things step by step is modelled as methods over classes and arrays (sockets, buffers,
client connections, tunnels, the linked lists, the log file), each proved against a function or predicate
that says what it computes; the promises are lemmas about those functions. Where threads or processes
interleave, there is a state machine over their single steps and a theorem about every run. System calls
are scripts: every read, write, `waitpid`, `fork`, `realloc`, clock tick and name lookup answers as an
arbitrary finite script says, so each result holds for all answers.

## The parts

- **Handshake.** `Kernel`, `HostIds`, `SafeBlockingReadWrite`, `Socks`, `ServiceSocks`, `Socks5Client`,
  `SocksCodec`, `TwoParty`, `Relay`. The server's reads agree with pure parsers whatever the splitting of
  the input; the parsers are framed exactly and are the inverse of the client's encoder; the client and the
  server, run against each other over two channels, always end, never get stuck, and agree (RFC 1928,
  sections 3 to 6).
- **Routing.** `Networks`, `Routing`, `RoutingLaws`, `RouteRules`, `RouteRuleLists`. The engine with its
  cached locals refines a fold over the rules; what a chosen rule demands and what a matching one changes is
  told in characters and bits; masks are prefixes in the sense of section 3.1 of RFC 4632.
- **A whole session.** `SocksConnections` (bounded round robin over tunnels), `Shuttle` (conservation of
  both byte streams), `ConnectionHandler` (all stages in order, first byte to last).
- **Connections and threads.** `ConnectionPool` (the list filtered in place), `Lifetime` (the main loop
  against the workers).
- **Tunnels.** `SshPolicy` (mark, sweep, and supervision over any number of passes).
- **Logs.** `LogFiles` (the machine and its invariant), `LogFileCode` (the code, proved to be its runs).
- **Configuration.** `ConfigLines`, `ConfigNormaliser`, `ConfigWords`, `IncludeFiles`.
- **Status document.** `Json`, `JsonBuffer`, `BuildJson`, `StatusReader` (RFC 8259).

## Where the code does not do what one may expect

The model follows the code. These lemmas and contracts record it:

- A SOCKS4 userid is accepted up to 999 bytes exactly (`SocksCodec.Socks4Framing`).
- The length byte of a name wraps around beyond 255 bytes (`SocksCodec.LongNameIsMisread`), and a name
  with a NUL in it is not relayed as it came (`SocksCodec.RelayTransparency`, an if-and-only-if).
- When no rule selects, the default rule is stored but failure is reported, and the client is sent nothing
  behind the handshake's answers (`ConnectionHandler.AcceptAndRoute`).
- The `null` tunnel reports success and leaves the status of the attempt before it. A failed attempt to a
  tunnel leaves its socket open exactly when it has descriptor 0 (`SocksConnections.TryTunnel`, shown by
  `SocksConnections.DescriptorZeroStaysOpen`).
- A rule may name a tunnel twice, which favours it (`SocksConnections.RepeatedTunnelIsFavoured`);
  `SocksConnections.RoundRobinIsFair` says exactly which rules are fair.
- A reply of the server behind a tunnel that carries a domain name is rejected, and short reads of its
  address or port go unnoticed (`Socks5Client.ReplyIsRead`, `Socks5Client.CutReplyIsRead`).
- Rotation with a maximum of 0 or less closes a descriptor the log does not have
  (`LogFiles.RotationNeedsPositiveMaximum`, an if-and-only-if). The byte count is of bytes submitted.
- A connection whose thread could not be created has no recorded end and does not loiter
  (`Lifetime.FailedLaunchIsReapedAtOnce`); `Lifetime.LoiteringNeedsAStamp` says exactly which do. The default
  handler of service.c:31-50 would be the other one without a stamp, but every service installs its own.
- A `waitpid` error leaves the child remembered and lets a second one be started
  (`SshPolicy.ErrorLeavesTwoChildren`). When that start fails in `fork`, the child is forgotten though it
  lives, and the next start makes a second one (`SshPolicy.FailedForkForgets`,
  `SshPolicy.ForgottenChildIsDoubled`). `SshPolicy.SecondChild` says exactly when a check adds a child.
- Mixed line endings can lose an empty line (`ConfigLines.EmptyLineLost`); `ReadLineRoundTrip` says exactly
  when none is lost. What stands unterminated at the end of a file is dropped by the callers.
- An include that fails ends its parent early, and the parent still reports success
  (`IncludeFiles.FailedIncludeIsHidden`); one that is blocked by a cycle or by the depth is skipped
  (`IncludeFiles.BlockedIncludeIsSkipped`). `IncludeFiles.SuccessIsWholeIffAllWell` says for every file
  system exactly when success means that everything was read.
- Strings are printed into the status document without escaping; it can be read back exactly when none
  needs any (`Json.PrintRoundTrip`).

## Model

| member | source | states |
|---|---|---|
| `SafeBlockingReadWrite.SbReadLen` | safe_blocking_readwrite.c:69-90 | for every split into short reads and interrupts the result depends on the stream alone: all of the length, or 0 at an early end, and exactly those bytes taken |
| `SafeBlockingReadWrite.SbWriteLen` | safe_blocking_readwrite.c:93-110 | the whole buffer is delivered or a fault reported; never 0 for a non-empty buffer |
| `HostIds.NameIsStored` | host_id.c:70-73 | a name is stored up to its terminator, whatever follows it, and cut to 259 bytes |
| `HostIds.PortRoundTrip` | host_id.c:79-90 | port numbers and their two bytes determine each other |
| `HostIds.IpRoundTrip` | host_id.c:108-151 | addresses and their four bytes determine each other |
| `ServiceSocks.SocksGetClientVersion` | service_socks.c:27-43 | version 4 or 5 is accepted, another is refused with a reply, and the reads agree with the parser |
| `ServiceSocks.Socks5NegotiateAuth` | service_socks.c:45-70 | all method bytes are consumed and "none required" is answered, for every split of the input |
| `ServiceSocks.ReadSocks5Destination` | service_socks.c:134-178 | address and port as the parser takes them; IPv6 and unknown types are refused after the same bytes |
| `ServiceSocks.Socks5GetCommand` | service_socks.c:120-191 | success, stored request, kept originals and stream position are those of the parser |
| `ServiceSocks.Socks4GetCommand` | service_socks.c:74-118 | the same for SOCKS4, only CONNECT being accepted |
| `ServiceSocks.SkipUserid` | service_socks.c:99-112 | the countdown loop is "a NUL among the first 1000 bytes" |
| `ServiceSocks.Handshake` | service_socks.c:354-409 | the stages in order: outcome, request, bytes consumed and bytes answered depend only on the byte stream, and with faults a first part of the same answer was sent; a SOCKS5 client that offers any methods has its request stored and its payload left |
| `ServiceSocks.SocksRespond` | service_socks.c:193-219 | the reply in the client's version with the status, or a first part of it when a write fails, and nothing else sent (SOCKS5 form at 275-301) |
| `SocksCodec.WireOfParse5` | service_socks.c:120-191 | whatever is parsed is the wire form of what it was parsed to, followed by the rest |
| `SocksCodec.RefusedRequests` | service_socks.c:120-191 | what is refused, and how far it has been read by then: another version or reserved byte, IPv6 addresses, unknown address types, unknown commands |
| `SocksCodec.RefusedRequests4` | service_socks.c:74-118 | a command other than CONNECT is refused at once, a userid without a NUL after 1000 bytes of it |
| `SocksCodec.SequenceFramed` | service_socks.c:370-409 | two exactly framed stages one after the other are exactly framed |
| `SocksCodec.HandshakeFramed` | service_socks.c:354-409 | a successful handshake of either version takes exactly its own bytes, and any payload may follow them |
| `SocksCodec.MethodsAreRead` | service_socks.c:49-57 | of a greeting exactly the counted method bytes are read |
| `SocksCodec.GreetingIsRead` | service_socks.c:354-395 | however many methods are offered, what follows them is read as the request, and "none required" is answered |
| `SocksCodec.HandshakeRoundTrip` | service_socks.c:354-409 | greeting with any methods, request and payload: the server decodes the request and leaves the payload, if and only if the name fits its length byte |
| `SocksCodec.OtherVersionIsRefused` | service_socks.c:27-43 | any version but 4 and 5 is refused behind its byte, with FF as the method |
| `SocksCodec.HandshakeIsPrefixFree` | service_socks.c:354-409 | no proper prefix of an accepted handshake is accepted |
| `SocksCodec.Socks4Framing` | service_socks.c:74-118 | a SOCKS4 CONNECT is accepted if and only if its userid has at most 999 bytes, leaving exactly the payload |
| `SocksCodec.LongNameIsMisread` | socks5_client.c:50-57 | a name of more than 255 bytes, where it is accepted at all, is decoded as one at least 256 bytes shorter |
| `SocksCodec.RequestRoundTrip` | socks5_client.c:35-71 | the server decodes what the client encodes to the same request and leaves the payload, if and only if the name has at most 255 bytes |
| `SocksCodec.RelayTransparency` | service_socks.c:120-191 | decoding and encoding again gives the original bytes if and only if no name carries a NUL |
| `SocksCodec.Socks4BecomesSocks5` | service_socks.c:74-118 | a SOCKS4 CONNECT goes out as the SOCKS5 IPv4 CONNECT with the same address and port |
| `SocksCodec.Socks4ReplyIsRead` | service_socks.c:193-219 | a SOCKS4 client takes exactly the eight bytes, and concludes that it was granted just when the status is 0 |
| `Socks5Client.NegotiateAuth` | socks5_client.c:15-33 | the greeting is sent, and the answer accepted exactly when it is version 5, no authentication |
| `Socks5Client.BuildCommand` | socks5_client.c:35-71 | the buffer filled through the moving index is the encoded request; the IPv6 type gets sixteen bytes of room; unknown address types are errors |
| `Socks5Client.GetCommandResponse` | socks5_client.c:74-128 | outcome, status and remaining stream are a function of the bytes received, including the rejected domain replies and unnoticed short reads |
| `Socks5Client.ReplyIsRead` | socks5_client.c:74-128 | a well-formed reply is taken whole and means its status, except that one with a name is always a failure and leaves name and port unread |
| `Socks5Client.CutReplyIsRead` | socks5_client.c:79-115 | a reply cut short within address or port still means its status; one cut before means refusal |
| `Socks5Client.SpeakSocks5` | socks5_client.c:179-202 | success means greeting and request were sent, and nothing else, and the server granted it |
| `TwoParty.StepProgress` | socks5_client.c:15-128 | every single step of client, server or channel keeps the invariant and brings the end nearer |
| `TwoParty.NotStuck` | service_socks.c:27-70 | a reachable state that is not final has a step |
| `TwoParty.TwoPartyAgreement` | service_socks.c:275-301 | every run is bounded; one that cannot go on has both ends agreeing on command, address, port and status, with empty channels |
| `TwoParty.AgreementIsTheSequentialResult` | service_socks.c:120-191 | the machines end where the sequential parser and the sequential client end |
| `Networks.MatchesBits` | route_rules_engine.c:115-127 | a network matches exactly when address and network agree on every bit of the mask |
| `Networks.RewriteBits` | route_rules_engine.c:146-157 | a rewrite takes the bits of the mask from the target and all others from the source |
| `Networks.MapBijection` | route_rules_engine.c:129-157 | with equal masks, mapping A to B is undone by mapping B to A, and lands in B |
| `Networks.PrefixMaskValue` | route_rule.c:83-114 | the shifted mask of prefix 1 to 32 is 2^32 - 2^(32 - prefix) |
| `Networks.PrefixMatchIsQuotient` | route_rule.c:83-114 | matching a prefix is equality of quotients by 2^(32 - prefix) |
| `Networks.ShorterPrefixMatches` | route_rule.c:83-114 | matching a prefix implies matching every shorter one |
| `Networks.PrefixRewrite` | route_rules_engine.c:146-157 | network part of the target plus host part of the source |
| `Routing.CheckConditions` | route_rules_engine.c:62-141 | the cascade of conditions over the cached locals is the conjunction of all that were given |
| `Routing.PermuteDestination` | route_rules_engine.c:143-187 | destination and caches after a matching rule are those of the specification |
| `Routing.DecideApplicableRule` | route_rules_engine.c:44-230 | the first rule with tunnels that holds on the destination as rewritten by all earlier matching rules is chosen; without one the default is stored and failure reported |
| `RoutingLaws.AppliesIffMeets` | route_rules_engine.c:62-141 | a rule matches if and only if the destination meets each given condition: the characters of its texts, its port, the bits of its address under the mask |
| `RoutingLaws.ChosenMeets` | route_rules_engine.c:57-210 | the chosen rule is the first with a tunnel whose conditions are met by the destination as rewritten up to it |
| `RoutingLaws.RuleEffect` | route_rules_engine.c:143-187 | an unmet rule changes nothing; a met one with a target network takes the bits of the mask from it and drops the name, one that resolves stores the answer, any other changes nothing |
| `RoutingLaws.DottedQuadReads` | route_rules_engine.c:27-41 | the text of an address reads back as the address |
| `Routing.ChoiceIsUnique` | route_rules_engine.c:57-210 | there is one such rule |
| `Routing.LaterRulesNeverMatter` | route_rules_engine.c:57-210 | rules after the chosen one affect neither the choice nor the destination |
| `Routing.RewritingKeeps` | route_rules_engine.c:146-187 | the 16-bit port survives every rewriting; the name is kept or dropped together with a change to an IPv4 address |
| `Routing.WithoutToNothingSentChanges` | route_rules_engine.c:171-187 | without "to" rules nothing that is sent on changes |
| `Relay.RoutedRequestIsTransparent` | route_rules_engine.c:146-187 | decoded, routed without "to" and encoded again, a request is byte for byte the original, if and only if its name has no NUL |
| `ConnectionHandler.RoutingKeepsCommandAndPort` | route_rules_engine.c:146-187 | whatever the rules, what is asked for a request has the client's command and port; only the address and its type can differ, and then they are IPv4 |
| `ConnectionHandler.ClientsCommandAndPort` | socks5_client.c:35-71 | the first three and last two bytes asked are those that a SOCKS5 client sent |
| `RouteRules.AppendTunnel` | route_rule.c:202-212 | the array stays terminated within its 100 entries, and an excess tunnel is ignored |
| `RouteRules.ParseVia` | route_rule.c:185-215 | it succeeds if and only if every name that is not empty is listed; the array then holds the first listed tunnel of each such name, in order, at most 99 of them |
| `RouteRules.FindIsListed` | route_rule.c:193-198 | a name finds the first listed tunnel that has it, and nothing only when none has |
| `RouteRules.NamedIsWhatIsListed` | route_rule.c:185-215 | what the names stand for: nothing if one is not listed, else entry k is the first listed tunnel of the k-th name that is not empty |
| `RouteRuleLists.ListIsAcyclic` | route_rule.c:50-60 | a properly ended list visits no node twice |
| `RouteRuleLists.InsertRouteRule` | route_rule.c:50-60 | the new rule comes last and no other link changes |
| `SocksConnections.ConnectDirect` | socks_connection.c:30-97 | each outcome has exactly its cause: status 0 and one more open socket, no address, refusal, or another failure; a failure leaves no socket; a success is connected to the address that the host had, or else to the one its name was found to mean, at the host's port |
| `SocksConnections.ConnectViaSshSocks5` | socks5_client.c:131-202 | the socket goes to the tunnel's port on this machine; success means the server behind the tunnel got exactly the request of this connection and granted it, and only what it sends behind its reply is left to read |
| `SocksConnections.TryTunnel` | socks_connection.c:125-172 | one attempt: it connects only if the tunnel works for the destination, and without faults exactly then and with exactly that status; a failure forgets the tunnel, and leaves its socket open exactly when it was connected to a tunnel with descriptor 0 |
| `SocksConnections.GiveUpTunnel` | socks_connection.c:154-164 | exactly a descriptor above 0 is closed and forgotten |
| `SocksConnections.DescriptorZeroStaysOpen` | socks_connection.c:158-164 | an attempt that fails and leaves descriptor 0 open |
| `SocksConnections.SocksConnect` | socks_connection.c:99-176 | at most 101 attempts in round robin order, ending early on success or refusal, each coming to what the world makes of it, a direct success being connected to the destination as known by then; the sockets open at the end are the one that succeeded and those that failed attempts left with descriptor 0, and without an earlier one of these at most one is open at any time |
| `SocksConnections.HostIsLookedUpOnce` | socks_connection.c:33-45 | before any attempt the destination is as it was, or has the first answer to a lookup of its name |
| `SocksConnections.RunIsSettled` | socks_connection.c:99-176 | in a world without faults there is one sequence of attempts |
| `SocksConnections.EntriesTakeTurns` | socks_connection.c:124-126 | attempt k uses entry k mod n, so for every rule attempts at two entries never differ by more than one |
| `SocksConnections.TriedByRounds` | socks_connection.c:124-126 | for every rule, q full rounds and r attempts more try a tunnel q times as often as the rule names it, and once for each time it is among the first r entries |
| `SocksConnections.RoundRobinIsFair` | socks_connection.c:99-176 | in every run attempts at two tunnels differ by at most one, if and only if the first two rounds over the rule are so balanced |
| `SocksConnections.DistinctIsBalanced` | socks_connection.c:99-176 | a rule that names no tunnel twice is balanced |
| `SocksConnections.RepeatedTunnelIsFavoured` | route_rule.c:202-209 | a rule via a,a,b, which the parser accepts, tries a four times and b once in five attempts |
| `Shuttle.ShuttleOnce` | shuttle.c:19-46 | one read given on whole, or drained; only a fault is an error, and then a prefix was given |
| `Shuttle.ExchangeConserves` | shuttle.c:48-174 | a read and the write that follows it keep the given bytes a prefix of the taken ones |
| `Shuttle.Serve` | shuttle.c:108-160 | one round of the poll loop keeps both directions accounted for and counted; exactly the readable sides are read from, each moving on or coming to its end, and only a fault is an error |
| `Shuttle.Round` | shuttle.c:108-160 | whether a side can be written to is whether it has hung up so far; the loop goes on unless a side ended or is silently gone |
| `Shuttle.ShuttleDataBackAndForth` | shuttle.c:48-174 | in every run and at every moment what a peer was given is a prefix of what the other sent; each side has moved at least once for each round in which it was readable, or came to its end; a clean end comes at the first round in which a side ends or is silently gone, and without socket faults only a broken poll is an error; the counters are then exact and, without a hang-up, everything taken was delivered |
| `ConnectionHandler.AcceptAndRoute` | service_socks.c:354-413 | handshake then routing: request, rest of the stream, chosen rule and rewritten destination; without a fault it fails exactly when the handshake is refused or no rule selects, and then the client was sent the handshake's answers and no more |
| `ConnectionHandler.ConnectAndRespond` | service_socks.c:415-423 | a rule with tunnels makes at least one attempt, each as the world lets it; the client is told nothing unless the last one connected, to the destination itself or to the tunnel's end, and, through a tunnel, its request had been asked in full |
| `ConnectionHandler.AnswersAreUnderstood` | service_socks.c:354-423 | a client of either version takes exactly the answers it is sent, concludes success just when the status is 0, and has the payload left |
| `ConnectionHandler.ConnectAndCarry` | service_socks.c:415-430 | everything behind routing, for a destination and its rule |
| `ConnectionHandler.ShuttleNullConnection` | shuttle.c:176-194 | the client is read to its end and every byte counted |
| `ConnectionHandler.ServiceSocksConnectionHandler` | service_socks.c:354-430 | however a session ends: with a server, it is the routed destination itself or the tunnel's end, it was sent the greeting, the routed request and then only the client's payload in order, and the client all the answers and then only the server's bytes in order; without one, the client was sent some first part of the answers; without faults there is a server exactly when the handshake is accepted, a rule selects and its last attempt connects to one |
| `ConnectionHandler.RoutedIsConnectable` | route_rules_engine.c:146-187 | whatever the rules, a parsed request stays one that can be connected and encoded |
| `ConnectionHandler.AskedAsTheClientAsked` | service_socks.c:354-430 | for a SOCKS5 client that no "to" rule concerns, the request behind the tunnel is the client's own bytes, if and only if its name has no NUL |
| `ConnectionPool.SelectMembers` | server.c:133-153 | the kept and the freed connections split the list, each once |
| `ConnectionPool.SelectKeepsOrder` | server.c:133-153 | a selected connection comes behind just those that are selected before it |
| `ConnectionPool.InsertClientConnection` | client_connection.c:63-72 | the new connection is first and all links are coherent |
| `ConnectionPool.RemoveClientConnection` | client_connection.c:74-84 | the neighbours are joined, nothing else moves, and the node is left without links |
| `ConnectionPool.FreeClientConnection` | client_connection.c:86-103 | unlinked, then freed, exactly once |
| `ConnectionPool.CleanupConnections` | server.c:133-153 | the list becomes the order-preserving filter of those that have not both exited and stayed over 4 seconds, with their sockets; the others are closed and freed once each and no freed node is touched; in every state of the machine of `Lifetime` that stands for the list the pass is a run of visits that frees the same connections, and of these no worker is left |
| `ConnectionPool.CodeAndMachineAgree` | server.c:140 | what the code finds expired the machine finds to have loitered |
| `ConnectionPool.OneMoreVisit` | server.c:139-150 | one turn of the loop is one visit of the machine: the same pool and the same freed connections |
| `ConnectionPool.MachinePass` | server.c:133-153 | the whole pass is a run of visits, and nothing it frees has a worker left |
| `Lifetime.StepKeeps` | server.c:39-90 | every step of the main loop or a worker keeps the invariant and touches no freed connection |
| `Lifetime.LifetimeSafety` | server.c:346-386 | in every interleaving no freed connection is touched, and one is freed only when its thread never started or has made its last access |
| `Lifetime.StampPrecedesExit` | service_thread.c:22-40 | the end is stamped before the exit is published |
| `Lifetime.LoiteringNeedsAStamp` | service_thread.c:36-39 | in every run a freed connection stayed listed over 4 seconds after its recorded end if and only if its thread was created and its handler stamps the end |
| `Lifetime.UnrecordedIsFreedByTheNextPass` | server.c:133-153 | a connection without a recorded end is freed by the first pass that comes to it |
| `Lifetime.FailedLaunchIsReapedAtOnce` | server.c:72-81 | a connection whose thread could not be created at time 5 is freed at time 5 |
| `SshPolicy.MultiplicityIsMembership` | ssh_policy.c:199-203 | a tunnel is counted as often as it is listed |
| `SshPolicy.MarkedIsRequiredSomewhere` | ssh_policy.c:175-204 | a mark is positive if and only if some connection requires the tunnel |
| `SshPolicy.AllCount` | ssh_policy.c:175-204 | the sums over proxies and connections are the sizes of the sets of holders and of list entries |
| `SshPolicy.MarkList` | ssh_policy.c:199-203 | the scan without a bound stays inside the array and adds each entry's multiplicity |
| `SshPolicy.MarkPhase` | ssh_policy.c:175-206 | the connection count of a tunnel is the number of connections that hold it, and its mark that number and the number of list entries that ask for it in connections without a tunnel |
| `SshPolicy.ReapChild` | ssh_policy.c:103-125 | a child is reaped and forgotten exactly when waitpid, interruptions aside, says that it exited; a running one is left alone, an error leaves it remembered |
| `SshPolicy.CheckSshTunnel` | ssh_policy.c:92-172 | supervision is kept; the process calls made and what is remembered are exactly those of reaping and then starting a wanted, missing and not too recently started child |
| `SshPolicy.CheckSshTunnels` | ssh_policy.c:175-217 | counts are exact; children are started only for tunnels that some connection required in this pass, never for direct and null (the third built-in tunnel, `socks_proxy`, is checked as the others are); every wanted tunnel ends up with a child unless it was started too recently or a fork failed |
| `SshPolicy.RunPasses` | server.c:346-389 | over any number of passes and any changes between them, every start lies in a pass that required it, and supervision holds throughout |
| `SshPolicy.StartIsSpaced` | ssh_policy.c:131-135 | a start at least 2 seconds after the recorded one is at least 2 seconds after all |
| `SshPolicy.OneChild` | ssh_policy.c:92-172 | without waitpid errors a tunnel has at most one unreaped child at every point of its history |
| `SshPolicy.SecondChild` | ssh_policy.c:117-142 | a check adds at most one child, and adds one if and only if the tunnel is wanted, not started too recently, fork works, and either no child is remembered or waitpid fails; where a child was living already it becomes the second |
| `SshPolicy.ErrorLeavesTwoChildren` | ssh_policy.c:92-172 | a tunnel with two unreaped children after a waitpid error |
| `SshPolicy.FailedForkForgets` | ssh_policy.c:121-146 | a tunnel whose only child is alive but forgotten, fork having failed after a waitpid error |
| `SshPolicy.ForgottenChildIsDoubled` | ssh_policy.c:92-146 | the next check of that tunnel starts a second child, with no waitpid error of its own |
| `SshPolicy.StartRate` | ssh_policy.c:131-143 | within d seconds a tunnel is started at most d / 2 + 1 times |
| `LogFiles.AppendShows` | log_file.c:131-169 | a write through the newest file appends to the history the files show |
| `LogFiles.RenameShows` | log_file.c:215-235 | moving one name up hides nothing, except that the last but one hides exactly what the last one held |
| `LogFiles.StepKeeps` | log_file.c:99-257 | every step of writers and rotation keeps the invariant; no write uses a closed descriptor |
| `LogFiles.RunAccounts` | log_file.c:131-257 | from any state, a run adds to what is hidden exactly what its rotations replace under the last name |
| `LogFiles.RotationMoves` | log_file.c:213-235 | in every run that begins with a decision to rotate, with a positive maximum and writers in between, the names have moved up so far as the renames have come |
| `LogFiles.RotationHands` | log_file.c:244-257 | such a run closes exactly the descriptor the log had, and opens no other but the log's new one |
| `LogFiles.SwapFindsTheLogMoved` | log_file.c:237-248 | in every run with a positive maximum, when the descriptor is taken away the log's name is free and the descriptor leads to the first rotation |
| `LogFiles.HistoryIsPreserved` | log_file.c:131-257 | at every state of every interleaving all bytes ever written are what rotations have replaced under the last name followed by what the files show, oldest first; no write uses a closed descriptor; a positive byte count means an open one |
| `LogFiles.RotationNeedsPositiveMaximum` | log_file.c:189-257 | rotation closes only valid descriptors in all runs if and only if the maximum is positive |
| `LogFileCode.RunConcat` | log_file.c:131-257 | a run continued from where it stands is a run |
| `LogFileCode.LogFile.LogFileOpen` | log_file.c:99-125 | the code's open is the machine's, and happens exactly when the kernel can answer so |
| `LogFileCode.LogFile.LogFileWrite` | log_file.c:131-169 | the code's write is a run of the machine that appends what was written, unless no file can be opened |
| `LogFileCode.LogFile.LogFileRotate` | log_file.c:189-257 | the code's rotation, other threads writing between its steps, is a run of the machine that swaps and closes exactly when the count has reached the maximum; with a positive maximum every kept file has then moved up by one name, the log's descriptor is closed and none leaked, and closing never fails; it loses exactly what that run loses |
| `ConfigLines.NextLine` | config_file.c:38-83 | a line makes the stream shorter, and the two flags are never both set |
| `ConfigLines.ReadLine` | config_file.c:38-83 | the buffer comes to hold the line and its terminator; stream and flags move as specified for every split and interrupt |
| `ConfigLines.LinesAreThoseWritten` | config_file.c:38-83 | lines come back as written, and fewer come back if and only if an empty one is lost |
| `ConfigLines.ReadLineRoundTrip` | config_file.c:38-83 | reading a file back gives exactly its lines and then its end if and only if its endings are unambiguous |
| `ConfigLines.UniformIsUnambiguous` | config_file.c:63-75 | one ending from LF, CR, CRLF and LFCR used throughout is unambiguous |
| `ConfigLines.NonEmptyIsUnambiguous` | config_file.c:63-75 | any mixture is, when no line is empty |
| `ConfigLines.EmptyLineLost` | config_file.c:63-75 | a file whose empty line is lost |
| `ConfigLines.TooLongIsAnError` | config_file.c:76-81 | a line that fills the buffer is an error |
| `ConfigNormaliser.NeverLonger` | config_file.c:85-147 | output and what is still owed to it never exceed the input read |
| `ConfigNormaliser.OneCharacter` | config_file.c:102-140 | one turn of the loop is one step of the specification |
| `ConfigNormaliser.RemoveExtraSpacesAndComments` | config_file.c:93-151 | the buffer loop computes the fold, in bounds, and accepts exactly when no quote is left open |
| `ConfigNormaliser.FixedIffCanonical` | config_file.c:93-151 | a line is left alone if and only if it has no escapes and is in normal form |
| `ConfigNormaliser.NormaliserIsIdempotent` | config_file.c:93-151 | normalising twice is normalising once if and only if the first output has no backslash and is in normal form; so it is for every line without escapes |
| `ConfigNormaliser.EscapesAreNotIdempotent` | config_file.c:103-109 | an escaped '#' becomes a comment the second time |
| `ConfigNormaliser.EscapeRoundTrip` | config_file.c:103-109 | any text, its special characters escaped, normalises back to itself |
| `ConfigWords.LeavesTheWords` | config_file.c:85-151 | of every line the words between unquoted blanks, up to an unquoted '#', are left, with single spaces between; accepted if and only if no quote is left open |
| `IncludeFiles.FindInStack` | config_file.c:599-605 | the search of the stack is membership |
| `IncludeFiles.RouteRuleFileParse` | config_file.c:551-624 | for every file system, cyclic or not, parsing ends, the stack is written in bounds and holds distinct names, and result and rule list are those of the specification |
| `IncludeFiles.StackedNamesAreDistinct` | config_file.c:599-612 | whatever the file system, at every opening of a file the stacked names are pairwise distinct and within the depth |
| `IncludeFiles.RouteFile` | config_file.c:451-452 | a parse starts with an empty stack of 201 entries and a depth of 200 |
| `IncludeFiles.ParseFile` | config_file.c:551-624 | parsing only adds rules, and reports 0 or 1 |
| `IncludeFiles.IncludeExpansion` | config_file.c:551-624 | when the file and all files it reaches within the depth exist and parse, the rule list becomes the depth-first in-place expansion in file order |
| `IncludeFiles.OnlyAppends` | config_file.c:616-621 | rules that are there already never influence the parse |
| `IncludeFiles.FailedIncludeIsHidden` | config_file.c:606-623 | at any depth and line, an include that fails for any reason ends its file, which reports success with the rules so far, those of the failed file included, whatever stands behind |
| `IncludeFiles.SuccessIsWholeIffAllWell` | config_file.c:551-624 | for every file system, cyclic ones included, success with every line carried out holds if and only if every reached file exists, every line of it parses, and no path of includes is longer than the depth |
| `IncludeFiles.BlockedIncludeIsSkipped` | config_file.c:606-613 | an include blocked by a cycle or by a full stack leaves no trace in what is done with the lines |
| `IncludeFiles.AcyclicIsWell` | config_file.c:551-624 | files that exist and parse and whose includes go down in rank are such files, within as many levels as their rank says |
| `IncludeFiles.LongPathIsNotWell` | config_file.c:599-613 | a path of includes longer than the depth, along a chain or around a cycle, is never such |
| `Json.PrintRoundTrip` | build_json.c:73-94 | a printed tree is read back by the grammar as itself, to the end, if and only if nothing in it needs escaping |
| `Json.PrintIsInjective` | build_json.c:73-94 | two different plain trees never have the same text |
| `JsonBuffer.Buffer.AddToBuf` | build_json.c:22-57 | contents, terminator and room survive doubling; a string is appended whole, or left out whole when it does not fit and memory ran out |
| `JsonBuffer.LastHasNoComma` | build_json.c:98-133 | members with a comma behind each and then one without are an object's member list |
| `JsonBuffer.ListGrows` | build_json.c:264-269 | the needComma loop writes a comma before every element but the first |
| `BuildJson.AddService` | build_json.c:98-134 | the service's part of the tree is appended |
| `BuildJson.AddClientConnection` | build_json.c:138-239 | the connection's part of the tree, each optional member exactly under its condition |
| `BuildJson.AddProxyInstance` | build_json.c:243-281 | the proxy with all its services and connections in order |
| `BuildJson.AddTunnels` | build_json.c:351-361 | all tunnels with a port, in order and separated |
| `BuildJson.BuildJson` | build_json.c:315-370 | the buffer holds exactly the text of the document tree, balanced and without stray commas, unless some string was left out, which only a failed reallocation can cause; it stays terminated in any case |
| `BuildJson.DocumentReadsBack` | build_json.c:315-370 | the document reads back as the tree if and only if none of its strings needs escaping |
| `StatusReader.ConnectionField` | build_json.c:138-239 | under every name a reader finds of a connection just what belongs there, and nothing under any other name |
| `StatusReader.ServiceField` | build_json.c:98-134 | the same of a service |
| `StatusReader.TunnelField` | build_json.c:285-310 | the same of a tunnel |
| `StatusReader.TunnelFound` | build_json.c:351-361 | a tunnel is found under its name if and only if it has a port |
| `StatusReader.ProxyField` | build_json.c:243-281 | the same of a proxy |
| `StatusReader.WorldField` | build_json.c:315-370 | the same of the document |
| `StatusReader.ReaderFindsConnection` | build_json.c:138-370 | who reads the text and goes to a connection by proxy and number finds there what belongs to it |

## Left out

- IPv6: the server's parser reads and refuses such addresses, which the model follows; nothing else of it is modelled.
- Prefix 0 of a network: its mask shifts by the whole width of the type; prefixes are 1 to 32.
- `config_file_parse` itself (sections and settings of the main file); it recurses as `route_rule_file_parse` does but ignores nested results.
- Splitting a rule line into its words, substituting environment variables, and the include keyword: the meaning of a normalised line is a parameter of `IncludeFiles`; of the rule grammar, the network and via clauses are modelled.
- IncludeFiles.RouteRuleFileParse: reads files without faults and keeps file names as values (read errors are in `ConfigLines.ReadLine`), and keeps the rules as a sequence (linking them is `RouteRuleLists.InsertRouteRule`).
- TwoParty.TwoPartyAgreement: is about IPv4 or NUL-free names of at most 255 bytes, which is where the protocol can agree; `SocksCodec.LongNameIsMisread` and `SocksCodec.RelayTransparency` say what happens beyond.
- BuildJson.BuildJson: host addresses are printed from text, and the first allocation failing is left out; which strings a full memory leaves out is stated by `JsonBuffer.Buffer.AddToBuf`, one by one.
- ConnectionHandler.ServiceSocksConnectionHandler: does not say what an attempt that failed had asked of a server before it failed.
- Lifetime.LifetimeSafety: treats each access as atomic; the mutexes around them are not modelled.
- SshPolicy.CheckSshTunnel: leaves out pipes and the child's side of fork; only the parent's bookkeeping is modelled.
- LogFileCode.LogFile.LogFileRotate: takes a negative rotate count for 0: neither renames anything. Formatting of log lines is left out.
- Overflow of C integers in counters, buffer sizes and times, and writes beyond fixed-size buffers.
- `socks5_respond2` and the tunnel spec parser, which nothing calls; HTTP, port forwarding, listening sockets, signals, command line and user interface.
- Liveness beyond finite scripts: a call that is interrupted for ever is not considered.
