/** The objects shared by the services: tunnels, routing rules and client connections. */
module ClientConnections {
  import opened Kernel
  import opened HostIds

  datatype Option<+T> = None | Some(value: T)

  /**
    Direct and null are single objects that the code tells apart by identity; here the role says
    which. Everything else is supervised, the third built-in tunnel included.
   */
  datatype Role = Direct | Null | Managed

  class SshTunnel {
    const name: seq<byte>
    const role: Role
    const socksPort: int   // where its server listens on this machine
    var mark: int
    var connectionCount: int
    var pid: int
    var startTime: int
    var lastUpdateTime: int

    constructor (name: seq<byte>, role: Role, socksPort: int)
      ensures this.name == name && this.role == role && this.socksPort == socksPort && pid == -1 && startTime == 0
    {
      this.name, this.role, this.socksPort := name, role, socksPort;
      mark, connectionCount, pid, startTime, lastUpdateTime := 0, 0, -1, 0, 0;
    }
  }

  datatype Network = Network(addr: nat, mask: nat)

  /** An empty pattern and port 0 are conditions that were not given. */
  datatype Rule = Rule(
    matchIs: seq<byte>,
    matchStartsWith: seq<byte>,
    matchEndsWith: seq<byte>,
    matchContains: seq<byte>,
    matchPort: int,
    matchNetwork: Option<Network>,
    mapNetwork: Option<Network>,
    toNetwork: Option<Network>,
    resolveDns: bool,
    tunnel: seq<SshTunnel?>)
  {
    /** The rule ends the search when its tunnel array is not empty. */
    predicate Final() {
      tunnel != [] && tunnel[0] != null
    }
  }

  class ClientConnection {
    var prev: ClientConnection?
    var next: ClientConnection?
    var threadHasExited: bool
    var endTime: int
    var fdIn: Socket?
    var fdOut: Socket?
    var bytesTx: nat
    var bytesRx: nat
    var route: Option<Rule>
    var tunnel: SshTunnel?
    var socksVersion: int
    var socksCommand: byte
    var socksCommandOriginal: byte
    var socksAddressType: byte
    var socksAddressTypeOriginal: byte
    var dstHost: HostId
    var dstHostOriginal: HostId

    constructor (fdIn: Socket?)
      ensures this.fdIn == fdIn && fdOut == null && prev == null && next == null
      ensures !threadHasExited && endTime == 0 && bytesTx == 0 && bytesRx == 0
      ensures route == None && tunnel == null && dstHost == EMPTY_HOST && dstHostOriginal == EMPTY_HOST
    {
      this.fdIn, fdOut, prev, next := fdIn, null, null, null;
      threadHasExited, endTime, bytesTx, bytesRx := false, 0, 0, 0;
      route, tunnel := None, null;
      socksVersion, socksCommand, socksCommandOriginal := 0, 0, 0;
      socksAddressType, socksAddressTypeOriginal := 0, 0;
      dstHost, dstHostOriginal := EMPTY_HOST, EMPTY_HOST;
    }
  }
}
