/** Host identifiers: a C-string name, an optional IPv4 socket address and a port. */
module HostIds {
  import opened Arithmetic
  import opened Kernel

  const MAX_DNS: nat := 260

  datatype Address = Unspecified | Inet(ip: nat, sinPort: nat)

  datatype HostId = HostId(name: seq<byte>, addr: Address, port: int) {
    predicate HasName() {
      name != []
    }

    predicate HasAddr() {
      addr.Inet?
    }

    /** strncpy into the 260-byte name field: the C string in raw, cut to 259 bytes. */
    function SetName(raw: seq<byte>): HostId {
      var s := CString(raw);
      this.(name := s[..Min(|s|, MAX_DNS - 1)])
    }

    function SetPort(p: int): HostId {
      HostId(name, if addr.Inet? then Inet(addr.ip, Htons(p)) else addr, p)
    }

    /** Copies a sockaddr_in; the port follows its 16-bit field. */
    function SetAddrIn(ip: nat, sinPort: nat): HostId {
      HostId(name, Inet(ip, sinPort), sinPort)
    }

    function SetAddrInFromByteArray(ipv4: seq<byte>, p: int): HostId
      requires |ipv4| == 4
    {
      HostId(name, Inet(IpOfBytes(ipv4), Htons(p)), p)
    }
  }

  const EMPTY_HOST := HostId([], Unspecified, 0)

  /** The bytes before the first NUL. */
  function CString(s: seq<byte>): (r: seq<byte>)
    ensures r <= s && 0 !in r
    ensures |r| < |s| ==> s[|r|] == 0
  {
    if s == [] || s[0] == 0 then [] else [s[0]] + CString(s[1..])
  }

  lemma {:induction false} CStringPrefix(s: seq<byte>, t: seq<byte>)
    requires 0 !in s
    ensures CString(s + t) == s + CString(t)
  {
    if s == [] {
      assert s + t == t;
    } else {
      assert (s + t)[0] == s[0] && (s + t)[1..] == s[1..] + t;
      CStringPrefix(s[1..], t);
    }
  }

  lemma CStringWhole(s: seq<byte>)
    requires 0 !in s
    ensures CString(s) == s
  {
    CStringPrefix(s, []);
    assert s + [] == s;
  }

  /** A name is stored up to its terminator, whatever follows it, and cut to what the field holds. */
  lemma NameIsStored(host: HostId, name: seq<byte>, behind: seq<byte>)
    requires 0 !in name
    ensures var stored := host.SetName(name + [0] + behind).name;
      stored == name[..Min(|name|, MAX_DNS - 1)] && (|name| < MAX_DNS ==> stored == name)
  {
    CStringPrefix(name, [0] + behind);
    assert name + [0] + behind == name + ([0] + behind);
    assert name + [] == name;
  }

  /** The conversion to a 16-bit port. */
  function Htons(port: int): (r: nat)
    ensures r < 0x1_0000
    ensures 0 <= port < 0x1_0000 ==> r == port
  {
    port % 0x1_0000
  }

  /** The two bytes of a port, most significant first. */
  function PortBytes(port: int): (r: seq<byte>)
    ensures |r| == 2
  {
    [port / 256 % 256, port % 256]
  }

  function PortOfBytes(b: seq<byte>): (r: int)
    requires |b| == 2
    ensures 0 <= r < 0x1_0000
  {
    b[0] as int * 256 + b[1] as int
  }

  lemma PortRoundTrip(port: int, b: seq<byte>)
    requires |b| == 2
    ensures PortOfBytes(PortBytes(port)) == Htons(port)
    ensures PortBytes(PortOfBytes(b)) == b
  {
  }

  function IpOfBytes(b: seq<byte>): (r: nat)
    requires |b| == 4
    ensures r < 0x1_0000_0000
  {
    ((b[0] as int * 256 + b[1] as int) * 256 + b[2] as int) * 256 + b[3] as int
  }

  function BytesOfIp(ip: nat): (r: seq<byte>)
    ensures |r| == 4
  {
    [ip / 0x100_0000 % 256, ip / 0x1_0000 % 256, ip / 0x100 % 256, ip % 256]
  }

  lemma BytesOfIpBack(b: seq<byte>)
    requires |b| == 4
    ensures BytesOfIp(IpOfBytes(b)) == b
  {
    var b0: int, b1: int, b2: int, b3: int := b[0], b[1], b[2], b[3];
    var n := IpOfBytes(b);
    DivModUnique(n, 256, (b0 * 256 + b1) * 256 + b2, b3);
    DivModUnique(n, 0x1_0000, b0 * 256 + b1, b2 * 256 + b3);
    DivModUnique(n, 0x100_0000, b0, (b1 * 256 + b2) * 256 + b3);
    DivModUnique((b0 * 256 + b1) * 256 + b2, 256, b0 * 256 + b1, b2);
    DivModUnique(b0 * 256 + b1, 256, b0, b1);
  }

  lemma IpOfBytesBack(ip: nat)
    requires ip < 0x1_0000_0000
    ensures IpOfBytes(BytesOfIp(ip)) == ip
  {
    var q3 := ip / 0x100_0000;
    var r3 := ip % 0x100_0000;
    var q2, r2 := r3 / 0x1_0000, r3 % 0x1_0000;
    var q1, r1 := r2 / 0x100, r2 % 0x100;
    assert ip == q3 * 0x100_0000 + q2 * 0x1_0000 + q1 * 0x100 + r1;
    DivModUnique(ip, 0x1_0000, q3 * 256 + q2, r2);
    DivModUnique(ip, 0x100, q3 * 0x1_0000 + q2 * 256 + q1, r1);
    DivModUnique(q3 * 256 + q2, 256, q3, q2);
    DivModUnique(q3 * 0x1_0000 + q2 * 256 + q1, 256, q3 * 256 + q2, q1);
    DivModUnique(q3, 256, 0, q3);
  }

  lemma IpRoundTrip(ip: nat, b: seq<byte>)
    requires ip < 0x1_0000_0000 && |b| == 4
    ensures IpOfBytes(BytesOfIp(ip)) == ip
    ensures BytesOfIp(IpOfBytes(b)) == b
  {
    IpOfBytesBack(ip);
    BytesOfIpBack(b);
  }
}
