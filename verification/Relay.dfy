/** What the proxy does to a request on its way from the client to the server behind a tunnel. */
module Relay {
  import opened Kernel
  import opened HostIds
  import opened ClientConnections
  import opened Socks
  import opened SocksCodec
  import opened Routing

  function Requested(r: Request): Destination {
    Destination(r.host, r.addressType)
  }

  /**
    A SOCKS5 request decoded, routed by rules none of which rewrites with "to", and
    encoded again for the tunnel is byte for byte the original one, DNS lookups or not,
    exactly when it does not carry a name with a NUL in it.
   */
  lemma RoutedRequestIsTransparent(s: seq<byte>, rules: seq<Rule>, dns: Resolver, k: nat)
    requires ParseSocks5Command(s, EMPTY_HOST).Got?
    requires IsChoice(rules, dns, Requested(ParseSocks5Command(s, EMPTY_HOST).value), k)
    requires forall j :: 0 <= j < |rules| && j <= k ==> rules[j].toNetwork.None?
    ensures var parsed := ParseSocks5Command(s, EMPTY_HOST);
      var r, d := parsed.value, After(rules, dns, Requested(parsed.value), k);
      && |s| - |parsed.rest| >= 7
      && (d.addressType == ADDRTYPE_IPV4 ==> d.host.addr.Inet?)
      && var wire := s[..|s| - |parsed.rest|];
      EncodeRequest(r.command, d.addressType, d.host) == wire <==>
      (r.addressType == ADDRTYPE_DOMAIN ==> 0 !in WireName(wire))
  {
    RelayTransparency(s);
    var r := ParseSocks5Command(s, EMPTY_HOST).value;
    WithoutToNothingSentChanges(rules, dns, Requested(r), if k < |rules| then k + 1 else k);
    var addr, port := WireOfParse5(s, EMPTY_HOST);
    assert r.addressType == ADDRTYPE_IPV4 ==> r.host.name == [];
  }
}
