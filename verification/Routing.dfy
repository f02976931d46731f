/** The rule engine: rules are tried in order, each may rewrite the destination, the first final one wins. */
module Routing {
  import opened Kernel
  import opened HostIds
  import opened ClientConnections
  import opened Networks
  import opened Socks

  //// Text conditions

  function Lower(s: seq<byte>): (r: seq<byte>)
    ensures |r| == |s|
  {
    seq(|s|, i requires 0 <= i < |s| => if 65 <= s[i] <= 90 then (s[i] as int + 32) as byte else s[i])
  }

  predicate StartsWith(s: seq<byte>, start: seq<byte>) {
    start <= s
  }

  /** Only the subject is lowered, as in string_ends_with. */
  predicate EndsWith(s: seq<byte>, end: seq<byte>) {
    |end| <= |s| && Lower(s)[|s| - |end|..] == end
  }

  predicate OccursAt(s: seq<byte>, part: seq<byte>, i: nat) {
    i + |part| <= |s| && Lower(s[i..i + |part|]) == Lower(part)
  }

  predicate Contains(s: seq<byte>, part: seq<byte>) {
    exists i :: 0 <= i <= |s| && OccursAt(s, part, i)
  }

  function Decimal(n: nat): seq<byte> {
    if n < 10 then [(48 + n) as byte] else Decimal(n / 10) + [(48 + n % 10) as byte]
  }

  function DottedQuad(ip: nat): seq<byte> {
    var b := BytesOfIp(ip);
    Decimal(b[0]) + [46] + Decimal(b[1]) + [46] + Decimal(b[2]) + [46] + Decimal(b[3])
  }

  /** The local copies the engine keeps of the destination. */
  datatype Locals = Locals(name: Option<seq<byte>>, ipaddr: Option<seq<byte>>, inet: bool, ipv4: nat)

  function NameOf(dst: HostId): Option<seq<byte>> {
    if dst.HasName() then Some(dst.name) else None
  }

  function LocalsOf(dst: HostId): Locals {
    if dst.HasAddr() then Locals(NameOf(dst), Some(DottedQuad(dst.addr.ip)), true, dst.addr.ip)
    else Locals(NameOf(dst), None, false, 0)
  }

  predicate EitherText(l: Locals, p: seq<byte> -> bool) {
    (l.name.Some? && p(l.name.value)) || (l.ipaddr.Some? && p(l.ipaddr.value))
  }

  predicate NetworkAllows(net: Option<Network>, l: Locals) {
    net.Some? ==> l.ipaddr.Some? && l.inet && Matches(net.value, l.ipv4)
  }

  /** All the conditions of a rule. */
  predicate Applies(rule: Rule, l: Locals, port: int) {
    && (rule.matchIs != [] ==> EitherText(l, s => s == rule.matchIs))
    && (rule.matchStartsWith != [] ==> EitherText(l, s => StartsWith(s, rule.matchStartsWith)))
    && (rule.matchEndsWith != [] ==> EitherText(l, s => EndsWith(s, rule.matchEndsWith)))
    && (rule.matchContains != [] ==> EitherText(l, s => Contains(s, rule.matchContains)))
    && (rule.matchPort != 0 ==> rule.matchPort == port)
    && NetworkAllows(rule.matchNetwork, l)
    && NetworkAllows(rule.mapNetwork, l)
  }

  //// The specification: how far the destination is rewritten, and which rule wins

  datatype Destination = Destination(host: HostId, addressType: byte)

  /** A resolver may answer differently each time; the index tells at which rule it is asked. */
  type Resolver = (nat, seq<byte>) -> Option<nat>

  function ApplyTo(rule: Rule, d: Destination): Destination {
    if rule.toNetwork.Some? && d.host.HasAddr() then
      var ip := Rewrite(d.host.addr.ip, rule.toNetwork.value);
      Destination(d.host.SetAddrIn(ip, Htons(d.host.port)).SetName([]), ADDRTYPE_IPV4)
    else d
  }

  function ApplyResolve(rule: Rule, i: nat, dns: Resolver, d: Destination): Destination {
    if rule.resolveDns && d.host.HasName() && dns(i, d.host.name).Some? then
      d.(host := d.host.SetAddrIn(dns(i, d.host.name).value, Htons(d.host.port)))
    else d
  }

  function Permute(rule: Rule, i: nat, dns: Resolver, d: Destination): Destination {
    ApplyResolve(rule, i, dns, ApplyTo(rule, d))
  }

  /** The destination as rewritten by all matching rules before rule i. */
  function Before(rules: seq<Rule>, dns: Resolver, start: Destination, i: nat): Destination
    requires i <= |rules|
  {
    if i == 0 then start
    else
      var d := Before(rules, dns, start, i - 1);
      if Applies(rules[i - 1], LocalsOf(d.host), start.host.port) then Permute(rules[i - 1], i - 1, dns, d) else d
  }

  /** Rule i matches the destination it sees and has tunnels. */
  predicate Selects(rules: seq<Rule>, dns: Resolver, start: Destination, i: nat)
    requires i < |rules|
  {
    rules[i].Final() && Applies(rules[i], LocalsOf(Before(rules, dns, start, i).host), start.host.port)
  }

  ghost predicate NoneBefore(rules: seq<Rule>, dns: Resolver, start: Destination, k: nat)
    requires k <= |rules|
  {
    forall j: nat :: j < k ==> !Selects(rules, dns, start, j)
  }

  /** k is the first selecting rule, or the number of rules if there is none. */
  ghost predicate IsChoice(rules: seq<Rule>, dns: Resolver, start: Destination, k: nat) {
    k <= |rules| && (k < |rules| ==> Selects(rules, dns, start, k)) && NoneBefore(rules, dns, start, k)
  }

  ghost predicate AnySelects(rules: seq<Rule>, dns: Resolver, start: Destination) {
    exists j: nat :: j < |rules| && Selects(rules, dns, start, j)
  }

  /** The destination the choice leaves behind. */
  function After(rules: seq<Rule>, dns: Resolver, start: Destination, k: nat): Destination
    requires k <= |rules|
  {
    Before(rules, dns, start, if k < |rules| then k + 1 else k)
  }

  //// The loop

  /** One text condition, evaluated as the engine does: name first, then address. */
  method CheckText(l: Locals, given: bool, p: seq<byte> -> bool, applies: bool) returns (r: bool)
    ensures r == (applies && (given ==> EitherText(l, p)))
  {
    r := applies;
    if r && given {
      r := false;
      if l.name.Some? && p(l.name.value) {
        r := true;
      }
      if l.ipaddr.Some? && p(l.ipaddr.value) {
        r := true;
      }
    }
  }

  method CheckNetwork(l: Locals, net: Option<Network>, applies: bool) returns (r: bool)
    ensures r == (applies && NetworkAllows(net, l))
  {
    r := applies;
    if r && net.Some? {
      r := false;
      if l.ipaddr.Some? && l.inet {
        var dstNet := BitAnd(l.ipv4, net.value.mask);
        var ruleNet := BitAnd(net.value.addr, net.value.mask);
        if dstNet == ruleNet {
          r := true;
        }
      }
    }
  }

  method CheckConditions(rule: Rule, l: Locals, port: int) returns (applies: bool)
    ensures applies == Applies(rule, l, port)
  {
    applies := true;
    applies := CheckText(l, rule.matchIs != [], s => s == rule.matchIs, applies);
    applies := CheckText(l, rule.matchStartsWith != [], s => StartsWith(s, rule.matchStartsWith), applies);
    applies := CheckText(l, rule.matchEndsWith != [], s => EndsWith(s, rule.matchEndsWith), applies);
    applies := CheckText(l, rule.matchContains != [], s => Contains(s, rule.matchContains), applies);
    if applies && rule.matchPort != 0 {
      if rule.matchPort != port {
        applies := false;
      }
    }
    applies := CheckNetwork(l, rule.matchNetwork, applies);
    applies := CheckNetwork(l, rule.mapNetwork, applies);
  }

  /** The permutations of a matching rule; the local copies are refreshed after each. */
  method PermuteDestination(rule: Rule, i: nat, dns: Resolver, con: ClientConnection, cached: Locals) returns (l: Locals)
    requires cached == LocalsOf(con.dstHost)
    modifies con`dstHost, con`socksAddressType
    ensures l == LocalsOf(con.dstHost)
    ensures Destination(con.dstHost, con.socksAddressType) ==
            Permute(rule, i, dns, old(Destination(con.dstHost, con.socksAddressType)))
  {
    l := cached;
    if rule.toNetwork.Some? {
      if l.ipaddr.Some? && l.inet {
        var newIp := Rewrite(l.ipv4, rule.toNetwork.value);
        con.dstHost := con.dstHost.SetAddrIn(newIp, Htons(con.dstHost.port));
        con.dstHost := con.dstHost.SetName([]);
        con.socksAddressType := ADDRTYPE_IPV4;
        l := LocalsOf(con.dstHost);
      }
    }
    if rule.resolveDns {
      if con.dstHost.HasName() {
        var answer := dns(i, con.dstHost.name);
        if answer.Some? {
          con.dstHost := con.dstHost.SetAddrIn(answer.value, Htons(con.dstHost.port));
        }
        l := LocalsOf(con.dstHost);
      }
    }
  }

  /** The body of the loop: a matching rule rewrites the destination, and with tunnels it is selected. */
  method VisitRule(rules: seq<Rule>, i: nat, dns: Resolver, con: ClientConnection, cached: Locals, port: int, ghost start: Destination)
    returns (selected: bool, l: Locals)
    requires i < |rules| && cached == LocalsOf(con.dstHost) && port == start.host.port
    requires Destination(con.dstHost, con.socksAddressType) == Before(rules, dns, start, i) && NoneBefore(rules, dns, start, i)
    modifies con`dstHost, con`socksAddressType
    ensures l == LocalsOf(con.dstHost)
    ensures if selected then IsChoice(rules, dns, start, i) else NoneBefore(rules, dns, start, i + 1)
    ensures Destination(con.dstHost, con.socksAddressType) == Before(rules, dns, start, i + 1)
  {
    l := cached;
    var rule := rules[i];
    var applies := CheckConditions(rule, l, port);
    if applies {
      l := PermuteDestination(rule, i, dns, con, l);
    }
    selected := applies && rule.tunnel != [] && rule.tunnel[0] != null;
  }

  /** The loop over the rules, up to the first that is selected. */
  method FirstSelected(rules: seq<Rule>, dns: Resolver, con: ClientConnection) returns (applicable: Option<Rule>, ghost k: nat)
    modifies con`dstHost, con`socksAddressType
    ensures IsChoice(rules, dns, old(Destination(con.dstHost, con.socksAddressType)), k)
    ensures applicable == if k < |rules| then Some(rules[k]) else None
    ensures Destination(con.dstHost, con.socksAddressType) ==
            After(rules, dns, old(Destination(con.dstHost, con.socksAddressType)), k)
  {
    ghost var start := Destination(con.dstHost, con.socksAddressType);
    var l := LocalsOf(con.dstHost);
    var port := con.dstHost.port;
    applicable, k := None, |rules|;
    var i := 0;
    while i < |rules| && applicable.None?
      invariant 0 <= i <= |rules| && port == start.host.port
      invariant l == LocalsOf(con.dstHost)
      invariant Destination(con.dstHost, con.socksAddressType) == Before(rules, dns, start, i)
      invariant applicable.None? ==> k == |rules| && NoneBefore(rules, dns, start, i)
      invariant applicable.Some? ==> IsChoice(rules, dns, start, k) && i == k + 1 && applicable.value == rules[k]
    {
      var selected;
      selected, l := VisitRule(rules, i, dns, con, l, port, start);
      if selected {
        applicable, k := Some(rules[i]), i;
      }
      i := i + 1;
    }
  }

  /**
    The engine ends with the first rule that selects, on the destination rewritten by all
    earlier matching rules. Without one it stores the default rule and reports failure.
    The original destination, the command and everything else of the connection stay.
   */
  method DecideApplicableRule(rules: seq<Rule>, dns: Resolver, defaultDirect: Rule, con: ClientConnection)
    returns (ok: bool, ghost k: nat)
    modifies con`dstHost, con`socksAddressType, con`route
    ensures IsChoice(rules, dns, old(Destination(con.dstHost, con.socksAddressType)), k) && ok == (k < |rules|)
    ensures con.route == Some(if ok then rules[k] else defaultDirect)
    ensures Destination(con.dstHost, con.socksAddressType) ==
            After(rules, dns, old(Destination(con.dstHost, con.socksAddressType)), k)
  {
    var applicable: Option<Rule>;
    applicable, k := FirstSelected(rules, dns, con);
    ok := true;
    if applicable.None? {
      ok := false;
      applicable := Some(defaultDirect);
    }
    con.route := applicable;
  }

  //// Consequences

  lemma ChoiceIsUnique(rules: seq<Rule>, dns: Resolver, start: Destination, k: nat, k': nat)
    requires IsChoice(rules, dns, start, k) && IsChoice(rules, dns, start, k')
    ensures k == k'
  {
  }

  /** A rule is chosen exactly when any rule selects. */
  lemma ChosenIfAny(rules: seq<Rule>, dns: Resolver, start: Destination, k: nat)
    requires IsChoice(rules, dns, start, k)
    ensures k < |rules| <==> AnySelects(rules, dns, start)
  {
  }

  lemma {:induction false} BeforePrefix(rules: seq<Rule>, more: seq<Rule>, dns: Resolver, start: Destination, i: nat)
    requires i <= |rules|
    ensures Before(rules + more, dns, start, i) == Before(rules, dns, start, i)
  {
    if i > 0 {
      BeforePrefix(rules, more, dns, start, i - 1);
      assert (rules + more)[i - 1] == rules[i - 1];
    }
  }

  /** Rules after the chosen one never matter: neither to the choice nor to the rewriting. */
  lemma LaterRulesNeverMatter(rules: seq<Rule>, more: seq<Rule>, dns: Resolver, start: Destination, k: nat)
    requires k < |rules| && IsChoice(rules, dns, start, k)
    ensures IsChoice(rules + more, dns, start, k)
    ensures After(rules + more, dns, start, k) == After(rules, dns, start, k)
  {
    BeforePrefix(rules, more, dns, start, k + 1);
    forall j: nat | j <= k ensures Selects(rules + more, dns, start, j) == Selects(rules, dns, start, j) {
      BeforePrefix(rules, more, dns, start, j);
    }
  }

  /**
    What rewriting leaves alone, at every rule: the low 16 bits of the port, and so the
    port of every destination that is a legal one; the form a tunnel needs; and the name,
    which is either kept or dropped together with a change to an IPv4 address.
   */
  lemma {:induction false} RewritingKeeps(rules: seq<Rule>, dns: Resolver, start: Destination, i: nat)
    requires i <= |rules|
    ensures var d := Before(rules, dns, start, i);
      && Htons(d.host.port) == Htons(start.host.port)
      && (0 <= start.host.port < 0x1_0000 ==> d.host.port == start.host.port)
      && (d.host.port == start.host.port || d.host.port == Htons(start.host.port))
      && ((start.addressType == ADDRTYPE_IPV4 ==> start.host.HasAddr()) ==> d.addressType == ADDRTYPE_IPV4 ==> d.host.HasAddr())
      && ((d.host.name == start.host.name && d.addressType == start.addressType) ||
          (d.host.name == [] && d.addressType == ADDRTYPE_IPV4 && d.host.HasAddr()))
  {
    if i > 0 {
      RewritingKeeps(rules, dns, start, i - 1);
    }
  }

  /** Without a "to" rule the name and address type stay, and so does an address without a name. */
  lemma {:induction false} WithoutToNothingSentChanges(rules: seq<Rule>, dns: Resolver, start: Destination, i: nat)
    requires i <= |rules| && 0 <= start.host.port < 0x1_0000
    requires forall j :: 0 <= j < i ==> rules[j].toNetwork.None?
    ensures var d := Before(rules, dns, start, i);
      && d.addressType == start.addressType && d.host.name == start.host.name && d.host.port == start.host.port
      && (start.host.name == [] ==> d == start)
  {
    if i > 0 {
      WithoutToNothingSentChanges(rules, dns, start, i - 1);
    }
  }
}
