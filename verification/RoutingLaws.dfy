/** What a chosen rule demands of the destination, and what a matching one makes of it, in terms of characters and bits. */
module RoutingLaws {
  import opened Kernel
  import opened HostIds
  import opened ClientConnections
  import opened Networks
  import opened Socks
  import opened Routing

  //// Texts

  predicate IsUpper(c: byte) {
    65 <= c <= 90
  }

  /** Character p is character c as tolower gives it. */
  predicate LowersTo(c: byte, p: byte) {
    if IsUpper(c) then p == (c as int + 32) else p == c
  }

  predicate SameUpToCase(a: byte, b: byte) {
    || a == b
    || (IsUpper(a) && b == (a as int + 32))
    || (IsUpper(b) && a == (b as int + 32))
  }

  predicate BeginsWith(t: seq<byte>, p: seq<byte>) {
    |p| <= |t| && forall i :: 0 <= i < |p| ==> t[i] == p[i]
  }

  /** The pattern is compared with the end of the text after the text, and not the pattern, was lowered. */
  predicate LoweredEndsWith(t: seq<byte>, p: seq<byte>) {
    |p| <= |t| && forall i :: 0 <= i < |p| ==> LowersTo(t[|t| - |p| + i], p[i])
  }

  predicate StandsAt(t: seq<byte>, p: seq<byte>, at: nat) {
    at + |p| <= |t| && forall i :: 0 <= i < |p| ==> SameUpToCase(t[at + i], p[i])
  }

  predicate StandsIn(t: seq<byte>, p: seq<byte>) {
    exists at :: 0 <= at <= |t| && StandsAt(t, p, at)
  }

  lemma EndsWithIs(t: seq<byte>, p: seq<byte>)
    ensures EndsWith(t, p) <==> LoweredEndsWith(t, p)
  {
    if |p| <= |t| {
      var end := Lower(t)[|t| - |p|..];
      assert forall i :: 0 <= i < |p| ==> end[i] == Lower(t)[|t| - |p| + i];
    }
  }

  lemma OccursAtIs(t: seq<byte>, p: seq<byte>, at: nat)
    ensures OccursAt(t, p, at) <==> StandsAt(t, p, at)
  {
    if at + |p| <= |t| {
      var part := t[at..at + |p|];
      if OccursAt(t, p, at) {
        forall i | 0 <= i < |p| ensures SameUpToCase(t[at + i], p[i]) {
          assert Lower(part)[i] == Lower(p)[i];
        }
      }
      if StandsAt(t, p, at) {
        forall i | 0 <= i < |p| ensures Lower(part)[i] == Lower(p)[i] {
          assert SameUpToCase(t[at + i], p[i]);
        }
        assert Lower(part) == Lower(p);
      }
    }
  }

  lemma ContainsIs(t: seq<byte>, p: seq<byte>)
    ensures Contains(t, p) <==> StandsIn(t, p)
  {
    forall at: nat ensures OccursAt(t, p, at) <==> StandsAt(t, p, at) {
      OccursAtIs(t, p, at);
    }
  }

  //// The text of an address

  predicate AllDigits(s: seq<byte>) {
    s != [] && forall i :: 0 <= i < |s| ==> 48 <= s[i] <= 57
  }

  function ValueOf(s: seq<byte>): int {
    if s == [] then 0 else 10 * ValueOf(s[..|s| - 1]) + (s[|s| - 1] as int - 48)
  }

  /** A number in decimal has digits only, no leading zero, and its own value. */
  lemma {:induction false} DecimalReads(n: nat)
    ensures AllDigits(Decimal(n)) && ValueOf(Decimal(n)) == n && (n > 0 ==> Decimal(n)[0] != 48)
  {
    if n < 10 {
      assert Decimal(n)[..0] == [];
    } else {
      DecimalReads(n / 10);
      assert Decimal(n)[..|Decimal(n)| - 1] == Decimal(n / 10);
    }
  }

  /** Four numbers below 256 with dots between them. */
  predicate IsQuad(t: seq<byte>, a: seq<byte>, b: seq<byte>, c: seq<byte>, d: seq<byte>) {
    && t == a + [46] + b + [46] + c + [46] + d
    && AllDigits(a) && AllDigits(b) && AllDigits(c) && AllDigits(d)
    && 0 <= ValueOf(a) < 256 && 0 <= ValueOf(b) < 256 && 0 <= ValueOf(c) < 256 && 0 <= ValueOf(d) < 256
  }

  function QuadValue(a: seq<byte>, b: seq<byte>, c: seq<byte>, d: seq<byte>): int {
    ((ValueOf(a) * 256 + ValueOf(b)) * 256 + ValueOf(c)) * 256 + ValueOf(d)
  }

  /** The text of an address is four numbers with dots between, and their values, most significant first, are the address. */
  lemma DottedQuadReads(ip: nat)
    requires IsWord(ip)
    ensures exists a, b, c, d :: IsQuad(DottedQuad(ip), a, b, c, d) && QuadValue(a, b, c, d) == ip
  {
    var bytes := BytesOfIp(ip);
    var a, b, c, d := Decimal(bytes[0]), Decimal(bytes[1]), Decimal(bytes[2]), Decimal(bytes[3]);
    DecimalReads(bytes[0]);
    DecimalReads(bytes[1]);
    DecimalReads(bytes[2]);
    DecimalReads(bytes[3]);
    IpOfBytesBack(ip);
    assert IsQuad(DottedQuad(ip), a, b, c, d) && QuadValue(a, b, c, d) == ip;
  }

  /** The texts that conditions are tried on: the name, if there is one, and the address, if there is one. */
  function TextsOf(host: HostId): set<seq<byte>> {
    (if host.name == [] then {} else {host.name}) + if host.addr.Inet? then {DottedQuad(host.addr.ip)} else {}
  }

  lemma EitherTextIs(host: HostId, p: seq<byte> -> bool)
    ensures EitherText(LocalsOf(host), p) <==> exists t :: t in TextsOf(host) && p(t)
  {
    var l := LocalsOf(host);
    if l.name.Some? && p(l.name.value) {
      assert host.name in TextsOf(host);
    }
    if l.ipaddr.Some? && p(l.ipaddr.value) {
      assert DottedQuad(host.addr.ip) in TextsOf(host);
    }
  }

  //// What a rule demands

  ghost predicate NetworkMeets(net: Option<Network>, host: HostId) {
    net.Some? ==> host.addr.Inet? && AgreeOnMask(net.value, host.addr.ip)
  }

  /** Every given condition, of the texts, the port and the bits of the address. */
  ghost predicate Meets(rule: Rule, host: HostId, port: int) {
    && (rule.matchIs != [] ==> rule.matchIs in TextsOf(host))
    && (rule.matchStartsWith != [] ==> exists t :: t in TextsOf(host) && BeginsWith(t, rule.matchStartsWith))
    && (rule.matchEndsWith != [] ==> exists t :: t in TextsOf(host) && LoweredEndsWith(t, rule.matchEndsWith))
    && (rule.matchContains != [] ==> exists t :: t in TextsOf(host) && StandsIn(t, rule.matchContains))
    && (rule.matchPort != 0 ==> port == rule.matchPort)
    && NetworkMeets(rule.matchNetwork, host) && NetworkMeets(rule.mapNetwork, host)
  }

  /** The masks of a rule have 32 bits. */
  predicate WordMasks(rule: Rule) {
    && (rule.matchNetwork.Some? ==> IsWord(rule.matchNetwork.value.mask))
    && (rule.mapNetwork.Some? ==> IsWord(rule.mapNetwork.value.mask))
  }

  lemma StartConditions(rule: Rule, host: HostId)
    ensures EitherText(LocalsOf(host), s => s == rule.matchIs) <==> rule.matchIs in TextsOf(host)
    ensures EitherText(LocalsOf(host), s => StartsWith(s, rule.matchStartsWith)) <==>
      exists t :: t in TextsOf(host) && BeginsWith(t, rule.matchStartsWith)
  {
    EitherTextIs(host, s => s == rule.matchIs);
    EitherTextIs(host, s => StartsWith(s, rule.matchStartsWith));
    forall t ensures StartsWith(t, rule.matchStartsWith) <==> BeginsWith(t, rule.matchStartsWith) {
    }
  }

  lemma EndConditions(rule: Rule, host: HostId)
    ensures EitherText(LocalsOf(host), s => EndsWith(s, rule.matchEndsWith)) <==>
      exists t :: t in TextsOf(host) && LoweredEndsWith(t, rule.matchEndsWith)
    ensures EitherText(LocalsOf(host), s => Contains(s, rule.matchContains)) <==>
      exists t :: t in TextsOf(host) && StandsIn(t, rule.matchContains)
  {
    EitherTextIs(host, s => EndsWith(s, rule.matchEndsWith));
    EitherTextIs(host, s => Contains(s, rule.matchContains));
    forall t ensures EndsWith(t, rule.matchEndsWith) <==> LoweredEndsWith(t, rule.matchEndsWith) {
      EndsWithIs(t, rule.matchEndsWith);
    }
    forall t ensures Contains(t, rule.matchContains) <==> StandsIn(t, rule.matchContains) {
      ContainsIs(t, rule.matchContains);
    }
  }

  lemma NetworkConditions(rule: Rule, host: HostId)
    requires WordMasks(rule)
    ensures NetworkAllows(rule.matchNetwork, LocalsOf(host)) <==> NetworkMeets(rule.matchNetwork, host)
    ensures NetworkAllows(rule.mapNetwork, LocalsOf(host)) <==> NetworkMeets(rule.mapNetwork, host)
  {
    if host.addr.Inet? {
      if rule.matchNetwork.Some? {
        MatchesBits(rule.matchNetwork.value, host.addr.ip);
      }
      if rule.mapNetwork.Some? {
        MatchesBits(rule.mapNetwork.value, host.addr.ip);
      }
    }
  }

  /** A rule matches a destination exactly when the destination meets all its conditions. */
  lemma AppliesIffMeets(rule: Rule, host: HostId, port: int)
    requires WordMasks(rule)
    ensures Applies(rule, LocalsOf(host), port) <==> Meets(rule, host, port)
  {
    StartConditions(rule, host);
    EndConditions(rule, host);
    NetworkConditions(rule, host);
  }

  /** The rule names a tunnel, and the destination as rewritten up to it meets all its conditions. */
  ghost predicate MetAndFinal(rules: seq<Rule>, dns: Resolver, start: Destination, j: nat)
    requires j < |rules|
  {
    rules[j].tunnel != [] && rules[j].tunnel[0] != null && Meets(rules[j], Before(rules, dns, start, j).host, start.host.port)
  }

  /** The rule that is chosen is the first one of that kind; none is chosen exactly when there is none. */
  lemma ChosenMeets(rules: seq<Rule>, dns: Resolver, start: Destination, k: nat)
    requires forall j :: 0 <= j < |rules| ==> WordMasks(rules[j])
    requires k <= |rules|
    ensures IsChoice(rules, dns, start, k) <==>
      (k < |rules| ==> MetAndFinal(rules, dns, start, k)) && forall j: nat :: j < k ==> !MetAndFinal(rules, dns, start, j)
  {
    forall j: nat | j < |rules| ensures Selects(rules, dns, start, j) <==> MetAndFinal(rules, dns, start, j) {
      AppliesIffMeets(rules[j], Before(rules, dns, start, j).host, start.host.port);
    }
  }

  //// What a rule makes of the destination

  /** An address whose port field says what the port says. */
  predicate Coherent(host: HostId) {
    host.addr.Inet? ==> host.addr.sinPort == Htons(host.port)
  }

  /** The bits of the mask are the target's, and all others are kept; the name is dropped and the address type is IPv4. */
  ghost predicate Moved(to: Network, d: Destination, e: Destination) {
    && d.host.addr.Inet? && e.host.addr.Inet? && e.host.name == [] && e.addressType == ADDRTYPE_IPV4
    && (forall i: nat :: i < 32 ==> Bit(e.host.addr.ip, i) == if Bit(to.mask, i) == 1 then Bit(to.addr, i) else Bit(d.host.addr.ip, i))
    && e.host.port == Htons(d.host.port) && Coherent(e.host)
  }

  /** The name has been found to mean an address; nothing else has changed. */
  predicate Found(ip: nat, d: Destination, e: Destination) {
    && e.host.name == d.host.name && e.addressType == d.addressType
    && e.host.addr == Inet(ip, Htons(d.host.port)) && e.host.port == Htons(d.host.port)
  }

  /**
    One rule's effect: none when its conditions are not met; a move when it has a target network and the
    destination an address; the resolver's answer when it asks for one and there is a name; else none.
   */
  lemma RuleEffect(rules: seq<Rule>, dns: Resolver, start: Destination, i: nat)
    requires i < |rules| && WordMasks(rules[i])
    ensures var d, e, rule := Before(rules, dns, start, i), Before(rules, dns, start, i + 1), rules[i];
      if !Meets(rule, d.host, start.host.port) then e == d
      else if rule.toNetwork.Some? && d.host.addr.Inet? then Moved(rule.toNetwork.value, d, e)
      else if rule.resolveDns && d.host.name != [] && dns(i, d.host.name).Some? then Found(dns(i, d.host.name).value, d, e)
      else e == d
  {
    var d, rule := Before(rules, dns, start, i), rules[i];
    AppliesIffMeets(rule, d.host, start.host.port);
    if rule.toNetwork.Some? && d.host.addr.Inet? {
      forall b: nat | b < 32
        ensures Bit(Rewrite(d.host.addr.ip, rule.toNetwork.value), b) ==
          if Bit(rule.toNetwork.value.mask, b) == 1 then Bit(rule.toNetwork.value.addr, b) else Bit(d.host.addr.ip, b)
      {
        RewriteBits(d.host.addr.ip, rule.toNetwork.value, b);
      }
    }
  }
}
