/** The tunnel array of a rule: filled by the "via" parser, kept NULL-terminated, scanned without a bound. */
module RouteRules {
  import opened Kernel
  import opened ClientConnections

  const MAX_SSH_TUNNELS_PER_RULE: nat := 100

  /** There is a terminator, and it is no later than the last entry. */
  ghost predicate Terminated(tunnel: seq<SshTunnel?>) {
    |tunnel| == MAX_SSH_TUNNELS_PER_RULE && null in tunnel
  }

  /** The tunnels before the terminator. */
  function Tunnels(tunnel: seq<SshTunnel?>): (r: seq<SshTunnel>)
    ensures |r| <= |tunnel| && forall i :: 0 <= i < |r| ==> r[i] == tunnel[i]
    ensures |r| < |tunnel| ==> tunnel[|r|] == null
  {
    if tunnel == [] || tunnel[0] == null then [] else [tunnel[0]] + Tunnels(tunnel[1..])
  }

  lemma {:induction false} TunnelsOf(tunnel: seq<SshTunnel?>, r: seq<SshTunnel>)
    requires |r| < |tunnel| && tunnel[|r|] == null
    requires forall i :: 0 <= i < |r| ==> r[i] == tunnel[i]
    ensures Tunnels(tunnel) == r
  {
    if r != [] {
      TunnelsOf(tunnel[1..], r[1..]);
      assert r == [r[0]] + r[1..];
    }
  }

  lemma TerminatedFits(tunnel: seq<SshTunnel?>)
    requires Terminated(tunnel)
    ensures |Tunnels(tunnel)| < MAX_SSH_TUNNELS_PER_RULE
  {
    var k :| 0 <= k < |tunnel| && tunnel[k] == null;
  }

  /** What a name means: the first listed tunnel that has it. */
  function Find(name: seq<byte>, list: seq<SshTunnel>): SshTunnel? {
    if list == [] then null else if list[0].name == name then list[0] else Find(name, list[1..])
  }

  /** Finding gives the first listed tunnel of the name, and nothing only when there is none. */
  lemma {:induction false} FindIsListed(name: seq<byte>, list: seq<SshTunnel>)
    ensures Find(name, list) != null ==> exists i :: IsFirst(name, list, i) && list[i] == Find(name, list)
    ensures Find(name, list) == null ==> forall i :: 0 <= i < |list| ==> list[i].name != name
  {
    if list != [] {
      FindIsListed(name, list[1..]);
      assert forall i :: 1 <= i < |list| ==> list[i] == list[1..][i - 1];
      if list[0].name == name {
        assert IsFirst(name, list, 0);
      } else if Find(name, list) != null {
        var i :| IsFirst(name, list[1..], i) && list[1..][i] == Find(name, list);
        assert IsFirst(name, list, i + 1);
      }
    }
  }

  predicate IsFirst(name: seq<byte>, list: seq<SshTunnel>, i: int) {
    0 <= i < |list| && list[i].name == name && forall j :: 0 <= j < i ==> list[j].name != name
  }

  /** The tunnels a "via" clause names, empty names skipped; None when one is not listed. */
  function Named(names: seq<seq<byte>>, list: seq<SshTunnel>): Option<seq<SshTunnel>> {
    if names == [] then Some([])
    else
      var last := names[|names| - 1];
      match Named(names[..|names| - 1], list)
      case None => None
      case Some(found) =>
        if last == [] then Some(found)
        else if Find(last, list) == null then None
        else Some(found + [Find(last, list)])
  }

  /** The names that are not empty, in order. */
  function Given(names: seq<seq<byte>>): (given: seq<seq<byte>>)
    ensures forall name :: name in given <==> name in names && name != []
  {
    if names == [] then []
    else Given(names[..|names| - 1]) + if names[|names| - 1] == [] then [] else [names[|names| - 1]]
  }

  ghost predicate IsNameOf(name: seq<byte>, list: seq<SshTunnel>, t: SshTunnel) {
    exists i :: IsFirst(name, list, i) && list[i] == t
  }

  predicate IsListed(name: seq<byte>, list: seq<SshTunnel>) {
    exists i :: 0 <= i < |list| && list[i].name == name
  }

  /** All given names are listed, or there is nothing; and then each stands for the first listed tunnel that has it. */
  lemma {:induction false} NamedIsWhatIsListed(names: seq<seq<byte>>, list: seq<SshTunnel>)
    ensures Named(names, list).Some? <==> forall name :: name in names && name != [] ==> IsListed(name, list)
    ensures Named(names, list).Some? ==>
      var found, given := Named(names, list).value, Given(names);
      |found| == |given| && forall k :: 0 <= k < |found| ==> IsNameOf(given[k], list, found[k])
  {
    if names != [] {
      var before, last := names[..|names| - 1], names[|names| - 1];
      NamedIsWhatIsListed(before, list);
      assert names == before + [last];
      FindIsListed(last, list);
      assert Find(last, list) != null <==> IsListed(last, list);
    }
  }

  function Capped(found: seq<SshTunnel>): seq<SshTunnel> {
    found[..Min(|found|, MAX_SSH_TUNNELS_PER_RULE - 1)]
  }

  method FindTunnel(name: seq<byte>, list: seq<SshTunnel>) returns (ssh: SshTunnel?)
    ensures ssh == Find(name, list)
  {
    var i := 0;
    while i < |list|
      invariant 0 <= i <= |list|
      invariant Find(name, list) == Find(name, list[i..])
    {
      if list[i].name == name {
        return list[i];
      }
      i := i + 1;
    }
    return null;
  }

  /** Puts a tunnel where the terminator was and the terminator behind it, unless 99 are there already. */
  method AppendTunnel(tunnel: array<SshTunnel?>, ssh: SshTunnel)
    requires Terminated(tunnel[..])
    modifies tunnel
    ensures Terminated(tunnel[..])
    ensures Tunnels(tunnel[..]) == Capped(Tunnels(old(tunnel[..])) + [ssh])
  {
    ghost var before := Tunnels(tunnel[..]);
    TerminatedFits(tunnel[..]);
    var i := 0;
    while i < MAX_SSH_TUNNELS_PER_RULE - 1 && tunnel[i] != null
      invariant 0 <= i <= |before|
      invariant tunnel[..] == old(tunnel[..])
    {
      i := i + 1;
    }
    assert i == |before|;
    if i < MAX_SSH_TUNNELS_PER_RULE - 1 {
      tunnel[i] := ssh;
      tunnel[i + 1] := null;
      assert tunnel[..][i + 1] == null;
      TunnelsOf(tunnel[..], before + [ssh]);
    }
  }

  /**
    Parsing "via" over an array whose first entry is NULL and whose others are anything:
    the array comes to hold, for the given names in order, the first listed tunnel of each, at most
    99 of them, terminated; a given name that is not listed is an error, and nothing else is.
   */
  method ParseVia(names: seq<seq<byte>>, list: seq<SshTunnel>, tunnel: array<SshTunnel?>) returns (ok: bool)
    requires tunnel.Length == MAX_SSH_TUNNELS_PER_RULE && tunnel[0] == null
    modifies tunnel
    ensures Terminated(tunnel[..])
    ensures ok <==> forall name :: name in names && name != [] ==> IsListed(name, list)
    ensures ok ==>
      var given, found := Given(names), Tunnels(tunnel[..]);
      |found| == Min(|given|, 99) && forall k :: 0 <= k < |found| ==> IsNameOf(given[k], list, found[k])
    ensures forall t :: t in Tunnels(tunnel[..]) ==> t in list
  {
    NamedIsWhatIsListed(names, list);
    ok := true;
    assert tunnel[..][0] == null;
    var k := 0;
    while ok && k < |names|
      invariant 0 <= k <= |names| && Terminated(tunnel[..])
      invariant ok ==> Named(names[..k], list).Some? && Tunnels(tunnel[..]) == Capped(Named(names[..k], list).value)
      invariant !ok ==> Named(names, list).None?
      invariant forall t :: t in Tunnels(tunnel[..]) ==> t in list
    {
      ok := NextVia(names, k, list, tunnel);
      k := k + 1;
    }
    assert names[..|names|] == names;
  }

  /** One turn of the loop: an empty name is skipped, any other looked up. */
  method NextVia(names: seq<seq<byte>>, k: nat, list: seq<SshTunnel>, tunnel: array<SshTunnel?>) returns (ok: bool)
    requires k < |names| && Terminated(tunnel[..])
    requires Named(names[..k], list).Some? && Tunnels(tunnel[..]) == Capped(Named(names[..k], list).value)
    requires forall t :: t in Tunnels(tunnel[..]) ==> t in list
    modifies tunnel
    ensures Terminated(tunnel[..])
    ensures ok ==> Named(names[..k + 1], list).Some? && Tunnels(tunnel[..]) == Capped(Named(names[..k + 1], list).value)
    ensures !ok ==> Named(names, list).None?
    ensures forall t :: t in Tunnels(tunnel[..]) ==> t in list
  {
    ok := true;
    assert names[..k + 1][..k] == names[..k];
    if |names[k]| > 0 {
      var ssh := FindTunnel(names[k], list);
      if ssh == null {
        ok := false;
        NamedPrefix(names, list, k + 1);
      } else {
        FindIsListed(names[k], list);
        AppendTunnel(tunnel, ssh);
      }
    }
  }

  lemma {:induction false} NamedPrefix(names: seq<seq<byte>>, list: seq<SshTunnel>, k: nat)
    requires k <= |names| && Named(names[..k], list).None?
    ensures Named(names, list).None?
    decreases |names| - k
  {
    if k == |names| {
      assert names[..k] == names;
    } else {
      assert names[..k + 1][..k] == names[..k];
      NamedPrefix(names, list, k + 1);
    }
  }

  /** The rule engine's test for a final rule, seen on the array. */
  lemma FinalHasTunnels(rule: Rule)
    requires Terminated(rule.tunnel)
    ensures rule.Final() <==> Tunnels(rule.tunnel) != []
  {
  }
}
