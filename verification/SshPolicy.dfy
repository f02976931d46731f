/** Which tunnels are needed, and the supervision of the processes that provide them. */
module SshPolicy {
  import opened ClientConnections
  import opened RouteRules

  const MIN_RESTART_INTERVAL := 2

  //// What the connections ask for

  /** The two fields of a connection that the mark phase reads under its lock. */
  datatype View = View(route: Option<Rule>, tunnel: SshTunnel?)

  ghost predicate AreViews(cons: seq<ClientConnection>, views: seq<View>)
    reads cons
  {
    |views| == |cons| && forall i :: 0 <= i < |cons| ==> views[i] == View(cons[i].route, cons[i].tunnel)
  }

  /** Routes have terminated arrays, and everything they and the connections point to is listed. */
  ghost predicate Listed(views: seq<View>, tunnels: set<SshTunnel>) {
    forall i :: 0 <= i < |views| && views[i].route.Some? ==>
      && Terminated(views[i].route.value.tunnel)
      && (views[i].tunnel != null ==> views[i].tunnel in tunnels)
      && forall t :: t in Tunnels(views[i].route.value.tunnel) ==> t in tunnels
  }

  /** How many of the first n connections are routed and hold tunnel t. */
  ghost function Holders(views: seq<View>, n: nat, t: SshTunnel): nat
    requires n <= |views|
  {
    if n == 0 then 0
    else Holders(views, n - 1, t) + if views[n - 1].route.Some? && views[n - 1].tunnel == t then 1 else 0
  }

  ghost function Multiplicity(s: seq<SshTunnel>, n: nat, t: SshTunnel): nat
    requires n <= |s|
  {
    if n == 0 then 0 else Multiplicity(s, n - 1, t) + if s[n - 1] == t then 1 else 0
  }

  /** How often t occurs in the lists of those of the first n that are routed but not connected. */
  ghost function Wants(views: seq<View>, n: nat, t: SshTunnel): nat
    requires n <= |views|
  {
    if n == 0 then 0
    else
      var v := views[n - 1];
      Wants(views, n - 1, t) +
      if v.route.Some? && v.tunnel == null then
        Multiplicity(Tunnels(v.route.value.tunnel), |Tunnels(v.route.value.tunnel)|, t)
      else 0
  }

  /** A connection requires t: it holds it, or its route lists it and it has none yet. */
  ghost predicate Requires(v: View, t: SshTunnel) {
    v.route.Some? && (v.tunnel == t || (v.tunnel == null && t in Tunnels(v.route.value.tunnel)))
  }

  //// The counts, as sizes of sets

  /** The first n sets side by side: their elements, each with the number of its set. */
  function Tagged<T(!new)>(parts: seq<set<T>>, n: nat): set<(int, T)>
    requires n <= |parts|
  {
    set p, x | 0 <= p < n && x in parts[p] :: (p, x)
  }

  function Paired<T(!new)>(k: int, s: set<T>): set<(int, T)> {
    set x | x in s :: (k, x)
  }

  lemma {:induction false} PairedCount<T(!new)>(k: int, s: set<T>)
    ensures |Paired(k, s)| == |s|
    decreases |s|
  {
    if y :| y in s {
      PairedCount(k, s - {y});
      assert Paired(k, s) == Paired(k, s - {y}) + {(k, y)};
    } else {
      assert Paired(k, s) == {};
    }
  }

  /** One set more adds its size. */
  lemma TaggedCount<T(!new)>(parts: seq<set<T>>, n: nat)
    requires n < |parts|
    ensures |Tagged(parts, n + 1)| == |Tagged(parts, n)| + |parts[n]|
  {
    PairedCount(n, parts[n]);
    assert Tagged(parts, n + 1) == Tagged(parts, n) + Paired(n, parts[n]);
    assert Tagged(parts, n) !! Paired(n, parts[n]);
  }

  /** The places of a list at which t stands. */
  ghost function PlacesOf(s: seq<SshTunnel>, n: nat, t: SshTunnel): set<int>
    requires n <= |s|
  {
    set j | 0 <= j < n && s[j] == t
  }

  lemma {:induction false} MultiplicityCounts(s: seq<SshTunnel>, n: nat, t: SshTunnel)
    requires n <= |s|
    ensures Multiplicity(s, n, t) == |PlacesOf(s, n, t)|
  {
    if n > 0 {
      var k := n - 1;
      MultiplicityCounts(s, k, t);
      assert PlacesOf(s, n, t) == PlacesOf(s, k, t) + if s[k] == t then {k} else {};
    }
  }

  /** The first n connections that are routed and hold tunnel t. */
  ghost function HoldersOf(views: seq<View>, n: nat, t: SshTunnel): set<int>
    requires n <= |views|
  {
    set i | 0 <= i < n && views[i].route.Some? && views[i].tunnel == t
  }

  /** The places at which the list of a connection that is routed but has no tunnel asks for t. */
  ghost function WantedIn(v: View, t: SshTunnel): set<int> {
    if v.route.Some? && v.tunnel == null then
      PlacesOf(Tunnels(v.route.value.tunnel), |Tunnels(v.route.value.tunnel)|, t)
    else {}
  }

  ghost function WantedAt(views: seq<View>, t: SshTunnel): seq<set<int>> {
    seq(|views|, i requires 0 <= i < |views| => WantedIn(views[i], t))
  }

  /** Holders counts the connections that hold the tunnel. */
  lemma {:induction false} HoldersCounts(views: seq<View>, n: nat, t: SshTunnel)
    requires n <= |views|
    ensures Holders(views, n, t) == |HoldersOf(views, n, t)|
  {
    if n > 0 {
      var k := n - 1;
      HoldersCounts(views, k, t);
      assert HoldersOf(views, n, t) == HoldersOf(views, k, t) + if views[k].route.Some? && views[k].tunnel == t then {k} else {};
    }
  }

  /** Wants counts the list entries that ask for the tunnel, over all connections. */
  lemma {:induction false} WantsCounts(views: seq<View>, n: nat, t: SshTunnel)
    requires n <= |views|
    ensures Wants(views, n, t) == |Tagged(WantedAt(views, t), n)|
  {
    if n == 0 {
      assert Tagged(WantedAt(views, t), 0) == {};
    } else {
      var k := n - 1;
      WantsCounts(views, k, t);
      TaggedCount(WantedAt(views, t), k);
      var v := views[k];
      if v.route.Some? && v.tunnel == null {
        MultiplicityCounts(Tunnels(v.route.value.tunnel), |Tunnels(v.route.value.tunnel)|, t);
      }
    }
  }

  lemma {:induction false} MultiplicityIsMembership(s: seq<SshTunnel>, n: nat, t: SshTunnel)
    requires n <= |s|
    ensures Multiplicity(s, n, t) > 0 <==> t in s[..n]
  {
    if n > 0 {
      MultiplicityIsMembership(s, n - 1, t);
      assert s[..n] == s[..n - 1] + [s[n - 1]];
    }
  }

  /** A positive mark means that some connection requires the tunnel. */
  lemma {:induction false} MarkedIsRequired(views: seq<View>, n: nat, t: SshTunnel)
    requires n <= |views|
    ensures Holders(views, n, t) + Wants(views, n, t) > 0 <==> exists i :: 0 <= i < n && Requires(views[i], t)
  {
    if n > 0 {
      MarkedIsRequired(views, n - 1, t);
      var v := views[n - 1];
      if v.route.Some? {
        var s := Tunnels(v.route.value.tunnel);
        MultiplicityIsMembership(s, |s|, t);
        assert s[..|s|] == s;
      }
      if Requires(v, t) {
        assert Requires(views[n - 1], t);
      }
    }
  }

  //// The mark phase

  /** Marks and counts the tunnels of one proxy's connections, on top of what is there. */
  method MarkConnections(cons: seq<ClientConnection>, ghost views: seq<View>, ghost tunnels: set<SshTunnel>)
    requires AreViews(cons, views) && Listed(views, tunnels)
    modifies tunnels`mark, tunnels`connectionCount
    ensures forall t :: t in tunnels ==> t.connectionCount == old(t.connectionCount) + Holders(views, |views|, t)
    ensures forall t :: t in tunnels ==> t.mark == old(t.mark) + Holders(views, |views|, t) + Wants(views, |views|, t)
  {
    for k := 0 to |cons|
      invariant AreViews(cons, views)
      invariant forall t :: t in tunnels ==> t.connectionCount == old(t.connectionCount) + Holders(views, k, t)
      invariant forall t :: t in tunnels ==> t.mark == old(t.mark) + Holders(views, k, t) + Wants(views, k, t)
    {
      var routeInUse, tunnelInUse := cons[k].route, cons[k].tunnel;
      assert views[k] == View(routeInUse, tunnelInUse);
      if routeInUse.Some? {
        if tunnelInUse != null {
          tunnelInUse.mark := tunnelInUse.mark + 1;
          tunnelInUse.connectionCount := tunnelInUse.connectionCount + 1;
        } else {
          MarkList(routeInUse.value.tunnel, tunnels);
        }
      }
    }
  }

  /** The scan without a bound: it stops at the terminator, inside the array. */
  method MarkList(list: seq<SshTunnel?>, ghost tunnels: set<SshTunnel>)
    requires Terminated(list) && forall t :: t in Tunnels(list) ==> t in tunnels
    modifies tunnels`mark
    ensures forall t :: t in tunnels ==> t.mark == old(t.mark) + Multiplicity(Tunnels(list), |Tunnels(list)|, t)
  {
    TerminatedFits(list);
    var i := 0;
    while list[i] != null
      invariant 0 <= i <= |Tunnels(list)|
      invariant forall t :: t in tunnels ==> t.mark == old(t.mark) + Multiplicity(Tunnels(list), i, t)
      decreases |Tunnels(list)| - i
    {
      assert list[i] == Tunnels(list)[i];
      list[i].mark := list[i].mark + 1;
      i := i + 1;
    }
  }

  /** The same counts over the connections of the first n proxies. */
  ghost function AllHolders(views: seq<seq<View>>, n: nat, t: SshTunnel): nat
    requires n <= |views|
  {
    if n == 0 then 0 else AllHolders(views, n - 1, t) + Holders(views[n - 1], |views[n - 1]|, t)
  }

  ghost function AllWants(views: seq<seq<View>>, n: nat, t: SshTunnel): nat
    requires n <= |views|
  {
    if n == 0 then 0 else AllWants(views, n - 1, t) + Wants(views[n - 1], |views[n - 1]|, t)
  }

  ghost predicate Required(views: seq<seq<View>>, n: nat, t: SshTunnel)
    requires n <= |views|
  {
    exists p, i :: 0 <= p < n && 0 <= i < |views[p]| && Requires(views[p][i], t)
  }

  lemma {:induction false} MarkedIsRequiredSomewhere(views: seq<seq<View>>, n: nat, t: SshTunnel)
    requires n <= |views|
    ensures AllHolders(views, n, t) + AllWants(views, n, t) > 0 <==> Required(views, n, t)
  {
    if n > 0 {
      MarkedIsRequiredSomewhere(views, n - 1, t);
      var last := views[n - 1];
      MarkedIsRequired(last, |last|, t);
      if Holders(last, |last|, t) + Wants(last, |last|, t) > 0 {
        var i :| 0 <= i < |last| && Requires(last[i], t);
        assert Requires(views[n - 1][i], t);
      } else if Required(views, n, t) {
        var p, i :| 0 <= p < n && 0 <= i < |views[p]| && Requires(views[p][i], t);
        assert p < n - 1;
      }
    }
  }

  /** Proxy by proxy, the connections that hold t, and the list entries that ask for it. */
  ghost function AllHoldersOf(views: seq<seq<View>>, t: SshTunnel): seq<set<int>> {
    seq(|views|, p requires 0 <= p < |views| => HoldersOf(views[p], |views[p]|, t))
  }

  ghost function AllWantedAt(views: seq<seq<View>>, t: SshTunnel): seq<set<(int, int)>> {
    seq(|views|, p requires 0 <= p < |views| => Tagged(WantedAt(views[p], t), |views[p]|))
  }

  /** The counts over all proxies are the sizes of these sets. */
  lemma {:induction false} AllCount(views: seq<seq<View>>, n: nat, t: SshTunnel)
    requires n <= |views|
    ensures AllHolders(views, n, t) == |Tagged(AllHoldersOf(views, t), n)|
    ensures AllWants(views, n, t) == |Tagged(AllWantedAt(views, t), n)|
  {
    if n == 0 {
      assert Tagged(AllHoldersOf(views, t), 0) == {} && Tagged(AllWantedAt(views, t), 0) == {};
    } else {
      var k := n - 1;
      AllCount(views, k, t);
      HoldersCounts(views[k], |views[k]|, t);
      WantsCounts(views[k], |views[k]|, t);
      TaggedCount(AllHoldersOf(views, t), k);
      TaggedCount(AllWantedAt(views, t), k);
    }
  }

  ghost predicate AllViews(proxies: seq<seq<ClientConnection>>, views: seq<seq<View>>)
    reads set p, i | 0 <= p < |proxies| && 0 <= i < |proxies[p]| :: proxies[p][i]
  {
    |views| == |proxies| && forall p :: 0 <= p < |proxies| ==> AreViews(proxies[p], views[p])
  }

  ghost predicate AllListed(views: seq<seq<View>>, tunnels: set<SshTunnel>) {
    forall p :: 0 <= p < |views| ==> Listed(views[p], tunnels)
  }

  /** Both counters of every listed tunnel are exact. */
  ghost predicate Marked(list: seq<SshTunnel>, views: seq<seq<View>>)
    reads list`mark, list`connectionCount
  {
    && (forall t :: t in list ==> t.connectionCount == AllHolders(views, |views|, t))
    && (forall t :: t in list ==> t.mark == AllHolders(views, |views|, t) + AllWants(views, |views|, t))
  }

  /**
    After the mark phase both counters of every listed tunnel are exact: the connections that hold
    it, and besides these the entries that ask for it in the lists of connections without a tunnel.
   */
  method MarkPhase(proxies: seq<seq<ClientConnection>>, list: seq<SshTunnel>, ghost views: seq<seq<View>>)
    requires AllViews(proxies, views) && AllListed(views, set t | t in list)
    modifies (set t | t in list)`mark, (set t | t in list)`connectionCount
    ensures Marked(list, views)
    ensures forall t :: t in list ==> t.connectionCount == |Tagged(AllHoldersOf(views, t), |views|)|
    ensures forall t :: t in list ==>
      t.mark == |Tagged(AllHoldersOf(views, t), |views|)| + |Tagged(AllWantedAt(views, t), |views|)|
  {
    ghost var tunnels := set t | t in list;
    for k := 0 to |list|
      invariant forall i :: 0 <= i < k ==> list[i].mark == 0 && list[i].connectionCount == 0
    {
      list[k].mark, list[k].connectionCount := 0, 0;
    }
    for p := 0 to |proxies|
      invariant AllViews(proxies, views)
      invariant forall t :: t in tunnels ==> t.connectionCount == AllHolders(views, p, t)
      invariant forall t :: t in tunnels ==> t.mark == AllHolders(views, p, t) + AllWants(views, p, t)
    {
      MarkConnections(proxies[p], views[p], tunnels);
    }
    forall t | t in list
      ensures AllHolders(views, |views|, t) == |Tagged(AllHoldersOf(views, t), |views|)|
      ensures AllWants(views, |views|, t) == |Tagged(AllWantedAt(views, t), |views|)|
    {
      AllCount(views, |views|, t);
    }
  }

  //// The kernel: a clock, and processes that are started and reaped

  datatype WaitEvent = StillRunning | Exited | WaitInterrupted | WaitError
  datatype Event = Started(tunnel: SshTunnel, at: int) | Reaped(tunnel: SshTunnel) | WaitFailed(tunnel: SshTunnel)

  /** Children of t that were started and not yet reaped. */
  ghost function Unreaped(h: seq<Event>, t: SshTunnel): int {
    if h == [] then 0
    else
      var last := h[|h| - 1];
      Unreaped(h[..|h| - 1], t) +
      if last.tunnel != t || last.WaitFailed? then 0 else if last.Started? then 1 else -1
  }

  ghost function Failures(h: seq<Event>, t: SshTunnel): nat {
    if h == [] then 0
    else Failures(h[..|h| - 1], t) + if h[|h| - 1] == WaitFailed(t) then 1 else 0
  }

  /** At every point of the history the unreaped children number at most one more than the waitpid errors so far. */
  ghost predicate Bounded(h: seq<Event>, t: SshTunnel) {
    && 0 <= Unreaped(h, t) <= Failures(h, t) + 1
    && (h == [] || Bounded(h[..|h| - 1], t))
  }

  ghost predicate Spaced(h: seq<Event>, t: SshTunnel) {
    forall i, j :: 0 <= i < j < |h| && h[i].Started? && h[j].Started? && h[i].tunnel == t && h[j].tunnel == t ==>
      h[j].at >= h[i].at + MIN_RESTART_INTERVAL
  }

  /** What waitpid says in the end: the first answer that is no interruption. */
  function Answer(script: seq<WaitEvent>): (e: WaitEvent)
    ensures !e.WaitInterrupted?
  {
    if script == [] then StillRunning
    else if script[0].WaitInterrupted? then Answer(script[1..])
    else script[0]
  }

  /** The time after n more looks at a clock that moves on between looks. */
  function After(now: int, ticks: seq<nat>, n: nat): (later: int)
    ensures later >= now
    decreases n
  {
    if n == 0 || ticks == [] then now else After(now + ticks[0], ticks[1..], n - 1)
  }

  class Processes {
    var now: int
    var ticks: seq<nat>
    var waitScript: seq<WaitEvent>
    var forkScript: seq<int>
    ghost var history: seq<Event>

    constructor (now: int, ticks: seq<nat>, waitScript: seq<WaitEvent>, forkScript: seq<int>)
      ensures this.now == now && this.ticks == ticks && this.waitScript == waitScript && this.forkScript == forkScript
      ensures history == []
    {
      this.now, this.ticks, this.waitScript, this.forkScript := now, ticks, waitScript, forkScript;
      history := [];
    }

    /** time(2): the clock never goes back. */
    method Time() returns (t: int)
      modifies this`now, this`ticks
      ensures t == now == After(old(now), old(ticks), 1) >= old(now)
      ensures ticks == if old(ticks) == [] then [] else old(ticks)[1..]
    {
      if ticks != [] {
        now, ticks := now + ticks[0], ticks[1..];
      }
      return now;
    }

    /** waitpid(2) with WNOHANG on the child that a tunnel remembers. */
    method WaitPid(ghost ssh: SshTunnel) returns (e: WaitEvent)
      requires Unreaped(history, ssh) > 0
      modifies this`waitScript, this`history
      ensures e.StillRunning? || e.WaitInterrupted? ==> history == old(history)
      ensures e.Exited? ==> history == old(history) + [Reaped(ssh)]
      ensures e.WaitError? ==> history == old(history) + [WaitFailed(ssh)]
      ensures old(waitScript) == [] ==> e == StillRunning && waitScript == []
      ensures old(waitScript) != [] ==> e == old(waitScript)[0] && waitScript == old(waitScript)[1..]
    {
      e := StillRunning;
      if waitScript != [] {
        e, waitScript := waitScript[0], waitScript[1..];
      }
      if e.Exited? {
        history := history + [Reaped(ssh)];
      } else if e.WaitError? {
        history := history + [WaitFailed(ssh)];
      }
    }

    /** fork(2) as the parent sees it. */
    method Fork(ghost ssh: SshTunnel) returns (pid: int)
      modifies this`forkScript, this`history
      ensures pid == -1 || pid > 0
      ensures pid == -1 <==> ForkFailed(old(forkScript))
      ensures pid > 0 ==> history == old(history) + [Started(ssh, now)]
      ensures pid == -1 ==> history == old(history)
      ensures forall f :: f in forkScript ==> f in old(forkScript)
    {
      pid := 1;
      if forkScript != [] {
        pid, forkScript := if forkScript[0] > 0 then forkScript[0] else -1, forkScript[1..];
      }
      if pid > 0 {
        history := history + [Started(ssh, now)];
      }
    }
  }

  //// The supervisor

  /**
    What every pass keeps for a tunnel, given the history of its process calls: a remembered
    child is an unreaped one, there is at most one child more than there were waitpid
    errors, starts are two seconds apart, and only a managed tunnel has any.
   */
  ghost predicate Supervised(t: SshTunnel, h: seq<Event>, now: int)
    reads t`pid, t`startTime
  {
    && (t.pid > 0 ==> Unreaped(h, t) > 0)
    && 0 <= Unreaped(h, t) <= Failures(h, t) + (if t.pid > 0 then 1 else 0)
    && Bounded(h, t)
    && Spaced(h, t)
    && t.startTime <= now
    && NoStartAfter(h, t, t.startTime)
  }

  /** An event about another tunnel, and the passing of time, leave a tunnel's supervision as it is. */
  lemma OtherEvent(t: SshTunnel, h: seq<Event>, e: Event, now: int, later: int)
    requires Supervised(t, h, now) && e.tunnel != t && now <= later
    ensures Supervised(t, h + [e], later)
  {
    assert (h + [e])[..|h|] == h;
  }

  /** How each kind of event changes the counts of its tunnel. */
  lemma OwnEvent(t: SshTunnel, h: seq<Event>, e: Event)
    requires e.tunnel == t
    ensures Failures(h + [e], t) == Failures(h, t) + (if e.WaitFailed? then 1 else 0)
    ensures Unreaped(h + [e], t) == Unreaped(h, t) + (if e.Started? then 1 else if e.Reaped? then -1 else 0)
  {
    assert (h + [e])[..|h|] == h;
  }

  ghost predicate NoStartAfter(h: seq<Event>, t: SshTunnel, time: int) {
    forall i :: 0 <= i < |h| && h[i].Started? && h[i].tunnel == t ==> t.role == Managed && h[i].at <= time
  }

  lemma StartIsSpaced(t: SshTunnel, h: seq<Event>, last: int, at: int, later: int)
    requires Spaced(h, t) && NoStartAfter(h, t, last) && last + MIN_RESTART_INTERVAL <= at <= later && t.role == Managed
    ensures Spaced(h + [Started(t, at)], t) && NoStartAfter(h + [Started(t, at)], t, later)
  {
  }

  /** The history grew by events of t only; its starts need a positive mark. */
  ghost predicate Grew(before: seq<Event>, after: seq<Event>, t: SshTunnel, mark: int) {
    && before <= after
    && forall k :: |before| <= k < |after| ==> after[k].tunnel == t && (after[k].Started? ==> mark > 0)
  }

  /** Reaps the child of a tunnel if it has exited; tells whether it is still running. */
  method ReapChild(kernel: Processes, ssh: SshTunnel, curTime: int, reportInterval: int) returns (isRunning: bool)
    requires Supervised(ssh, kernel.history, kernel.now)
    modifies kernel`waitScript, kernel`history, ssh`pid, ssh`lastUpdateTime
    ensures Supervised(ssh, kernel.history, kernel.now)
    ensures isRunning <==> old(ssh.pid) > 0 && Answer(old(kernel.waitScript)).StillRunning?
    ensures kernel.history == old(kernel.history) + ReapEvents(ssh, old(ssh.pid), Answer(old(kernel.waitScript)))
    ensures ssh.pid == if old(ssh.pid) > 0 && Answer(old(kernel.waitScript)).Exited? then -1 else old(ssh.pid)
    ensures !isRunning ==> Unreaped(kernel.history, ssh) <= Failures(kernel.history, ssh)
  {
    isRunning := false;
    if ssh.pid > 0 {
      ghost var h := kernel.history;
      var tmp := kernel.WaitPid(ssh);
      while tmp.WaitInterrupted?
        invariant ssh.pid == old(ssh.pid)
        invariant Answer(old(kernel.waitScript)) == if tmp.WaitInterrupted? then Answer(kernel.waitScript) else tmp
        invariant tmp.StillRunning? || tmp.WaitInterrupted? ==> kernel.history == h
        invariant tmp.Exited? ==> kernel.history == h + [Reaped(ssh)]
        invariant tmp.WaitError? ==> kernel.history == h + [WaitFailed(ssh)]
        decreases |kernel.waitScript|, tmp.WaitInterrupted?
      {
        tmp := kernel.WaitPid(ssh);
      }
      if tmp.StillRunning? {
        if curTime - ssh.lastUpdateTime >= reportInterval {
          ssh.lastUpdateTime := curTime;
        }
        isRunning := true;
      } else if tmp.Exited? {
        OwnEvent(ssh, h, Reaped(ssh));
        ssh.pid := -1;
      } else {
        OwnEvent(ssh, h, WaitFailed(ssh));
      }
    }
  }

  /** What asking for a remembered child leaves in the history. */
  ghost function ReapEvents(t: SshTunnel, pid: int, answer: WaitEvent): seq<Event> {
    if pid <= 0 then []
    else if answer.Exited? then [Reaped(t)]
    else if answer.WaitError? then [WaitFailed(t)]
    else []
  }

  /** Whether a tunnel gets a child: it is wanted, has none, was not started too recently, and fork works. */
  predicate Tries(mark: int, running: bool, checked: int, startTime: int) {
    mark > 0 && !running && checked - startTime >= MIN_RESTART_INTERVAL
  }

  /**
    One tunnel of the sweep: reap, then start a child if one is wanted, missing, and not
    started too recently. What is asked of the kernel, and what is remembered, is exactly this.
   */
  method CheckSshTunnel(kernel: Processes, ssh: SshTunnel, reportInterval: int)
    requires Supervised(ssh, kernel.history, kernel.now) && ssh.role == Managed
    modifies kernel, ssh`pid, ssh`startTime, ssh`lastUpdateTime
    ensures Supervised(ssh, kernel.history, kernel.now) && kernel.now >= old(kernel.now)
    ensures var answer, checked := Answer(old(kernel.waitScript)), After(old(kernel.now), old(kernel.ticks), 2);
      var running := old(ssh.pid) > 0 && answer.StillRunning?;
      var tries := Tries(ssh.mark, running, checked, old(ssh.startTime));
      var starts := tries && !ForkFailed(old(kernel.forkScript));
      && kernel.history == old(kernel.history) + ReapEvents(ssh, old(ssh.pid), answer) + StartEvents(ssh, checked, starts)
      && (starts ==> ssh.pid > 0 && ssh.startTime == After(old(kernel.now), old(kernel.ticks), 3))
      && (!starts ==> ssh.startTime == old(ssh.startTime))
      && (!starts ==> ssh.pid == if tries || (old(ssh.pid) > 0 && answer.Exited?) then -1 else old(ssh.pid))
    ensures forall f :: f in kernel.forkScript ==> f in old(kernel.forkScript)
  {
    var curTime := kernel.Time();
    var shouldBeRunning := ssh.mark > 0;
    var isRunning := ReapChild(kernel, ssh, curTime, reportInterval);
    var needsToRun := shouldBeRunning;
    if !isRunning && needsToRun {
      ThrottleAndStart(kernel, ssh);
    }
  }

  /** Starts a child unless the last start was less than two seconds ago. */
  method ThrottleAndStart(kernel: Processes, ssh: SshTunnel)
    requires Supervised(ssh, kernel.history, kernel.now) && ssh.role == Managed
    requires Unreaped(kernel.history, ssh) <= Failures(kernel.history, ssh)
    modifies kernel, ssh`pid, ssh`startTime
    ensures Supervised(ssh, kernel.history, kernel.now) && kernel.now >= old(kernel.now)
    ensures var t := After(old(kernel.now), old(kernel.ticks), 1);
      var tries := t - old(ssh.startTime) >= MIN_RESTART_INTERVAL;
      var starts := tries && !ForkFailed(old(kernel.forkScript));
      && kernel.history == old(kernel.history) + StartEvents(ssh, t, starts)
      && (starts ==> ssh.pid > 0 && ssh.startTime == After(old(kernel.now), old(kernel.ticks), 2))
      && (!starts ==> ssh.startTime == old(ssh.startTime) && ssh.pid == if tries then -1 else old(ssh.pid))
    ensures forall f :: f in kernel.forkScript ==> f in old(kernel.forkScript)
  {
    var needsToRun := true;
    var t := kernel.Time();
    if t - ssh.startTime < MIN_RESTART_INTERVAL {
      needsToRun := false;
    }
    if needsToRun {
      StartChild(kernel, ssh);
    }
  }

  lemma ReapingGrows(h: seq<Event>, t: SshTunnel, pid: int, answer: WaitEvent)
    ensures Grew(h, h + ReapEvents(t, pid, answer), t, 0)
  {
  }

  lemma StartingGrows(h: seq<Event>, reaped: seq<Event>, after: seq<Event>, t: SshTunnel, mark: int, at: int, starts: bool)
    requires Grew(h, reaped, t, 0) && (starts ==> mark > 0)
    requires after == reaped + StartEvents(t, at, starts)
    ensures Grew(h, after, t, mark)
  {
  }

  /** A tunnel without a child has been started less than two seconds before, or a fork failed. */
  ghost predicate Excused(t: SshTunnel, now: int, script: seq<int>)
    reads t`startTime
  {
    now - t.startTime < MIN_RESTART_INTERVAL || exists f :: f in script && f <= 0
  }

  /** A tunnel that is wanted has a child, or an excuse. */
  ghost predicate Served(t: SshTunnel, now: int, script: seq<int>)
    reads t`mark, t`pid, t`startTime
  {
    t.role == Managed && t.mark > 0 && t.pid <= 0 ==> Excused(t, now, script)
  }

  ghost predicate ForkFailed(script: seq<int>) {
    script != [] && script[0] <= 0
  }

  method StartChild(kernel: Processes, ssh: SshTunnel)
    requires Supervised(ssh, kernel.history, kernel.now) && ssh.role == Managed
    requires Unreaped(kernel.history, ssh) <= Failures(kernel.history, ssh)
    requires kernel.now - ssh.startTime >= MIN_RESTART_INTERVAL
    modifies kernel, ssh`pid, ssh`startTime
    ensures Supervised(ssh, kernel.history, kernel.now) && kernel.now >= old(kernel.now)
    ensures kernel.history == old(kernel.history) + StartEvents(ssh, old(kernel.now), !ForkFailed(old(kernel.forkScript)))
    ensures if ForkFailed(old(kernel.forkScript)) then ssh.pid == -1 else ssh.pid > 0
    ensures ssh.startTime ==
      if ForkFailed(old(kernel.forkScript)) then old(ssh.startTime) else After(old(kernel.now), old(kernel.ticks), 1)
    ensures forall f :: f in kernel.forkScript ==> f in old(kernel.forkScript)
  {
    ghost var h, at := kernel.history, kernel.now;
    ssh.pid := kernel.Fork(ssh);
    if ssh.pid > 0 {
      OwnEvent(ssh, h, Started(ssh, at));
      ghost var last := ssh.startTime;
      ssh.startTime := kernel.Time();
      StartIsSpaced(ssh, h, last, at, ssh.startTime);
    }
  }

  /** What starting a child at a time leaves in the history. */
  ghost function StartEvents(t: SshTunnel, at: int, starts: bool): seq<Event> {
    if starts then [Started(t, at)] else []
  }

  /** One tunnel of the sweep, seen from the pass: only its own events, a start only with a mark, and it is served. */
  method CheckAndServe(kernel: Processes, ssh: SshTunnel, reportInterval: int)
    requires Supervised(ssh, kernel.history, kernel.now) && ssh.role == Managed
    modifies kernel, ssh`pid, ssh`startTime, ssh`lastUpdateTime
    ensures Supervised(ssh, kernel.history, kernel.now) && kernel.now >= old(kernel.now)
    ensures Grew(old(kernel.history), kernel.history, ssh, ssh.mark)
    ensures Served(ssh, old(kernel.now), old(kernel.forkScript))
    ensures forall f :: f in kernel.forkScript ==> f in old(kernel.forkScript)
  {
    ghost var h, pid, answer, script := kernel.history, ssh.pid, Answer(kernel.waitScript), kernel.forkScript;
    ghost var checked, last := After(kernel.now, kernel.ticks, 2), ssh.startTime;
    ghost var running := pid > 0 && answer.StillRunning?;
    ghost var tries := Tries(ssh.mark, running, checked, last);
    ghost var starts := tries && !ForkFailed(script);
    CheckSshTunnel(kernel, ssh, reportInterval);
    ReapingGrows(h, ssh, pid, answer);
    StartingGrows(h, h + ReapEvents(ssh, pid, answer), kernel.history, ssh, ssh.mark, checked, starts);
    assert ForkFailed(script) ==> script[0] in script;
  }

  ghost predicate AllSupervised(list: seq<SshTunnel>, h: seq<Event>, now: int)
    reads list
  {
    forall i :: 0 <= i < |list| ==> Supervised(list[i], h, now)
  }

  lemma {:induction false} OtherEvents(t: SshTunnel, before: seq<Event>, after: seq<Event>, now: int, later: int, other: SshTunnel)
    requires Supervised(t, before, now) && now <= later && other != t && before <= after
    requires forall k :: |before| <= k < |after| ==> after[k].tunnel == other
    ensures Supervised(t, after, later)
    decreases |after|
  {
    if before == after {
      var same := after;
    } else {
      var prefix := after[..|after| - 1];
      OtherEvents(t, before, prefix, now, now, other);
      OtherEvent(t, prefix, after[|after| - 1], now, later);
      assert prefix + [after[|after| - 1]] == after;
    }
  }

  /** One step of the sweep seen from the whole list. */
  method SweepOne(kernel: Processes, list: seq<SshTunnel>, k: nat, reportInterval: int)
    requires k < |list| && AllSupervised(list, kernel.history, kernel.now)
    modifies kernel, list`pid, list`startTime, list`lastUpdateTime
    ensures AllSupervised(list, kernel.history, kernel.now) && kernel.now >= old(kernel.now)
    ensures Grew(old(kernel.history), kernel.history, list[k], list[k].mark)
    ensures Served(list[k], old(kernel.now), old(kernel.forkScript))
    ensures forall f :: f in kernel.forkScript ==> f in old(kernel.forkScript)
    ensures forall t :: t in list && t != list[k] ==> t.pid == old(t.pid) && t.startTime == old(t.startTime)
  {
    ghost var before, now := kernel.history, kernel.now;
    var ssh := list[k];
    if ssh.role == Managed {
      CheckAndServe(kernel, ssh, reportInterval);
      forall i | 0 <= i < |list| ensures Supervised(list[i], kernel.history, kernel.now) {
        if list[i] != ssh {
          assert old(Supervised(list[i], kernel.history, kernel.now));
          OtherEvents(list[i], before, kernel.history, now, kernel.now, ssh);
        }
      }
    }
  }

  /** Every start since `before` is one that some connection required. */
  ghost predicate StartsRequired(before: nat, h: seq<Event>, views: seq<seq<View>>) {
    forall k :: before <= k < |h| && h[k].Started? ==> Required(views, |views|, h[k].tunnel)
  }

  /** The whole pass. */
  method CheckSshTunnels(kernel: Processes, proxies: seq<seq<ClientConnection>>, list: seq<SshTunnel>,
                         reportInterval: int, ghost views: seq<seq<View>>)
    requires AllViews(proxies, views) && AllListed(views, set t | t in list)
    requires AllSupervised(list, kernel.history, kernel.now)
    modifies kernel, list
    ensures AllSupervised(list, kernel.history, kernel.now) && kernel.now >= old(kernel.now)
    ensures Marked(list, views)
    ensures old(kernel.history) <= kernel.history
    ensures StartsRequired(|old(kernel.history)|, kernel.history, views)
    ensures forall i :: 0 <= i < |list| ==> Served(list[i], old(kernel.now), old(kernel.forkScript))
  {
    MarkPhase(proxies, list, views);
    assert AllSupervised(list, kernel.history, kernel.now);
    Sweep(kernel, list, reportInterval, views);
  }

  method Sweep(kernel: Processes, list: seq<SshTunnel>, reportInterval: int, ghost views: seq<seq<View>>)
    requires AllSupervised(list, kernel.history, kernel.now) && Marked(list, views)
    modifies kernel, list`pid, list`startTime, list`lastUpdateTime
    ensures AllSupervised(list, kernel.history, kernel.now) && kernel.now >= old(kernel.now)
    ensures old(kernel.history) <= kernel.history
    ensures StartsRequired(|old(kernel.history)|, kernel.history, views)
    ensures forall i :: 0 <= i < |list| ==> Served(list[i], old(kernel.now), old(kernel.forkScript))
  {
    ghost var before, start, script := kernel.history, kernel.now, kernel.forkScript;
    for k := 0 to |list|
      invariant AllSupervised(list, kernel.history, kernel.now) && kernel.now >= start
      invariant before <= kernel.history && StartsRequired(|before|, kernel.history, views)
      invariant SweptSoFar(list, k, start, script, kernel.forkScript)
    {
      ghost var h := kernel.history;
      SweepNext(kernel, list, k, reportInterval, start, script);
      SegmentRequired(before, h, kernel.history, list, k, list[k].mark, views);
    }
  }

  /** The first k tunnels have been served, as far as forking worked. */
  ghost predicate SweptSoFar(list: seq<SshTunnel>, k: nat, start: int, script: seq<int>, scriptNow: seq<int>)
    requires k <= |list|
    reads list
  {
    (forall f :: f in scriptNow ==> f in script) && forall i :: 0 <= i < k ==> Served(list[i], start, script)
  }

  method SweepNext(kernel: Processes, list: seq<SshTunnel>, k: nat, reportInterval: int, ghost start: int, ghost script: seq<int>)
    requires k < |list| && AllSupervised(list, kernel.history, kernel.now) && kernel.now >= start
    requires SweptSoFar(list, k, start, script, kernel.forkScript)
    modifies kernel, list`pid, list`startTime, list`lastUpdateTime
    ensures AllSupervised(list, kernel.history, kernel.now) && kernel.now >= old(kernel.now)
    ensures Grew(old(kernel.history), kernel.history, list[k], list[k].mark)
    ensures SweptSoFar(list, k + 1, start, script, kernel.forkScript)
  {
    SweepOne(kernel, list, k, reportInterval);
    forall i | 0 <= i < k ensures Served(list[i], start, script) {
      assert old(Served(list[i], start, script));
    }
  }

  /** The same between two points of the history. */
  ghost predicate PassRequired(begin: nat, end: nat, h: seq<Event>, views: seq<seq<View>>) {
    begin <= end <= |h| && forall k :: begin <= k < end && h[k].Started? ==> Required(views, |views|, h[k].tunnel)
  }

  lemma SegmentRequired(before: seq<Event>, h: seq<Event>, after: seq<Event>, list: seq<SshTunnel>, k: nat, mark: int, views: seq<seq<View>>)
    requires k < |list| && mark == AllHolders(views, |views|, list[k]) + AllWants(views, |views|, list[k])
    requires before <= h && StartsRequired(|before|, h, views) && Grew(h, after, list[k], mark)
    ensures before <= after && StartsRequired(|before|, after, views)
  {
    MarkedIsRequiredSomewhere(views, |views|, list[k]);
  }

  /** A pass behind the others: they stay what they were in the longer history. */
  lemma OnePassMore(begins: seq<nat>, ends: seq<nat>, start: nat, h: seq<Event>, later: seq<Event>, views: seq<seq<seq<View>>>)
    requires PassesDone(begins, ends, start, h, views) && h <= later && |begins| < |views|
    requires PassRequired(|h|, |later|, later, views[|begins|])
    ensures PassesDone(begins + [|h|], ends + [|later|], start, later, views)
  {
    forall q | 0 <= q < |begins| ensures PassRequired(begins[q], ends[q], later, views[q]) {
      assert PassRequired(begins[q], ends[q], h, views[q]);
    }
  }

  /**
    A run of the main loop's passes. Connections come, go and change between passes, so
    each pass has connections of its own. In the history of the run every start lies in a
    pass in which some connection required its tunnel.
   */
  method RunPasses(kernel: Processes, passes: seq<seq<seq<ClientConnection>>>, list: seq<SshTunnel>, reportInterval: int,
                   ghost views: seq<seq<seq<View>>>) returns (ghost begins: seq<nat>, ghost ends: seq<nat>)
    requires PassesToCome(passes, views, list) && AllSupervised(list, kernel.history, kernel.now)
    modifies kernel, list
    ensures AllSupervised(list, kernel.history, kernel.now)
    ensures |begins| == |passes| && PassesDone(begins, ends, |old(kernel.history)|, kernel.history, views)
  {
    begins, ends := [], [];
    for p := 0 to |passes|
      invariant AllSupervised(list, kernel.history, kernel.now)
      invariant PassesToCome(passes, views, list)
      invariant |begins| == p && PassesDone(begins, ends, |old(kernel.history)|, kernel.history, views)
    {
      ghost var h := kernel.history;
      RunPass(kernel, passes, p, list, reportInterval, views);
      OnePassMore(begins, ends, |old(kernel.history)|, h, kernel.history, views);
      begins, ends := begins + [|h|], ends + [|kernel.history|];
    }
  }

  ghost predicate PassesToCome(passes: seq<seq<seq<ClientConnection>>>, views: seq<seq<seq<View>>>, list: seq<SshTunnel>)
    reads set q, p, i | 0 <= q < |passes| && 0 <= p < |passes[q]| && 0 <= i < |passes[q][p]| :: passes[q][p][i]
  {
    && |views| == |passes|
    && forall q :: 0 <= q < |passes| ==> AllViews(passes[q], views[q]) && AllListed(views[q], set t | t in list)
  }

  /** The passes so far divide the history since `start`, and each was right about its starts. */
  ghost predicate PassesDone(begins: seq<nat>, ends: seq<nat>, start: nat, h: seq<Event>, views: seq<seq<seq<View>>>) {
    && |begins| == |ends| <= |views| && begins + [|h|] == [start] + ends
    && forall q :: 0 <= q < |begins| ==> PassRequired(begins[q], ends[q], h, views[q])
  }

  method RunPass(kernel: Processes, passes: seq<seq<seq<ClientConnection>>>, p: nat, list: seq<SshTunnel>, reportInterval: int,
                 ghost views: seq<seq<seq<View>>>)
    requires PassesToCome(passes, views, list) && p < |passes| && AllSupervised(list, kernel.history, kernel.now)
    modifies kernel, list
    ensures PassesToCome(passes, views, list) && AllSupervised(list, kernel.history, kernel.now)
    ensures old(kernel.history) <= kernel.history
    ensures PassRequired(|old(kernel.history)|, |kernel.history|, kernel.history, views[p])
  {
    CheckSshTunnels(kernel, passes[p], list, reportInterval, views[p]);
  }

  //// What the kept predicate means for a run

  /** With no waitpid error a tunnel never has two unreaped children, at any point of its history. */
  lemma {:induction false} OneChild(h: seq<Event>, t: SshTunnel, n: nat)
    requires Bounded(h, t) && Failures(h, t) == 0 && n <= |h|
    ensures 0 <= Unreaped(h[..n], t) <= 1
  {
    if n == |h| {
      assert h[..n] == h;
    } else {
      OneChild(h[..|h| - 1], t, n);
      assert h[..|h| - 1][..n] == h[..n];
    }
  }

  /**
    What one check, as CheckSshTunnel does it, makes of the children of a tunnel: it adds at most
    one, and it adds one exactly when it starts a child and either no child was remembered
    or waitpid failed. Where there was one already, that is how there come to be two.
   */
  lemma SecondChild(h: seq<Event>, t: SshTunnel, pid: int, waitScript: seq<WaitEvent>, mark: int, checked: int, startTime: int,
                    forkScript: seq<int>)
    ensures var answer := Answer(waitScript);
      var starts := Tries(mark, pid > 0 && answer.StillRunning?, checked, startTime) && !ForkFailed(forkScript);
      var after := Unreaped(h + ReapEvents(t, pid, answer) + StartEvents(t, checked, starts), t);
      after <= Unreaped(h, t) + 1 && (after == Unreaped(h, t) + 1 <==> starts && (pid <= 0 || answer.WaitError?))
  {
    var answer := Answer(waitScript);
    var starts := Tries(mark, pid > 0 && answer.StillRunning?, checked, startTime) && !ForkFailed(forkScript);
    Reaping(h, t, pid, answer);
    Starting(h + ReapEvents(t, pid, answer), t, checked, starts);
  }

  lemma Reaping(h: seq<Event>, t: SshTunnel, pid: int, answer: WaitEvent)
    ensures Unreaped(h + ReapEvents(t, pid, answer), t) == Unreaped(h, t) - if pid > 0 && answer.Exited? then 1 else 0
  {
    if pid <= 0 || answer.StillRunning? || answer.WaitInterrupted? {
      assert h + [] == h;
    } else {
      OwnEvent(t, h, if answer.Exited? then Reaped(t) else WaitFailed(t));
    }
  }

  lemma Starting(h: seq<Event>, t: SshTunnel, at: int, starts: bool)
    ensures Unreaped(h + StartEvents(t, at, starts), t) == Unreaped(h, t) + if starts then 1 else 0
  {
    if starts {
      OwnEvent(t, h, Started(t, at));
    } else {
      assert h + [] == h;
    }
  }

  /** A check at a later time, at which the clock stands still. */
  method CheckAt(kernel: Processes, ssh: SshTunnel, at: int, waitScript: seq<WaitEvent>, forkScript: seq<int>)
    requires Supervised(ssh, kernel.history, at) && ssh.role == Managed
    modifies kernel, ssh`pid, ssh`startTime, ssh`lastUpdateTime
    ensures Supervised(ssh, kernel.history, at)
    ensures var answer := Answer(waitScript);
      var tries := Tries(ssh.mark, old(ssh.pid) > 0 && answer.StillRunning?, at, old(ssh.startTime));
      var starts := tries && !ForkFailed(forkScript);
      && kernel.history == old(kernel.history) + ReapEvents(ssh, old(ssh.pid), answer) + StartEvents(ssh, at, starts)
      && (if starts then ssh.pid > 0 && ssh.startTime == at else ssh.startTime == old(ssh.startTime) && (tries ==> ssh.pid == -1))
  {
    kernel.now, kernel.ticks, kernel.waitScript, kernel.forkScript := at, [], waitScript, forkScript;
    CheckSshTunnel(kernel, ssh, 10);
    StillSupervised(ssh, kernel.history, kernel.now, at);
  }

  /** What the scripts of the following runs answer. */
  lemma OneAnswer()
    ensures Answer([]) == StillRunning && Answer([WaitError]) == WaitError
  {
  }

  lemma NothingYet(t: SshTunnel)
    requires t.pid <= 0 && t.startTime == 0
    ensures Supervised(t, [], 0)
  {
  }

  lemma FirstStart(t: SshTunnel)
    ensures [] + ReapEvents(t, -1, StillRunning) + StartEvents(t, 10, true) == [Started(t, 10)]
  {
  }

  /** A wanted tunnel, checked at time 10, has its first child. */
  method FirstChild() returns (kernel: Processes, ssh: SshTunnel)
    ensures fresh(kernel) && fresh(ssh) && ssh.role == Managed && ssh.mark == 1 && ssh.pid > 0 && ssh.startTime == 10
    ensures kernel.history == [Started(ssh, 10)] && Supervised(ssh, kernel.history, 10)
  {
    ssh := new SshTunnel([], Managed, 1080);
    ssh.mark := 1;
    kernel := new Processes(0, [], [], []);
    OneAnswer();
    NothingYet(ssh);
    StillSupervised(ssh, kernel.history, 0, 10);
    CheckAt(kernel, ssh, 10, [], []);
    FirstStart(ssh);
  }

  /**
    With an error it can have two: the first child is still remembered when waitpid fails, and
    two seconds later a second one is started.
   */
  method ErrorLeavesTwoChildren() returns (kernel: Processes, ssh: SshTunnel)
    ensures kernel.history == [Started(ssh, 10), WaitFailed(ssh), Started(ssh, 12)]
    ensures Unreaped(kernel.history, ssh) == 2
  {
    kernel, ssh := FirstChild();
    OneAnswer();
    StillSupervised(ssh, kernel.history, 10, 12);
    CheckAt(kernel, ssh, 12, [WaitError], []);
    assert ReapEvents(ssh, 1, WaitError) == [WaitFailed(ssh)] && StartEvents(ssh, 12, true) == [Started(ssh, 12)];
    TwoChildren(ssh, 12);
  }

  /** When fork fails after a waitpid error, its result takes the place of the child, which lives on. */
  method FailedForkForgets() returns (kernel: Processes, ssh: SshTunnel)
    ensures fresh(kernel) && fresh(ssh) && ssh.role == Managed && ssh.mark == 1 && ssh.pid == -1 && ssh.startTime == 10
    ensures kernel.history == [Started(ssh, 10), WaitFailed(ssh)] && Supervised(ssh, kernel.history, 12)
    ensures Unreaped(kernel.history, ssh) == 1
  {
    kernel, ssh := FirstChild();
    OneAnswer();
    StillSupervised(ssh, kernel.history, 10, 12);
    CheckAt(kernel, ssh, 12, [WaitError], [-1]);
    assert ReapEvents(ssh, 1, WaitError) == [WaitFailed(ssh)] && StartEvents(ssh, 12, false) == [];
    TwoChildren(ssh, 14);
  }

  /** The next check asks nothing about a forgotten child, and starts a second one. */
  method ForgottenChildIsDoubled() returns (kernel: Processes, ssh: SshTunnel)
    ensures kernel.history == [Started(ssh, 10), WaitFailed(ssh), Started(ssh, 14)]
    ensures Unreaped(kernel.history, ssh) == 2
  {
    kernel, ssh := FailedForkForgets();
    OneAnswer();
    StillSupervised(ssh, kernel.history, 12, 14);
    CheckAt(kernel, ssh, 14, [], []);
    assert ReapEvents(ssh, -1, StillRunning) == [] && StartEvents(ssh, 14, true) == [Started(ssh, 14)];
    TwoChildren(ssh, 14);
  }

  lemma StillSupervised(t: SshTunnel, h: seq<Event>, now: int, other: int)
    requires Supervised(t, h, now) && t.startTime <= other
    ensures Supervised(t, h, other)
  {
  }

  lemma TwoChildren(t: SshTunnel, at: int)
    ensures Unreaped([Started(t, 10), WaitFailed(t)], t) == 1
    ensures Unreaped([Started(t, 10), WaitFailed(t), Started(t, at)], t) == 2
  {
    var h0: seq<Event>, h1, h2 := [], [Started(t, 10)], [Started(t, 10), WaitFailed(t)];
    OwnEvent(t, h0, Started(t, 10));
    assert h0 + [Started(t, 10)] == h1;
    OwnEvent(t, h1, WaitFailed(t));
    assert h1 + [WaitFailed(t)] == h2;
    OwnEvent(t, h2, Started(t, at));
    assert h2 + [Started(t, at)] == [Started(t, 10), WaitFailed(t), Started(t, at)];
  }

  ghost function Starts(h: seq<Event>, n: nat, t: SshTunnel): nat
    requires n <= |h|
  {
    if n == 0 then 0 else Starts(h, n - 1, t) + if h[n - 1].Started? && h[n - 1].tunnel == t then 1 else 0
  }

  /** Starts two seconds apart are rare: within a stretch of d seconds there are at most d / 2 + 1 of them. */
  lemma {:induction false} StartRate(h: seq<Event>, n: nat, t: SshTunnel, from: int, to: int)
    requires n <= |h| && Spaced(h, t) && from <= to
    requires forall i :: 0 <= i < n && h[i].Started? && h[i].tunnel == t ==> from <= h[i].at <= to
    ensures Starts(h, n, t) <= (to - from) / MIN_RESTART_INTERVAL + 1
  {
    if n > 0 {
      if h[n - 1].Started? && h[n - 1].tunnel == t {
        var at := h[n - 1].at;
        if at - MIN_RESTART_INTERVAL >= from {
          StartRate(h, n - 1, t, from, at - MIN_RESTART_INTERVAL);
        } else {
          NoStarts(h, n - 1, t);
        }
      } else {
        StartRate(h, n - 1, t, from, to);
      }
    }
  }

  lemma {:induction false} NoStarts(h: seq<Event>, n: nat, t: SshTunnel)
    requires n <= |h|
    requires forall i :: 0 <= i < n && h[i].Started? ==> h[i].tunnel != t
    ensures Starts(h, n, t) == 0
  {
    if n > 0 {
      NoStarts(h, n - 1, t);
    }
  }
}
