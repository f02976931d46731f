/** The doubly linked list of connections, and the pass that removes the finished ones from it. */
module ConnectionPool {
  import opened Sequences
  import opened ClientConnections
  import Lifetime

  const CLOSED_CONNECTION_LOITER_TIME_S := 4

  /**
    Every access to a connection goes through the allocator, which refuses one that has
    been freed: verifying a caller shows that it touches no freed connection and frees
    none twice.
   */
  class Allocator {
    ghost var freed: seq<ClientConnection>

    function NextOf(c: ClientConnection): ClientConnection?
      requires c !in freed
      reads this, c
    {
      c.next
    }

    function PrevOf(c: ClientConnection): ClientConnection?
      requires c !in freed
      reads this, c
    {
      c.prev
    }

    method SetNext(c: ClientConnection, next: ClientConnection?)
      requires c !in freed
      modifies c`next
      ensures c.next == next
    {
      c.next := next;
    }

    method SetPrev(c: ClientConnection, prev: ClientConnection?)
      requires c !in freed
      modifies c`prev
      ensures c.prev == prev
    {
      c.prev := prev;
    }

    predicate HasLoitered(c: ClientConnection, now: int)
      requires c !in freed
      reads this, c
    {
      Expired(c, now)
    }

    /** free(): what is freed must not hold a socket any more, which nobody could close then. */
    method Free(c: ClientConnection)
      requires c !in freed && c.fdIn == null && c.fdOut == null
      modifies this
      ensures freed == old(freed) + [c]
    {
      freed := freed + [c];
    }
  }

  /** Exited, and more than 4 seconds past its recorded end. */
  predicate Expired(c: ClientConnection, now: int)
    reads c`threadHasExited, c`endTime
  {
    c.threadHasExited && now - c.endTime > CLOSED_CONNECTION_LOITER_TIME_S
  }

  ghost predicate Distinct(nodes: seq<ClientConnection>) {
    forall i, j :: 0 <= i < j < |nodes| ==> nodes[i] != nodes[j]
  }

  function At(nodes: seq<ClientConnection>, i: int): ClientConnection? {
    if 0 <= i < |nodes| then nodes[i] else null
  }

  /** The nodes form the list that starts at head: distinct, with coherent links both ways. */
  ghost predicate IsList(head: ClientConnection?, nodes: seq<ClientConnection>)
    reads nodes
  {
    && head == At(nodes, 0)
    && Distinct(nodes)
    && (forall i {:trigger nodes[i].next} :: 0 <= i < |nodes| ==> nodes[i].next == At(nodes, i + 1))
    && (forall i {:trigger nodes[i].prev} :: 0 <= i < |nodes| ==> nodes[i].prev == At(nodes, i - 1))
  }

  /** The connections that are or have been in the list: what the pass may touch. */
  ghost predicate Within(nodes: seq<ClientConnection>, all: set<ClientConnection>) {
    forall i :: 0 <= i < |nodes| ==> nodes[i] in all
  }

  ghost predicate Live(a: Allocator, nodes: seq<ClientConnection>)
    reads a
  {
    forall i :: 0 <= i < |nodes| ==> nodes[i] !in a.freed
  }

  /** Those of the first n nodes that carry the wanted flag, in order. */
  ghost function Select<T>(nodes: seq<T>, flags: seq<bool>, n: nat, wanted: bool): seq<T>
    requires n <= |nodes| == |flags|
  {
    if n == 0 then []
    else Select(nodes, flags, n - 1, wanted) + if flags[n - 1] == wanted then [nodes[n - 1]] else []
  }

  lemma {:induction false} SelectMembers(nodes: seq<ClientConnection>, flags: seq<bool>, n: nat, wanted: bool)
    requires n <= |nodes| == |flags| && Distinct(nodes)
    ensures Distinct(Select(nodes, flags, n, wanted))
    ensures forall c :: c in Select(nodes, flags, n, wanted) ==> c in nodes[..n]
    ensures forall i :: 0 <= i < n ==> (nodes[i] in Select(nodes, flags, n, wanted) <==> flags[i] == wanted)
  {
    if n > 0 {
      SelectMembers(nodes, flags, n - 1, wanted);
      assert nodes[n - 1] !in nodes[..n - 1];
      assert nodes[..n] == nodes[..n - 1] + [nodes[n - 1]];
    }
  }

  /** How many of the first n nodes carry the wanted flag. */
  ghost function Place(flags: seq<bool>, n: nat, wanted: bool): nat
    requires n <= |flags|
  {
    if n == 0 then 0 else Place(flags, n - 1, wanted) + if flags[n - 1] == wanted then 1 else 0
  }

  /** The order is kept: a selected node comes behind just those that are selected before it. */
  lemma {:induction false} SelectKeepsOrder(nodes: seq<ClientConnection>, flags: seq<bool>, n: nat, i: nat, wanted: bool)
    requires i < n <= |nodes| == |flags| && flags[i] == wanted
    ensures |Select(nodes, flags, n, wanted)| == Place(flags, n, wanted)
    ensures Place(flags, i, wanted) < Place(flags, n, wanted)
    ensures Select(nodes, flags, n, wanted)[Place(flags, i, wanted)] == nodes[i]
  {
    if i < n - 1 {
      SelectKeepsOrder(nodes, flags, n - 1, i, wanted);
    } else {
      SelectCounts(nodes, flags, i, wanted);
    }
  }

  lemma {:induction false} SelectCounts(nodes: seq<ClientConnection>, flags: seq<bool>, n: nat, wanted: bool)
    requires n <= |nodes| == |flags|
    ensures |Select(nodes, flags, n, wanted)| == Place(flags, n, wanted)
  {
    if n > 0 {
      SelectCounts(nodes, flags, n - 1, wanted);
    }
  }

  /** Links a new connection in front of the list. */
  method InsertClientConnection(a: Allocator, head: ClientConnection?, con: ClientConnection,
                                ghost nodes: seq<ClientConnection>, ghost all: set<ClientConnection>)
    returns (newHead: ClientConnection)
    requires IsList(head, nodes) && Live(a, nodes) && Within(nodes, all) && con !in all && con !in a.freed
    modifies con`next, con`prev, all`prev
    ensures newHead == con && IsList(newHead, [con] + nodes)
  {
    a.SetNext(con, head);
    a.SetPrev(con, null);
    if head != null {
      a.SetPrev(head, con);
    }
    newHead := con;
  }

  /** Who stands beside a node when another one is left out. */
  lemma NeighboursWithout(nodes: seq<ClientConnection>, i: nat, j: nat)
    requires i < |nodes| && j < |nodes| - 1
    ensures var rest, m := Without(nodes, i), if j < i then j else j + 1;
      && rest[j] == nodes[m]
      && At(rest, j + 1) == At(nodes, if m == i - 1 then i + 1 else m + 1)
      && At(rest, j - 1) == At(nodes, if m == i + 1 then i - 1 else m - 1)
  {
  }

  /** Unlinks the i-th node: its neighbours are joined and it is left without links. */
  method RemoveClientConnection(a: Allocator, con: ClientConnection, ghost head: ClientConnection?,
                                ghost nodes: seq<ClientConnection>, ghost i: nat, ghost all: set<ClientConnection>)
    requires IsList(head, nodes) && Live(a, nodes) && Within(nodes, all) && i < |nodes| && nodes[i] == con
    modifies all`next, all`prev
    ensures IsList(At(Without(nodes, i), 0), Without(nodes, i))
    ensures con.next == null && con.prev == null
  {
    var next := a.NextOf(con);
    var prev := a.PrevOf(con);
    if next != null {
      a.SetPrev(next, prev);
    }
    if prev != null {
      a.SetNext(prev, next);
    }
    a.SetNext(con, null);
    a.SetPrev(con, null);
    ghost var rest := Without(nodes, i);
    forall j | 0 <= j < |rest|
      ensures rest[j].next == At(rest, j + 1) && rest[j].prev == At(rest, j - 1)
    {
      var m := if j < i then j else j + 1;
      NeighboursWithout(nodes, i, j);
      assert nodes[m].next == (if m == i - 1 then next else old(nodes[m].next));
      assert nodes[m].prev == (if m == i + 1 then prev else old(nodes[m].prev));
    }
  }

  /** Unlinks a connection, closes what it still holds open and frees it. */
  method FreeClientConnection(a: Allocator, con: ClientConnection, ghost head: ClientConnection?,
                              ghost nodes: seq<ClientConnection>, ghost i: nat, ghost all: set<ClientConnection>)
    requires IsList(head, nodes) && Live(a, nodes) && Within(nodes, all) && i < |nodes| && nodes[i] == con
    modifies all`next, all`prev, con`fdIn, con`fdOut, a
    ensures IsList(At(Without(nodes, i), 0), Without(nodes, i))
    ensures a.freed == old(a.freed) + [con] && con.fdIn == null && con.fdOut == null
  {
    RemoveClientConnection(a, con, head, nodes, i, all);
    if con.fdIn != null {
      con.fdIn := null;
    }
    if con.fdOut != null {
      con.fdOut := null;
    }
    a.Free(con);
  }

  /** The nodes that are flagged. */
  ghost function Going(nodes: seq<ClientConnection>, flags: seq<bool>): set<ClientConnection>
    requires |flags| == |nodes|
  {
    set j | 0 <= j < |nodes| && flags[j] :: nodes[j]
  }

  /** Which connections have exited and loitered, one flag a node. */
  ghost predicate AreExpired(nodes: seq<ClientConnection>, now: int, flags: seq<bool>)
    reads nodes
  {
    |flags| == |nodes| && forall j :: 0 <= j < |nodes| ==> flags[j] == Expired(nodes[j], now)
  }

  /** One step of the pass: a finished connection leaves the list, moving the head if it was first. */
  method VisitConnection(a: Allocator, cur: ClientConnection, next: ClientConnection?, head: ClientConnection?, now: int,
                         ghost nodes: seq<ClientConnection>, ghost k: nat, ghost all: set<ClientConnection>)
    returns (pool: ClientConnection?, ghost gone: bool)
    requires Sound(a, head, nodes, all)
    requires k < |nodes| && nodes[k] == cur && next == At(nodes, k + 1)
    modifies all`next, all`prev, a
    modifies (if Expired(cur, now) then {cur} else {})`fdIn, (if Expired(cur, now) then {cur} else {})`fdOut
    ensures gone == old(Expired(cur, now))
    ensures gone ==> Sound(a, pool, Without(nodes, k), all) && a.freed == old(a.freed) + [cur]
    ensures !gone ==> Sound(a, pool, nodes, all) && a.freed == old(a.freed)
  {
    var loitered := a.HasLoitered(cur, now);
    gone := loitered;
    pool := head;
    if loitered {
      if pool == cur {
        pool := next;
      }
      FreeClientConnection(a, cur, head, nodes, k, all);
    }
  }

  /** The list and the freed connections once the pass has been over the first i nodes. */
  ghost predicate Visited(list: seq<ClientConnection>, freed: seq<ClientConnection>, before: seq<ClientConnection>,
                          nodes: seq<ClientConnection>, flags: seq<bool>, i: nat)
  {
    && i <= |nodes| == |flags|
    && list == Select(nodes, flags, i, false) + nodes[i..]
    && freed == before + Select(nodes, flags, i, true)
  }

  ghost predicate Sound(a: Allocator, head: ClientConnection?, list: seq<ClientConnection>, all: set<ClientConnection>)
    reads a, all
  {
    Within(list, all) && IsList(head, list) && Live(a, list)
  }

  lemma VisitedNext(list: seq<ClientConnection>, freed: seq<ClientConnection>, before: seq<ClientConnection>,
                    nodes: seq<ClientConnection>, flags: seq<bool>, i: nat)
    requires Visited(list, freed, before, nodes, flags, i) && i < |nodes|
    ensures var k := |Select(nodes, flags, i, false)|;
      && k < |list| && list[k] == nodes[i] && At(list, k + 1) == At(nodes, i + 1)
      && (flags[i] ==> Visited(Without(list, k), freed + [nodes[i]], before, nodes, flags, i + 1))
      && (!flags[i] ==> Visited(list, freed, before, nodes, flags, i + 1))
  {
  }

  lemma VisitedAll(list: seq<ClientConnection>, freed: seq<ClientConnection>, before: seq<ClientConnection>,
                   nodes: seq<ClientConnection>, flags: seq<bool>)
    ensures Visited(nodes, before, before, nodes, flags, 0) <==> |nodes| == |flags|
    ensures Visited(list, freed, before, nodes, flags, |nodes|) ==>
      list == Select(nodes, flags, |nodes|, false) && freed == before + Select(nodes, flags, |nodes|, true)
  {
  }

  /** The next node to visit is alive, and its link is still the original one. */
  lemma NextNodeIntact(a: Allocator, head: ClientConnection?, list: seq<ClientConnection>, all: set<ClientConnection>, before: seq<ClientConnection>,
                       nodes: seq<ClientConnection>, flags: seq<bool>, i: nat)
    requires Sound(a, head, list, all) && Visited(list, a.freed, before, nodes, flags, i) && i < |nodes|
    ensures nodes[i] !in a.freed && nodes[i].next == At(nodes, i + 1)
  {
    VisitedNext(list, a.freed, before, nodes, flags, i);
    var k := |Select(nodes, flags, i, false)|;
    assert list[k].next == At(list, k + 1);
  }

  /** One turn of the loop, up to the link that is read for the next one. */
  method CleanupStep(a: Allocator, cur: ClientConnection, next: ClientConnection?, head: ClientConnection?, now: int,
                     ghost list: seq<ClientConnection>, ghost all: set<ClientConnection>, ghost before: seq<ClientConnection>,
                     ghost nodes: seq<ClientConnection>, ghost flags: seq<bool>, ghost i: nat)
    returns (pool: ClientConnection?, afterNext: ClientConnection?, ghost list': seq<ClientConnection>)
    requires Sound(a, head, list, all) && Visited(list, a.freed, before, nodes, flags, i)
    requires i < |nodes| && cur == nodes[i] && next == At(nodes, i + 1) && AreExpired(nodes, now, flags)
    modifies all`next, all`prev, Going(nodes, flags)`fdIn, Going(nodes, flags)`fdOut, a
    ensures AreExpired(nodes, now, flags)
    ensures Sound(a, pool, list', all) && Visited(list', a.freed, before, nodes, flags, i + 1)
    ensures next != null ==> afterNext == At(nodes, i + 2)
  {
    VisitedNext(list, a.freed, before, nodes, flags, i);
    ghost var k := |Select(nodes, flags, i, false)|;
    ghost var gone;
    pool, gone := VisitConnection(a, cur, next, head, now, list, k, all);
    list' := if gone then Without(list, k) else list;
    afterNext := null;
    if next != null {
      NextNodeIntact(a, pool, list', all, before, nodes, flags, i + 1);
      afterNext := a.NextOf(next);
    }
  }

  //// The pass as the machine sees it

  /** The machine's pool stands for the list, and it knows of each connection what is recorded in it. */
  ghost predicate Recorded(s: Lifetime.State, nodes: seq<ClientConnection>)
    reads nodes
  {
    |s.pool| == |nodes| && forall i :: 0 <= i < |nodes| ==> RecordedOne(s, s.pool[i], nodes[i])
  }

  ghost predicate RecordedOne(s: Lifetime.State, id: nat, c: ClientConnection)
    reads c
  {
    id in s.cons && s.cons[id].exited == c.threadHasExited && s.cons[id].EndTime() == c.endTime
  }

  /** The flags say of each listed connection whether the machine finds that it has loitered. */
  ghost predicate FlagsFit(s: Lifetime.State, now: int, flags: seq<bool>) {
    |flags| == |s.pool| && forall i :: 0 <= i < |flags| ==> FlagFits(s, now, s.pool[i], flags[i])
  }

  predicate FlagFits(s: Lifetime.State, now: int, id: nat, flag: bool) {
    id in s.cons && flag == Lifetime.Loitered(s.cons[id], now)
  }

  lemma CodeAndMachineAgree(s: Lifetime.State, nodes: seq<ClientConnection>, now: int, flags: seq<bool>)
    requires Recorded(s, nodes) && AreExpired(nodes, now, flags)
    ensures FlagsFit(s, now, flags)
  {
    forall i | 0 <= i < |flags| ensures FlagFits(s, now, s.pool[i], flags[i]) {
      assert RecordedOne(s, s.pool[i], nodes[i]);
    }
  }

  /**
    The machine after i visits, one for each turn of the loop: its pool is that part of its first i
    connections which stays, with all the others behind, and it has freed that part which goes.
   */
  ghost predicate AfterVisits(s: Lifetime.State, t: Lifetime.State, events: seq<Lifetime.Event>, now: int, flags: seq<bool>, i: nat)
    requires i <= |flags| == |s.pool|
  {
    && |events| == i && (forall j :: 0 <= j < i ==> events[j] == Lifetime.Visit)
    && Lifetime.Run(s, events) == Lifetime.Next(t) && Lifetime.Inv(t) && Left(s, t, now, flags, i)
  }

  ghost predicate Left(s: Lifetime.State, t: Lifetime.State, now: int, flags: seq<bool>, i: nat)
    requires i <= |flags| == |s.pool|
  {
    && t.cons == s.cons && t.main == Lifetime.Cleaning(now, |Select(s.pool, flags, i, false)|)
    && t.pool == Select(s.pool, flags, i, false) + s.pool[i..]
    && forall id :: id in t.freed <==> id in s.freed || id in Select(s.pool, flags, i, true)
  }

  /** A visit frees the connection at the cursor, or passes it. */
  function VisitedAt(t: Lifetime.State, now: int, k: nat, flag: bool): Lifetime.State
    requires k < |t.pool|
  {
    if flag then t.(pool := Without(t.pool, k), freed := t.freed[t.pool[k] := t.clock])
    else t.(main := Lifetime.Cleaning(now, k + 1))
  }

  lemma VisitDoes(t: Lifetime.State, now: int, k: nat, flag: bool)
    requires Lifetime.Inv(t) && t.main == Lifetime.Cleaning(now, k) && k < |t.pool| && FlagFits(t, now, t.pool[k], flag)
    ensures Lifetime.Step(t, Lifetime.Visit) == Lifetime.Next(VisitedAt(t, now, k, flag))
  {
  }

  /** What is left of a sequence, and what stands next in it, when its next element is kept or leaves. */
  lemma SelectOneMore<T>(nodes: seq<T>, flags: seq<bool>, i: nat)
    requires i < |nodes| == |flags|
    ensures var kept, more := Select(nodes, flags, i, false), Select(nodes, flags, i + 1, false);
      && (kept + nodes[i..])[|kept|] == nodes[i]
      && more + nodes[i + 1..] == (if flags[i] then Without(kept + nodes[i..], |kept|) else kept + nodes[i..])
      && |more| == |kept| + if flags[i] then 0 else 1
  {
  }

  lemma LeftOneMore(s: Lifetime.State, t: Lifetime.State, now: int, flags: seq<bool>, i: nat)
    requires i < |flags| == |s.pool| && Left(s, t, now, flags, i)
    ensures var k := |Select(s.pool, flags, i, false)|;
      && k < |t.pool| && t.pool[k] == s.pool[i]
      && Left(s, VisitedAt(t, now, k, flags[i]), now, flags, i + 1)
  {
    SelectOneMore(s.pool, flags, i);
  }

  /** One more visit. */
  lemma OneMoreVisit(s: Lifetime.State, t: Lifetime.State, events: seq<Lifetime.Event>, now: int, flags: seq<bool>, i: nat)
    returns (t': Lifetime.State)
    requires FlagsFit(s, now, flags) && i < |flags| && AfterVisits(s, t, events, now, flags, i)
    ensures AfterVisits(s, t', events + [Lifetime.Visit], now, flags, i + 1)
  {
    var k := |Select(s.pool, flags, i, false)|;
    LeftOneMore(s, t, now, flags, i);
    assert FlagFits(s, now, s.pool[i], flags[i]);
    VisitDoes(t, now, k, flags[i]);
    t' := VisitedAt(t, now, k, flags[i]);
    Lifetime.RunExtends(s, events, t, Lifetime.Visit);
    Lifetime.StepKeeps(t, Lifetime.Visit);
  }

  /** So the whole pass is a run of the machine. */
  lemma {:induction false} PassIsARun(s: Lifetime.State, now: int, flags: seq<bool>, i: nat)
    returns (t: Lifetime.State, events: seq<Lifetime.Event>)
    requires Lifetime.Inv(s) && s.main == Lifetime.Cleaning(now, 0) && FlagsFit(s, now, flags) && i <= |flags|
    ensures AfterVisits(s, t, events, now, flags, i)
  {
    if i == 0 {
      t, events := s, [];
    } else {
      t, events := PassIsARun(s, now, flags, i - 1);
      t := OneMoreVisit(s, t, events, now, flags, i - 1);
      events := events + [Lifetime.Visit];
    }
  }

  /** In the machine no worker is left of what has been freed. */
  lemma {:induction false} FreedHaveNoWorker(s: Lifetime.State, t: Lifetime.State, events: seq<Lifetime.Event>, now: int, flags: seq<bool>, i: nat)
    requires |flags| == |s.pool| && AfterVisits(s, t, events, now, flags, |flags|) && i < |flags| && flags[i]
    ensures s.pool[i] in t.freed && Lifetime.NoWorkerLeft(t, s.pool[i])
  {
    Selected(s.pool, flags, |flags|, i, true);
    assert Lifetime.ConnectionInv(t, s.pool[i]);
  }

  lemma {:induction false} Selected<T>(nodes: seq<T>, flags: seq<bool>, n: nat, i: nat, wanted: bool)
    requires i < n <= |nodes| == |flags| && flags[i] == wanted
    ensures nodes[i] in Select(nodes, flags, n, wanted)
  {
    if i < n - 1 {
      Selected(nodes, flags, n - 1, i, wanted);
    }
  }

  /** The pass that these flags describe, in the machine: what it frees has no worker left. */
  ghost predicate IsMachinePass(s: Lifetime.State, now: int, flags: seq<bool>) {
    |flags| == |s.pool| && exists t, events :: AfterVisits(s, t, events, now, flags, |flags|) && NobodyHurt(s, t, flags)
  }

  ghost predicate NobodyHurt(s: Lifetime.State, t: Lifetime.State, flags: seq<bool>)
    requires |flags| == |s.pool|
  {
    forall i :: 0 <= i < |flags| && flags[i] ==> s.pool[i] in t.freed && Lifetime.NoWorkerLeft(t, s.pool[i])
  }

  lemma MachinePass(s: Lifetime.State, nodes: seq<ClientConnection>, now: int, flags: seq<bool>)
    requires Recorded(s, nodes) && AreExpired(nodes, now, flags) && Lifetime.Inv(s) && s.main == Lifetime.Cleaning(now, 0)
    ensures IsMachinePass(s, now, flags)
  {
    CodeAndMachineAgree(s, nodes, now, flags);
    var t, events := PassIsARun(s, now, flags, |flags|);
    forall i | 0 <= i < |flags| && flags[i] ensures s.pool[i] in t.freed && Lifetime.NoWorkerLeft(t, s.pool[i]) {
      FreedHaveNoWorker(s, t, events, now, flags, i);
    }
    assert AfterVisits(s, t, events, now, flags, |flags|) && NobodyHurt(s, t, flags);
  }

  /** What the flags select, told by the connections themselves. */
  lemma SplitByFlags(nodes: seq<ClientConnection>, flags: seq<bool>, now: int)
    requires AreExpired(nodes, now, flags) && Distinct(nodes)
    ensures forall i :: 0 <= i < |nodes| ==>
      var goes := nodes[i].threadHasExited && now - nodes[i].endTime > 4;
      goes == (nodes[i] in Select(nodes, flags, |nodes|, true)) == (nodes[i] !in Select(nodes, flags, |nodes|, false))
    ensures forall c :: c in Select(nodes, flags, |nodes|, true) ==> c in nodes
    ensures forall c :: c in Select(nodes, flags, |nodes|, false) ==> c !in Going(nodes, flags)
  {
    SelectMembers(nodes, flags, |nodes|, false);
    SelectMembers(nodes, flags, |nodes|, true);
    assert nodes[..|nodes|] == nodes;
  }

  /**
    The pass keeps, in order and correctly linked, exactly the connections that have not
    both exited and loitered for more than 4 seconds, and leaves them their sockets; it frees the
    others, each once, with their sockets closed. In
    any state of the machine of Lifetime that stands for the list, it is a run of as many visits as
    there are connections, which leaves the same ones and frees the same ones, and of
    those no worker is left.
   */
  method CleanupConnections(a: Allocator, head: ClientConnection?, now: int,
                            ghost nodes: seq<ClientConnection>, ghost flags: seq<bool>, ghost all: set<ClientConnection>)
    returns (pool: ClientConnection?, ghost list: seq<ClientConnection>)
    requires Sound(a, head, nodes, all) && AreExpired(nodes, now, flags)
    modifies all`next, all`prev, Going(nodes, flags)`fdIn, Going(nodes, flags)`fdOut, a
    ensures Sound(a, pool, list, all) && list == Select(nodes, flags, |nodes|, false)
    ensures a.freed == old(a.freed) + Select(nodes, flags, |nodes|, true)
    ensures forall i :: 0 <= i < |nodes| ==>
      var goes := old(nodes[i].threadHasExited) && now - old(nodes[i].endTime) > 4;
      goes == (nodes[i] in a.freed) == (nodes[i] !in list)
    ensures forall c :: c in a.freed && c !in old(a.freed) ==> c in nodes
    ensures forall c :: c in list ==> c.fdIn == old(c.fdIn) && c.fdOut == old(c.fdOut)
    ensures forall s | old(Recorded(s, nodes)) && Lifetime.Inv(s) && s.main == Lifetime.Cleaning(now, 0) :: IsMachinePass(s, now, flags)
  {
    SplitByFlags(nodes, flags, now);
    forall s | Recorded(s, nodes) && Lifetime.Inv(s) && s.main == Lifetime.Cleaning(now, 0) ensures IsMachinePass(s, now, flags) {
      MachinePass(s, nodes, now, flags);
    }
    pool, list := CleanupList(a, head, now, nodes, flags, all);
  }

  /** The code of the pass. */
  method CleanupList(a: Allocator, head: ClientConnection?, now: int,
                     ghost nodes: seq<ClientConnection>, ghost flags: seq<bool>, ghost all: set<ClientConnection>)
    returns (pool: ClientConnection?, ghost list: seq<ClientConnection>)
    requires Sound(a, head, nodes, all) && AreExpired(nodes, now, flags)
    modifies all`next, all`prev, Going(nodes, flags)`fdIn, Going(nodes, flags)`fdOut, a
    ensures Sound(a, pool, list, all) && list == Select(nodes, flags, |nodes|, false)
    ensures a.freed == old(a.freed) + Select(nodes, flags, |nodes|, true)
  {
    ghost var before := a.freed;
    pool, list := head, nodes;
    VisitedAll(list, a.freed, before, nodes, flags);
    if pool != null {
      list, pool := CleanupFrom(a, pool, now, before, nodes, flags, all);
    }
    VisitedAll(list, a.freed, before, nodes, flags);
  }

  /** The loop, over a list that is not empty. */
  method CleanupFrom(a: Allocator, head: ClientConnection, now: int, ghost before: seq<ClientConnection>,
                     ghost nodes: seq<ClientConnection>, ghost flags: seq<bool>, ghost all: set<ClientConnection>)
    returns (ghost list: seq<ClientConnection>, pool: ClientConnection?)
    requires Sound(a, head, nodes, all) && AreExpired(nodes, now, flags)
    requires Visited(nodes, a.freed, before, nodes, flags, 0) && nodes != []
    modifies all`next, all`prev, Going(nodes, flags)`fdIn, Going(nodes, flags)`fdOut, a
    ensures Sound(a, pool, list, all) && Visited(list, a.freed, before, nodes, flags, |nodes|)
  {
    pool, list := head, nodes;
    NextNodeIntact(a, pool, list, all, before, nodes, flags, 0);
    var cur: ClientConnection? := head;
    var next := a.NextOf(head);
    ghost var i := 0;
    while cur != null
      invariant 0 <= i <= |nodes| && cur == At(nodes, i) && (cur != null ==> next == At(nodes, i + 1))
      invariant Visited(list, a.freed, before, nodes, flags, i)
      invariant Sound(a, pool, list, all)
      invariant AreExpired(nodes, now, flags)
      decreases |nodes| - i
    {
      var afterNext;
      pool, afterNext, list := CleanupStep(a, cur, next, pool, now, list, all, before, nodes, flags, i);
      cur, next := next, afterNext;
      i := i + 1;
    }
  }
}
