/**
  The main loop and the worker threads, one shared access at a time. Connections are
  numbered; a worker may be anywhere in its handler while the main thread accepts,
  launches, scans and frees.
 */
module Lifetime {
  import opened Sequences

  const LOITER := 4

  /** Ready: accepted, not launched. Stamped: end_time written, thread_has_exited not yet. */
  datatype Phase = Ready | LaunchFailed | Running | Stamped | Finished

  /** The end_time of a connection: a fresh connection has 0, which is no time of an end. */
  datatype End = NotRecorded | Recorded(time: int)

  /**
    A handler that ends in service_thread_shutdown stamps the end; the default handler does
    not. The time at which thread_has_exited was set is kept beside what is recorded.
   */
  datatype Connection = Connection(phase: Phase, stamps: bool, end: End, exited: bool, endedAt: int) {
    function EndTime(): int {
      if end.Recorded? then end.time else 0
    }
  }

  datatype MainPc = Polling | Launching(id: nat) | Launched(id: nat) | Cleaning(now: int, cursor: nat)

  datatype State = State(
    clock: int,
    cons: map<nat, Connection>,
    pool: seq<nat>,
    freed: map<nat, int>,       // when each freed connection was freed
    main: MainPc)

  datatype Event =
    | Tick(to: int)
    | Accept(id: nat, stamps: bool)
    | LaunchThread(ok: bool)     // pthread_create returns
    | NoteLaunch                 // the writes to the connection that follow it
    | Inspect(id: nat)           // the main thread reads a listed connection
    | BeginCleanup
    | Visit                      // one turn of the loop of cleanup_connections
    | EndCleanup
    | Access(id: nat)            // a worker uses its connection
    | StampEnd(id: nat)          // a worker writes end_time
    | PublishExit(id: nat)       // a worker writes thread_has_exited, its last access

  datatype Outcome = Disabled | UseAfterFree | Next(state: State)

  function Start(clock: int): State {
    State(clock, map[], [], map[], Polling)
  }

  predicate Loitered(c: Connection, now: int) {
    c.exited && now - c.EndTime() > LOITER
  }

  /** A worker's access to its own connection, with what it writes. */
  function WorkerStep(s: State, id: nat, c: Connection): Outcome {
    if id in s.freed then UseAfterFree else Next(s.(cons := s.cons[id := c]))
  }

  function MainAccess(s: State, id: nat, s': State): Outcome {
    if id in s.freed then UseAfterFree else Next(s')
  }

  function Step(s: State, e: Event): Outcome {
    match e
    case Tick(to) => if s.clock <= to then Next(s.(clock := to)) else Disabled
    case Accept(id, stamps) =>
      if s.main == Polling && id !in s.cons then
        Next(s.(cons := s.cons[id := Connection(Ready, stamps, NotRecorded, false, 0)], pool := [id] + s.pool, main := Launching(id)))
      else Disabled
    case LaunchThread(ok) =>
      if s.main.Launching? && s.main.id in s.cons then
        var id, c := s.main.id, s.cons[s.main.id];
        var c' := if ok then c.(phase := Running) else c.(phase := LaunchFailed, exited := true, endedAt := s.clock);
        MainAccess(s, id, s.(cons := s.cons[id := c'], main := Launched(id)))
      else Disabled
    case NoteLaunch =>
      if s.main.Launched? then MainAccess(s, s.main.id, s.(main := Polling)) else Disabled
    case Inspect(id) =>
      if s.main == Polling && id in s.pool then MainAccess(s, id, s) else Disabled
    case BeginCleanup =>
      if s.main == Polling then Next(s.(main := Cleaning(s.clock, 0))) else Disabled
    case Visit =>
      if s.main.Cleaning? && s.main.cursor < |s.pool| && s.pool[s.main.cursor] in s.cons then
        var k := s.main.cursor;
        var id := s.pool[k];
        if Loitered(s.cons[id], s.main.now) then
          MainAccess(s, id, s.(pool := Without(s.pool, k), freed := s.freed[id := s.clock]))
        else
          MainAccess(s, id, s.(main := Cleaning(s.main.now, k + 1)))
      else Disabled
    case EndCleanup =>
      if s.main.Cleaning? && s.main.cursor >= |s.pool| then Next(s.(main := Polling)) else Disabled
    case Access(id) =>
      if id in s.cons && (s.cons[id].phase == Running || s.cons[id].phase == Stamped) then WorkerStep(s, id, s.cons[id])
      else Disabled
    case StampEnd(id) =>
      if id in s.cons && s.cons[id].phase == Running && s.cons[id].stamps then
        WorkerStep(s, id, s.cons[id].(phase := Stamped, end := Recorded(s.clock)))
      else Disabled
    case PublishExit(id) =>
      if id in s.cons && s.cons[id].phase == (if s.cons[id].stamps then Stamped else Running) then
        WorkerStep(s, id, s.cons[id].(phase := Finished, exited := true, endedAt := s.clock))
      else Disabled
  }

  function Run(s: State, events: seq<Event>): Outcome {
    if events == [] then Next(s)
    else
      match Run(s, events[..|events| - 1])
      case Next(t) => Step(t, events[|events| - 1])
      case other => other
  }

  //// The invariant

  ghost predicate ConnectionInv(s: State, id: nat)
    requires id in s.cons
  {
    var c := s.cons[id];
    && (c.exited <==> c.phase == Finished || c.phase == LaunchFailed)
    && (c.end.Recorded? <==> c.phase == Stamped || (c.phase == Finished && c.stamps))
    && c.EndTime() <= s.clock
    && (c.phase == Finished && c.stamps ==> c.EndTime() <= c.endedAt <= s.clock)
    && (id in s.pool || id in s.freed)
    && (c.phase == Ready ==> s.main == Launching(id))
    && (id in s.freed ==> c.exited && s.freed[id] <= s.clock && s.freed[id] - c.EndTime() > LOITER)
  }

  ghost predicate Inv(s: State) {
    && 0 <= s.clock
    && (forall id :: id in s.cons ==> ConnectionInv(s, id))
    && (forall i :: 0 <= i < |s.pool| ==> s.pool[i] in s.cons && s.pool[i] !in s.freed)
    && (forall i, j :: 0 <= i < j < |s.pool| ==> s.pool[i] != s.pool[j])
    && (forall id :: id in s.freed ==> id in s.cons)
    && (s.main.Launching? ==> s.main.id in s.pool && s.cons[s.main.id].phase == Ready)
    && (s.main.Launched? ==> s.main.id in s.pool)
    && (s.main.Cleaning? ==> s.main.now <= s.clock)
  }

  lemma WithoutMembers(pool: seq<nat>, k: nat)
    requires k < |pool| && forall i, j :: 0 <= i < j < |pool| ==> pool[i] != pool[j]
    ensures forall i, j :: 0 <= i < j < |Without(pool, k)| ==> Without(pool, k)[i] != Without(pool, k)[j]
    ensures forall x :: x in Without(pool, k) <==> x in pool && x != pool[k]
  {
    forall x | x in pool && x != pool[k] ensures x in Without(pool, k) {
      var i :| 0 <= i < |pool| && pool[i] == x;
      assert Without(pool, k)[if i < k then i else i - 1] == x;
    }
  }

  /** Freeing a listed connection that has loitered, with the rest of the pool as it was. */
  lemma FreedInv(s: State, id: nat, pool: seq<nat>)
    requires Inv(s) && s.main.Cleaning? && id in s.pool && Loitered(s.cons[id], s.main.now)
    requires forall i, j :: 0 <= i < j < |pool| ==> pool[i] != pool[j]
    requires forall x :: x in pool <==> x in s.pool && x != id
    ensures Inv(s.(pool := pool, freed := s.freed[id := s.clock]))
  {
    var s' := s.(pool := pool, freed := s.freed[id := s.clock]);
    forall x | x in s'.cons ensures ConnectionInv(s', x) {
      assert ConnectionInv(s, x);
    }
    forall i | 0 <= i < |pool| ensures pool[i] in s'.cons && pool[i] !in s'.freed {
      assert pool[i] in pool;
    }
  }

  lemma VisitKeeps(s: State)
    requires Inv(s) && Step(s, Visit).Next?
    ensures Inv(Step(s, Visit).state)
  {
    var k := s.main.cursor;
    var id := s.pool[k];
    assert ConnectionInv(s, id);
    if Loitered(s.cons[id], s.main.now) {
      WithoutMembers(s.pool, k);
      FreedInv(s, id, Without(s.pool, k));
      assert Step(s, Visit).state == s.(pool := Without(s.pool, k), freed := s.freed[id := s.clock]);
    } else {
      OnlyMainMoves(s, Cleaning(s.main.now, k + 1));
      assert Step(s, Visit).state == s.(main := Cleaning(s.main.now, k + 1));
    }
  }

  /** The main thread goes from one place to another, no connection waiting for its launch. */
  lemma OnlyMainMoves(s: State, pc: MainPc)
    requires Inv(s) && !s.main.Launching?
    requires pc == Polling || (pc.Cleaning? && pc.now <= s.clock)
    ensures Inv(s.(main := pc))
  {
    forall x | x in s.cons ensures ConnectionInv(s.(main := pc), x) {
      assert ConnectionInv(s, x);
    }
  }

  /** A connection that is not freed changes, in a way that its own part of the invariant allows. */
  lemma ChangedInv(s: State, id: nat, c: Connection, pc: MainPc)
    requires Inv(s) && id in s.cons && id !in s.freed && c.phase != Ready
    requires ConnectionInv(s.(cons := s.cons[id := c], main := pc), id)
    requires if s.main.Launching? then id == s.main.id && pc == Launched(id) else pc == s.main
    ensures Inv(s.(cons := s.cons[id := c], main := pc))
  {
    var s' := s.(cons := s.cons[id := c], main := pc);
    forall x | x in s'.cons ensures ConnectionInv(s', x) {
      if x != id {
        assert ConnectionInv(s, x);
      }
    }
  }

  lemma StampKeeps(s: State, id: nat)
    requires Inv(s) && Step(s, StampEnd(id)).Next?
    ensures Inv(Step(s, StampEnd(id)).state)
  {
    assert ConnectionInv(s, id);
    WorkerChange(s, id, s.cons[id].(phase := Stamped, end := Recorded(s.clock)));
  }

  lemma ExitKeeps(s: State, id: nat)
    requires Inv(s) && Step(s, PublishExit(id)).Next?
    ensures Inv(Step(s, PublishExit(id)).state)
  {
    assert ConnectionInv(s, id);
    WorkerChange(s, id, s.cons[id].(phase := Finished, exited := true, endedAt := s.clock));
  }

  lemma AccessKeeps(s: State, id: nat)
    requires Inv(s) && Step(s, Access(id)).Next?
    ensures Inv(Step(s, Access(id)).state)
  {
    assert s.cons[id := s.cons[id]] == s.cons;
  }

  /** A worker changes its own connection, which is then not one being launched. */
  lemma WorkerChange(s: State, id: nat, c: Connection)
    requires Inv(s) && id in s.cons && id !in s.freed && c.phase != Ready && s.cons[id].phase != Ready
    requires ConnectionInv(s.(cons := s.cons[id := c]), id)
    ensures Inv(s.(cons := s.cons[id := c]))
  {
    var s' := s.(cons := s.cons[id := c]);
    forall x | x in s'.cons ensures ConnectionInv(s', x) {
      if x != id {
        assert ConnectionInv(s, x);
      }
    }
  }

  lemma LaunchKeeps(s: State, ok: bool)
    requires Inv(s) && Step(s, LaunchThread(ok)).Next?
    ensures Inv(Step(s, LaunchThread(ok)).state)
  {
    var id, c := s.main.id, s.cons[s.main.id];
    assert ConnectionInv(s, id);
    var c' := if ok then c.(phase := Running) else c.(phase := LaunchFailed, exited := true, endedAt := s.clock);
    ChangedInv(s, id, c', Launched(id));
  }

  lemma AcceptKeeps(s: State, id: nat, stamps: bool)
    requires Inv(s) && Step(s, Accept(id, stamps)).Next?
    ensures Inv(Step(s, Accept(id, stamps)).state)
  {
    var s' := Step(s, Accept(id, stamps)).state;
    forall x | x in s'.cons ensures ConnectionInv(s', x) {
      if x != id {
        assert ConnectionInv(s, x);
        assert x in s.pool ==> x in s'.pool;
      }
    }
  }

  lemma TickKeeps(s: State, to: int)
    requires Inv(s) && s.clock <= to
    ensures Inv(s.(clock := to))
  {
    forall x | x in s.cons ensures ConnectionInv(s.(clock := to), x) {
      assert ConnectionInv(s, x);
    }
  }

  /** No step touches a freed connection: a worker's is still listed until it has exited, the main thread's is listed. */
  lemma NoUseAfterFree(s: State, e: Event)
    requires Inv(s)
    ensures Step(s, e) != UseAfterFree
  {
    if e.Access? || e.StampEnd? || e.PublishExit? {
      if e.id in s.cons {
        assert ConnectionInv(s, e.id);
      }
    }
  }

  lemma NextKeeps(s: State, e: Event)
    requires Inv(s) && Step(s, e).Next?
    ensures Inv(Step(s, e).state)
  {
    match e
    case Tick(to) => TickKeeps(s, to);
    case Accept(id, stamps) => AcceptKeeps(s, id, stamps);
    case LaunchThread(ok) => LaunchKeeps(s, ok);
    case NoteLaunch => OnlyMainMoves(s, Polling);
    case Inspect(_) =>
    case BeginCleanup => OnlyMainMoves(s, Cleaning(s.clock, 0));
    case Visit => VisitKeeps(s);
    case EndCleanup => OnlyMainMoves(s, Polling);
    case Access(id) => AccessKeeps(s, id);
    case StampEnd(id) => StampKeeps(s, id);
    case PublishExit(id) => ExitKeeps(s, id);
  }

  lemma StepKeeps(s: State, e: Event)
    requires Inv(s)
    ensures Step(s, e) != UseAfterFree
    ensures Step(s, e).Next? ==> Inv(Step(s, e).state) && Step(s, e).state.clock >= s.clock
  {
    NoUseAfterFree(s, e);
    if Step(s, e).Next? {
      NextKeeps(s, e);
    }
  }

  //// Main results

  /** The thread never started, or it has made its last access. */
  ghost predicate NoWorkerLeft(s: State, id: nat) {
    id in s.cons && (s.cons[id].phase == LaunchFailed || s.cons[id].phase == Finished)
  }

  /**
    Lifetime safety, for every interleaving: no thread ever touches a freed connection,
    and a connection is freed only when no worker is left to use it.
   */
  lemma {:induction false} LifetimeSafety(clock: nat, events: seq<Event>)
    ensures Run(Start(clock), events) != UseAfterFree
    ensures Run(Start(clock), events).Next? ==>
      var s := Run(Start(clock), events).state;
      Inv(s) && s.clock >= clock && forall id :: id in s.freed ==> NoWorkerLeft(s, id)
  {
    if events != [] {
      LifetimeSafety(clock, events[..|events| - 1]);
      match Run(Start(clock), events[..|events| - 1])
      case Next(t) => StepKeeps(t, events[|events| - 1]);
      case _ =>
    }
    if Run(Start(clock), events).Next? {
      var s := Run(Start(clock), events).state;
      forall id | id in s.freed ensures NoWorkerLeft(s, id) {
        assert ConnectionInv(s, id);
      }
    }
  }

  /** A freed connection had a recorded end, and stayed listed for more than 4 seconds after it. */
  ghost predicate StayedListed(s: State, id: nat)
    requires id in s.freed
  {
    id in s.cons && s.cons[id].end.Recorded? && s.freed[id] - s.cons[id].end.time > LOITER
  }

  /** Its thread was created, and runs a handler that stamps the end. */
  predicate Stamps(c: Connection) {
    c.phase != LaunchFailed && c.stamps
  }

  /**
    In every run, a freed connection stayed listed for more than 4 seconds after its recorded
    end exactly when its thread was created and its handler stamps the end.
   */
  lemma LoiteringNeedsAStamp(clock: nat, events: seq<Event>)
    requires Run(Start(clock), events).Next?
    ensures var s := Run(Start(clock), events).state;
      forall id :: id in s.freed ==> id in s.cons && (StayedListed(s, id) <==> Stamps(s.cons[id]))
  {
    LifetimeSafety(clock, events);
    var s := Run(Start(clock), events).state;
    forall id | id in s.freed
      ensures id in s.cons && (StayedListed(s, id) <==> Stamps(s.cons[id]))
    {
      assert ConnectionInv(s, id);
    }
  }

  /** The worker's last access comes no earlier than the stamp the 4 seconds are counted from. */
  lemma StampPrecedesExit(clock: nat, events: seq<Event>, id: nat)
    requires Run(Start(clock), events).Next?
    ensures var s := Run(Start(clock), events).state;
      id in s.cons && s.cons[id].phase == Finished && s.cons[id].stamps ==> s.cons[id].EndTime() <= s.cons[id].endedAt
  {
    LifetimeSafety(clock, events);
    var s := Run(Start(clock), events).state;
    if id in s.cons {
      assert ConnectionInv(s, id);
    }
  }

  /** A connection without a recorded end is freed by the first pass that comes to it, however recent its end is. */
  lemma UnrecordedIsFreedByTheNextPass(s: State)
    requires Inv(s) && s.main.Cleaning? && s.main.cursor < |s.pool| && s.main.now > LOITER
    requires var c := s.cons[s.pool[s.main.cursor]]; c.exited && c.end.NotRecorded?
    ensures Step(s, Visit).Next? && s.pool[s.main.cursor] in Step(s, Visit).state.freed
  {
  }

  lemma RunExtends(s: State, events: seq<Event>, t: State, e: Event)
    requires Run(s, events) == Next(t)
    ensures Run(s, events + [e]) == Step(t, e)
  {
    assert (events + [e])[..|events|] == events;
  }

  /** A launch that fails at time 5: the connection is freed at time 5. */
  lemma FailedLaunchIsReapedAtOnce()
    ensures var r := Run(Start(5), [Accept(1, true)] + [LaunchThread(false)] + [NoteLaunch] + [BeginCleanup] + [Visit]);
      && r.Next? && 1 in r.state.cons && 1 in r.state.freed
      && r.state.cons[1].phase == LaunchFailed && r.state.cons[1].endedAt == r.state.freed[1] == 5
  {
    var s0 := Start(5);
    var none: seq<Event> := [];
    var s1 := Step(s0, Accept(1, true)).state;
    var s2 := Step(s1, LaunchThread(false)).state;
    var s3 := Step(s2, NoteLaunch).state;
    var s4 := Step(s3, BeginCleanup).state;
    assert none + [Accept(1, true)] == [Accept(1, true)];
    RunExtends(s0, none, s0, Accept(1, true));
    RunExtends(s0, [Accept(1, true)], s1, LaunchThread(false));
    RunExtends(s0, [Accept(1, true)] + [LaunchThread(false)], s2, NoteLaunch);
    RunExtends(s0, [Accept(1, true)] + [LaunchThread(false)] + [NoteLaunch], s3, BeginCleanup);
    RunExtends(s0, [Accept(1, true)] + [LaunchThread(false)] + [NoteLaunch] + [BeginCleanup], s4, Visit);
  }
}
