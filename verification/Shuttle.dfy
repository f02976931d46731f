/** The loop that carries bytes both ways between the client and the server it is connected to. */
module Shuttle {
  import opened Kernel
  import opened SafeBlockingReadWrite
  import opened ClientConnections

  /** The bits of a poll result that the loop looks at; an error is POLLERR or POLLNVAL. */
  datatype Revents = Revents(readable: bool, hangUp: bool, error: bool)

  datatype PollResult = PollFailed | Polled(inEvents: Revents, outEvents: Revents)

  /** One direction of the connection: the bytes taken from its sender and given to its receiver. */
  datatype Flow = Flow(taken: seq<byte>, given: seq<byte>)

  const NOTHING := Flow([], [])

  ghost predicate Grows(f: Flow, g: Flow) {
    f.taken <= g.taken && f.given <= g.given
  }

  /** The states of a direction, the latest last: one for each read and each write. */
  datatype History = Start | Later(earlier: History, flow: Flow)

  function Now(h: History): Flow {
    if h.Start? then NOTHING else h.flow
  }

  /** The history only grows, and what was given is at every moment a prefix of what was taken. */
  ghost predicate Conserving(h: History) {
    h.Later? ==> Conserving(h.earlier) && Grows(Now(h.earlier), h.flow) && h.flow.given <= h.flow.taken
  }

  /** sb_read: one read, repeated while interrupted. */
  method SbRead(fd: Socket, buf: array<byte>, buflen: nat) returns (rc: int, ghost data: seq<byte>)
    requires 0 < buflen <= buf.Length
    modifies fd`incoming, fd`readScript, buf
    ensures old(fd.incoming) == data + fd.incoming
    ensures rc >= 0 ==> rc == |data| <= buflen && buf[..rc] == data && (rc == 0 ==> old(fd.incoming) == [])
    ensures rc < 0 ==> data == [] && Fault in old(fd.readScript)
    ensures forall e :: e in fd.readScript ==> e in old(fd.readScript)
  {
    var eintr := true;
    rc, data := -1, [];
    while rc < 0 && eintr
      invariant rc < 0 && eintr ==> data == [] && fd.incoming == old(fd.incoming)
      invariant old(fd.incoming) == data + fd.incoming
      invariant rc >= 0 ==> rc == |data| <= buflen && buf[..rc] == data && (rc == 0 ==> old(fd.incoming) == [])
      invariant rc < 0 ==> data == [] && (eintr || Fault in old(fd.readScript))
      invariant forall e :: e in fd.readScript ==> e in old(fd.readScript)
      decreases |fd.readScript|, rc < 0 && eintr
    {
      rc, eintr, data := fd.Read(buf, 0, buflen);
    }
  }

  /** Neither reading from the one nor writing to the other, if there is one, will fail. */
  ghost predicate Reliable(fdRead: Socket, fdWrite: Socket?)
    reads fdRead, fdWrite
  {
    Faultless(fdRead.readScript) && (fdWrite != null ==> Faultless(fdWrite.writeScript))
  }

  /**
    Moves at most one buffer from fdRead to fdWrite, or drains it when there is nowhere
    to write. A positive result is the number of bytes taken, all of them given unless
    draining; 0 means end of transmission; on an error, which only a fault brings about,
    a prefix has been given.
   */
  method ShuttleOnce(fdRead: Socket, fdWrite: Socket?) returns (rc: int, ghost took: seq<byte>, ghost gave: seq<byte>)
    requires fdRead != fdWrite
    modifies fdRead`incoming, fdRead`readScript, (if fdWrite == null then {} else {fdWrite})`sent
    modifies (if fdWrite == null then {} else {fdWrite})`writeScript
    ensures |took| <= 10000 && gave <= took && old(fdRead.incoming) == took + fdRead.incoming
    ensures fdWrite != null ==> fdWrite.sent == old(fdWrite.sent) + gave
    ensures fdWrite == null ==> gave == []
    ensures rc >= 0 ==> rc == |took| && (rc == 0 ==> old(fdRead.incoming) == [])
    ensures rc >= 0 && fdWrite != null ==> gave == took
    ensures old(Reliable(fdRead, fdWrite)) ==> rc >= 0 && Reliable(fdRead, fdWrite)
  {
    var buf := new byte[10000];
    var readRc;
    gave := [];
    readRc, took := SbRead(fdRead, buf, 10000);
    if readRc > 0 && fdWrite != null {
      ghost var done;
      rc, done := SbWriteLen(fdWrite, buf, readRc);
      gave := buf[..done];
      return;
    }
    return readRc, took, gave;
  }

  /** The history after taking some bytes and then giving some. */
  ghost function Exchange(h: History, took: seq<byte>, gave: seq<byte>): History {
    var f := Now(h);
    Later(Later(h, Flow(f.taken + took, f.given)), Flow(f.taken + took, f.given + gave))
  }

  /** Giving a prefix of what was just taken conserves, if everything before had been given. */
  lemma ExchangeConserves(h: History, took: seq<byte>, gave: seq<byte>)
    requires Conserving(h) && gave <= took
    requires gave == [] || Now(h).given == Now(h).taken
    ensures Conserving(Exchange(h, took, gave))
  {
    assert Now(h).given <= Now(h).taken;
  }

  /**
    One exchange of a direction. The sockets account for its history: the stream is what
    was taken followed by what is left to read, and the receiver got what was given.
   */
  method Forward(fdRead: Socket, fdWrite: Socket?, ghost history: History, ghost stream: seq<byte>, ghost before: seq<byte>)
    returns (rc: int, ghost history': History)
    requires fdRead != fdWrite && Conserving(history)
    requires stream == Now(history).taken + fdRead.incoming
    requires fdWrite != null ==> Now(history).given == Now(history).taken && fdWrite.sent == before + Now(history).given
    modifies fdRead`incoming, fdRead`readScript, (if fdWrite == null then {} else {fdWrite})`sent
    modifies (if fdWrite == null then {} else {fdWrite})`writeScript
    ensures Conserving(history') && stream == Now(history').taken + fdRead.incoming
    ensures |Now(history).taken| <= |Now(history').taken|
    ensures fdWrite != null ==> fdWrite.sent == before + Now(history').given
    ensures fdWrite == null ==> Now(history').given == Now(history).given
    ensures rc >= 0 ==> |Now(history').taken| == |Now(history).taken| + rc && (rc == 0 ==> old(fdRead.incoming) == [])
    ensures rc >= 0 && fdWrite != null ==> Now(history').given == Now(history').taken
    ensures old(Reliable(fdRead, fdWrite)) ==> rc >= 0 && Reliable(fdRead, fdWrite)
  {
    ghost var took, gave;
    rc, took, gave := ShuttleOnce(fdRead, fdWrite);
    ExchangeConserves(history, took, gave);
    history' := Exchange(history, took, gave);
  }

  /** The sockets of a connection, and what they and the counters held when the loop began. */
  datatype Origin = Origin(fdIn: Socket, fdOut: Socket, streamIn: seq<byte>, streamOut: seq<byte>,
                           sentIn: seq<byte>, sentOut: seq<byte>, tx: nat, rx: nat)

  /** Sockets account for both directions, whose histories conserve. */
  ghost predicate Accounted(o: Origin, up: History, down: History)
    reads o.fdIn, o.fdOut
  {
    && Conserving(up) && Conserving(down)
    && o.streamIn == Now(up).taken + o.fdIn.incoming && o.fdOut.sent == o.sentOut + Now(up).given
    && o.streamOut == Now(down).taken + o.fdOut.incoming && o.fdIn.sent == o.sentIn + Now(down).given
  }

  ghost predicate Counted(con: ClientConnection, o: Origin, up: History, down: History)
    reads con
  {
    con.bytesTx == o.tx + |Now(up).taken| && con.bytesRx == o.rx + |Now(down).taken|
  }

  /** No call on the two sockets will fail. */
  ghost predicate NoFaults(o: Origin)
    reads o.fdIn, o.fdOut
  {
    Reliable(o.fdIn, o.fdOut) && Reliable(o.fdOut, o.fdIn)
  }

  /** A sender whose turn it was has been read from, or has been read to its end. */
  ghost predicate Advanced(before: History, now: History, stream: seq<byte>, ended: bool) {
    if ended then Now(now).taken == stream else |Now(now).taken| > |Now(before).taken|
  }

  /** The part of a round that serves a readable client: forward or drain, then count or close. */
  method FromClient(con: ClientConnection, ghost o: Origin, outCanWrite: bool, ghost up: History, ghost down: History)
    returns (rc: int, ghost up': History)
    requires con.fdIn == o.fdIn && con.fdOut == o.fdOut && o.fdIn != o.fdOut
    requires Accounted(o, up, down) && Counted(con, o, up, down)
    requires outCanWrite ==> Now(up).given == Now(up).taken
    modifies con`fdIn, con`bytesTx, o.fdIn`incoming, o.fdIn`readScript, o.fdOut`sent, o.fdOut`writeScript
    ensures Accounted(o, up', down) && con.bytesTx <= o.tx + |Now(up').taken|
    ensures rc >= 0 ==> Counted(con, o, up', down)
    ensures rc >= 0 && outCanWrite ==> Now(up').given == Now(up').taken
    ensures con.fdIn == (if rc == 0 then null else o.fdIn)
    ensures |Now(up).taken| <= |Now(up').taken| && (rc >= 0 ==> Advanced(up, up', o.streamIn, rc == 0))
    ensures old(NoFaults(o)) ==> rc >= 0 && NoFaults(o)
  {
    if outCanWrite {
      rc, up' := Forward(con.fdIn, con.fdOut, up, o.streamIn, o.sentOut);
    } else {
      rc, up' := Forward(con.fdIn, null, up, o.streamIn, o.sentOut);
    }
    if rc == 0 {
      con.fdIn := null;
    } else if rc > 0 {
      con.bytesTx := con.bytesTx + rc;
    }
  }

  /** The same for a readable server; the client's socket may have been closed just before. */
  method FromServer(con: ClientConnection, ghost o: Origin, inCanWrite: bool, ghost up: History, ghost down: History)
    returns (rc: int, ghost down': History)
    requires (con.fdIn == o.fdIn || con.fdIn == null) && con.fdOut == o.fdOut && o.fdIn != o.fdOut
    requires Accounted(o, up, down) && Counted(con, o, up, down)
    requires inCanWrite && con.fdIn != null ==> Now(down).given == Now(down).taken
    modifies con`fdOut, con`bytesRx, o.fdOut`incoming, o.fdOut`readScript, o.fdIn`sent, o.fdIn`writeScript
    ensures Accounted(o, up, down') && con.bytesRx <= o.rx + |Now(down').taken|
    ensures rc >= 0 ==> Counted(con, o, up, down')
    ensures rc >= 0 && inCanWrite && con.fdIn != null ==> Now(down').given == Now(down').taken
    ensures con.fdOut == (if rc == 0 then null else o.fdOut)
    ensures |Now(down).taken| <= |Now(down').taken| && (rc >= 0 ==> Advanced(down, down', o.streamOut, rc == 0))
    ensures old(NoFaults(o)) ==> rc >= 0 && NoFaults(o)
  {
    if inCanWrite {
      rc, down' := Forward(con.fdOut, con.fdIn, down, o.streamOut, o.sentIn);
    } else {
      rc, down' := Forward(con.fdOut, null, down, o.streamOut, o.sentIn);
    }
    if rc == 0 {
      con.fdOut := null;
    } else if rc > 0 {
      con.bytesRx := con.bytesRx + rc;
    }
  }

  /**
    The part of a round after the poll result has been looked at: exactly the readable sides are
    read from, and only a fault can end it with an error.
   */
  method Serve(con: ClientConnection, ghost o: Origin, inEvents: Revents, outEvents: Revents, inCanWrite: bool, outCanWrite: bool,
               ghost up: History, ghost down: History)
    returns (ok: bool, continueLoop: bool, ghost up': History, ghost down': History)
    requires con.fdIn == o.fdIn && con.fdOut == o.fdOut && o.fdIn != o.fdOut
    requires Accounted(o, up, down) && Counted(con, o, up, down)
    requires outCanWrite ==> Now(up).given == Now(up).taken
    requires inCanWrite ==> Now(down).given == Now(down).taken
    modifies con`fdIn, con`fdOut, con`bytesTx, con`bytesRx, o.fdIn, o.fdOut
    ensures Accounted(o, up', down')
    ensures con.bytesTx <= o.tx + |Now(up').taken| && con.bytesRx <= o.rx + |Now(down').taken|
    ensures ok ==> Counted(con, o, up', down')
    ensures ok && outCanWrite ==> Now(up').given == Now(up').taken
    ensures ok && inCanWrite && con.fdIn != null ==> Now(down').given == Now(down').taken
    ensures (con.fdIn == o.fdIn || con.fdIn == null) && (con.fdOut == o.fdOut || con.fdOut == null)
    ensures ok ==> if inEvents.readable then Advanced(up, up', o.streamIn, con.fdIn == null) else up' == up && con.fdIn == o.fdIn
    ensures ok ==> if outEvents.readable then Advanced(down, down', o.streamOut, con.fdOut == null) else down' == down && con.fdOut == o.fdOut
    ensures |Now(up).taken| <= |Now(up').taken| && |Now(down).taken| <= |Now(down').taken|
    ensures ok ==> continueLoop == (con.fdIn != null && con.fdOut != null)
    ensures old(NoFaults(o)) ==> ok && NoFaults(o)
  {
    var rc;
    ok, continueLoop, up', down' := true, true, up, down;
    if inEvents.readable {
      rc, up' := FromClient(con, o, outCanWrite, up, down);
      if rc < 0 {
        return false, false, up', down';
      } else if rc == 0 {
        continueLoop := false;
      }
    }
    if outEvents.readable {
      rc, down' := FromServer(con, o, inCanWrite, up', down);
      if rc < 0 {
        return false, false, up', down';
      } else if rc == 0 {
        continueLoop := false;
      }
    }
  }

  /** In how many of the first n rounds the client was readable, and the server. */
  function ClientTurns(polls: seq<PollResult>, n: nat): nat
    requires n <= |polls|
  {
    if n == 0 then 0 else ClientTurns(polls, n - 1) + if polls[n - 1].Polled? && polls[n - 1].inEvents.readable then 1 else 0
  }

  function ServerTurns(polls: seq<PollResult>, n: nat): nat
    requires n <= |polls|
  {
    if n == 0 then 0 else ServerTurns(polls, n - 1) + if polls[n - 1].Polled? && polls[n - 1].outEvents.readable then 1 else 0
  }

  predicate ClientHungUp(polls: seq<PollResult>, n: nat)
    requires n <= |polls|
  {
    exists i :: 0 <= i < n && polls[i].Polled? && polls[i].inEvents.hangUp
  }

  predicate ServerHungUp(polls: seq<PollResult>, n: nat)
    requires n <= |polls|
  {
    exists i :: 0 <= i < n && polls[i].Polled? && polls[i].outEvents.hangUp
  }

  /** By the end of round n a side has hung up that has nothing more to be read in that round. */
  predicate Silent(polls: seq<PollResult>, n: nat)
    requires n <= |polls|
  {
    n > 0 && polls[n - 1].Polled? &&
    ((ClientHungUp(polls, n) && !polls[n - 1].inEvents.readable) || (ServerHungUp(polls, n) && !polls[n - 1].outEvents.readable))
  }

  /** A poll that fails, that never answers, or that shows an error on a socket. */
  predicate Breaks(polls: seq<PollResult>, n: nat)
    requires n <= |polls|
  {
    n == |polls| || polls[n].PollFailed? || polls[n].inEvents.error || polls[n].outEvents.error
  }

  /** After n rounds each direction has moved in each of its turns, or has come to the end of its stream. */
  ghost predicate Relayed(polls: seq<PollResult>, n: nat, streamIn: seq<byte>, streamOut: seq<byte>, up: History, down: History) {
    && n <= |polls|
    && (|Now(up).taken| >= ClientTurns(polls, n) || Now(up).taken == streamIn)
    && (|Now(down).taken| >= ServerTurns(polls, n) || Now(down).taken == streamOut)
  }

  /** Neither side has hung up silently in the rounds before the last. */
  predicate NeverSilent(polls: seq<PollResult>, n: nat)
    requires n <= |polls|
  {
    forall i :: 0 <= i < n ==> !Silent(polls, i)
  }

  /** A closed side has been read to its end. */
  ghost predicate Ends(con: ClientConnection, o: Origin, up: History, down: History)
    reads con
  {
    && (con.fdIn == o.fdIn || (con.fdIn == null && Now(up).taken == o.streamIn))
    && (con.fdOut == o.fdOut || (con.fdOut == null && Now(down).taken == o.streamOut))
  }

  /** A side that can be written to has been given all there was. */
  ghost predicate CanGive(con: ClientConnection, inCanWrite: bool, outCanWrite: bool, up: History, down: History)
    reads con
  {
    && (outCanWrite ==> Now(up).given == Now(up).taken)
    && (inCanWrite && con.fdIn != null ==> Now(down).given == Now(down).taken)
  }

  lemma HungUpGrows(polls: seq<PollResult>, n: nat)
    requires n < |polls| && polls[n].Polled?
    ensures var m := n + 1;
      && (ClientHungUp(polls, m) <==> ClientHungUp(polls, n) || polls[n].inEvents.hangUp)
      && (ServerHungUp(polls, m) <==> ServerHungUp(polls, n) || polls[n].outEvents.hangUp)
  {
  }

  /** One more round that served what was readable. */
  lemma RelayedOnce(polls: seq<PollResult>, n: nat, o: Origin, up: History, down: History, up': History, down': History,
                    inEnded: bool, outEnded: bool)
    requires n < |polls| && polls[n].Polled? && Relayed(polls, n, o.streamIn, o.streamOut, up, down)
    requires Now(up').taken <= o.streamIn && Now(down').taken <= o.streamOut
    requires if polls[n].inEvents.readable then Advanced(up, up', o.streamIn, inEnded) else up' == up
    requires if polls[n].outEvents.readable then Advanced(down, down', o.streamOut, outEnded) else down' == down
    ensures Relayed(polls, n + 1, o.streamIn, o.streamOut, up', down')
  {
  }

  /** What is taken only grows, so that the rounds so far still count when a round fails. */
  lemma StillRelayed(polls: seq<PollResult>, n: nat, o: Origin, up: History, down: History, up': History, down': History)
    requires Relayed(polls, n, o.streamIn, o.streamOut, up, down) && |Now(up).taken| <= |Now(up').taken| && |Now(down).taken| <= |Now(down').taken|
    requires Now(up').taken <= o.streamIn && Now(down').taken <= o.streamOut
    ensures Relayed(polls, n, o.streamIn, o.streamOut, up', down')
  {
  }

  /** The body of the loop, once poll has answered. */
  method Round(con: ClientConnection, ghost o: Origin, polls: seq<PollResult>, n: nat, inCanWrite0: bool, outCanWrite0: bool,
               ghost up: History, ghost down: History)
    returns (ok: bool, continueLoop: bool, inCanWrite: bool, outCanWrite: bool, ghost up': History, ghost down': History)
    requires n < |polls| && polls[n].Polled?
    requires con.fdIn == o.fdIn && con.fdOut == o.fdOut && o.fdIn != o.fdOut
    requires Accounted(o, up, down) && Counted(con, o, up, down)
    requires inCanWrite0 == !ClientHungUp(polls, n) && outCanWrite0 == !ServerHungUp(polls, n)
    requires CanGive(con, inCanWrite0, outCanWrite0, up, down) && Relayed(polls, n, o.streamIn, o.streamOut, up, down)
    modifies con`fdIn, con`fdOut, con`bytesTx, con`bytesRx, o.fdIn, o.fdOut
    ensures Accounted(o, up', down')
    ensures con.bytesTx <= o.tx + |Now(up').taken| && con.bytesRx <= o.rx + |Now(down').taken|
    ensures ok ==> Counted(con, o, up', down') && CanGive(con, inCanWrite, outCanWrite, up', down') && Ends(con, o, up', down')
    ensures ok ==> inCanWrite == !ClientHungUp(polls, n + 1) && outCanWrite == !ServerHungUp(polls, n + 1)
    ensures ok ==> continueLoop == (con.fdIn != null && con.fdOut != null && !Silent(polls, n + 1))
    ensures Relayed(polls, if ok then n + 1 else n, o.streamIn, o.streamOut, up', down')
    ensures old(NoFaults(o)) ==> NoFaults(o) && (!ok ==> Breaks(polls, n))
  {
    var inEvents, outEvents := polls[n].inEvents, polls[n].outEvents;
    HungUpGrows(polls, n);
    inCanWrite, outCanWrite := inCanWrite0, outCanWrite0;
    if inEvents.hangUp {
      inCanWrite := false;
    }
    if outEvents.hangUp {
      outCanWrite := false;
    }
    if inEvents.error || outEvents.error {
      return false, false, inCanWrite, outCanWrite, up, down;
    }
    ok, continueLoop, up', down' := Serve(con, o, inEvents, outEvents, inCanWrite, outCanWrite, up, down);
    if !ok {
      StillRelayed(polls, n, o, up, down, up', down');
      return;
    }
    RelayedOnce(polls, n, o, up, down, up', down', con.fdIn == null, con.fdOut == null);
    if !(inCanWrite || inEvents.readable) {
      continueLoop := false;
    }
    if !(outCanWrite || outEvents.readable) {
      continueLoop := false;
    }
  }

  /**
    Every run conserves both directions at every moment. On a clean exit the counters are
    exactly the bytes taken, one side has sent its last byte or a side hung up, and a
    direction delivers all it took unless its receiver hung up (or, towards the client,
    the client ended its transmission). Each round reads from every readable side; the
    loop ends cleanly at the first round in which a side ends or is silently gone,
    and without faults of the sockets only a broken poll ends it otherwise.
   */
  method ShuttleDataBackAndForth(con: ClientConnection, polls: seq<PollResult>)
    returns (ok: bool, ghost up: History, ghost down: History, ghost rounds: nat)
    requires con.fdIn != null && con.fdOut != null && con.fdIn != con.fdOut
    modifies con`fdIn, con`fdOut, con`bytesTx, con`bytesRx, con.fdIn, con.fdOut
    ensures Accounted(old(OriginOf(con)), up, down)
    ensures con.bytesTx <= old(con.bytesTx) + |Now(up).taken| && con.bytesRx <= old(con.bytesRx) + |Now(down).taken|
    ensures ok ==> Counted(con, old(OriginOf(con)), up, down)
    ensures ok && InNeverHangsUp(polls) && OutNeverHangsUp(polls) ==>
      Now(up).taken == old(con.fdIn.incoming) || Now(down).taken == old(con.fdOut.incoming)
    ensures ok && OutNeverHangsUp(polls) ==> Now(up).given == Now(up).taken
    ensures ok && InNeverHangsUp(polls) && con.fdIn != null ==> Now(down).given == Now(down).taken
    ensures Relayed(polls, rounds, old(con.fdIn.incoming), old(con.fdOut.incoming), up, down) && NeverSilent(polls, rounds)
    ensures ok ==> con.fdIn == null || con.fdOut == null || Silent(polls, rounds)
    ensures ok ==> (con.fdIn == null ==> Now(up).taken == old(con.fdIn.incoming)) && (con.fdOut == null ==> Now(down).taken == old(con.fdOut.incoming))
    ensures !ok && old(NoFaults(OriginOf(con))) ==> Breaks(polls, rounds)
  {
    ghost var o := OriginOf(con);
    var inCanWrite, outCanWrite, continueLoop := true, true, true;
    var next := 0;
    up, down, rounds := Start, Start, 0;
    while continueLoop
      invariant next == rounds && Relayed(polls, rounds, o.streamIn, o.streamOut, up, down) && NeverSilent(polls, rounds)
      invariant Accounted(o, up, down) && Counted(con, o, up, down)
      invariant continueLoop == (con.fdIn != null && con.fdOut != null && !Silent(polls, rounds)) && Ends(con, o, up, down)
      invariant CanGive(con, inCanWrite, outCanWrite, up, down)
      invariant inCanWrite == !ClientHungUp(polls, rounds) && outCanWrite == !ServerHungUp(polls, rounds)
      invariant old(NoFaults(OriginOf(con))) ==> NoFaults(o)
      decreases |polls| - next, continueLoop
    {
      if next == |polls| || polls[next].PollFailed? {
        return false, up, down, rounds;
      }
      var served;
      served, continueLoop, inCanWrite, outCanWrite, up, down :=
        Round(con, o, polls, next, inCanWrite, outCanWrite, up, down);
      if !served {
        return false, up, down, rounds;
      }
      next := next + 1;
      rounds := rounds + 1;
    }
    ok := true;
  }

  ghost function OriginOf(con: ClientConnection): Origin
    requires con.fdIn != null && con.fdOut != null
    reads con, con.fdIn, con.fdOut
  {
    Origin(con.fdIn, con.fdOut, con.fdIn.incoming, con.fdOut.incoming, con.fdIn.sent, con.fdOut.sent, con.bytesTx, con.bytesRx)
  }

  predicate InNeverHangsUp(polls: seq<PollResult>) {
    forall i :: 0 <= i < |polls| && polls[i].Polled? ==> !polls[i].inEvents.hangUp
  }

  predicate OutNeverHangsUp(polls: seq<PollResult>) {
    forall i :: 0 <= i < |polls| && polls[i].Polled? ==> !polls[i].outEvents.hangUp
  }
}
