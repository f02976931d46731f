/**
  The code of the log file as it is written: fields changed step by step. While rotation
  runs, other threads write to the log between any two of its steps. Each method is
  proved to be a run of the machine in LogFiles.
 */
module LogFileCode {
  import opened Kernel
  import opened LogFiles

  /** What open(2) will answer; an answer the kernel could not give counts as a failure. */
  datatype OpenAnswer = OpenRefused | Opened(fd: int, inode: nat)

  datatype WriteCall = WriteCall(data: seq<byte>, written: nat, answer: OpenAnswer)

  lemma {:induction false} RunConcat(s: State, a: seq<Event>, t: State, b: seq<Event>)
    requires Run(s, a) == Next(t)
    ensures Run(s, a + b) == Run(t, b)
  {
    if b == [] {
      assert a + b == a;
    } else {
      var k := |b| - 1;
      assert (a + b)[..|a + b| - 1] == a + b[..k];
      RunConcat(s, a, t, b[..k]);
    }
  }

  lemma RunOne(s: State, e: Event)
    ensures Run(s, [e]) == Step(s, e)
  {
    assert [e][..0] == [];
  }

  lemma RunStep(s: State, a: seq<Event>, t: State, e: Event)
    requires Run(s, a) == Next(t)
    ensures Run(s, a + [e]) == Step(t, e)
  {
    RunOne(t, e);
    RunConcat(s, a, t, [e]);
  }

  lemma {:induction false} RunInv(s: State, events: seq<Event>)
    requires Inv(s)
    ensures Run(s, events) != BadWrite && (s.byteCountMax > 0 ==> Run(s, events) != BadClose)
    ensures Run(s, events).Next? ==>
      Inv(Run(s, events).state) && Run(s, events).state.byteCountMax == s.byteCountMax && Run(s, events).state.count == s.count
  {
    if events != [] {
      RunInv(s, events[..|events| - 1]);
      match Run(s, events[..|events| - 1])
      case Next(t) => StepKeeps(t, events[|events| - 1]);
      case _ =>
    }
  }

  /** An answer that the kernel can give over these files. */
  predicate Opens(f: Files, answer: OpenAnswer) {
    answer.Opened? && answer.fd >= 0 && answer.fd !in f.open && answer.inode !in f.contents
  }

  /** A run that begins with the only decision to rotate in it. */
  predicate OneCheck(events: seq<Event>) {
    events != [] && events[0] == CheckSize && CheckSize !in events[1..]
  }

  lemma OneCheckGoesOn(events: seq<Event>, more: seq<Event>)
    requires OneCheck(events) && CheckSize !in more
    ensures OneCheck(events + more)
  {
    assert (events + more)[1..] == events[1..] + more;
  }

  /** The names after a rotation: those of the kept files have moved up by one, and no other name has changed. */
  ghost predicate Rotated(before: map<nat, nat>, now: map<nat, nat>, n: nat) {
    forall i: nat :: MovedUp(before, now, i, n)
  }

  predicate MovedUp(before: map<nat, nat>, now: map<nat, nat>, i: nat, n: nat) {
    && (i < n && i in before ==> i + 1 in now && now[i + 1] == before[i])
    && (0 < i < n && i in now ==> i - 1 in before)
    && (i > n || (i == n > 0 && i - 1 !in before) ==> SameAt(now, i, before, i))
  }

  /** So a whole rotation is a run that begins with the decision and ends with the descriptor closed. */
  lemma WholeRotation(s: State, events: seq<Event>)
    requires Inv(s) && OneCheck(events) && Run(s, events).Next? && Run(s, events).state.rotator == Idle
    requires s.byteCount >= s.byteCountMax > 0
    ensures Rotated(s.files.names, Run(s, events).state.files.names, s.count)
    ensures Handing(s.files.open.Keys, s.fd, Run(s, events).state)
  {
    RunInv(s, events);
    AfterTheDecision(s, events);
    var before, t := s.files.names, Run(s, events).state;
    forall i: nat ensures MovedUp(before, t.files.names, i, t.count) {
      MovedUpByPlaces(before, t, i);
    }
  }

  lemma AfterTheDecision(s: State, events: seq<Event>)
    requires Inv(s) && OneCheck(events) && Run(s, events).Next?
    requires s.byteCount >= s.byteCountMax > 0
    ensures Moving(s.files.names, Run(s, events).state) && Handing(s.files.open.Keys, s.fd, Run(s, events).state)
  {
    var rest := events[1..];
    assert events == [CheckSize] + rest;
    RunOne(s, CheckSize);
    if Step(s, CheckSize).Next? {
      var s1 := Step(s, CheckSize).state;
      RunConcat(s, [CheckSize], s1, rest);
      StepKeeps(s, CheckSize);
      RotationMoves(s1, rest);
      RotationHands(s1, rest);
    } else {
      RunBad(s, [CheckSize], rest);
    }
  }

  lemma MovedUpByPlaces(before: map<nat, nat>, t: State, i: nat)
    requires Moving(before, t) && !t.rotator.Renaming?
    ensures MovedUp(before, t.files.names, i, t.count)
  {
    var k := i + 1;
    assert Placed(before, t.files.names, k, -1, t.count);
    if i > 0 {
      assert Placed(before, t.files.names, i, -1, t.count);
    }
  }

  /** A run that has gone wrong stays so. */
  lemma {:induction false} RunBad(s: State, a: seq<Event>, b: seq<Event>)
    requires !Run(s, a).Next?
    ensures !Run(s, a + b).Next?
  {
    if b == [] {
      assert a + b == a;
    } else {
      assert (a + b)[..|a + b| - 1] == a + b[..|b| - 1];
      RunBad(s, a, b[..|b| - 1]);
    }
  }

  class LogFile {
    var fd: int
    var byteCount: int
    const byteCountMax: int
    const fileRotateCount: nat
    var files: Files
    ghost var history: seq<byte>
    var others: seq<seq<WriteCall>>   // what other threads will write, batch by batch

    constructor (byteCountMax: int, fileRotateCount: nat, files: Files, others: seq<seq<WriteCall>>)
      requires WellFormed(files)
      ensures Initial(Now(NoWriter, Idle)) && this.files == files && this.byteCountMax == byteCountMax
    {
      this.byteCountMax, this.fileRotateCount, this.files, this.others := byteCountMax, fileRotateCount, files, others;
      fd, byteCount, history := -1, 0, Visible(files, fileRotateCount);
    }

    ghost function Now(writer: Writer, rotator: Rotator): State
      reads this
    {
      State(fd, byteCount, byteCountMax, fileRotateCount, files, history, writer, rotator)
    }

    /** log_file_open, called under the lock; true when the machine's OpenLog step was made. */
    method LogFileOpen(answer: OpenAnswer, ghost rotator: Rotator) returns (ghost didOpen: bool)
      requires fd < 0
      modifies this`fd, this`byteCount, this`files
      ensures didOpen <==> Opens(old(files), answer)
      ensures didOpen ==> fd == answer.fd && byteCount == 0
      ensures didOpen ==>
        Step(old(Now(Opening, rotator)), OpenLog(answer.fd, answer.inode)) == Next(Now(Ready(fd), rotator))
      ensures !didOpen ==> old(Now(Opening, rotator)) == Now(Opening, rotator)
    {
      didOpen := false;
      if Opens(files, answer) {
        fd := answer.fd;
        files := OpenName(files, answer.fd, answer.inode);
        byteCount := 0;
        didOpen := true;
      }
    }

    /** log_file_write, whole: the lock is held from the first step to the last. */
    method LogFileWrite(call: WriteCall, ghost rotator: Rotator) returns (ghost events: seq<Event>)
      requires Inv(Now(NoWriter, rotator)) && call.written <= |call.data|
      modifies this`fd, this`byteCount, this`files, this`history
      ensures Run(old(Now(NoWriter, rotator)), events) == Next(Now(NoWriter, rotator)) && CheckSize !in events
      ensures old(fd) < 0 && !Opens(old(files), call.answer) ==> old(Now(NoWriter, rotator)) == Now(NoWriter, rotator)
      ensures old(fd) >= 0 || Opens(old(files), call.answer) ==>
        && fd == (if old(fd) >= 0 then old(fd) else call.answer.fd)
        && history == old(history) + call.data[..call.written]
        && byteCount == (if old(fd) >= 0 then old(byteCount) else 0) + |call.data|
    {
      ghost var start := Now(NoWriter, rotator);
      RunOne(start, Enter);
      events := [Enter];
      var localFd := fd;
      if localFd < 0 {
        ghost var before := Now(Opening, rotator);
        ghost var didOpen := LogFileOpen(call.answer, rotator);
        localFd := fd;
        if didOpen {
          RunStep(start, events, before, OpenLog(call.answer.fd, call.answer.inode));
          events := events + [OpenLog(call.answer.fd, call.answer.inode)];
        } else {
          RunStep(start, events, before, OpenFails);
          events := events + [OpenFails];
        }
      }
      if localFd < 0 {
        return;
      }
      events := WriteAndCount(call, rotator, start, events);
    }

    /** write(2) through the descriptor that was just looked up, and the count of what was submitted. */
    method WriteAndCount(call: WriteCall, ghost rotator: Rotator, ghost start: State, ghost events: seq<Event>)
      returns (ghost events': seq<Event>)
      requires Inv(start) && Run(start, events) == Next(Now(Ready(fd), rotator)) && call.written <= |call.data|
      requires CheckSize !in events
      modifies this`byteCount, this`files, this`history
      ensures Run(start, events') == Next(Now(NoWriter, rotator)) && CheckSize !in events'
      ensures history == old(history) + call.data[..call.written] && byteCount == old(byteCount) + |call.data|
    {
      RunInv(start, events);
      ghost var ready := Now(Ready(fd), rotator);
      files := Append(files, files.open[fd], call.data[..call.written]);
      history := history + call.data[..call.written];
      RunStep(start, events, ready, Write(call.data, call.written));
      events' := events + [Write(call.data, call.written)];
      ghost var written := Now(Written(|call.data|), rotator);
      byteCount := byteCount + |call.data|;
      RunStep(start, events', written, Leave);
      events' := events' + [Leave];
    }

    /** Other threads run: some number of complete writes. */
    method OtherThreads(ghost rotator: Rotator) returns (ghost events: seq<Event>)
      requires Inv(Now(NoWriter, rotator))
      modifies this
      ensures Run(old(Now(NoWriter, rotator)), events) == Next(Now(NoWriter, rotator)) && Inv(Now(NoWriter, rotator))
      ensures CheckSize !in events
    {
      events := [];
      ghost var start := Now(NoWriter, rotator);
      if others != [] {
        var batch := others[0];
        others := others[1..];
        for i := 0 to |batch|
          invariant Run(start, events) == Next(Now(NoWriter, rotator)) && Inv(Now(NoWriter, rotator)) && CheckSize !in events
        {
          if batch[i].written <= |batch[i].data| {
            ghost var mid := Now(NoWriter, rotator);
            ghost var more := LogFileWrite(batch[i], rotator);
            RunConcat(start, events, mid, more);
            RunInv(mid, more);
            events := events + more;
          }
        }
      }
    }

    /**
      log_file_rotate with other threads writing between its steps. It is a run of the
      machine; ok is false when close(2) fails, which ends the program. Of a log that has
      grown to a positive maximum every kept file has moved up by one name, its descriptor is
      closed, and no other is left open but the one of a new log.
     */
    method LogFileRotate() returns (ok: bool, ghost events: seq<Event>)
      requires Inv(Now(NoWriter, Idle))
      modifies this
      ensures Run(old(Now(NoWriter, Idle)), events) == if ok then Next(Now(NoWriter, Idle)) else BadClose
      ensures byteCountMax > 0 ==> ok
      ensures if old(byteCount) < byteCountMax then events == [CheckSize] else Swap in events && Close in events
      ensures ok && old(byteCount) >= byteCountMax > 0 ==> Rotated(old(files.names), files.names, fileRotateCount)
      ensures ok && old(byteCount) >= byteCountMax > 0 ==>
        files.open.Keys == old(files.open.Keys) - {old(fd)} + (if fd >= 0 then {fd} else {})
      ensures ok && old(byteCount) < byteCountMax ==> files == old(files)
      ensures ok ==> IsSuffix(Visible(files, fileRotateCount), history)
      ensures ok ==> forall hidden :: old(Accounted(Now(NoWriter, Idle), hidden)) ==>
        Accounted(Now(NoWriter, Idle), hidden + Lost(old(Now(NoWriter, Idle)), events))
    {
      ghost var start := Now(NoWriter, Idle);
      ok := true;
      RunOne(start, CheckSize);
      events := [CheckSize];
      var size := byteCount;
      if size < byteCountMax {
        forall hidden | Accounted(start, hidden) ensures Accounted(start, hidden + Lost(start, events)) {
          RunAccounts(start, events, hidden);
        }
        return;
      }
      var i := fileRotateCount - 1;
      while i >= 0
        invariant -1 <= i < fileRotateCount
        invariant Run(start, events) == Next(Now(NoWriter, Renaming(i))) && OneCheck(events)
      {
        events := MoveUp(start, events, i);
        i := i - 1;
      }
      ok, events := SwapAndClose(start, events);
      RunInv(start, events);
      if ok && byteCountMax > 0 {
        WholeRotation(start, events);
      }
      forall hidden | ok && Accounted(start, hidden) ensures Accounted(Now(NoWriter, Idle), hidden + Lost(start, events)) {
        RunAccounts(start, events, hidden);
      }
    }

    /** One turn of the rename loop. */
    method MoveUp(ghost start: State, ghost events: seq<Event>, i: nat) returns (ghost events': seq<Event>)
      requires Inv(start) && Run(start, events) == Next(Now(NoWriter, Renaming(i))) && OneCheck(events)
      modifies this
      ensures Run(start, events') == Next(Now(NoWriter, Renaming(i - 1))) && OneCheck(events')
    {
      events' := Interleave(start, events, Renaming(i));
      ghost var before := Now(NoWriter, Renaming(i));
      files := RenameUp(files, i);
      RunStep(start, events', before, Rename);
      OneCheckGoesOn(events', [Rename]);
      events' := events' + [Rename];
    }

    /** The end of rotation: the descriptor is taken away under the lock, and closed afterwards. */
    method SwapAndClose(ghost start: State, ghost events: seq<Event>) returns (ok: bool, ghost events': seq<Event>)
      requires Inv(start) && Run(start, events) == Next(Now(NoWriter, Renaming(-1))) && OneCheck(events)
      modifies this
      ensures Run(start, events') == if ok then Next(Now(NoWriter, Idle)) else BadClose
      ensures Swap in events' && Close in events' && OneCheck(events')
    {
      var oldFd;
      oldFd, events' := TakeDescriptor(start, events);
      ghost var k := |events'| - 1;
      events' := Interleave(start, events', Closing(oldFd));
      ghost var before := Now(NoWriter, Closing(oldFd));
      RunStep(start, events', before, Close);
      OneCheckGoesOn(events', [Close]);
      events' := events' + [Close];
      assert events'[k] == Swap && events'[|events'| - 1] == Close;
      ok := oldFd in files.open;
      if ok {
        files := files.(open := files.open - {oldFd});
      }
    }

    /** What is done under the lock: from here on writers open a new file. */
    method TakeDescriptor(ghost start: State, ghost events: seq<Event>) returns (oldFd: int, ghost events': seq<Event>)
      requires Inv(start) && Run(start, events) == Next(Now(NoWriter, Renaming(-1))) && OneCheck(events)
      modifies this
      ensures Run(start, events') == Next(Now(NoWriter, Closing(oldFd)))
      ensures events' != [] && events'[|events'| - 1] == Swap && OneCheck(events')
    {
      events' := Interleave(start, events, Renaming(-1));
      ghost var before := Now(NoWriter, Renaming(-1));
      oldFd := fd;
      fd := -1;
      byteCount := 0;
      RunStep(start, events', before, Swap);
      OneCheckGoesOn(events', [Swap]);
      events' := events' + [Swap];
    }

    /** Other threads, as a continuation of a run. */
    method Interleave(ghost start: State, ghost events: seq<Event>, ghost rotator: Rotator) returns (ghost events': seq<Event>)
      requires Inv(start) && Run(start, events) == Next(Now(NoWriter, rotator)) && OneCheck(events)
      modifies this
      ensures Run(start, events') == Next(Now(NoWriter, rotator)) && Inv(Now(NoWriter, rotator)) && events <= events'
      ensures OneCheck(events')
    {
      RunInv(start, events);
      ghost var mid := Now(NoWriter, rotator);
      ghost var more := OtherThreads(rotator);
      RunConcat(start, events, mid, more);
      OneCheckGoesOn(events, more);
      events' := events + more;
    }
  }
}
