/**
  Log rotation under concurrent writers, one system call at a time. Name 0 is the log
  itself and name i its i-th rotation; a name leads to an inode, and an open descriptor
  keeps leading to its inode when the name is moved.
 */
module LogFiles {
  import opened Sequences
  import opened Kernel

  datatype Files = Files(names: map<nat, nat>, contents: map<nat, seq<byte>>, open: map<int, nat>)

  /** A writer inside the lock: about to open, holding a usable descriptor, or done writing. */
  datatype Writer = NoWriter | Opening | Ready(fd: int) | Written(buflen: nat)

  datatype Rotator = Idle | Renaming(i: int) | Closing(fd: int)

  datatype State = State(
    fd: int,
    byteCount: int,
    byteCountMax: int,
    count: nat,                // how many rotations are kept
    files: Files,
    history: seq<byte>,        // all bytes ever written
    writer: Writer,            // the holder of the lock
    rotator: Rotator)

  datatype Event =
    | Enter                                       // a writer takes the lock and reads fd
    | OpenLog(fd: int, inode: nat)                // open succeeds; the inode is used if the file is new
    | OpenFails                                   // the writer gives up and unlocks
    | Write(data: seq<byte>, written: nat)        // possibly short
    | Leave                                       // the count is updated and the lock released
    | CheckSize | Rename | Swap | Close           // the steps of the rotating main thread

  datatype Outcome = Disabled | BadWrite | BadClose | Next(state: State)

  function OpenName(f: Files, fd: int, inode: nat): Files {
    if 0 in f.names then f.(open := f.open[fd := f.names[0]])
    else Files(f.names[0 := inode], f.contents[inode := []], f.open[fd := inode])
  }

  function Append(f: Files, inode: nat, data: seq<byte>): Files
    requires inode in f.contents
  {
    f.(contents := f.contents[inode := f.contents[inode] + data])
  }

  /** rename(2) of name i to i + 1; a name that does not exist leaves everything as it is. */
  function RenameUp(f: Files, i: nat): Files {
    if i in f.names then f.(names := (f.names - {i})[i + 1 := f.names[i]]) else f
  }

  function Step(s: State, e: Event): Outcome {
    match e
    case Enter =>
      if s.writer == NoWriter then Next(s.(writer := if s.fd < 0 then Opening else Ready(s.fd))) else Disabled
    case OpenLog(fd, inode) =>
      if s.writer == Opening && 0 <= fd && fd !in s.files.open && inode !in s.files.contents then
        Next(s.(fd := fd, byteCount := 0, files := OpenName(s.files, fd, inode), writer := Ready(fd)))
      else Disabled
    case OpenFails =>
      if s.writer == Opening then Next(s.(writer := NoWriter)) else Disabled
    case Write(data, written) =>
      if s.writer.Ready? && written <= |data| then
        if s.writer.fd in s.files.open && s.files.open[s.writer.fd] in s.files.contents then
          Next(s.(files := Append(s.files, s.files.open[s.writer.fd], data[..written]),
                  history := s.history + data[..written], writer := Written(|data|)))
        else BadWrite
      else Disabled
    case Leave =>
      if s.writer.Written? then Next(s.(byteCount := s.byteCount + s.writer.buflen, writer := NoWriter)) else Disabled
    case CheckSize =>
      if s.rotator == Idle && s.writer == NoWriter then
        Next(if s.byteCount < s.byteCountMax then s else s.(rotator := Renaming(s.count - 1)))
      else Disabled
    case Rename =>
      if s.rotator.Renaming? && 0 <= s.rotator.i then
        Next(s.(files := RenameUp(s.files, s.rotator.i), rotator := Renaming(s.rotator.i - 1)))
      else Disabled
    case Swap =>
      if s.rotator.Renaming? && s.rotator.i < 0 && s.writer == NoWriter then
        Next(s.(rotator := Closing(s.fd), fd := -1, byteCount := 0))
      else Disabled
    case Close =>
      if s.rotator.Closing? then
        if s.rotator.fd in s.files.open then
          Next(s.(files := s.files.(open := s.files.open - {s.rotator.fd}), rotator := Idle))
        else BadClose
      else Disabled
  }

  function Run(s: State, events: seq<Event>): Outcome {
    if events == [] then Next(s)
    else
      match Run(s, events[..|events| - 1])
      case Next(t) => Step(t, events[|events| - 1])
      case other => other
  }

  //// The history as the files show it

  function Content(f: Files, name: nat): seq<byte> {
    if name in f.names && f.names[name] in f.contents then f.contents[f.names[name]] else []
  }

  /** log.n, ..., log.1, log, one after the other; absent files are skipped. */
  function Visible(f: Files, n: nat): seq<byte> {
    if n == 0 then Content(f, 0) else Content(f, n) + Visible(f, n - 1)
  }

  predicate IsSuffix(part: seq<byte>, whole: seq<byte>) {
    |part| <= |whole| && whole[|whole| - |part|..] == part
  }

  ghost predicate WellFormed(f: Files) {
    && (forall i :: i in f.names ==> f.names[i] in f.contents)
    && (forall i, j :: i in f.names && j in f.names && i != j ==> f.names[i] != f.names[j])
    && (forall d :: d in f.open ==> f.open[d] in f.contents)
  }

  /** The inode is the newest file there is: the log, or its first rotation while the log is missing. */
  predicate IsNewest(f: Files, inode: nat, n: nat) {
    if 0 in f.names then f.names[0] == inode else n >= 1 && 1 in f.names && f.names[1] == inode
  }

  ghost predicate Inv(s: State) {
    && WellFormed(s.files)
    && IsSuffix(Visible(s.files, s.count), s.history)
    && (s.fd >= 0 ==> s.fd in s.files.open && IsNewest(s.files, s.files.open[s.fd], s.count))
    && (s.fd >= 0 ==> 0 in s.files.names || s.rotator == Renaming(-1))
    && s.byteCount >= 0 && (s.byteCount > 0 ==> s.fd >= 0)
    && (s.writer == Opening ==> s.fd < 0)
    && (s.writer.Ready? ==> s.writer.fd == s.fd >= 0)
    && (s.writer.Written? ==> s.fd >= 0)
    && (s.rotator.Renaming? ==> -1 <= s.rotator.i < s.count)
    && (s.rotator.Renaming? && 0 <= s.rotator.i && s.rotator.i + 1 < s.count ==> s.rotator.i + 1 !in s.files.names)
    && (s.rotator.Closing? && s.rotator.fd >= 0 ==> s.rotator.fd in s.files.open && s.rotator.fd != s.fd)
    && (s.byteCountMax > 0 && s.rotator.Renaming? ==> s.fd >= 0)
    && (s.byteCountMax > 0 && s.rotator.Closing? ==> s.rotator.fd >= 0)
    && (s.byteCountMax > 0 && s.count > 0 && s.rotator == Renaming(-1) ==> 0 !in s.files.names)
  }

  lemma {:induction false} AppendShows(f: Files, inode: nat, data: seq<byte>, n: nat)
    requires WellFormed(f) && inode in f.contents && IsNewest(f, inode, n)
    ensures Visible(Append(f, inode, data), n) == Visible(f, n) + data
  {
    if n > 0 {
      if n == 1 && 0 !in f.names {
      } else {
        AppendShows(f, inode, data, n - 1);
        assert Content(f, n) + (Visible(f, n - 1) + data) == Visible(f, n) + data;
      }
    }
  }

  lemma {:induction false} SameVisible(f: Files, g: Files, n: nat)
    requires forall i :: 0 <= i <= n ==> Content(f, i) == Content(g, i)
    ensures Visible(f, n) == Visible(g, n)
  {
    if n > 0 {
      SameVisible(f, g, n - 1);
    }
  }

  /** What moving name i up takes from view: the oldest contents, when name n - 1 replaces them. */
  function Dropped(f: Files, i: nat, n: nat): seq<byte> {
    if i + 1 == n && i in f.names then Content(f, n) else []
  }

  /** Moving a name up into a free one hides nothing; moving the last but one hides exactly what the last one held. */
  lemma {:induction false} RenameShows(f: Files, i: nat, n: nat)
    requires WellFormed(f) && i < n
    requires i + 1 < n ==> i + 1 !in f.names
    ensures Visible(f, n) == Dropped(f, i, n) + Visible(RenameUp(f, i), n)
  {
    var g := RenameUp(f, i);
    if i in f.names {
      if i + 1 < n {
        assert Content(g, n) == Content(f, n);
        RenameShows(f, i, n - 1);
        if i + 1 == n - 1 {
          assert Content(f, n - 1) == [];
        }
      } else {
        LastRenameShows(f, i, n);
      }
    } else {
      assert g == f && [] + Visible(f, n) == Visible(f, n);
    }
  }

  /** The last name takes over what the one before it held, and nothing below changes. */
  lemma LastRenameShows(f: Files, i: nat, n: nat)
    requires WellFormed(f) && i in f.names && i + 1 == n
    ensures Visible(f, n) == Content(f, n) + Visible(RenameUp(f, i), n)
  {
    var g := RenameUp(f, i);
    RenamedContents(f, i);
    if i > 0 {
      SameVisible(f, g, i - 1);
    }
    assert Visible(g, i) == if i > 0 then Visible(f, i - 1) else [];
    assert Visible(g, n) == Visible(f, i);
  }

  lemma RenamedContents(f: Files, i: nat)
    requires WellFormed(f) && i in f.names
    ensures Content(RenameUp(f, i), i) == [] && Content(RenameUp(f, i), i + 1) == Content(f, i)
    ensures forall j :: 0 <= j && j != i && j != i + 1 ==> Content(RenameUp(f, i), j) == Content(f, j)
  {
  }

  lemma SuffixBehind(a: seq<byte>, b: seq<byte>)
    ensures IsSuffix(b, a + b)
  {
    assert (a + b)[|a|..] == b;
  }

  lemma RenameShowsSuffix(f: Files, i: nat, n: nat)
    requires WellFormed(f) && i < n
    requires i + 1 < n ==> i + 1 !in f.names
    ensures IsSuffix(Visible(RenameUp(f, i), n), Visible(f, n))
  {
    RenameShows(f, i, n);
    SuffixBehind(Dropped(f, i, n), Visible(RenameUp(f, i), n));
  }

  lemma SuffixOfSuffix(a: seq<byte>, b: seq<byte>, c: seq<byte>)
    requires IsSuffix(a, b) && IsSuffix(b, c)
    ensures IsSuffix(a, c)
  {
    assert c[|c| - |a|..] == c[|c| - |b|..][|b| - |a|..];
  }

  lemma SuffixAppend(a: seq<byte>, b: seq<byte>, data: seq<byte>)
    requires IsSuffix(a, b)
    ensures IsSuffix(a + data, b + data)
  {
    assert (b + data)[|b| - |a|..] == b[|b| - |a|..] + data;
  }

  lemma OpenKeeps(s: State, e: Event)
    requires Inv(s) && e.OpenLog? && Step(s, e).Next?
    ensures Inv(Step(s, e).state)
  {
    var g := OpenName(s.files, e.fd, e.inode);
    SameVisible(s.files, g, s.count);
  }

  lemma WriteKeeps(s: State, e: Event)
    requires Inv(s) && e.Write?
    ensures Step(s, e) != BadWrite && (Step(s, e).Next? ==> Inv(Step(s, e).state))
  {
    if Step(s, e).Next? {
      var data, inode := e.data[..e.written], s.files.open[s.fd];
      AppendShows(s.files, inode, data, s.count);
      SuffixAppend(Visible(s.files, s.count), s.history, data);
    }
  }

  lemma RenameKeepsShape(f: Files, i: nat, n: nat)
    requires WellFormed(f) && i < n && (i + 1 < n ==> i + 1 !in f.names)
    ensures WellFormed(RenameUp(f, i)) && i !in RenameUp(f, i).names
    ensures 0 in f.names ==> IsNewest(RenameUp(f, i), f.names[0], n)
    ensures 0 in f.names && i > 0 ==> 0 in RenameUp(f, i).names
  {
  }

  /** Any change of names with these effects keeps the invariant of a rename step. */
  lemma RenamedInv(s: State, g: Files, i: nat)
    requires Inv(s) && s.rotator == Renaming(i)
    requires WellFormed(g) && g.open == s.files.open && i !in g.names
    requires IsSuffix(Visible(g, s.count), s.history)
    requires 0 in s.files.names ==> IsNewest(g, s.files.names[0], s.count) && (i > 0 ==> 0 in g.names)
    ensures Inv(s.(files := g, rotator := Renaming(i - 1)))
  {
  }

  lemma RenameKeeps(s: State, i: nat)
    requires Inv(s) && s.rotator == Renaming(i)
    ensures Inv(s.(files := RenameUp(s.files, i), rotator := Renaming(i - 1)))
  {
    var g := RenameUp(s.files, i);
    RenameShowsSuffix(s.files, i, s.count);
    RenameKeepsShape(s.files, i, s.count);
    SuffixOfSuffix(Visible(g, s.count), Visible(s.files, s.count), s.history);
    RenamedInv(s, g, i);
  }

  lemma OtherStepsKeep(s: State, e: Event)
    requires Inv(s) && !e.OpenLog? && !e.Write? && !e.Rename? && Step(s, e).Next?
    ensures Inv(Step(s, e).state)
  {
    if e.Close? {
      SameVisible(s.files, Step(s, e).state.files, s.count);
    }
  }

  lemma LimitsStay(s: State, e: Event)
    requires Step(s, e).Next?
    ensures Step(s, e).state.byteCountMax == s.byteCountMax && Step(s, e).state.count == s.count
  {
  }

  lemma NoBadStep(s: State, e: Event)
    requires Inv(s)
    ensures Step(s, e) != BadWrite
    ensures s.byteCountMax > 0 ==> Step(s, e) != BadClose
  {
    if e.Write? {
      WriteKeeps(s, e);
    }
  }

  lemma NextKeeps(s: State, e: Event)
    requires Inv(s) && Step(s, e).Next?
    ensures Inv(Step(s, e).state)
  {
    match e
    case OpenLog(_, _) => OpenKeeps(s, e);
    case Write(_, _) => WriteKeeps(s, e);
    case Rename => RenameKeeps(s, s.rotator.i);
    case _ => OtherStepsKeep(s, e);
  }

  lemma StepKeeps(s: State, e: Event)
    requires Inv(s)
    ensures Step(s, e) != BadWrite
    ensures s.byteCountMax > 0 ==> Step(s, e) != BadClose
    ensures Step(s, e).Next? ==>
      Inv(Step(s, e).state) && Step(s, e).state.byteCountMax == s.byteCountMax && Step(s, e).state.count == s.count
  {
    NoBadStep(s, e);
    if Step(s, e).Next? {
      LimitsStay(s, e);
      NextKeeps(s, e);
    }
  }

  /** What a step takes from view. */
  function DroppedBy(s: State, e: Event): seq<byte> {
    if e.Rename? && s.rotator.Renaming? && 0 <= s.rotator.i then Dropped(s.files, s.rotator.i, s.count) else []
  }

  /** What a run has taken from view: the contents of the last name, at the first rename of each rotation. */
  function Lost(s: State, events: seq<Event>): seq<byte> {
    if events == [] then []
    else
      var before := events[..|events| - 1];
      match Run(s, before)
      case Next(t) => Lost(s, before) + DroppedBy(t, events[|events| - 1])
      case _ => []
  }

  /** The history is what is hidden followed by what the files show. */
  predicate Accounted(s: State, hidden: seq<byte>) {
    s.history == hidden + Visible(s.files, s.count)
  }

  lemma StepAccounts(s: State, e: Event, hidden: seq<byte>)
    requires Inv(s) && Accounted(s, hidden) && Step(s, e).Next?
    ensures Accounted(Step(s, e).state, hidden + DroppedBy(s, e))
  {
    var t := Step(s, e).state;
    match e
    case OpenLog(_, _) =>
      SameVisible(s.files, t.files, s.count);
      assert hidden + [] == hidden;
    case Write(data, written) =>
      AppendShows(s.files, s.files.open[s.fd], data[..written], s.count);
      Associative(hidden, Visible(s.files, s.count), data[..written]);
      assert hidden + [] == hidden;
    case Rename =>
      RenameShows(s.files, s.rotator.i, s.count);
      Associative(hidden, DroppedBy(s, e), Visible(t.files, s.count));
    case Close =>
      SameVisible(s.files, t.files, s.count);
      assert hidden + [] == hidden;
    case _ =>
      assert hidden + [] == hidden;
  }

  /** So a run loses exactly what its rotations replace, from whatever state it starts. */
  lemma {:induction false} RunAccounts(s: State, events: seq<Event>, hidden: seq<byte>)
    requires Inv(s) && Accounted(s, hidden)
    ensures Run(s, events).Next? ==> Inv(Run(s, events).state) && Accounted(Run(s, events).state, hidden + Lost(s, events))
  {
    if events == [] {
      assert hidden + [] == hidden;
    } else {
      var before, e := events[..|events| - 1], events[|events| - 1];
      RunAccounts(s, before, hidden);
      match Run(s, before)
      case Next(t) =>
        StepKeeps(t, e);
        if Step(t, e).Next? {
          StepAccounts(t, e, hidden + Lost(s, before));
          Associative(hidden, Lost(s, before), DroppedBy(t, e));
        }
      case _ =>
    }
  }

  /** A log that is not open yet, over whatever files are there; the history starts as they show it. */
  ghost predicate Initial(s: State) {
    && s.fd == -1 && s.byteCount == 0 && s.writer == NoWriter && s.rotator == Idle
    && WellFormed(s.files) && s.history == Visible(s.files, s.count)
  }

  /**
    Log history, at every state of every run: all bytes ever written are what rotations have
    replaced, followed by what the files show, oldest rotation first. No write uses a
    closed descriptor, a positive byte count means that one is open, and with a positive
    maximum rotation always closes a valid one.
   */
  lemma {:induction false} HistoryIsPreserved(s: State, events: seq<Event>)
    requires Initial(s)
    ensures Run(s, events) != BadWrite
    ensures s.byteCountMax > 0 ==> Run(s, events) != BadClose
    ensures Run(s, events).Next? ==>
      var t := Run(s, events).state;
      && Inv(t) && t.byteCountMax == s.byteCountMax && t.count == s.count
      && t.history == Lost(s, events) + Visible(t.files, s.count)
      && (t.byteCount > 0 ==> t.fd in t.files.open)
  {
    if events != [] {
      HistoryIsPreserved(s, events[..|events| - 1]);
      match Run(s, events[..|events| - 1])
      case Next(t) => StepKeeps(t, events[|events| - 1]);
      case _ =>
    }
    var none: seq<byte> := [];
    assert none + Visible(s.files, s.count) == Visible(s.files, s.count);
    RunAccounts(s, events, none);
    assert none + Lost(s, events) == Lost(s, events);
  }

  //// What a rotation does to the names

  /** Name i means in the one map what name k means in the other. */
  predicate SameAt(a: map<nat, nat>, i: nat, b: map<nat, nat>, k: nat) {
    (i in a <==> k in b) && (i in a ==> a[i] == b[k])
  }

  /**
    What name i means when of n rotations those above j have been made: it is what the name
    below it was, the last name staying when nothing moves there, the one just left free.
   */
  predicate Placed(before: map<nat, nat>, now: map<nat, nat>, i: nat, j: int, n: nat) {
    if i <= j || i > n then SameAt(now, i, before, i)
    else if i > j + 1 && i - 1 in before then SameAt(now, i, before, i - 1)
    else if i == n then SameAt(now, i, before, i)
    else i !in now
  }

  /** All names are where the rotation should have them; once it is past the renames, the log itself may be a new file. */
  ghost predicate Moving(before: map<nat, nat>, s: State) {
    if s.rotator.Renaming? then forall i: nat :: Placed(before, s.files.names, i, s.rotator.i, s.count)
    else forall i: nat :: i > 0 ==> Placed(before, s.files.names, i, -1, s.count)
  }

  lemma RenameMoves(before: map<nat, nat>, s: State)
    requires s.rotator.Renaming? && 0 <= s.rotator.i < s.count && Moving(before, s)
    ensures Moving(before, s.(files := RenameUp(s.files, s.rotator.i), rotator := Renaming(s.rotator.i - 1)))
  {
    var j, k, names := s.rotator.i, s.rotator.i - 1, RenameUp(s.files, s.rotator.i).names;
    forall i: nat ensures Placed(before, names, i, k, s.count) {
      assert Placed(before, s.files.names, i, j, s.count) && Placed(before, s.files.names, j, j, s.count);
    }
  }

  lemma StepMoves(before: map<nat, nat>, s: State, e: Event)
    requires Inv(s) && s.byteCountMax > 0 && Moving(before, s) && !e.CheckSize? && Step(s, e).Next?
    ensures Moving(before, Step(s, e).state)
  {
    if e.Rename? {
      RenameMoves(before, s);
    } else {
      var t := Step(s, e).state;
      assert forall i: nat :: i > 0 || s.rotator.Renaming? ==> SameAt(t.files.names, i, s.files.names, i);
      var j, k := if t.rotator.Renaming? then t.rotator.i else -1, s.count;
      forall i: nat | i > 0 || t.rotator.Renaming? ensures Placed(before, t.files.names, i, j, k) {
        assert Placed(before, s.files.names, i, if s.rotator.Renaming? then s.rotator.i else -1, s.count);
      }
    }
  }

  /**
    With a positive maximum, in every run that begins with the decision to rotate, however
    writers come in between: the names move up, one after the other.
   */
  lemma {:induction false} RotationMoves(s: State, events: seq<Event>)
    requires Inv(s) && s.byteCountMax > 0 && s.rotator == Renaming(s.count - 1) && CheckSize !in events
    requires Run(s, events).Next?
    ensures Inv(Run(s, events).state) && Run(s, events).state.byteCountMax > 0 && Moving(s.files.names, Run(s, events).state)
  {
    if events != [] {
      var before, e := events[..|events| - 1], events[|events| - 1];
      RotationMoves(s, before);
      StepKeeps(Run(s, before).state, e);
      StepMoves(s.files.names, Run(s, before).state, e);
    }
  }

  /** The descriptors: the log's own one is given up and closed, and besides it only a new one of the log is there. */
  ghost predicate Handing(open: set<int>, fd: int, s: State) {
    var own := if s.fd >= 0 then {s.fd} else {};
    match s.rotator
    case Renaming(_) => s.fd == fd && s.files.open.Keys == open
    case Closing(given) => given == fd && s.files.open.Keys == open + own
    case Idle => s.files.open.Keys == open - {fd} + own
  }

  lemma StepHands(open: set<int>, fd: int, s: State, e: Event)
    requires Inv(s) && s.byteCountMax > 0 && fd in open && Handing(open, fd, s) && !e.CheckSize? && Step(s, e).Next?
    ensures Handing(open, fd, Step(s, e).state)
  {
    var t := Step(s, e).state;
    match e
    case OpenLog(_, _) => assert t.files.open.Keys == s.files.open.Keys + {e.fd};
    case Close => assert t.files.open.Keys == s.files.open.Keys - {fd};
    case _ =>
  }

  /** So a rotation closes exactly the descriptor that the log had when it was decided, and leaks none. */
  lemma {:induction false} RotationHands(s: State, events: seq<Event>)
    requires Inv(s) && s.byteCountMax > 0 && s.rotator == Renaming(s.count - 1) && CheckSize !in events
    requires Run(s, events).Next?
    ensures s.fd in s.files.open && Handing(s.files.open.Keys, s.fd, Run(s, events).state)
  {
    if events != [] {
      var before, e := events[..|events| - 1], events[|events| - 1];
      RotationHands(s, before);
      RotationMoves(s, before);
      StepHands(s.files.open.Keys, s.fd, Run(s, before).state, e);
    }
  }

  /**
    In every run with a positive maximum, when rotation takes the descriptor away the log has
    been moved out of the way: its name is free, and what the descriptor leads to is log.1.
   */
  lemma SwapFindsTheLogMoved(s: State, events: seq<Event>)
    requires Initial(s) && s.byteCountMax > 0 && s.count > 0
    requires Run(s, events).Next? && Step(Run(s, events).state, Swap).Next?
    ensures var t := Run(s, events).state;
      && 0 !in t.files.names && t.fd in t.files.open && 1 in t.files.names
      && t.files.open[t.fd] == t.files.names[1]
  {
    HistoryIsPreserved(s, events);
  }

  lemma {:induction false} RenamesRun(s: State, events: seq<Event>, t: State) returns (events': seq<Event>, t': State)
    requires Run(s, events) == Next(t) && t.fd < 0 && t.writer == NoWriter && t.rotator.Renaming? && -1 <= t.rotator.i
    ensures Run(s, events') == Next(t') && t'.fd == t.fd && t'.writer == NoWriter && t'.rotator == Renaming(-1)
    decreases t.rotator.i
  {
    if t.rotator.i < 0 {
      return events, t;
    }
    var next := Step(t, Rename).state;
    assert (events + [Rename])[..|events|] == events;
    events', t' := RenamesRun(s, events + [Rename], next);
  }

  /**
    Rotation closes only valid descriptors in all runs exactly when the maximum is
    positive: otherwise an idle log is rotated, and the descriptor it does not have closed.
   */
  lemma RotationNeedsPositiveMaximum(s: State)
    requires Initial(s) && -1 !in s.files.open
    ensures s.byteCountMax > 0 <==> forall events :: Run(s, events) != BadClose
  {
    if s.byteCountMax > 0 {
      forall events ensures Run(s, events) != BadClose {
        HistoryIsPreserved(s, events);
      }
    } else {
      var events := IdleLogIsRotated(s);
    }
  }

  lemma RunExtends(s: State, events: seq<Event>, t: State, e: Event)
    requires Run(s, events) == Next(t)
    ensures Run(s, events + [e]) == Step(t, e)
  {
    assert (events + [e])[..|events|] == events;
  }

  /** The run in which a log without a descriptor is rotated. */
  lemma IdleLogIsRotated(s: State) returns (closed: seq<Event>)
    requires Initial(s) && -1 !in s.files.open && s.byteCountMax <= 0
    ensures Run(s, closed) == BadClose
  {
    var start: seq<Event> := [];
    var s1 := Step(s, CheckSize).state;
    RunExtends(s, start, s, CheckSize);
    var events, t := RenamesRun(s, start + [CheckSize], s1);
    OnlyRealDescriptors(s, events);
    var u := Step(t, Swap).state;
    RunExtends(s, events, t, Swap);
    RunExtends(s, events + [Swap], u, Close);
    OnlyRealDescriptors(s, events + [Swap]);
    closed := events + [Swap] + [Close];
    ClosesNothing(t);
  }

  lemma ClosesNothing(t: State)
    requires t.rotator == Renaming(-1) && t.writer == NoWriter && t.fd == -1 && -1 !in t.files.open
    ensures Step(t, Swap).Next? && Step(Step(t, Swap).state, Close) == BadClose
  {
  }

  /** Descriptors are never negative. */
  lemma {:induction false} OnlyRealDescriptors(s: State, events: seq<Event>)
    requires -1 !in s.files.open
    ensures Run(s, events).Next? ==> -1 !in Run(s, events).state.files.open
  {
    if events != [] {
      OnlyRealDescriptors(s, events[..|events| - 1]);
    }
  }
}
