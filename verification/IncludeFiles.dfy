/** Route files that include route files: a recursion guarded by a stack of file names. */
module IncludeFiles {
  import opened Sequences
  import opened Kernel
  import opened HostIds
  import opened ConfigLines
  import opened ConfigNormaliser

  const MAX_LINE_LENGTH: nat := 10240
  const ROUTE_RULE_FILENAME_STACK_SIZE: nat := 200

  type Name = seq<byte>

  /** What a normalised line asks for. */
  datatype Directive<+R> = Blank | Include(file: Name) | RouteRule(rule: R) | Malformed

  /** The file system, the meaning of a line after the first pass, and how deep includes may go. */
  datatype Setup<!R> = Setup(files: map<Name, seq<byte>>, expand: seq<byte> -> Directive<R>, depth: nat) {
    /** The meaning of a line as read: it ends at a NUL, and it must pass normalisation. */
    function Meaning(text: seq<byte>): Directive<R> {
      var s := Run(CString(text));
      if s.Accepted() then expand(s.output) else Malformed
    }
  }

  //// What parsing a file does to the list of rules

  datatype Outcome<+R> = Outcome(rc: int, rules: seq<R>)

  /** How far parsing comes in the lines of a file: through them all, or to a line that ends it. */
  datatype Reached<+R> = AllDone(rules: seq<R>) | EndedAt(rc: int, rules: seq<R>)

  function ParseFile<R>(setup: Setup<R>, stack: seq<Name>, name: Name, rules: seq<R>): (r: Outcome<R>)
    requires |stack| < setup.depth
    ensures 0 <= r.rc <= 1 && rules <= r.rules
    decreases setup.depth - |stack|, 0, 0
  {
    if name !in setup.files then Outcome(0, rules)
    else ParseLines(setup, stack + [name], setup.files[name], false, false, rules)
  }

  /** What a line does: a failed include ends its file, and makes it a success. */
  function DoLine<R>(setup: Setup<R>, stack: seq<Name>, line: seq<byte>, rules: seq<R>): (r: Reached<R>)
    requires |stack| <= setup.depth
    ensures rules <= r.rules && (r.EndedAt? ==> 0 <= r.rc <= 1)
    decreases setup.depth - |stack|, 0, 1
  {
    match setup.Meaning(line)
    case Malformed => EndedAt(0, rules)
    case Blank => AllDone(rules)
    case RouteRule(rule) => AllDone(rules + [rule])
    case Include(file) =>
      if file in stack || |stack| >= setup.depth then AllDone(rules)
      else
        var nested := ParseFile(setup, stack, file, rules);
        if nested.rc == 0 then EndedAt(1, nested.rules) else AllDone(nested.rules)
  }

  function ParseLines<R>(setup: Setup<R>, stack: seq<Name>, stream: seq<byte>, cr: bool, lf: bool, rules: seq<R>): (r: Outcome<R>)
    requires |stack| <= setup.depth
    ensures 0 <= r.rc <= 1 && rules <= r.rules
    decreases setup.depth - |stack|, |stream| + 1
  {
    var r := NextLine(stream, cr, lf, [], MAX_LINE_LENGTH);
    if r.code == 2 then Outcome(1, rules)
    else if r.code != 1 then Outcome(0, rules)
    else
      match DoLine(setup, stack, r.text, rules)
      case EndedAt(rc, done) => Outcome(rc, done)
      case AllDone(done) => ParseLines(setup, stack, r.rest, r.cr, r.lf, done)
  }

  predicate Distinct(names: seq<Name>) {
    forall i, j :: 0 <= i < j < |names| ==> names[i] != names[j]
  }

  //// The code

  class RuleList<R> {
    var rules: seq<R>
  }

  /** Reading and normalising one line. */
  method ReadDirective<R>(setup: Setup<R>, fd: Socket, buf: array<byte>, buf2: array<byte>, cr0: bool, lf0: bool)
    returns (okay: int, cr: bool, lf: bool, directive: Directive<R>)
    requires buf != buf2 && buf.Length == buf2.Length == MAX_LINE_LENGTH && fd.readScript == []
    modifies fd`incoming, fd`readScript, buf, buf2
    ensures var r := NextLine(old(fd.incoming), cr0, lf0, [], MAX_LINE_LENGTH);
      okay == r.code && cr == r.cr && lf == r.lf && fd.incoming == r.rest && (okay == 1 ==> directive == setup.Meaning(r.text))
    ensures fd.readScript == []
  {
    directive := Blank;
    ghost var text;
    okay, cr, lf, text := ReadLine(fd, buf, cr0, lf0);
    if okay == 1 {
      ghost var line := CString(text);
      assert buf[|line|] == 0 by {
        if |line| < |text| {
          assert buf[..|text|][|line|] == 0;
        }
      }
      assert buf[..|line|] == line by {
        assert buf[..|text|][..|line|] == buf[..|line|];
      }
      var accepted := RemoveExtraSpacesAndComments(buf, buf2, line);
      if accepted == 0 {
        directive := Malformed;
      } else {
        var n := 0;
        ghost var output := Run(line).output;
        NeverLonger(line);
        AddsOnlySpaces(line, 0);
        n := Strlen(buf2, output);
        directive := setup.expand(buf2[..n]);
      }
    }
  }

  method Strlen(buf: array<byte>, ghost text: seq<byte>) returns (n: nat)
    requires |text| < buf.Length && buf[..|text|] == text && buf[|text|] == 0 && 0 !in text
    ensures n == |text|
  {
    n := 0;
    forall i | 0 <= i < |text| ensures buf[i] != 0 {
      assert buf[i] == text[i] && text[i] in text;
    }
    while buf[n] != 0
      invariant 0 <= n <= |text|
      decreases |text| - n
    {
      n := n + 1;
    }
  }

  method FindInStack(stack: array<Name>, index: nat, file: Name) returns (found: bool)
    requires index <= stack.Length
    ensures found <==> file in stack[..index]
  {
    found := false;
    var i := 0;
    while !found && i < index
      invariant 0 <= i <= index
      invariant found <==> file in stack[..i]
    {
      assert stack[..i + 1] == stack[..i] + [stack[i]];
      if stack[i] == file {
        found := true;
      }
      i := i + 1;
    }
    if found {
      assert stack[..i] <= stack[..index];
    }
  }

  /**
    route_rule_file_parse. Whatever the file system, it terminates: free stack slots go down
    with each nesting, and the input of a file with each line. The names on the stack are
    always distinct, and the stack is never written at or beyond its size.
   */
  method RouteRuleFileParse<R>(setup: Setup<R>, list: RuleList<R>, filename: Name, stack: array<Name>, index: nat)
    returns (rc: int)
    requires index < setup.depth <= stack.Length
    requires Distinct(stack[..index]) && filename !in stack[..index]
    modifies list, stack
    ensures stack[..index + 1] == old(stack[..index]) + [filename] && Distinct(stack[..index + 1])
    ensures Outcome(rc, list.rules) == ParseFile(setup, old(stack[..index]), filename, old(list.rules))
    decreases setup.depth - index, 0
  {
    ghost var before := stack[..index];
    stack[index] := filename;
    ghost var names := before + [filename];
    assert stack[..index + 1] == names;
    if filename !in setup.files {
      return 0;
    }
    var fd := new Socket(3, setup.files[filename], [], []);
    var buf, buf2 := new byte[MAX_LINE_LENGTH], new byte[MAX_LINE_LENGTH];
    var cr, lf, okay := false, false, 1;
    while okay != 0
      invariant okay == 0 || okay == 1
      invariant fresh(fd) && fresh(buf) && fresh(buf2) && fd.readScript == []
      invariant stack[..index + 1] == names
      invariant okay == 1 ==>
        ParseLines(setup, names, fd.incoming, cr, lf, list.rules) == ParseFile(setup, before, filename, old(list.rules))
      invariant okay == 0 ==> Outcome(1, list.rules) == ParseFile(setup, before, filename, old(list.rules))
      decreases okay, |fd.incoming|
    {
      var directive;
      okay, cr, lf, directive := ReadDirective(setup, fd, buf, buf2, cr, lf);
      if okay == 2 {
        break;
      }
      if okay == 0 {
        return 0;
      }
      match directive
      case Malformed =>
        return 0;
      case Blank =>
      case RouteRule(rule) =>
        list.rules := list.rules + [rule];
      case Include(file) =>
        okay := IncludeFile(setup, list, file, stack, index + 1, names);
    }
    assert stack[..index] == stack[..index + 1][..index];
    return 1;
  }

  /** An include: blocked with a warning, or parsed in place. */
  method IncludeFile<R>(setup: Setup<R>, list: RuleList<R>, file: Name, stack: array<Name>, index: nat, ghost names: seq<Name>)
    returns (okay: int)
    requires index <= setup.depth <= stack.Length && stack[..index] == names && Distinct(names)
    modifies list, stack
    ensures stack[..index] == names && 0 <= okay <= 1
    ensures if file in names || index >= setup.depth then okay == 1 && list.rules == old(list.rules)
      else Outcome(okay, list.rules) == ParseFile(setup, names, file, old(list.rules))
    decreases setup.depth - index, 1
  {
    okay := 1;
    var found := FindInStack(stack, index, file);
    if found {
      // blocked: the file is being read already
    } else if index >= setup.depth {
      // blocked: too deep
    } else {
      okay := RouteRuleFileParse(setup, list, file, stack, index);
      assert stack[..index] == stack[..index + 1][..index];
    }
  }

  //// Main results

  function Lines<R>(setup: Setup<R>, name: Name): seq<seq<byte>>
    requires name in setup.files
  {
    ReadAll(setup.files[name], false, false, MAX_LINE_LENGTH).lines
  }

  /**
    The file exists and every line of it parses, and so it is with every file that it reaches by
    includes, of which at most so many follow one upon the other, the file itself counted.
   */
  predicate AllWell<R>(setup: Setup<R>, name: Name, levels: nat)
    decreases levels, 0
  {
    && levels > 0 && name in setup.files && ReadAll(setup.files[name], false, false, MAX_LINE_LENGTH).code == 2
    && LinesWell(setup, Lines(setup, name), levels - 1)
  }

  predicate LineWell<R>(setup: Setup<R>, line: seq<byte>, levels: nat)
    decreases levels, 1
  {
    var d := setup.Meaning(line);
    !d.Malformed? && (d.Include? ==> AllWell(setup, d.file, levels))
  }

  predicate LinesWell<R>(setup: Setup<R>, lines: seq<seq<byte>>, levels: nat)
    decreases levels, |lines| + 2
  {
    lines == [] || (LineWell(setup, lines[0], levels) && LinesWell(setup, lines[1..], levels))
  }

  /** The rules of a file in order, each include replaced by the rules of the included file. */
  function Expansion<R>(setup: Setup<R>, name: Name, levels: nat): seq<R>
    requires AllWell(setup, name, levels)
    decreases levels, 0
  {
    ExpandLines(setup, Lines(setup, name), levels - 1)
  }

  function ExpandLine<R>(setup: Setup<R>, line: seq<byte>, levels: nat): seq<R>
    requires LineWell(setup, line, levels)
    decreases levels, 1
  {
    match setup.Meaning(line)
    case Blank => []
    case RouteRule(rule) => [rule]
    case Include(file) => Expansion(setup, file, levels)
  }

  function ExpandLines<R>(setup: Setup<R>, lines: seq<seq<byte>>, levels: nat): seq<R>
    requires LinesWell(setup, lines, levels)
    decreases levels, |lines| + 2
  {
    if lines == [] then [] else ExpandLine(setup, lines[0], levels) + ExpandLines(setup, lines[1..], levels)
  }

  /** Rules that are there already only stand in front: they never influence the parse. */
  lemma {:induction false} OnlyAppends<R>(setup: Setup<R>, stack: seq<Name>, name: Name, rules: seq<R>, more: seq<R>)
    requires |stack| < setup.depth
    ensures var alone := ParseFile(setup, stack, name, more);
      ParseFile(setup, stack, name, rules + more) == Outcome(alone.rc, rules + alone.rules)
    decreases setup.depth - |stack|, 0, 0
  {
    if name in setup.files {
      LinesOnlyAppend(setup, stack + [name], setup.files[name], false, false, rules, more);
    }
  }

  lemma {:induction false} LineOnlyAppends<R>(setup: Setup<R>, stack: seq<Name>, line: seq<byte>, rules: seq<R>, more: seq<R>)
    requires |stack| <= setup.depth
    ensures DoLine(setup, stack, line, rules + more) ==
      match DoLine(setup, stack, line, more)
      case AllDone(done) => AllDone(rules + done)
      case EndedAt(rc, done) => EndedAt(rc, rules + done)
    decreases setup.depth - |stack|, 0, 1
  {
    match setup.Meaning(line)
    case Malformed =>
    case Blank =>
    case RouteRule(rule) => Associative(rules, more, [rule]);
    case Include(file) =>
      if file !in stack && |stack| < setup.depth {
        OnlyAppends(setup, stack, file, rules, more);
      }
  }

  lemma {:induction false} LinesOnlyAppend<R>(setup: Setup<R>, stack: seq<Name>, stream: seq<byte>, cr: bool, lf: bool, rules: seq<R>, more: seq<R>)
    requires |stack| <= setup.depth
    ensures var alone := ParseLines(setup, stack, stream, cr, lf, more);
      ParseLines(setup, stack, stream, cr, lf, rules + more) == Outcome(alone.rc, rules + alone.rules)
    decreases setup.depth - |stack|, |stream| + 1
  {
    var r := NextLine(stream, cr, lf, [], MAX_LINE_LENGTH);
    if r.code == 1 {
      LineOnlyAppends(setup, stack, r.text, rules, more);
      var done := DoLine(setup, stack, r.text, more);
      if done.AllDone? {
        LinesOnlyAppend(setup, stack, r.rest, r.cr, r.lf, rules, done.rules);
      }
    }
  }

  //// What a failed include hides

  function DoLines<R>(setup: Setup<R>, stack: seq<Name>, lines: seq<seq<byte>>, rules: seq<R>): Reached<R>
    requires |stack| <= setup.depth
  {
    if lines == [] then AllDone(rules)
    else
      match DoLine(setup, stack, lines[0], rules)
      case EndedAt(rc, done) => EndedAt(rc, done)
      case AllDone(done) => DoLines(setup, stack, lines[1..], done)
  }

  /** Parsing a stream is doing its lines, and then what its end says. */
  lemma {:induction false} ParsingDoesTheLines<R>(setup: Setup<R>, stack: seq<Name>, stream: seq<byte>, cr: bool, lf: bool, rules: seq<R>)
    requires |stack| <= setup.depth
    ensures var all := ReadAll(stream, cr, lf, MAX_LINE_LENGTH);
      ParseLines(setup, stack, stream, cr, lf, rules) ==
      match DoLines(setup, stack, all.lines, rules)
      case AllDone(done) => Outcome(if all.code == 2 then 1 else 0, done)
      case EndedAt(rc, done) => Outcome(rc, done)
    decreases |stream|
  {
    var r := NextLine(stream, cr, lf, [], MAX_LINE_LENGTH);
    if r.code == 1 {
      var all := ReadAll(stream, cr, lf, MAX_LINE_LENGTH).lines;
      assert all[0] == r.text && all[1..] == ReadAll(r.rest, r.cr, r.lf, MAX_LINE_LENGTH).lines;
      var done := DoLine(setup, stack, r.text, rules);
      if done.AllDone? {
        ParsingDoesTheLines(setup, stack, r.rest, r.cr, r.lf, done.rules);
      }
    }
  }

  /** Lines that are all done leave the rest to the lines behind them. */
  lemma {:induction false} DoneLinesGoOn<R>(setup: Setup<R>, stack: seq<Name>, lines: seq<seq<byte>>, k: nat, rules: seq<R>)
    requires |stack| <= setup.depth && k <= |lines| && DoLines(setup, stack, lines[..k], rules).AllDone?
    ensures DoLines(setup, stack, lines, rules) == DoLines(setup, stack, lines[k..], DoLines(setup, stack, lines[..k], rules).rules)
  {
    if k == 0 {
      assert lines[..k] == [] && lines[k..] == lines;
    } else {
      assert lines[..k][0] == lines[0] && lines[..k][1..] == lines[1..][..k - 1] && lines[1..][k - 1..] == lines[k..];
      DoneLinesGoOn(setup, stack, lines[1..], k - 1, DoLine(setup, stack, lines[0], rules).rules);
    }
  }

  /**
    At any depth and in any line: when the lines before line k are done and line k includes a
    file that fails, for whatever reason, the parent reports success with the rules that
    came so far, those of the failed file included, whatever stands behind line k.
   */
  lemma FailedIncludeIsHidden<R>(setup: Setup<R>, stack: seq<Name>, name: Name, k: nat, file: Name, rules: seq<R>)
    requires |stack| < setup.depth && name in setup.files && k < |Lines(setup, name)|
    requires var inside := stack + [name];
      var before := DoLines(setup, inside, Lines(setup, name)[..k], rules);
      && before.AllDone? && setup.Meaning(Lines(setup, name)[k]) == Include(file)
      && file !in inside && |inside| < setup.depth && ParseFile(setup, inside, file, before.rules).rc == 0
    ensures var inside := stack + [name];
      var before := DoLines(setup, inside, Lines(setup, name)[..k], rules);
      ParseFile(setup, stack, name, rules) == Outcome(1, ParseFile(setup, inside, file, before.rules).rules)
  {
    var inside, lines := stack + [name], Lines(setup, name);
    ParsingDoesTheLines(setup, inside, setup.files[name], false, false, rules);
    DoneLinesGoOn(setup, inside, lines, k, rules);
    assert lines[k..][0] == lines[k];
  }

  /** An include that is blocked, because of a cycle or a full stack, leaves no trace: its lines are done as if it were not there. */
  lemma {:induction false} BlockedIncludeIsSkipped<R>(setup: Setup<R>, stack: seq<Name>, lines: seq<seq<byte>>, k: nat, file: Name, rules: seq<R>)
    requires |stack| <= setup.depth && k < |lines| && setup.Meaning(lines[k]) == Include(file)
    requires file in stack || |stack| == setup.depth
    ensures DoLines(setup, stack, lines, rules) == DoLines(setup, stack, lines[..k] + lines[k + 1..], rules)
  {
    var others := lines[..k] + lines[k + 1..];
    if k == 0 {
      assert others == lines[1..];
    } else {
      assert others[0] == lines[0] && others[1..] == lines[1..][..k - 1] + lines[1..][k..];
      var done := DoLine(setup, stack, lines[0], rules);
      if done.AllDone? {
        BlockedIncludeIsSkipped(setup, stack, lines[1..], k - 1, file, done.rules);
      }
    }
  }

  //// When a parse is whole

  /**
    Every line there is to carry out when includes are followed so many levels deep, the lines of
    an included file in front of the one that includes it.
   */
  function ToDo<R>(setup: Setup<R>, name: Name, levels: nat): seq<seq<byte>>
    decreases levels, 0
  {
    if levels == 0 || name !in setup.files then [] else LinesToDo(setup, Lines(setup, name), levels - 1)
  }

  function LineToDo<R>(setup: Setup<R>, line: seq<byte>, levels: nat): seq<seq<byte>>
    decreases levels, 1
  {
    var d := setup.Meaning(line);
    (if d.Include? then ToDo(setup, d.file, levels) else []) + [line]
  }

  function LinesToDo<R>(setup: Setup<R>, lines: seq<seq<byte>>, levels: nat): seq<seq<byte>>
    decreases levels, |lines| + 2
  {
    if lines == [] then [] else LineToDo(setup, lines[0], levels) + LinesToDo(setup, lines[1..], levels)
  }

  /**
    The lines that a parse does carry out: one without content, one whose rule is added, and
    one that includes a file which is then parsed with success.
   */
  function CarriedOut<R>(setup: Setup<R>, stack: seq<Name>, name: Name): seq<seq<byte>>
    requires |stack| < setup.depth
    decreases setup.depth - |stack|, 0, 0
  {
    if name !in setup.files then [] else LinesCarriedOut(setup, stack + [name], Lines(setup, name))
  }

  function LineCarriedOut<R>(setup: Setup<R>, stack: seq<Name>, line: seq<byte>): seq<seq<byte>>
    requires |stack| <= setup.depth
    decreases setup.depth - |stack|, 0, 1
  {
    match setup.Meaning(line)
    case Malformed => []
    case Blank => [line]
    case RouteRule(_) => [line]
    case Include(file) =>
      if file in stack || |stack| >= setup.depth then []
      else CarriedOut(setup, stack, file) + if ParseFile(setup, stack, file, []).rc == 0 then [] else [line]
  }

  function LinesCarriedOut<R>(setup: Setup<R>, stack: seq<Name>, lines: seq<seq<byte>>): seq<seq<byte>>
    requires |stack| <= setup.depth
    decreases setup.depth - |stack|, |lines| + 1
  {
    if lines == [] then []
    else
      LineCarriedOut(setup, stack, lines[0]) +
      if DoLine(setup, stack, lines[0], []).EndedAt? then [] else LinesCarriedOut(setup, stack, lines[1..])
  }

  /** What is well within some levels is well within more. */
  lemma {:induction false} WellGrows<R>(setup: Setup<R>, name: Name, k: nat, m: nat)
    requires k <= m
    ensures AllWell(setup, name, k) ==> AllWell(setup, name, m)
    decreases k, 0
  {
    if k > 0 && name in setup.files {
      LinesWellGrow(setup, Lines(setup, name), k - 1, m - 1);
    }
  }

  lemma {:induction false} LinesWellGrow<R>(setup: Setup<R>, lines: seq<seq<byte>>, k: nat, m: nat)
    requires k <= m
    ensures LinesWell(setup, lines, k) ==> LinesWell(setup, lines, m)
    decreases k, |lines| + 1
  {
    if lines != [] {
      var d := setup.Meaning(lines[0]);
      if d.Include? {
        WellGrows(setup, d.file, k, m);
      }
      assert LineWell(setup, lines[0], k) ==> LineWell(setup, lines[0], m);
      LinesWellGrow(setup, lines[1..], k, m);
    }
  }

  /** The fewest levels within which a file is well. */
  function Height<R>(setup: Setup<R>, name: Name, levels: nat): (h: nat)
    requires AllWell(setup, name, levels)
    ensures 0 < h <= levels && AllWell(setup, name, h) && !AllWell(setup, name, h - 1)
  {
    if AllWell(setup, name, levels - 1) then Height(setup, name, levels - 1) else levels
  }

  /** The files being read are all higher, so nothing that is well within the levels is blocked. */
  predicate Above<R>(setup: Setup<R>, stack: seq<Name>, levels: nat) {
    forall i :: 0 <= i < |stack| ==> !AllWell(setup, stack[i], levels)
  }

  lemma AboveFewer<R>(setup: Setup<R>, stack: seq<Name>, k: nat, m: nat)
    requires Above(setup, stack, m) && k <= m
    ensures Above(setup, stack, k)
  {
    forall i | 0 <= i < |stack| ensures !AllWell(setup, stack[i], k) {
      WellGrows(setup, stack[i], k, m);
    }
  }

  lemma NotBlocked<R>(setup: Setup<R>, stack: seq<Name>, file: Name, k: nat)
    requires AllWell(setup, file, k) && Above(setup, stack, k)
    ensures file !in stack
  {
  }

  /** A file that is well within the free slots parses to its depth-first expansion, and every line is carried out. */
  lemma {:induction false} FileExpands<R>(setup: Setup<R>, stack: seq<Name>, name: Name, k: nat, n: nat, rules: seq<R>)
    requires |stack| < setup.depth && AllWell(setup, name, setup.depth - |stack|) && setup.depth - |stack| <= n
    requires 0 < k && AllWell(setup, name, k) && !AllWell(setup, name, k - 1) && Above(setup, stack, k)
    ensures ParseFile(setup, stack, name, rules) == Outcome(1, rules + Expansion(setup, name, setup.depth - |stack|))
    ensures CarriedOut(setup, stack, name) == ToDo(setup, name, n)
    decreases setup.depth - |stack|, 0, 0
  {
    var inside, lines := stack + [name], Lines(setup, name);
    AboveFewer(setup, stack, k - 1, k);
    assert ParseFile(setup, stack, name, rules) == ParseLines(setup, inside, setup.files[name], false, false, rules);
    assert CarriedOut(setup, stack, name) == LinesCarriedOut(setup, inside, lines);
    ParsingDoesTheLines(setup, inside, setup.files[name], false, false, rules);
    LinesExpand(setup, inside, lines, k - 1, n - 1, rules);
  }

  lemma {:induction false} LineExpands<R>(setup: Setup<R>, stack: seq<Name>, line: seq<byte>, k: nat, n: nat, rules: seq<R>)
    requires |stack| <= setup.depth && LineWell(setup, line, setup.depth - |stack|) && setup.depth - |stack| <= n
    requires LineWell(setup, line, k) && Above(setup, stack, k)
    ensures DoLine(setup, stack, line, rules) == AllDone(rules + ExpandLine(setup, line, setup.depth - |stack|))
    ensures LineCarriedOut(setup, stack, line) == LineToDo(setup, line, n)
    decreases setup.depth - |stack|, 0, 1
  {
    match setup.Meaning(line)
    case Blank => assert rules + [] == rules && [] + [line] == [line];
    case RouteRule(_) => assert [] + [line] == [line];
    case Include(file) =>
      NotBlocked(setup, stack, file, k);
      var h := Height(setup, file, k);
      AboveFewer(setup, stack, h, k);
      FileExpands(setup, stack, file, h, n, rules);
      FileExpands(setup, stack, file, h, n, []);
  }

  lemma {:induction false} LinesExpand<R>(setup: Setup<R>, stack: seq<Name>, lines: seq<seq<byte>>, k: nat, n: nat, rules: seq<R>)
    requires |stack| <= setup.depth && LinesWell(setup, lines, setup.depth - |stack|) && setup.depth - |stack| <= n
    requires LinesWell(setup, lines, k) && Above(setup, stack, k)
    ensures DoLines(setup, stack, lines, rules) == AllDone(rules + ExpandLines(setup, lines, setup.depth - |stack|))
    ensures LinesCarriedOut(setup, stack, lines) == LinesToDo(setup, lines, n)
    decreases setup.depth - |stack|, |lines| + 1
  {
    if lines == [] {
      assert rules + [] == rules;
    } else {
      var free, rest := setup.depth - |stack|, lines[1..];
      var first := ExpandLine(setup, lines[0], free);
      LineExpands(setup, stack, lines[0], k, n, rules);
      LineExpands(setup, stack, lines[0], k, n, []);
      LinesExpand(setup, stack, rest, k, n, rules + first);
      assert DoLines(setup, stack, lines, rules) == DoLines(setup, stack, rest, rules + first);
      assert LinesCarriedOut(setup, stack, lines) == LineCarriedOut(setup, stack, lines[0]) + LinesCarriedOut(setup, stack, rest);
      Associative(rules, first, ExpandLines(setup, rest, free));
    }
  }

  /** No parse carries out more than there is to do, and a file that is not well within the free slots fails or carries out less. */
  lemma {:induction false} FileFallsShort<R>(setup: Setup<R>, stack: seq<Name>, name: Name, n: nat, rules: seq<R>)
    requires |stack| < setup.depth && setup.depth - |stack| <= n
    ensures |CarriedOut(setup, stack, name)| <= |ToDo(setup, name, n)|
    ensures !AllWell(setup, name, setup.depth - |stack|) ==>
      ParseFile(setup, stack, name, rules).rc == 0 || |CarriedOut(setup, stack, name)| < |ToDo(setup, name, n)|
    decreases setup.depth - |stack|, 0, 0
  {
    if name in setup.files {
      var inside, lines := stack + [name], Lines(setup, name);
      assert ParseFile(setup, stack, name, rules) == ParseLines(setup, inside, setup.files[name], false, false, rules);
      assert CarriedOut(setup, stack, name) == LinesCarriedOut(setup, inside, lines);
      ParsingDoesTheLines(setup, inside, setup.files[name], false, false, rules);
      LinesFallShort(setup, inside, lines, n - 1, rules);
    }
  }

  predicate EndsBadly<R>(r: Reached<R>) {
    r.EndedAt? && r.rc == 0
  }

  lemma {:induction false} LineFallsShort<R>(setup: Setup<R>, stack: seq<Name>, line: seq<byte>, n: nat, rules: seq<R>)
    requires |stack| <= setup.depth && setup.depth - |stack| <= n
    ensures |LineCarriedOut(setup, stack, line)| <= |LineToDo(setup, line, n)|
    ensures !(DoLine(setup, stack, line, rules).AllDone? && LineWell(setup, line, setup.depth - |stack|)) ==>
      EndsBadly(DoLine(setup, stack, line, rules)) || |LineCarriedOut(setup, stack, line)| < |LineToDo(setup, line, n)|
    decreases setup.depth - |stack|, 0, 1
  {
    var d := setup.Meaning(line);
    if d.Include? && d.file !in stack && |stack| < setup.depth {
      FileFallsShort(setup, stack, d.file, n, []);
      OnlyAppends(setup, stack, d.file, rules, []);
      assert rules + [] == rules;
    }
  }

  lemma {:induction false} LinesFallShort<R>(setup: Setup<R>, stack: seq<Name>, lines: seq<seq<byte>>, n: nat, rules: seq<R>)
    requires |stack| <= setup.depth && setup.depth - |stack| <= n
    ensures |LinesCarriedOut(setup, stack, lines)| <= |LinesToDo(setup, lines, n)|
    ensures !(DoLines(setup, stack, lines, rules).AllDone? && LinesWell(setup, lines, setup.depth - |stack|)) ==>
      EndsBadly(DoLines(setup, stack, lines, rules)) || |LinesCarriedOut(setup, stack, lines)| < |LinesToDo(setup, lines, n)|
    decreases setup.depth - |stack|, |lines| + 1
  {
    if lines != [] {
      LineFallsShort(setup, stack, lines[0], n, rules);
      LineOnlyAppends(setup, stack, lines[0], rules, []);
      assert rules + [] == rules;
      LinesFallShort(setup, stack, lines[1..], n, DoLine(setup, stack, lines[0], rules).rules);
    }
  }

  /** The whole parse of files that are all well: the rule list is the depth-first in-place expansion. */
  lemma IncludeExpansion<R>(setup: Setup<R>, name: Name, rules: seq<R>)
    requires AllWell(setup, name, setup.depth)
    ensures ParseFile(setup, [], name, rules) == Outcome(1, rules + Expansion(setup, name, setup.depth))
  {
    FileExpands(setup, [], name, Height(setup, name, setup.depth), setup.depth, rules);
  }

  /**
    For every file system, with missing, malformed, cyclic or too deeply nested files: a parse
    reports success having carried out every line there is, however deep includes are
    followed, exactly when all is well within the depth.
   */
  lemma SuccessIsWholeIffAllWell<R>(setup: Setup<R>, name: Name, levels: nat, rules: seq<R>)
    requires 0 < setup.depth <= levels
    ensures ParseFile(setup, [], name, rules).rc == 1 && CarriedOut(setup, [], name) == ToDo(setup, name, levels) <==>
      AllWell(setup, name, setup.depth)
  {
    FileFallsShort(setup, [], name, levels, rules);
    if AllWell(setup, name, setup.depth) {
      FileExpands(setup, [], name, Height(setup, name, setup.depth), levels, rules);
    }
  }

  //// What is well, and what is not

  /** Includes go down in rank; all ranked files exist, and their lines parse. */
  ghost predicate Acyclic<R>(setup: Setup<R>, rank: map<Name, nat>) {
    forall name :: name in rank ==>
      && name in setup.files
      && ReadAll(setup.files[name], false, false, MAX_LINE_LENGTH).code == 2
      && forall i :: 0 <= i < |Lines(setup, name)| ==> Parses(setup, rank, Lines(setup, name)[i], rank[name])
  }

  /** A line that parses, and that includes only files of a rank below the bound. */
  predicate Parses<R>(setup: Setup<R>, rank: map<Name, nat>, line: seq<byte>, bound: nat) {
    var d := setup.Meaning(line);
    !d.Malformed? && (d.Include? ==> d.file in rank && rank[d.file] < bound)
  }

  /** Acyclic files that parse are well within as many levels as their rank says. */
  lemma {:induction false} AcyclicIsWell<R>(setup: Setup<R>, rank: map<Name, nat>, name: Name, levels: nat)
    requires Acyclic(setup, rank) && name in rank && rank[name] < levels
    ensures AllWell(setup, name, levels)
    decreases levels, 0
  {
    LinesAreWell(setup, rank, Lines(setup, name), rank[name], levels - 1);
  }

  lemma {:induction false} LinesAreWell<R>(setup: Setup<R>, rank: map<Name, nat>, lines: seq<seq<byte>>, bound: nat, levels: nat)
    requires Acyclic(setup, rank) && bound <= levels
    requires forall i :: 0 <= i < |lines| ==> Parses(setup, rank, lines[i], bound)
    ensures LinesWell(setup, lines, levels)
    decreases levels, |lines| + 1
  {
    if lines != [] {
      assert Parses(setup, rank, lines[0], bound);
      var d := setup.Meaning(lines[0]);
      if d.Include? {
        AcyclicIsWell(setup, rank, d.file, levels);
      }
      LinesAreWell(setup, rank, lines[1..], bound, levels);
    }
  }

  predicate Includes<R>(setup: Setup<R>, name: Name, file: Name) {
    name in setup.files && exists i :: 0 <= i < |Lines(setup, name)| && setup.Meaning(Lines(setup, name)[i]) == Include(file)
  }

  lemma {:induction false} WellLine<R>(setup: Setup<R>, lines: seq<seq<byte>>, i: nat, levels: nat)
    requires LinesWell(setup, lines, levels) && i < |lines|
    ensures LineWell(setup, lines[i], levels)
  {
    if i > 0 {
      WellLine(setup, lines[1..], i - 1, levels);
    }
  }

  /** A path of includes longer than the levels is never well: a chain that is too deep, or a way round a cycle. */
  lemma {:induction false} LongPathIsNotWell<R>(setup: Setup<R>, path: seq<Name>, levels: nat)
    requires |path| > levels && forall i :: 0 <= i < |path| - 1 ==> Includes(setup, path[i], path[i + 1])
    ensures !AllWell(setup, path[0], levels)
  {
    if AllWell(setup, path[0], levels) {
      assert Includes(setup, path[0], path[1]);
      var lines := Lines(setup, path[0]);
      var i :| 0 <= i < |lines| && setup.Meaning(lines[i]) == Include(path[1]);
      WellLine(setup, lines, i, levels - 1);
      LongPathIsNotWell(setup, path[1..], levels - 1);
    }
  }

  //// The stack of names

  /** The stacks of names at the moments when a file is opened, in the course of a parse. */
  function Openings<R>(setup: Setup<R>, stack: seq<Name>, name: Name): seq<seq<Name>>
    requires |stack| < setup.depth
    decreases setup.depth - |stack|, 0, 0
  {
    [stack + [name]] +
    if name !in setup.files then [] else LineOpenings(setup, stack + [name], Lines(setup, name))
  }

  function LineOpenings<R>(setup: Setup<R>, stack: seq<Name>, lines: seq<seq<byte>>): seq<seq<Name>>
    requires |stack| <= setup.depth
    decreases setup.depth - |stack|, |lines| + 1
  {
    if lines == [] then []
    else
      var d, rest := setup.Meaning(lines[0]), LineOpenings(setup, stack, lines[1..]);
      if d.Malformed? then []
      else if d.Include? && d.file !in stack && |stack| < setup.depth then
        Openings(setup, stack, d.file) + if ParseFile(setup, stack, d.file, []).rc == 0 then [] else rest
      else rest
  }

  ghost predicate AllDistinct(stacks: seq<seq<Name>>, depth: nat) {
    forall i :: 0 <= i < |stacks| ==> Distinct(stacks[i]) && 0 < |stacks[i]| <= depth
  }

  /** Whatever the file system: at every opening the names are pairwise distinct, and no more than the depth. */
  lemma {:induction false} StackedNamesAreDistinct<R>(setup: Setup<R>, stack: seq<Name>, name: Name)
    requires |stack| < setup.depth && Distinct(stack) && name !in stack
    ensures AllDistinct(Openings(setup, stack, name), setup.depth)
    decreases setup.depth - |stack|, 0, 0
  {
    if name in setup.files {
      LineStacksAreDistinct(setup, stack + [name], Lines(setup, name));
    }
  }

  lemma {:induction false} LineStacksAreDistinct<R>(setup: Setup<R>, stack: seq<Name>, lines: seq<seq<byte>>)
    requires |stack| <= setup.depth && Distinct(stack)
    ensures AllDistinct(LineOpenings(setup, stack, lines), setup.depth)
    decreases setup.depth - |stack|, |lines| + 1
  {
    if lines != [] {
      var d := setup.Meaning(lines[0]);
      LineStacksAreDistinct(setup, stack, lines[1..]);
      if d.Include? && d.file !in stack && |stack| < setup.depth {
        StackedNamesAreDistinct(setup, stack, d.file);
      }
    }
  }

  /** What a proxy's routeFile setting starts: a fresh stack, one entry larger than the depth. */
  method RouteFile<R>(setup: Setup<R>, list: RuleList<R>, filename: Name) returns (rc: int)
    requires setup.depth == ROUTE_RULE_FILENAME_STACK_SIZE
    modifies list
    ensures Outcome(rc, list.rules) == ParseFile(setup, [], filename, old(list.rules))
  {
    var stack := new Name[ROUTE_RULE_FILENAME_STACK_SIZE + 1];
    assert stack[..0] == [];
    rc := RouteRuleFileParse(setup, list, filename, stack, 0);
  }
}
