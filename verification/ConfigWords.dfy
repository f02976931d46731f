/**
  What the first pass leaves of a configuration line, told from the line itself: its characters
  are read from the front, and the words between unquoted blanks come out with one space between.
 */
module ConfigWords {
  import opened Sequences
  import opened Kernel
  import opened ConfigNormaliser

  //// The reference

  /** A character that is put out, or a blank outside quotes. */
  datatype Item = Char(c: byte) | Gap

  /** The items of a line from a given place on: escapes are taken off, and an unquoted '#' ends it. */
  function Items(line: seq<byte>, m: Mode): seq<Item> {
    if line == [] then []
    else
      var c, rest := line[0], line[1..];
      if c == 92 then
        if rest == [] then [] else [Char(rest[0])] + Items(rest[1..], m)
      else if m == Open && c == 35 then []
      else if m == Open && (c == 32 || c == 9) then [Gap] + Items(rest, m)
      else [Char(c)] + Items(rest, Turned(m, c))
  }

  /** A quote opens, and the same one closes; within one kind of quotes the other is a character. */
  function Turned(m: Mode, c: byte): Mode {
    if m == Open then (if c == 39 then InSingle else if c == 34 then InDouble else Open)
    else if (m == InSingle && c == 39) || (m == InDouble && c == 34) then Open
    else m
  }

  /** The quotes in which a line ends, a comment not counted. */
  function LastMode(line: seq<byte>, m: Mode): Mode {
    if line == [] then m
    else
      var c, rest := line[0], line[1..];
      if c == 92 then
        if rest == [] then m else LastMode(rest[1..], m)
      else if m == Open && c == 35 then m
      else LastMode(rest, Turned(m, c))
  }

  /** The characters up to the first gap, and what stands behind them. */
  function FirstWord(items: seq<Item>): seq<byte> {
    if items == [] || items[0].Gap? then [] else [items[0].c] + FirstWord(items[1..])
  }

  function BehindWord(items: seq<Item>): (rest: seq<Item>)
    ensures |rest| <= |items|
  {
    if items == [] || items[0].Gap? then items else BehindWord(items[1..])
  }

  /** The words: the runs of characters between gaps, none of them empty. */
  function Words(items: seq<Item>): (words: seq<seq<byte>>)
    ensures forall w :: w in words ==> w != []
    decreases |items|
  {
    if items == [] then []
    else if items[0].Gap? then Words(items[1..])
    else [FirstWord(items)] + Words(BehindWord(items[1..]))
  }

  function Joined(words: seq<seq<byte>>): seq<byte> {
    if words == [] then [] else if |words| == 1 then words[0] else words[0] + [32] + Joined(words[1..])
  }

  //// The pass from the front

  function RunFrom(s: State, line: seq<byte>): State
    decreases |line|
  {
    if line == [] then s else RunFrom(s.Step(line[0]), line[1..])
  }

  lemma {:induction false} RunFromEnd(s: State, line: seq<byte>, c: byte)
    ensures RunFrom(s, line + [c]) == RunFrom(s, line).Step(c)
    decreases |line|
  {
    if line == [] {
      assert (line + [c])[0] == c && (line + [c])[1..] == [];
    } else {
      assert (line + [c])[0] == line[0] && (line + [c])[1..] == line[1..] + [c];
      RunFromEnd(s.Step(line[0]), line[1..], c);
    }
  }

  lemma {:induction false} RunIsRunFrom(line: seq<byte>)
    ensures Run(line) == RunFrom(START, line)
  {
    if line != [] {
      var before, c := line[..|line| - 1], line[|line| - 1];
      RunIsRunFrom(before);
      RunFromEnd(START, before, c);
      assert before + [c] == line;
    }
  }

  /** Items put out behind what is there, a separator pending or not. */
  function Spread(output: seq<byte>, pending: bool, items: seq<Item>): seq<byte>
    decreases |items|
  {
    if items == [] then output
    else if items[0].Gap? then Spread(output, output != [], items[1..])
    else Spread(output + (if pending then [SPACE] else []) + [items[0].c], false, items[1..])
  }

  predicate InState(s: State, m: Mode) {
    && s.quoteSingle == (m == InSingle) && s.quoteDouble == (m == InDouble)
    && (s.needASpace ==> s.output != [] && m == Open)
  }

  lemma {:induction false} CommentStays(s: State, line: seq<byte>)
    requires s.comment
    ensures RunFrom(s, line) == s
  {
    if line != [] {
      CommentStays(s, line[1..]);
    }
  }

  /** From any place of a line on, the pass puts out its items, and ends in the line's last quotes. */
  lemma {:induction false} RunSpreads(s: State, line: seq<byte>, m: Mode)
    requires InState(s, m) && !s.escape && !s.comment
    ensures RunFrom(s, line).output == Spread(s.output, s.needASpace, Items(line, m))
    ensures RunFrom(s, line).Accepted() <==> LastMode(line, m) == Open
    decreases |line|
  {
    if line != [] {
      var c, rest, t := line[0], line[1..], s.Step(line[0]);
      assert s.output + [] == s.output;
      if c == BACKSLASH {
        if rest == [] {
          assert RunFrom(t, rest) == t;
        } else {
          assert RunFrom(t, rest) == RunFrom(t.Step(rest[0]), rest[1..]);
          RunSpreads(t.Step(rest[0]), rest[1..], m);
        }
      } else if m == Open && c == HASH {
        CommentStays(t, rest);
      } else if m == Open && IsBlank(c) {
        RunSpreads(t, rest, m);
      } else {
        RunSpreads(t, rest, Turned(m, c));
      }
    }
  }

  /** Within a word the characters follow one upon the other, up to the next gap. */
  lemma {:induction false} WordSpreads(output: seq<byte>, items: seq<Item>)
    ensures Spread(output, false, items) == Spread(output + FirstWord(items), false, BehindWord(items))
    decreases |items|
  {
    if items != [] && items[0].Char? {
      WordSpreads(output + [items[0].c], items[1..]);
      assert output + [] + [items[0].c] == output + [items[0].c];
      Associative(output, [items[0].c], FirstWord(items[1..]));
    } else {
      assert output + [] == output;
    }
  }

  /** What the words behind some output come to. */
  function Behind(output: seq<byte>, words: seq<seq<byte>>): seq<byte> {
    if words == [] then output else if output == [] then Joined(words) else output + [32] + Joined(words)
  }

  lemma BehindOneMore(output: seq<byte>, word: seq<byte>, words: seq<seq<byte>>)
    requires word != []
    ensures Behind(output, [word] + words) == Behind(output + (if output == [] then [] else [SPACE]) + word, words)
  {
    var all := [word] + words;
    assert all[1..] == words;
    if words != [] {
      assert Joined(all) == word + [32] + Joined(words);
    }
  }

  /** A pending separator and items come to the words, as long as what is there is not being continued. */
  lemma {:induction false} SpreadJoins(output: seq<byte>, items: seq<Item>)
    ensures Spread(output, output != [], items) == Behind(output, Words(items))
    decreases |items|
  {
    if items != [] {
      if items[0].Gap? {
        SpreadJoins(output, items[1..]);
      } else {
        var c, rest := items[0].c, items[1..];
        var begun := output + (if output == [] then [] else [SPACE]) + [c];
        WordSpreads(begun, rest);
        var done, more := begun + FirstWord(rest), BehindWord(rest);
        assert done == output + (if output == [] then [] else [SPACE]) + ([c] + FirstWord(rest));
        BehindWordIsAGap(rest);
        SpreadJoins(done, more);
        SpreadAtGap(done, more);
        BehindOneMore(output, FirstWord(items), Words(more));
      }
    }
  }

  lemma {:induction false} BehindWordIsAGap(items: seq<Item>)
    ensures BehindWord(items) == [] || BehindWord(items)[0].Gap?
  {
    if items != [] && items[0].Char? {
      BehindWordIsAGap(items[1..]);
    }
  }

  /** At a gap it does not matter whether a separator is pending. */
  lemma SpreadAtGap(output: seq<byte>, items: seq<Item>)
    requires output != [] && (items == [] || items[0].Gap?)
    ensures Spread(output, false, items) == Spread(output, true, items)
  {
  }

  //// Main result

  /**
    Of every line the pass leaves the words between its unquoted blanks, up to an unquoted '#', with
    single spaces between them and none around; it is accepted exactly when no quote is left open.
   */
  lemma LeavesTheWords(line: seq<byte>)
    ensures Run(line).output == Joined(Words(Items(line, Open)))
    ensures Run(line).Accepted() <==> LastMode(line, Open) == Open
  {
    RunIsRunFrom(line);
    RunSpreads(START, line, Open);
    SpreadJoins([], Items(line, Open));
  }
}
