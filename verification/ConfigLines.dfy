/**
  Reading a configuration file line by line, whatever mixture of line endings it has.
  Two flags, kept by the caller between calls, remember which half of a two-character
  ending has been seen.
 */
module ConfigLines {
  import opened Sequences
  import opened Kernel

  const LF: byte := 10
  const CR: byte := 13

  //// One line

  /** Result 1 is a line, 2 the end of the file (with what stood unterminated before it), 0 an error. */
  datatype Line = Line(code: int, text: seq<byte>, cr: bool, lf: bool, rest: seq<byte>)

  /** The character is the second half of the ending that the flags remember. */
  predicate Eaten(c: byte, cr: bool, lf: bool) {
    (c == LF && cr) || (c == CR && lf)
  }

  /** What reading a line from a stream gives, when `text` has been read of it so far. */
  function NextLine(stream: seq<byte>, cr: bool, lf: bool, text: seq<byte>, buflen: nat): (r: Line)
    ensures 0 <= r.code <= 2 && (r.code == 1 ==> |r.rest| < |stream|)
    ensures r.code == 2 ==> r.rest == []
    ensures |r.rest| <= |stream|
    ensures !(cr && lf) ==> !(r.cr && r.lf)
  {
    if stream == [] then Line(2, text, cr, lf, [])
    else
      var c, rest := stream[0], stream[1..];
      if Eaten(c, cr, lf) then NextLine(rest, false, false, text, buflen)
      else if c == LF then Line(1, text, cr, true, rest)
      else if c == CR then Line(1, text, true, lf, rest)
      else if |text| + 1 >= buflen - 1 then Line(0, text + [c], false, false, rest)
      else NextLine(rest, false, false, text + [c], buflen)
  }

  method ReadChar(fd: Socket, tmp: array<byte>) returns (rc: int)
    requires tmp.Length == 1
    modifies fd`incoming, fd`readScript, tmp
    ensures -1 <= rc <= 1
    ensures rc == 1 ==> old(fd.incoming) == [tmp[0]] + fd.incoming
    ensures rc == 0 ==> old(fd.incoming) == fd.incoming == []
    ensures rc == -1 ==> Fault in old(fd.readScript)
    ensures |fd.readScript| <= |old(fd.readScript)| && forall e :: e in fd.readScript ==> e in old(fd.readScript)
  {
    var eintr;
    ghost var data;
    rc, eintr, data := fd.Read(tmp, 0, 1);
    while rc < 0 && eintr
      invariant -1 <= rc <= 1
      invariant rc == 1 ==> data == [tmp[0]]
      invariant rc <= 0 ==> data == []
      invariant rc == 0 ==> fd.incoming == []
      invariant old(fd.incoming) == data + fd.incoming
      invariant rc == -1 && !eintr ==> Fault in old(fd.readScript)
      invariant |fd.readScript| <= |old(fd.readScript)| && forall e :: e in fd.readScript ==> e in old(fd.readScript)
      decreases |fd.readScript|, eintr
    {
      rc, eintr, data := fd.Read(tmp, 0, 1);
    }
  }

  /** read_line: the buffer comes to hold the line and a terminator, and the stream and the flags move on. */
  method ReadLine(fd: Socket, buf: array<byte>, cr0: bool, lf0: bool)
    returns (rc: int, cr: bool, lf: bool, ghost text: seq<byte>)
    requires buf.Length >= 2
    modifies fd`incoming, fd`readScript, buf
    ensures |text| < buf.Length && buf[|text|] == 0 && buf[..|text|] == text
    ensures Faultless(old(fd.readScript)) ==>
      Line(rc, text, cr, lf, fd.incoming) == NextLine(old(fd.incoming), cr0, lf0, [], buf.Length)
    ensures rc != 0 ==> Line(rc, text, cr, lf, fd.incoming) == NextLine(old(fd.incoming), cr0, lf0, [], buf.Length)
    ensures |fd.readScript| <= |old(fd.readScript)|
  {
    var idx := 0;
    var tmp := new byte[1];
    cr, lf, text := cr0, lf0, [];
    buf[idx] := 0;
    while true
      invariant idx == |text| < buf.Length && buf[idx] == 0 && buf[..idx] == text
      invariant idx < buf.Length - 1
      invariant NextLine(fd.incoming, cr, lf, text, buf.Length) == NextLine(old(fd.incoming), cr0, lf0, [], buf.Length)
      invariant |fd.readScript| <= |old(fd.readScript)| && forall e :: e in fd.readScript ==> e in old(fd.readScript)
      decreases |fd.incoming|
    {
      rc := ReadChar(fd, tmp);
      if rc < 0 {
        return 0, cr, lf, text;
      }
      if rc == 0 {
        return 2, cr, lf, text;
      }
      var chr := tmp[0];
      if chr == LF && cr {
        cr, lf := false, false;
      } else if chr == CR && lf {
        cr, lf := false, false;
      } else if chr == LF {
        return 1, cr, true, text;
      } else if chr == CR {
        return 1, true, lf, text;
      } else {
        cr, lf := false, false;
        buf[idx] := chr;
        idx := idx + 1;
        buf[idx] := 0;
        text := text + [chr];
        if idx >= buf.Length - 1 {
          return 0, cr, lf, text;
        }
      }
    }
  }

  //// All lines of a file

  /** The lines that repeated calls return, the code that ends them, and the text that came with it. */
  datatype Reading = Reading(lines: seq<seq<byte>>, code: int, last: seq<byte>)

  function ReadAll(stream: seq<byte>, cr: bool, lf: bool, buflen: nat): Reading
    decreases |stream|
  {
    var r := NextLine(stream, cr, lf, [], buflen);
    if r.code != 1 then Reading([], r.code, r.text)
    else
      var more := ReadAll(r.rest, r.cr, r.lf, buflen);
      Reading([r.text] + more.lines, more.code, more.last)
  }

  predicate Plain(text: seq<byte>) {
    forall i :: 0 <= i < |text| ==> text[i] != LF && text[i] != CR
  }

  /** A line that the buffer has room for. */
  predicate Fits(text: seq<byte>, buflen: nat) {
    Plain(text) && |text| + 2 <= buflen
  }

  predicate IsEnding(e: seq<byte>) {
    e == [LF] || e == [CR] || e == [CR, LF] || e == [LF, CR]
  }

  type Ending = e: seq<byte> | IsEnding(e) witness [LF]

  /** The text of a file: lines, each with its own ending. */
  function Join(lines: seq<seq<byte>>, endings: seq<Ending>): seq<byte>
    requires |lines| == |endings|
  {
    if lines == [] then [] else lines[0] + (endings[0] + Join(lines[1..], endings[1..]))
  }

  /** The flags that a complete one-character ending leaves; a complete pair leaves none. */
  datatype Flags = Flags(cr: bool, lf: bool)

  const NO_FLAGS := Flags(false, false)

  function FlagOf(c: byte): Flags {
    Flags(c == CR, c == LF)
  }

  /** An empty line is lost when its one-character ending passes for the second half of the previous one. */
  predicate Lost(line: seq<byte>, ending: Ending, f: Flags) {
    line == [] && |ending| == 1 && Eaten(ending[0], f.cr, f.lf)
  }

  function After(line: seq<byte>, ending: Ending, f: Flags): Flags {
    if line == [] && Eaten(ending[0], f.cr, f.lf) then
      if |ending| == 1 then NO_FLAGS else FlagOf(ending[1])
    else if |ending| == 1 then FlagOf(ending[0])
    else NO_FLAGS
  }

  /** No empty line is lost. A caller can follow this over the endings alone, without reading. */
  predicate Unambiguous(lines: seq<seq<byte>>, endings: seq<Ending>, f: Flags)
    requires |lines| == |endings|
  {
    lines == [] || (
      && !Lost(lines[0], endings[0], f)
      && Unambiguous(lines[1..], endings[1..], After(lines[0], endings[0], f)))
  }

  /** Plain text is taken as it is and clears the flags. */
  lemma {:induction false} TakesPlainText(line: seq<byte>, tail: seq<byte>, cr: bool, lf: bool, text: seq<byte>, buflen: nat)
    requires Plain(line) && line != [] && |text| + |line| + 2 <= buflen
    ensures NextLine(line + tail, cr, lf, text, buflen) == NextLine(tail, false, false, text + line, buflen)
  {
    assert (line + tail)[1..] == line[1..] + tail;
    if |line| == 1 {
      assert line[1..] + tail == tail && text + [line[0]] == text + line;
    } else {
      TakesPlainText(line[1..], tail, false, false, text + [line[0]], buflen);
      assert text + [line[0]] + line[1..] == text + line;
    }
  }

  /** One line and its ending: read as they stand, or lost. */
  lemma ReadsOne(line: seq<byte>, ending: Ending, tail: seq<byte>, f: Flags, buflen: nat)
    requires Fits(line, buflen) && !(f.cr && f.lf)
    ensures var more := ReadAll(tail, After(line, ending, f).cr, After(line, ending, f).lf, buflen);
      ReadAll(line + (ending + tail), f.cr, f.lf, buflen) ==
      if Lost(line, ending, f) then more else Reading([line] + more.lines, more.code, more.last)
  {
    var stream := ending + tail;
    if line != [] {
      TakesPlainText(line, stream, f.cr, f.lf, [], buflen);
      assert [] + line == line;
      EndsLine(line, ending, tail, NO_FLAGS, buflen);
    } else {
      assert line + stream == stream;
      EndsLine(line, ending, tail, f, buflen);
    }
  }

  /** The ending alone, with the line read already. */
  lemma EndsLine(line: seq<byte>, ending: Ending, tail: seq<byte>, f: Flags, buflen: nat)
    requires !(f.cr && f.lf) && (line != [] ==> f == NO_FLAGS)
    ensures var r := NextLine(ending + tail, f.cr, f.lf, line, buflen);
      var more := ReadAll(tail, After(line, ending, f).cr, After(line, ending, f).lf, buflen);
      if Lost(line, ending, f) then r == NextLine(tail, false, false, [], buflen)
      else r.code == 1 && r.text == line && ReadAll(r.rest, r.cr, r.lf, buflen) == more
  {
    var stream := ending + tail;
    assert stream[1..] == ending[1..] + tail;
    if |ending| == 1 {
      assert stream[1..] == tail;
    } else {
      assert stream[1..][1..] == tail;
    }
  }

  /** Fewer lines than endings come back, unless nothing is lost. */
  lemma {:induction false} LinesAreThoseWritten(lines: seq<seq<byte>>, endings: seq<Ending>, last: seq<byte>, f: Flags, buflen: nat)
    requires |lines| == |endings| && !(f.cr && f.lf) && Fits(last, buflen) && forall i :: 0 <= i < |lines| ==> Fits(lines[i], buflen)
    ensures var r := ReadAll(Join(lines, endings) + last, f.cr, f.lf, buflen);
      && r.code == 2 && r.last == last && |r.lines| <= |lines|
      && (Unambiguous(lines, endings, f) <==> |r.lines| == |lines|)
      && (Unambiguous(lines, endings, f) ==> r.lines == lines)
  {
    if lines == [] {
      assert Join(lines, endings) + last == last;
      if last != [] {
        TakesPlainText(last, [], f.cr, f.lf, [], buflen);
        assert last + [] == last && [] + last == last;
      }
    } else {
      var line, ending, tail := lines[0], endings[0], Join(lines[1..], endings[1..]) + last;
      LinesAreThoseWritten(lines[1..], endings[1..], last, After(line, ending, f), buflen);
      ReadsOne(line, ending, tail, f, buflen);
      JoinSplits(lines, endings, last);
      OneMoreLine(lines, endings, f, ReadAll(tail, After(line, ending, f).cr, After(line, ending, f).lf, buflen).lines);
    }
  }

  lemma JoinSplits(lines: seq<seq<byte>>, endings: seq<Ending>, last: seq<byte>)
    requires |lines| == |endings| > 0
    ensures Join(lines, endings) + last == lines[0] + (endings[0] + (Join(lines[1..], endings[1..]) + last))
  {
    Regroup(lines[0], endings[0], Join(lines[1..], endings[1..]), last);
  }

  /** Counting: a line lost is never made up for. */
  lemma OneMoreLine(lines: seq<seq<byte>>, endings: seq<Ending>, f: Flags, more: seq<seq<byte>>)
    requires |lines| == |endings| > 0 && |more| <= |lines| - 1
    requires var g := After(lines[0], endings[0], f);
      && (Unambiguous(lines[1..], endings[1..], g) <==> |more| == |lines| - 1)
      && (Unambiguous(lines[1..], endings[1..], g) ==> more == lines[1..])
    ensures var read := if Lost(lines[0], endings[0], f) then more else [lines[0]] + more;
      && |read| <= |lines|
      && (Unambiguous(lines, endings, f) <==> |read| == |lines|)
      && (Unambiguous(lines, endings, f) ==> read == lines)
  {
    assert [lines[0]] + lines[1..] == lines;
  }

  //// Main results

  /**
    Reading a file back from its first byte gives exactly its lines and then the end of the
    file, if and only if no empty line is lost; what stands unterminated at the end
    comes with the end of the file, where the callers drop it.
   */
  lemma ReadLineRoundTrip(lines: seq<seq<byte>>, endings: seq<Ending>, last: seq<byte>, buflen: nat)
    requires |lines| == |endings| && Fits(last, buflen) && forall i :: 0 <= i < |lines| ==> Fits(lines[i], buflen)
    ensures ReadAll(Join(lines, endings) + last, false, false, buflen) == Reading(lines, 2, last) <==>
      Unambiguous(lines, endings, NO_FLAGS)
  {
    LinesAreThoseWritten(lines, endings, last, NO_FLAGS, buflen);
  }

  /** One uniform ending is enough, from the flags that such an ending leaves. */
  lemma {:induction false} UniformIsUnambiguous(lines: seq<seq<byte>>, endings: seq<Ending>, e: Ending, f: Flags)
    requires |lines| == |endings| && forall i :: 0 <= i < |endings| ==> endings[i] == e
    requires f == NO_FLAGS || (|e| == 1 && f == FlagOf(e[0]))
    ensures Unambiguous(lines, endings, f)
  {
    if lines != [] {
      UniformIsUnambiguous(lines[1..], endings[1..], e, After(lines[0], endings[0], f));
    }
  }

  /** So is any mixture when no line is empty. */
  lemma {:induction false} NonEmptyIsUnambiguous(lines: seq<seq<byte>>, endings: seq<Ending>, f: Flags)
    requires |lines| == |endings| && forall i :: 0 <= i < |lines| ==> lines[i] != []
    ensures Unambiguous(lines, endings, f)
  {
    if lines != [] {
      NonEmptyIsUnambiguous(lines[1..], endings[1..], After(lines[0], endings[0], f));
    }
  }

  /** A mixture with an empty line can lose it: LF, then CR on a line of its own, is one ending. */
  lemma EmptyLineLost(buflen: nat)
    requires buflen >= 2
    ensures ReadAll([LF, CR], false, false, buflen) == Reading([[]], 2, [])
  {
    assert [LF, CR][1..] == [CR] && [CR][1..] == [];
    assert NextLine([CR], false, true, [], buflen) == Line(2, [], false, false, []);
    assert ReadAll([CR], false, true, buflen) == Reading([], 2, []);
  }

  /** A line that fills the buffer is an error, not a truncated line. */
  lemma TooLongIsAnError(line: seq<byte>, tail: seq<byte>, cr: bool, lf: bool, buflen: nat)
    requires Plain(line) && |line| == buflen - 1 && buflen >= 2
    ensures NextLine(line + tail, cr, lf, [], buflen).code == 0
  {
    var most, c := line[..|line| - 1], line[|line| - 1];
    var rest := [c] + tail;
    assert line + tail == most + rest;
    if most != [] {
      TakesPlainText(most, rest, cr, lf, [], buflen);
    } else {
      assert line + tail == rest;
    }
    assert rest[0] == c;
  }
}
