/** The first pass over a configuration line: quotes, escapes, comments and runs of white space. */
module ConfigNormaliser {
  import opened Kernel

  const TAB: byte := 9
  const SPACE: byte := 32
  const DOUBLE_QUOTE: byte := 34
  const HASH: byte := 35
  const SINGLE_QUOTE: byte := 39
  const BACKSLASH: byte := 92

  //// The pass as a fold over the characters

  datatype State = State(output: seq<byte>, escape: bool, needASpace: bool, quoteSingle: bool, quoteDouble: bool, comment: bool) {
    function Emit(c: byte): State {
      this.(output := output + [c])
    }

    /** A pending separator goes out before the next thing that is not one. */
    function CheckForSpace(): State {
      if needASpace then Emit(SPACE).(needASpace := false) else this
    }

    function Step(c: byte): State {
      if comment then this
      else if c == BACKSLASH && !escape then this.(escape := true)
      else if escape then CheckForSpace().Emit(c).(escape := false)
      else if (quoteSingle && c == SINGLE_QUOTE) || (quoteDouble && c == DOUBLE_QUOTE) then
        Emit(c).(quoteSingle := false, quoteDouble := false)
      else if quoteSingle || quoteDouble then Emit(c)
      else if c == SINGLE_QUOTE then CheckForSpace().Emit(c).(quoteSingle := true)
      else if c == DOUBLE_QUOTE then CheckForSpace().Emit(c).(quoteDouble := true)
      else if c == HASH then this.(comment := true)
      else if output == [] && (c == SPACE || c == TAB) then this
      else if c == SPACE || c == TAB then this.(needASpace := true)
      else CheckForSpace().Emit(c)
    }

    predicate Accepted() {
      !quoteSingle && !quoteDouble
    }
  }

  const START := State([], false, false, false, false, false)

  function Run(line: seq<byte>): State {
    if line == [] then START else Run(line[..|line| - 1]).Step(line[|line| - 1])
  }

  lemma RunExtends(line: seq<byte>, c: byte)
    ensures Run(line + [c]) == Run(line).Step(c)
  {
    assert (line + [c])[..|line|] == line;
  }

  /** The output and what is still owed to it never exceed what has been read. */
  lemma {:induction false} NeverLonger(line: seq<byte>)
    ensures var s := Run(line);
      |s.output| + (if s.needASpace then 1 else 0) + (if s.escape then 1 else 0) <= |line|
  {
    if line != [] {
      NeverLonger(line[..|line| - 1]);
    }
  }

  /** A line with a backslash in it loses at least one character. */
  lemma {:induction false} EscapesShorten(line: seq<byte>)
    requires BACKSLASH in line
    ensures var s := Run(line);
      |s.output| + (if s.needASpace then 1 else 0) < |line|
  {
    var before := line[..|line| - 1];
    if BACKSLASH in before {
      EscapesShorten(before);
    } else {
      NeverLonger(before);
    }
  }

  /** Apart from spaces, every character of the output comes from the line. */
  lemma {:induction false} AddsOnlySpaces(line: seq<byte>, c: byte)
    requires c !in line && c != SPACE
    ensures c !in Run(line).output
  {
    if line != [] {
      AddsOnlySpaces(line[..|line| - 1], c);
    }
  }

  lemma {:induction false} CommentIsTheEnd(line: seq<byte>, k: nat)
    requires k <= |line| && Run(line[..k]).comment
    ensures Run(line) == Run(line[..k])
  {
    if k < |line| {
      assert line[..|line| - 1][..k] == line[..k];
      CommentIsTheEnd(line[..|line| - 1], k);
    } else {
      assert line[..k] == line;
    }
  }

  /** The loop over the two buffers. An output buffer as long as the input's string is long enough. */
  method RemoveExtraSpacesAndComments(inbuf: array<byte>, outbuf: array<byte>, ghost line: seq<byte>) returns (rc: int)
    requires inbuf != outbuf && |line| < inbuf.Length && inbuf[..|line|] == line && inbuf[|line|] == 0 && 0 !in line
    requires |line| < outbuf.Length
    modifies outbuf
    ensures rc == if Run(line).Accepted() then 1 else 0
    ensures var n := |Run(line).output|; n < outbuf.Length && outbuf[..n] == Run(line).output && outbuf[n] == 0
  {
    var inptr, outptr := 0, 0;
    var escape, comment, needASpace, quoteSingle, quoteDouble := false, false, false, false, false;
    while !comment && inbuf[inptr] != 0
      invariant 0 <= inptr <= |line| && 0 <= outptr <= outbuf.Length
      invariant Run(line[..inptr]) == State(outbuf[..outptr], escape, needASpace, quoteSingle, quoteDouble, comment)
      invariant inbuf[..] == old(inbuf[..])
      decreases |line| - inptr
    {
      assert inbuf[inptr] == line[inptr];
      RunExtends(line[..inptr], inbuf[inptr]);
      assert line[..inptr] + [inbuf[inptr]] == line[..inptr + 1];
      NeverLonger(line[..inptr]);
      NeverLonger(line[..inptr + 1]);
      outptr, escape, needASpace, quoteSingle, quoteDouble, comment :=
        OneCharacter(outbuf, outptr, inbuf[inptr], escape, needASpace, quoteSingle, quoteDouble);
      inptr := inptr + 1;
    }
    if comment {
      CommentIsTheEnd(line, inptr);
    } else {
      assert line[..inptr] == line;
    }
    NeverLonger(line);
    ghost var output := outbuf[..outptr];
    outbuf[outptr] := 0;
    assert outbuf[..outptr] == output;
    rc := if quoteSingle || quoteDouble then 0 else 1;
  }

  /** The body of the loop. */
  method OneCharacter(outbuf: array<byte>, outptr0: nat, c: byte, escape0: bool, needASpace0: bool, quoteSingle0: bool, quoteDouble0: bool)
    returns (outptr: nat, escape: bool, needASpace: bool, quoteSingle: bool, quoteDouble: bool, comment: bool)
    requires outptr0 <= outbuf.Length
    requires |State(outbuf[..outptr0], escape0, needASpace0, quoteSingle0, quoteDouble0, false).Step(c).output| <= outbuf.Length
    modifies outbuf
    ensures outptr <= outbuf.Length
    ensures State(outbuf[..outptr], escape, needASpace, quoteSingle, quoteDouble, comment) ==
      State(old(outbuf[..outptr0]), escape0, needASpace0, quoteSingle0, quoteDouble0, false).Step(c)
  {
    outptr, escape, needASpace, quoteSingle, quoteDouble, comment :=
      outptr0, escape0, needASpace0, quoteSingle0, quoteDouble0, false;
    if c == BACKSLASH && !escape {
      escape := true;
    } else if escape {
      outptr := CheckForSpaceAndPut(outbuf, outptr, needASpace, c);
      needASpace, escape := false, false;
    } else if (quoteSingle && c == SINGLE_QUOTE) || (quoteDouble && c == DOUBLE_QUOTE) {
      quoteSingle, quoteDouble := false, false;
      outptr := Put(outbuf, outptr, c);
    } else if quoteSingle || quoteDouble {
      outptr := Put(outbuf, outptr, c);
    } else if c == SINGLE_QUOTE {
      outptr := CheckForSpaceAndPut(outbuf, outptr, needASpace, c);
      needASpace, quoteSingle := false, true;
    } else if c == DOUBLE_QUOTE {
      outptr := CheckForSpaceAndPut(outbuf, outptr, needASpace, c);
      needASpace, quoteDouble := false, true;
    } else if c == HASH {
      comment := true;
    } else if outptr == 0 && (c == SPACE || c == TAB) {
      // leading white space
    } else if c == SPACE || c == TAB {
      needASpace := true;
    } else {
      outptr := CheckForSpaceAndPut(outbuf, outptr, needASpace, c);
      needASpace := false;
    }
  }

  method CheckForSpaceAndPut(outbuf: array<byte>, outptr: nat, needASpace: bool, c: byte) returns (next: nat)
    requires outptr + (if needASpace then 1 else 0) < outbuf.Length
    modifies outbuf
    ensures next == outptr + if needASpace then 2 else 1
    ensures outbuf[..next] == old(outbuf[..outptr]) + (if needASpace then [SPACE] else []) + [c]
  {
    next := outptr;
    if needASpace {
      next := Put(outbuf, next, SPACE);
    }
    next := Put(outbuf, next, c);
  }

  method Put(outbuf: array<byte>, outptr: nat, c: byte) returns (next: nat)
    requires outptr < outbuf.Length
    modifies outbuf
    ensures next == outptr + 1 && outbuf[..next] == old(outbuf[..outptr]) + [c]
  {
    outbuf[outptr] := c;
    next := outptr + 1;
  }

  //// The normal form

  datatype Mode = Open | InSingle | InDouble

  function NextMode(m: Mode, c: byte): Mode {
    match m
    case Open => if c == SINGLE_QUOTE then InSingle else if c == DOUBLE_QUOTE then InDouble else Open
    case InSingle => if c == SINGLE_QUOTE then Open else InSingle
    case InDouble => if c == DOUBLE_QUOTE then Open else InDouble
  }

  /** Which quotes the end of a text without escapes stands in. */
  function ModeAt(text: seq<byte>): Mode {
    if text == [] then Open else NextMode(ModeAt(text[..|text| - 1]), text[|text| - 1])
  }

  predicate EndsInGap(text: seq<byte>) {
    text != [] && text[|text| - 1] == SPACE && ModeAt(text[..|text| - 1]) == Open
  }

  /** Outside quotes: no comment, no tab, and a space only between two other things. */
  predicate Spaced(text: seq<byte>) {
    text == [] || (
      var before, c := text[..|text| - 1], text[|text| - 1];
      && Spaced(before)
      && (ModeAt(before) == Open ==> c != HASH && c != TAB && (c == SPACE ==> before != [] && !EndsInGap(before))))
  }

  predicate Canonical(text: seq<byte>) {
    Spaced(text) && !EndsInGap(text)
  }

  predicate InMode(s: State, m: Mode) {
    s.quoteSingle == m.InSingle? && s.quoteDouble == m.InDouble?
  }

  predicate IsBlank(c: byte) {
    c == SPACE || c == TAB
  }

  /** Text in normal form stays so when a character is added, outside quotes one that is no blank and no '#'. */
  lemma Emitted(text: seq<byte>, c: byte)
    requires Canonical(text) && (ModeAt(text) == Open ==> c != HASH && !IsBlank(c))
    ensures Canonical(text + [c]) && ModeAt(text + [c]) == NextMode(ModeAt(text), c)
  {
    assert (text + [c])[..|text|] == text;
  }

  /** So it does when a single space is put before that character. */
  lemma SpacedEmitted(text: seq<byte>, c: byte)
    requires Canonical(text) && text != [] && ModeAt(text) == Open && c != HASH && !IsBlank(c)
    ensures Canonical(text + [SPACE] + [c]) && ModeAt(text + [SPACE] + [c]) == NextMode(Open, c)
  {
    assert (text + [SPACE])[..|text|] == text;
    assert (text + [SPACE] + [c])[..|text| + 1] == text + [SPACE];
  }

  /** What holds of the pass over any line without escapes. */
  predicate Normalising(s: State) {
    && Canonical(s.output)
    && InMode(s, ModeAt(s.output)) && !s.escape
    && (s.needASpace ==> s.output != [] && s.Accepted())
  }

  lemma KeepsNormalising(s: State, c: byte)
    requires Normalising(s) && c != BACKSLASH
    ensures Normalising(s.Step(c))
  {
    var m := ModeAt(s.output);
    if s.comment || (m == Open && (c == HASH || IsBlank(c))) {
    } else if s.needASpace {
      SpacedEmitted(s.output, c);
    } else {
      Emitted(s.output, c);
    }
  }

  /** Whatever the line, without escapes its output is in normal form. */
  lemma {:induction false} OutputIsCanonical(line: seq<byte>)
    requires BACKSLASH !in line
    ensures Normalising(Run(line))
  {
    if line != [] {
      OutputIsCanonical(line[..|line| - 1]);
      KeepsNormalising(Run(line[..|line| - 1]), line[|line| - 1]);
    }
  }

  /** The pass over a text in normal form has put it all out, but for a space that waits for what follows it. */
  predicate PassedThrough(s: State, text: seq<byte>) {
    && InMode(s, ModeAt(text)) && !s.escape && !s.comment && s.needASpace == EndsInGap(text)
    && s.output == (if EndsInGap(text) then text[..|text| - 1] else text)
    && (EndsInGap(text) ==> s.output != [])
  }

  lemma PassesOneMore(s: State, text: seq<byte>, c: byte)
    requires PassedThrough(s, text) && Spaced(text + [c]) && c != BACKSLASH
    ensures PassedThrough(s.Step(c), text + [c])
  {
    assert (text + [c])[..|text|] == text;
    if EndsInGap(text) {
      assert s.output + [SPACE] == text;
    }
  }

  lemma {:induction false} SpacedPassesThrough(text: seq<byte>)
    requires Spaced(text) && BACKSLASH !in text
    ensures PassedThrough(Run(text), text)
  {
    if text != [] {
      var before, c := text[..|text| - 1], text[|text| - 1];
      SpacedPassesThrough(before);
      assert before + [c] == text;
      PassesOneMore(Run(before), before, c);
    }
  }

  //// Main results

  /** The lines that the pass leaves alone are exactly those in normal form that have no escapes. */
  lemma FixedIffCanonical(line: seq<byte>)
    ensures Run(line).output == line <==> BACKSLASH !in line && Canonical(line)
  {
    if BACKSLASH in line {
      EscapesShorten(line);
    } else {
      OutputIsCanonical(line);
      if Canonical(line) {
        SpacedPassesThrough(line);
      }
    }
  }

  /**
    Normalising twice is normalising once exactly when the first time leaves no backslash and a
    normal form, as it does for every line without escapes, which is then accepted
    exactly when it was the first time.
   */
  lemma NormaliserIsIdempotent(line: seq<byte>)
    ensures var once := Run(line).output;
      Run(once).output == once <==> BACKSLASH !in once && Canonical(once)
    ensures BACKSLASH !in line ==> Run(Run(line).output).output == Run(line).output
    ensures BACKSLASH !in line ==> Run(Run(line).output).Accepted() == Run(line).Accepted()
  {
    FixedIffCanonical(Run(line).output);
    if BACKSLASH !in line {
      OutputIsCanonical(line);
      AddsOnlySpaces(line, BACKSLASH);
      SpacedPassesThrough(Run(line).output);
    }
  }

  /** With escapes it is not: an escaped '#' becomes a comment the second time. */
  lemma EscapesAreNotIdempotent()
    ensures Run([BACKSLASH, HASH]).output == [HASH] && Run([HASH]).output == []
  {
    var b: seq<byte> := [BACKSLASH];
    assert [BACKSLASH, HASH][..1] == b && b[..0] == [] && [HASH][..0] == [];
    assert Run(b) == START.(escape := true);
  }

  predicate IsSpecial(c: byte) {
    c == SPACE || c == TAB || c == SINGLE_QUOTE || c == DOUBLE_QUOTE || c == HASH || c == BACKSLASH
  }

  function EscapedChar(c: byte): seq<byte> {
    if IsSpecial(c) then [BACKSLASH, c] else [c]
  }

  function Escaped(text: seq<byte>): seq<byte> {
    if text == [] then [] else Escaped(text[..|text| - 1]) + EscapedChar(text[|text| - 1])
  }

  /** One character, written as Escaped writes it, is one more character of output. */
  lemma WritesOne(written: seq<byte>, text: seq<byte>, c: byte)
    requires Run(written) == START.(output := text)
    ensures Run(written + EscapedChar(c)) == START.(output := text + [c])
  {
    if IsSpecial(c) {
      RunExtends(written, BACKSLASH);
      RunExtends(written + [BACKSLASH], c);
      assert written + [BACKSLASH] + [c] == written + [BACKSLASH, c];
    } else {
      RunExtends(written, c);
    }
  }

  lemma EscapedGrows(before: seq<byte>, c: byte)
    ensures Escaped(before + [c]) == Escaped(before) + EscapedChar(c)
  {
    assert (before + [c])[..|before|] == before;
  }

  predicate WritesBack(text: seq<byte>) {
    Run(Escaped(text)) == START.(output := text)
  }

  lemma EscapesOneMore(before: seq<byte>, c: byte)
    requires WritesBack(before)
    ensures WritesBack(before + [c])
  {
    EscapedGrows(before, c);
    WritesOne(Escaped(before), before, c);
  }

  /** A property of the empty text that adding a character keeps. */
  lemma {:induction false} ByCharacters(p: seq<byte> -> bool, text: seq<byte>)
    requires p([]) && forall before, c :: p(before) ==> p(before + [c])
    ensures p(text)
  {
    if text != [] {
      var before := text[..|text| - 1];
      ByCharacters(p, before);
      assert before + [text[|text| - 1]] == text;
    }
  }

  /** Any text can be written: escaping its special characters and normalising gives it back, and it is accepted. */
  lemma EscapeRoundTrip(text: seq<byte>)
    ensures Run(Escaped(text)).output == text && Run(Escaped(text)).Accepted()
    ensures Run(Escaped(text)) == START.(output := text)
  {
    forall before, c | WritesBack(before) ensures WritesBack(before + [c]) {
      EscapesOneMore(before, c);
    }
    ByCharacters(WritesBack, text);
  }
}
