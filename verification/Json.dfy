/** The objects, strings and integers of JSON (RFC 8259), how they are written, and how they are read. */
module Json {
  import opened Sequences

  datatype Json = Str(text: string) | Num(value: int) | Obj(members: seq<Member>)
  datatype Member = Member(name: string, value: Json)

  //// Writing

  function Digit(n: nat): (c: char)
    requires n < 10
    ensures IsDigit(c) && DigitValue(c) == n
  {
    '0' + n as char
  }

  function Digits(n: nat): string {
    if n < 10 then [Digit(n)] else Digits(n / 10) + [Digit(n % 10)]
  }

  function Quoted(text: string): string {
    "\"" + (text + "\"")
  }

  function Print(j: Json): string
    decreases j
  {
    match j
    case Str(text) => Quoted(text)
    case Num(n) => if n < 0 then "-" + Digits(-n) else Digits(n)
    case Obj(members) => "{" + (PrintMembers(members) + "}")
  }

  function PrintMember(m: Member): string
    decreases m
  {
    Quoted(m.name) + (":" + Print(m.value))
  }

  function PrintMembers(members: seq<Member>): string
    decreases members
  {
    if members == [] then ""
    else if |members| == 1 then PrintMember(members[0])
    else PrintMember(members[0]) + ("," + PrintMembers(members[1..]))
  }

  //// Reading, by the grammar of sections 4, 6 and 7, without white space and escapes

  predicate IsDigit(c: char) {
    '0' <= c <= '9'
  }

  function DigitValue(c: char): nat
    requires IsDigit(c)
  {
    (c - '0') as nat
  }

  /** A character that may stand in a string as it is. */
  predicate Unescaped(c: char) {
    c >= ' ' && c != '"' && c != '\\'
  }

  datatype Read<+T> = Failed | Done(value: T, rest: string)

  function ReadString(s: string): (r: Read<string>)
    ensures r.Done? ==> |r.rest| < |s| && forall i :: 0 <= i < |r.value| ==> Unescaped(r.value[i])
  {
    if s == "" then Failed
    else if s[0] == '"' then Done("", s[1..])
    else if !Unescaped(s[0]) then Failed
    else
      match ReadString(s[1..])
      case Failed => Failed
      case Done(text, rest) => Done([s[0]] + text, rest)
  }

  /** Digits are taken as far as they go. */
  function ReadDigits(s: string, value: nat): (r: Read<nat>)
    ensures r.Done? && |r.rest| <= |s|
  {
    if s == "" || !IsDigit(s[0]) then Done(value, s)
    else ReadDigits(s[1..], 10 * value + DigitValue(s[0]))
  }

  /** No sign but a minus, and no leading zero. */
  function ReadNatural(s: string): (r: Read<nat>)
    ensures r.Done? ==> |r.rest| < |s|
  {
    if s == "" || !IsDigit(s[0]) then Failed
    else if s[0] == '0' then Done(0, s[1..])
    else ReadDigits(s[1..], DigitValue(s[0]))
  }

  function ReadValue(s: string): (r: Read<Json>)
    ensures r.Done? ==> |r.rest| < |s|
    decreases |s|, 0
  {
    if s == "" then Failed
    else if s[0] == '"' then
      match ReadString(s[1..])
      case Failed => Failed
      case Done(text, rest) => Done(Str(text), rest)
    else if s[0] == '-' then
      match ReadNatural(s[1..])
      case Failed => Failed
      case Done(n, rest) => Done(Num(-(n as int)), rest)
    else if s[0] == '{' then
      if |s| > 1 && s[1] == '}' then Done(Obj([]), s[2..])
      else
        match ReadMembers(s[1..])
        case Failed => Failed
        case Done(members, rest) => Done(Obj(members), rest)
    else
      match ReadNatural(s)
      case Failed => Failed
      case Done(n, rest) => Done(Num(n), rest)
  }

  /** One or more members, separated by commas, up to the closing brace. */
  function ReadMembers(s: string): (r: Read<seq<Member>>)
    ensures r.Done? ==> |r.rest| < |s| && r.value != []
    decreases |s|, 1
  {
    match ReadMember(s)
    case Failed => Failed
    case Done(m, rest) =>
      if rest == "" then Failed
      else if rest[0] == '}' then Done([m], rest[1..])
      else if rest[0] != ',' then Failed
      else
        match ReadMembers(rest[1..])
        case Failed => Failed
        case Done(members, end) => Done([m] + members, end)
  }

  function ReadMember(s: string): (r: Read<Member>)
    ensures r.Done? ==> |r.rest| < |s|
    decreases |s|, 0
  {
    if s == "" || s[0] != '"' then Failed
    else
      match ReadString(s[1..])
      case Failed => Failed
      case Done(name, rest) =>
        if rest == "" || rest[0] != ':' then Failed
        else
          match ReadValue(rest[1..])
          case Failed => Failed
          case Done(value, end) => Done(Member(name, value), end)
  }

  //// Which trees survive

  predicate PlainText(text: string) {
    forall i :: 0 <= i < |text| ==> Unescaped(text[i])
  }

  /** None of the strings and names needs escaping. */
  predicate Plain(j: Json)
    decreases j
  {
    match j
    case Str(text) => PlainText(text)
    case Num(n) => true
    case Obj(members) => PlainMembers(members)
  }

  predicate PlainMembers(members: seq<Member>)
    decreases members
  {
    members == [] || (PlainText(members[0].name) && Plain(members[0].value) && PlainMembers(members[1..]))
  }

  lemma {:induction false} ReadsString(text: string, rest: string)
    requires PlainText(text)
    ensures ReadString(text + ("\"" + rest)) == Done(text, rest)
  {
    var s := text + ("\"" + rest);
    if text == "" {
      assert s == "\"" + rest && s[1..] == rest;
    } else {
      ReadsString(text[1..], rest);
      assert s[0] == text[0] && s[1..] == text[1..] + ("\"" + rest);
      assert [text[0]] + text[1..] == text;
    }
  }

  predicate StopsNumber(rest: string) {
    rest == "" || !IsDigit(rest[0])
  }

  function Power(n: nat): nat {
    if n == 0 then 1 else 10 * Power(n - 1)
  }

  /** Reading the digits of n one by one, after a value, is reading its last digit last. */
  lemma {:induction false} ReadsDigits(n: nat, value: nat, rest: string)
    requires StopsNumber(rest)
    ensures ReadDigits(Digits(n) + rest, value) == Done(value * Power(|Digits(n)|) + n, rest)
  {
    ReadsDigitsThen(n, value, rest);
    var d := ReadDigits(rest, value * Power(|Digits(n)|) + n);
  }

  lemma {:induction false} ReadsDigitsThen(n: nat, value: nat, rest: string)
    ensures ReadDigits(Digits(n) + rest, value) == ReadDigits(rest, value * Power(|Digits(n)|) + n)
    decreases n
  {
    if n < 10 {
      assert (Digits(n) + rest)[1..] == rest;
      assert Power(1) == 10 * Power(0);
    } else {
      var last := [Digit(n % 10)] + rest;
      ReadsDigitsThen(n / 10, value, last);
      assert Digits(n) + rest == Digits(n / 10) + last;
      assert last[1..] == rest;
      OneMoreDigit(value, Power(|Digits(n / 10)|), n);
    }
  }

  lemma OneMoreDigit(value: nat, p: nat, n: nat)
    ensures 10 * (value * p + n / 10) + n % 10 == value * (10 * p) + n
  {
    assert value * (10 * p) == 10 * (value * p);
  }

  lemma {:induction false} StartsWithItsFirstDigit(n: nat)
    ensures Digits(n) != "" && IsDigit(Digits(n)[0]) && (Digits(n)[0] == '0' ==> n == 0)
    decreases n
  {
    if n >= 10 {
      StartsWithItsFirstDigit(n / 10);
    }
  }

  lemma ReadsNatural(n: nat, rest: string)
    requires StopsNumber(rest)
    ensures ReadNatural(Digits(n) + rest) == Done(n, rest)
  {
    StartsWithItsFirstDigit(n);
    var s := Digits(n) + rest;
    if n == 0 {
      assert s[1..] == rest;
    } else {
      ReadsDigits(n, 0, rest);
      assert ReadDigits(s, 0) == ReadDigits(s[1..], DigitValue(s[0]));
    }
  }

  lemma ReadsNumber(n: int, rest: string)
    requires StopsNumber(rest)
    ensures ReadValue(Print(Num(n)) + rest) == Done(Num(n), rest)
  {
    if n < 0 {
      ReadsNegative(-n, rest);
    } else {
      StartsWithItsFirstDigit(n);
      ReadsNatural(n, rest);
    }
  }

  lemma ReadsNegative(n: nat, rest: string)
    requires StopsNumber(rest)
    ensures ReadValue("-" + Digits(n) + rest) == Done(Num(-(n as int)), rest)
  {
    var unsigned := Digits(n) + rest;
    ReadsNatural(n, rest);
    Associative("-", Digits(n), rest);
    assert ("-" + unsigned)[1..] == unsigned;
  }

  lemma {:induction false} ReadsWhatWasPrinted(j: Json, rest: string)
    requires Plain(j) && StopsNumber(rest)
    ensures ReadValue(Print(j) + rest) == Done(j, rest)
    decreases j, 1
  {
    match j
    case Str(text) =>
      var s := Print(j) + rest;
      ReadsString(text, rest);
      assert s[0] == '"' && s[1..] == text + ("\"" + rest);
    case Num(n) =>
      ReadsNumber(n, rest);
    case Obj(members) =>
      ReadsObject(j, rest);
  }

  lemma ReadsEmptyObject(rest: string)
    ensures ReadValue(Print(Obj([])) + rest) == Done(Obj([]), rest)
  {
    var s := ['{', '}'] + rest;
    assert Print(Obj([])) == ['{', '}'];
    assert s[2..] == rest;
  }

  lemma {:induction false} ReadsObject(j: Json, rest: string)
    requires j.Obj? && PlainMembers(j.members) && StopsNumber(rest)
    ensures ReadValue(Print(j) + rest) == Done(j, rest)
    decreases j, 0
  {
    var s, members := Print(j) + rest, j.members;
    if members == [] {
      ReadsEmptyObject(rest);
    } else {
      ReadsMembers(members, rest);
      StartsWithAQuote(members);
      assert s[0] == '{' && s[1..] == PrintMembers(members) + ("}" + rest);
      assert s[1] == PrintMembers(members)[0];
    }
  }

  lemma {:induction false} ReadsMember(m: Member, rest: string)
    requires PlainText(m.name) && Plain(m.value) && StopsNumber(rest)
    ensures ReadMember(PrintMember(m) + rest) == Done(m, rest)
    decreases m
  {
    ReadsWhatWasPrinted(m.value, rest);
    ReadsNameThen(m, Print(m.value) + rest);
    assert PrintMember(m) + rest == Quoted(m.name) + (":" + (Print(m.value) + rest));
  }

  lemma ReadsNameThen(m: Member, tail: string)
    requires PlainText(m.name)
    ensures var s := Quoted(m.name) + (":" + tail);
      ReadMember(s) == if ReadValue(tail).Done? then Done(Member(m.name, ReadValue(tail).value), ReadValue(tail).rest) else Failed
  {
    var s, colon := Quoted(m.name) + (":" + tail), ":" + tail;
    ReadsString(m.name, colon);
    assert s[0] == '"' && s[1..] == m.name + ("\"" + colon);
    assert colon[1..] == tail;
  }

  lemma StartsWithAQuote(members: seq<Member>)
    requires members != []
    ensures PrintMembers(members) != "" && PrintMembers(members)[0] == '"'
  {
    assert PrintMember(members[0])[0] == '"';
  }

  lemma {:induction false} ReadsMembers(members: seq<Member>, rest: string)
    requires members != [] && PlainMembers(members)
    ensures ReadMembers(PrintMembers(members) + ("}" + rest)) == Done(members, rest)
    decreases members
  {
    var m, end := members[0], "}" + rest;
    if |members| == 1 {
      ReadsMember(m, end);
      EndsAfter(m, end);
      assert [m] == members && end[1..] == rest;
    } else {
      var later := PrintMembers(members[1..]) + end;
      ReadsMembers(members[1..], rest);
      ReadsMember(m, "," + later);
      ContinuesAfter(m, later);
      PrintsContinued(members, end);
      assert [m] + members[1..] == members;
    }
  }

  lemma PrintsContinued(members: seq<Member>, end: string)
    requires |members| > 1
    ensures PrintMembers(members) + end == PrintMember(members[0]) + ("," + (PrintMembers(members[1..]) + end))
  {
    var first, more := PrintMember(members[0]), PrintMembers(members[1..]);
    assert first + ("," + more) + end == first + ("," + (more + end));
  }

  lemma EndsAfter(m: Member, end: string)
    requires end != "" && end[0] == '}' && ReadMember(PrintMember(m) + end) == Done(m, end)
    ensures ReadMembers(PrintMember(m) + end) == Done([m], end[1..])
  {
  }

  lemma ContinuesAfter(m: Member, later: string)
    requires ReadMember(PrintMember(m) + ("," + later)) == Done(m, "," + later)
    requires ReadMembers(later).Done?
    ensures ReadMembers(PrintMember(m) + ("," + later)) == Done([m] + ReadMembers(later).value, ReadMembers(later).rest)
  {
    assert ("," + later)[1..] == later;
  }

  /** What is read never needs escaping. */
  lemma {:induction false} ReadIsPlain(s: string)
    ensures ReadValue(s).Done? ==> Plain(ReadValue(s).value)
    decreases |s|, 0
  {
    if s != "" && s[0] == '{' && !(|s| > 1 && s[1] == '}') {
      ReadMembersIsPlain(s[1..]);
    }
  }

  lemma {:induction false} ReadMembersIsPlain(s: string)
    ensures ReadMembers(s).Done? ==> PlainMembers(ReadMembers(s).value)
    decreases |s|, 1
  {
    var first := ReadMember(s);
    if first.Done? {
      var m, name := first.value, ReadString(s[1..]);
      ReadIsPlain(name.rest[1..]);
      if first.rest != "" && first.rest[0] == ',' {
        ReadMembersIsPlain(first.rest[1..]);
        var more := ReadMembers(first.rest[1..]);
        if more.Done? {
          assert ([m] + more.value)[1..] == more.value;
        }
      }
    }
  }

  /** A printed tree reads back as itself, to the end, if and only if nothing in it needs escaping. */
  lemma PrintRoundTrip(j: Json)
    ensures ReadValue(Print(j)) == Done(j, "") <==> Plain(j)
  {
    ReadIsPlain(Print(j));
    if Plain(j) {
      ReadsWhatWasPrinted(j, "");
      assert Print(j) + "" == Print(j);
    }
  }

  /** So two different plain trees never have the same text. */
  lemma PrintIsInjective(j: Json, k: Json)
    requires Plain(j) && Plain(k) && Print(j) == Print(k)
    ensures j == k
  {
    PrintRoundTrip(j);
    PrintRoundTrip(k);
  }
}
