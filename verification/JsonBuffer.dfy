/** The growing text buffer that a status document is written into. */
module JsonBuffer {
  import opened Json

  const SLACK: nat := 10

  /** Member after member, each with a comma behind it. */
  function Trail(members: seq<Member>): string {
    if members == [] then "" else PrintMember(members[0]) + ("," + Trail(members[1..]))
  }

  function Key(name: string): string {
    Quoted(name) + ":"
  }

  class Buffer {
    var buf: array<char>
    var len: nat                // where the terminator stands
    var failures: seq<bool>     // whether the next calls of realloc fail
    ghost var whole: bool       // nothing has been left out so far

    ghost predicate Valid()
      reads this, buf
    {
      len < buf.Length && buf[len] == '\0'
    }

    ghost function Text(): string
      reads this, buf
      requires Valid()
    {
      buf[..len]
    }

    /** Nothing is left out yet, and no reallocation is going to fail. */
    ghost predicate Ready()
      reads this, buf
    {
      Valid() && whole && true !in failures
    }

    constructor (size: nat, failures: seq<bool>)
      requires size > 0
      ensures Valid() && Text() == "" && fresh(buf) && this.failures == failures && whole
    {
      buf := new char[size](_ => '\0');
      len, this.failures, whole := 0, failures, true;
    }

    method Realloc(newSize: nat)
      requires Valid() && newSize >= buf.Length
      modifies this
      ensures Valid() && Text() == old(Text()) && len == old(len) && whole == old(whole)
      ensures buf == old(buf) || (fresh(buf) && buf.Length == newSize)
      ensures old(Ready()) ==> Ready() && buf.Length == newSize
    {
      var fails := false;
      if failures != [] {
        fails, failures := failures[0], failures[1..];
      }
      if !fails {
        var tmp := new char[newSize];
        forall i | 0 <= i < buf.Length {
          tmp[i] := buf[i];
        }
        buf := tmp;
      }
    }

    /**
      Appends a string, doubling the buffer until there is room to spare. The contents, the
      terminator and the room for it survive; only when a reallocation fails and
      the string does not fit is it left out, whole.
     */
    method AddToBuf(add: string)
      requires Valid()
      modifies this, buf
      ensures Valid() && (buf == old(buf) || fresh(buf))
      ensures buf.Length >= old(buf.Length)
      ensures Text() == if old(len) + |add| < buf.Length then old(Text()) + add else old(Text())
      ensures whole <==> old(whole) && old(len) + |add| < buf.Length
      ensures old(Ready()) ==> Ready() && Text() == old(Text()) + add && len + SLACK <= buf.Length
    {
      var newSize := buf.Length;
      while newSize < len + |add| + SLACK
        invariant newSize >= buf.Length
        decreases len + |add| + SLACK - newSize
      {
        newSize := newSize * 2;
      }
      if buf.Length != newSize {
        Realloc(newSize);
      }
      ghost var before := Text();
      if buf.Length > len + |add| {
        forall i | 0 <= i < |add| {
          buf[len + i] := add[i];
        }
        len := len + |add|;
        buf[len] := '\0';
        assert Text() == before + add;
      } else {
        whole := false;
      }
    }

    method AddToBufInt(value: int)
      requires Valid()
      modifies this, buf
      ensures Valid() && (buf == old(buf) || fresh(buf)) && (old(Ready()) ==> Ready())
      ensures whole ==> old(whole) && Text() == old(Text()) + Print(Num(value))
    {
      AddToBuf(Print(Num(value)));
    }

    method AddToBufUint(value: nat)
      requires Valid()
      modifies this, buf
      ensures Valid() && (buf == old(buf) || fresh(buf)) && (old(Ready()) ==> Ready())
      ensures whole ==> old(whole) && Text() == old(Text()) + Print(Num(value))
    {
      AddToBuf(Digits(value));
    }

    method AddString(name: string, value: string)
      requires Valid()
      modifies this, buf
      ensures Valid() && (buf == old(buf) || fresh(buf)) && (old(Ready()) ==> Ready())
      ensures whole ==> old(whole) && Text() == old(Text()) + PrintMember(Member(name, Str(value)))
    {
      ghost var base := Text();
      AddToBuf("\"");
      AddToBuf(name);
      AddToBuf("\":\"");
      AddToBuf(value);
      AddToBuf("\"");
      WritesString(base, name, value);
    }

    method AddInt(name: string, value: int)
      requires Valid()
      modifies this, buf
      ensures Valid() && (buf == old(buf) || fresh(buf)) && (old(Ready()) ==> Ready())
      ensures whole ==> old(whole) && Text() == old(Text()) + PrintMember(Member(name, Num(value)))
    {
      ghost var base := Text();
      AddToBuf("\"");
      AddToBuf(name);
      AddToBuf("\":");
      AddToBufInt(value);
      WritesNumber(base, name, value);
    }

    method AddUint(name: string, value: nat)
      requires Valid()
      modifies this, buf
      ensures Valid() && (buf == old(buf) || fresh(buf)) && (old(Ready()) ==> Ready())
      ensures whole ==> old(whole) && Text() == old(Text()) + PrintMember(Member(name, Num(value)))
    {
      ghost var base := Text();
      AddToBuf("\"");
      AddToBuf(name);
      AddToBuf("\":");
      AddToBufUint(value);
      WritesNumber(base, name, value);
    }

    method AddComma()
      requires Valid()
      modifies this, buf
      ensures Valid() && (buf == old(buf) || fresh(buf)) && (old(Ready()) ==> Ready())
      ensures whole ==> old(whole) && Text() == old(Text()) + ","
    {
      AddToBuf(",");
    }
  }

  lemma WritesString(base: string, name: string, value: string)
    ensures base + "\"" + name + "\":\"" + value + "\"" == base + PrintMember(Member(name, Str(value)))
  {
    assert Print(Str(value)) == Quoted(value);
  }

  lemma WritesNumber(base: string, name: string, value: int)
    ensures base + "\"" + name + "\":" + Print(Num(value)) == base + PrintMember(Member(name, Num(value)))
  {
  }

  //// How pieces make up members and objects

  lemma {:induction false} TrailGrows(done: seq<Member>, m: Member)
    ensures Trail(done + [m]) == Trail(done) + (PrintMember(m) + ",")
  {
    if done == [] {
      assert [m][1..] == [] && Trail([]) == "";
    } else {
      assert (done + [m])[1..] == done[1..] + [m];
      TrailGrows(done[1..], m);
    }
  }

  lemma {:induction false} LastHasNoComma(done: seq<Member>, last: Member)
    ensures PrintMembers(done + [last]) == Trail(done) + PrintMember(last)
  {
    if done != [] {
      assert (done + [last])[1..] == done[1..] + [last];
      LastHasNoComma(done[1..], last);
    }
  }

  /** A separated list grows by a comma, unless it is empty, and the next member. */
  lemma {:induction false} ListGrows(done: seq<Member>, m: Member)
    ensures PrintMembers(done + [m]) == PrintMembers(done) + ((if done == [] then "" else ",") + PrintMember(m))
  {
    if |done| == 1 {
      assert (done + [m])[1..] == [m];
    } else if done != [] {
      assert (done + [m])[1..] == done[1..] + [m];
      ListGrows(done[1..], m);
    }
  }

  /** An object written member by member: the key, a brace, the members, the last of them, a brace. */
  lemma ClosesObject(base: string, name: string, done: seq<Member>, last: Member)
    ensures base + Key(name) + "{" + Trail(done) + PrintMember(last) + "}" ==
      base + PrintMember(Member(name, Obj(done + [last])))
  {
    LastHasNoComma(done, last);
  }

  lemma ClosesList(base: string, name: string, members: seq<Member>)
    ensures base + Key(name) + "{" + PrintMembers(members) + "}" == base + PrintMember(Member(name, Obj(members)))
  {
  }
}
