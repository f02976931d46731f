/**
  Blocking reads and writes of a given length, built from calls that may be short
  or interrupted.
 */
module SafeBlockingReadWrite {
  import opened Kernel

  /** What a faultless sb_read_len returns: the whole length, or 0 when the stream ends first. */
  function ReadLenResult(stream: seq<byte>, buflen: nat): int {
    if buflen <= |stream| then buflen else 0
  }

  /**
    However the bytes are split, the call takes the first buflen bytes of the stream
    (all of it when it is shorter), and it reports the length only when it has them all.
   */
  method SbReadLen(fd: Socket, buf: array<byte>, at: nat, buflen: nat) returns (rc: int, ghost taken: seq<byte>)
    requires at + buflen <= buf.Length
    modifies fd`incoming, fd`readScript, buf
    ensures |taken| <= buflen && old(fd.incoming) == taken + fd.incoming
    ensures forall j :: at <= j < at + |taken| ==> buf[j] == taken[j - at]
    ensures forall j :: 0 <= j < buf.Length && !(at <= j < at + |taken|) ==> buf[j] == old(buf[j])
    ensures rc >= 0 ==> rc == ReadLenResult(old(fd.incoming), buflen) && |taken| == Min(buflen, |old(fd.incoming)|)
    ensures rc < 0 ==> rc == -1 && Fault in old(fd.readScript)
    ensures forall e :: e in fd.readScript ==> e in old(fd.readScript)
  {
    var index: nat, remain: nat, again := 0, buflen, true;
    taken := [];
    rc := 0;
    while again
      invariant index + remain == buflen && index == |taken|
      invariant old(fd.incoming) == taken + fd.incoming
      invariant forall j :: at <= j < at + |taken| ==> buf[j] == taken[j - at]
      invariant forall j :: 0 <= j < buf.Length && !(at <= j < at + |taken|) ==> buf[j] == old(buf[j])
      invariant again ==> remain > 0 || buflen == 0
      invariant !again && rc > 0 ==> remain == 0 && buflen > 0
      invariant !again && rc == 0 ==> buflen == 0 || (fd.incoming == [] && remain > 0)
      invariant !again && rc < 0 ==> rc == -1 && Fault in old(fd.readScript)
      invariant forall e :: e in fd.readScript ==> e in old(fd.readScript)
      decreases |fd.readScript| + remain, again
    {
      var eintr;
      ghost var data;
      rc, eintr, data := fd.Read(buf, at + index, remain);
      taken := taken + data;
      if rc > 0 {
        remain, index := remain - rc, index + rc;
      }
      again := (rc > 0 && remain > 0) || (rc < 0 && eintr);
    }
    if rc > 0 {
      rc := index;
    }
  }

  /**
    Either the whole buffer is delivered and its length returned, or a fault is
    reported. In particular the result is never 0 for a non-empty buffer, even when
    single writes move no byte.
   */
  method SbWriteLen(fd: Socket, buf: array<byte>, buflen: nat) returns (rc: int, ghost done: nat)
    requires buflen <= buf.Length
    modifies fd`sent, fd`writeScript
    ensures done <= buflen && fd.sent == old(fd.sent) + buf[..done]
    ensures rc >= 0 ==> rc == buflen == done
    ensures rc < 0 ==> rc == -1 && Fault in old(fd.writeScript)
    ensures forall e :: e in fd.writeScript ==> e in old(fd.writeScript)
  {
    var index: nat, remain: nat, again := 0, buflen, true;
    rc := 0;
    while again
      invariant index + remain == buflen
      invariant fd.sent == old(fd.sent) + buf[..index]
      invariant again ==> remain > 0 || buflen == 0
      invariant !again && rc > 0 ==> remain == 0
      invariant !again && rc == 0 ==> buflen == 0
      invariant !again && rc < 0 ==> rc == -1 && Fault in old(fd.writeScript)
      invariant forall e :: e in fd.writeScript ==> e in old(fd.writeScript)
      decreases |fd.writeScript| + remain, again
    {
      var eintr;
      rc, eintr := fd.Write(buf, index, remain);
      if rc >= 0 {
        assert buf[..index] + buf[index..index + rc] == buf[..index + rc];
        remain, index := remain - rc, index + rc;
      }
      again := (rc >= 0 && remain > 0) || (rc < 0 && eintr);
    }
    done := index;
    if rc > 0 {
      rc := index;
    }
  }
}
