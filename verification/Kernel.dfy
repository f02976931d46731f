/**
  Bytes, and the socket calls of the kernel. A call behaves as an arbitrary finite
  script says: it may move fewer bytes than asked for, be interrupted, or fail.
  Once a script has run out, calls move as many bytes as they can.
 */
module Kernel {

  type byte = b: int | 0 <= b < 256

  datatype IoEvent = Transfer(count: nat) | Interrupted | Fault

  function Min(a: nat, b: nat): nat {
    if a <= b then a else b
  }

  function Max(a: nat, b: nat): nat {
    if a <= b then b else a
  }

  predicate Faultless(script: seq<IoEvent>) {
    Fault !in script
  }

  class Socket {
    const number: int         // its file descriptor
    var incoming: seq<byte>   // what the peer will still send before it closes
    var sent: seq<byte>       // what has been delivered to the peer
    var readScript: seq<IoEvent>
    var writeScript: seq<IoEvent>

    constructor (number: int, incoming: seq<byte>, readScript: seq<IoEvent>, writeScript: seq<IoEvent>)
      ensures this.number == number && this.incoming == incoming && this.sent == []
      ensures this.readScript == readScript && this.writeScript == writeScript
    {
      this.number := number;
      this.incoming, this.sent, this.readScript, this.writeScript := incoming, [], readScript, writeScript;
    }

    /** read(2) of up to n bytes into buf[at..]. */
    method Read(buf: array<byte>, at: nat, n: nat) returns (rc: int, eintr: bool, ghost data: seq<byte>)
      requires at + n <= buf.Length
      modifies this`incoming, this`readScript, buf
      ensures |data| <= n && old(incoming) == data + incoming
      ensures forall j :: at <= j < at + |data| ==> buf[j] == data[j - at]
      ensures forall j :: 0 <= j < buf.Length && !(at <= j < at + |data|) ==> buf[j] == old(buf[j])
      ensures rc >= 0 ==> rc == |data| && !eintr && (rc == 0 ==> n == 0 || old(incoming) == [])
      ensures rc < 0 ==> rc == -1 && data == [] && (eintr || Fault in old(readScript))
      ensures eintr ==> |readScript| < |old(readScript)|
      ensures |readScript| <= |old(readScript)| && (forall e :: e in readScript ==> e in old(readScript))
    {
      var event := Transfer(n);
      if readScript != [] {
        event, readScript := readScript[0], readScript[1..];
      }
      data, eintr := [], event.Interrupted?;
      if !event.Transfer? {
        return -1, eintr, [];
      }
      var count := Min(Max(event.count, 1), Min(n, |incoming|));
      data := incoming[..count];
      forall i | 0 <= i < count {
        buf[at + i] := incoming[i];
      }
      incoming := incoming[count..];
      rc := count;
    }

    /** write(2) of up to n bytes from buf[at..]. */
    method Write(buf: array<byte>, at: nat, n: nat) returns (rc: int, eintr: bool)
      requires at + n <= buf.Length
      modifies this`sent, this`writeScript
      ensures rc >= 0 ==> rc <= n && !eintr && sent == old(sent) + buf[at..at + rc]
      ensures rc < 0 ==> rc == -1 && sent == old(sent) && (eintr || Fault in old(writeScript))
      ensures eintr || (rc == 0 && n > 0) ==> |writeScript| < |old(writeScript)|
      ensures |writeScript| <= |old(writeScript)| && (forall e :: e in writeScript ==> e in old(writeScript))
    {
      var event := Transfer(n);
      if writeScript != [] {
        event, writeScript := writeScript[0], writeScript[1..];
      }
      eintr := event.Interrupted?;
      if !event.Transfer? {
        return -1, eintr;
      }
      rc := Min(event.count, n);
      sent := sent + buf[at..at + rc];
    }
  }
}
