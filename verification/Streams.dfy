/**
 Byte-stream descriptors and the two loops every other part is built on, `readAll` and
 `writeAll` (src/common/utility.c). A descriptor may move fewer bytes than asked for on
 every call; an unreliable one may also fail.
 */
module Streams {
  import opened Bytes

  /** The reading end of a socket or file. */
  class InStream {
    // every byte still to arrive before end of file
    var unread: seq<byte>
    const reliable: bool

    constructor (bytes: seq<byte>, reliable: bool)
      ensures unread == bytes && this.reliable == reliable
    {
      this.unread := bytes;
      this.reliable := reliable;
    }

    /** `read(fd, _, max)`: any positive number of the waiting bytes, 0 at end of file, or -1. */
    method Read(max: nat) returns (n: int, chunk: seq<byte>)
      requires 0 < max
      modifies this
      ensures n == -1 ==> !reliable && chunk == [] && unread == old(unread)
      ensures n != -1 ==>
        && n == |chunk| <= max
        && old(unread) == chunk + unread
        && (n == 0 <==> old(unread) == [])
      ensures n >= -1
    {
      var fails: bool := *;
      if fails && !reliable {
        return -1, [];
      }
      if unread == [] {
        return 0, [];
      }
      var k: nat :| 1 <= k <= |unread| && k <= max;
      n, chunk := k, unread[..k];
      unread := unread[k..];
    }
  }

  /** The writing end of a socket or file. */
  class OutStream {
    var written: seq<byte>
    const reliable: bool

    constructor (reliable: bool)
      ensures written == [] && this.reliable == reliable
    {
      this.written := [];
      this.reliable := reliable;
    }

    /** `write(fd, bytes, |bytes|)`: accepts any positive number of the bytes, or fails. */
    method Write(bytes: seq<byte>) returns (n: int)
      requires bytes != []
      modifies this
      ensures n == -1 ==> !reliable && written == old(written)
      ensures n != -1 ==> 1 <= n <= |bytes| && written == old(written) + bytes[..n]
    {
      var fails: bool := *;
      if fails && !reliable {
        return -1;
      }
      var k: nat :| 1 <= k <= |bytes|;
      written := written + bytes[..k];
      n := k;
    }
  }

  /**
   `readAll`: `len` bytes into `buf`, however the kernel cuts them up. 0 means end of file
   came first (or `len` was 0); the bytes read until then are gone.
   */
  method ReadAll(fd: InStream, buf: array<byte>, len: nat) returns (r: int)
    requires len <= buf.Length
    modifies fd, buf
    ensures r == -1 ==> !fd.reliable
    ensures r != -1 && len <= |old(fd.unread)| ==>
      && r == len
      && buf[..len] == old(fd.unread)[..len]
      && fd.unread == old(fd.unread)[len..]
    ensures r != -1 && len > |old(fd.unread)| ==> r == 0 && fd.unread == []
    ensures buf[len..] == old(buf[len..])
    ensures r >= -1
  {
    var recvd := 0;
    while recvd < len
      invariant 0 <= recvd <= len
      invariant recvd <= |old(fd.unread)|
      invariant buf[..recvd] == old(fd.unread)[..recvd]
      invariant fd.unread == old(fd.unread)[recvd..]
      invariant buf[len..] == old(buf[len..])
    {
      var n, chunk := fd.Read(len - recvd);
      if n == 0 {
        return 0;
      }
      if n < 0 {
        return -1;
      }
      ghost var before := buf[..];
      forall i | 0 <= i < n {
        buf[recvd + i] := chunk[i];
      }
      assert buf[..recvd + n] == before[..recvd] + chunk;
      recvd := recvd + n;
    }
    r := recvd;
  }

  /** `writeAll`: all of `bytes`, or -1 with a proper prefix of them written. */
  method WriteAll(fd: OutStream, bytes: seq<byte>) returns (r: int, ghost sent: nat)
    modifies fd
    ensures sent <= |bytes|
    ensures fd.written == old(fd.written) + bytes[..sent]
    ensures r == if sent == |bytes| then |bytes| else -1
    ensures fd.reliable ==> sent == |bytes|
  {
    var done := 0;
    while done < |bytes|
      invariant 0 <= done <= |bytes|
      invariant fd.written == old(fd.written) + bytes[..done]
    {
      var n := fd.Write(bytes[done..]);
      if n <= 0 {
        return -1, done;
      }
      assert bytes[..done + n] == bytes[..done] + bytes[done..][..n];
      done := done + n;
    }
    return done, done;
  }
}
