/**
 The handler-to-helper protocol: `sendHelperRequest` and `sendHelperRequestRW` on one side
 (src/server/net/net.c), the request loop of `handleCommands` on the other
 (src/server/helper/helper.c).
 */
module HelperRequest {
  import opened Bytes
  import opened Streams

  const MAXARGS := 5

  // sizeof(ClientSession): state, uid, gid, username[20], home[1024], workdir[1024]
  const SESSION := 2080

  // sizeof(helper_request_header)
  const HEADER := 2100

  /** A request as the helper acts on it. */
  datatype Request = Request(cmd: nat, args: seq<seq<byte>>, session: seq<byte>, offset: int, data: seq<byte>)

  /** The argument strings as they are written: each with its terminator. */
  function Joined(args: seq<seq<byte>>): (b: seq<byte>) {
    if args == [] then [] else args[0] + [NUL] + Joined(args[1..])
  }

  ghost predicate Strings(args: seq<seq<byte>>) {
    forall i :: 0 <= i < |args| ==> NulFree(args[i])
  }

  /** What a C caller can hand over: NUL-free strings and sizes that fit their fields. */
  ghost predicate Sendable(q: Request) {
    && Strings(q.args)
    && IsUint32(q.cmd) && IsUint32(|q.args|) && IsUint32(|Joined(q.args)|) && IsUint32(|q.data|)
    && IsInt32(q.offset)
    && |q.session| == SESSION
  }

  function Header(cmd: nat, argc: nat, payloadLen: nat, session: seq<byte>, offset: int, dataLen: nat): (h: seq<byte>)
    requires IsUint32(cmd) && IsUint32(argc) && IsUint32(payloadLen) && IsUint32(dataLen) && IsInt32(offset)
    requires |session| == SESSION
    ensures |h| == HEADER
  {
    Le32(cmd) + Le32(argc) + Le32(payloadLen) + session + Le32(ToUnsigned(offset)) + Le32(dataLen)
  }

  function Encode(q: Request): (b: seq<byte>)
    requires Sendable(q)
    ensures |b| == HEADER + |Joined(q.args)| + |q.data|
  {
    Header(q.cmd, |q.args|, |Joined(q.args)|, q.session, q.offset, |q.data|) + Joined(q.args) + q.data
  }

  /** The header's fields as the helper reads them. */
  datatype Fields = Fields(cmd: nat, argc: nat, payloadLen: nat, session: seq<byte>, offset: int, dataLen: nat)

  function ReadHeader(h: seq<byte>): Fields
    requires |h| == HEADER
  {
    Fields(FromLe32(h[0..4]), FromLe32(h[4..8]), FromLe32(h[8..12]), h[12..2092],
           ToSigned(FromLe32(h[2092..2096])), FromLe32(h[2096..2100]))
  }

  /** The argument loop: `argc` strings, or five, walked over with `strlen`. */
  function Unpack(payload: seq<byte>, argc: nat): (args: seq<seq<byte>>) {
    if argc == 0 || payload == [] then []
    else
      var end := NulAt(payload, 0);
      [payload[..end]] + Unpack(payload[Min(end + 1, |payload|)..], argc - 1)
  }

  /** The first requests of a stream, as long as each is complete. */
  function Decode(stream: seq<byte>): (r: seq<Request>)
    decreases |stream|
  {
    if |stream| < HEADER then []
    else
      var f := ReadHeader(stream[..HEADER]);
      var size := HEADER + f.payloadLen + f.dataLen;
      if |stream| < size then []
      else
        [Request(f.cmd, Unpack(stream[HEADER..HEADER + f.payloadLen], Min(f.argc, MAXARGS)), f.session, f.offset,
                 stream[HEADER + f.payloadLen..size])]
        + Decode(stream[size..])
  }

  // ---------------------------------------------------------------- round trip

  lemma HeaderRoundTrip(cmd: nat, argc: nat, payloadLen: nat, session: seq<byte>, offset: int, dataLen: nat)
    requires IsUint32(cmd) && IsUint32(argc) && IsUint32(payloadLen) && IsUint32(dataLen) && IsInt32(offset)
    requires |session| == SESSION
    ensures ReadHeader(Header(cmd, argc, payloadLen, session, offset, dataLen))
            == Fields(cmd, argc, payloadLen, session, offset, dataLen)
  {
    Le32RoundTrip(cmd);
    Le32RoundTrip(argc);
    Le32RoundTrip(payloadLen);
    Le32RoundTrip(ToUnsigned(offset));
    Le32RoundTrip(dataLen);
    hide Le32, FromLe32, IsUint32, IsInt32;
    var h := Header(cmd, argc, payloadLen, session, offset, dataLen);
    assert h[0..4] == Le32(cmd);
    assert h[4..8] == Le32(argc);
    assert h[8..12] == Le32(payloadLen);
    assert h[12..2092] == session;
    assert h[2092..2096] == Le32(ToUnsigned(offset));
    assert h[2096..2100] == Le32(dataLen);
  }

  lemma FirstString(a: seq<byte>, rest: seq<byte>)
    requires NulFree(a)
    ensures var payload := a + [NUL] + rest;
            NulAt(payload, 0) == |a| && payload[..|a|] == a && payload[|a| + 1..] == rest
  {
    NulAtIs(a + [NUL] + rest, 0, |a|);
  }

  lemma UnpackFirst(a: seq<byte>, rest: seq<byte>, n: nat)
    requires NulFree(a) && n > 0
    ensures Unpack(a + [NUL] + rest, n) == [a] + Unpack(rest, n - 1)
  {
    hide NulAt, NulFree;
    FirstString(a, rest);
  }

  lemma {:induction false} UnpackJoined(args: seq<seq<byte>>, n: nat)
    requires Strings(args)
    ensures Unpack(Joined(args), n) == args[..Min(n, |args|)]
    decreases |args|
  {
    hide NulFree, Unpack;
    if args == [] || n == 0 {
      UnpackNothing(Joined(args), n);
    } else {
      UnpackFirst(args[0], Joined(args[1..]), n);
      UnpackJoined(args[1..], n - 1);
      assert args[..Min(n, |args|)] == [args[0]] + args[1..][..Min(n - 1, |args| - 1)];
    }
  }

  /** The request as received: the same but for arguments beyond the fifth. */
  function Received(q: Request): Request {
    q.(args := q.args[..Min(MAXARGS, |q.args|)])
  }

  lemma DecodeOne(q: Request, after: seq<byte>)
    requires Sendable(q)
    ensures Decode(Encode(q) + after) == [Received(q)] + Decode(after)
  {
    var h, p := Header(q.cmd, |q.args|, |Joined(q.args)|, q.session, q.offset, |q.data|), Joined(q.args);
    var s := Encode(q) + after;
    assert s == h + p + q.data + after && Strings(q.args);
    hide Decode, Joined, Header, ReadHeader, Unpack, Strings, IsUint32, IsInt32, Encode;
    HeaderRoundTrip(q.cmd, |q.args|, |p|, q.session, q.offset, |q.data|);
    DecodeParts(h, p, q.data, after, Fields(q.cmd, |q.args|, |p|, q.session, q.offset, |q.data|));
    UnpackJoined(q.args, Min(|q.args|, MAXARGS));
  }

  lemma DecodeParts(h: seq<byte>, p: seq<byte>, d: seq<byte>, after: seq<byte>, f: Fields)
    requires |h| == HEADER && ReadHeader(h) == f && |p| == f.payloadLen && |d| == f.dataLen
    ensures Decode(h + p + d + after)
            == [Request(f.cmd, Unpack(p, Min(f.argc, MAXARGS)), f.session, f.offset, d)] + Decode(after)
  {
    var s := h + p + d + after;
    hide Decode, ReadHeader, Unpack;
    RequestSlices(h, p, d, after, s);
    Complete(s);
  }

  lemma RequestSlices(h: seq<byte>, p: seq<byte>, d: seq<byte>, after: seq<byte>, s: seq<byte>)
    requires s == h + p + d + after
    ensures s[..|h|] == h && s[|h|..|h| + |p|] == p
    ensures s[|h| + |p|..|h| + |p| + |d|] == d && s[|h| + |p| + |d|..] == after
  {
  }

  /** A stream with a complete request in front. */
  lemma Complete(stream: seq<byte>)
    requires |stream| >= HEADER
    requires var f := ReadHeader(stream[..HEADER]); |stream| >= HEADER + f.payloadLen + f.dataLen
    ensures var f := ReadHeader(stream[..HEADER]);
            var size := HEADER + f.payloadLen + f.dataLen;
            Decode(stream) ==
            [Request(f.cmd, Unpack(stream[HEADER..HEADER + f.payloadLen], Min(f.argc, MAXARGS)), f.session, f.offset,
                     stream[HEADER + f.payloadLen..size])]
            + Decode(stream[size..])
  {
    hide ReadHeader, Unpack;
  }

  /** Requests written back to back. */
  function EncodeAll(qs: seq<Request>): (b: seq<byte>)
    requires forall i :: 0 <= i < |qs| ==> Sendable(qs[i])
  {
    if qs == [] then [] else Encode(qs[0]) + EncodeAll(qs[1..])
  }

  function ReceivedAll(qs: seq<Request>): (r: seq<Request>)
    ensures |r| == |qs| && forall i :: 0 <= i < |qs| ==> r[i] == Received(qs[i])
  {
    if qs == [] then [] else [Received(qs[0])] + ReceivedAll(qs[1..])
  }

  /**
   The stream stays aligned: requests with any number of arguments, any data block and any
   offset, written back to back, are decoded one for one, and a request is received exactly
   as sent when it has at most five arguments.
   */
  lemma {:induction false} RequestsRoundTrip(qs: seq<Request>)
    requires forall i :: 0 <= i < |qs| ==> Sendable(qs[i])
    ensures Decode(EncodeAll(qs)) == ReceivedAll(qs)
    ensures ReceivedAll(qs) == qs <==> forall i :: 0 <= i < |qs| ==> |qs[i].args| <= MAXARGS
    decreases |qs|
  {
    hide Decode, Encode, Sendable;
    if qs == [] {
      DecodeNothing();
    } else {
      RequestsRoundTrip(qs[1..]);
      DecodeOne(qs[0], EncodeAll(qs[1..]));
    }
    forall i | 0 <= i < |qs|
      ensures Received(qs[i]) == qs[i] <==> |qs[i].args| <= MAXARGS
    {
      assert |qs[i].args| <= MAXARGS ==> qs[i].args[..|qs[i].args|] == qs[i].args;
    }
  }

  lemma DecodeNothing()
    ensures Decode([]) == []
  {
  }

  // ---------------------------------------------------------------- the two loops

  lemma {:induction false} JoinedAppend(args: seq<seq<byte>>, a: seq<byte>)
    ensures Joined(args + [a]) == Joined(args) + (a + [NUL])
    decreases |args|
  {
    if args == [] {
      assert [a][1..] == [];
      assert args + [a] == [a];
    } else {
      assert (args + [a])[1..] == args[1..] + [a];
      JoinedAppend(args[1..], a);
    }
  }

  /** `p_len`: each `strlen` plus one, added up in a 32-bit counter. */
  method PayloadLength(args: seq<seq<byte>>) returns (len: nat)
    requires IsUint32(|Joined(args)|)
    ensures len == |Joined(args)|
  {
    len := 0;
    var i := 0;
    while i < |args|
      invariant 0 <= i <= |args|
      invariant len == |Joined(args[..i])|
    {
      JoinedAppend(args[..i], args[i]);
      assert args[..i + 1] == args[..i] + [args[i]];
      PrefixShorter(args, i + 1);
      len := Wrap32(len + |args[i]| + 1);
      i := i + 1;
    }
    assert args[..i] == args;
  }

  lemma {:induction false} PrefixShorter(args: seq<seq<byte>>, i: nat)
    requires i <= |args|
    ensures |Joined(args[..i])| <= |Joined(args)|
    decreases |args|
  {
    if i > 0 {
      PrefixShorter(args[1..], i - 1);
      assert args[..i][1..] == args[1..][..i - 1];
    }
  }

  /** `sendHelperRequestRW` up to waiting for the answer: header, arguments, data. */
  method SendRequest(fd: OutStream, q: Request) returns (ok: bool)
    requires Sendable(q) && fd.reliable
    modifies fd
    ensures ok && fd.written == old(fd.written) + Encode(q)
  {
    var pLen := PayloadLength(q.args);
    var h := Header(q.cmd, |q.args|, pLen, q.session, q.offset, |q.data|);
    ghost var before := fd.written;
    hide Header, Strings, IsUint32;
    var r, sent := WriteAll(fd, h);
    assert fd.written == before + h;
    var i := 0;
    while i < |q.args|
      invariant 0 <= i <= |q.args|
      invariant fd.written == before + (h + Joined(q.args[..i]))
    {
      JoinedAppend(q.args[..i], q.args[i]);
      assert q.args[..i + 1] == q.args[..i] + [q.args[i]];
      r, sent := WriteAll(fd, q.args[i] + [NUL]);
      assert (h + Joined(q.args[..i])) + (q.args[i] + [NUL]) == h + Joined(q.args[..i + 1]);
      i := i + 1;
    }
    assert q.args[..i] == q.args;
    if |q.data| > 0 {
      r, sent := WriteAll(fd, q.data);
    }
    assert fd.written == before + (h + Joined(q.args) + q.data);
    ok := true;
  }

  /** One string off the argument block that starts at `p`. */
  lemma UnpackStep(payload: seq<byte>, p: nat, n: nat)
    requires p < |payload| && n > 0
    ensures var end := NulAt(payload, p);
            Unpack(payload[p..], n) == [payload[p..end]] + Unpack(payload[Min(end + 1, |payload|)..], n - 1)
  {
    var end := NulAt(payload, p);
    NulAtIs(payload[p..], 0, end - p);
    hide NulAt;
    assert payload[p..][..end - p] == payload[p..end];
    assert payload[p..][Min(end - p + 1, |payload| - p)..] == payload[Min(end + 1, |payload|)..];
  }

  /** The pointer loop over the argument block. */
  method UnpackArgs(payload: seq<byte>, argc: nat) returns (args: seq<seq<byte>>)
    ensures args == Unpack(payload, Min(argc, MAXARGS))
  {
    hide Unpack, NulAt;
    args := [];
    var p: nat, i: nat := 0, 0;
    assert payload[0..] == payload;
    while i < argc && i < MAXARGS && p < |payload|
      invariant i <= Min(argc, MAXARGS) && p <= |payload|
      invariant args + Unpack(payload[p..], Min(argc, MAXARGS) - i) == Unpack(payload, Min(argc, MAXARGS))
      decreases MAXARGS - i
    {
      UnpackStep(payload, p, Min(argc, MAXARGS) - i);
      var end := NulAt(payload, p);
      args := args + [payload[p..end]];
      p := Min(end + 1, |payload|);
      i := i + 1;
    }
    UnpackNothing(payload[p..], Min(argc, MAXARGS) - i);
  }

  lemma UnpackNothing(payload: seq<byte>, n: nat)
    ensures payload == [] || n == 0 ==> Unpack(payload, n) == []
  {
  }

  /** A block of known length, if there is one at all. */
  method ReadBlock(fd: InStream, len: nat) returns (ok: bool, block: seq<byte>)
    requires fd.reliable
    modifies fd
    ensures ok <==> len <= |old(fd.unread)|
    ensures ok ==> block == old(fd.unread)[..len] && fd.unread == old(fd.unread)[len..]
  {
    var buf := new byte[len];
    if len > 0 {
      var r := ReadAll(fd, buf, len);
      if r <= 0 {
        return false, [];
      }
    }
    return true, buf[..];
  }

  /** One turn of the request loop; None when the connection ends before a complete request. */
  method ReceiveRequest(fd: InStream) returns (q: Option<Request>)
    requires fd.reliable
    modifies fd
    ensures q == None ==> Decode(old(fd.unread)) == []
    ensures q != None ==>
      |fd.unread| < |old(fd.unread)| && Decode(old(fd.unread)) == [q.value] + Decode(fd.unread)
  {
    ghost var here := fd.unread;
    hide Decode, Unpack, ReadHeader;
    var ok, h := ReadBlock(fd, HEADER);
    if !ok {
      Incomplete(here);
      return None;
    }
    var f := ReadHeader(h);
    var payload: seq<byte>;
    ok, payload := ReadBlock(fd, f.payloadLen);
    if !ok {
      Incomplete(here);
      return None;
    }
    var args := UnpackArgs(payload, f.argc);
    var data: seq<byte>;
    ok, data := ReadBlock(fd, f.dataLen);
    if !ok {
      Incomplete(here);
      return None;
    }
    Blocks(here, HEADER, f.payloadLen, f.dataLen);
    Complete(here);
    q := Some(Request(f.cmd, args, f.session, f.offset, data));
  }

  lemma Blocks(s: seq<byte>, a: nat, b: nat, c: nat)
    requires a + b + c <= |s|
    ensures s[a..][..b] == s[a..a + b]
    ensures s[a..][b..][..c] == s[a + b..a + b + c]
    ensures s[a..][b..][c..] == s[a + b + c..]
  {
  }

  lemma Incomplete(stream: seq<byte>)
    ensures |stream| < HEADER ==> Decode(stream) == []
    ensures |stream| >= HEADER ==>
      var f := ReadHeader(stream[..HEADER]);
      |stream| < HEADER + f.payloadLen + f.dataLen ==> Decode(stream) == []
  {
    hide ReadHeader, Unpack;
  }

  /** `handleCommands`: the requests acted on are those of the stream, however it is cut into reads. */
  method HandleCommands(fd: InStream) returns (acted: seq<Request>)
    requires fd.reliable
    modifies fd
    ensures acted == Decode(old(fd.unread))
  {
    hide Decode;
    acted := [];
    ghost var all := fd.unread;
    while true
      invariant Decode(all) == acted + Decode(fd.unread)
      decreases |fd.unread|
    {
      var q := ReceiveRequest(fd);
      if q == None {
        return;
      }
      acted := acted + [q.value];
    }
  }
}
