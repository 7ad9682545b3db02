/**
 The server-to-client protocol: `msg_header` followed by its payload (src/server/net/net.c),
 and the client's header-then-payload reader (src/client/worker.c).
 */
module Frames {
  import opened Bytes
  import opened Streams

  const TEXT := 0
  const LSRES := 1
  const CMDREQ := 2
  const READCMD := 3
  const WRITECMD := 4
  const DOWNLOAD_RES := 6
  const UPLOAD_RES := 7

  // sizeof(msg_header): three 32-bit fields, one byte, three bytes of padding
  const HEADER := 16

  /** One message as the receiver sees it. */
  datatype Message = Message(kind: nat, status: nat, background: byte, payload: seq<byte>)

  predicate Sendable(m: Message) {
    m.kind < U32_LIMIT && m.status < U32_LIMIT && |m.payload| < U32_LIMIT
  }

  /** The header on the wire; the padding bytes carry no information. */
  function EncodeHeader(m: Message, padding: (byte, byte, byte)): (h: seq<byte>)
    requires Sendable(m)
    ensures |h| == HEADER
  {
    Le32(m.kind) + Le32(m.status) + Le32(|m.payload|) + [m.background, padding.0, padding.1, padding.2]
  }

  function Encode(m: Message, padding: (byte, byte, byte)): (f: seq<byte>)
    requires Sendable(m)
    ensures |f| == HEADER + |m.payload|
  {
    EncodeHeader(m, padding) + m.payload
  }

  function PayloadLength(header: seq<byte>): (n: nat)
    requires |header| >= HEADER
  {
    FromLe32(header[8..12])
  }

  function DecodeOne(header: seq<byte>, payload: seq<byte>): Message
    requires |header| >= HEADER
  {
    Message(FromLe32(header[0..4]), FromLe32(header[4..8]), header[12], payload)
  }

  /** The text message sent by `sendProtocolMsg*`: the string with its terminator. */
  function Text(kind: nat, status: int, text: seq<byte>, background: bool): Message
    requires IsInt32(status)
  {
    Message(kind, ToUnsigned(status), if background then 1 else 0, text + [NUL])
  }

  /** The receiver's loop on a stream: the complete messages, and the bytes of an unfinished one. */
  function Decode(stream: seq<byte>): (r: (seq<Message>, seq<byte>))
    ensures |r.1| <= |stream|
    decreases |stream|
  {
    if |stream| < HEADER then ([], stream)
    else
      var n := PayloadLength(stream);
      if |stream| < HEADER + n then ([], stream)
      else
        var rest := Decode(stream[HEADER + n..]);
        ([DecodeOne(stream, stream[HEADER..HEADER + n])] + rest.0, rest.1)
  }

  // ---------------------------------------------------------------- whole frames decode

  lemma HeaderFields(m: Message, padding: (byte, byte, byte), after: seq<byte>)
    requires Sendable(m)
    ensures var s := EncodeHeader(m, padding) + after;
            PayloadLength(s) == |m.payload| && DecodeOne(s, m.payload) == m
  {
    var s := EncodeHeader(m, padding) + after;
    Le32RoundTrip(m.kind);
    Le32RoundTrip(m.status);
    Le32RoundTrip(|m.payload|);
    assert s[0..4] == Le32(m.kind);
    assert s[4..8] == Le32(m.status);
    assert s[8..12] == Le32(|m.payload|);
  }

  /** A frame in front of a stream is one message in front of the decoded ones. */
  lemma DecodeFrame(m: Message, padding: (byte, byte, byte), after: seq<byte>)
    requires Sendable(m)
    ensures Decode(Encode(m, padding) + after) == ([m] + Decode(after).0, Decode(after).1)
  {
    var s := Encode(m, padding) + after;
    assert s == EncodeHeader(m, padding) + (m.payload + after);
    HeaderFields(m, padding, m.payload + after);
    assert s[HEADER..HEADER + |m.payload|] == m.payload;
    assert s[HEADER + |m.payload|..] == after;
  }

  /** A text arrives with its status and its flag, and ends where the receiver's `printf` stops. */
  lemma TextArrives(kind: nat, status: int, text: seq<byte>, background: bool, padding: (byte, byte, byte))
    requires IsInt32(status) && NulFree(text) && Sendable(Text(kind, status, text, background))
    ensures var ms := Decode(Encode(Text(kind, status, text, background), padding)).0;
            && |ms| == 1 && ms[0].kind == kind && ToSigned(ms[0].status) == status
            && (ms[0].background != 0 <==> background)
            && CString(ms[0].payload, 0) == text
  {
    var m := Text(kind, status, text, background);
    var f := Encode(m, padding);
    assert f + [] == f;
    DecodeFrame(m, padding, []);
    assert Decode([]) == ([], []);
    NulAtIs(text + [NUL], 0, |text|);
    hide Decode, Encode;
  }

  /** A proper prefix of a frame decodes to nothing yet. */
  lemma DecodePartial(m: Message, padding: (byte, byte, byte), n: nat)
    requires Sendable(m) && n < |Encode(m, padding)|
    ensures Decode(Encode(m, padding)[..n]) == ([], Encode(m, padding)[..n])
  {
    var s := Encode(m, padding)[..n];
    if n >= HEADER {
      assert s == EncodeHeader(m, padding) + m.payload[..n - HEADER];
      HeaderFields(m, padding, m.payload[..n - HEADER]);
    }
  }

  // ---------------------------------------------------------------- the loops

  /** `sendProtocolMsgBg`: header, then payload. A failed send leaves a proper prefix of the frame. */
  method SendMessage(fd: OutStream, m: Message, padding: (byte, byte, byte)) returns (r: int, ghost sent: nat)
    requires Sendable(m)
    modifies fd
    ensures sent <= |Encode(m, padding)|
    ensures fd.written == old(fd.written) + Encode(m, padding)[..sent]
    ensures r >= 0 <==> sent == |Encode(m, padding)|
    ensures fd.reliable ==> r >= 0
  {
    var h := EncodeHeader(m, padding);
    ghost var frame := Encode(m, padding);
    r, sent := WriteAll(fd, h);
    assert frame[..sent] == h[..sent];
    if r < 0 { return; }
    ghost var n;
    r, n := WriteAll(fd, m.payload);
    sent := HEADER + n;
    assert frame[..sent] == h + m.payload[..n];
  }

  /**
   `readThreadFunc` until end of file: the messages shown are those of the byte stream,
   whatever pieces it arrives in.
   */
  method ReceiveAll(fd: InStream) returns (messages: seq<Message>)
    requires fd.reliable
    modifies fd
    ensures messages == Decode(old(fd.unread)).0
  {
    hide Decode;
    messages := [];
    ghost var all := fd.unread;
    while true
      invariant Decode(all).0 == messages + Decode(fd.unread).0
      decreases |fd.unread|
    {
      ghost var here := fd.unread;
      var m := ReceiveOne(fd);
      if m == None {
        return;
      }
      messages := messages + [m.value];
    }
  }

  /** One turn of the loop: a header, then as many payload bytes as it announces. */
  method ReceiveOne(fd: InStream) returns (m: Option<Message>)
    requires fd.reliable
    modifies fd
    ensures m == None ==> Decode(old(fd.unread)).0 == []
    ensures m != None ==>
      && |fd.unread| < |old(fd.unread)|
      && Decode(old(fd.unread)).0 == [m.value] + Decode(fd.unread).0
  {
    hide Decode, DecodeOne, PayloadLength;
    ghost var here := fd.unread;
    var header := new byte[HEADER];
    var r := ReadAll(fd, header, HEADER);
    if r <= 0 {
      IncompleteFrame(here);
      return None;
    }
    var h := header[..];
    assert h == here[..HEADER];
    var n := PayloadLength(h);
    var payload := new byte[n + 1];
    if n > 0 {
      r := ReadAll(fd, payload, n);
      if r <= 0 {
        IncompleteFrame(here);
        return None;
      }
    }
    assert payload[..n] == here[HEADER..HEADER + n];
    assert fd.unread == here[HEADER + n..];
    CompleteFrame(here);
    m := Some(DecodeOne(h, payload[..n]));
  }

  /** A stream with a complete frame in front, and one without. */
  lemma CompleteFrame(stream: seq<byte>)
    requires |stream| >= HEADER && |stream| >= HEADER + PayloadLength(stream[..HEADER])
    ensures var n := PayloadLength(stream[..HEADER]);
            Decode(stream).0
            == [DecodeOne(stream[..HEADER], stream[HEADER..HEADER + n])] + Decode(stream[HEADER + n..]).0
  {
    hide Decode, PayloadLength, DecodeOne;
    var n := PayloadLength(stream[..HEADER]);
    SameHeader(stream, stream[HEADER..HEADER + n]);
    UnfoldDecode(stream);
  }

  lemma UnfoldDecode(stream: seq<byte>)
    requires |stream| >= HEADER && |stream| >= HEADER + PayloadLength(stream)
    ensures var n := PayloadLength(stream);
            Decode(stream).0 == [DecodeOne(stream, stream[HEADER..HEADER + n])] + Decode(stream[HEADER + n..]).0
  {
    hide PayloadLength, DecodeOne;
  }

  /** The header is read from the first sixteen bytes alone. */
  lemma SameHeader(stream: seq<byte>, payload: seq<byte>)
    requires |stream| >= HEADER
    ensures PayloadLength(stream[..HEADER]) == PayloadLength(stream)
    ensures DecodeOne(stream[..HEADER], payload) == DecodeOne(stream, payload)
  {
    var h := stream[..HEADER];
    assert stream[8..12] == h[8..12] && stream[0..4] == h[0..4] && stream[4..8] == h[4..8];
    hide FromLe32;
  }

  lemma IncompleteFrame(stream: seq<byte>)
    requires |stream| < HEADER || |stream| < HEADER + PayloadLength(stream[..HEADER])
    ensures Decode(stream).0 == []
  {
    if |stream| >= HEADER {
      SameHeader(stream, []);
    }
    hide PayloadLength, DecodeOne;
  }
}
