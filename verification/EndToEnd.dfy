/**
 A `write` command from the client's terminal to the file, through every stage: the client's
 message, the handler's tokenizer, the helper request, the helper's handler.
 */
module EndToEnd {
  import opened Bytes
  import opened Streams
  import opened Words
  import opened FileSpec
  import opened WriteCommand
  import opened FileHandlers
  import opened LockPlans
  import Frames
  import HelperRequest

  // helper_commands.WRITE
  const WRITE := 9

  /** One message over a socket: the payload that is read is the payload that was sent. */
  method Deliver(payload: seq<byte>) returns (received: seq<byte>)
    requires IsUint32(|payload|)
    ensures received == payload
  {
    hide Frames.Decode, Frames.Encode;
    var m := Frames.Message(Frames.WRITECMD, 0, 0, payload);
    var out := new OutStream(true);
    var r, sent := Frames.SendMessage(out, m, (0, 0, 0));
    var into := new InStream(out.written, true);
    Frames.DecodeFrame(m, (0, 0, 0), []);
    var frame := Frames.Encode(m, (0, 0, 0));
    assert frame + [] == frame && frame[..|frame|] == frame && [] + frame == frame;
    assert into.unread == frame;
    ghost var rest := Frames.Decode([]);
    assert Frames.Decode(into.unread).0 == [m] + rest.0;
    var got := Frames.ReceiveOne(into);
    assert ([m] + rest.0)[0] == m && ([got.value] + Frames.Decode(into.unread).0)[0] == got.value;
    received := got.value.payload;
  }

  /** One request over the helper socket. */
  method AskHelper(q: HelperRequest.Request) returns (received: HelperRequest.Request)
    requires HelperRequest.Sendable(q) && |q.args| <= HelperRequest.MAXARGS
    ensures received == q
  {
    hide HelperRequest.Decode, HelperRequest.Encode, HelperRequest.Sendable;
    var out := new OutStream(true);
    var ok := HelperRequest.SendRequest(out, q);
    var into := new InStream(out.written, true);
    HelperRequest.DecodeOne(q, []);
    assert HelperRequest.Encode(q) + [] == HelperRequest.Encode(q);
    assert into.unread == HelperRequest.Encode(q);
    ghost var rest := HelperRequest.Decode([]);
    assert HelperRequest.Decode(into.unread) == [q] + rest by {
      assert q.args[..|q.args|] == q.args;
    }
    var got := HelperRequest.ReceiveRequest(into);
    assert ([q] + rest)[0] == q && ([got.value] + HelperRequest.Decode(into.unread))[0] == got.value;
    received := got.value;
  }

  /** The handler's request is one a C caller can make: its sizes fit, its path is a string. */
  lemma HandlersRequest(command: seq<byte>, content: seq<byte>, session: seq<byte>)
    requires NulFree(command) && IsUint32(|command| + 1 + |content|) && |session| == HelperRequest.SESSION
    requires var r := Meaning(command, content); r.Ok? && IsInt32(r.offset)
    ensures var r := Meaning(command, content);
            HelperRequest.Sendable(HelperRequest.Request(WRITE, [r.path], session, r.offset, r.data))
  {
    var r := Meaning(command, content);
    WordIsPart(command, r.path);
    assert HelperRequest.Joined([r.path]) == r.path + [NUL] by {
      assert [r.path][1..] == [];
    }
    hide WordsOf, Spans, Atoi, StartsWith, LastEnd;
  }

  lemma WordIsPart(command: seq<byte>, w: seq<byte>)
    requires NulFree(command) && w in WordsOf(command)
    ensures NulFree(w) && |w| <= |command|
  {
    SpansAreRuns(command, 0);
  }

  lemma BufferIsPayload(buf: seq<byte>, payload: seq<byte>, command: seq<byte>, content: seq<byte>)
    requires payload == command + [NUL] + content && |buf| == |payload| + 1
    requires forall i :: 0 <= i < |buf| ==> buf[i] == if i < |payload| then payload[i] else NUL
    ensures IsPayload(buf, command, content) && |payload| == |command| + 1 + |content|
  {
  }

  /**
   The whole command, nothing failing on the way. The handler asks for a login or reports a
   usage error, and the helper is never asked; or the file afterwards is the atomic write of
   what the message means.
   */
  method RunWrite(command: seq<byte>, stdin: InStream, loggedIn: bool, session: seq<byte>, helper: HelperProcess)
    returns (status: int)
    requires NulFree(command) && StartsWith(command, WRITE_PREFIX)
    requires IsUint32(|command| + 1 + |stdin.unread|) && |session| == HelperRequest.SESSION
    // atoi is undefined for numbers that do not fit an int
    requires Meaning(command, stdin.unread).Ok? ==> IsInt32(Meaning(command, stdin.unread).offset)
    requires stdin.reliable && helper.reliable && helper.held == {}
    modifies stdin, helper
    ensures helper.held == {} && helper.irregular == old(helper.irregular)
    ensures !loggedIn ==> status == -1 && helper.files == old(helper.files)
    ensures loggedIn ==>
            match Meaning(command, old(stdin.unread))
            case Usage => status == -1 && helper.files == old(helper.files)
            case Ok(path, offset, data) =>
              && (status == 0 <==> 0 <= offset && path !in helper.irregular)
              && (status == 0 ==>
                  helper.files == old(helper.files)[path := Written(old(helper.Contents(path)), offset, data)])
  {
    ghost var content := stdin.unread;
    hide *;
    var payload := BuildPayload(command, stdin);
    payload := Deliver(payload);
    var buf := new byte[|payload| + 1](i => if 0 <= i < |payload| then payload[i] else NUL);
    BufferIsPayload(buf[..], payload, command, content);
    if !loggedIn {
      return -1;
    }
    var r := ParseWrite(buf, |payload|, command, content);
    if r == Usage {
      return -1;
    }
    HandlersRequest(command, content, session);
    var q := AskHelper(HelperRequest.Request(WRITE, [r.path], session, r.offset, r.data));
    var res, putAt, put := helper.HandleWrite(q.args[0], q.offset, q.data);
    status := res.status;
  }

  /**
   What a user sees: `write -offset=N path` with any content, then the file read back at N.
   The content arrives whole, NULs and spaces included, followed by what the file had behind it.
   */
  method WriteThenRead(command: seq<byte>, n: nat, stdin: InStream, session: seq<byte>, helper: HelperProcess)
    returns (res: Response)
    requires NulFree(command) && StartsWith(command, WRITE_PREFIX) && command[|command| - 1] != SPACE
    requires |WordsOf(command)| == 3 && WordsOf(command)[1] == OFFSET_PREFIX + Decimal(n) && IsInt32(n)
    requires IsUint32(|command| + 1 + |stdin.unread|) && |session| == HelperRequest.SESSION
    requires stdin.reliable && helper.reliable && helper.held == {}
    requires WordsOf(command)[2] !in helper.irregular
    modifies stdin, helper
    ensures var path, content := WordsOf(command)[2], old(stdin.unread);
            var before := old(helper.Contents(path));
            var behind := if n + |content| < |before| then before[n + |content|..] else [];
            && helper.files.Keys == old(helper.files).Keys + {path}
            && (forall p :: p in old(helper.files) && p != path ==> helper.files[p] == old(helper.files)[p])
            && helper.files[path] == Written(before, n, content)
            && res == Response(0, (content + behind)[..Min(READ_LIMIT, |content + behind|)])
  {
    ghost var content := stdin.unread;
    var path := WordsOf(command)[2];
    ghost var before := helper.Contents(path);
    WriteRoundTrip(command, content, n);
    hide Meaning, WordsOf, StartsWith, Decimal, Written, ReadBack;
    var status := RunWrite(command, stdin, true, session, helper);
    ReadAfterWrite(before, n, content);
    res := helper.HandleRead(path, n);
  }
}
