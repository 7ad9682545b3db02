/**
 The client's `write` message (src/client/worker.c) and how the handler takes it apart: an
 in-place tokenizer, then pointer arithmetic over the same buffer (src/server/handler/handlers.c).
 `StrTok` follows section 7.24.5.8 of ISO/IEC 9899:2011 for the delimiter set " ".
 */
module WriteCommand {
  import opened Bytes
  import opened Streams
  import opened Words

  const MAXARGS := 5

  // "write "
  const WRITE_PREFIX: seq<byte> := [119, 114, 105, 116, 101, 32]

  // "-offset="
  const OFFSET_PREFIX: seq<byte> := [45, 111, 102, 102, 115, 101, 116, 61]

  predicate StartsWith(s: seq<byte>, prefix: seq<byte>)
    ensures StartsWith(s, prefix) ==> |s| >= |prefix|
  {
    |s| >= |prefix| && s[..|prefix|] == prefix
  }

  // ---------------------------------------------------------------- the client

  /**
   The payload of a `write` message: the command line, a NUL, then standard input to its
   end, gathered in a growing buffer.
   */
  method BuildPayload(command: seq<byte>, stdin: InStream) returns (payload: seq<byte>)
    requires stdin.reliable
    modifies stdin
    ensures payload == command + [NUL] + old(stdin.unread)
  {
    ghost var all := stdin.unread;
    var content: seq<byte> := [];
    while true
      invariant content + stdin.unread == all
      decreases |stdin.unread|
    {
      var n, chunk := stdin.Read(1024);
      if n <= 0 { break; }
      content := content + chunk;
    }
    assert content == all;
    payload := command + [NUL] + content;
  }

  // ---------------------------------------------------------------- the tokenizer

  /** The buffer after the ends of these words became NULs. */
  function Cut(buf: seq<byte>, words: seq<(nat, nat)>): (r: seq<byte>)
    ensures |r| == |buf|
  {
    if words == [] then buf
    else
      var last, before := words[|words| - 1], Cut(buf, words[..|words| - 1]);
      if last.1 < |buf| then before[last.1 := NUL] else before
  }

  /** From the terminating NUL of the text on, the tokenizer changes nothing. */
  lemma {:induction false} CutKeepsTail(buf: seq<byte>, words: seq<(nat, nat)>, z: nat)
    requires z < |buf| && buf[z] == NUL && forall i :: 0 <= i < |words| ==> words[i].1 <= z
    ensures Cut(buf, words)[z..] == buf[z..]
    decreases |words|
  {
    if words != [] {
      var last := words[|words| - 1];
      CutKeepsTail(buf, words[..|words| - 1], z);
    }
  }

  lemma CutOneMore(buf: seq<byte>, words: seq<(nat, nat)>, w: (nat, nat))
    requires w.1 < |buf|
    ensures Cut(buf, words + [w]) == Cut(buf, words)[w.1 := NUL]
  {
    assert (words + [w])[..|words|] == words;
  }

  /**
   One `strtok` call on a buffer whose text reaches up to `z`. A NULL result is -1. The
   delimiter that ends the token is overwritten and the next call starts behind it.
   */
  method StrTok(buf: array<byte>, save: nat, ghost text: seq<byte>) returns (token: int, save': nat)
    requires save <= |text| < buf.Length && buf[|text|] == NUL
    requires NulFree(text) && buf[save..|text|] == text[save..]
    modifies buf
    ensures token == -1 <==> SkipSpaces(text, save) == |text|
    ensures token == -1 ==> buf[..] == old(buf[..]) && save' == |text|
    ensures token != -1 ==>
      && token == SkipSpaces(text, save)
      && buf[..] == old(buf[..])[WordEnd(text, token) := NUL]
      && save' == Min(WordEnd(text, token) + 1, |text|)
  {
    ghost var z := |text|;
    assert forall i :: save <= i < z ==> buf[i] == text[i];
    var a := save;
    while buf[a] == SPACE
      invariant save <= a <= z
      invariant SkipSpaces(text, save) == SkipSpaces(text, a)
      decreases z - a
    {
      a := a + 1;
    }
    if buf[a] == NUL {
      return -1, a;
    }
    var b := a;
    while buf[b] != NUL && buf[b] != SPACE
      invariant a <= b <= z
      invariant WordEnd(text, a) == WordEnd(text, b)
      decreases z - b
    {
      b := b + 1;
    }
    token := a;
    if buf[b] == NUL {
      assert buf[..] == old(buf[..])[b := NUL];
      save' := b;
    } else {
      buf[b] := NUL;
      save' := b + 1;
    }
  }

  /** Where each word starts. */
  function Starts(words: seq<(nat, nat)>): (r: seq<nat>)
    ensures |r| == |words|
  {
    seq(|words|, i requires 0 <= i < |words| => words[i].0)
  }

  lemma StartsAppend(stored: seq<(nat, nat)>, seen: seq<(nat, nat)>, spans: seq<(nat, nat)>, token: int)
    requires Pending(stored, seen, spans, token) && token != -1
    ensures 0 <= token && Starts(seen) == Starts(stored) + [token]
  {
  }

  /** The buffer `cur` after the calls that found the words `seen`; `save` is where the next one starts. */
  ghost predicate Tokenizing(cur: seq<byte>, start: seq<byte>, text: seq<byte>,
                             seen: seq<(nat, nat)>, save: nat, spans: seq<(nat, nat)>)
  {
    && save <= |text| < |start| == |cur|
    && start[|text|] == NUL && NulFree(text) && start[..|text|] == text
    && cur[save..] == start[save..]
    && (forall i :: 0 <= i < |seen| ==> seen[i].1 <= |text|)
    && cur == Cut(start, seen)
    && spans == seen + Spans(text, save)
  }

  /** One more call. */
  method Advance(buf: array<byte>, save: nat, ghost text: seq<byte>, ghost start: seq<byte>,
                 ghost seen: seq<(nat, nat)>, ghost spans: seq<(nat, nat)>)
    returns (token: int, save': nat, ghost seen': seq<(nat, nat)>)
    requires Tokenizing(buf[..], start, text, seen, save, spans)
    modifies buf
    ensures Tokenizing(buf[..], start, text, seen', save', spans)
    ensures Pending(seen, seen', spans, token)
  {
    hide Spans, SkipSpaces, WordEnd, Cut;
    assert forall i :: save <= i < buf.Length ==>
      buf[i] == buf[..][save..][i - save] == start[save..][i - save] == start[i];
    NextSpan(text, save);
    token, save' := StrTok(buf, save, text);
    NextSpan(text, save');
    seen' := seen;
    if token != -1 {
      var w := (token, WordEnd(text, token));
      seen' := seen + [w];
      CutOneMore(start, seen, w);
      assert seen + ([w] + Spans(text, save')) == seen' + Spans(text, save');
    }
  }

  /**
   The tokenizer's result: `argv` points at the first five words. The loop asks for one
   word more than it can store, so up to six word ends are overwritten.
   */
  ghost predicate Tokenized(cur: seq<byte>, start: seq<byte>, text: seq<byte>, argv: seq<nat>) {
    var spans := Spans(text, 0);
    && argv == Starts(spans[..Min(|spans|, MAXARGS)])
    && cur == Cut(start, spans[..Min(|spans|, MAXARGS + 1)])
  }

  /** `tokenizeCommand` on a buffer that starts with the C string `text`. */
  method TokenizeCommand(buf: array<byte>, ghost text: seq<byte>) returns (argv: seq<nat>)
    requires |text| < buf.Length && buf[|text|] == NUL && NulFree(text) && buf[..|text|] == text
    modifies buf
    ensures Tokenized(buf[..], old(buf[..]), text, argv)
  {
    ghost var spans, start := Spans(text, 0), buf[..];
    StartTokenizing(start, text);
    hide *;
    argv := [];
    ghost var stored: seq<(nat, nat)> := [];
    var token, save: nat, seen := Advance(buf, 0, text, start, [], spans);
    while token != -1 && |argv| < MAXARGS
      invariant |argv| <= MAXARGS
      invariant Tokenizing(buf[..], start, text, seen, save, spans)
      invariant argv == Starts(stored)
      invariant Pending(stored, seen, spans, token)
      decreases MAXARGS - |argv|
    {
      StartsAppend(stored, seen, spans, token);
      argv := argv + [token];
      stored := seen;
      token, save, seen := Advance(buf, save, text, start, seen, spans);
    }
    DoneTokenizing(buf[..], start, text, seen, save, stored, token);
  }

  /** The word found and not yet stored. */
  ghost predicate Pending(stored: seq<(nat, nat)>, seen: seq<(nat, nat)>, spans: seq<(nat, nat)>, token: int) {
    if token == -1 then seen == stored == spans
    else 0 <= token && exists w :: seen == stored + [w] && w.0 == token
  }

  lemma StartTokenizing(start: seq<byte>, text: seq<byte>)
    requires |text| < |start| && start[|text|] == NUL && NulFree(text) && start[..|text|] == text
    ensures Tokenizing(start, start, text, [], 0, Spans(text, 0))
  {
    assert [] + Spans(text, 0) == Spans(text, 0);
  }

  lemma DoneTokenizing(cur: seq<byte>, start: seq<byte>, text: seq<byte>, seen: seq<(nat, nat)>, save: nat,
                       stored: seq<(nat, nat)>, token: int)
    requires Tokenizing(cur, start, text, seen, save, Spans(text, 0))
    requires Pending(stored, seen, Spans(text, 0), token)
    requires token != -1 ==> |stored| == MAXARGS
    requires |stored| <= MAXARGS
    ensures Tokenized(cur, start, text, Starts(stored))
  {
    var spans := Spans(text, 0);
    hide Spans, Cut, Starts, NulFree;
    assert seen == spans[..|seen|] && stored == spans[..|stored|];
    assert token == -1 ==> |seen| == |spans|;
  }

  /** The span a `strtok` call finds, and those the calls after it find. */
  lemma NextSpan(text: seq<byte>, from: nat)
    requires from <= |text|
    ensures var a := SkipSpaces(text, from);
            if a == |text| then Spans(text, from) == []
            else Spans(text, from) == [(a, WordEnd(text, a))] + Spans(text, Min(WordEnd(text, a) + 1, |text|))
  {
    var a := SkipSpaces(text, from);
    if a < |text| && WordEnd(text, a) < |text| {
      SkipOneSpace(text, WordEnd(text, a));
    }
  }

  // ---------------------------------------------------------------- the handler

  datatype WriteRequest = Usage | Ok(path: seq<byte>, offset: int, data: seq<byte>)

  /** What follows the last word in the payload, one byte skipped: the data the handler finds. */
  function Behind(command: seq<byte>, content: seq<byte>): (data: seq<byte>) {
    BehindEnd(command, content, LastEnd(command))
  }

  function BehindEnd(command: seq<byte>, content: seq<byte>, end: nat): seq<byte> {
    if end < |command| then command[end + 1..] + [NUL] + content else content
  }

  /** Where the last word ends. */
  function LastEnd(command: seq<byte>): (end: nat)
    ensures end <= |command|
  {
    var spans := Spans(command, 0);
    if spans == [] then |command| else spans[|spans| - 1].1
  }

  /** The meaning of a `write` message. */
  function Meaning(command: seq<byte>, content: seq<byte>): WriteRequest {
    var ws := WordsOf(command);
    if |ws| == 2 then Ok(ws[1], 0, Behind(command, content))
    else if |ws| == 3 && StartsWith(ws[1], OFFSET_PREFIX) then
      Ok(ws[2], Atoi(ws[1][|OFFSET_PREFIX|..]), Behind(command, content))
    else Usage
  }

  lemma {:induction false} CutAt(buf: seq<byte>, words: seq<(nat, nat)>, i: nat)
    requires i < |buf|
    ensures Cut(buf, words)[i] == if exists w :: w in words && w.1 == i then NUL else buf[i]
    decreases |words|
  {
    if words != [] {
      var last, before := words[|words| - 1], words[..|words| - 1];
      CutAt(buf, before, i);
      assert words == before + [last];
    }
  }

  /** Cutting at word ends leaves the words themselves alone. */
  lemma WordSurvives(buf: seq<byte>, text: seq<byte>, m: nat, k: nat, i: nat)
    requires |text| < |buf| && NulFree(text) && buf[..|text|] == text
    requires k < m <= |Spans(text, 0)|
    requires InSpan(Spans(text, 0)[k], i)
    ensures var cut := Cut(buf, Spans(text, 0)[..m]); cut[i] == text[i] && cut[i] != NUL
  {
    var spans := Spans(text, 0);
    SpansAreRuns(text, 0);
    assert spans[k] in spans && MaximalRun(text, spans[k]);
    hide Spans, Cut;
    CutAt(buf, spans[..m], i);
    assert buf[i] == buf[..|text|][i];
    forall w | w in spans[..m] ensures w.1 != i {
      assert w in spans && MaximalRun(text, w);
    }
  }

  lemma WordEndIsCut(buf: seq<byte>, text: seq<byte>, m: nat, k: nat)
    requires |text| < |buf|
    requires k < m <= |Spans(text, 0)|
    ensures Cut(buf, Spans(text, 0)[..m])[Spans(text, 0)[k].1] == NUL
  {
    var spans := Spans(text, 0);
    hide Spans, Cut;
    CutAt(buf, spans[..m], spans[k].1);
    assert spans[..m][k] == spans[k];
  }

  lemma CopiedCString(cut: seq<byte>, text: seq<byte>, a: nat, b: nat)
    requires a <= b <= |text| < |cut| && cut[b] == NUL
    requires forall i :: a <= i < b ==> cut[i] == text[i] && cut[i] != NUL
    ensures NulAt(cut, a) == b && CString(cut, a) == text[a..b]
  {
    NulAtIs(cut, a, b);
  }

  /** Every stored pointer is a C string holding its word. */
  lemma TokenString(buf: seq<byte>, text: seq<byte>, m: nat, k: nat)
    requires |text| < |buf| && NulFree(text) && buf[..|text|] == text
    requires k < m <= |Spans(text, 0)|
    ensures var spans := Spans(text, 0);
            && NulAt(Cut(buf, spans[..m]), spans[k].0) == spans[k].1
            && CString(Cut(buf, spans[..m]), spans[k].0) == WordsOf(text)[k]
  {
    hide NulAt, CString, NulFree, Cut;
    var word, cut := Spans(text, 0)[k], Cut(buf, Spans(text, 0)[..m]);
    WordEndIsCut(buf, text, m, k);
    forall i: nat | word.0 <= i < word.1
      ensures cut[i] == text[i] && cut[i] != NUL
    {
      WordSurvives(buf, text, m, k, i);
    }
    CopiedCString(cut, text, word.0, word.1);
  }

  /** The handler's buffer: command line, NUL, content, and the terminator the handler adds. */
  ghost predicate IsPayload(buf: seq<byte>, command: seq<byte>, content: seq<byte>) {
    buf == command + [NUL] + content + [NUL]
  }

  predicate InBounds(buf: seq<byte>, argv: seq<nat>) {
    forall i :: 0 <= i < |argv| ==> argv[i] <= |buf|
  }

  /**
   `handleWrite` after tokenizing: step over the last token for the data, take path and
   offset from the other tokens.
   */
  function FromTokens(buf: seq<byte>, argv: seq<nat>, payloadLength: nat): WriteRequest
    requires argv != [] && InBounds(buf, argv)
  {
    var cmdEnd := NulAt(buf, argv[|argv| - 1]) + 1;
    var dataLen := Wrap32(payloadLength - (cmdEnd - argv[0]));
    var data := if cmdEnd + dataLen <= |buf| then buf[cmdEnd..cmdEnd + dataLen] else [];
    if |argv| == 2 then Ok(CString(buf, argv[1]), 0, data)
    else if |argv| == 3 && StartsWith(CString(buf, argv[1]), OFFSET_PREFIX) then
      Ok(CString(buf, argv[2]), Atoi(CString(buf, argv[1])[|OFFSET_PREFIX|..]), data)
    else Usage
  }

  lemma ArgvShape(cut: seq<byte>, start: seq<byte>, argv: seq<nat>, command: seq<byte>)
    requires StartsWith(command, WRITE_PREFIX) && |start| > |command|
    requires Tokenized(cut, start, command, argv)
    ensures argv != [] && argv[0] == 0 && InBounds(cut, argv)
    ensures |argv| == Min(|Spans(command, 0)|, MAXARGS)
    ensures forall k :: 0 <= k < |argv| ==> argv[k] == Spans(command, 0)[k].0
  {
    WriteIsAWord(command);
    var spans := Spans(command, 0);
    hide Spans;
    forall k | 0 <= k < |argv| ensures argv[k] == spans[k].0 {
    }
    assert forall k :: 0 <= k < |spans| ==> spans[k] in spans;
  }

  lemma SmallerFits(m: nat, n: nat)
    requires m <= n && IsUint32(n)
    ensures IsUint32(m) && Wrap32(m) == m
  {
  }

  /** The pointer arithmetic, once the last token is known to end at `end`. */
  lemma DataArithmetic(cut: seq<byte>, argv: seq<nat>, payloadLength: nat, end: nat)
    requires argv != [] && InBounds(cut, argv) && argv[0] == 0
    requires NulAt(cut, argv[|argv| - 1]) == end && end + 1 <= payloadLength < |cut| && IsUint32(payloadLength)
    ensures var data := cut[end + 1..payloadLength];
            FromTokens(cut, argv, payloadLength) ==
            if |argv| == 2 then Ok(CString(cut, argv[1]), 0, data)
            else if |argv| == 3 && StartsWith(CString(cut, argv[1]), OFFSET_PREFIX) then
              Ok(CString(cut, argv[2]), Atoi(CString(cut, argv[1])[|OFFSET_PREFIX|..]), data)
            else Usage
  {
    hide CString, NulAt, Atoi, IsUint32, Wrap32, StartsWith, InBounds;
    assert payloadLength - (end + 1 - argv[0]) == payloadLength - (end + 1);
    SmallerFits(payloadLength - (end + 1), payloadLength);
    assert Wrap32(payloadLength - (end + 1 - argv[0])) == payloadLength - (end + 1);
  }

  /** What the tokenizer leaves behind, for the two word counts that matter. */
  lemma FewTokens(cut: seq<byte>, start: seq<byte>, argv: seq<nat>, command: seq<byte>)
    requires StartsWith(command, WRITE_PREFIX) && NulFree(command)
    requires |start| > |command| && start[..|command|] == command
    requires Tokenized(cut, start, command, argv) && 2 <= |Spans(command, 0)| <= 3
    ensures cut == Cut(start, Spans(command, 0)) && |cut| == |start|
    ensures |argv| == |Spans(command, 0)| && argv[0] == 0 && InBounds(cut, argv)
    ensures NulAt(cut, argv[|argv| - 1]) == LastEnd(command)
    ensures CString(cut, argv[1]) == WordsOf(command)[1]
    ensures CString(cut, argv[|argv| - 1]) == WordsOf(command)[|argv| - 1]
  {
    ArgvShape(cut, start, argv, command);
    var n := |Spans(command, 0)|;
    assert Spans(command, 0)[..n] == Spans(command, 0);
    hide Spans, Cut, NulFree, NulAt, CString, WordsOf, Starts, StartsWith, InBounds;
    TokenString(start, command, n, 1);
    TokenString(start, command, n, n - 1);
  }

  lemma TokensMean(cut: seq<byte>, start: seq<byte>, argv: seq<nat>, command: seq<byte>, content: seq<byte>)
    requires NulFree(command) && StartsWith(command, WRITE_PREFIX)
    requires IsPayload(start, command, content) && IsUint32(|command| + 1 + |content|)
    requires Tokenized(cut, start, command, argv)
    ensures argv != [] && InBounds(cut, argv)
    ensures FromTokens(cut, argv, |command| + 1 + |content|) == Meaning(command, content)
  {
    hide *;
    PayloadShape(start, command, content, 0);
    ArgvShape(cut, start, argv, command);
    var length := |command| + 1 + |content|;
    if |argv| == 2 || |argv| == 3 {
      CountIs(argv, command);
      FewTokens(cut, start, argv, command);
      DataFound(cut, start, command, content, length);
      DataArithmetic(cut, argv, length, LastEnd(command));
      MeaningIs(command, content);
    } else {
      CountIs(argv, command);
      WordCount(command, content);
      OtherCounts(cut, argv, length);
    }
  }

  lemma CountIs(argv: seq<nat>, command: seq<byte>)
    requires |argv| == Min(|Spans(command, 0)|, MAXARGS)
    ensures |argv| == 2 || |argv| == 3 ==> |argv| == |Spans(command, 0)| == |WordsOf(command)|
    ensures |argv| != 2 && |argv| != 3 ==> |Spans(command, 0)| != 2 && |Spans(command, 0)| != 3
  {
  }

  lemma MeaningIs(command: seq<byte>, content: seq<byte>)
    requires |WordsOf(command)| == 2 || |WordsOf(command)| == 3
    ensures var ws := WordsOf(command);
            Meaning(command, content) ==
            if |ws| == 2 then Ok(ws[1], 0, Behind(command, content))
            else if StartsWith(ws[1], OFFSET_PREFIX) then
              Ok(ws[2], Atoi(ws[1][|OFFSET_PREFIX|..]), Behind(command, content))
            else Usage
  {
    hide WordsOf, Behind, StartsWith, Atoi;
  }

  lemma WordCount(command: seq<byte>, content: seq<byte>)
    ensures |Spans(command, 0)| != 2 && |Spans(command, 0)| != 3 ==> Meaning(command, content) == Usage
  {
  }

  lemma OtherCounts(cut: seq<byte>, argv: seq<nat>, payloadLength: nat)
    requires argv != [] && InBounds(cut, argv) && |argv| != 2 && |argv| != 3
    ensures FromTokens(cut, argv, payloadLength) == Usage
  {
  }

  /** The whole of `handleWrite` up to its helper request. */
  method ParseWrite(payload: array<byte>, payloadLength: nat, ghost command: seq<byte>, ghost content: seq<byte>)
    returns (r: WriteRequest)
    requires NulFree(command) && StartsWith(command, WRITE_PREFIX)
    requires IsPayload(payload[..], command, content)
    requires payloadLength == |command| + 1 + |content| && IsUint32(payloadLength)
    modifies payload
    ensures r == Meaning(command, content)
  {
    ghost var start := payload[..];
    PayloadShape(start, command, content, 0);
    assert payload[..|command|] == start[..|command|];
    hide *;
    var argv := TokenizeCommand(payload, command);
    TokensMean(payload[..], start, argv, command, content);
    r := FromTokens(payload[..], argv, payloadLength);
  }

  lemma PayloadShape(start: seq<byte>, command: seq<byte>, content: seq<byte>, e: nat)
    requires IsPayload(start, command, content) && e <= |command|
    ensures |start| == |command| + 1 + |content| + 1
    ensures start[..|command|] == command && start[|command|] == NUL
    ensures start[e + 1..|command| + 1 + |content|] == BehindEnd(command, content, e)
  {
  }

  lemma WriteIsAWord(command: seq<byte>)
    requires StartsWith(command, WRITE_PREFIX)
    ensures Spans(command, 0) != [] && Spans(command, 0)[0].0 == 0
  {
    assert command[0] == WRITE_PREFIX[0];
  }

  /** Behind the last word the tokenizer has changed nothing. */
  lemma CutBehind(start: seq<byte>, text: seq<byte>, i: nat)
    requires |text| < |start| && Spans(text, 0) != [] && Spans(text, 0)[|Spans(text, 0)| - 1].1 < i < |start|
    ensures Cut(start, Spans(text, 0))[i] == start[i]
  {
    var spans := Spans(text, 0);
    SpansOrdered(text, 0);
    assert forall w :: w in spans ==> w.0 < w.1;
    hide Spans;
    CutAt(start, spans, i);
    forall w | w in spans ensures w.1 < i {
      var k :| 0 <= k < |spans| && spans[k] == w;
      assert k < |spans| - 1 ==> spans[k].1 < spans[|spans| - 1].0;
    }
  }

  lemma CutTail(cut: seq<byte>, start: seq<byte>, text: seq<byte>)
    requires |text| < |start| && Spans(text, 0) != []
    requires cut == Cut(start, Spans(text, 0))
    ensures cut[LastEnd(text) + 1..] == start[LastEnd(text) + 1..]
  {
    var end := LastEnd(text);
    hide Spans, Cut;
    forall i | end < i < |start| ensures cut[i] == start[i] {
      CutBehind(start, text, i);
    }
  }

  lemma DataFound(cut: seq<byte>, start: seq<byte>, command: seq<byte>, content: seq<byte>, length: nat)
    requires IsPayload(start, command, content) && |start| > |command| && Spans(command, 0) != []
    requires length == |command| + 1 + |content|
    requires cut == Cut(start, Spans(command, 0))
    ensures LastEnd(command) + 1 <= length < |cut|
    ensures cut[LastEnd(command) + 1..length] == Behind(command, content)
  {
    var end := LastEnd(command);
    PayloadShape(start, command, content, end);
    CutTail(cut, start, command);
    hide Spans, Cut, IsPayload, LastEnd;
    Slices(cut, start, end + 1, length);
  }

  lemma Slices(a: seq<byte>, b: seq<byte>, from: nat, to: nat)
    requires |a| == |b| && from <= to <= |a| && a[from..] == b[from..]
    ensures a[from..to] == b[from..to]
  {
    assert a[from..to] == a[from..][..to - from];
    assert b[from..to] == b[from..][..to - from];
  }

  // ---------------------------------------------------------------- round trip

  lemma LastWordEnd(command: seq<byte>)
    requires Spans(command, 0) != []
    ensures var spans := Spans(command, 0);
            command != [] && (spans[|spans| - 1].1 == |command| <==> command[|command| - 1] != SPACE)
  {
    var spans := Spans(command, 0);
    var last := spans[|spans| - 1];
    SpansAreRuns(command, 0);
    SpansOrdered(command, 0);
    assert last in spans && MaximalRun(command, last);
    hide Spans;
    if command[|command| - 1] != SPACE {
      SpansCover(command, 0, |command| - 1);
      var w :| w in spans && InSpan(w, |command| - 1);
      assert MaximalRun(command, w);
      var k :| 0 <= k < |spans| && spans[k] == w;
      assert k == |spans| - 1;
    }
  }

  /**
   The content comes back unchanged exactly when the command line does not end in a space.
   Each trailing space but the first, and the terminating NUL, would become data.
   */
  lemma ContentRoundTrip(command: seq<byte>, content: seq<byte>)
    requires StartsWith(command, WRITE_PREFIX)
    ensures WordsOf(command) != []
    ensures Behind(command, content) == content <==> command[|command| - 1] != SPACE
  {
    WriteIsAWord(command);
    LastWordEnd(command);
    hide Spans;
    if command[|command| - 1] == SPACE {
      assert |Behind(command, content)| > |content|;
    }
  }

  /**
   The `write` command round trip. With two words, or with three of which the second is
   `-offset=N`, a command line not ending in a space gives back its path, its offset and any
   content whatever, NULs and spaces included.
   */
  lemma WriteRoundTrip(command: seq<byte>, content: seq<byte>, n: nat)
    requires StartsWith(command, WRITE_PREFIX) && command[|command| - 1] != SPACE
    ensures |WordsOf(command)| == 2 ==> Meaning(command, content) == Ok(WordsOf(command)[1], 0, content)
    ensures |WordsOf(command)| == 3 && WordsOf(command)[1] == OFFSET_PREFIX + Decimal(n) ==>
      Meaning(command, content) == Ok(WordsOf(command)[2], n, content)
  {
    ContentRoundTrip(command, content);
    if |WordsOf(command)| == 3 && WordsOf(command)[1] == OFFSET_PREFIX + Decimal(n) {
      AtoiOfDecimal(n);
      assert WordsOf(command)[1][|OFFSET_PREFIX|..] == Decimal(n);
    }
  }
}
