/**
 The three processes that move a file between client and server: a reader of the source
 file, the handler's relay, and a writer of the destination file, joined by two sockets.
 Every read and every partial write is its own step, and any process may fail at any step.

 Download: helper (source), handler (relay, stops after the announced length), client (sink).
 Upload: client (source), handler (relay, stops at end of file), helper (sink).
 */
module Pipeline {
  import opened Bytes
  import opened Runs

  const BUFFER := 16384

  /** How the relay loop knows it is done. */
  datatype Stop = AfterLength(total: nat) | AtEndOfFile

  datatype Stage = Running | Finished | Broken

  datatype State = State(
    file: seq<byte>,      // the source file, never changed
    stop: Stop,
    pos: nat,             // source: file position
    buf1: seq<byte>,      // source: read and not yet sent
    stage1: Stage,
    sock1: seq<byte>,     // in flight between source and relay
    buf2: seq<byte>,      // relay: received and not yet passed on
    relayed: nat,         // relay: bytes passed on
    stage2: Stage,
    sock2: seq<byte>,     // in flight between relay and sink
    buf3: seq<byte>,      // sink: received and not yet written
    stage3: Stage,
    dest: seq<byte>       // the destination file
  )

  /** The length the helper announces: `st_size` in a 32-bit field. */
  function Announced(file: seq<byte>): (n: nat)
    ensures n <= |file|
    ensures n == |file| <==> |file| < U32_LIMIT
  {
    |file| % U32_LIMIT
  }

  ghost predicate Init(s: State) {
    && (s.stop.AfterLength? ==> s.stop.total == Announced(s.file))
    && s.pos == 0 && s.relayed == 0
    && s.buf1 == s.buf2 == s.buf3 == s.sock1 == s.sock2 == s.dest == []
    && s.stage1 == s.stage2 == s.stage3 == Running
  }

  datatype Action =
    | SourceRead(n: nat) | SourceSend(n: nat) | SourceEof | SourceBreak
    | RelayRead(n: nat) | RelaySend(n: nat) | RelayEnd | RelayBreak
    | SinkRead(n: nat) | SinkWrite(n: nat) | SinkEof | SinkBreak

  /** Bytes the relay may still ask for in one read. */
  function RelayRoom(s: State): int {
    if s.stop.AfterLength? then Min(BUFFER, s.stop.total - s.relayed) else BUFFER
  }

  /** The relay loop's own exit test: the length is reached, or the source closed and nothing is left. */
  predicate RelayDone(s: State) {
    match s.stop
    case AfterLength(total) => s.relayed >= total
    case AtEndOfFile => s.sock1 == [] && s.stage1 != Running
  }

  predicate Enabled(s: State, a: Action) {
    match a
    case SourceRead(n) => s.stage1 == Running && s.buf1 == [] && 1 <= n <= BUFFER && s.pos + n <= |s.file|
    case SourceSend(n) => s.stage1 == Running && 1 <= n <= |s.buf1|
    case SourceEof => s.stage1 == Running && s.buf1 == [] && s.pos >= |s.file|
    case SourceBreak => s.stage1 == Running
    case RelayRead(n) => s.stage2 == Running && s.buf2 == [] && !RelayDone(s) && 1 <= n <= Min(RelayRoom(s), |s.sock1|)
    case RelaySend(n) => s.stage2 == Running && 1 <= n <= |s.buf2|
    case RelayEnd => s.stage2 == Running && s.buf2 == [] && RelayDone(s)
    // a failed read or a failed write; neither happens once the exit test holds
    case RelayBreak => s.stage2 == Running && (s.buf2 != [] || !RelayDone(s))
    case SinkRead(n) => s.stage3 == Running && s.buf3 == [] && 1 <= n <= Min(BUFFER, |s.sock2|)
    case SinkWrite(n) => s.stage3 == Running && 1 <= n <= |s.buf3|
    case SinkEof => s.stage3 == Running && s.buf3 == [] && s.sock2 == [] && s.stage2 != Running
    case SinkBreak => s.stage3 == Running
  }

  function Apply(s: State, a: Action): State
    requires Enabled(s, a)
  {
    match a
    case SourceRead(n) => s.(buf1 := s.file[s.pos..s.pos + n], pos := s.pos + n)
    case SourceSend(n) => s.(sock1 := s.sock1 + s.buf1[..n], buf1 := s.buf1[n..])
    case SourceEof => s.(stage1 := Finished)
    case SourceBreak => s.(stage1 := Broken)
    case RelayRead(n) => s.(buf2 := s.sock1[..n], sock1 := s.sock1[n..])
    case RelaySend(n) => s.(sock2 := s.sock2 + s.buf2[..n], buf2 := s.buf2[n..], relayed := s.relayed + n)
    case RelayEnd => s.(stage2 := Finished)
    case RelayBreak => s.(stage2 := Broken)
    case SinkRead(n) => s.(buf3 := s.sock2[..n], sock2 := s.sock2[n..])
    case SinkWrite(n) => s.(dest := s.dest + s.buf3[..n], buf3 := s.buf3[n..])
    case SinkEof => s.(stage3 := Finished)
    case SinkBreak => s.(stage3 := Broken)
  }

  predicate Step(s: State, a: Action, s': State) {
    Enabled(s, a) && s' == Apply(s, a)
  }

  ghost predicate Next(s: State, s': State) {
    exists a :: Step(s, a, s')
  }

  ghost predicate Run(run: seq<State>) {
    IsRun(Init, Next, run)
  }

  // ---------------------------------------------------------------- conservation

  /** Destination, everything in flight, and the unread rest of the source, in order. */
  function Whole(s: State): seq<byte>
    requires s.pos <= |s.file|
  {
    s.dest + (s.buf3 + (s.sock2 + (s.buf2 + (s.sock1 + (s.buf1 + s.file[s.pos..])))))
  }

  /** Moving the first bytes of one piece to the end of the piece before it. */
  lemma Shift(x: seq<byte>, y: seq<byte>, after: seq<byte>, n: nat)
    requires n <= |y|
    ensures (x + y[..n]) + (y[n..] + after) == x + (y + after)
    ensures x == [] ==> x + y[..n] == y[..n]
  {
    assert y == y[..n] + y[n..];
  }

  lemma StepConserves(s: State, a: Action)
    requires s.pos <= |s.file| && Enabled(s, a)
    ensures var t := Apply(s, a); t.pos <= |t.file| && Whole(t) == Whole(s)
  {
    var rest := s.file[s.pos..];
    match a
    case SourceRead(n) =>
      assert s.buf1 + rest == s.file[s.pos..s.pos + n] + s.file[s.pos + n..];
    case SourceSend(n) => Shift(s.sock1, s.buf1, rest, n);
    case RelayRead(n) => Shift(s.buf2, s.sock1, s.buf1 + rest, n);
    case RelaySend(n) => Shift(s.sock2, s.buf2, s.sock1 + (s.buf1 + rest), n);
    case SinkRead(n) => Shift(s.buf3, s.sock2, s.buf2 + (s.sock1 + (s.buf1 + rest)), n);
    case SinkWrite(n) => Shift(s.dest, s.buf3, s.sock2 + (s.buf2 + (s.sock1 + (s.buf1 + rest))), n);
    case _ =>
  }

  /** Who has finished, how, and how many bytes have passed. */
  predicate Counted(s: State) {
    && s.pos <= |s.file|
    && s.relayed == |s.dest| + |s.buf3| + |s.sock2|
    && (s.stop.AfterLength? ==> s.stop.total == Announced(s.file) && s.relayed + |s.buf2| <= s.stop.total)
    && (s.stage1 == Finished ==> s.buf1 == [] && s.pos == |s.file|)
    && (s.stage2 == Finished ==> s.buf2 == [])
    && (s.stage2 == Finished && s.stop.AfterLength? ==> s.relayed == s.stop.total)
    && (s.stage2 == Finished && s.stop.AtEndOfFile? ==> s.stage1 != Running && s.sock1 == [])
    && (s.stage2 == Broken && s.stop.AfterLength? ==> s.relayed < s.stop.total)
    && (s.stage3 == Finished ==> s.stage2 != Running && s.buf3 == [] && s.sock2 == [])
  }

  lemma StepCounts(s: State, a: Action)
    requires Counted(s) && Enabled(s, a)
    ensures Counted(Apply(s, a))
  {
  }

  ghost predicate Inv(s: State) {
    Counted(s) && Whole(s) == s.file
  }

  /** Conservation in every reachable state, in every interleaving, chunking and failure. */
  lemma {:induction false} BytesConserved(run: seq<State>)
    requires Run(run)
    ensures var s := run[|run| - 1];
            Inv(s) && s.file == run[0].file && s.stop == run[0].stop
    decreases |run|
  {
    if |run| == 1 {
      InitInv(run[0]);
    } else {
      hide Init, Next, Inv;
      PrefixIsRun(Init, Next, run, |run| - 1);
      BytesConserved(run[..|run| - 1]);
      assert StepAt(Next, run, |run| - 1);
      NextKeepsInv(run[|run| - 2], run[|run| - 1]);
    }
  }

  lemma InitInv(s: State)
    requires Init(s)
    ensures Inv(s)
  {
    assert Whole(s) == s.file;
  }

  lemma NextKeepsInv(s: State, s': State)
    requires Next(s, s') && Inv(s)
    ensures Inv(s') && s'.file == s.file && s'.stop == s.stop
  {
    var a :| Step(s, a, s');
    StepCounts(s, a);
    StepConserves(s, a);
    hide Counted, Whole;
  }

  // ---------------------------------------------------------------- what the ends can rely on

  /**
   Download. Once the client meets end of file, it holds exactly the announced number of
   bytes of the server's file if the handler's loop ended by its own test, and fewer if the
   loop broke; the whole file also needs a size below 2^32.
   */
  lemma DownloadOutcome(run: seq<State>)
    requires Run(run) && run[0].stop.AfterLength?
    requires run[|run| - 1].stage3 == Finished
    ensures var s := run[|run| - 1];
            && s.dest <= s.file
            && (s.stage2 == Finished <==> s.dest == s.file[..Announced(s.file)])
            && (s.dest == s.file <==> s.stage2 == Finished && |s.file| < U32_LIMIT)
  {
    BytesConserved(run);
    var s := run[|run| - 1];
    assert s.dest == s.file[..|s.dest|];
  }

  /**
   Upload. There is no length: when both loops before it ended at end of file, the helper
   has stored the client's whole file; in any other case what it stored is the file without
   the bytes still caught in the relay, the socket and the client.
   */
  lemma UploadOutcome(run: seq<State>)
    requires Run(run) && run[0].stop.AtEndOfFile?
    requires run[|run| - 1].stage3 == Finished
    ensures var s := run[|run| - 1];
            && s.pos <= |s.file|
            && s.dest + (s.buf2 + (s.sock1 + (s.buf1 + s.file[s.pos..]))) == s.file
            && (s.stage1 == Finished && s.stage2 == Finished ==> s.dest == s.file)
            && (s.dest == s.file <==> s.buf2 == [] && s.sock1 == [] && s.buf1 == [] && s.pos == |s.file|)
  {
    BytesConserved(run);
    var s := run[|run| - 1];
    assert Whole(s) == s.dest + (s.buf2 + (s.sock1 + (s.buf1 + s.file[s.pos..])));
  }

  /** At any moment the destination is an initial part of the source. */
  lemma DestIsPrefix(run: seq<State>)
    requires Run(run)
    ensures run[|run| - 1].dest <= run[|run| - 1].file
  {
    BytesConserved(run);
    var s := run[|run| - 1];
  }

  // ---------------------------------------------------------------- a copy can be completed

  predicate IsBreak(a: Action) {
    a == SourceBreak || a == RelayBreak || a == SinkBreak
  }

  /** The relay loop of a download also ends on an end of file that comes too early. */
  predicate EndsEarly(s: State, a: Action) {
    a == RelayBreak && s.stop.AfterLength? && s.buf2 == [] && s.sock1 == [] && s.stage1 != Running
  }

  ghost predicate SmoothBy(s: State, a: Action, s': State) {
    (!IsBreak(a) || EndsEarly(s, a)) && Step(s, a, s')
  }

  /** A step in which no call fails. */
  ghost predicate Smooth(s: State, s': State) {
    exists a :: SmoothBy(s, a, s')
  }

  ghost predicate NoneBroken(s: State) {
    s.stage1 != Broken && s.stage2 != Broken && s.stage3 != Broken
  }

  predicate AllFinished(s: State) {
    s.stage1 == Finished && s.stage2 == Finished && s.stage3 == Finished
  }

  predicate NoneRunning(s: State) {
    s.stage1 != Running && s.stage2 != Running && s.stage3 != Running
  }

  /** What the three processes still have to do: each byte has up to six moves before it. */
  function Left(s: State): (n: nat)
    requires s.pos <= |s.file|
  {
    6 * (|s.file| - s.pos) + 5 * |s.buf1| + 4 * |s.sock1| + 3 * |s.buf2| + 2 * |s.sock2| + |s.buf3|
    + (if s.stage1 == Running then 1 else 0) + (if s.stage2 == Running then 1 else 0)
    + (if s.stage3 == Running then 1 else 0)
  }

  lemma WholeLength(s: State)
    requires s.pos <= |s.file|
    ensures |Whole(s)| == |s.dest| + |s.buf3| + |s.sock2| + |s.buf2| + |s.sock1| + |s.buf1| + (|s.file| - s.pos)
  {
  }

  /** The next move, one byte at a time. */
  function Move(s: State): Action {
    if s.stage1 == Running then
      if s.buf1 != [] then SourceSend(1) else if s.pos < |s.file| then SourceRead(1) else SourceEof
    else if s.stage2 == Running then
      if s.buf2 != [] then RelaySend(1)
      else if RelayDone(s) then RelayEnd
      else if s.sock1 != [] then RelayRead(1)
      else RelayBreak
    else if s.buf3 != [] then SinkWrite(1)
    else if s.sock2 != [] then SinkRead(1)
    else SinkEof
  }

  lemma MoveIsEnabled(s: State)
    requires Inv(s) && !NoneRunning(s)
    ensures Enabled(s, Move(s)) && (!IsBreak(Move(s)) || EndsEarly(s, Move(s)))
    ensures NoneBroken(s) ==> !IsBreak(Move(s))
  {
    WholeLength(s);
    hide Whole;
  }

  lemma MoveGetsOn(s: State)
    requires Counted(s) && Enabled(s, Move(s))
    ensures var s' := Apply(s, Move(s));
            && s'.pos <= |s'.file| && Left(s') < Left(s)
            && (NoneBroken(s) && !IsBreak(Move(s)) ==> NoneBroken(s'))
  {
  }

  lemma NextMove(s: State) returns (s': State)
    requires Inv(s) && !NoneRunning(s)
    ensures Next(s, s') && Smooth(s, s') && (NoneBroken(s) ==> NoneBroken(s'))
    ensures s.pos <= |s.file| && s'.pos <= |s'.file| && Left(s') < Left(s)
  {
    hide Whole, Left, NoneRunning, Enabled, Apply, EndsEarly;
    MoveIsEnabled(s);
    MoveGetsOn(s);
    s' := Apply(s, Move(s));
    assert Step(s, Move(s), s');
    hide Move, Step;
    assert SmoothBy(s, Move(s), s');
  }

  /** The processes go on as long as one of them runs. */
  lemma {:induction false} GoOn(run: seq<State>, sofar: seq<State>) returns (longer: seq<State>)
    requires Run(run) && Run(sofar) && GoesOn(Smooth, run, sofar)
    ensures Run(longer) && GoesOn(Smooth, run, longer) && NoneRunning(longer[|longer| - 1])
    ensures NoneBroken(sofar[|sofar| - 1]) ==> NoneBroken(longer[|longer| - 1])
    decreases LeftIn(sofar)
  {
    BytesConserved(sofar);
    var s := sofar[|sofar| - 1];
    hide Whole, Init, NoneRunning, Left, Enabled, Apply, Run, Inv, RelayDone, Move;
    if NoneRunning(s) {
      longer := sofar;
    } else {
      hide Counted, Next, Smooth, NoneBroken, Step;
      var s' := NextMove(s);
      var next := MoreRun(run, sofar, s');
      longer := GoOn(run, next);
    }
  }

  lemma MoreRun(run: seq<State>, sofar: seq<State>, s': State) returns (next: seq<State>)
    requires Run(run) && Run(sofar) && GoesOn(Smooth, run, sofar)
    requires Next(sofar[|sofar| - 1], s') && Smooth(sofar[|sofar| - 1], s')
    ensures next == sofar + [s'] && Run(next) && GoesOn(Smooth, run, next)
  {
    hide Init, Next, Smooth;
    OneMoreStep(Init, Next, sofar, s');
    GoesOnOneMore(Smooth, run, sofar, s');
    next := sofar + [s'];
  }

  function LeftIn(run: seq<State>): nat {
    if run == [] then 0
    else
      var s := run[|run| - 1];
      if s.pos <= |s.file| then Left(s) else 0
  }

  /**
   From every reachable state, whoever has failed in it, some run in which nobody else fails
   brings all three processes to their end.
   */
  lemma EverybodyEnds(run: seq<State>) returns (longer: seq<State>)
    requires Run(run)
    ensures Run(longer) && GoesOn(Smooth, run, longer) && NoneRunning(longer[|longer| - 1])
  {
    hide Run;
    longer := GoOn(run, run);
  }

  /**
   Completion. From every reachable state in which no process has failed, some run in which
   none fails ends with all three finished: the destination of an upload is then the source
   file, that of a download its announced part, which is the file if its size is below 2^32.
   */
  lemma CopyCompletes(run: seq<State>) returns (longer: seq<State>)
    requires Run(run) && NoneBroken(run[|run| - 1])
    ensures Run(longer) && GoesOn(Smooth, run, longer)
    ensures var s := longer[|longer| - 1];
            && AllFinished(s) && s.file == run[0].file
            && (s.stop.AtEndOfFile? ==> s.dest == s.file)
            && (s.stop.AfterLength? ==> s.dest == s.file[..Announced(s.file)])
            && (s.stop.AfterLength? && |s.file| < U32_LIMIT ==> s.dest == s.file)
            && s.stop == run[0].stop
  {
    longer := GoOn(run, run);
    BytesConserved(longer);
    assert longer[0] == run[0];
    hide Run, Whole, Counted;
    if run[0].stop.AtEndOfFile? {
      UploadOutcome(longer);
    } else {
      DownloadOutcome(longer);
    }
  }

  /**
   The handler reports "download ... concluded" after its loop however the loop ended. This
   run breaks on the handler's first read: the client still meets a clean end of file, with
   an empty copy of a one-byte file.
   */
  lemma ConcludedIsNotComplete() returns (run: seq<State>)
    ensures Run(run) && run[0].stop.AfterLength?
    ensures var s := run[|run| - 1];
            s.stage3 == Finished && s.stage2 != Running && s.file == [7] && s.dest == []
  {
    var s0 := State([7], AfterLength(1), 0, [], Running, [], [], 0, Running, [], [], Running, []);
    var s1 := Apply(s0, RelayBreak);
    var s2 := Apply(s1, SinkEof);
    run := [s0, s1, s2];
    assert StepAt(Next, run, 1) by {
      assert Step(s0, RelayBreak, s1);
    }
    assert StepAt(Next, run, 2) by {
      assert Step(s1, SinkEof, s2);
    }
  }
}
