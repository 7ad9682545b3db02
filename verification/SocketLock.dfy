/**
 Several processes sending on one client socket: a handler and the children it forks for
 downloads and uploads. `sendProtocolMsgLocked` takes an fcntl lock on the socket around its
 two `writeAll` calls; other replies are sent without it. Every partial write is a step, and
 a write may fail: then `writeAll` gives up, the lock is released, and the frame stays torn.
 */
module SocketLock {
  import opened Bytes
  import opened Frames
  import opened Runs

  type Pid = nat

  /** A message and the bytes it is sent as. */
  datatype Outgoing = Outgoing(m: Message, frame: seq<byte>)

  /** The bytes are the message's frame, whatever its padding. */
  ghost predicate Genuine(o: Outgoing) {
    Sendable(o.m) && exists a, b, c :: o.frame == Encode(o.m, (a, b, c))
  }

  /** A process that sends the messages of its script in order. */
  datatype Sender = Sender(
    locks: bool,          // goes through sendProtocolMsgLocked
    script: seq<Outgoing>,
    outcome: seq<bool>,   // for each message behind it: whether it was sent whole
    active: bool,         // between lock and unlock
    sent: nat             // bytes of the current message already written
  ) {
    function Next(): nat { |outcome| }

    function Frame(): seq<byte>
      requires Next() < |script|
    {
      script[Next()].frame
    }
  }

  /** The first `n` bytes of message `index` of `pid` are what it has put into the stream. */
  datatype Piece = Piece(pid: Pid, index: nat, out: Outgoing, n: nat) {
    function Content(): seq<byte> {
      out.frame[..Min(n, |out.frame|)]
    }

    predicate Whole() {
      n == |out.frame|
    }

    /** A send that failed after a part of the frame was out. */
    predicate Torn() {
      0 < n < |out.frame|
    }
  }

  datatype State = State(
    stream: seq<byte>,
    holder: Option<Pid>,
    senders: map<Pid, Sender>,
    log: seq<Piece>       // history: the sends that are over, in the order they ended
  )

  datatype Action =
    | Begin         // the lock, for those who take it
    | Refuse        // the lock call fails, nothing is sent
    | Put(n: nat)   // one write call
    | Leave         // nothing left to write, or a write call failed; then the unlock

  predicate WellFormed(q: Sender) {
    && (forall i :: 0 <= i < |q.script| ==> |q.script[i].frame| >= HEADER)
    && q.Next() <= |q.script|
    && (q.active ==> q.Next() < |q.script| && q.sent <= |q.Frame()|)
  }

  ghost predicate Init(s: State) {
    && s.stream == [] && s.holder == None && s.log == []
    && forall p :: p in s.senders ==>
      WellFormed(s.senders[p]) && s.senders[p].outcome == [] && !s.senders[p].active
  }

  predicate Enabled(s: State, p: Pid, a: Action) {
    && p in s.senders && WellFormed(s.senders[p])
    && var q := s.senders[p];
       match a
       case Begin => !q.active && q.Next() < |q.script| && (q.locks ==> s.holder == None)
       case Refuse => !q.active && q.Next() < |q.script| && q.locks
       case Put(n) =>
         // one write call never reaches over the boundary between header and payload
         && q.active && 1 <= n
         && q.sent + n <= if q.sent < HEADER then HEADER else |q.Frame()|
       case Leave => q.active
  }

  function Apply(s: State, p: Pid, a: Action): State
    requires Enabled(s, p, a)
  {
    var q := s.senders[p];
    match a
    case Begin =>
      s.(senders := s.senders[p := q.(active := true, sent := 0)],
      holder := if q.locks then Some(p) else s.holder)
    case Refuse => s.(senders := s.senders[p := q.(outcome := q.outcome + [false])])
    case Put(n) =>
      s.(senders := s.senders[p := q.(sent := q.sent + n)],
      stream := s.stream + q.Frame()[q.sent..q.sent + n])
    case Leave =>
      s.(senders := s.senders[p := q.(active := false, outcome := q.outcome + [q.sent == |q.Frame()|])],
      holder := if q.locks then None else s.holder,
      log := s.log + [Piece(p, q.Next(), q.script[q.Next()], q.sent)])
  }

  predicate Step(s: State, p: Pid, a: Action, s': State) {
    Enabled(s, p, a) && s' == Apply(s, p, a)
  }

  ghost predicate Next(s: State, s': State) {
    exists p, a :: Step(s, p, a, s')
  }

  ghost predicate Run(run: seq<State>) {
    IsRun(Init, Next, run)
  }

  function Last(run: seq<State>): State
    requires |run| > 0
  {
    run[|run| - 1]
  }

  predicate Speaks(s: State, p: Pid) {
    p in s.senders && s.senders[p].script != []
  }

  /** Whoever shares the socket uses the lock. */
  ghost predicate Disciplined(s: State) {
    forall p, q :: Speaks(s, p) && Speaks(s, q) && p != q ==> s.senders[p].locks && s.senders[q].locks
  }

  predicate IsActive(s: State, p: Pid) {
    p in s.senders && s.senders[p].active
  }

  ghost predicate OneActive(s: State) {
    forall p, q :: IsActive(s, p) && IsActive(s, q) ==> p == q
  }

  // ---------------------------------------------------------------- what never changes

  ghost predicate SameScripts(s: State, s': State) {
    && s.senders.Keys == s'.senders.Keys
    && forall p :: p in s.senders ==>
      s'.senders[p].script == s.senders[p].script && s'.senders[p].locks == s.senders[p].locks
  }

  lemma StepKeepsScripts(s: State, s': State)
    requires Next(s, s')
    ensures SameScripts(s, s')
  {
    var p, a :| Step(s, p, a, s');
    hide WellFormed;
  }

  lemma {:induction false} ScriptsStay(run: seq<State>)
    requires Run(run)
    ensures SameScripts(run[0], Last(run))
    decreases |run|
  {
    if |run| > 1 {
      PrefixIsRun(Init, Next, run, |run| - 1);
      ScriptsStay(run[..|run| - 1]);
      assert StepAt(Next, run, |run| - 1);
      hide Init, Next, Run;
      StepKeepsScripts(run[|run| - 2], Last(run));
    }
  }

  // ---------------------------------------------------------------- one at a time

  ghost predicate Alone(s: State) {
    && OneActive(s)
    && (forall p :: p in s.senders ==> WellFormed(s.senders[p]))
    && (forall p :: p in s.senders && s.senders[p].locks ==> (s.senders[p].active <==> s.holder == Some(p)))
  }

  lemma StepKeepsAlone(s: State, p: Pid, a: Action, s': State)
    requires Step(s, p, a, s') && Alone(s) && Disciplined(s)
    ensures Alone(s')
  {
    if a == Begin {
      NobodyBefore(s, p);
      hide Disciplined;
      assert forall q :: IsActive(s', q) ==> q == p;
      assert OneActive(s');
      OthersKeepWell(s, p, a, s');
      hide OneActive, WellFormed;
    } else {
      hide Disciplined;
      assert forall q :: IsActive(s', q) ==> IsActive(s, q);
      assert OneActive(s');
      OthersKeepWell(s, p, a, s');
      hide WellFormed;
    }
  }

  lemma OthersKeepWell(s: State, p: Pid, a: Action, s': State)
    requires Step(s, p, a, s') && forall q :: q in s.senders ==> WellFormed(s.senders[q])
    ensures forall q :: q in s'.senders ==> WellFormed(s'.senders[q])
  {
    assert WellFormed(s'.senders[p]);
  }

  /** An active process beside one that shares the socket holds the lock. */
  lemma ActiveHoldsLock(s: State, p: Pid, q: Pid)
    requires Alone(s) && Disciplined(s) && Speaks(s, p) && IsActive(s, q) && q != p
    ensures s.senders[p].locks && s.holder == Some(q)
  {
    assert WellFormed(s.senders[q]);
    assert Speaks(s, q);
  }

  lemma LockTellsActive(s: State, p: Pid)
    requires Alone(s) && Disciplined(s) && Speaks(s, p)
    ensures forall q :: IsActive(s, q) && q != p ==> s.senders[p].locks && s.holder == Some(q)
  {
    forall q | IsActive(s, q) && q != p ensures s.senders[p].locks && s.holder == Some(q) {
      ActiveHoldsLock(s, p, q);
    }
  }

  /** Whoever begins finds nobody else at it. */
  lemma NobodyBefore(s: State, p: Pid)
    requires Enabled(s, p, Begin) && Alone(s) && Disciplined(s)
    ensures forall q :: !IsActive(s, q)
  {
    assert Speaks(s, p);
    LockTellsActive(s, p);
  }

  lemma DisciplineStays(s: State, s': State)
    requires SameScripts(s, s') && Disciplined(s)
    ensures Disciplined(s')
  {
    assert forall p :: Speaks(s', p) <==> Speaks(s, p);
  }

  // ---------------------------------------------------------------- what the stream holds

  /** The pieces put into the stream, one after the other. */
  function PieceBytes(log: seq<Piece>): seq<byte> {
    if log == [] then [] else PieceBytes(log[..|log| - 1]) + log[|log| - 1].Content()
  }

  /** What the one active sender has written of its frame. */
  ghost predicate Tail(s: State, tail: seq<byte>)
    requires Alone(s)
  {
    && (forall p :: IsActive(s, p) ==> tail == s.senders[p].Frame()[..s.senders[p].sent])
    && ((forall p :: !IsActive(s, p)) ==> tail == [])
  }

  /** Each piece is a part of a message of its process, whole exactly if the process says so. */
  ghost predicate PieceOk(s: State, k: nat)
    requires k < |s.log|
  {
    var r := s.log[k];
    && r.pid in s.senders
    && r.index < s.senders[r.pid].Next() <= |s.senders[r.pid].script|
    && s.senders[r.pid].script[r.index] == r.out
    && r.n <= |r.out.frame|
    && s.senders[r.pid].outcome[r.index] == r.Whole()
  }

  predicate PieceOf(s: State, k: nat, p: Pid, i: nat) {
    k < |s.log| && s.log[k].pid == p && s.log[k].index == i
  }

  /** A message sent whole has its piece, a message has one piece at most, and they are in script order. */
  ghost predicate LogOk(s: State) {
    && (forall k: nat :: k < |s.log| ==> PieceOk(s, k))
    && (forall p: Pid, i: nat :: p in s.senders && i < s.senders[p].Next() && s.senders[p].outcome[i] ==>
        exists k: nat :: PieceOf(s, k, p, i))
    && (forall k: nat, l: nat :: k < l < |s.log| && s.log[k].pid == s.log[l].pid ==> s.log[k].index < s.log[l].index)
  }

  lemma StepKeepsPiece(s: State, p: Pid, a: Action, s': State, k: nat)
    requires Step(s, p, a, s') && k < |s.log| && PieceOk(s, k)
    ensures k < |s'.log| && s'.log[k] == s.log[k] && PieceOk(s', k)
  {
  }

  lemma NewPiece(s: State, p: Pid, s': State)
    requires Step(s, p, Leave, s')
    ensures |s'.log| == |s.log| + 1 && s'.log[..|s.log|] == s.log
    ensures PieceOk(s', |s.log|) && PieceOf(s', |s.log|, p, s.senders[p].Next())
  {
  }

  lemma StepKeepsLog(s: State, p: Pid, a: Action, s': State)
    requires Step(s, p, a, s') && LogOk(s)
    ensures LogOk(s')
  {
    forall k: nat | k < |s'.log| ensures PieceOk(s', k) {
      if k < |s.log| {
        StepKeepsPiece(s, p, a, s', k);
      } else {
        NewPiece(s, p, s');
      }
    }
    forall r: Pid, i: nat | r in s'.senders && i < s'.senders[r].Next() && s'.senders[r].outcome[i]
      ensures exists k: nat :: PieceOf(s', k, r, i)
    {
      StepKeepsWhole(s, p, a, s', r, i);
    }
    forall k: nat, l: nat | k < l < |s'.log| && s'.log[k].pid == s'.log[l].pid
      ensures s'.log[k].index < s'.log[l].index
    {
      StepKeepsScriptOrder(s, p, a, s', k, l);
    }
  }

  lemma StepKeepsWhole(s: State, p: Pid, a: Action, s': State, r: Pid, i: nat)
    requires Step(s, p, a, s') && LogOk(s)
    requires r in s'.senders && i < s'.senders[r].Next() && s'.senders[r].outcome[i]
    ensures exists k: nat :: PieceOf(s', k, r, i)
  {
    if r in s.senders && i < s.senders[r].Next() {
      assert s.senders[r].outcome[i];
      var k: nat :| PieceOf(s, k, r, i);
      assert PieceOf(s', k, r, i);
    } else {
      NewPiece(s, p, s');
    }
  }

  lemma StepKeepsScriptOrder(s: State, p: Pid, a: Action, s': State, k: nat, l: nat)
    requires Step(s, p, a, s') && LogOk(s)
    requires k < l < |s'.log| && s'.log[k].pid == s'.log[l].pid
    ensures s'.log[k].index < s'.log[l].index
  {
    assert PieceOk(s, k);
    if l < |s.log| {
      assert s'.log[k] == s.log[k] && s'.log[l] == s.log[l];
    }
  }

  ghost predicate Holds(s: State, tail: seq<byte>)
    requires Alone(s) && LogOk(s)
  {
    Tail(s, tail) && s.stream == PieceBytes(s.log) + tail
  }

  ghost predicate Inv(s: State) {
    && Disciplined(s) && Alone(s) && LogOk(s)
    && exists tail :: Holds(s, tail)
  }

  lemma TailAfterBegin(s: State, p: Pid, s': State, tail: seq<byte>)
    requires Step(s, p, Begin, s') && Disciplined(s) && Alone(s) && Tail(s, tail) && Alone(s')
    ensures tail == [] && Tail(s', [])
  {
    NobodyBefore(s, p);
    assert IsActive(s', p);
    assert s'.senders[p].Frame()[..0] == [];
    hide Disciplined;
  }

  lemma TailAfterPut(s: State, p: Pid, n: nat, s': State, tail: seq<byte>)
    requires Step(s, p, Put(n), s') && Alone(s) && Tail(s, tail) && Alone(s')
    ensures Tail(s', tail + s.senders[p].Frame()[s.senders[p].sent..s.senders[p].sent + n])
  {
    var q := s.senders[p];
    assert IsActive(s, p) && IsActive(s', p);
    assert q.Frame()[..q.sent + n] == q.Frame()[..q.sent] + q.Frame()[q.sent..q.sent + n];
  }

  lemma TailAfterLeave(s: State, p: Pid, s': State, tail: seq<byte>)
    requires Step(s, p, Leave, s') && Alone(s) && Tail(s, tail) && Alone(s')
    ensures tail == s.senders[p].Frame()[..s.senders[p].sent] && Tail(s', [])
  {
    assert IsActive(s, p);
    forall r ensures !IsActive(s', r) {
      assert IsActive(s', r) ==> IsActive(s, r) && r != p;
      hide WellFormed;
    }
  }

  lemma TailAfterRefuse(s: State, p: Pid, s': State, tail: seq<byte>)
    requires Step(s, p, Refuse, s') && Alone(s) && Tail(s, tail) && Alone(s')
    ensures Tail(s', tail)
  {
    assert forall r :: IsActive(s', r) <==> IsActive(s, r);
    assert forall r :: IsActive(s', r) ==> s'.senders[r] == s.senders[r];
  }

  lemma OneMorePiece(log: seq<Piece>, r: Piece)
    ensures PieceBytes(log + [r]) == PieceBytes(log) + r.Content()
  {
    assert (log + [r])[..|log|] == log;
  }

  lemma LeaveHolds(s: State, p: Pid, s': State, tail: seq<byte>)
    requires Step(s, p, Leave, s') && Alone(s) && Alone(s') && LogOk(s) && LogOk(s') && Holds(s, tail)
    ensures Holds(s', [])
  {
    var q := s.senders[p];
    TailAfterLeave(s, p, s', tail);
    hide Alone, LogOk, Tail;
    OneMorePiece(s.log, Piece(p, q.Next(), q.script[q.Next()], q.sent));
  }

  lemma PutHolds(s: State, p: Pid, n: nat, s': State, tail: seq<byte>)
    requires Step(s, p, Put(n), s') && Alone(s) && Alone(s') && LogOk(s) && LogOk(s') && Holds(s, tail)
    ensures Holds(s', tail + s.senders[p].Frame()[s.senders[p].sent..s.senders[p].sent + n])
  {
    TailAfterPut(s, p, n, s', tail);
    hide Alone, LogOk, Tail;
  }

  lemma StepHolds(s: State, p: Pid, a: Action, s': State, tail: seq<byte>) returns (tail': seq<byte>)
    requires Step(s, p, a, s') && Inv(s) && Alone(s') && LogOk(s') && Holds(s, tail)
    ensures Holds(s', tail')
  {
    match a
    case Begin =>
      TailAfterBegin(s, p, s', tail);
      tail' := [];
      hide Alone, LogOk, Tail;
    case Refuse =>
      TailAfterRefuse(s, p, s', tail);
      tail' := tail;
      hide Alone, LogOk, Tail;
    case Put(n) =>
      PutHolds(s, p, n, s', tail);
      hide Alone, LogOk, Holds;
      tail' := tail + s.senders[p].Frame()[s.senders[p].sent..s.senders[p].sent + n];
    case Leave =>
      LeaveHolds(s, p, s', tail);
      tail' := [];
      hide Alone, LogOk, Holds;
  }

  lemma StepKeepsInv(s: State, p: Pid, a: Action, s': State)
    requires Step(s, p, a, s') && Inv(s)
    ensures Inv(s')
  {
    StepKeepsLog(s, p, a, s');
    StepKeepsAlone(s, p, a, s');
    assert Next(s, s');
    StepKeepsScripts(s, s');
    DisciplineStays(s, s');
    var tail :| Holds(s, tail);
    hide Disciplined, Alone, LogOk, Holds, Step, SameScripts;
    var tail' := StepHolds(s, p, a, s', tail);
  }

  lemma InitInv(s: State)
    requires Init(s) && Disciplined(s)
    ensures Inv(s)
  {
    assert Holds(s, []);
  }

  lemma {:induction false} RunInv(run: seq<State>)
    requires Run(run) && Disciplined(run[0])
    ensures Inv(Last(run))
    decreases |run|
  {
    hide Inv, Disciplined;
    if |run| == 1 {
      InitInv(run[0]);
    } else {
      PrefixIsRun(Init, Next, run, |run| - 1);
      RunInv(run[..|run| - 1]);
      assert StepAt(Next, run, |run| - 1);
      var s, s' := run[|run| - 2], Last(run);
      var p, a :| Step(s, p, a, s');
      hide Step, Run, Init;
      StepKeepsInv(s, p, a, s');
    }
  }

  // ---------------------------------------------------------------- whole frames

  /** The messages sent whole, in the order their sending ended. */
  function Messages(log: seq<Piece>): seq<Message> {
    if log == [] then []
    else
      var last := log[|log| - 1];
      Messages(log[..|log| - 1]) + if last.Whole() then [last.out.m] else []
  }

  /** The frames of those messages, one after the other. */
  function WholeFrames(log: seq<Piece>): seq<byte> {
    if log == [] then []
    else
      var last := log[|log| - 1];
      WholeFrames(log[..|log| - 1]) + if last.Whole() then last.out.frame else []
  }

  ghost predicate NoneTorn(log: seq<Piece>) {
    forall k :: 0 <= k < |log| ==> !log[k].Torn()
  }

  /** Bytes of torn sends only add to the stream. */
  lemma {:induction false} TornBytes(log: seq<Piece>)
    requires forall k :: 0 <= k < |log| ==> log[k].n <= |log[k].out.frame|
    ensures |PieceBytes(log)| >= |WholeFrames(log)|
    ensures |PieceBytes(log)| == |WholeFrames(log)| <==> NoneTorn(log)
    ensures NoneTorn(log) ==> PieceBytes(log) == WholeFrames(log)
  {
    if log != [] {
      var before, last := log[..|log| - 1], log[|log| - 1];
      TornBytes(before);
      assert NoneTorn(log) <==> NoneTorn(before) && !last.Torn() by {
        assert forall k :: 0 <= k < |before| ==> before[k] == log[k];
      }
      assert last.Whole() ==> last.Content() == last.out.frame;
    }
  }

  /** The stream is the frames of the messages sent and a part of the one frame being sent. */
  ghost predicate InFrames(s: State)
    requires Alone(s)
  {
    exists tail :: Tail(s, tail) && s.stream == WholeFrames(s.log) + tail
  }

  lemma SameTail(s: State, a: seq<byte>, b: seq<byte>)
    requires Alone(s) && Tail(s, a) && Tail(s, b)
    ensures a == b
  {
  }

  lemma PiecesFit(s: State)
    requires LogOk(s)
    ensures forall k :: 0 <= k < |s.log| ==> s.log[k].n <= |s.log[k].out.frame|
  {
    forall k: nat | k < |s.log| ensures s.log[k].n <= |s.log[k].out.frame| {
      assert PieceOk(s, k);
    }
  }

  lemma InFramesIff(s: State, tail: seq<byte>)
    requires Alone(s) && LogOk(s) && Holds(s, tail)
    ensures InFrames(s) <==> NoneTorn(s.log)
  {
    PiecesFit(s);
    TornBytes(s.log);
    hide Alone, LogOk, PieceBytes, WholeFrames, NoneTorn, Tail;
    if InFrames(s) {
      var other :| Tail(s, other) && s.stream == WholeFrames(s.log) + other;
      SameTail(s, tail, other);
    }
  }

  ghost predicate AllGenuine(s: State) {
    forall p, i :: p in s.senders && 0 <= i < |s.senders[p].script| ==> Genuine(s.senders[p].script[i])
  }

  lemma DecodeGenuine(o: Outgoing, after: seq<byte>)
    requires Genuine(o)
    ensures Decode(o.frame + after) == ([o.m] + Decode(after).0, Decode(after).1)
  {
    hide Decode, Encode;
    var a, b, c :| o.frame == Encode(o.m, (a, b, c));
    DecodeFrame(o.m, (a, b, c), after);
  }

  lemma DecodeNothing()
    ensures Decode([]) == ([], [])
  {
  }

  lemma DecodeUnfinished(o: Outgoing, n: nat)
    requires Genuine(o) && n <= |o.frame|
    ensures Decode(o.frame[..n]) == if n < |o.frame| then ([], o.frame[..n]) else ([o.m], [])
  {
    hide Decode, Encode;
    var a, b, c :| o.frame == Encode(o.m, (a, b, c));
    if n < |o.frame| {
      DecodePartial(o.m, (a, b, c), n);
    } else {
      DecodeFrame(o.m, (a, b, c), []);
      DecodeNothing();
      assert o.frame[..n] == o.frame + [];
      assert [o.m] + [] == [o.m];
    }
  }

  lemma {:induction false} DecodeWholeFrames(log: seq<Piece>, after: seq<byte>)
    requires forall k :: 0 <= k < |log| ==> Genuine(log[k].out)
    ensures Decode(WholeFrames(log) + after) == (Messages(log) + Decode(after).0, Decode(after).1)
    decreases |log|
  {
    hide Decode, Genuine;
    if log == [] {
      assert WholeFrames(log) + after == after;
      assert Messages(log) + Decode(after).0 == Decode(after).0;
    } else {
      var before, last := log[..|log| - 1], log[|log| - 1];
      if last.Whole() {
        assert WholeFrames(log) + after == WholeFrames(before) + (last.out.frame + after);
        DecodeWholeFrames(before, last.out.frame + after);
        DecodeGenuine(last.out, after);
        assert Messages(log) + Decode(after).0 == Messages(before) + ([last.out.m] + Decode(after).0);
      } else {
        assert WholeFrames(log) == WholeFrames(before) && Messages(log) == Messages(before);
        DecodeWholeFrames(before, after);
      }
    }
  }

  lemma LogIsGenuine(s: State)
    requires LogOk(s) && AllGenuine(s)
    ensures forall k :: 0 <= k < |s.log| ==> Genuine(s.log[k].out)
  {
    forall k: nat | k < |s.log| ensures Genuine(s.log[k].out) {
      assert PieceOk(s, k);
    }
  }

  lemma GenuineStays(s: State, s': State)
    requires SameScripts(s, s') && AllGenuine(s)
    ensures AllGenuine(s')
  {
    hide Genuine;
  }

  /** What the client can decode while `p` is sending. */
  ghost predicate DecodesWith(s: State, p: Pid)
    requires Alone(s) && IsActive(s, p)
  {
    var q := s.senders[p];
    Decode(s.stream) ==
    if q.sent < |q.Frame()| then (Messages(s.log), q.Frame()[..q.sent])
    else (Messages(s.log) + [q.script[q.Next()].m], [])
  }

  /** The client decodes the messages sent whole, and has a part of the frame being sent. */
  ghost predicate DecodesTheSent(s: State)
    requires Alone(s)
  {
    && ((forall p :: !IsActive(s, p)) ==> Decode(s.stream) == (Messages(s.log), []))
    && (forall p :: IsActive(s, p) ==> DecodesWith(s, p))
  }

  lemma InFramesDecodes(s: State)
    requires Alone(s) && LogOk(s) && AllGenuine(s) && InFrames(s)
    ensures DecodesTheSent(s)
  {
    var tail :| Tail(s, tail) && s.stream == WholeFrames(s.log) + tail;
    LogIsGenuine(s);
    hide Decode, Genuine, LogOk;
    DecodeWholeFrames(s.log, tail);
    if forall p :: !IsActive(s, p) {
      DecodeNothing();
      assert Messages(s.log) + [] == Messages(s.log);
    }
    forall p | IsActive(s, p) ensures DecodesWith(s, p) {
      ActiveDecodes(s, p, tail);
    }
  }

  lemma ActiveDecodes(s: State, p: Pid, tail: seq<byte>)
    requires Alone(s) && AllGenuine(s) && IsActive(s, p) && Tail(s, tail)
    requires Decode(s.stream) == (Messages(s.log) + Decode(tail).0, Decode(tail).1)
    ensures DecodesWith(s, p)
  {
    var q := s.senders[p];
    assert WellFormed(q);
    hide Decode, Genuine, Messages;
    DecodeUnfinished(q.script[q.Next()], q.sent);
    assert Messages(s.log) + [] == Messages(s.log);
  }

  /**
   Frame atomicity. With every sender using the lock, the stream is in every reachable state
   the frames of the messages sent whole, in lock order, and a part of the one frame being
   sent, exactly if no write has failed within a frame; then the client decodes exactly those
   messages. A message whose lock call failed has put nothing into the stream.
   */
  lemma FramesStayWhole(run: seq<State>)
    requires Run(run) && Disciplined(run[0]) && AllGenuine(run[0])
    ensures var s := Last(run);
            && Alone(s) && LogOk(s)
            && (InFrames(s) <==> NoneTorn(s.log))
            && (NoneTorn(s.log) ==> DecodesTheSent(s))
  {
    RunInv(run);
    ScriptsStay(run);
    var s := Last(run);
    hide Run, Disciplined, Alone, LogOk, Holds, InFrames, NoneTorn, DecodesTheSent, SameScripts;
    GenuineStays(run[0], s);
    var tail :| Holds(s, tail);
    InFramesIff(s, tail);
    hide AllGenuine;
    if InFrames(s) {
      InFramesDecodes(s);
    }
  }

  // ---------------------------------------------------------------- without the lock

  ghost predicate RunFrom(run: seq<State>, s0: State) {
    Run(run) && run[0] == s0
  }

  lemma Extend(run: seq<State>, s0: State, p: Pid, a: Action) returns (run': seq<State>)
    requires RunFrom(run, s0) && Enabled(Last(run), p, a)
    ensures RunFrom(run', s0) && run <= run' && Last(run') == Apply(Last(run), p, a)
  {
    var s' := Apply(Last(run), p, a);
    assert Step(Last(run), p, a, s');
    hide Init, Enabled, Apply;
    OneMoreStep(Init, Next, run, s');
    run' := run + [s'];
  }

  lemma StartRun(s0: State) returns (run: seq<State>)
    requires Init(s0)
    ensures RunFrom(run, s0) && Last(run) == s0
  {
    hide Init, Next;
    run := [s0];
  }

  lemma BothBegin(s0: State, p: Pid, q: Pid) returns (run: seq<State>)
    requires Init(s0) && Speaks(s0, p) && Speaks(s0, q) && p != q
    requires !(s0.senders[p].locks && s0.senders[q].locks)
    ensures RunFrom(run, s0) && IsActive(Last(run), p) && IsActive(Last(run), q)
  {
    run := StartRun(s0);
    hide RunFrom;
    run := Extend(run, s0, p, Begin);
    run := Extend(run, s0, q, Begin);
  }

  /** Never two at a time, in any run, exactly if all who share the socket use the lock. */
  lemma OneAtATime(s0: State)
    requires Init(s0)
    ensures (forall run :: RunFrom(run, s0) ==> OneActive(Last(run))) <==> Disciplined(s0)
  {
    if Disciplined(s0) {
      forall run | RunFrom(run, s0) ensures OneActive(Last(run)) {
        hide Disciplined, LogOk, Holds, OneActive;
        RunInv(run);
      }
    } else {
      var p, q :| Speaks(s0, p) && Speaks(s0, q) && p != q && !(s0.senders[p].locks && s0.senders[q].locks);
      hide RunFrom;
      var run := BothBegin(s0, p, q);
      assert !OneActive(Last(run));
    }
  }

  /** The state after `p` has written `n` more bytes. */
  function Further(s: State, p: Pid, n: nat): State
    requires IsActive(s, p) && WellFormed(s.senders[p]) && s.senders[p].sent + n <= |s.senders[p].Frame()|
  {
    var q := s.senders[p];
    s.(senders := s.senders[p := q.(sent := q.sent + n)], stream := s.stream + q.Frame()[q.sent..q.sent + n])
  }

  /** Byte by byte. */
  lemma {:induction false} SendBytes(run: seq<State>, s0: State, p: Pid, n: nat) returns (run': seq<State>)
    requires RunFrom(run, s0) && IsActive(Last(run), p) && WellFormed(Last(run).senders[p])
    requires Last(run).senders[p].sent + n <= |Last(run).senders[p].Frame()|
    ensures RunFrom(run', s0) && run <= run' && Last(run') == Further(Last(run), p, n)
    decreases n
  {
    var s := Last(run);
    hide RunFrom;
    if n == 0 {
      run' := run;
      NoFurther(s, p);
    } else {
      run' := SendBytes(run, s0, p, n - 1);
      OneFurther(s, p, n - 1);
      run' := Extend(run', s0, p, Put(1));
    }
  }

  lemma NoFurther(s: State, p: Pid)
    requires IsActive(s, p) && WellFormed(s.senders[p])
    ensures Further(s, p, 0) == s
  {
    var q := s.senders[p];
    assert q.Frame()[q.sent..q.sent] == [];
    assert s.senders[p := q.(sent := q.sent + 0)] == s.senders;
  }

  lemma OneFurther(s: State, p: Pid, n: nat)
    requires IsActive(s, p) && WellFormed(s.senders[p]) && s.senders[p].sent + n < |s.senders[p].Frame()|
    ensures Enabled(Further(s, p, n), p, Put(1))
    ensures Apply(Further(s, p, n), p, Put(1)) == Further(s, p, n + 1)
  {
    var q := s.senders[p];
    var at := q.sent + n;
    Slices(q.Frame(), q.sent, at);
    assert Further(s, p, n).senders[p := q.(sent := at + 1)] == s.senders[p := q.(sent := at + 1)];
    FullyWell(q, at);
    hide WellFormed;
  }

  lemma Slices(frame: seq<byte>, from: nat, at: nat)
    requires from <= at < |frame|
    ensures frame[from..at] + frame[at..at + 1] == frame[from..at + 1]
  {
  }

  /** `q` sends its next message from beginning to end, nobody else moving. */
  lemma SendFrame(run: seq<State>, s0: State, q: Pid) returns (run': seq<State>)
    requires RunFrom(run, s0) && Enabled(Last(run), q, Begin)
    ensures RunFrom(run', s0) && run <= run'
    ensures var s, s' := Last(run), Last(run');
            && s'.stream == s.stream + s.senders[q].Frame()
            && (NoneTorn(s.log) ==> NoneTorn(s'.log))
            && s'.holder == (if s.senders[q].locks then None else s.holder)
            && s'.senders.Keys == s.senders.Keys
            && (forall r :: r in s.senders && r != q ==> s'.senders[r] == s.senders[r])
            && s'.senders[q] == s.senders[q].(outcome := s.senders[q].outcome + [true], active := false,
                                              sent := |s.senders[q].Frame()|)
  {
    var s := Last(run);
    var frame := s.senders[q].Frame();
    run' := Extend(run, s0, q, Begin);
    var s1 := Last(run');
    assert s1.senders[q].Frame() == frame && WellFormed(s1.senders[q]);
    hide RunFrom, WellFormed;
    run' := SendBytes(run', s0, q, |frame|);
    var s2 := Last(run');
    assert frame[0..|frame|] == frame;
    assert s2.senders[q] == s1.senders[q].(sent := |frame|);
    assert Enabled(s2, q, Leave) by { FullyWell(s1.senders[q], |frame|); }
    run' := Extend(run', s0, q, Leave);
  }

  lemma FullyWell(q: Sender, n: nat)
    requires WellFormed(q) && q.active && n <= |q.Frame()|
    ensures WellFormed(q.(sent := n))
  {
  }

  /**
   Of two processes that share the socket and do not both lock it, either can put a whole
   frame into any place of the other's, and both sends succeed.
   */
  lemma FrameInsideFrame(s0: State, p: Pid, q: Pid, k: nat) returns (run: seq<State>)
    requires Init(s0) && Speaks(s0, p) && Speaks(s0, q) && p != q
    requires !(s0.senders[p].locks && s0.senders[q].locks)
    requires 0 < k < |s0.senders[p].Frame()|
    ensures RunFrom(run, s0)
    ensures var outer, inner, s := s0.senders[p].Frame(), s0.senders[q].Frame(), Last(run);
            && s.stream == outer[..k] + inner + outer[k..]
            && p in s.senders && s.senders[p].outcome == [true]
            && q in s.senders && s.senders[q].outcome == [true]
  {
    var outer, inner := s0.senders[p].Frame(), s0.senders[q].Frame();
    run := BeginInside(s0, p, k);
    var s2 := Last(run);
    run := SendFrame(run, s0, q);
    var s5 := Last(run);
    assert s5.senders[p] == s2.senders[p] && s5.senders[q].outcome == [true];
    hide RunFrom, WellFormed;
    run := SendBytes(run, s0, p, |outer| - k);
    var s6 := Last(run);
    assert s6.stream == outer[..k] + inner + outer[k..];
    assert s6.senders[p] == s5.senders[p].(sent := |outer|) && s6.senders[q] == s5.senders[q];
    FullyWell(s5.senders[p], |outer|);
    run := Extend(run, s0, p, Leave);
  }

  lemma BeginInside(s0: State, p: Pid, k: nat) returns (run: seq<State>)
    requires Init(s0) && Speaks(s0, p) && k < |s0.senders[p].Frame()|
    ensures RunFrom(run, s0)
    ensures var q := s0.senders[p]; var s := Last(run);
            && s.stream == q.Frame()[..k]
            && s.holder == (if q.locks then Some(p) else None)
            && s.senders == s0.senders[p := q.(active := true, sent := k)]
            && WellFormed(s.senders[p])
  {
    var q := s0.senders[p];
    assert WellFormed(q);
    run := StartRun(s0);
    hide RunFrom;
    run := Extend(run, s0, p, Begin);
    var s1 := Last(run);
    assert s1.senders[p] == q.(active := true, sent := 0);
    FullyWell(s1.senders[p], k);
    run := SendBytes(run, s0, p, k);
    assert s1.senders[p := q.(active := true, sent := k)] == s0.senders[p := q.(active := true, sent := k)];
    assert [] + q.Frame()[0..k] == q.Frame()[..k];
  }

  /** The code sends no message without a payload: a text has its terminator, a listing an entry. */
  ghost predicate AllHavePayload(s: State) {
    forall p, i :: p in s.senders && 0 <= i < |s.senders[p].script| ==> s.senders[p].script[i].m.payload != []
  }

  lemma GenuineKind(o: Outgoing)
    requires Genuine(o)
    ensures |o.frame| >= HEADER && o.frame[0..4] == Le32(o.m.kind)
  {
    var a, b, c :| o.frame == Encode(o.m, (a, b, c));
    hide Le32;
    assert o.frame[0..4] == Le32(o.m.kind);
  }

  /** Eight bytes into a frame, the kind of the next one stands where the length is read. */
  lemma KindReadAsLength(outer: Outgoing, inner: Outgoing)
    requires Genuine(outer) && Genuine(inner) && inner.m.kind == TEXT
    ensures var stream := outer.frame[..8] + inner.frame + outer.frame[8..];
            Decode(stream).0 != [] && Decode(stream).0[0].payload == []
  {
    GenuineKind(outer);
    GenuineKind(inner);
    var stream := outer.frame[..8] + inner.frame + outer.frame[8..];
    assert stream[8..12] == inner.frame[0..4];
    hide Genuine;
    assert PayloadLength(stream) == 0;
    FirstDecoded(stream);
  }

  lemma FirstDecoded(stream: seq<byte>)
    requires |stream| >= HEADER && PayloadLength(stream) == 0
    ensures Decode(stream).0 != [] && Decode(stream).0[0].payload == []
  {
    hide FromLe32;
  }

  /**
   The lock protects only its users. Whatever two processes share the socket without both
   locking it, if one of them has a text to send there is a run in which both sends succeed
   and the first message the client decodes is one that nobody sends.
   */
  lemma UnlockedSenderTearsFrames(s0: State, p: Pid, q: Pid) returns (run: seq<State>)
    requires Init(s0) && AllGenuine(s0) && AllHavePayload(s0)
    requires Speaks(s0, p) && Speaks(s0, q) && p != q
    requires !(s0.senders[p].locks && s0.senders[q].locks)
    requires s0.senders[q].script[0].m.kind == TEXT
    ensures RunFrom(run, s0)
    ensures var s := Last(run);
            && p in s.senders && s.senders[p].outcome == [true]
            && q in s.senders && s.senders[q].outcome == [true]
            && Decode(s.stream).0 != []
            && forall r, i :: r in s0.senders && 0 <= i < |s0.senders[r].script| ==>
               s0.senders[r].script[i].m != Decode(s.stream).0[0]
  {
    var outer, inner := s0.senders[p].script[0], s0.senders[q].script[0];
    assert WellFormed(s0.senders[p]);
    hide Decode;
    run := FrameInsideFrame(s0, p, q, 8);
    KindReadAsLength(outer, inner);
    var first := Decode(Last(run).stream).0[0];
    assert first.payload == [];
    hide Init, Run, AllGenuine;
  }
}
