/** That every command of the file machine can be brought to its end. */
module FileServerFinish {
  import opened Bytes
  import opened FileSpec
  import opened FileServer
  import opened FileServerProof
  import opened FileServerTheorems
  import opened FileServerRuns
  import opened Runs

  /** A step of one process by a call that does not fail. */
  ghost predicate Fine(s: State, s': State) {
    exists p, c :: p in s.procs && MovesWell(s, p, c, s')
  }

  /** The next call that does not fail: everything at once, a download byte by byte. */
  function Onward(q: Proc, file: seq<byte>): Choice {
    if q.stage == Writing then Chunk(|q.job.data|)
    else if q.stage == Streaming && q.pos < |file| then Chunk(1)
    else Go
  }

  function StagesLeft(stage: Stage): nat {
    match stage
    case Start => 7
    case Waiting => 6
    case Locked => 5
    case Positioning => 4
    case Padding => 3
    case Writing => 2
    case Reading => 2
    case Streaming => 2
    case Closing => 1
    case Done => 0
  }

  /** Spaces still to be written, or bytes still to be sent. */
  function BytesLeft(q: Proc, file: seq<byte>): nat {
    if q.stage == Padding && q.i < q.job.offset then q.job.offset - q.i
    else if q.stage == Streaming && q.pos < |file| then |file| - q.pos
    else 0
  }

  lemma OnwardTurn(q: Proc, file: seq<byte>, present: bool, free: bool, commits: nat)
    requires q.stage != Done && (q.stage == Waiting ==> free)
    ensures var t := TurnOf(q, file, present, free, commits, Onward(q, file));
            && !t.Blocked? && !Fails(q, Onward(q, file))
            && (StagesLeft(t.q.stage) < StagesLeft(q.stage)
                || (t.q.stage == q.stage && !t.Create? && !t.Grant? && !t.Release?
                    && BytesLeft(t.q, FileAfter(file, t)) < BytesLeft(q, file)))
  {
    if q.stage == Locked || q.stage == Positioning {
      OnwardLook(q, file, present, free, commits);
    } else if q.stage == Streaming || q.stage == Padding {
      OnwardLoop(q, file, present, free, commits);
    } else {
      hide StatTurn, SeekTurn, StreamTurn, KernelWrite;
    }
  }

  lemma OnwardLook(q: Proc, file: seq<byte>, present: bool, free: bool, commits: nat)
    requires q.stage == Locked || q.stage == Positioning
    ensures var t := TurnOf(q, file, present, free, commits, Go);
            !t.Blocked? && StagesLeft(t.q.stage) < StagesLeft(q.stage)
  {
    hide StreamTurn, KernelWrite;
  }

  lemma OnwardLoop(q: Proc, file: seq<byte>, present: bool, free: bool, commits: nat)
    requires q.stage == Streaming || q.stage == Padding
    ensures var t := TurnOf(q, file, present, free, commits, Onward(q, file));
            && !t.Blocked? && (t.Local? || t.Put?)
            && (StagesLeft(t.q.stage) < StagesLeft(q.stage)
                || (t.q.stage == q.stage && BytesLeft(t.q, FileAfter(file, t)) < BytesLeft(q, file)))
  {
    hide StatTurn, SeekTurn, KernelWrite;
  }

  /** No other process has a lock on the file of `p`. */
  ghost predicate HasWay(s: State, p: Pid)
    requires p in s.procs
  {
    forall l :: l in s.locks && l.path == s.procs[p].job.path ==> l.pid == p
  }

  lemma WayIsFree(s: State, p: Pid)
    requires p in s.procs && HasWay(s, p)
    ensures Grantable(s, p, s.procs[p].job.path, s.procs[p].job.cmd.Write?)
  {
  }

  /** A process on its way, or one past its lock, can make its next call without a failure. */
  lemma StepOnward(s: State, p: Pid) returns (s': State)
    requires p in s.procs && s.procs[p].stage != Done
    requires HasWay(s, p) || (s.procs[p].stage != Start && s.procs[p].stage != Waiting)
    ensures Fine(s, s') && Next(s, s') && s'.procs.Keys == s.procs.Keys && s'.procs[p].job == s.procs[p].job
    ensures forall r :: r in s.procs && r != p ==> s'.procs[r] == s.procs[r]
    ensures HasWay(s, p) ==> HasWay(s', p)
    ensures HasWay(s', p) || (s'.procs[p].stage != Start && s'.procs[p].stage != Waiting)
    ensures var f := s.procs[p].job.path;
            || StagesLeft(s'.procs[p].stage) < StagesLeft(s.procs[p].stage)
            || (StagesLeft(s'.procs[p].stage) == StagesLeft(s.procs[p].stage)
                && BytesLeft(s'.procs[p], Content(s', f)) < BytesLeft(s.procs[p], Content(s, f)))
  {
    var q, f := s.procs[p], s.procs[p].job.path;
    var file, c := Content(s, f), Onward(q, Content(s, f));
    var free := Grantable(s, p, f, q.job.cmd.Write?);
    if HasWay(s, p) {
      WayIsFree(s, p);
    }
    hide Grantable, TurnOf, Onward;
    OnwardTurn(q, file, f in s.files, free, |Log(s, f)|);
    TurnKinds(s, p, c);
    var t := Turns(s, p, c);
    s' := Apply(s, p, t);
    assert Step(s, p, c, s') && MovesWell(s, p, c, s');
    AppliedTo(s, p, t, s');
    hide Step, MovesWell, Turns, Fails, BytesLeft, StagesLeft, Apply, HasWay, Content, TurnFits;
  }

  lemma AppliedTo(s: State, p: Pid, t: Turn, s': State)
    requires p in s.procs && TurnFits(s.procs[p], t) && s' == Apply(s, p, t)
    ensures s'.procs.Keys == s.procs.Keys && s'.procs[p] == t.q
    ensures forall r :: r in s.procs && r != p ==> s'.procs[r] == s.procs[r]
    ensures HasWay(s, p) ==> HasWay(s', p)
    ensures t.Local? || t.Put? ==> Content(s', t.q.job.path) == FileAfter(Content(s, t.q.job.path), t)
    ensures t.q.stage == Start || t.q.stage == Waiting ==> s.procs[p].stage == Start || s.procs[p].stage == Waiting
  {
    hide KernelWrite;
  }

  function StagesLeftIn(run: seq<State>, p: Pid): nat {
    if run == [] || p !in run[|run| - 1].procs then 0 else StagesLeft(run[|run| - 1].procs[p].stage)
  }

  function BytesLeftIn(run: seq<State>, p: Pid): nat {
    if run == [] || p !in run[|run| - 1].procs then 0
    else
      var s := run[|run| - 1];
      BytesLeft(s.procs[p], Content(s, s.procs[p].job.path))
  }

  ghost predicate CanGo(s: State, p: Pid) {
    p in s.procs && (HasWay(s, p) || (s.procs[p].stage != Start && s.procs[p].stage != Waiting))
  }

  /** A process runs alone to its end. */
  lemma {:induction false} FinishOne(run: seq<State>, sofar: seq<State>, p: Pid) returns (longer: seq<State>)
    requires Run(run) && Run(sofar) && GoesOn(Fine, run, sofar) && CanGo(Last(sofar), p)
    ensures Run(longer) && GoesOn(Fine, run, longer)
    ensures var s, s' := Last(sofar), Last(longer);
            && s'.procs.Keys == s.procs.Keys && p in s'.procs && s'.procs[p].stage == Done
            && forall r :: r in s.procs && r != p ==> s'.procs[r] == s.procs[r]
    decreases StagesLeftIn(sofar, p), BytesLeftIn(sofar, p)
  {
    var s := Last(sofar);
    if s.procs[p].stage == Done {
      longer := sofar;
    } else {
      var s' := StepOnward(s, p);
      hide Init, Next, Fine, StagesLeft, BytesLeft, HasWay, Content;
      OneMoreStep(Init, Next, sofar, s');
      GoesOnOneMore(Fine, run, sofar, s');
      var next := sofar + [s'];
      assert Last(next) == s';
      longer := FinishOne(run, next, p);
    }
  }

  ghost function Unfinished(s: State): set<Pid> {
    set p | p in s.procs && s.procs[p].stage != Done
  }

  /** Whoever holds a lock can go on; if nobody does, anybody can. */
  lemma SomeoneCanGo(s: State) returns (p: Pid)
    requires Inv(s) && Unfinished(s) != {}
    ensures p in Unfinished(s) && CanGo(s, p)
  {
    assert LocksOk(s);
    hide Inv;
    if q :| q in s.procs && Holding(s.procs[q]) {
      p := q;
    } else {
      p :| p in Unfinished(s);
      assert s.locks == {};
    }
  }

  lemma {:induction false} FinishRest(run: seq<State>, sofar: seq<State>) returns (longer: seq<State>)
    requires Run(run) && Run(sofar) && GoesOn(Fine, run, sofar)
    ensures Run(longer) && GoesOn(Fine, run, longer) && Unfinished(Last(longer)) == {}
    ensures Last(longer).procs.Keys == Last(sofar).procs.Keys
    decreases Unfinished(Last(sofar))
  {
    var s := Last(sofar);
    if Unfinished(s) == {} {
      longer := sofar;
    } else {
      RunInv(sofar);
      hide Init, Next, Fine, Run, Inv, CanGo;
      var p := SomeoneCanGo(s);
      var next := FinishOne(run, sofar, p);
      assert Unfinished(Last(next)) == Unfinished(s) - {p};
      longer := FinishRest(run, next);
    }
  }

  /**
   From every reachable state some run, in which no call fails, brings every command to its end.
   */
  lemma EverybodyFinishes(run: seq<State>) returns (longer: seq<State>)
    requires Run(run)
    ensures Run(longer) && GoesOn(Fine, run, longer)
    ensures forall p :: p in Last(run).procs ==> p in Last(longer).procs && Last(longer).procs[p].stage == Done
  {
    longer := FinishRest(run, run);
    hide Run, Fine;
    forall p | p in Last(run).procs ensures p in Last(longer).procs && Last(longer).procs[p].stage == Done {
      assert p !in Unfinished(Last(longer));
    }
  }
}
