/** What holds of every run of the file machine. */
module FileServerTheorems {
  import opened Bytes
  import opened Runs
  import opened FileSpec
  import opened FileServer
  import opened FileServerProof

  function Last(run: seq<State>): State
    requires |run| > 0
  {
    run[|run| - 1]
  }

  lemma {:induction false} RunInv(run: seq<State>)
    requires Run(run)
    ensures Inv(Last(run))
    decreases |run|
  {
    if |run| == 1 {
      assert forall f :: Log(run[0], f) == [];
    } else {
      PrefixIsRun(Init, Next, run, |run| - 1);
      RunInv(run[..|run| - 1]);
      var s, s' := run[|run| - 2], Last(run);
      assert StepAt(Next, run, |run| - 1);
      var p, c :| Step(s, p, c, s');
      StepKeepsInv(s, p, c, s');
    }
  }

  /** The atomic history explains a state: what each file holds and what each requester got. */
  ghost predicate Explained(s: State) {
    // a file nobody is writing holds the committed writes, applied whole and in lock order
    && (forall f {:trigger Content(s, f)} :: !Exclusive(s, f) ==>
      && Content(s, f) == Replay(Lookup(s.initial, f), Log(s, f))
      && Pids(Log(s, f)) == Lookup(s.order, f))
    // each committed write is a part of its own finished command's write, which has no other
    && (forall f, k :: 0 <= k < |Log(s, f)| ==>
      && EntryOk(s, f, k)
      && PartOf(Log(s, f)[k].effect, s.procs[Log(s, f)[k].pid].job))
    && (forall p :: p in s.procs && s.procs[p].stage == Done ==>
      Answered(s, p, s.procs[p], s.procs[p].job))
  }

  /**
   A finished command that reported success did what it says, on one version of the file; one
   none of whose calls failed reported success exactly if its file was there, for a writer
   made if it was not, and its offset was in range.
   */
  ghost predicate Answered(s: State, p: Pid, q: Proc, job: Job) {
    var version := Snapshot(s, job.path, q.seen);
    match job.cmd
    case Write =>
      && (q.ok ==>
        && 0 <= job.offset
        && q.seen < |Log(s, job.path)|
        && Log(s, job.path)[q.seen] == Commit(p, Effect(job.offset, job.data)))
      && (!q.failed ==> (q.ok <==> 0 <= job.offset))
    case Read =>
      && (q.ok ==> q.found && 0 <= job.offset <= |version| && q.out == ReadBack(version, job.offset))
      && (!q.failed ==> (q.ok <==> q.found && 0 <= job.offset <= |version|))
    case Download =>
      && (q.ok ==> q.found)
      && (!q.failed ==> (q.ok <==> q.found) && (q.ok ==> q.complete))
      && |q.out| <= |version| && q.out == version[..|q.out|]
      && (q.ok ==> q.announced == |version| % U32_LIMIT)
      && (q.complete ==> q.out == version)
  }

  /**
   Linearizability of reads, downloads and writes: whatever the interleaving of their system
   calls, padding bytes and chunks, every reachable state is explained by atomic operations.
   */
  lemma Linearizable(run: seq<State>)
    requires Run(run)
    ensures Explained(Last(run))
  {
    RunInv(run);
    var s := Last(run);
    forall f | !Exclusive(s, f)
      ensures Content(s, f) == Replay(Lookup(s.initial, f), Log(s, f)) && Pids(Log(s, f)) == Lookup(s.order, f)
    {
      assert FileOk(s, f);
      assert Log(s, f)[..|Log(s, f)|] == Log(s, f);
    }
    forall f, k | 0 <= k < |Log(s, f)|
      ensures EntryOk(s, f, k) && PartOf(Log(s, f)[k].effect, s.procs[Log(s, f)[k].pid].job)
    {
      assert FileOk(s, f) && EntryOk(s, f, k);
      assert ProcOk(s, Log(s, f)[k].pid);
    }
    forall p | p in s.procs && s.procs[p].stage == Done
      ensures Answered(s, p, s.procs[p], s.procs[p].job)
    {
      assert ProcOk(s, p);
    }
  }

  /** A process that has taken its lock and not been turned away. */
  predicate Placed(q: Proc) {
    Holding(q) || (q.stage == Done && q.ok)
  }

  /** `p` has not taken its lock, or took it when at least `n` writes of its file were committed. */
  ghost predicate NotBefore(s: State, p: Pid, job: Job, n: nat) {
    && p in s.procs && s.procs[p].job == job
    && n <= |Log(s, job.path)|
    && (Placed(s.procs[p]) ==> n <= s.procs[p].seen)
  }

  lemma LogsGrow(s: State, r: Pid, s': State, f: Path)
    requires r in s.procs && Framed(s, r, s')
    ensures Log(s, f) <= Log(s', f)
  {
  }

  lemma OtherNotBefore(s: State, r: Pid, s': State, p: Pid, job: Job, n: nat)
    requires r in s.procs && Framed(s, r, s') && r != p && NotBefore(s, p, job, n)
    ensures NotBefore(s', p, job, n)
  {
    LogsGrow(s, r, s', job.path);
    assert s'.procs[p] == s.procs[p];
    hide Framed, Holding;
  }

  lemma OwnNotBefore(s: State, c: Choice, s': State, p: Pid, job: Job, n: nat)
    requires Step(s, p, c, s') && Inv(s) && Framed(s, p, s') && NotBefore(s, p, job, n)
    ensures NotBefore(s', p, job, n)
  {
    hide Inv, TurnOf, Placed, Holding, Outside;
    assert s'.procs[p] == Turns(s, p, c).q && s'.procs[p].job == job;
    LogsGrow(s, p, s', job.path);
    assert p in s.procs && !Turns(s, p, c).Blocked?;
    hide Step, Framed, Turns, Apply;
    TurnKinds(s, p, c);
    OnlyGrantPlaces(s, p, c);
  }

  lemma StepNotBefore(s: State, r: Pid, c: Choice, s': State, p: Pid, job: Job, n: nat)
    requires Step(s, r, c, s') && Inv(s) && NotBefore(s, p, job, n)
    ensures NotBefore(s', p, job, n)
    ensures Log(s, job.path) <= Log(s', job.path)
  {
    assert r in s.procs;
    hide Inv, Step, Framed, NotBefore, LocksOk;
    StepFrame(s, r, c, s');
    LogsGrow(s, r, s', job.path);
    if r == p {
      OwnNotBefore(s, c, s', p, job, n);
    } else {
      OtherNotBefore(s, r, s', p, job, n);
    }
  }

  lemma NextNotBefore(s: State, s': State, p: Pid, job: Job, n: nat)
    requires Next(s, s') && Inv(s) && NotBefore(s, p, job, n)
    ensures NotBefore(s', p, job, n)
    ensures Log(s, job.path) <= Log(s', job.path)
  {
    var r, c :| Step(s, r, c, s');
    StepNotBefore(s, r, c, s', p, job, n);
  }

  lemma SeenBound(s: State, p: Pid)
    requires Inv(s) && p in s.procs && Placed(s.procs[p])
    ensures s.procs[p].seen <= |Log(s, s.procs[p].job.path)|
  {
    assert ProcOk(s, p);
  }

  /** Success is only reported by a process that holds its lock. */
  lemma OnlyGrantPlaces(s: State, p: Pid, c: Choice)
    requires Inv(s) && p in s.procs && !Turns(s, p, c).Blocked?
    ensures Placed(Turns(s, p, c).q) ==> Placed(s.procs[p]) || Turns(s, p, c).Grant?
  {
    TurnKinds(s, p, c);
    assert ProcOk(s, p);
  }

  /**
   The atomic order respects real time: a command still to be started at `run[i]` and placed
   at `run[j]` comes after every write committed at `run[i]` and before the ones missing at `run[j]`.
   */
  lemma RealTimeOrder(run: seq<State>, i: nat, j: nat, p: Pid)
    requires Run(run) && i <= j < |run|
    requires p in run[i].procs && Outside(run[i].procs[p])
    ensures var f := run[i].procs[p].job.path;
            && p in run[j].procs
            && Log(run[i], f) <= Log(run[j], f)
            && (Placed(run[j].procs[p]) ==>
                |Log(run[i], f)| <= run[j].procs[p].seen <= |Log(run[j], f)|)
  {
    StaysNotBefore(run, i, j, p, run[i].procs[p].job, |Log(run[i], run[i].procs[p].job.path)|);
    InvAt(run, j);
    if Placed(run[j].procs[p]) {
      SeenBound(run[j], p);
    }
  }

  lemma {:induction false} StaysNotBefore(run: seq<State>, i: nat, j: nat, p: Pid, job: Job, n: nat)
    requires Run(run) && i <= j < |run| && NotBefore(run[i], p, job, n)
    ensures NotBefore(run[j], p, job, n) && Log(run[i], job.path) <= Log(run[j], job.path)
    decreases j
  {
    if i < j {
      StaysNotBefore(run, i, j - 1, p, job, n);
      InvAt(run, j - 1);
      assert StepAt(Next, run, j);
      NextNotBefore(run[j - 1], run[j], p, job, n);
    }
  }

  lemma InvAt(run: seq<State>, k: nat)
    requires Run(run) && k < |run|
    ensures Inv(run[k])
  {
    PrefixIsRun(Init, Next, run, k + 1);
    RunInv(run[..k + 1]);
    assert run[k] == Last(run[..k + 1]);
  }

  // ---------------------------------------------------------------- locks

  /** `p` sits in `fcntl(F_SETLKW)` behind a lock of `r`. */
  ghost predicate WaitsFor(s: State, p: Pid, r: Pid) {
    && p in s.procs && s.procs[p].stage == Waiting && p != r
    && (exists l ::
      && l in s.locks && l.pid == r && l.path == s.procs[p].job.path
      && (l.exclusive || s.procs[p].job.cmd.Write?))
  }

  /**
   A process that waits for a file lock, or has finished, holds none; so the process waited
   for never waits itself, and lock waits form no cycle.
   */
  lemma NoLockCycle(run: seq<State>)
    requires Run(run)
    ensures forall l :: l in Last(run).locks ==>
              l.pid in Last(run).procs && Holding(Last(run).procs[l.pid])
    ensures forall p, r, t :: WaitsFor(Last(run), p, r) ==> !WaitsFor(Last(run), r, t)
  {
    RunInv(run);
  }

  /** A process that is not waiting behind a lock can make its next call without an error. */
  lemma CanMove(s: State, r: Pid) returns (c: Choice)
    requires r in s.procs && ProcOk(s, r) && s.procs[r].stage != Done
    requires s.procs[r].stage == Waiting ==> Grantable(s, r, s.procs[r].job.path, s.procs[r].job.cmd.Write?)
    ensures !c.Fail? && !Turns(s, r, c).Blocked?
  {
    var q := s.procs[r];
    var file := Content(s, q.job.path);
    c := if q.stage == Writing then Chunk(|q.job.data|)
         else if q.stage == Streaming && q.pos < |file| then Chunk(1)
         else Go;
  }

  /** No deadlock: while some command is unfinished, some process can make progress without an error. */
  lemma NeverStuck(run: seq<State>, p: Pid) returns (r: Pid, c: Choice)
    requires Run(run)
    requires p in Last(run).procs && Last(run).procs[p].stage != Done
    ensures r in Last(run).procs && !c.Fail? && !Turns(Last(run), r, c).Blocked?
  {
    RunInv(run);
    var s := Last(run);
    r := p;
    if s.procs[p].stage == Waiting && !Grantable(s, p, s.procs[p].job.path, s.procs[p].job.cmd.Write?) {
      var l :| l in s.locks && l.path == s.procs[p].job.path && l.pid != p;
      r := l.pid;
      assert Holding(s.procs[r]);
    }
    assert ProcOk(s, r);
    c := CanMove(s, r);
  }
}
