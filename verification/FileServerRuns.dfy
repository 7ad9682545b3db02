/** How commands begin and end in the runs of the file machine: which file they find, and with what answer. */
module FileServerRuns {
  import opened Bytes
  import opened FileSpec
  import opened FileServer
  import opened FileServerProof
  import opened FileServerTheorems
  import opened Runs

  // ---------------------------------------------------------------- names

  /** Whoever is past opening its file, and has not finished, has it there. */
  ghost predicate FilesThere(s: State) {
    forall p :: p in s.procs && s.procs[p].stage != Start && s.procs[p].stage != Done ==> s.procs[p].job.path in s.files
  }

  lemma TurnNeedsFile(q: Proc, file: seq<byte>, present: bool, free: bool, commits: nat, c: Choice)
    requires q.stage == Start && !TurnOf(q, file, present, free, commits, c).Blocked?
    ensures var t := TurnOf(q, file, present, free, commits, c);
            && (t.Create? || (t.Local? && t.q.stage == Done))
            && (t.Create? ==> present || q.job.cmd.Write?)
            && (t.Create? ==> t.q.found == present && t.q.failed == q.failed)
            && (t.Local? ==> t.q.found == q.found && (t.q.failed || (!present && !q.job.cmd.Write?)))
  {
  }

  /** A file comes to be only when it is opened for a write command on it; none goes away. */
  lemma OnlyWritesAddNames(s: State, p: Pid, c: Choice, s': State, f: Path)
    requires Step(s, p, c, s') && FilesThere(s)
    ensures f in s.files ==> f in s'.files
    ensures f in s'.files && f !in s.files ==>
      s.procs[p].job.cmd.Write? && s.procs[p].job.path == f && s.procs[p].stage == Start
  {
    var q := s.procs[p];
    TurnKinds(s, p, c);
    if q.stage == Start {
      hide Grantable;
      TurnNeedsFile(q, Content(s, q.job.path), q.job.path in s.files, Grantable(s, p, q.job.path, q.job.cmd.Write?),
        |Log(s, q.job.path)|, c);
    }
    hide TurnOf, KernelWrite, Grantable;
  }

  lemma StepKeepsFiles(s: State, p: Pid, c: Choice, s': State)
    requires Step(s, p, c, s') && FilesThere(s)
    ensures FilesThere(s')
  {
    TurnKinds(s, p, c);
    assert s'.procs == s.procs[p := Turns(s, p, c).q];
    forall r | r in s'.procs && s'.procs[r].stage != Start && s'.procs[r].stage != Done
      ensures s'.procs[r].job.path in s'.files
    {
      OnlyWritesAddNames(s, p, c, s', s'.procs[r].job.path);
      hide TurnOf, Grantable, KernelWrite;
    }
  }

  lemma {:induction false} FilesThereAt(run: seq<State>, k: nat)
    requires Run(run) && k < |run|
    ensures FilesThere(run[k])
    decreases k
  {
    if k > 0 {
      FilesThereAt(run, k - 1);
      assert StepAt(Next, run, k);
      var p, c :| Step(run[k - 1], p, c, run[k]);
      hide Step, FilesThere, Run;
      StepKeepsFiles(run[k - 1], p, c, run[k]);
    }
  }

  /** At step `j` process `p` opens its file. */
  ghost predicate OpensAt(run: seq<State>, j: nat, p: Pid) {
    && 0 < j < |run| && p in run[j - 1].procs && p in run[j].procs
    && run[j].procs[p].job == run[j - 1].procs[p].job
    && run[j - 1].procs[p].stage == Start && run[j].procs[p].stage != Start
  }

  /** Every name that was not there at first was added by a write command on it, at its first call. */
  lemma {:induction false} NamesComeFromWrites(run: seq<State>, f: Path) returns (j: nat, p: Pid)
    requires Run(run) && f in Last(run).files && f !in run[0].files
    ensures OpensAt(run, j, p) && f !in run[j - 1].files && f in run[j].files
    ensures run[j].procs[p].job.cmd.Write? && run[j].procs[p].job.path == f
    decreases |run|
  {
    j, p := 0, 0;
    if |run| > 1 {
      var s, s', before := run[|run| - 2], Last(run), run[..|run| - 1];
      assert StepAt(Next, run, |run| - 1);
      PrefixIsRun(Init, Next, run, |run| - 1);
      assert Last(before) == s;
      if f in s.files {
        hide Init, Next, Run;
        j, p := NamesComeFromWrites(before, f);
      } else {
        var c;
        p, c :| Step(s, p, c, s');
        j := |run| - 1;
        FilesThereAt(run, |run| - 2);
        OnlyWritesAddNames(s, p, c, s', f);
        LeavesStart(s, p, c, s');
      }
    }
  }

  lemma LeavesStart(s: State, p: Pid, c: Choice, s': State)
    requires Step(s, p, c, s')
    ensures p in s.procs && p in s'.procs && s'.procs[p].job == s.procs[p].job
    ensures s.procs[p].stage == Start ==> s'.procs[p].stage != Start
    ensures forall r :: r in s.procs && r != p ==> r in s'.procs && s'.procs[r] == s.procs[r]
  {
    TurnKinds(s, p, c);
    if s.procs[p].stage == Start {
      hide Grantable;
    } else {
      hide TurnOf, Grantable, KernelWrite;
    }
  }

  // ---------------------------------------------------------------- what was found, what failed

  /** The call fails, or writes less than asked for. */
  predicate Fails(q: Proc, c: Choice) {
    c.Fail? || (q.stage == Writing && c.Chunk? && c.n < |q.job.data|)
  }

  lemma TurnKeepsHistory(q: Proc, file: seq<byte>, present: bool, free: bool, commits: nat, c: Choice)
    requires !TurnOf(q, file, present, free, commits, c).Blocked?
    ensures var t := TurnOf(q, file, present, free, commits, c);
            && (q.failed ==> t.q.failed)
            && (!Fails(q, c) ==> t.q.failed == q.failed)
            && (q.stage != Start ==> t.q.found == q.found)
  {
    if q.stage == Locked {
      hide SeekTurn, StreamTurn;
    } else if q.stage == Positioning {
      hide StatTurn, StreamTurn;
    } else {
      hide StatTurn, SeekTurn;
    }
  }

  lemma StepKeepsHistory(s: State, p: Pid, c: Choice, s': State)
    requires Step(s, p, c, s')
    ensures p in s.procs && p in s'.procs && s'.procs[p].job == s.procs[p].job
    ensures s.procs[p].failed ==> s'.procs[p].failed
    ensures !Fails(s.procs[p], c) ==> s'.procs[p].failed == s.procs[p].failed
    ensures s.procs[p].stage != Start ==> s'.procs[p].stage != Start && s'.procs[p].found == s.procs[p].found
  {
    var q, f := s.procs[p], s.procs[p].job.path;
    hide TurnOf, Fails, Grantable;
    TurnKinds(s, p, c);
    TurnKeepsHistory(q, Content(s, f), f in s.files, Grantable(s, p, f, q.job.cmd.Write?), |Log(s, f)|, c);
    assert s'.procs[p] == Turns(s, p, c).q;
    hide Apply, Step;
  }

  /** The first call of a process: the file is found, or made, or missing, or the call fails. */
  lemma FirstCall(s: State, p: Pid, c: Choice, s': State)
    requires Step(s, p, c, s') && s.procs[p].stage == Start && !s.procs[p].found
    ensures p in s'.procs && s'.procs[p].stage != Start
    ensures var q, f := s'.procs[p], s.procs[p].job.path;
            && (q.found ==> f in s.files)
            && (!q.failed ==> (q.found <==> f in s.files))
            && (!q.failed && q.job.cmd.Write? ==> f in s'.files)
            && (!q.job.cmd.Write? ==> s'.files == s.files)
  {
    var q, f := s.procs[p], s.procs[p].job.path;
    hide TurnOf, Grantable;
    TurnKinds(s, p, c);
    TurnNeedsFile(q, Content(s, f), f in s.files, Grantable(s, p, f, q.job.cmd.Write?), |Log(s, f)|, c);
    assert s'.procs[p] == Turns(s, p, c).q;
  }

  /** At step `j` process `p` opened its file, and this is what it knows of it at the end. */
  ghost predicate Opened(run: seq<State>, j: nat, p: Pid)
    requires |run| > 0 && p in Last(run).procs
  {
    var q := Last(run).procs[p];
    && OpensAt(run, j, p)
    && run[j].procs[p].job == q.job
    && (q.found ==> q.job.path in run[j - 1].files)
    && (!q.failed ==> (q.found <==> q.job.path in run[j - 1].files))
    && (!q.failed && q.job.cmd.Write? ==> q.job.path in run[j].files)
    && (!q.job.cmd.Write? ==> run[j].files == run[j - 1].files)
  }

  lemma StartNotFound(s: State, p: Pid)
    requires Inv(s) && p in s.procs && s.procs[p].stage == Start
    ensures !s.procs[p].found
  {
    assert ProcOk(s, p);
  }

  lemma OpenedStays(run: seq<State>, j: nat, p: Pid)
    requires |run| > 1 && p in run[|run| - 2].procs && p in Last(run).procs
    requires Opened(run[..|run| - 1], j, p)
    requires var q, q' := run[|run| - 2].procs[p], Last(run).procs[p];
             q'.job == q.job && q'.found == q.found && (q.failed ==> q'.failed)
    ensures Opened(run, j, p)
  {
    var before := run[..|run| - 1];
    assert before[j - 1] == run[j - 1] && before[j] == run[j];
    hide Inv;
  }

  /** A command past its first call made it, and found its file, exactly as it was then. */
  lemma {:induction false} HasOpened(run: seq<State>, p: Pid) returns (j: nat)
    requires Run(run) && p in Last(run).procs && Last(run).procs[p].stage != Start
    ensures Opened(run, j, p)
    decreases |run|
  {
    j := 0;
    if |run| > 1 {
      var s, before := run[|run| - 2], run[..|run| - 1];
      assert StepAt(Next, run, |run| - 1);
      PrefixIsRun(Init, Next, run, |run| - 1);
      assert Last(before) == s;
      InvAt(run, |run| - 2);
      hide Init, Inv, Opened, Run;
      var r, c := StepTo(s, Last(run), p);
      if s.procs[p].stage == Start {
        j := |run| - 1;
        OpensNow(run, p, c);
      } else {
        j := HasOpened(before, p);
        OpenedStays(run, j, p);
      }
    }
  }

  /** A step as `p` sees it. */
  lemma StepTo(s: State, s': State, p: Pid) returns (r: Pid, c: Choice)
    requires Next(s, s') && p in s'.procs
    ensures Step(s, r, c, s') && p in s.procs && s'.procs[p].job == s.procs[p].job
    ensures r != p ==> s'.procs[p] == s.procs[p]
    ensures s.procs[p].failed ==> s'.procs[p].failed
    ensures s.procs[p].stage != Start ==> s'.procs[p].found == s.procs[p].found
  {
    r, c :| Step(s, r, c, s');
    KeysStay(s, r, c, s');
    hide Step;
    LeavesStart(s, r, c, s');
    StepKeepsHistory(s, r, c, s');
  }

  lemma OpensNow(run: seq<State>, p: Pid, c: Choice)
    requires |run| > 1 && Inv(run[|run| - 2])
    requires Step(run[|run| - 2], p, c, Last(run)) && run[|run| - 2].procs[p].stage == Start
    requires p in Last(run).procs && Last(run).procs[p].job == run[|run| - 2].procs[p].job
    ensures Opened(run, |run| - 1, p)
  {
    assert p in run[|run| - 2].procs;
    StartNotFound(run[|run| - 2], p);
    hide Inv;
    FirstCall(run[|run| - 2], p, c, Last(run));
    hide Step;
  }

  lemma KeysStay(s: State, r: Pid, c: Choice, s': State)
    requires Step(s, r, c, s')
    ensures s'.procs.Keys == s.procs.Keys
  {
    TurnKinds(s, r, c);
    hide TurnOf, Grantable, KernelWrite;
  }

  ghost predicate MovesWell(s: State, p: Pid, c: Choice, s': State) {
    Step(s, p, c, s') && !Fails(s.procs[p], c)
  }

  ghost predicate MovesSomehowWell(s: State, p: Pid, s': State) {
    exists c :: MovesWell(s, p, c, s')
  }

  /** `p` does not move at step `k`, or by a call that does not fail. */
  ghost predicate WorksAt(run: seq<State>, k: nat, p: Pid)
    requires 0 < k < |run|
  {
    && p in run[k - 1].procs && p in run[k].procs
    && (run[k].procs[p] == run[k - 1].procs[p] || MovesSomehowWell(run[k - 1], p, run[k]))
  }

  ghost predicate NothingFails(run: seq<State>, p: Pid) {
    forall k: nat :: 0 < k < |run| ==> WorksAt(run, k, p)
  }

  lemma {:induction false} NothingFailed(run: seq<State>, p: Pid)
    requires Run(run) && p in run[0].procs && NothingFails(run, p)
    ensures p in Last(run).procs && !Last(run).procs[p].failed && Last(run).procs[p].job == run[0].procs[p].job
    decreases |run|
  {
    if |run| > 1 {
      var before := run[..|run| - 1];
      PrefixIsRun(Init, Next, run, |run| - 1);
      forall k: nat | 0 < k < |before| ensures WorksAt(before, k, p) {
        assert WorksAt(run, k, p);
      }
      NothingFailed(before, p);
      assert Last(before) == run[|run| - 2];
      assert WorksAt(run, |run| - 1, p);
      hide Run, Init, NothingFails;
      if run[|run| - 1].procs[p] != run[|run| - 2].procs[p] {
        var c :| MovesWell(run[|run| - 2], p, c, run[|run| - 1]);
        hide WorksAt, Step, Fails;
        StepKeepsHistory(run[|run| - 2], p, c, run[|run| - 1]);
      }
    }
  }

  /** The offset a command is given fits the file it finds. */
  predicate InRange(job: Job, version: seq<byte>) {
    match job.cmd
    case Write => 0 <= job.offset
    case Read => 0 <= job.offset <= |version|
    case Download => true
  }

  /**
   The answer. A command that has finished and none of whose calls has failed made its first
   call at some step of the run; it succeeded exactly if its file was there then, for a write
   command in any case, and its offset fits the version of the file it was given.
   */
  lemma AnswerFits(run: seq<State>, p: Pid) returns (j: nat)
    requires Run(run) && p in run[0].procs && NothingFails(run, p)
    requires p in Last(run).procs && Last(run).procs[p].stage == Done
    ensures OpensAt(run, j, p)
    ensures var s := Last(run); var q := s.procs[p]; var job := run[0].procs[p].job;
            && q.job == job && (job.cmd.Write? || q.seen <= |Log(s, job.path)|)
            && (q.ok <==> (job.cmd.Write? || job.path in run[j - 1].files)
                          && InRange(job, Snapshot(s, job.path, q.seen)))
  {
    NothingFailed(run, p);
    j := HasOpened(run, p);
    Linearizable(run);
    RunInv(run);
    var s := Last(run);
    var q := s.procs[p];
    assert ProcOk(s, p);
    if !q.job.cmd.Write? {
      SeenInLog(s, p);
    }
    hide Run, Inv, ProcOk, NothingFails;
    assert Answered(s, p, q, q.job);
    hide Explained;
  }

  lemma SeenInLog(s: State, p: Pid)
    requires p in s.procs && ProcOk(s, p) && !s.procs[p].job.cmd.Write?
    ensures s.procs[p].seen <= |Log(s, s.procs[p].job.path)|
  {
  }

  /** A read or download that reports success found its file at its first call, whatever else failed. */
  lemma SuccessFoundFile(run: seq<State>, p: Pid) returns (j: nat)
    requires Run(run) && p in Last(run).procs && Last(run).procs[p].ok
    requires !Last(run).procs[p].job.cmd.Write?
    ensures OpensAt(run, j, p) && Last(run).procs[p].job.path in run[j - 1].files
    ensures run[j].files == run[j - 1].files
  {
    RunInv(run);
    var s := Last(run);
    assert ProcOk(s, p);
    assert s.procs[p].found && s.procs[p].stage != Start;
    hide Run, Inv, ProcOk;
    j := HasOpened(run, p);
  }
}
