/** That every request issued is the one its sender asked for. */
module TransferAsked {
  import opened Registry
  import opened Runs
  import opened TransferRuns
  import opened TransferTheorems

  /** Some active entry of the table is of this user. */
  ghost predicate IsOnline(o: seq<UserEntry>, user: string) {
    exists i :: 0 <= i < |o| && o[i].isActive && o[i].username == user
  }

  /** At step `j` the session asked for a transfer, and its receiver was online. */
  ghost predicate AskedAt(run: seq<State>, j: nat, pid: Pid, dest: string, filename: string) {
    && 0 < j < |run|
    && Step(run[j - 1], pid, Target(dest, filename), run[j])
    && IsOnline(run[j - 1].online, dest)
  }

  /** Between steps `j` and `k` the session has asked for nothing else: it is still at that command. */
  ghost predicate StillAt(run: seq<State>, j: nat, k: nat, pid: Pid, dest: string, filename: string) {
    forall m :: j <= m < k < |run| ==>
      pid in run[m].sessions && run[m].sessions[pid].phase == Targeted(dest, filename)
  }

  ghost predicate Asked(run: seq<State>, j: nat, pid: Pid, dest: string, filename: string) {
    AskedAt(run, j, pid, dest, filename) && StillAt(run, j, |run| - 1, pid, dest, filename)
  }

  lemma PhaseMoves(s: State, pid: Pid, a: Action, s': State, p: Pid)
    requires Step(s, pid, a, s') && p in s'.sessions && s'.sessions[p].phase.Targeted?
    ensures p in s.sessions && s.sessions[p].user == s'.sessions[p].user
    ensures s'.sessions[p] == s.sessions[p]
      || (p == pid && a.Target? && s'.sessions[p].phase == Targeted(a.dest, a.filename))
  {
    hide Slots, News, CreateSlot, LoginEntry, LogoutEntry, OnlinePid;
  }

  /** Whoever is at a transfer command has entered it, with that receiver online, and has stayed at it. */
  lemma {:induction false} TargetedHasAsked(run: seq<State>, p: Pid) returns (j: nat)
    requires Run(run) && p in Last(run).sessions && Last(run).sessions[p].phase.Targeted?
    ensures var phase := Last(run).sessions[p].phase;
            Asked(run, j, p, phase.dest, phase.filename)
    decreases |run|
  {
    j := 0;
    if |run| > 1 {
      var s, s' := run[|run| - 2], Last(run);
      var before := run[..|run| - 1];
      PrefixIsRun(Init, Next, run, |run| - 1);
      assert StepAt(Next, run, |run| - 1) && Last(before) == s;
      var pid, a :| Step(s, pid, a, s');
      PhaseMoves(s, pid, a, s', p);
      var phase := s'.sessions[p].phase;
      hide Init, Next;
      if s'.sessions[p] == s.sessions[p] {
        j := TargetedHasAsked(before, p);
        hide Step, Run;
        StaysAsked(run, j, p, phase.dest, phase.filename);
      } else {
        j := |run| - 1;
        TargetSeesOnline(s, pid, a.dest, a.filename, s');
      }
    }
  }

  lemma TargetSeesOnline(s: State, pid: Pid, dest: string, filename: string, s': State)
    requires Step(s, pid, Target(dest, filename), s')
    ensures IsOnline(s.online, dest)
  {
    var k := FirstOnline(s.online, dest);
  }

  lemma StaysAsked(run: seq<State>, j: nat, p: Pid, dest: string, filename: string)
    requires |run| > 1 && Asked(run[..|run| - 1], j, p, dest, filename)
    requires var s := run[|run| - 2]; p in s.sessions && s.sessions[p].phase == Targeted(dest, filename)
    ensures Asked(run, j, p, dest, filename)
  {
    var before := run[..|run| - 1];
    hide Step;
    assert before[j - 1] == run[j - 1] && before[j] == run[j];
    forall m | j <= m < |run| - 1
      ensures p in run[m].sessions && run[m].sessions[p].phase == Targeted(dest, filename)
    {
      assert before[m] == run[m];
    }
  }

  /** At step `k` the session `pid`, having asked for it at step `j`, creates request `id`. */
  ghost predicate IssuedAt(run: seq<State>, j: nat, k: nat, pid: Pid, id: nat, t: Terms) {
    && 0 < j < k < |run|
    && AskedAt(run, j, pid, t.receiver, t.filename)
    && StillAt(run, j, k, pid, t.receiver, t.filename)
    && Step(run[k - 1], pid, Create, run[k])
    && pid in run[k - 1].sessions && run[k - 1].sessions[pid].user == t.sender
    && run[k - 1].counter == id - 1 && run[k].counter == id
  }

  lemma StillIssued(run: seq<State>, n: nat, j: nat, k: nat, pid: Pid, id: nat, t: Terms)
    requires n <= |run| && IssuedAt(run[..n], j, k, pid, id, t)
    ensures IssuedAt(run, j, k, pid, id, t)
  {
    hide Step;
    var before := run[..n];
    assert before[j - 1] == run[j - 1] && before[j] == run[j] && before[k - 1] == run[k - 1] && before[k] == run[k];
    forall m | j <= m < k
      ensures pid in run[m].sessions && run[m].sessions[pid].phase == Targeted(t.receiver, t.filename)
    {
      assert before[m] == run[m];
    }
  }

  /** The counter moves only in a create step, which records what the session was at. */
  lemma CounterMoves(s: State, s': State)
    requires Next(s, s') && Shaped(s) && s'.counter != s.counter
    ensures exists pid :: CreatesAt(s, pid, s')
  {
    var pid, a :| Step(s, pid, a, s');
    hide Slots, News, CreateSlot, LoginEntry, LogoutEntry, OnlinePid;
    assert a == Create;
    assert CreatesAt(s, pid, s');
  }

  ghost predicate CreatesAt(s: State, pid: Pid, s': State) {
    && Step(s, pid, Create, s') && pid in s.sessions && s.sessions[pid].phase.Targeted?
    && s'.counter == s.counter + 1
    && s'.terms == s.terms + [Terms(s.sessions[pid].user, s.sessions[pid].phase.dest, s.sessions[pid].phase.filename)]
  }

  lemma IssuedNow(run: seq<State>, pid: Pid) returns (j: nat)
    requires Run(run) && |run| > 1 && CreatesAt(run[|run| - 2], pid, Last(run)) && Shaped(run[|run| - 2])
    ensures Last(run).counter >= 1 && |Last(run).terms| == Last(run).counter
    ensures IssuedAt(run, j, |run| - 1, pid, Last(run).counter, Last(run).terms[Last(run).counter - 1])
  {
    var s, before := run[|run| - 2], run[..|run| - 1];
    PrefixIsRun(Init, Next, run, |run| - 1);
    assert Last(before) == s;
    hide Run, Step;
    j := TargetedHasAsked(before, pid);
    assert before[j - 1] == run[j - 1] && before[j] == run[j];
    var phase := s.sessions[pid].phase;
    forall m | j <= m < |run| - 1
      ensures pid in run[m].sessions && run[m].sessions[pid].phase == Targeted(phase.dest, phase.filename)
    {
      assert before[m] == run[m];
    }
  }

  /**
   The sender, receiver and file name of every request ever issued are the user of the session
   that issued it, and the receiver and file name it had asked for at its last transfer
   command, when that receiver was online.
   */
  lemma {:induction false} IssuedAsAsked(run: seq<State>, id: nat) returns (j: nat, k: nat, pid: Pid)
    requires Run(run) && 1 <= id <= Last(run).counter
    ensures |Last(run).terms| == Last(run).counter
    ensures IssuedAt(run, j, k, pid, id, Last(run).terms[id - 1])
    decreases |run|
  {
    j, k, pid := 0, 0, 0;
    if |run| > 1 {
      var s, s', before := run[|run| - 2], Last(run), run[..|run| - 1];
      ShapedAt(run, |run| - 2);
      ShapedAt(run, |run| - 1);
      PrefixIsRun(Init, Next, run, |run| - 1);
      assert StepAt(Next, run, |run| - 1) && Last(before) == s;
      hide Run, Init, IssuedAt, CreatesAt, Next;
      if id <= s.counter {
        StepGrows(s, s', id);
        j, k, pid := IssuedAsAsked(before, id);
        StillIssued(run, |run| - 1, j, k, pid, id, s'.terms[id - 1]);
      } else {
        CounterMoves(s, s');
        pid :| CreatesAt(s, pid, s');
        CountedOne(s, pid, s');
        j := IssuedNow(run, pid);
        k := |run| - 1;
      }
    }
  }

  lemma CountedOne(s: State, pid: Pid, s': State)
    requires CreatesAt(s, pid, s')
    ensures s'.counter == s.counter + 1
  {
  }

  lemma ShapedAt(run: seq<State>, k: nat)
    requires Run(run) && k < |run|
    ensures Shaped(run[k])
  {
    PrefixIsRun(Init, Next, run, k + 1);
    hide Init, Next;
    RunInv(run[..k + 1]);
    assert run[k] == Last(run[..k + 1]);
  }
}
