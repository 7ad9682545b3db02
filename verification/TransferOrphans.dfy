/**
 What the two sections of a logout do not clean up: requests left to a receiver of whom no
 session can act on them any more.
 */
module TransferOrphans {
  import opened Bytes
  import opened Registry
  import opened Runs
  import opened TransferRuns
  import opened TransferTheorems

  ghost predicate AbleAt(s: State, pid: Pid, user: string) {
    && pid in s.sessions && s.sessions[pid].user == user
    && (s.sessions[pid].phase.Active? || s.sessions[pid].phase.Targeted?)
  }

  /** Some session of the user can still take commands, and will clean up when it logs out. */
  ghost predicate Able(s: State, user: string) {
    exists pid :: AbleAt(s, pid, user)
  }

  ghost predicate Orphaned(s: State, i: nat)
    requires Shaped(s)
  {
    i < MAX_TRANSFERS && Occupied(s.pending[i]) && !Able(s, s.pending[i].receiver)
  }

  /** The session is about to fill a free slot for a receiver that is not able. */
  ghost predicate Strands(s: State, pid: Pid)
    requires Shaped(s)
  {
    && Enabled(s, pid, Create) && FirstFree(s.pending) < MAX_TRANSFERS
    && !Able(s, s.sessions[pid].phase.dest)
  }

  // ---------------------------------------------------------------- one step

  lemma OtherSessionsStay(s: State, pid: Pid, a: Action, s': State, other: Pid, user: string)
    requires Step(s, pid, a, s') && other != pid
    ensures AbleAt(s', other, user) <==> AbleAt(s, other, user)
  {
    hide Slots, News, CreateSlot, LoginEntry, LogoutEntry, OnlinePid;
  }

  lemma OwnSession(s: State, pid: Pid, a: Action, s': State, user: string)
    requires Step(s, pid, a, s')
    ensures a != CleanUp ==> AbleAt(s, pid, user) ==> AbleAt(s', pid, user)
    ensures !a.Login? ==> AbleAt(s', pid, user) ==> AbleAt(s, pid, user)
    ensures a == CleanUp && AbleAt(s, pid, user) ==> s.sessions[pid].user == user
  {
    hide Slots, News, CreateSlot, LoginEntry, LogoutEntry, OnlinePid;
  }

  /** Only a logout makes its user unable, and only a login makes it able. */
  lemma AbleStays(s: State, pid: Pid, a: Action, s': State, user: string)
    requires Step(s, pid, a, s')
    ensures Able(s, user) ==> Able(s', user) || (a == CleanUp && pid in s.sessions && s.sessions[pid].user == user)
    ensures !a.Login? && Able(s', user) ==> Able(s, user)
  {
    OwnSession(s, pid, a, s', user);
    hide Step, AbleAt;
    if other :| AbleAt(s, other, user) {
      if other != pid {
        OtherSessionsStay(s, pid, a, s', other, user);
      }
      InSessions(s, other, user);
    }
    if !a.Login? {
      if other :| AbleAt(s', other, user) {
        if other != pid {
          OtherSessionsStay(s, pid, a, s', other, user);
        }
      }
    }
  }

  lemma InSessions(s: State, pid: Pid, user: string)
    requires AbleAt(s, pid, user)
    ensures pid in s.sessions && s.sessions[pid].user == user
  {
  }

  /** The logout frees every slot of its user. */
  lemma CleanUpFrees(s: State, pid: Pid, s': State, i: nat)
    requires Step(s, pid, CleanUp, s') && Shaped(s) && Shaped(s') && i < MAX_TRANSFERS
    requires Occupied(s'.pending[i])
    ensures s'.pending[i] == s.pending[i] && pid in s.sessions && s.pending[i].receiver != s.sessions[pid].user
  {
    hide News, FirstFree;
    assert s'.pending == CleanAll(s.pending, s.sessions[pid].user);
    assert s'.pending[i] == Cleaned(s.pending[i], s.sessions[pid].user);
  }

  /** Where a step leaves an occupied slot with its receiver. */
  lemma SlotStays(s: State, pid: Pid, a: Action, s': State, i: nat)
    requires Step(s, pid, a, s') && Inv(s) && Shaped(s') && i < MAX_TRANSFERS && Occupied(s'.pending[i])
    requires a != Create || i != FirstFree(s.pending)
    ensures Occupied(s.pending[i]) && s'.pending[i].receiver == s.pending[i].receiver
    ensures s'.pending[i] == s.pending[i] || (pid in s.sessions && AbleAt(s, pid, s.sessions[pid].user))
    ensures s'.pending[i].status != s.pending[i].status ==>
      a == Notify || a.Reject?
    ensures a == Notify || a.Reject? ==> pid in s.sessions && AbleAt(s, pid, s.sessions[pid].user)
  {
    assert SlotOk(s, i);
    hide FateOf, Shaped;
    if OnSlots(a) {
      SlotMoves(s.pending, i, s.sessions[pid].user, a);
    }
  }

  lemma NewSlot(s: State, pid: Pid, s': State)
    requires Step(s, pid, Create, s') && Shaped(s) && FirstFree(s.pending) < MAX_TRANSFERS
    ensures var k := FirstFree(s.pending);
            && !Occupied(s.pending[k]) && |s'.pending| == MAX_TRANSFERS
            && s'.pending[k].status == PENDING && s'.pending[k].receiver == s.sessions[pid].phase.dest
  {
  }

  lemma OnlyCreateOrphans(s: State, pid: Pid, a: Action, s': State, i: nat)
    requires Step(s, pid, a, s') && Inv(s) && Shaped(s') && Orphaned(s', i)
    ensures Orphaned(s, i) || (a == Create && Strands(s, pid) && i == FirstFree(s.pending))
  {
    var user := s'.pending[i].receiver;
    AbleStays(s, pid, a, s', user);
    if a == Create && i == FirstFree(s.pending) {
      NewSlot(s, pid, s');
      assert Shaped(s) && Enabled(s, pid, Create);
    } else {
      SlotStays(s, pid, a, s', i);
      assert Shaped(s);
      if a == CleanUp {
        CleanUpFrees(s, pid, s', i);
      }
    }
    hide Inv, Step, Able, FirstFree;
  }

  lemma StrandsOrphan(s: State, pid: Pid, s': State)
    requires Step(s, pid, Create, s') && Shaped(s) && Shaped(s') && Strands(s, pid)
    ensures Orphaned(s', FirstFree(s.pending)) && !Orphaned(s, FirstFree(s.pending))
  {
    var user := s.sessions[pid].phase.dest;
    NewSlot(s, pid, s');
    AbleStays(s, pid, Create, s', user);
    hide Step, Able, FirstFree, Shaped;
  }

  /**
   A step strands a request exactly if it creates one, a slot being free, for a receiver of
   whom no session can take commands.
   */
  lemma StrandedByCreate(s: State, pid: Pid, a: Action, s': State)
    requires Step(s, pid, a, s') && Inv(s)
    ensures Shaped(s')
    ensures (exists i: nat :: Orphaned(s', i) && !Orphaned(s, i)) <==> a == Create && Strands(s, pid)
  {
    StepKeepsInv(s, pid, a, s');
    hide Inv, Step, Orphaned, FateOf;
    assert Shaped(s) && Shaped(s') by { InvShaped(s); InvShaped(s'); }
    if i: nat :| Orphaned(s', i) && !Orphaned(s, i) {
      OnlyCreateOrphans(s, pid, a, s', i);
    }
    if a == Create && Strands(s, pid) {
      StrandsOrphan(s, pid, s');
    }
  }

  lemma InvShaped(s: State)
    requires Inv(s)
    ensures Shaped(s)
  {
  }

  // ---------------------------------------------------------------- over whole runs

  ghost predicate HasOrphan(s: State) {
    Shaped(s) && exists i: nat :: Orphaned(s, i)
  }

  /** The step creates a request for a receiver that is not able. */
  ghost predicate StrandingStep(s: State, s': State) {
    Shaped(s) && exists pid :: Strands(s, pid) && Step(s, pid, Create, s')
  }

  lemma OrphanStep(s: State, s': State)
    requires Next(s, s') && Inv(s)
    ensures StrandingStep(s, s') ==> HasOrphan(s')
    ensures HasOrphan(s') ==> HasOrphan(s) || StrandingStep(s, s')
  {
    hide Inv, Step, Strands, Orphaned, Shaped;
    InvShaped(s);
    if StrandingStep(s, s') {
      var pid :| Strands(s, pid) && Step(s, pid, Create, s');
      StrandedByCreate(s, pid, Create, s');
    }
    var pid, a :| Step(s, pid, a, s');
    StrandedByCreate(s, pid, a, s');
    if HasOrphan(s') {
      var i: nat :| Orphaned(s', i);
      assert Orphaned(s, i) || (a == Create && Strands(s, pid));
    }
  }

  /** Along a run orphans exist at some time exactly if some step of it strands a request. */
  lemma OrphansAreStranded(run: seq<State>)
    requires Run(run)
    ensures (exists j :: 0 <= j < |run| && HasOrphan(run[j]))
            <==> (exists j :: 0 < j < |run| && StrandingStep(run[j - 1], run[j]))
  {
    if j :| 0 <= j < |run| && HasOrphan(run[j]) {
      var k := StrandedBefore(run, j);
    }
    if j :| 0 < j < |run| && StrandingStep(run[j - 1], run[j]) {
      StepAndInv(run, j);
      hide Inv, Next, Run, HasOrphan, StrandingStep;
      OrphanStep(run[j - 1], run[j]);
    }
  }

  lemma StepAndInv(run: seq<State>, j: nat)
    requires Run(run) && 0 < j < |run|
    ensures Inv(run[j - 1]) && Next(run[j - 1], run[j])
  {
    assert StepAt(Next, run, j);
    PrefixIsRun(Init, Next, run, j);
    hide Init, Next, Inv;
    RunInv(run[..j]);
    assert Last(run[..j]) == run[j - 1];
  }

  lemma NoOrphanAtFirst(s: State)
    requires Init(s)
    ensures !HasOrphan(s)
  {
  }

  lemma {:induction false} StrandedBefore(run: seq<State>, j: nat) returns (k: nat)
    requires Run(run) && j < |run| && HasOrphan(run[j])
    ensures 0 < k <= j && StrandingStep(run[k - 1], run[k])
    decreases j
  {
    hide HasOrphan, StrandingStep, Next, Init, Inv;
    k := j;
    if j == 0 {
      NoOrphanAtFirst(run[0]);
    } else {
      StepAndInv(run, j);
      OrphanStep(run[j - 1], run[j]);
      if !StrandingStep(run[j - 1], run[j]) {
        k := StrandedBefore(run, j - 1);
      }
    }
  }

  ghost predicate OrphansWait(s: State) {
    Shaped(s) && forall i: nat :: Orphaned(s, i) ==> s.pending[i].status == PENDING
  }

  /** Only a session of its receiver announces or rejects a request. */
  lemma OrphanStaysPending(s: State, pid: Pid, a: Action, s': State, i: nat)
    requires Step(s, pid, a, s') && Inv(s) && Shaped(s') && Orphaned(s', i)
    requires Orphaned(s, i) ==> s.pending[i].status == PENDING
    ensures s'.pending[i].status == PENDING
  {
    OnlyCreateOrphans(s, pid, a, s', i);
    if Orphaned(s, i) {
      if a == Create && i == FirstFree(s.pending) {
        NewSlot(s, pid, s');
      } else if s'.pending[i] != s.pending[i] {
        OnlyPartiesTouch(s, pid, a, s', i);
        SlotStays(s, pid, a, s', i);
      }
    } else {
      NewSlot(s, pid, s');
    }
  }

  /** A stranded request was never announced; it waits for a login of its receiver. */
  lemma {:induction false} OrphansArePending(run: seq<State>)
    requires Run(run)
    ensures OrphansWait(Last(run))
    decreases |run|
  {
    hide Inv, Orphaned, Next, Init;
    if |run| == 1 {
      NoOrphanAtFirst(run[0]);
      RunInv(run);
      InvShaped(run[0]);
    } else {
      StepAndInv(run, |run| - 1);
      PrefixIsRun(Init, Next, run, |run| - 1);
      OrphansArePending(run[..|run| - 1]);
      assert Last(run[..|run| - 1]) == run[|run| - 2];
      OrphansWaitOn(run[|run| - 2], Last(run));
    }
  }

  lemma OrphansWaitOn(s: State, s': State)
    requires Next(s, s') && Inv(s) && OrphansWait(s)
    ensures OrphansWait(s')
  {
    var pid, a :| Step(s, pid, a, s');
    StepKeepsInv(s, pid, a, s');
    InvShaped(s');
    hide Inv, Orphaned, Step, Shaped;
    forall i: nat | Orphaned(s', i) ensures s'.pending[i].status == PENDING {
      OrphanStaysPending(s, pid, a, s', i);
    }
  }

  // ---------------------------------------------------------------- a run with an orphan

  /** Two sessions, one request at most. */
  ghost predicate TwoSessions(s: State, one: Phase, two: Phase) {
    && Shaped(s)
    && s.sessions == map[1 := Session("sender", one), 2 := Session("receiver", two)]
  }

  lemma LogBothIn(s0: State, s1: State, s2: State)
    requires Init(s0) && Step(s0, 1, Login("sender"), s1) && Step(s1, 2, Login("receiver"), s2)
    ensures TwoSessions(s2, Active, Active) && OnlinePid(s2.online, "receiver") == 2
    ensures s2.pending == s0.pending
  {
    assert s2.online[0].username == "sender" && s2.online[1] == UserEntry("receiver", 2, true);
    assert FirstOnline(s2.online, "receiver") == 1;
  }

  lemma CleanUpOfNothing(s: State, s': State, one: Phase)
    requires Step(s, 2, CleanUp, s') && TwoSessions(s, one, Active)
    requires forall i :: 0 <= i < MAX_TRANSFERS ==> s.pending[i] == EMPTY_SLOT
    ensures TwoSessions(s', one, CleanedUp) && s'.pending == s.pending
  {
  }

  lemma CreateInTheGap(s: State, s': State)
    requires Step(s, 1, Create, s') && TwoSessions(s, Targeted("receiver", "file"), CleanedUp)
    requires forall i :: 0 <= i < MAX_TRANSFERS ==> s.pending[i] == EMPTY_SLOT
    ensures TwoSessions(s', Active, CleanedUp)
    ensures s'.pending[0].status == PENDING && s'.pending[0].receiver == "receiver"
  {
  }

  /**
   The logout frees its user's requests and clears its table entry in two sections. A
   request that saw the receiver online before, and fills its slot in between, stays.
   */
  lemma LogoutLeavesOrphan(s0: State) returns (run: seq<State>)
    requires Init(s0)
    ensures Run(run) && run[0] == s0 && Shaped(Last(run)) && Orphaned(Last(run), 0)
  {
    var s1 := Apply(s0, 1, Login("sender"));
    var s2 := Apply(s1, 2, Login("receiver"));
    LogBothIn(s0, s1, s2);
    assert Next(s0, s1) && Next(s1, s2) by {
      assert Step(s0, 1, Login("sender"), s1) && Step(s1, 2, Login("receiver"), s2);
    }
    var s3 := Apply(s2, 1, Target("receiver", "file"));
    assert TwoSessions(s3, Targeted("receiver", "file"), Active);
    assert Next(s2, s3) by { assert Step(s2, 1, Target("receiver", "file"), s3); }
    var s4, s5, s6 := GapRun(s3);
    run := [s0, s1, s2, s3, s4, s5, s6];
    SevenStates(s0, s1, s2, s3, s4, s5, s6);
  }

  lemma SevenStates(a: State, b: State, c: State, d: State, e: State, f: State, g: State)
    requires Init(a) && Next(a, b) && Next(b, c) && Next(c, d) && Next(d, e) && Next(e, f) && Next(f, g)
    ensures Run([a, b, c, d, e, f, g])
  {
    hide Init, Next;
    var run := [a, b, c, d, e, f, g];
    assert StepAt(Next, run, 1) && StepAt(Next, run, 2) && StepAt(Next, run, 3);
    assert StepAt(Next, run, 4) && StepAt(Next, run, 5) && StepAt(Next, run, 6);
  }

  lemma GapRun(s3: State) returns (s4: State, s5: State, s6: State)
    requires TwoSessions(s3, Targeted("receiver", "file"), Active)
    requires forall i :: 0 <= i < MAX_TRANSFERS ==> s3.pending[i] == EMPTY_SLOT
    ensures Next(s3, s4) && Next(s4, s5) && Next(s5, s6)
    ensures Shaped(s6) && Orphaned(s6, 0)
  {
    s4 := Apply(s3, 2, CleanUp);
    CleanUpOfNothing(s3, s4, Targeted("receiver", "file"));
    assert Next(s3, s4) by { assert Step(s3, 2, CleanUp, s4); }
    s5 := Apply(s4, 1, Create);
    CreateInTheGap(s4, s5);
    assert Next(s4, s5) by { assert Step(s4, 1, Create, s5); }
    s6 := Apply(s5, 2, Deactivate);
    assert TwoSessions(s6, Active, Gone);
    assert Next(s5, s6) by { assert Step(s5, 2, Deactivate, s6); }
  }
}
