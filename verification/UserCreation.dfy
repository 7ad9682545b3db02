/**
 `create_user`: the name check of src/server/utils/utils.c, and any number of helper
 processes running `CreateSystemUser` (src/server/helper/helper.c) at the same time, under
 the lock on the creation lock file. `adduser` and `deluser` are one step each; either may fail.
 */
module UserCreation {
  import opened Bytes
  import opened Runs

  type Name = seq<byte>
  type Pid = nat

  const MAX_USERNAME_LEN := 20

  // ---------------------------------------------------------------- the name

  /** `isalpha` in the C locale. */
  predicate IsAlpha(c: byte) {
    65 <= c <= 90 || 97 <= c <= 122
  }

  /** `isUsernameValid` on a C string in `buf`: a pointer runs up to the terminator. */
  method IsUsernameValid(buf: seq<byte>) returns (valid: bool)
    requires NUL in buf
    ensures var name := CString(buf, 0);
            valid <==> 1 <= |name| <= MAX_USERNAME_LEN && forall i :: 0 <= i < |name| ==> IsAlpha(name[i])
  {
    var len := NulAt(buf, 0);
    var k :| 0 <= k < |buf| && buf[k] == NUL;
    assert len < |buf| && buf[len] == NUL;
    if len == 0 || len > MAX_USERNAME_LEN {
      return false;
    }
    var p := 0;
    while buf[p] != NUL
      invariant 0 <= p <= len
      invariant forall i :: 0 <= i < p ==> IsAlpha(buf[i])
      decreases len - p
    {
      if !IsAlpha(buf[p]) {
        assert CString(buf, 0)[p] == buf[p];
        return false;
      }
      p := p + 1;
    }
    return true;
  }

  // ---------------------------------------------------------------- the calls

  /** Where a call stands. */
  datatype Stage =
    | Locking                  // before F_SETLKW on the lock file
    | Looking                  // has the lock; getpwnam comes
    | Adding                   // the name is free; adduser comes
    | Rereading                // getpwnam for the new account's numbers comes
    | MakingHome               // mkdir comes
    | GivingHome               // chown comes
    | Undoing                  // one of them failed; deluser comes
    | Leaving(ok: bool)        // the unlock comes
    | Done(ok: bool)

  /** A call; `left` is history: its deluser failed, so the account stayed. */
  datatype Call = Call(name: Name, stage: Stage, left: bool)

  datatype State = State(
    accounts: set<Name>,
    holder: Option<Pid>,
    calls: map<Pid, Call>
  )

  predicate Init(s: State) {
    s.holder == None && forall p :: p in s.calls ==> s.calls[p].stage == Locking && !s.calls[p].left
  }

  /** The result of the next system call. */
  predicate Enabled(s: State, p: Pid, works: bool) {
    && p in s.calls
    && !s.calls[p].stage.Done?
    && (s.calls[p].stage == Locking && works ==> s.holder == None)
  }

  /** The lock and the call after the next system call. */
  function Turn(taken: bool, call: Call, works: bool): Call {
    match call.stage
    case Locking => call.(stage := if works then Looking else Done(false))
    // getpwnam finds the name exactly when the account is there
    case Looking => call.(stage := if taken then Leaving(false) else Adding)
    case Adding => call.(stage := if works then Rereading else Leaving(false))
    case Rereading => call.(stage := if works then MakingHome else Undoing)
    case MakingHome => call.(stage := if works then GivingHome else Undoing)
    case GivingHome => call.(stage := if works then Leaving(true) else Undoing)
    case Undoing => call.(stage := Leaving(false), left := !works)
    case Leaving(ok) => call.(stage := Done(ok))
    case Done(_) => call
  }

  function Accounts(accounts: set<Name>, call: Call, works: bool): set<Name> {
    if works && call.stage == Adding then accounts + {call.name}
    else if works && call.stage == Undoing then accounts - {call.name}
    else accounts
  }

  function Holder(holder: Option<Pid>, p: Pid, stage: Stage, works: bool): Option<Pid> {
    if stage == Locking && works then Some(p)
    else if stage.Leaving? then None
    else holder
  }

  predicate Step(s: State, p: Pid, works: bool, s': State) {
    && Enabled(s, p, works)
    && var call := s.calls[p];
       s' == State(Accounts(s.accounts, call, works), Holder(s.holder, p, call.stage, works),
                   s.calls[p := Turn(call.name in s.accounts, call, works)])
  }

  ghost predicate Next(s: State, s': State) {
    exists p, works :: Step(s, p, works, s')
  }

  ghost predicate Run(run: seq<State>) {
    IsRun(Init, Next, run)
  }

  // ---------------------------------------------------------------- the invariant

  predicate Inside(stage: Stage) {
    !stage.Locking? && !stage.Done?
  }

  /** The call has put its name among the accounts for good, or for now. */
  predicate Owns(call: Call) {
    || call.stage == Rereading || call.stage == MakingHome || call.stage == GivingHome || call.stage == Undoing
    || call.stage == Leaving(true) || call.stage == Done(true)
    || call.left
  }

  predicate OwnsAt(s: State, p: Pid) {
    p in s.calls && Owns(s.calls[p])
  }

  ghost predicate LockOk(s: State) {
    && (forall p :: p in s.calls ==> (Inside(s.calls[p].stage) <==> s.holder == Some(p)))
    && (forall p :: p in s.calls && s.calls[p].left ==>
        s.calls[p].stage == Leaving(false) || s.calls[p].stage == Done(false))
  }

  /** Every account added has an owner, and every owner its own account. */
  ghost predicate OwnersOk(s: State, initial: set<Name>) {
    && initial <= s.accounts
    && (forall name :: name in s.accounts && name !in initial ==> exists p :: OwnsAt(s, p) && s.calls[p].name == name)
    && (forall p :: OwnsAt(s, p) ==> s.calls[p].name in s.accounts && s.calls[p].name !in initial)
    && (forall p, q :: OwnsAt(s, p) && OwnsAt(s, q) && s.calls[p].name == s.calls[q].name ==> p == q)
  }

  ghost predicate Inv(s: State, initial: set<Name>) {
    && LockOk(s) && OwnersOk(s, initial)
    && (forall p :: p in s.calls && s.calls[p].stage == Adding ==> s.calls[p].name !in s.accounts)
  }

  lemma StepKeepsLock(s: State, p: Pid, works: bool, s': State)
    requires Step(s, p, works, s') && LockOk(s)
    ensures LockOk(s')
  {
    hide Accounts;
  }

  /** A step changes at most the accounts by its own name, and who owns what by its own call. */
  lemma OwnershipMoves(s: State, p: Pid, works: bool, s': State)
    requires Step(s, p, works, s') && LockOk(s)
    requires s.calls[p].stage == Adding ==> s.calls[p].name !in s.accounts
    ensures p in s'.calls && s'.calls[p].name == s.calls[p].name
    ensures forall q :: q != p ==> (OwnsAt(s', q) <==> OwnsAt(s, q)) && (OwnsAt(s, q) ==> s'.calls[q] == s.calls[q])
    ensures OwnsAt(s', p) == OwnsAt(s, p) ==> s'.accounts == s.accounts
    ensures OwnsAt(s', p) && !OwnsAt(s, p) ==>
      s.calls[p].name !in s.accounts && s'.accounts == s.accounts + {s.calls[p].name}
    ensures !OwnsAt(s', p) && OwnsAt(s, p) ==> s'.accounts == s.accounts - {s.calls[p].name}
  {
    assert s.calls[p].left ==> s.calls[p].stage == Leaving(false);
    hide LockOk, Holder;
  }

  lemma StepKeepsOwners(s: State, p: Pid, works: bool, s': State, initial: set<Name>)
    requires Step(s, p, works, s') && LockOk(s) && OwnersOk(s, initial)
    requires s.calls[p].stage == Adding ==> s.calls[p].name !in s.accounts
    ensures OwnersOk(s', initial)
  {
    OwnershipMoves(s, p, works, s');
    hide Step, LockOk, Owns, OwnsAt;
    forall name | name in s'.accounts && name !in initial
      ensures exists q :: OwnsAt(s', q) && s'.calls[q].name == name
    {
      if name in s.accounts {
        var q :| OwnsAt(s, q) && s.calls[q].name == name;
        assert OwnsAt(s', q);
      } else {
        assert OwnsAt(s', p);
      }
    }
  }

  lemma StepKeepsInv(s: State, p: Pid, works: bool, s': State, initial: set<Name>)
    requires Step(s, p, works, s') && Inv(s, initial)
    ensures Inv(s', initial)
  {
    StepKeepsLock(s, p, works, s');
    StepKeepsOwners(s, p, works, s', initial);
    forall q | q in s'.calls && s'.calls[q].stage == Adding ensures s'.calls[q].name !in s'.accounts {
      assert Inside(s'.calls[q].stage) && s'.holder == Some(q);
      hide OwnersOk;
    }
    hide LockOk, OwnersOk;
  }

  lemma {:induction false} RunInv(run: seq<State>)
    requires Run(run)
    ensures Inv(run[|run| - 1], run[0].accounts)
    decreases |run|
  {
    if |run| > 1 {
      PrefixIsRun(Init, Next, run, |run| - 1);
      RunInv(run[..|run| - 1]);
      assert StepAt(Next, run, |run| - 1);
      var s, s' := run[|run| - 2], run[|run| - 1];
      var p, works :| Step(s, p, works, s');
      StepKeepsInv(s, p, works, s', run[0].accounts);
    }
  }

  // ---------------------------------------------------------------- theorems

  predicate Created(s: State, p: Pid) {
    p in s.calls && s.calls[p].stage == Done(true)
  }

  predicate LeftBehind(s: State, p: Pid) {
    p in s.calls && s.calls[p].left
  }

  /**
   Whenever nobody holds the creation lock, the accounts are those there were at the start
   and one for each successful call; a failed call has left no trace, unless its deluser
   failed too. Of the calls with one name at most one succeeds, and none if the name was taken.
   */
  lemma AccountsAreTheSuccesses(run: seq<State>)
    requires Run(run) && run[|run| - 1].holder == None
    ensures var s, initial := run[|run| - 1], run[0].accounts;
            && (forall name :: name in s.accounts <==>
                name in initial
                || (exists p :: Created(s, p) && s.calls[p].name == name)
                || (exists p :: LeftBehind(s, p) && s.calls[p].name == name))
            && (forall p :: Created(s, p) ==> s.calls[p].name !in initial)
            && (forall p, q :: Created(s, p) && Created(s, q) && s.calls[p].name == s.calls[q].name ==> p == q)
            && (forall p, q :: Created(s, p) && LeftBehind(s, q) ==> s.calls[p].name != s.calls[q].name)
  {
    RunInv(run);
    var s, initial := run[|run| - 1], run[0].accounts;
    assert forall p :: OwnsAt(s, p) <==> Created(s, p) || LeftBehind(s, p);
    hide Inside;
    forall name | name in s.accounts && name !in initial
      ensures (exists p :: Created(s, p) && s.calls[p].name == name)
              || (exists p :: LeftBehind(s, p) && s.calls[p].name == name)
    {
      var p :| OwnsAt(s, p) && s.calls[p].name == name;
      assert Created(s, p) || LeftBehind(s, p);
    }
  }

  /** Nobody leaves with the lock, and nobody is inside without it. */
  lemma LockIsReleased(run: seq<State>, p: Pid)
    requires Run(run) && p in run[|run| - 1].calls
    ensures var s := run[|run| - 1]; s.holder == Some(p) <==> Inside(s.calls[p].stage)
  {
    RunInv(run);
  }

  // ---------------------------------------------------------------- the answer of a call

  /** A step of `p` in which the system call works. */
  ghost function Works(p: Pid): (State, State) -> bool {
    (s, s') => Step(s, p, true, s')
  }

  /** `p` does not move at step `k`, or its call works. */
  ghost predicate WorksAt(run: seq<State>, k: nat, p: Pid)
    requires 0 < k < |run|
  {
    p in run[k - 1].calls && p in run[k].calls
    && (run[k].calls[p] == run[k - 1].calls[p] || Step(run[k - 1], p, true, run[k]))
  }

  ghost predicate NothingFails(run: seq<State>, p: Pid) {
    forall k: nat :: 0 < k < |run| ==> WorksAt(run, k, p)
  }

  /** At step `j` the call of `p`, with the lock, looked its name up and found it taken or not. */
  ghost predicate Looked(run: seq<State>, j: nat, p: Pid, taken: bool) {
    && 0 < j < |run| && p in run[j - 1].calls && p in run[j].calls
    && run[j - 1].holder == Some(p)
    && run[j - 1].calls[p].stage == Looking && run[j].calls[p].stage != Looking
    && (run[j - 1].calls[p].name in run[j - 1].accounts <==> taken)
  }

  ghost predicate HasLooked(run: seq<State>, p: Pid, taken: bool) {
    exists j: nat :: Looked(run, j, p, taken)
  }

  /** The stages of a call whose name was free, and of one whose name was taken. */
  predicate GoesThrough(stage: Stage) {
    || stage == Adding || stage == Rereading || stage == MakingHome || stage == GivingHome
    || stage == Leaving(true) || stage == Done(true)
  }

  predicate TurnsBack(stage: Stage) {
    stage == Leaving(false) || stage == Done(false)
  }

  /** Where a call without a failure stands, and what it has seen. */
  ghost predicate OnItsWay(run: seq<State>, p: Pid)
    requires |run| > 0 && p in run[|run| - 1].calls
  {
    var stage := run[|run| - 1].calls[p].stage;
    || stage == Locking || stage == Looking
    || (GoesThrough(stage) && HasLooked(run, p, false))
    || (TurnsBack(stage) && HasLooked(run, p, true))
  }

  lemma LookedBefore(run: seq<State>, n: nat, p: Pid, taken: bool)
    requires n <= |run| && HasLooked(run[..n], p, taken)
    ensures HasLooked(run, p, taken)
  {
    var j: nat :| Looked(run[..n], j, p, taken);
    assert Looked(run, j, p, taken);
  }

  lemma NextOnItsWay(run: seq<State>, p: Pid)
    requires |run| > 1 && WorksAt(run, |run| - 1, p) && OnItsWay(run[..|run| - 1], p)
    requires LockOk(run[|run| - 2])
    ensures OnItsWay(run, p)
  {
    var before, s, s' := run[..|run| - 1], run[|run| - 2], run[|run| - 1];
    assert before[|before| - 1] == s;
    if HasLooked(before, p, false) {
      LookedBefore(run, |run| - 1, p, false);
    }
    if HasLooked(before, p, true) {
      LookedBefore(run, |run| - 1, p, true);
    }
    if s.calls[p].stage == Looking && s'.calls[p] != s.calls[p] {
      assert Looked(run, |run| - 1, p, s.calls[p].name in s.accounts);
    }
    hide HasLooked, LockOk;
  }

  lemma LockOkAt(run: seq<State>, k: nat)
    requires Run(run) && k < |run|
    ensures LockOk(run[k])
  {
    PrefixIsRun(Init, Next, run, k + 1);
    RunInv(run[..k + 1]);
    assert run[..k + 1][k] == run[k];
  }

  lemma {:induction false} StaysOnItsWay(run: seq<State>, p: Pid)
    requires Run(run) && p in run[0].calls && NothingFails(run, p)
    ensures p in run[|run| - 1].calls && OnItsWay(run, p)
    decreases |run|
  {
    if |run| > 1 {
      var before := run[..|run| - 1];
      assert WorksAt(run, |run| - 1, p);
      forall k: nat | 0 < k < |before| ensures WorksAt(before, k, p) {
        assert WorksAt(run, k, p);
      }
      PrefixIsRun(Init, Next, run, |run| - 1);
      StaysOnItsWay(before, p);
      LockOkAt(run, |run| - 2);
      hide Run, NothingFails, OnItsWay, LockOk;
      NextOnItsWay(run, p);
    }
  }

  /**
   A call that has returned, no system call of its own having failed, looked its name up
   under the lock; it has succeeded exactly if the name was not taken then.
   */
  lemma AnswerIsTheLookup(run: seq<State>, p: Pid)
    requires Run(run) && p in run[0].calls && NothingFails(run, p)
    requires p in run[|run| - 1].calls && run[|run| - 1].calls[p].stage.Done?
    ensures var ok := run[|run| - 1].calls[p].stage.ok;
            HasLooked(run, p, !ok)
  {
    StaysOnItsWay(run, p);
  }

  /** A call that turns back, for whatever reason but after an adduser, adds no account. */
  lemma TurningBackAddsNothing(s: State, p: Pid, works: bool, s': State)
    requires Step(s, p, works, s') && TurnsBack(s'.calls[p].stage) && s.calls[p].stage != Undoing
    ensures s'.accounts == s.accounts
  {
  }

  // ---------------------------------------------------------------- a call can be made

  /** How a call at this stage ends if nothing fails. */
  predicate WillSucceed(s: State, call: Call) {
    if call.stage == Locking || call.stage == Looking then call.name !in s.accounts else GoesThrough(call.stage)
  }

  function StepsLeft(stage: Stage): nat {
    match stage
    case Locking => 8
    case Looking => 7
    case Adding => 6
    case Rereading => 5
    case MakingHome => 4
    case GivingHome => 3
    case Undoing => 2
    case Leaving(_) => 1
    case Done(_) => 0
  }

  /** The accounts then. */
  function AccountsThen(s: State, call: Call): set<Name> {
    if WillSucceed(s, call) && (call.stage == Locking || call.stage == Looking || call.stage == Adding)
    then s.accounts + {call.name}
    else s.accounts
  }

  lemma OneCallFurther(s: State, p: Pid) returns (s': State)
    requires p in s.calls && !s.calls[p].stage.Done? && s.calls[p].stage != Undoing
    requires s.calls[p].stage == Locking ==> s.holder == None
    ensures Step(s, p, true, s') && s'.calls[p].name == s.calls[p].name
    ensures StepsLeft(s'.calls[p].stage) < StepsLeft(s.calls[p].stage)
    ensures s'.calls[p].stage != Undoing && s'.calls[p].stage != Locking
    ensures WillSucceed(s', s'.calls[p]) == WillSucceed(s, s.calls[p])
    ensures AccountsThen(s', s'.calls[p]) == AccountsThen(s, s.calls[p])
    ensures s'.calls[p].stage.Done? ==> s'.holder == None
  {
    var call := s.calls[p];
    s' := State(Accounts(s.accounts, call, true), Holder(s.holder, p, call.stage, true),
                s.calls[p := Turn(call.name in s.accounts, call, true)]);
  }

  lemma {:induction false} FinishCall(run: seq<State>, sofar: seq<State>, p: Pid) returns (longer: seq<State>)
    requires Run(run) && Run(sofar) && GoesOn(Works(p), run, sofar)
    requires var s := sofar[|sofar| - 1];
             && p in s.calls && s.calls[p].stage != Undoing
             && (s.calls[p].stage == Locking || s.calls[p].stage.Done? ==> s.holder == None)
    ensures Run(longer) && GoesOn(Works(p), run, longer)
    ensures var s, s' := sofar[|sofar| - 1], longer[|longer| - 1];
            && p in s'.calls && s'.holder == None
            && s'.calls[p].stage == Done(WillSucceed(s, s.calls[p]))
            && s'.accounts == AccountsThen(s, s.calls[p])
    decreases StepsLeftIn(sofar, p)
  {
    var s := sofar[|sofar| - 1];
    if s.calls[p].stage.Done? {
      longer := sofar;
    } else {
      var s' := OneCallFurther(s, p);
      assert Next(s, s') && Works(p)(s, s');
      hide Init, Next, Step, Works, WillSucceed, AccountsThen;
      OneMoreStep(Init, Next, sofar, s');
      GoesOnOneMore(Works(p), run, sofar, s');
      longer := FinishCall(run, sofar + [s'], p);
    }
  }

  function StepsLeftIn(run: seq<State>, p: Pid): nat {
    if run == [] || p !in run[|run| - 1].calls then 0 else StepsLeft(run[|run| - 1].calls[p].stage)
  }

  /**
   From every reachable state in which nobody holds the lock, a call still to be made can be
   made: in some run it goes through without a failure, succeeds exactly if its name is free,
   and then leaves the accounts with the name added.
   */
  lemma CallCanBeMade(run: seq<State>, p: Pid) returns (longer: seq<State>)
    requires Run(run) && run[|run| - 1].holder == None
    requires p in run[|run| - 1].calls && run[|run| - 1].calls[p].stage == Locking
    ensures Run(longer) && GoesOn(Works(p), run, longer)
    ensures var s, s' := run[|run| - 1], longer[|longer| - 1];
            var name := s.calls[p].name;
            && p in s'.calls && s'.holder == None
            && s'.calls[p].stage == Done(name !in s.accounts)
            && s'.accounts == s.accounts + {name}
  {
    hide Init, Next, Works;
    longer := FinishCall(run, run, p);
    var s := run[|run| - 1];
    assert s.calls[p].name in s.accounts ==> s.accounts + {s.calls[p].name} == s.accounts;
  }
}
