/**
 Who waits for whose file lock. Any number of handlers of src/server/helper/helper.c, each in
 its own process, asks for the locks of its plan: that is what the contracts of the handlers
 in FileHandlers promise. Locks are those of fcntl: a shared one goes with shared ones, an
 exclusive one with none, and a process never stands in its own way.
 */
module LockWaits {
  import opened Bytes
  import opened LockPlans
  import opened Runs

  type Pid = nat

  /** How many locks of its plan a process has taken; `done` once it closed its files. */
  datatype Process = Process(handler: Handler, got: nat, done: bool)

  type State = map<Pid, Process>

  function Wanted(h: Handler): nat {
    |Plan(h)|
  }

  predicate Running(s: State, p: Pid) {
    p in s && !s[p].done && s[p].got <= Wanted(s[p].handler)
  }

  predicate Asking(s: State, p: Pid) {
    Running(s, p) && s[p].got < Wanted(s[p].handler)
  }

  predicate Conflict(a: Ask, b: Ask) {
    a.path == b.path && (a.exclusive || b.exclusive)
  }

  /** `q` holds its `k`-th lock, and that one is in the way of the next lock of `p`. */
  predicate BlocksWith(s: State, q: Pid, k: nat, p: Pid) {
    && p != q && Asking(s, p) && Running(s, q) && k < s[q].got
    && Conflict(Plan(s[q].handler)[k], Plan(s[p].handler)[s[p].got])
  }

  ghost predicate Blocks(s: State, q: Pid, p: Pid) {
    exists k: nat :: BlocksWith(s, q, k, p)
  }

  datatype Action = Grant | Leave

  ghost predicate Step(s: State, p: Pid, a: Action, s': State) {
    match a
    case Grant =>
      && Asking(s, p) && (forall q :: !Blocks(s, q, p))
      && s' == s[p := s[p].(got := s[p].got + 1)]
    // done, or given up on the way: closing the files drops every lock
    case Leave => Running(s, p) && s' == s[p := s[p].(done := true)]
  }

  ghost predicate Next(s: State, s': State) {
    exists p, a :: Step(s, p, a, s')
  }

  /** The handlers start together; what starts later may as well take its first step later. */
  ghost predicate Run(run: seq<State>, handlers: map<Pid, Handler>) {
    IsRun(AtStart(handlers), Next, run)
  }

  ghost function AtStart(handlers: map<Pid, Handler>): State -> bool {
    s => s == Start(handlers)
  }

  function Start(handlers: map<Pid, Handler>): State {
    map p | p in handlers :: Process(handlers[p], 0, false)
  }

  function Last(run: seq<State>): State
    requires |run| > 0
  {
    run[|run| - 1]
  }

  // ---------------------------------------------------------------- circles

  ghost predicate Distinct(ps: seq<Pid>) {
    forall i, j :: 0 <= i < j < |ps| ==> ps[i] != ps[j]
  }

  function After(cycle: seq<Pid>, i: nat): Pid
    requires i < |cycle|
  {
    if i == |cycle| - 1 then cycle[0] else cycle[i + 1]
  }

  /** The process at `i` waits for the one after it. */
  ghost predicate WaitsAt(s: State, cycle: seq<Pid>, i: nat) {
    i < |cycle| && Blocks(s, After(cycle, i), cycle[i])
  }

  /** Each process of the cycle waits for the next one, and the last for the first. */
  ghost predicate WaitCycle(s: State, cycle: seq<Pid>) {
    forall i: nat :: i < |cycle| ==> WaitsAt(s, cycle, i)
  }

  predicate CopiesInto(handlers: map<Pid, Handler>, p: Pid, q: Pid) {
    && p in handlers && q in handlers && handlers[p].Transfer? && handlers[q].Transfer?
    && handlers[p].dest == handlers[q].source
  }

  predicate CopiesAt(handlers: map<Pid, Handler>, cycle: seq<Pid>, i: nat) {
    i < |cycle| && CopiesInto(handlers, cycle[i], After(cycle, i))
  }

  /** A circle of transfers, each into the source of the next. */
  ghost predicate FileCycle(handlers: map<Pid, Handler>, cycle: seq<Pid>) {
    forall i: nat :: i < |cycle| ==> CopiesAt(handlers, cycle, i)
  }

  lemma Neighbours(cycle: seq<Pid>, i: nat) returns (before: nat, j: nat)
    requires i < |cycle|
    ensures before < |cycle| && After(cycle, before) == cycle[i]
    ensures j < |cycle| && After(cycle, i) == cycle[j]
  {
    before := if i == 0 then |cycle| - 1 else i - 1;
    j := if i == |cycle| - 1 then 0 else i + 1;
  }

  // ---------------------------------------------------------------- a wait cycle is a file cycle

  ghost predicate SameHandlers(s: State, handlers: map<Pid, Handler>) {
    s.Keys == handlers.Keys && forall p :: p in s ==> s[p].handler == handlers[p]
  }

  lemma StepKeepsHandlers(s: State, s': State, handlers: map<Pid, Handler>)
    requires Next(s, s') && SameHandlers(s, handlers)
    ensures SameHandlers(s', handlers)
  {
    var p, a :| Step(s, p, a, s');
    hide Blocks;
  }

  lemma {:induction false} HandlersStay(run: seq<State>, handlers: map<Pid, Handler>, n: nat)
    requires Run(run, handlers) && n < |run|
    ensures SameHandlers(run[n], handlers)
  {
    hide Next;
    if n > 0 {
      HandlersStay(run, handlers, n - 1);
      assert StepAt(Next, run, n);
      hide SameHandlers;
      StepKeepsHandlers(run[n - 1], run[n], handlers);
    }
  }

  /** A process that waits and is waited for is a transfer with one lock. */
  lemma WaitingHolder(s: State, q: Pid, p: Pid, r: Pid)
    requires Blocks(s, q, p) && Blocks(s, r, q)
    ensures p in s && q in s && Asking(s, p) && s[q].got == 1 && s[q].handler.Transfer?
    ensures s[q].handler.source == Plan(s[p].handler)[s[p].got].path
  {
    var k: nat :| BlocksWith(s, q, k, p);
  }

  /** Both ends of a link between two waiting processes that are waited for. */
  lemma WaitingLink(s: State, o: Pid, p: Pid, q: Pid, r: Pid)
    requires Blocks(s, p, o) && Blocks(s, q, p) && Blocks(s, r, q)
    ensures p in s && q in s && s[p].handler.Transfer? && s[q].handler.Transfer?
    ensures s[p].handler.dest == s[q].handler.source
  {
    WaitingHolder(s, p, o, q);
    WaitingHolder(s, q, p, r);
    hide Blocks;
  }

  lemma WaitersAreTransfers(s: State, handlers: map<Pid, Handler>, cycle: seq<Pid>)
    requires SameHandlers(s, handlers) && WaitCycle(s, cycle)
    ensures FileCycle(handlers, cycle)
  {
    forall i: nat | i < |cycle| ensures CopiesAt(handlers, cycle, i) {
      var before, j := Neighbours(cycle, i);
      assert WaitsAt(s, cycle, before) && WaitsAt(s, cycle, i) && WaitsAt(s, cycle, j);
      hide Blocks, After;
      WaitingLink(s, cycle[before], cycle[i], cycle[j], After(cycle, j));
    }
  }

  // ---------------------------------------------------------------- a file cycle can become a wait cycle

  /** The first `n` processes of the cycle have their source's lock, the others nothing. */
  function Sources(handlers: map<Pid, Handler>, cycle: seq<Pid>, n: nat): State
    requires n <= |cycle|
  {
    map p | p in handlers :: Process(handlers[p], if p in cycle[..n] then 1 else 0, false)
  }

  /** Shared locks on the sources are in nobody's way. */
  lemma SourceIsFree(handlers: map<Pid, Handler>, cycle: seq<Pid>, n: nat, q: Pid)
    requires n < |cycle| && Distinct(cycle) && FileCycle(handlers, cycle)
    ensures !Blocks(Sources(handlers, cycle, n), q, cycle[n])
  {
    var s, p := Sources(handlers, cycle, n), cycle[n];
    assert CopiesAt(handlers, cycle, n);
    hide After, FileCycle;
    assert p !in cycle[..n];
    if k: nat :| BlocksWith(s, q, k, p) {
      assert q in cycle[..n] && k == 0;
      SourceOf(handlers, cycle, n, q);
    }
  }

  lemma SourceOf(handlers: map<Pid, Handler>, cycle: seq<Pid>, n: nat, q: Pid)
    requires n <= |cycle| && q in cycle[..n] && FileCycle(handlers, cycle)
    ensures q in handlers && handlers[q].Transfer?
  {
    var i: nat :| i < n && cycle[i] == q;
    assert CopiesAt(handlers, cycle, i);
  }

  lemma NextSource(handlers: map<Pid, Handler>, cycle: seq<Pid>, n: nat)
    requires n < |cycle| && Distinct(cycle) && cycle[n] in handlers
    ensures var s, p := Sources(handlers, cycle, n), cycle[n];
            && p in s && s[p] == Process(handlers[p], 0, false)
            && Sources(handlers, cycle, n + 1) == s[p := s[p].(got := 1)]
  {
    assert cycle[n] !in cycle[..n];
    assert cycle[..n + 1] == cycle[..n] + [cycle[n]];
  }

  lemma TakeSource(handlers: map<Pid, Handler>, cycle: seq<Pid>, n: nat)
    requires n < |cycle| && Distinct(cycle) && FileCycle(handlers, cycle)
    ensures Next(Sources(handlers, cycle, n), Sources(handlers, cycle, n + 1))
  {
    var s, p := Sources(handlers, cycle, n), cycle[n];
    assert CopiesAt(handlers, cycle, n);
    NextSource(handlers, cycle, n);
    forall q ensures !Blocks(s, q, p) {
      SourceIsFree(handlers, cycle, n, q);
    }
    hide Sources, Blocks, FileCycle, After;
    assert Step(s, p, Grant, Sources(handlers, cycle, n + 1));
  }

  lemma NoSources(handlers: map<Pid, Handler>, cycle: seq<Pid>)
    ensures Run([Sources(handlers, cycle, 0)], handlers)
  {
    assert Sources(handlers, cycle, 0) == Start(handlers);
    hide Next;
  }

  lemma {:induction false} SourcesRun(handlers: map<Pid, Handler>, cycle: seq<Pid>, n: nat) returns (run: seq<State>)
    requires n <= |cycle| && Distinct(cycle) && FileCycle(handlers, cycle)
    ensures Run(run, handlers) && Last(run) == Sources(handlers, cycle, n)
  {
    hide AtStart, Sources, Next, FileCycle;
    if n == 0 {
      run := [Sources(handlers, cycle, 0)];
      NoSources(handlers, cycle);
    } else {
      var before := SourcesRun(handlers, cycle, n - 1);
      TakeSource(handlers, cycle, n - 1);
      OneMoreStep(AtStart(handlers), Next, before, Sources(handlers, cycle, n));
      run := before + [Sources(handlers, cycle, n)];
    }
  }

  /** With a shared lock each, of which one is in the way of the other's exclusive one. */
  lemma SourceBlocksDest(s: State, p: Pid, q: Pid)
    requires p in s && q in s && p != q && s[p].handler.Transfer? && s[q].handler.Transfer?
    requires s[p].handler.dest == s[q].handler.source
    requires s[p].got == 1 && !s[p].done && s[q].got == 1 && !s[q].done
    ensures Blocks(s, q, p)
  {
    assert BlocksWith(s, q, 0, p);
  }

  lemma AllWait(handlers: map<Pid, Handler>, cycle: seq<Pid>)
    requires |cycle| >= 2 && Distinct(cycle) && FileCycle(handlers, cycle)
    ensures WaitCycle(Sources(handlers, cycle, |cycle|), cycle)
  {
    var s := Sources(handlers, cycle, |cycle|);
    forall i: nat | i < |cycle| ensures WaitsAt(s, cycle, i) {
      var p, q := cycle[i], After(cycle, i);
      assert CopiesAt(handlers, cycle, i);
      var before, j := Neighbours(cycle, i);
      assert i != j;
      assert cycle[..|cycle|] == cycle;
      assert q == cycle[j] && q in cycle && p in cycle && p != q;
      hide Blocks, After, FileCycle;
      SourceBlocksDest(s, p, q);
    }
  }

  // ---------------------------------------------------------------- circles of waiting processes

  /**
   Some run leads to processes waiting for each other's locks in a circle exactly when they
   are transfers that copy in a circle, each into the file the next one reads.
   */
  lemma WaitCyclesAreFileCycles(handlers: map<Pid, Handler>, cycle: seq<Pid>)
    requires |cycle| >= 2 && Distinct(cycle)
    ensures (exists run :: Run(run, handlers) && WaitCycle(Last(run), cycle)) <==> FileCycle(handlers, cycle)
  {
    hide WaitCycle, FileCycle;
    if run :| Run(run, handlers) && WaitCycle(Last(run), cycle) {
      HandlersStay(run, handlers, |run| - 1);
      WaitersAreTransfers(Last(run), handlers, cycle);
    }
    if FileCycle(handlers, cycle) {
      var run := SourcesRun(handlers, cycle, |cycle|);
      AllWait(handlers, cycle);
    }
  }

  lemma NotAFileCycle(handlers: map<Pid, Handler>, cycle: seq<Pid>)
    requires cycle != [] && forall p :: p in handlers ==> !handlers[p].Transfer?
    ensures !FileCycle(handlers, cycle)
  {
    assert !CopiesAt(handlers, cycle, 0);
  }

  /** Without `transfer`, nobody who waits for a lock holds one, so nobody waits in a circle. */
  lemma NoTransferNoWaitCycle(run: seq<State>, handlers: map<Pid, Handler>, cycle: seq<Pid>)
    requires Run(run, handlers) && cycle != []
    requires forall p :: p in handlers ==> !handlers[p].Transfer?
    ensures forall p :: Asking(Last(run), p) ==> Last(run)[p].got == 0
    ensures !WaitCycle(Last(run), cycle)
  {
    var s := Last(run);
    HandlersStay(run, handlers, |run| - 1);
    NotAFileCycle(handlers, cycle);
    hide Run, Blocks, FileCycle, WaitCycle;
    if WaitCycle(s, cycle) {
      WaitersAreTransfers(s, handlers, cycle);
    }
  }

  // ---------------------------------------------------------------- deadlocks

  /** Processes of which each waits for another of them: none of them ever goes on. */
  ghost predicate Dead(s: State, dead: set<Pid>) {
    dead != {} && forall p :: p in dead ==> BlockedWithin(s, dead, p)
  }

  ghost predicate BlockedWithin(s: State, dead: set<Pid>, p: Pid) {
    exists q :: q in dead && Blocks(s, q, p)
  }

  ghost predicate ChainAt(s: State, chain: seq<Pid>, i: nat) {
    0 < i < |chain| && Blocks(s, chain[i], chain[i - 1])
  }

  /** Different processes, each blocked by the next. */
  ghost predicate Chain(s: State, chain: seq<Pid>) {
    Distinct(chain) && forall i: nat :: 0 < i < |chain| ==> ChainAt(s, chain, i)
  }

  lemma LongerChain(s: State, chain: seq<Pid>, q: Pid)
    requires chain != [] && Chain(s, chain) && q !in chain && Blocks(s, q, chain[|chain| - 1])
    ensures Chain(s, chain + [q])
  {
    hide Blocks;
    forall i: nat | 0 < i <= |chain| ensures ChainAt(s, chain + [q], i) {
      assert i < |chain| ==> ChainAt(s, chain, i);
    }
  }

  lemma Blocker(s: State, dead: set<Pid>, p: Pid) returns (q: Pid)
    requires Dead(s, dead) && p in dead
    ensures q in dead && Blocks(s, q, p)
  {
    hide Blocks;
    assert BlockedWithin(s, dead, p);
    q :| q in dead && Blocks(s, q, p);
  }

  lemma StartChain(s: State, dead: set<Pid>) returns (p: Pid)
    requires Dead(s, dead)
    ensures Chain(s, [p]) && p in dead
    ensures forall q :: q in [p] ==> q in dead && q !in dead - {p}
    ensures forall q :: q in dead ==> q in [p] || q in dead - {p}
  {
    hide Blocks, BlockedWithin;
    p :| p in dead;
    hide Dead;
    assert p in [p];
  }

  /** Going from a process to one that blocks it must come back to where it has been. */
  lemma {:induction false} FindCycle(s: State, dead: set<Pid>, chain: seq<Pid>, rest: set<Pid>)
    returns (cycle: seq<Pid>)
    requires Dead(s, dead) && chain != [] && Chain(s, chain)
    requires forall p :: p in chain ==> p in dead && p !in rest
    requires forall p :: p in dead ==> p in chain || p in rest
    ensures |cycle| >= 2 && Distinct(cycle) && WaitCycle(s, cycle)
    decreases rest
  {
    hide Blocks, BlockedWithin, WaitCycle, Dead, Chain, Distinct;
    var q := Blocker(s, dead, chain[|chain| - 1]);
    if q in rest {
      LongerChain(s, chain, q);
      cycle := FindCycle(s, dead, chain + [q], rest - {q});
    } else {
      cycle := CloseCycle(s, chain, q);
    }
  }

  lemma CloseCycle(s: State, chain: seq<Pid>, q: Pid) returns (cycle: seq<Pid>)
    requires Chain(s, chain) && q in chain && Blocks(s, q, chain[|chain| - 1])
    ensures |cycle| >= 2 && Distinct(cycle) && WaitCycle(s, cycle)
  {
    var i: nat :| i < |chain| && chain[i] == q;
    cycle := chain[i..];
    assert q != chain[|chain| - 1];
    hide Blocks;
    forall j: nat | j < |cycle| ensures WaitsAt(s, cycle, j) {
      if j < |cycle| - 1 {
        assert ChainAt(s, chain, i + j + 1);
      }
    }
  }

  lemma CycleIsDead(s: State, cycle: seq<Pid>)
    requires cycle != [] && WaitCycle(s, cycle)
    ensures Dead(s, set p | p in cycle)
  {
    var dead := set p | p in cycle;
    assert cycle[0] in dead;
    hide Blocks;
    forall p | p in dead ensures BlockedWithin(s, dead, p) {
      var i: nat :| i < |cycle| && cycle[i] == p;
      var before, j := Neighbours(cycle, i);
      hide After, WaitCycle;
      assert WaitsAt(s, cycle, i) && cycle[j] in dead;
    }
  }

  lemma DeadMeansFileCycle(s: State, handlers: map<Pid, Handler>, dead: set<Pid>) returns (cycle: seq<Pid>)
    requires SameHandlers(s, handlers) && Dead(s, dead)
    ensures |cycle| >= 2 && Distinct(cycle) && FileCycle(handlers, cycle)
  {
    var p := StartChain(s, dead);
    hide Blocks, BlockedWithin, Dead, WaitCycle, FileCycle, SameHandlers, Chain, Distinct;
    cycle := FindCycle(s, dead, [p], dead - {p});
    WaitersAreTransfers(s, handlers, cycle);
  }

  /** Some run of the handlers ends in a deadlock. */
  ghost predicate CanDie(handlers: map<Pid, Handler>) {
    exists run, dead :: Run(run, handlers) && Dead(Last(run), dead)
  }

  ghost predicate CopyInACircle(handlers: map<Pid, Handler>) {
    exists cycle :: |cycle| >= 2 && Distinct(cycle) && FileCycle(handlers, cycle)
  }

  /** Handlers can deadlock exactly when there are transfers among them that copy in a circle. */
  lemma DeadlocksAreFileCycles(handlers: map<Pid, Handler>)
    ensures CanDie(handlers) <==> CopyInACircle(handlers)
  {
    hide Dead, FileCycle, WaitCycle, Distinct, SameHandlers;
    if CanDie(handlers) {
      var run, dead :| Run(run, handlers) && Dead(Last(run), dead);
      HandlersStay(run, handlers, |run| - 1);
      var cycle := DeadMeansFileCycle(Last(run), handlers, dead);
    }
    if CopyInACircle(handlers) {
      var cycle :| |cycle| >= 2 && Distinct(cycle) && FileCycle(handlers, cycle);
      var run := SourcesRun(handlers, cycle, |cycle|);
      AllWait(handlers, cycle);
      CycleIsDead(Last(run), cycle);
    }
  }

  ghost predicate Blocked(s: State, p: Pid) {
    exists q :: Blocks(s, q, p)
  }

  lemma BlockerOf(s: State, p: Pid) returns (q: Pid)
    requires Blocked(s, p)
    ensures Blocks(s, q, p) && q in s && Running(s, q)
  {
    q :| Blocks(s, q, p);
  }

  lemma AllBlocked(s: State, p: Pid) returns (running: set<Pid>)
    requires p in s && Running(s, p)
    requires forall t :: t in s && Running(s, t) ==> Blocked(s, t)
    ensures Dead(s, running)
  {
    hide Blocks, Running, Blocked, BlockedWithin;
    running := set t | t in s && Running(s, t);
    assert p in running;
    forall t | t in running ensures BlockedWithin(s, running, t) {
      var q := BlockerOf(s, t);
      WithinIt(s, running, q, t);
    }
  }

  lemma WithinIt(s: State, dead: set<Pid>, q: Pid, p: Pid)
    requires q in dead && Blocks(s, q, p)
    ensures BlockedWithin(s, dead, p)
  {
  }

  lemma StuckMeansCircle(s: State, handlers: map<Pid, Handler>, p: Pid)
    requires SameHandlers(s, handlers) && p in s && Running(s, p)
    requires forall t :: t in s && Running(s, t) ==> Blocked(s, t)
    ensures CopyInACircle(handlers)
  {
    hide Blocks, Running, Blocked, Dead, SameHandlers, Distinct, FileCycle;
    var dead := AllBlocked(s, p);
    var cycle := DeadMeansFileCycle(s, handlers, dead);
  }

  lemma FreeOne(s: State, handlers: map<Pid, Handler>, p: Pid) returns (r: Pid)
    requires SameHandlers(s, handlers) && !CopyInACircle(handlers) && p in s && Running(s, p)
    ensures r in s && Running(s, r) && !Blocked(s, r)
  {
    hide *;
    if forall t :: t in s && Running(s, t) ==> Blocked(s, t) {
      StuckMeansCircle(s, handlers, p);
      assert false;
    }
    r :| r in s && Running(s, r) && !Blocked(s, r);
  }

  /** Whom nobody blocks is granted its next lock, and whoever has all of its locks can finish. */
  lemma FreeGoesOn(s: State, r: Pid) returns (s': State)
    requires Running(s, r) && !Blocked(s, r)
    ensures Step(s, r, if Asking(s, r) then Grant else Leave, s')
    ensures Asking(s, r) ==> s' == s[r := s[r].(got := s[r].got + 1)]
    ensures !Asking(s, r) ==> s[r].got == |Plan(s[r].handler)| && s' == s[r := s[r].(done := true)]
  {
    hide Blocks;
    s' := if Asking(s, r) then s[r := s[r].(got := s[r].got + 1)] else s[r := s[r].(done := true)];
  }

  /**
   Unless transfers copy in a circle, some unfinished process is free to go on, in every run:
   it is granted its next lock, or has them all and finishes.
   */
  lemma SomebodyGoesOn(run: seq<State>, handlers: map<Pid, Handler>, p: Pid) returns (r: Pid, s': State)
    requires Run(run, handlers) && !CopyInACircle(handlers) && Running(Last(run), p)
    ensures Running(Last(run), r) && !Blocked(Last(run), r)
    ensures Step(Last(run), r, if Asking(Last(run), r) then Grant else Leave, s')
    ensures Asking(Last(run), r) || Last(run)[r].got == |Plan(Last(run)[r].handler)|
  {
    assert p in Last(run);
    HandlersStay(run, handlers, |run| - 1);
    hide CopyInACircle, Running, Blocked, Asking, SameHandlers, Run, Step;
    r := FreeOne(Last(run), handlers, p);
    s' := FreeGoesOn(Last(run), r);
  }
}
