/** That with everybody using the lock all messages can be delivered. */
module SocketDelivery {
  import opened Bytes
  import opened Frames
  import opened Runs
  import opened SocketLock

  /** Only a process between lock and unlock holds the lock. */
  ghost predicate HolderOk(s: State) {
    s.holder.Some? ==> IsActive(s, s.holder.value) && s.senders[s.holder.value].locks
  }

  lemma StepKeepsHolder(s: State, s': State)
    requires Next(s, s') && HolderOk(s)
    ensures HolderOk(s')
  {
    var p, a :| Step(s, p, a, s');
    hide WellFormed;
  }

  lemma {:induction false} HolderIsActive(run: seq<State>)
    requires Run(run)
    ensures HolderOk(Last(run))
    decreases |run|
  {
    if |run| > 1 {
      PrefixIsRun(Init, Next, run, |run| - 1);
      HolderIsActive(run[..|run| - 1]);
      assert StepAt(Next, run, |run| - 1);
      hide Run, Init, Next, HolderOk;
      StepKeepsHolder(run[|run| - 2], Last(run));
    }
  }

  /** Nobody is sending. */
  ghost predicate Quiet(s: State) {
    s.holder == None && forall p :: !IsActive(s, p)
  }

  /** Nothing is taken back, and every message that has been sent since is sent whole. */
  ghost predicate SentMore(s: State, s': State) {
    && s'.senders.Keys == s.senders.Keys
    && (NoneTorn(s.log) ==> NoneTorn(s'.log))
    && forall p :: p in s.senders ==> SentMoreBy(s.senders[p], s'.senders[p])
  }

  ghost predicate SentMoreBy(q: Sender, q': Sender) {
    && q'.script == q.script && q'.locks == q.locks && q.outcome <= q'.outcome
    && forall i :: |q.outcome| <= i < |q'.outcome| ==> q'.outcome[i]
  }

  lemma SentMoreTwice(s: State, t: State, u: State)
    requires SentMore(s, t) && SentMore(t, u)
    ensures SentMore(s, u)
  {
    forall p | p in s.senders ensures SentMoreBy(s.senders[p], u.senders[p]) {
      assert SentMoreBy(s.senders[p], t.senders[p]) && SentMoreBy(t.senders[p], u.senders[p]);
      hide NoneTorn;
    }
    hide NoneTorn;
  }

  /** The process that is sending finishes its message. */
  lemma FinishActive(run: seq<State>, s0: State, p: Pid) returns (run': seq<State>)
    requires RunFrom(run, s0) && Alone(Last(run)) && HolderOk(Last(run)) && IsActive(Last(run), p)
    ensures RunFrom(run', s0) && run <= run'
    ensures Quiet(Last(run')) && SentMore(Last(run), Last(run'))
  {
    var s := Last(run);
    var q := s.senders[p];
    assert WellFormed(q);
    assert forall r :: IsActive(s, r) ==> r == p;
    assert q.locks || s.holder == None;
    hide RunFrom, Alone, OneActive;
    run' := SendBytes(run, s0, p, |q.Frame()| - q.sent);
    var s1 := Last(run');
    assert s1.senders == s.senders[p := q.(sent := |q.Frame()|)] && s1.holder == s.holder && s1.log == s.log;
    FullyWell(q, |q.Frame()|);
    run' := Extend(run', s0, p, Leave);
    LeftQuiet(s, p, s1, Last(run'));
  }

  lemma LeftQuiet(s: State, p: Pid, s1: State, s': State)
    requires IsActive(s, p) && WellFormed(s.senders[p]) && forall r :: IsActive(s, r) ==> r == p
    requires s.senders[p].locks || s.holder == None
    requires s1.senders == s.senders[p := s.senders[p].(sent := |s.senders[p].Frame()|)]
    requires s1.holder == s.holder && s1.log == s.log && Step(s1, p, Leave, s')
    ensures Quiet(s') && SentMore(s, s')
  {
    assert forall r :: r in s.senders && r != p ==> s'.senders[r] == s.senders[r] && !IsActive(s, r);
    forall r | r in s.senders ensures SentMoreBy(s.senders[r], s'.senders[r]) {
      hide WellFormed;
    }
  }

  /** A process that has nothing left sends nothing more; any other can send its next message. */
  lemma OneMoreMessage(run: seq<State>, s0: State, p: Pid) returns (run': seq<State>)
    requires RunFrom(run, s0) && Quiet(Last(run)) && p in Last(run).senders && WellFormed(Last(run).senders[p])
    requires Last(run).senders[p].Next() < |Last(run).senders[p].script|
    ensures RunFrom(run', s0) && run <= run'
    ensures Quiet(Last(run')) && SentMore(Last(run), Last(run'))
    ensures forall r :: r in Last(run).senders && r != p ==> Last(run').senders[r] == Last(run).senders[r]
    ensures Last(run').senders[p].Next() == Last(run).senders[p].Next() + 1
  {
    var s := Last(run);
    assert !IsActive(s, p);
    assert forall r :: r in s.senders ==> !IsActive(s, r);
    hide RunFrom, WellFormed, NoneTorn;
    run' := SendFrame(run, s0, p);
    var s' := Last(run');
    assert forall r :: r in s'.senders ==> !s'.senders[r].active;
  }

  /** What a run of this kind keeps. */
  ghost predicate Going(run: seq<State>, s0: State) {
    RunFrom(run, s0) && Disciplined(s0) && Quiet(Last(run))
  }

  lemma AllWellFormed(run: seq<State>, s0: State, p: Pid)
    requires Going(run, s0) && p in Last(run).senders
    ensures WellFormed(Last(run).senders[p])
  {
    hide Disciplined;
    RunInv(run);
  }

  function MessagesLeft(run: seq<State>, p: Pid): nat {
    if run == [] || p !in Last(run).senders then 0
    else
      var q := Last(run).senders[p];
      if q.Next() <= |q.script| then |q.script| - q.Next() else 0
  }

  /** A process sends all it has left. */
  lemma {:induction false} SendScript(run: seq<State>, s0: State, p: Pid) returns (run': seq<State>)
    requires Going(run, s0) && p in Last(run).senders
    ensures Going(run', s0) && run <= run' && SentMore(Last(run), Last(run'))
    ensures forall r :: r in Last(run).senders && r != p ==> Last(run').senders[r] == Last(run).senders[r]
    ensures p in Last(run').senders && Last(run').senders[p].Next() == |Last(run').senders[p].script|
    decreases MessagesLeft(run, p)
  {
    AllWellFormed(run, s0, p);
    var q := Last(run).senders[p];
    if q.Next() == |q.script| {
      run' := run;
    } else {
      assert Quiet(Last(run)) && RunFrom(run, s0) && |run| > 0;
      hide RunFrom, Disciplined, Quiet;
      var next := OneMoreMessage(run, s0, p);
      LessLeft(run, next, p);
      run' := SendScript(next, s0, p);
      hide SentMore, WellFormed;
      SentMoreTwice(Last(run), Last(next), Last(run'));
    }
  }

  lemma LessLeft(run: seq<State>, next: seq<State>, p: Pid)
    requires |run| > 0 && |next| > 0 && p in Last(run).senders && SentMore(Last(run), Last(next))
    requires Last(run).senders[p].Next() < |Last(run).senders[p].script|
    requires Last(next).senders[p].Next() == Last(run).senders[p].Next() + 1
    ensures MessagesLeft(next, p) < MessagesLeft(run, p)
  {
    assert SentMoreBy(Last(run).senders[p], Last(next).senders[p]);
    hide NoneTorn;
  }

  ghost function Unfinished(s: State): set<Pid> {
    set p | p in s.senders && s.senders[p].Next() != |s.senders[p].script|
  }

  lemma {:induction false} SendAll(run: seq<State>, s0: State) returns (run': seq<State>)
    requires Going(run, s0)
    ensures Going(run', s0) && run <= run' && SentMore(Last(run), Last(run')) && Unfinished(Last(run')) == {}
    decreases if |run| > 0 then Unfinished(Last(run)) else {}
  {
    assert |run| > 0;
    hide Going, SentMoreBy, NoneTorn;
    if Unfinished(Last(run)) == {} {
      run' := run;
      SentNoMore(Last(run));
    } else {
      var p :| p in Unfinished(Last(run));
      var next := SendScript(run, s0, p);
      assert p !in Unfinished(Last(next)) && Unfinished(Last(next)) <= Unfinished(Last(run));
      run' := SendAll(next, s0);
      SentMoreTwice(Last(run), Last(next), Last(run'));
    }
  }

  lemma SentNoMore(s: State)
    ensures SentMore(s, s)
  {
  }

  /**
   Delivery. If everybody uses the lock, then from every reachable state some run sends all
   that is left, every message whole; and if no frame was torn before, the client has then
   decoded exactly the messages sent whole.
   */
  lemma AllCanBeDelivered(run: seq<State>) returns (run': seq<State>)
    requires Run(run) && Disciplined(run[0]) && AllGenuine(run[0])
    ensures Run(run') && run <= run'
    ensures var s, s' := Last(run), Last(run');
            && Quiet(s') && SentMore(s, s') && Unfinished(s') == {}
            && (NoneTorn(s.log) ==> Decode(s'.stream) == (Messages(s'.log), []))
  {
    var s0 := run[0];
    hide Disciplined, AllGenuine, Decode;
    var first := FirstQuiet(run);
    run' := SendAll(first, s0);
    assert run'[0] == s0;
    SentMoreTwice(Last(run), Last(first), Last(run'));
    FramesStayWhole(run');
    hide Alone, LogOk, InFrames;
  }

  lemma FirstQuiet(run: seq<State>) returns (first: seq<State>)
    requires Run(run) && Disciplined(run[0])
    ensures Going(first, run[0]) && run <= first && SentMore(Last(run), Last(first))
  {
    var s := Last(run);
    HolderIsActive(run);
    hide Disciplined;
    RunInv(run);
    assert Alone(s);
    hide Inv, Run, Alone;
    if p :| IsActive(s, p) {
      first := FinishActive(run, run[0], p);
    } else {
      first := run;
      SentNoMore(s);
    }
  }
}
