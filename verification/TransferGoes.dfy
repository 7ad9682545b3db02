/** That transfers can be made: asked for, announced, accepted or rejected, from every reachable state. */
module TransferGoes {
  import opened Bytes
  import opened Registry
  import opened Runs
  import opened TransferRuns
  import opened TransferTheorems
  import opened TransferAsked

  predicate IsActive(s: State, pid: Pid) {
    pid in s.sessions && s.sessions[pid].phase == Active
  }

  /** A session that takes commands takes any of these. */
  lemma Commanded(s: State, pid: Pid, a: Action) returns (s': State)
    requires Inv(s) && IsActive(s, pid) && OnSlots(a)
    ensures Step(s, pid, a, s') && Next(s, s')
    ensures s'.counter == s.counter && s'.terms == s.terms && s'.origin == s.origin && s'.online == s.online
    ensures a != CleanUp ==> s'.sessions == s.sessions
    ensures s'.pending == Slots(s.pending, s.sessions[pid].user, a)
  {
    hide Slots, News, FateOf;
    assert Enabled(s, pid, a);
    s' := Apply(s, pid, a);
    assert Step(s, pid, a, s');
  }

  /** What the step records of a request that has a slot. */
  lemma Recorded(s: State, pid: Pid, a: Action, s': State, id: nat, k: nat, kind: Kind)
    requires Inv(s) && Step(s, pid, a, s') && OnSlots(a) && k < MAX_TRANSFERS && 1 <= id <= s.counter
    requires Occupied(s.pending[k]) && s.origin[k] == id
    requires EventOf(s.pending, k, s.sessions[pid].user, a) == Some(kind)
    ensures |s'.histories| == s.counter && s'.histories[id - 1] == s.histories[id - 1] + [Event(kind, pid)]
  {
    SlotOfUnique(s, k);
    hide Slots, EventOf, SlotOf, FateOf;
  }

  /** A session that takes commands can ask for a transfer to any user who is online, and to nobody else. */
  lemma CanAsk(s: State, pid: Pid, dest: string, filename: string)
    requires Inv(s) && OnlineOk(s) && IsActive(s, pid)
    ensures Enabled(s, pid, Target(dest, filename)) <==> IsOnline(s.online, dest)
  {
    var k := FirstOnline(s.online, dest);
  }

  /** With a slot free the request is issued, under the next id, and waits in that slot. */
  lemma Asks(s: State, pid: Pid, dest: string, filename: string) returns (mid: State, s': State)
    requires Inv(s) && OnlineOk(s) && IsActive(s, pid) && IsOnline(s.online, dest)
    requires FirstFree(s.pending) < MAX_TRANSFERS
    ensures Next(s, mid) && Next(mid, s')
    ensures s'.sessions == s.sessions && s'.online == s.online && s'.counter == s.counter + 1
    ensures var k, id := FirstFree(s.pending), s.counter + 1;
            && |s'.pending| == |s'.origin| == MAX_TRANSFERS && |s'.terms| == |s'.histories| == id
            && s'.pending[k] == TransferRequest(id, s.sessions[pid].user, dest, filename, PENDING)
            && s'.origin[k] == id
            && s'.terms[id - 1] == Terms(s.sessions[pid].user, dest, filename)
            && s'.histories[id - 1] == [Event(Issued, pid)]
  {
    CanAsk(s, pid, dest, filename);
    mid := Apply(s, pid, Target(dest, filename));
    assert Step(s, pid, Target(dest, filename), mid);
    s' := Apply(mid, pid, Create);
    assert Step(mid, pid, Create, s');
    hide FirstFree, FateOf, Inv;
    assert s'.sessions == s.sessions;
  }

  lemma InvOf(run: seq<State>)
    requires Run(run)
    ensures Inv(Last(run)) && OnlineOk(Last(run)) && Shaped(Last(run))
  {
    RunInv(run);
  }

  lemma OneMore(run: seq<State>, s': State) returns (longer: seq<State>)
    requires Run(run) && Next(Last(run), s')
    ensures longer == run + [s'] && Run(longer) && Last(longer) == s'
  {
    hide Init, Next;
    OneMoreStep(Init, Next, run, s');
    longer := run + [s'];
  }

  lemma Accepts(s: State, id: nat, user: string, k: nat)
    requires Inv(s) && k < MAX_TRANSFERS && s.pending[k].status == NOTIFIED && s.pending[k].id == id
    requires s.pending[k].receiver == user
    ensures FirstAcceptable(s.pending, id, user) == k
  {
    var n := FirstAcceptable(s.pending, id, user);
    assert n <= k && SlotOk(s, n) && SlotOk(s, k);
    hide FateOf;
  }

  /** A transfer asked for by a session `p` of anyone to the user of a session `q` is accepted there. */
  lemma TransferGoesThrough(run: seq<State>, p: Pid, q: Pid, filename: string) returns (longer: seq<State>)
    requires Run(run) && IsActive(Last(run), p) && IsActive(Last(run), q)
    requires IsOnline(Last(run).online, Last(run).sessions[q].user) && FirstFree(Last(run).pending) < MAX_TRANSFERS
    ensures Run(longer) && run <= longer
    ensures var s, s', id := Last(run), Last(longer), Last(run).counter + 1;
            && s'.counter == id && |s'.histories| == |s'.terms| == id
            && s'.terms[id - 1] == Terms(s.sessions[p].user, s.sessions[q].user, filename)
            && s'.histories[id - 1] == [Event(Issued, p), Event(Announced, q), Event(Accepted, q)]
  {
    var s, id := Last(run), Last(run).counter + 1;
    var k := FirstFree(s.pending);
    var user := s.sessions[q].user;
    InvOf(run);
    hide Inv, OnlineOk, Init, Next, Step, Run, IsOnline;
    var s1, s2 := Asks(s, p, user, filename);
    longer := OneMore(run, s1);
    longer := OneMore(longer, s2);
    InvOf(longer);
    var s3 := Commanded(s2, q, Notify);
    Recorded(s2, q, Notify, s3, id, k, Announced);
    assert s3.pending[k] == s2.pending[k].(status := NOTIFIED);
    longer := OneMore(longer, s3);
    InvOf(longer);
    var s4 := Commanded(s3, q, Accept(id));
    assert FirstAcceptable(s3.pending, id, user) == k by { Accepts(s3, id, user, k); }
    Recorded(s3, q, Accept(id), s4, id, k, Accepted);
    longer := OneMore(longer, s4);
  }

  lemma Rejects(s: State, id: nat, user: string, k: nat)
    requires Inv(s) && k < MAX_TRANSFERS && s.pending[k].status == PENDING && s.pending[k].id == id
    requires s.pending[k].receiver == user
    ensures id != 0 && FirstNamed(s.pending, id) == k
    ensures RejectSlot(s.pending, id, user)[k] == s.pending[k].(status := REJECTED, id := 0)
  {
    var n := FirstNamed(s.pending, id);
    SlotIds(s, k);
    assert n <= k && SlotOk(s, n) && SlotOk(s, k);
    hide FateOf;
  }

  /** It can be rejected there instead, and the sender hears of that. */
  lemma RejectionIsReported(run: seq<State>, p: Pid, q: Pid, filename: string) returns (longer: seq<State>)
    requires Run(run) && IsActive(Last(run), p) && IsActive(Last(run), q)
    requires IsOnline(Last(run).online, Last(run).sessions[q].user) && FirstFree(Last(run).pending) < MAX_TRANSFERS
    ensures Run(longer) && run <= longer
    ensures var s', id := Last(longer), Last(run).counter + 1;
            && s'.counter == id && |s'.histories| == id
            && s'.histories[id - 1] == [Event(Issued, p), Event(Rejected, q), Event(Returned, p)]
  {
    var s, id := Last(run), Last(run).counter + 1;
    var k, user := FirstFree(s.pending), s.sessions[q].user;
    InvOf(run);
    hide Inv, OnlineOk, Init, Next, Step, Run, IsOnline, FirstFree, FirstNamed;
    var s1, s2 := Asks(s, p, user, filename);
    longer := OneMore(run, s1);
    longer := OneMore(longer, s2);
    InvOf(longer);
    Rejects(s2, id, user, k);
    var s3 := Commanded(s2, q, Reject(id));
    Recorded(s2, q, Reject(id), s3, id, k, Rejected);
    assert s3.pending[k] == s2.pending[k].(status := REJECTED, id := 0);
    longer := OneMore(longer, s3);
    InvOf(longer);
    var s4 := Commanded(s3, p, Notify);
    Recorded(s3, p, Notify, s4, id, k, Returned);
    longer := OneMore(longer, s4);
  }
}
