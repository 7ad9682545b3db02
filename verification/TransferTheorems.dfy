/** What holds of every run over the registry: the life of a request, ownership, conservation. */
module TransferTheorems {
  import opened Runs
  import opened Registry
  import opened TransferRuns

  function Last(run: seq<State>): State
    requires |run| > 0
  {
    run[|run| - 1]
  }

  lemma {:induction false} RunInv(run: seq<State>)
    requires Run(run)
    ensures Inv(Last(run)) && OnlineOk(Last(run))
    decreases |run|
  {
    if |run| == 1 {
      InitInv(run[0]);
    } else {
      PrefixIsRun(Init, Next, run, |run| - 1);
      RunInv(run[..|run| - 1]);
      assert StepAt(Next, run, |run| - 1);
      NextKeepsInv(run[|run| - 2], Last(run));
    }
  }

  lemma NextKeepsInv(s: State, s': State)
    requires Next(s, s') && Inv(s) && OnlineOk(s)
    ensures Inv(s') && OnlineOk(s')
  {
    var pid, a :| Step(s, pid, a, s');
    StepKeepsInv(s, pid, a, s');
    StepKeepsOnline(s, pid, a, s');
  }

  /** The registry invariant of every reachable state, in terms of the slots alone. */
  lemma RegistryInvariant(run: seq<State>)
    requires Run(run)
    ensures var s := Last(run);
            && |s.pending| == MAX_TRANSFERS
            && (forall i :: 0 <= i < MAX_TRANSFERS ==>
                (s.pending[i].id != 0 <==> s.pending[i].status == PENDING || s.pending[i].status == NOTIFIED))
            && (forall i :: 0 <= i < MAX_TRANSFERS && s.pending[i].id != 0 ==> 1 <= s.pending[i].id <= s.counter)
            && (forall i, j :: 0 <= i < j < MAX_TRANSFERS && s.pending[i].id != 0 ==>
                s.pending[i].id != s.pending[j].id)
  {
    RunInv(run);
    var s := Last(run);
    forall i: nat | i < MAX_TRANSFERS
      ensures s.pending[i].id != 0 <==> s.pending[i].status == PENDING || s.pending[i].status == NOTIFIED
      ensures s.pending[i].id != 0 ==> s.pending[i].id == s.origin[i] && 1 <= s.origin[i] <= s.counter
    {
      assert SlotOk(s, i);
    }
  }

  // ---------------------------------------------------------------- one request

  function Kinds(h: seq<Event>): (ks: seq<Kind>)
    ensures |ks| == |h|
  {
    if h == [] then [] else Kinds(h[..|h| - 1]) + [h[|h| - 1].kind]
  }

  /** All the lives a request can have. */
  predicate PossibleLife(ks: seq<Kind>) {
    || ks == [Issued]
    || ks == [Issued, Announced]
    || ks == [Issued, Announced, Accepted]
    || ks == [Issued, Rejected]
    || ks == [Issued, Announced, Rejected]
    || ks == [Issued, Rejected, Returned]
    || ks == [Issued, Announced, Rejected, Returned]
    || ks == [Issued, Dropped]
    || ks == [Issued, Announced, Dropped]
    || ks == [Issued, Rejected, Dropped]
    || ks == [Issued, Announced, Rejected, Dropped]
  }

  /** The life belonging to each fate. */
  predicate LifeFits(ks: seq<Kind>, f: Fate) {
    match f
    case Unissued => ks == []
    case Open(announced) => ks == if announced then [Issued, Announced] else [Issued]
    case Refused => ks == [Issued, Rejected] || ks == [Issued, Announced, Rejected]
    case Taken => ks == [Issued, Announced, Accepted]
    case Answered => ks == [Issued, Rejected, Returned] || ks == [Issued, Announced, Rejected, Returned]
    case Lost =>
      || ks == [Issued, Dropped] || ks == [Issued, Announced, Dropped]
      || ks == [Issued, Rejected, Dropped] || ks == [Issued, Announced, Rejected, Dropped]
    case Impossible => true
  }

  lemma {:induction false} FateNamesLife(h: seq<Event>)
    ensures LifeFits(Kinds(h), FateOf(h))
    decreases |h|
  {
    if h != [] {
      FateNamesLife(h[..|h| - 1]);
    }
  }

  lemma RequestFate(s: State, id: nat)
    requires Inv(s) && 1 <= id <= s.counter
    ensures var f := FateOf(s.histories[id - 1]);
            && f != Unissued && f != Impossible
            && (Final(f) <==> SlotOf(s.pending, s.origin, id) == MAX_TRANSFERS)
            && (!Final(f) ==>
                var r := s.pending[SlotOf(s.pending, s.origin, id)];
                f == FateOfSlot(r) && s.terms[id - 1] == Terms(r.sender, r.receiver, r.filename))
  {
    assert HistoryOk(s, id);
    var k := SlotOf(s.pending, s.origin, id);
    if k < MAX_TRANSFERS {
      assert SlotOk(s, k);
    }
  }

  /**
   Over every run, each id issued lives one of eleven lives: it is announced at most once,
   leaves the open states at most once and by exactly one of accept, reject or the receiver's
   logout, is accepted only after it was announced, and a rejection is reported at most once.
   Each event was the doing of a session of the receiver, or for the first and the last
   report, of the sender.
   */
  lemma RequestLife(run: seq<State>, id: nat)
    requires Run(run) && 1 <= id <= Last(run).counter
    ensures var s := Last(run);
            && |s.histories| == |s.terms| == s.counter
            && PossibleLife(Kinds(s.histories[id - 1]))
            && EventsOk(s.sessions, s.histories[id - 1], s.terms[id - 1])
  {
    RunInv(run);
    var s := Last(run);
    RequestFate(s, id);
    FateNamesLife(s.histories[id - 1]);
    assert HistoryOk(s, id);
  }

  /** What the eleven lives have in common. */
  lemma LifeFacts(ks: seq<Kind>, k: nat)
    requires PossibleLife(ks) && k < |ks|
    ensures forall l :: 0 <= l < |ks| && l != k ==> ks[l] != ks[k]
    ensures ks[k] == Accepted ==> k > 0 && ks[k - 1] == Announced && Rejected !in ks && Dropped !in ks && k == |ks| - 1
    ensures ks[k] == Returned ==> k > 0 && ks[k - 1] == Rejected
    ensures ks[k] == Dropped ==> Accepted !in ks && Returned !in ks && k == |ks| - 1
  {
  }

  /** What is recorded of a request only grows, and its terms never change. */
  lemma {:induction false} HistoryGrows(run: seq<State>, i: nat, j: nat, id: nat)
    requires Run(run) && i <= j < |run| && 1 <= id <= run[i].counter
    requires |run[i].histories| == |run[i].terms| == run[i].counter
    ensures |run[j].histories| == |run[j].terms| == run[j].counter && run[i].counter <= run[j].counter
    ensures run[j].terms[id - 1] == run[i].terms[id - 1]
    ensures run[i].histories[id - 1] <= run[j].histories[id - 1]
    decreases j
  {
    if i < j {
      HistoryGrows(run, i, j - 1, id);
      assert StepAt(Next, run, j);
      StepGrows(run[j - 1], run[j], id);
    }
  }

  lemma StepGrows(s: State, s': State, id: nat)
    requires Next(s, s') && |s.histories| == |s.terms| == s.counter && 1 <= id <= s.counter
    ensures |s'.histories| == |s'.terms| == s'.counter && s.counter <= s'.counter
    ensures s'.terms[id - 1] == s.terms[id - 1] && s.histories[id - 1] <= s'.histories[id - 1]
  {
    var pid, a :| Step(s, pid, a, s');
    hide Slots, News, SlotOf;
  }

  // ---------------------------------------------------------------- who may do what

  /**
   An open request is changed only by a session of its receiver. A rejected one is freed
   only by a session of its sender, or by the logout of its receiver. Until then its sender,
   receiver and file name stay.
   */
  lemma OnlyPartiesTouch(s: State, pid: Pid, a: Action, s': State, i: nat)
    requires Step(s, pid, a, s') && Inv(s) && i < MAX_TRANSFERS && Occupied(s.pending[i])
    requires Shaped(s') && s'.pending[i] != s.pending[i]
    ensures pid in s.sessions
    ensures s.pending[i].status != REJECTED ==> s.sessions[pid].user == s.pending[i].receiver
    ensures s.pending[i].status == REJECTED ==>
      (a == Notify && s.sessions[pid].user == s.pending[i].sender)
      || (a == CleanUp && s.sessions[pid].user == s.pending[i].receiver)
    ensures Occupied(s'.pending[i]) ==>
      (s'.pending[i].sender, s'.pending[i].receiver, s'.pending[i].filename)
      == (s.pending[i].sender, s.pending[i].receiver, s.pending[i].filename)
  {
    assert SlotOk(s, i);
    if OnSlots(a) {
      SlotMoves(s.pending, i, s.sessions[pid].user, a);
    }
  }

  /** The slot an id is found in, while the request is open. */
  lemma OpenSlot(s: State, id: nat)
    requires Inv(s) && 1 <= id <= s.counter
    ensures var f, k := FateOf(s.histories[id - 1]), SlotOf(s.pending, s.origin, id);
            f.Open? <==> k < MAX_TRANSFERS && s.pending[k].id == id
    ensures forall i: nat :: i < MAX_TRANSFERS && s.pending[i].id == id ==> i == SlotOf(s.pending, s.origin, id)
  {
    RequestFate(s, id);
    var k := SlotOf(s.pending, s.origin, id);
    if k < MAX_TRANSFERS {
      assert SlotOk(s, k);
    }
    forall i: nat | i < MAX_TRANSFERS && s.pending[i].id == id ensures i == k {
      assert SlotOk(s, i);
      SlotOfUnique(s, i);
    }
  }

  /** The id of an open slot is one that was issued, of a rejected or free one it is 0. */
  lemma SlotIds(s: State, i: nat)
    requires Inv(s) && i < MAX_TRANSFERS
    ensures s.pending[i].status == PENDING || s.pending[i].status == NOTIFIED ==> 1 <= s.pending[i].id <= s.counter
    ensures s.pending[i].status == REJECTED || s.pending[i].status == FREE ==> s.pending[i].id == 0
  {
    assert SlotOk(s, i);
    hide FateOf;
  }

  /** `accept`, given any number at all, succeeds exactly for a request announced to this user and not yet resolved. */
  lemma AcceptMeans(s: State, id: int, user: string)
    requires Inv(s)
    ensures FirstAcceptable(s.pending, id, user) < MAX_TRANSFERS
            <==> 1 <= id <= s.counter && FateOf(s.histories[id - 1]) == Open(true) && s.terms[id - 1].receiver == user
  {
    if 1 <= id <= s.counter {
      AcceptIssued(s, id, user);
    } else {
      var k := FirstAcceptable(s.pending, id, user);
      if k < MAX_TRANSFERS {
        SlotIds(s, k);
      }
    }
  }

  lemma AcceptIssued(s: State, id: nat, user: string)
    requires Inv(s) && 1 <= id <= s.counter
    ensures FirstAcceptable(s.pending, id, user) < MAX_TRANSFERS
            <==> FateOf(s.histories[id - 1]) == Open(true) && s.terms[id - 1].receiver == user
  {
    RequestFate(s, id);
    OpenSlot(s, id);
    var k := SlotOf(s.pending, s.origin, id);
    assert FirstAcceptable(s.pending, id, user) < MAX_TRANSFERS ==> FirstAcceptable(s.pending, id, user) == k;
    assert k < MAX_TRANSFERS ==> SlotOk(s, k);
  }

  lemma RejectIssued(s: State, id: nat, user: string)
    requires Inv(s) && 1 <= id <= s.counter
    ensures RejectAnswer(s.pending, id, user) ==
            if !FateOf(s.histories[id - 1]).Open? then NotFound
            else if s.terms[id - 1].receiver == user then Done else NotYours
  {
    RequestFate(s, id);
    OpenSlot(s, id);
    var k, n := SlotOf(s.pending, s.origin, id), FirstNamed(s.pending, id);
    assert n < MAX_TRANSFERS ==> n == k;
    if k < MAX_TRANSFERS {
      assert SlotOk(s, k);
      assert FateOf(s.histories[id - 1]).Open? ==> n <= k;
    }
  }

  /** Slot `k` is the first rejected one. */
  ghost predicate FirstRejected(s: State, k: nat)
    requires Shaped(s)
  {
    && k < MAX_TRANSFERS && s.pending[k].status == REJECTED
    && forall i :: 0 <= i < k ==> s.pending[i].status != REJECTED
  }

  /**
   `reject`, given any number at all. For an issued id it succeeds exactly if the request is
   open at this user, announced or not. For 0 it is the first rejected slot that answers.
   Any other number is not found.
   */
  lemma RejectMeans(s: State, id: int, user: string)
    requires Inv(s)
    ensures 1 <= id <= s.counter ==>
      RejectAnswer(s.pending, id, user) ==
      if !FateOf(s.histories[id - 1]).Open? then NotFound
      else if s.terms[id - 1].receiver == user then Done else NotYours
    ensures id == 0 ==>
      && (RejectAnswer(s.pending, 0, user) == NotFound <==> forall k: nat :: !FirstRejected(s, k))
      && (forall k: nat :: FirstRejected(s, k) ==>
          RejectAnswer(s.pending, 0, user) == if s.pending[k].receiver == user then Done else NotYours)
    ensures id < 0 || id > s.counter ==> RejectAnswer(s.pending, id, user) == NotFound
  {
    if 1 <= id <= s.counter {
      RejectIssued(s, id, user);
    } else if id == 0 {
      RejectZero(s, user);
    } else {
      var k := FirstNamed(s.pending, id);
      if k < MAX_TRANSFERS {
        SlotIds(s, k);
      }
    }
  }

  lemma RejectZero(s: State, user: string)
    requires Inv(s)
    ensures RejectAnswer(s.pending, 0, user) == NotFound <==> forall k: nat :: !FirstRejected(s, k)
    ensures forall k: nat :: FirstRejected(s, k) ==>
      RejectAnswer(s.pending, 0, user) == if s.pending[k].receiver == user then Done else NotYours
  {
    var n := FirstNamed(s.pending, 0);
    forall i: nat | i < MAX_TRANSFERS
      ensures s.pending[i].id == 0 && s.pending[i].status != FREE <==> s.pending[i].status == REJECTED
    {
      SlotIds(s, i);
    }
    hide Inv;
    if n < MAX_TRANSFERS {
      assert FirstRejected(s, n);
    }
    forall k: nat | FirstRejected(s, k) ensures k == n {
    }
  }

  /** `reject 0`, which any non-number is too, finds a rejected slot at most and changes nothing. */
  lemma RejectZeroChangesNothing(s: State, pid: Pid)
    requires Inv(s) && Enabled(s, pid, Reject(0))
    ensures Apply(s, pid, Reject(0)) == s
  {
    var user, k := s.sessions[pid].user, FirstNamed(s.pending, 0);
    if k < MAX_TRANSFERS {
      assert SlotOk(s, k);
      assert s.pending[k].status == REJECTED;
      assert s.pending[k].(status := REJECTED, id := 0) == s.pending[k];
    }
    forall id: nat | 1 <= id <= s.counter
      ensures s.histories[id - 1] + News(s, user, pid, Reject(0), id) == s.histories[id - 1]
    {
    }
    assert Apply(s, pid, Reject(0)).histories == s.histories;
  }

  // ---------------------------------------------------------------- the online table

  /** Each active entry belongs to one session that has not finished its logout. */
  ghost predicate OnlineOk(s: State) {
    && |s.online| == MAX_USERS
    && (forall i :: 0 <= i < MAX_USERS && s.online[i].handlerPid != 0 ==>
      && s.online[i].handlerPid in s.sessions
      && s.online[i].username == s.sessions[s.online[i].handlerPid].user)
    && (forall i :: 0 <= i < MAX_USERS && s.online[i].isActive ==>
      s.online[i].handlerPid != 0 && s.sessions[s.online[i].handlerPid].phase != Gone)
    && (forall i, j :: 0 <= i < j < MAX_USERS && s.online[i].handlerPid != 0 ==>
      s.online[i].handlerPid != s.online[j].handlerPid)
  }

  lemma StepKeepsOnline(s: State, pid: Pid, a: Action, s': State)
    requires Step(s, pid, a, s') && OnlineOk(s)
    ensures OnlineOk(s')
  {
    hide Slots, News, CreateSlot;
  }

  /**
   An active entry changes only when its own session logs out, and that clears it. So a
   session whose login found the table full never touches another session's entry.
   */
  lemma EntryClearedByOwner(s: State, pid: Pid, a: Action, s': State, i: nat)
    requires Step(s, pid, a, s') && OnlineOk(s) && i < MAX_USERS && s.online[i].isActive
    ensures |s'.online| == MAX_USERS
    ensures s'.online[i] == if a == Deactivate && s.online[i].handlerPid == pid
                            then s.online[i].(isActive := false) else s.online[i]
  {
    hide Slots, News, CreateSlot;
  }
}
