/**
 What each command does to the slots, said on their fields: who hears of what, which slot an
 answer frees or turns into a rejection, what a logout leaves.
 */
module TransferEffects {
  import opened Registry
  import opened TransferRuns
  import opened TransferTheorems

  /** Nothing but the slots and the histories changes. */
  ghost predicate OnlySlots(s: State, s': State) {
    && |s'.pending| == |s.pending|
    && s' == s.(pending := s'.pending, histories := s'.histories)
  }

  ghost predicate OthersStay(s: State, s': State, i: nat) {
    && |s'.pending| == |s.pending|
    && forall j :: 0 <= j < |s.pending| && j != i ==> s'.pending[j] == s.pending[j]
  }

  lemma StepOnSlots(s: State, pid: Pid, a: Action, s': State)
    requires Step(s, pid, a, s') && (a == Notify || a.Accept? || a.Reject?)
    ensures OnlySlots(s, s') && pid in s.sessions
    ensures s'.pending == Slots(s.pending, s.sessions[pid].user, a)
  {
    hide Slots, News;
    SlotsKeepLength(s.pending, s.sessions[pid].user, a);
  }

  lemma SlotsKeepLength(p: seq<TransferRequest>, user: string, a: Action)
    ensures |Slots(p, user, a)| == |p|
  {
  }

  /**
   After a notification no request waits for this session's user: what was pending at them is
   announced, what was rejected of theirs is freed, and every other slot is as it was.
   */
  lemma NotifyTellsAll(s: State, pid: Pid, s': State)
    requires Step(s, pid, Notify, s')
    ensures OnlySlots(s, s')
    ensures forall i :: 0 <= i < |s.pending| ==>
      && IsTold(s.pending[i], s'.pending[i], s.sessions[pid].user)
      && !IsWaiting(s'.pending[i], s.sessions[pid].user)
  {
    StepOnSlots(s, pid, Notify, s');
    var user := s.sessions[pid].user;
    assert s'.pending == NotifyAll(s.pending, user);
    hide Step, NotifyAll, IsTold, IsWaiting;
    forall i: nat | i < |s.pending|
      ensures IsTold(s.pending[i], s'.pending[i], user) && !IsWaiting(s'.pending[i], user)
    {
      NotifyTells(s.pending, user, i);
    }
  }

  /** Accepting frees the slot announced to this user under this id, and nothing else. */
  lemma AcceptFrees(s: State, pid: Pid, id: int, s': State, i: nat)
    requires Step(s, pid, Accept(id), s') && Inv(s) && i < MAX_TRANSFERS
    requires s.pending[i].status == NOTIFIED && s.pending[i].id == id
    requires s.pending[i].receiver == s.sessions[pid].user
    ensures OnlySlots(s, s') && OthersStay(s, s', i)
    ensures s'.pending[i].status == FREE && s'.pending[i].id == 0
  {
    StepOnSlots(s, pid, Accept(id), s');
    SlotIds(s, i);
    var k := FirstAcceptable(s.pending, id, s.sessions[pid].user);
    SameIdSameSlot(s, i, k);
  }

  lemma SameIdSameSlot(s: State, i: nat, k: nat)
    requires Inv(s) && i < MAX_TRANSFERS && k < MAX_TRANSFERS && s.pending[i].id == s.pending[k].id != 0
    ensures i == k
  {
    assert SlotOk(s, i) && SlotOk(s, k);
    hide FateOf;
  }

  /** Anything else that is accepted changes nothing. */
  lemma AcceptElseNothing(s: State, pid: Pid, id: int, s': State)
    requires Step(s, pid, Accept(id), s')
    requires forall i :: 0 <= i < |s.pending| ==>
      !(s.pending[i].status == NOTIFIED && s.pending[i].id == id && s.pending[i].receiver == s.sessions[pid].user)
    ensures OnlySlots(s, s') && s'.pending == s.pending
  {
    StepOnSlots(s, pid, Accept(id), s');
  }

  /** Rejecting turns the open slot of this id, if it is this user's, into a message to its sender. */
  lemma RejectTurns(s: State, pid: Pid, id: int, s': State, i: nat)
    requires Step(s, pid, Reject(id), s') && Inv(s) && i < MAX_TRANSFERS
    requires s.pending[i].status == PENDING || s.pending[i].status == NOTIFIED
    requires s.pending[i].id == id && s.pending[i].receiver == s.sessions[pid].user
    ensures OnlySlots(s, s') && OthersStay(s, s', i)
    ensures s'.pending[i] == s.pending[i].(status := REJECTED, id := 0)
  {
    StepOnSlots(s, pid, Reject(id), s');
    assert SlotOk(s, i);
    var k := FirstNamed(s.pending, id);
    SameIdSameSlot(s, i, k);
  }

  /** Anything else that is rejected changes no slot. */
  lemma RejectElseNothing(s: State, pid: Pid, id: int, s': State)
    requires Step(s, pid, Reject(id), s') && Inv(s)
    requires forall i :: 0 <= i < |s.pending| ==>
      !((s.pending[i].status == PENDING || s.pending[i].status == NOTIFIED)
        && s.pending[i].id == id && s.pending[i].receiver == s.sessions[pid].user)
    ensures OnlySlots(s, s') && s'.pending == s.pending
  {
    StepOnSlots(s, pid, Reject(id), s');
    var k := FirstNamed(s.pending, id);
    if k < MAX_TRANSFERS && s.pending[k].receiver == s.sessions[pid].user {
      SlotIds(s, k);
      assert s.pending[k].(status := REJECTED, id := 0) == s.pending[k];
    }
  }

  /** A logout frees the slots addressed to its user, and no other. */
  lemma LogoutFrees(s: State, pid: Pid, s': State)
    requires Step(s, pid, CleanUp, s')
    ensures |s'.pending| == |s.pending|
    ensures forall i :: 0 <= i < |s.pending| ==>
      if s.pending[i].status != FREE && s.pending[i].receiver == s.sessions[pid].user
      then s'.pending[i].status == FREE && s'.pending[i].id == 0
      else s'.pending[i] == s.pending[i]
  {
    hide News;
    assert s'.pending == CleanAll(s.pending, s.sessions[pid].user);
  }
}
