/**
 The registry in shared memory: twenty transfer slots, twenty online entries and an id
 counter. Each method of `SharedRegistry` is one `sem_wait..sem_post` block of
 src/server/handler/handlers.c, loops included, and is proved equal to a function on the
 slots as values; those functions are the steps of the runs in TransferRuns.
 */
module Registry {
  const MAX_TRANSFERS := 20
  const MAX_USERS := 20

  type Pid = nat

  datatype Status = FREE | PENDING | NOTIFIED | REJECTED

  datatype TransferRequest = TransferRequest(
    id: int, sender: string, receiver: string, filename: string, status: Status)

  // memset(slot, 0, sizeof(TransferRequest))
  const EMPTY_SLOT := TransferRequest(0, "", "", "", FREE)

  datatype UserEntry = UserEntry(username: string, handlerPid: Pid, isActive: bool)

  const EMPTY_ENTRY := UserEntry("", 0, false)

  /** One line of a notification snapshot: a copy of the slot, and whether it reports a rejection. */
  datatype Notice = Notice(request: TransferRequest, isRejection: bool)

  // ---------------------------------------------------------------- slots as values

  predicate IsNewFor(r: TransferRequest, user: string) {
    r.status == PENDING && r.receiver == user
  }

  predicate IsRejectionFor(r: TransferRequest, user: string) {
    !IsNewFor(r, user) && r.status == REJECTED && r.sender == user
  }

  function Notified(r: TransferRequest, user: string): TransferRequest {
    if IsNewFor(r, user) then r.(status := NOTIFIED)
    else if IsRejectionFor(r, user) then EMPTY_SLOT
    else r
  }

  /** The 32 bytes cleared from `sender` on reach into `receiver` behind it. */
  function Cleaned(r: TransferRequest, user: string): TransferRequest {
    if r.status != FREE && r.receiver == user then r.(status := FREE, id := 0, sender := "", receiver := "")
    else r
  }

  function NotifyAll(p: seq<TransferRequest>, user: string): (q: seq<TransferRequest>)
    ensures |q| == |p|
  {
    seq(|p|, i requires 0 <= i < |p| => Notified(p[i], user))
  }

  function CleanAll(p: seq<TransferRequest>, user: string): (q: seq<TransferRequest>)
    ensures |q| == |p|
  {
    seq(|p|, i requires 0 <= i < |p| => Cleaned(p[i], user))
  }

  /** The snapshot of a session of `user`, in slot order. */
  function SnapshotOf(p: seq<TransferRequest>, user: string): (n: seq<Notice>)
    ensures |n| <= |p|
  {
    if p == [] then []
    else
      var last, before := p[|p| - 1], SnapshotOf(p[..|p| - 1], user);
      if IsNewFor(last, user) then before + [Notice(last, false)]
      else if IsRejectionFor(last, user) then before + [Notice(last, true)]
      else before
  }

  lemma SnapshotStep(p: seq<TransferRequest>, i: nat, user: string)
    requires i < |p|
    ensures SnapshotOf(p[..i + 1], user) ==
            SnapshotOf(p[..i], user)
            + (if IsNewFor(p[i], user) then [Notice(p[i], false)]
               else if IsRejectionFor(p[i], user) then [Notice(p[i], true)]
               else [])
  {
    assert p[..i + 1][..i] == p[..i];
  }

  predicate IsNotice(r: TransferRequest, user: string) {
    IsNewFor(r, user) || IsRejectionFor(r, user)
  }

  /** The slots the lines of a snapshot were copied from. */
  function NoticeSlots(p: seq<TransferRequest>, user: string): (slots: seq<nat>)
    ensures |slots| == |SnapshotOf(p, user)|
    ensures forall n :: 0 <= n < |slots| ==>
      slots[n] < |p| && IsNotice(p[slots[n]], user)
      && SnapshotOf(p, user)[n] == Notice(p[slots[n]], IsRejectionFor(p[slots[n]], user))
    ensures forall m, n :: 0 <= m < n < |slots| ==> slots[m] < slots[n]
  {
    if p == [] then []
    else
      var i := |p| - 1;
      var before := NoticeSlots(p[..i], user);
      if IsNotice(p[i], user) then before + [i] else before
  }

  lemma {:induction false} AllNoticed(p: seq<TransferRequest>, user: string, i: nat)
    requires i < |p| && IsNotice(p[i], user)
    ensures i in NoticeSlots(p, user)
    decreases |p|
  {
    if i < |p| - 1 {
      AllNoticed(p[..|p| - 1], user, i);
    }
  }

  // ---------------------------------------------------------------- what a notification does, field by field

  /** A request waiting for its receiver to hear of it, or a rejection for its sender. */
  predicate IsWaiting(r: TransferRequest, user: string) {
    (r.status == PENDING && r.receiver == user) || (r.status == REJECTED && r.sender == user)
  }

  /** One line for each waiting slot and no other, in slot order, saying which of the two it is. */
  ghost predicate IsSnapshot(p: seq<TransferRequest>, user: string, snapshot: seq<Notice>, slots: seq<nat>) {
    && |slots| == |snapshot|
    && (forall n :: 0 <= n < |slots| ==>
        && slots[n] < |p|
        && snapshot[n] == Notice(p[slots[n]], p[slots[n]].status == REJECTED)
        && IsWaiting(p[slots[n]], user))
    && (forall m, n :: 0 <= m < n < |slots| ==> slots[m] < slots[n])
    && (forall i: nat :: i < |p| && IsWaiting(p[i], user) ==> i in slots)
  }

  lemma SnapshotIsExact(p: seq<TransferRequest>, user: string)
    ensures IsSnapshot(p, user, SnapshotOf(p, user), NoticeSlots(p, user))
  {
    var slots := NoticeSlots(p, user);
    forall i: nat | i < |p| && IsWaiting(p[i], user) ensures i in slots {
      AllNoticed(p, user, i);
    }
    hide SnapshotOf, NoticeSlots;
  }

  /** What becomes of one slot when a session of `user` looks. */
  predicate IsTold(before: TransferRequest, after: TransferRequest, user: string) {
    && (before.status == PENDING && before.receiver == user ==> after == before.(status := NOTIFIED))
    && (before.status == REJECTED && before.sender == user ==> after.status == FREE && after.id == 0)
    && (!IsWaiting(before, user) ==> after == before)
  }

  lemma NotifyTells(p: seq<TransferRequest>, user: string, i: nat)
    requires i < |p|
    ensures IsTold(p[i], NotifyAll(p, user)[i], user)
    ensures !IsWaiting(NotifyAll(p, user)[i], user)
  {
  }

  /** The first slot with a property, or the number of slots. */
  function FirstFree(p: seq<TransferRequest>): (k: nat)
    ensures k <= |p|
    ensures k < |p| ==> p[k].status == FREE
    ensures forall i :: 0 <= i < k ==> p[i].status != FREE
  {
    if p == [] || p[0].status == FREE then 0 else 1 + FirstFree(p[1..])
  }

  predicate Acceptable(r: TransferRequest, id: int, user: string) {
    r.id == id && r.status == NOTIFIED && r.receiver == user
  }

  function FirstAcceptable(p: seq<TransferRequest>, id: int, user: string): (k: nat)
    ensures k <= |p|
    ensures k < |p| ==> Acceptable(p[k], id, user)
    ensures forall i :: 0 <= i < k ==> !Acceptable(p[i], id, user)
  {
    if p == [] || Acceptable(p[0], id, user) then 0 else 1 + FirstAcceptable(p[1..], id, user)
  }

  function FirstNamed(p: seq<TransferRequest>, id: int): (k: nat)
    ensures k <= |p|
    ensures k < |p| ==> p[k].id == id && p[k].status != FREE
    ensures forall i :: 0 <= i < k ==> !(p[i].id == id && p[i].status != FREE)
  {
    if p == [] || (p[0].id == id && p[0].status != FREE) then 0 else 1 + FirstNamed(p[1..], id)
  }

  function AcceptSlot(p: seq<TransferRequest>, id: int, user: string): seq<TransferRequest> {
    var k := FirstAcceptable(p, id, user);
    if k < |p| then p[k := p[k].(status := FREE, id := 0)] else p
  }

  datatype Rejection = Done | NotYours | NotFound

  function RejectAnswer(p: seq<TransferRequest>, id: int, user: string): Rejection {
    var k := FirstNamed(p, id);
    if k == |p| then NotFound else if p[k].receiver == user then Done else NotYours
  }

  function RejectSlot(p: seq<TransferRequest>, id: int, user: string): seq<TransferRequest> {
    var k := FirstNamed(p, id);
    if k < |p| && p[k].receiver == user then p[k := p[k].(status := REJECTED, id := 0)] else p
  }

  function CreateSlot(p: seq<TransferRequest>, id: int, sender: string, receiver: string, filename: string)
    : seq<TransferRequest>
  {
    var k := FirstFree(p);
    if k < |p| then p[k := TransferRequest(id, sender, receiver, filename, PENDING)] else p
  }

  /** `handleLogin`'s loop: the first inactive entry becomes this session's. */
  function FirstInactive(o: seq<UserEntry>): (k: nat)
    ensures k <= |o|
    ensures k < |o| ==> !o[k].isActive
    ensures forall i :: 0 <= i < k ==> o[i].isActive
  {
    if o == [] || !o[0].isActive then 0 else 1 + FirstInactive(o[1..])
  }

  function FirstWithPid(o: seq<UserEntry>, pid: Pid): (k: nat)
    ensures k <= |o|
    ensures k < |o| ==> o[k].handlerPid == pid
    ensures forall i :: 0 <= i < k ==> o[i].handlerPid != pid
  {
    if o == [] || o[0].handlerPid == pid then 0 else 1 + FirstWithPid(o[1..], pid)
  }

  function LoginEntry(o: seq<UserEntry>, user: string, pid: Pid): seq<UserEntry> {
    var k := FirstInactive(o);
    if k < |o| then o[k := UserEntry(user, pid, true)] else o
  }

  function LogoutEntry(o: seq<UserEntry>, pid: Pid): seq<UserEntry> {
    var k := FirstWithPid(o, pid);
    if k < |o| then o[k := o[k].(isActive := false)] else o
  }

  /** The first active entry of a user. */
  function FirstOnline(o: seq<UserEntry>, user: string): (k: nat)
    ensures k <= |o|
    ensures k < |o| ==> o[k].isActive && o[k].username == user
    ensures forall i :: 0 <= i < k ==> !(o[i].isActive && o[i].username == user)
  {
    if o == [] || (o[0].isActive && o[0].username == user) then 0 else 1 + FirstOnline(o[1..], user)
  }

  /** The handler `transfer_request` would signal, or 0. */
  function OnlinePid(o: seq<UserEntry>, user: string): (pid: Pid)
    ensures pid != 0 ==> exists i :: 0 <= i < |o| && o[i] == UserEntry(user, pid, true)
    ensures (forall i :: 0 <= i < |o| ==> !(o[i].isActive && o[i].username == user)) ==> pid == 0
    ensures (forall i :: 0 <= i < |o| && o[i].isActive ==> o[i].handlerPid != 0) && pid == 0 ==>
      forall i :: 0 <= i < |o| ==> !(o[i].isActive && o[i].username == user)
  {
    var k := FirstOnline(o, user);
    if k < |o| then assert o[k] == UserEntry(user, o[k].handlerPid, true); o[k].handlerPid else 0
  }

  /** A login has its entry unless the table is full of active ones, and disturbs no active one. */
  lemma LoginIsEntered(o: seq<UserEntry>, user: string, pid: Pid)
    ensures |LoginEntry(o, user, pid)| == |o|
    ensures (exists i :: 0 <= i < |o| && !o[i].isActive) ==>
      exists i :: 0 <= i < |o| && !o[i].isActive && LoginEntry(o, user, pid)[i] == UserEntry(user, pid, true)
    ensures (forall i :: 0 <= i < |o| ==> o[i].isActive) ==> LoginEntry(o, user, pid) == o
    ensures forall i :: 0 <= i < |o| && o[i].isActive ==> LoginEntry(o, user, pid)[i] == o[i]
  {
    var k := FirstInactive(o);
    if k < |o| {
      assert !o[k].isActive && LoginEntry(o, user, pid)[k] == UserEntry(user, pid, true);
    }
  }

  // ---------------------------------------------------------------- slots in place

  class SharedRegistry {
    const online: array<UserEntry>
    const pending: array<TransferRequest>
    var counter: nat

    ghost predicate Valid()
      reads this, online, pending
    {
      online.Length == MAX_USERS && pending.Length == MAX_TRANSFERS
    }

    constructor ()
      ensures Valid() && fresh(online) && fresh(pending)
      ensures counter == 0
      ensures forall i :: 0 <= i < pending.Length ==> pending[i] == EMPTY_SLOT
      ensures forall i :: 0 <= i < online.Length ==> online[i] == EMPTY_ENTRY
    {
      online := new UserEntry[MAX_USERS](_ => EMPTY_ENTRY);
      pending := new TransferRequest[MAX_TRANSFERS](_ => EMPTY_SLOT);
      counter := 0;
    }

    /**
     The locked part of `check_for_notifications`. The two local arrays of MAX_TRANSFERS
     entries, here one array of pairs, are written at `count` and never past their end.
     */
    method CheckForNotifications(user: string) returns (snapshot: seq<Notice>, ghost slots: seq<nat>)
      requires Valid()
      modifies pending
      ensures IsSnapshot(old(pending[..]), user, snapshot, slots)
      ensures forall i :: 0 <= i < MAX_TRANSFERS ==>
        IsTold(old(pending[..])[i], pending[i], user) && !IsWaiting(pending[i], user)
      ensures pending[..] == NotifyAll(old(pending[..]), user)
      ensures snapshot == SnapshotOf(old(pending[..]), user)
    {
      var toNotify := new Notice[MAX_TRANSFERS](_ => Notice(EMPTY_SLOT, false));
      var count: nat := 0;
      ghost var p := pending[..];
      for i := 0 to MAX_TRANSFERS
        invariant count <= i
        invariant toNotify[..count] == SnapshotOf(p[..i], user)
        invariant pending[..i] == NotifyAll(p, user)[..i]
        invariant pending[i..] == p[i..]
      {
        SnapshotStep(p, i, user);
        assert pending[i] == pending[i..][0] == p[i];
        ghost var done := pending[..i];
        if pending[i].status == PENDING && pending[i].receiver == user {
          toNotify[count] := Notice(pending[i], false);
          count := count + 1;
          pending[i] := pending[i].(status := NOTIFIED);
        } else if pending[i].status == REJECTED && pending[i].sender == user {
          toNotify[count] := Notice(pending[i], true);
          count := count + 1;
          pending[i] := EMPTY_SLOT;
        }
        assert pending[..i + 1] == done + [Notified(p[i], user)];
        assert p[i + 1..] == p[i..][1..];
      }
      assert p[..MAX_TRANSFERS] == p;
      snapshot, slots := toNotify[..count], NoticeSlots(p, user);
      SnapshotIsExact(p, user);
      assert pending[..] == NotifyAll(p, user);
      hide NotifyAll, SnapshotOf, IsSnapshot, IsTold, IsWaiting;
      forall i | 0 <= i < MAX_TRANSFERS
        ensures IsTold(p[i], pending[i], user) && !IsWaiting(pending[i], user)
      {
        NotifyTells(p, user, i);
        assert pending[..][i] == pending[i];
      }
    }

    /** `cleanup_user_requests`. */
    method CleanupUserRequests(user: string)
      requires Valid()
      modifies pending
      ensures pending[..] == CleanAll(old(pending[..]), user)
    {
      ghost var p := pending[..];
      for i := 0 to MAX_TRANSFERS
        invariant forall j :: 0 <= j < i ==> pending[j] == Cleaned(p[j], user)
        invariant forall j :: i <= j < MAX_TRANSFERS ==> pending[j] == p[j]
      {
        if pending[i].status != FREE && pending[i].receiver == user {
          pending[i] := pending[i].(status := FREE, id := 0, sender := "", receiver := "");
        }
      }
    }

    /** The second locked part of `handleTransferRequest`: -1 exactly when every slot is taken. */
    method CreateRequest(sender: string, receiver: string, filename: string) returns (newId: int)
      requires Valid()
      modifies pending, `counter
      ensures pending[..] == CreateSlot(old(pending[..]), old(counter) + 1, sender, receiver, filename)
      ensures newId == -1 <==> forall i :: 0 <= i < MAX_TRANSFERS ==> old(pending[i].status) != FREE
      ensures counter == if newId == -1 then old(counter) else old(counter) + 1
      ensures newId != -1 ==> newId == counter
    {
      var slot := -1;
      newId := -1;
      ghost var p := pending[..];
      for i := 0 to MAX_TRANSFERS
        invariant slot == -1
        invariant forall j :: 0 <= j < i ==> pending[j].status != FREE
      {
        if pending[i].status == FREE {
          slot := i;
          break;
        }
      }
      if slot != -1 {
        assert FirstFree(p) == slot;
        counter := counter + 1;
        newId := counter;
        pending[slot] := TransferRequest(newId, sender, receiver, filename, PENDING);
      }
    }

    /** The locked part of `handleAcceptTransfer`. */
    method Accept(id: int, user: string) returns (found: bool, request: TransferRequest)
      requires Valid()
      modifies pending
      ensures pending[..] == AcceptSlot(old(pending[..]), id, user)
      ensures found <==> exists i :: 0 <= i < MAX_TRANSFERS && Acceptable(old(pending[i]), id, user)
      ensures found ==> request == old(pending[..])[FirstAcceptable(old(pending[..]), id, user)]
    {
      found, request := false, EMPTY_SLOT;
      ghost var p := pending[..];
      for i := 0 to MAX_TRANSFERS
        invariant !found && pending[..] == p
        invariant forall j :: 0 <= j < i ==> !Acceptable(p[j], id, user)
      {
        if pending[i].id == id && pending[i].status == NOTIFIED && pending[i].receiver == user {
          assert FirstAcceptable(p, id, user) == i;
          request := pending[i];
          pending[i] := pending[i].(status := FREE, id := 0);
          found := true;
          break;
        }
      }
    }

    /** The first locked part of `handleRejectTransfer`. */
    method Reject(id: int, user: string) returns (answer: Rejection, sender: string)
      requires Valid()
      modifies pending
      ensures pending[..] == RejectSlot(old(pending[..]), id, user)
      ensures answer == RejectAnswer(old(pending[..]), id, user)
      ensures answer == Done ==> sender == old(pending[..])[FirstNamed(old(pending[..]), id)].sender
    {
      answer, sender := NotFound, "";
      ghost var p := pending[..];
      for i := 0 to MAX_TRANSFERS
        invariant answer == NotFound && pending[..] == p
        invariant forall j :: 0 <= j < i ==> !(p[j].id == id && p[j].status != FREE)
      {
        if pending[i].id == id && pending[i].status != FREE {
          assert FirstNamed(p, id) == i;
          if pending[i].receiver == user {
            sender := pending[i].sender;
            pending[i] := pending[i].(status := REJECTED, id := 0);
            answer := Done;
          } else {
            answer := NotYours;
          }
          break;
        }
      }
    }

    /** The locked part of `handleLogin`; a full table is left as it is. */
    method InsertOnline(user: string, pid: Pid)
      requires Valid()
      modifies online
      ensures online[..] == LoginEntry(old(online[..]), user, pid)
    {
      ghost var o := online[..];
      for i := 0 to MAX_USERS
        invariant online[..] == o
        invariant forall j :: 0 <= j < i ==> o[j].isActive
      {
        if !online[i].isActive {
          assert FirstInactive(o) == i;
          online[i] := UserEntry(user, pid, true);
          break;
        }
      }
    }

    /** The locked part of the logout in `handleClient`. */
    method RemoveOnline(pid: Pid)
      requires Valid()
      modifies online
      ensures online[..] == LogoutEntry(old(online[..]), pid)
    {
      ghost var o := online[..];
      for i := 0 to MAX_USERS
        invariant online[..] == o
        invariant forall j :: 0 <= j < i ==> o[j].handlerPid != pid
      {
        if online[i].handlerPid == pid {
          assert FirstWithPid(o, pid) == i;
          online[i] := online[i].(isActive := false);
          break;
        }
      }
    }

    /** One round of the polling loop of `handleTransferRequest`: a handler of the user, or 0. */
    method FindOnline(user: string) returns (pid: Pid)
      requires Valid()
      ensures pid == OnlinePid(online[..], user)
    {
      pid := 0;
      ghost var o := online[..];
      for i := 0 to MAX_USERS
        invariant pid == 0
        invariant forall j :: 0 <= j < i ==> !(o[j].isActive && o[j].username == user)
      {
        if online[i].isActive && online[i].username == user {
          assert FirstOnline(o, user) == i;
          pid := online[i].handlerPid;
          break;
        }
      }
    }
  }
}
