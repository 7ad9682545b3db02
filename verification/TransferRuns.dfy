/**
 Any number of handler processes sharing the registry. A step is one critical section of one
 session; a session logs in once, runs commands, and logs out in two separate sections.
 History variables record, for every id ever issued, its terms and what happened to it.
 */
module TransferRuns {
  import opened Bytes
  import opened Runs
  import opened Registry

  /** What can happen to a transfer request. */
  datatype Kind =
    | Issued      // transfer_request filled a slot
    | Announced   // its receiver's snapshot took it: PENDING became NOTIFIED
    | Accepted    // accept freed the slot
    | Rejected    // reject turned the slot into a message for the sender
    | Returned    // the sender's snapshot took that message and freed the slot
    | Dropped     // the receiver's logout freed the slot

  datatype Event = Event(kind: Kind, pid: Pid)

  datatype Terms = Terms(sender: string, receiver: string, filename: string)

  /** A session of a handler process. */
  datatype Phase =
    | Active
    | Targeted(dest: string, filename: string)  // transfer_request has seen the receiver online
    | CleanedUp                                 // between the two sections of the logout
    | Gone

  datatype Session = Session(user: string, phase: Phase)

  datatype State = State(
    online: seq<UserEntry>,
    pending: seq<TransferRequest>,
    counter: nat,
    sessions: map<Pid, Session>,
    origin: seq<nat>,              // history: the id each slot was last issued under
    terms: seq<Terms>,             // history: terms[id - 1]
    histories: seq<seq<Event>>     // history: histories[id - 1]
  )

  ghost predicate Init(s: State) {
    && |s.online| == MAX_USERS && (forall i :: 0 <= i < MAX_USERS ==> s.online[i] == EMPTY_ENTRY)
    && |s.pending| == |s.origin| == MAX_TRANSFERS
    && (forall i :: 0 <= i < MAX_TRANSFERS ==> s.pending[i] == EMPTY_SLOT)
    && s.counter == 0 && s.sessions == map[] && s.terms == [] && s.histories == []
  }

  datatype Action =
    | Login(user: string)
    | Notify
    | Target(dest: string, filename: string)
    | Create
    | Accept(id: int)
    | Reject(id: int)
    | CleanUp
    | Deactivate

  // ---------------------------------------------------------------- steps on the slots

  function Occupied(r: TransferRequest): bool { r.status != FREE }

  /** The event a slot goes through in a step of `user`, if any. */
  function EventOf(p: seq<TransferRequest>, i: nat, user: string, a: Action): Option<Kind>
    requires i < |p|
  {
    match a
    case Notify =>
      if IsNewFor(p[i], user) then Some(Announced)
      else if IsRejectionFor(p[i], user) then Some(Returned)
      else None
    case Accept(id) => if i == FirstAcceptable(p, id, user) then Some(Accepted) else None
    case Reject(id) =>
      // rejecting a slot that is already REJECTED (reject 0 finds one) changes nothing
      if i == FirstNamed(p, id) && p[i].receiver == user && p[i].status != REJECTED then Some(Rejected) else None
    case CleanUp => if Occupied(p[i]) && p[i].receiver == user then Some(Dropped) else None
    case _ => None
  }

  function Slots(p: seq<TransferRequest>, user: string, a: Action): seq<TransferRequest> {
    match a
    case Notify => NotifyAll(p, user)
    case Accept(id) => AcceptSlot(p, id, user)
    case Reject(id) => RejectSlot(p, id, user)
    case CleanUp => CleanAll(p, user)
    case _ => p
  }

  /** The occupied slot issued under `id`, or the number of slots. */
  function SlotOf(p: seq<TransferRequest>, origin: seq<nat>, id: nat): (k: nat)
    requires |p| == |origin|
    ensures k <= |p|
    ensures k < |p| ==> Occupied(p[k]) && origin[k] == id
    ensures forall i :: 0 <= i < k ==> !(Occupied(p[i]) && origin[i] == id)
  {
    if p == [] || (Occupied(p[0]) && origin[0] == id) then 0 else 1 + SlotOf(p[1..], origin[1..], id)
  }

  /** What a step appends to the history of `id`. */
  function News(s: State, user: string, pid: Pid, a: Action, id: nat): seq<Event>
    requires |s.pending| == |s.origin|
  {
    var k := SlotOf(s.pending, s.origin, id);
    if k == |s.pending| then []
    else
      match EventOf(s.pending, k, user, a)
      case None => []
      case Some(kind) => [Event(kind, pid)]
  }

  function WithNews(s: State, user: string, pid: Pid, a: Action): State
    requires |s.pending| == |s.origin|
  {
    s.(pending := Slots(s.pending, user, a),
    histories := seq(|s.histories|, k requires 0 <= k < |s.histories| =>
      s.histories[k] + News(s, user, pid, a, k + 1)))
  }

  function WithPhase(s: State, pid: Pid, phase: Phase): State
    requires pid in s.sessions
  {
    s.(sessions := s.sessions[pid := s.sessions[pid].(phase := phase)])
  }

  /** `transfer_request`'s second section; with every slot taken it only reports an error. */
  function Created(s: State, pid: Pid, sender: string, dest: string, filename: string): State
    requires |s.pending| == |s.origin|
  {
    var k := FirstFree(s.pending);
    if k == |s.pending| then s
    else
      s.(pending := CreateSlot(s.pending, s.counter + 1, sender, dest, filename),
      counter := s.counter + 1,
      origin := s.origin[k := s.counter + 1],
      terms := s.terms + [Terms(sender, dest, filename)],
      histories := s.histories + [[Event(Issued, pid)]])
  }

  predicate Enabled(s: State, pid: Pid, a: Action) {
    && |s.pending| == |s.origin|
    && match a
       // a handler's pid is fresh when it logs in
       case Login(_) => pid != 0 && pid !in s.sessions
       case Target(dest, _) => pid in s.sessions && s.sessions[pid].phase == Active && OnlinePid(s.online, dest) != 0
       case Create => pid in s.sessions && s.sessions[pid].phase.Targeted?
       case Deactivate => pid in s.sessions && s.sessions[pid].phase == CleanedUp
       case _ => pid in s.sessions && s.sessions[pid].phase == Active
  }

  function Apply(s: State, pid: Pid, a: Action): State
    requires Enabled(s, pid, a)
  {
    match a
    case Login(user) =>
      s.(sessions := s.sessions[pid := Session(user, Active)], online := LoginEntry(s.online, user, pid))
    case Target(dest, filename) => WithPhase(s, pid, Targeted(dest, filename))
    case Create =>
      var session := s.sessions[pid];
      WithPhase(Created(s, pid, session.user, session.phase.dest, session.phase.filename), pid, Active)
    case Deactivate => WithPhase(s, pid, Gone).(online := LogoutEntry(s.online, pid))
    case CleanUp => WithPhase(WithNews(s, s.sessions[pid].user, pid, a), pid, CleanedUp)
    case _ => WithNews(s, s.sessions[pid].user, pid, a)
  }

  predicate Step(s: State, pid: Pid, a: Action, s': State) {
    Enabled(s, pid, a) && s' == Apply(s, pid, a)
  }

  ghost predicate Next(s: State, s': State) {
    exists pid, a :: Step(s, pid, a, s')
  }

  ghost predicate Run(run: seq<State>) {
    IsRun(Init, Next, run)
  }

  // ---------------------------------------------------------------- the life of a request

  datatype Fate = Unissued | Open(announced: bool) | Refused | Taken | Answered | Lost | Impossible

  /** The only ways a request may go on. */
  function Follow(f: Fate, kind: Kind): Fate {
    match (f, kind)
    case (Unissued, Issued) => Open(false)
    case (Open(false), Announced) => Open(true)
    case (Open(true), Accepted) => Taken
    case (Open(_), Rejected) => Refused
    case (Open(_), Dropped) => Lost
    case (Refused, Returned) => Answered
    case (Refused, Dropped) => Lost
    case _ => Impossible
  }

  function FateOf(h: seq<Event>): Fate {
    if h == [] then Unissued else Follow(FateOf(h[..|h| - 1]), h[|h| - 1].kind)
  }

  function FateOfSlot(r: TransferRequest): Fate {
    match r.status
    case FREE => Impossible
    case PENDING => Open(false)
    case NOTIFIED => Open(true)
    case REJECTED => Refused
  }

  predicate Final(f: Fate) {
    f == Taken || f == Answered || f == Lost
  }

  /** The user on whose behalf an event may happen. */
  function RoleOf(kind: Kind, t: Terms): string {
    if kind == Issued || kind == Returned then t.sender else t.receiver
  }

  // ---------------------------------------------------------------- the invariant

  ghost predicate Shaped(s: State) {
    |s.pending| == |s.origin| == MAX_TRANSFERS && |s.terms| == |s.histories| == s.counter
  }

  /** The registry invariant: ids and statuses of the slots. */
  ghost predicate SlotOk(s: State, i: nat)
    requires Shaped(s) && i < MAX_TRANSFERS
  {
    var r := s.pending[i];
    && (r.status == FREE || r.status == REJECTED ==> r.id == 0)
    && (r.status == PENDING || r.status == NOTIFIED ==> r.id == s.origin[i])
    && (Occupied(r) ==>
      && 1 <= s.origin[i] <= s.counter
      && s.terms[s.origin[i] - 1] == Terms(r.sender, r.receiver, r.filename)
      && FateOf(s.histories[s.origin[i] - 1]) == FateOfSlot(r))
  }

  ghost predicate Distinct(s: State)
    requires Shaped(s)
  {
    forall i, j :: 0 <= i < j < MAX_TRANSFERS && Occupied(s.pending[i]) && Occupied(s.pending[j])
      ==> s.origin[i] != s.origin[j]
  }

  /** A request without a slot has come to one of its three ends. */
  ghost predicate HistoryOk(s: State, id: nat)
    requires Shaped(s) && 1 <= id <= s.counter
  {
    && (SlotOf(s.pending, s.origin, id) == MAX_TRANSFERS ==> Final(FateOf(s.histories[id - 1])))
    && EventsOk(s.sessions, s.histories[id - 1], s.terms[id - 1])
  }

  /** Every event was the doing of a session of the user it belongs to. */
  ghost predicate EventsOk(sessions: map<Pid, Session>, h: seq<Event>, t: Terms) {
    forall k :: 0 <= k < |h| ==> h[k].pid in sessions && sessions[h[k].pid].user == RoleOf(h[k].kind, t)
  }

  ghost predicate Inv(s: State) {
    && Shaped(s)
    && (forall i: nat :: i < MAX_TRANSFERS ==> SlotOk(s, i))
    && Distinct(s)
    && (forall id :: 1 <= id <= s.counter ==> HistoryOk(s, id))
  }

  lemma InitInv(s: State)
    requires Init(s)
    ensures Inv(s)
  {
  }

  // ---------------------------------------------------------------- one slot

  /** What a step does to one slot, said without the loop that does it. */
  ghost predicate SlotMoved(old_: TransferRequest, event: Option<Kind>, new_: TransferRequest, user: string) {
    match event
    case None => new_ == old_
    case Some(kind) =>
      && Occupied(old_)
      && RoleOf(kind, Terms(old_.sender, old_.receiver, old_.filename)) == user
      && if Occupied(new_) then
           && FateOfSlot(new_) == Follow(FateOfSlot(old_), kind)
           && (new_.sender, new_.receiver, new_.filename) == (old_.sender, old_.receiver, old_.filename)
           && new_.id == if new_.status == REJECTED then 0 else old_.id
         else
           new_.id == 0 && Final(Follow(FateOfSlot(old_), kind))
  }

  predicate OnSlots(a: Action) {
    a == Notify || a.Accept? || a.Reject? || a == CleanUp
  }

  lemma SlotMoves(p: seq<TransferRequest>, i: nat, user: string, a: Action)
    requires i < |p| && OnSlots(a)
    requires p[i].status == FREE || p[i].status == REJECTED ==> p[i].id == 0
    ensures |Slots(p, user, a)| == |p|
    ensures SlotMoved(p[i], EventOf(p, i, user, a), Slots(p, user, a)[i], user)
  {
    match a
    case Reject(id) =>
      if FirstNamed(p, id) == i && p[i].status == REJECTED {
        assert p[i].(status := REJECTED, id := 0) == p[i];
      }
    case _ =>
  }

  lemma SlotOfUnique(s: State, i: nat)
    requires Shaped(s) && Distinct(s) && i < MAX_TRANSFERS && Occupied(s.pending[i])
    ensures SlotOf(s.pending, s.origin, s.origin[i]) == i
  {
    var k := SlotOf(s.pending, s.origin, s.origin[i]);
    assert k <= i;
  }

  lemma FateAfter(h: seq<Event>, e: Event)
    ensures FateOf(h + [e]) == Follow(FateOf(h), e.kind)
  {
    assert (h + [e])[..|h|] == h;
  }

  // ---------------------------------------------------------------- steps on slots keep the invariant

  /** What a step appends to the history of a request that has a slot. */
  lemma NewsOfLive(s: State, user: string, pid: Pid, a: Action, id: nat, k: nat)
    requires Shaped(s) && 1 <= id <= s.counter && k == SlotOf(s.pending, s.origin, id) < MAX_TRANSFERS
    requires EventsOk(s.sessions, s.histories[id - 1], s.terms[id - 1])
    requires pid in s.sessions
    ensures var h, h' := s.histories[id - 1], WithNews(s, user, pid, a).histories[id - 1];
            match EventOf(s.pending, k, user, a)
            case None => h' == h
            case Some(kind) =>
              && FateOf(h') == Follow(FateOf(h), kind)
              && (s.sessions[pid].user == RoleOf(kind, s.terms[id - 1]) ==> EventsOk(s.sessions, h', s.terms[id - 1]))
  {
    var h, event := s.histories[id - 1], EventOf(s.pending, k, user, a);
    var h' := WithNews(s, user, pid, a).histories[id - 1];
    assert h' == h + News(s, user, pid, a, id);
    hide WithNews, Slots, EventOf, SlotOf, Shaped;
    if event.Some? {
      assert h' == h + [Event(event.value, pid)];
      hide News;
      FateAfter(h, Event(event.value, pid));
      hide FateOf;
    } else {
      assert h + [] == h;
    }
  }

  lemma NewsKeepSlot(s: State, user: string, pid: Pid, a: Action, i: nat)
    requires Inv(s) && OnSlots(a) && i < MAX_TRANSFERS && pid in s.sessions
    ensures var s' := WithNews(s, user, pid, a);
            Shaped(s') && SlotOk(s', i) && (Occupied(s'.pending[i]) ==> Occupied(s.pending[i]))
  {
    var s' := WithNews(s, user, pid, a);
    assert SlotOk(s, i);
    hide FateOf, EventsOk, EventOf, SlotOf, News;
    SlotMoves(s.pending, i, user, a);
    NewsFrame(s, user, pid, a);
    assert s'.pending[i] == Slots(s.pending, user, a)[i];
    if Occupied(s.pending[i]) {
      SlotOfUnique(s, i);
      assert HistoryOk(s, s.origin[i]);
      NewsOfLive(s, user, pid, a, s.origin[i], i);
    }
    assert Shaped(s) && Shaped(s');
    hide WithNews, Slots, Inv, HistoryOk;
    MovedSlotOk(s, s', i, user, EventOf(s.pending, i, user, a));
  }

  /** A slot that moved as its event says, with a history that did too. */
  lemma MovedSlotOk(s: State, s': State, i: nat, user: string, event: Option<Kind>)
    requires Shaped(s) && Shaped(s') && i < MAX_TRANSFERS && SlotOk(s, i)
    requires s'.origin == s.origin && s'.counter == s.counter && s'.terms == s.terms
    requires SlotMoved(s.pending[i], event, s'.pending[i], user)
    requires Occupied(s.pending[i]) ==>
      var h, h' := s.histories[s.origin[i] - 1], s'.histories[s.origin[i] - 1];
      match event
      case None => h' == h
      case Some(kind) => FateOf(h') == Follow(FateOf(h), kind)
    ensures SlotOk(s', i) && (Occupied(s'.pending[i]) ==> Occupied(s.pending[i]))
  {
    hide FateOf;
  }

  lemma NewsKeepLive(s: State, user: string, pid: Pid, a: Action, id: nat, k: nat)
    requires Inv(s) && OnSlots(a) && 1 <= id <= s.counter && k == SlotOf(s.pending, s.origin, id) < MAX_TRANSFERS
    requires pid in s.sessions && s.sessions[pid].user == user
    ensures Shaped(WithNews(s, user, pid, a)) && HistoryOk(WithNews(s, user, pid, a), id)
  {
    var s' := WithNews(s, user, pid, a);
    NewsKeepSlot(s, user, pid, a, k);
    assert HistoryOk(s, id) && SlotOk(s, k);
    SlotMoves(s.pending, k, user, a);
    NewsOfLive(s, user, pid, a, id, k);
    NewsFrame(s, user, pid, a);
    assert s'.pending[k] == Slots(s.pending, user, a)[k];
    hide WithNews, Slots, EventOf, Inv, FateOf, EventsOk;
  }

  lemma NewsKeepSettled(s: State, user: string, pid: Pid, a: Action, id: nat)
    requires Inv(s) && 1 <= id <= s.counter && SlotOf(s.pending, s.origin, id) == MAX_TRANSFERS
    requires Shaped(WithNews(s, user, pid, a))
    ensures HistoryOk(WithNews(s, user, pid, a), id)
  {
    assert HistoryOk(s, id);
    assert s.histories[id - 1] + [] == s.histories[id - 1];
    hide Slots, EventOf, Inv, FateOf;
  }

  lemma NewsKeepInv(s: State, user: string, pid: Pid, a: Action)
    requires Inv(s) && OnSlots(a)
    requires pid in s.sessions && s.sessions[pid].user == user
    ensures Inv(WithNews(s, user, pid, a))
  {
    var s' := WithNews(s, user, pid, a);
    hide WithNews;
    forall i: nat | i < MAX_TRANSFERS
      ensures Shaped(s') && SlotOk(s', i) && (Occupied(s'.pending[i]) ==> Occupied(s.pending[i]))
    {
      NewsKeepSlot(s, user, pid, a, i);
    }
    assert s'.origin == s.origin && s'.counter == s.counter by {
      NewsFrame(s, user, pid, a);
    }
    forall id | 1 <= id <= s'.counter ensures HistoryOk(s', id) {
      if SlotOf(s.pending, s.origin, id) < MAX_TRANSFERS {
        NewsKeepLive(s, user, pid, a, id, SlotOf(s.pending, s.origin, id));
      } else {
        NewsKeepSettled(s, user, pid, a, id);
      }
    }
  }

  lemma NewsFrame(s: State, user: string, pid: Pid, a: Action)
    requires |s.pending| == |s.origin|
    ensures var s' := WithNews(s, user, pid, a);
            s'.origin == s.origin && s'.counter == s.counter && s'.sessions == s.sessions
            && s'.online == s.online && s'.terms == s.terms
  {
  }

  // ---------------------------------------------------------------- issuing

  lemma CreatedKeepsInv(s: State, pid: Pid, sender: string, dest: string, filename: string)
    requires Inv(s) && pid in s.sessions && s.sessions[pid].user == sender
    ensures Inv(Created(s, pid, sender, dest, filename))
  {
    var s' := Created(s, pid, sender, dest, filename);
    var k := FirstFree(s.pending);
    if k < MAX_TRANSFERS {
      var c := s.counter + 1;
      assert s'.histories[c - 1] == [Event(Issued, pid)];
      assert FateOf([Event(Issued, pid)]) == Open(false) by {
        FateAfter([], Event(Issued, pid));
        assert [] + [Event(Issued, pid)] == [Event(Issued, pid)];
      }
      forall i: nat | i < MAX_TRANSFERS ensures SlotOk(s', i) {
        assert SlotOk(s, i);
      }
      forall i, j | 0 <= i < j < MAX_TRANSFERS && Occupied(s'.pending[i]) && Occupied(s'.pending[j])
        ensures s'.origin[i] != s'.origin[j]
      {
        assert SlotOk(s, i) && SlotOk(s, j);
      }
      forall id | 1 <= id <= s'.counter ensures HistoryOk(s', id) {
        CreatedKeepsHistory(s, pid, sender, dest, filename, id);
      }
    }
  }

  lemma CreatedKeepsHistory(s: State, pid: Pid, sender: string, dest: string, filename: string, id: nat)
    requires Inv(s) && pid in s.sessions && s.sessions[pid].user == sender
    requires FirstFree(s.pending) < MAX_TRANSFERS && 1 <= id <= s.counter + 1
    ensures var s' := Created(s, pid, sender, dest, filename); Shaped(s') && HistoryOk(s', id)
  {
    var s' := Created(s, pid, sender, dest, filename);
    var k := FirstFree(s.pending);
    if id == s.counter + 1 {
      assert Occupied(s'.pending[k]) && s'.origin[k] == id;
    } else {
      assert HistoryOk(s, id);
      var j := SlotOf(s.pending, s.origin, id);
      if j < MAX_TRANSFERS {
        assert j != k && s'.pending[j] == s.pending[j] && s'.origin[j] == id;
      }
    }
  }

  // ---------------------------------------------------------------- all steps

  /** Sessions are only added, and keep their user. */
  ghost predicate SessionsGrow(before: map<Pid, Session>, after: map<Pid, Session>) {
    forall pid :: pid in before ==> pid in after && after[pid].user == before[pid].user
  }

  lemma SessionsKeepInv(s: State, s': State)
    requires Inv(s) && SessionsGrow(s.sessions, s'.sessions)
    requires s' == s.(sessions := s'.sessions, online := s'.online)
    ensures Inv(s')
  {
    forall i: nat | i < MAX_TRANSFERS ensures SlotOk(s', i) {
      assert SlotOk(s, i);
    }
    forall id | 1 <= id <= s'.counter ensures HistoryOk(s', id) {
      assert HistoryOk(s, id);
    }
  }

  lemma StepKeepsInv(s: State, pid: Pid, a: Action, s': State)
    requires Step(s, pid, a, s') && Inv(s)
    ensures Inv(s') && SessionsGrow(s.sessions, s'.sessions)
  {
    match a
    case Create =>
      var session := s.sessions[pid];
      CreatedKeepsInv(s, pid, session.user, session.phase.dest, session.phase.filename);
      hide Inv;
      SessionsKeepInv(Created(s, pid, session.user, session.phase.dest, session.phase.filename), s');
    case CleanUp =>
      NewsKeepInv(s, s.sessions[pid].user, pid, a);
      NewsFrame(s, s.sessions[pid].user, pid, a);
      hide Inv, WithNews;
      SessionsKeepInv(WithNews(s, s.sessions[pid].user, pid, a), s');
    case Login(_) => hide Inv; SessionsKeepInv(s, s');
    case Target(_, _) => hide Inv; SessionsKeepInv(s, s');
    case Deactivate => hide Inv; SessionsKeepInv(s, s');
    case _ =>
      NewsKeepInv(s, s.sessions[pid].user, pid, a);
      NewsFrame(s, s.sessions[pid].user, pid, a);
  }
}
