/** What the notification snapshots have to do with the recorded lives of the requests. */
module TransferNotices {
  import opened Runs
  import opened Registry
  import opened TransferRuns
  import opened TransferTheorems

  /** A line of the snapshot about `id`. */
  ghost predicate Tells(s: State, user: string, n: nat, id: nat, rejection: bool)
    requires Shaped(s)
  {
    var slots := NoticeSlots(s.pending, user);
    n < |slots| && s.origin[slots[n]] == id && SnapshotOf(s.pending, user)[n].isRejection == rejection
  }

  lemma NoticeHasNews(s: State, pid: Pid, n: nat, id: nat, rejection: bool)
    requires Inv(s) && Enabled(s, pid, Notify) && 1 <= id <= s.counter
    requires Tells(s, s.sessions[pid].user, n, id, rejection)
    ensures News(s, s.sessions[pid].user, pid, Notify, id) == [Event(if rejection then Returned else Announced, pid)]
    ensures n < |SnapshotOf(s.pending, s.sessions[pid].user)|
    ensures !rejection ==> SnapshotOf(s.pending, s.sessions[pid].user)[n].request.id == id
  {
    var i := NoticeSlots(s.pending, s.sessions[pid].user)[n];
    assert SlotOk(s, i);
    hide FateOf;
    SlotOfUnique(s, i);
  }

  lemma NewsHasNotice(s: State, pid: Pid, id: nat) returns (n: nat)
    requires Inv(s) && Enabled(s, pid, Notify) && 1 <= id <= s.counter
    requires News(s, s.sessions[pid].user, pid, Notify, id) != []
    ensures Tells(s, s.sessions[pid].user, n, id,
                  News(s, s.sessions[pid].user, pid, Notify, id) == [Event(Returned, pid)])
  {
    var user := s.sessions[pid].user;
    var k := SlotOf(s.pending, s.origin, id);
    AllNoticed(s.pending, user, k);
    hide Inv, FateOf;
    n :| 0 <= n < |NoticeSlots(s.pending, user)| && NoticeSlots(s.pending, user)[n] == k;
  }

  lemma OneNotice(s: State, user: string, m: nat, n: nat, id: nat, first: bool, second: bool)
    requires Inv(s) && Tells(s, user, m, id, first) && Tells(s, user, n, id, second)
    ensures m == n
  {
    var slots := NoticeSlots(s.pending, user);
    var i, j := slots[m], slots[n];
    hide NoticeSlots;
    assert Occupied(s.pending[i]) && Occupied(s.pending[j]);
    SlotOfUnique(s, i);
    SlotOfUnique(s, j);
  }

  /**
   A snapshot has a line for a request exactly when the step records that the request was
   announced, or its rejection reported, to this session, and never two lines for one.
   */
  lemma NoticesAreEvents(s: State, pid: Pid, id: nat, rejection: bool)
    requires Inv(s) && Enabled(s, pid, Notify) && 1 <= id <= s.counter
    ensures var user, s' := s.sessions[pid].user, Apply(s, pid, Notify);
            && Shaped(s')
            && ((exists n: nat :: Tells(s, user, n, id, rejection)) <==>
                s'.histories[id - 1] == s.histories[id - 1] + [Event(if rejection then Returned else Announced, pid)])
            && (forall m: nat, n: nat ::
                Tells(s, user, m, id, rejection) && Tells(s, user, n, id, rejection) ==> m == n)
            && |SnapshotOf(s.pending, user)| <= MAX_TRANSFERS
  {
    var user, s' := s.sessions[pid].user, Apply(s, pid, Notify);
    var news := News(s, user, pid, Notify, id);
    assert Shaped(s') && s'.histories[id - 1] == s.histories[id - 1] + news by {
      hide Inv, News;
    }
    assert news == [] || news == [Event(Announced, pid)] || news == [Event(Returned, pid)] by {
      hide Inv;
    }
    hide Inv, Apply, News, SnapshotOf, Tells, Enabled;
    if n: nat :| Tells(s, user, n, id, rejection) {
      NoticeHasNews(s, pid, n, id, rejection);
    }
    if news == [Event(if rejection then Returned else Announced, pid)] {
      var n := NewsHasNotice(s, pid, id);
    }
    Suffix(s.histories[id - 1], news, [Event(if rejection then Returned else Announced, pid)]);
    forall m: nat, n: nat | Tells(s, user, m, id, rejection) && Tells(s, user, n, id, rejection) ensures m == n {
      OneNotice(s, user, m, n, id, rejection, rejection);
    }
  }

  lemma Suffix(h: seq<Event>, a: seq<Event>, b: seq<Event>)
    ensures h + a == h + b <==> a == b
  {
    if h + a == h + b {
      assert (h + a)[|h|..] == a && (h + b)[|h|..] == b;
    }
  }

  // ---------------------------------------------------------------- over whole runs

  ghost predicate ToldBy(s: State, s': State, pid: Pid, n: nat, id: nat, rejection: bool) {
    Step(s, pid, Notify, s') && Shaped(s) && Tells(s, s.sessions[pid].user, n, id, rejection)
  }

  /** The step is a notification of some session, with a line about `id`. */
  ghost predicate Told(s: State, s': State, id: nat, rejection: bool) {
    exists pid, n: nat :: ToldBy(s, s', pid, n, id, rejection)
  }

  lemma OnlyNotifyTells(s: State, user: string, pid: Pid, a: Action, id: nat, kind: Kind)
    requires |s.pending| == |s.origin| && News(s, user, pid, a, id) == [Event(kind, pid)]
    ensures kind == Announced || kind == Returned ==> a == Notify
  {
  }

  /** What one step does to a history. */
  lemma NewEvent(s: State, pid: Pid, a: Action, s': State, id: nat)
    requires Step(s, pid, a, s') && Shaped(s) && Shaped(s') && 1 <= id <= s'.counter
    ensures id > s.counter ==> s'.histories[id - 1] == [Event(Issued, pid)]
    ensures id <= s.counter ==>
      s'.histories[id - 1] == s.histories[id - 1]
      || (OnSlots(a) && s'.histories[id - 1] == s.histories[id - 1] + News(s, s.sessions[pid].user, pid, a, id))
  {
    hide News, Slots, Shaped;
    assert |s.histories| == s.counter && |s'.histories| == s'.counter by {
      assert Shaped(s) && Shaped(s');
      ShapedSizes(s);
      ShapedSizes(s');
    }
  }

  lemma ShapedSizes(s: State)
    requires Shaped(s)
    ensures |s.histories| == s.counter
  {
  }

  lemma NewsIsShort(s: State, user: string, pid: Pid, a: Action, id: nat)
    requires |s.pending| == |s.origin|
    ensures var news := News(s, user, pid, a, id); news == [] || (|news| == 1 && news[0].pid == pid)
  {
  }

  lemma NewNotice(s: State, s': State, id: nat, k: nat)
    requires Next(s, s') && Inv(s) && Shaped(s') && 1 <= id <= s'.counter
    requires k < |s'.histories[id - 1]| && (id <= s.counter ==> |s.histories[id - 1]| <= k)
    requires s'.histories[id - 1][k].kind == Announced || s'.histories[id - 1][k].kind == Returned
    ensures Told(s, s', id, s'.histories[id - 1][k].kind == Returned)
  {
    var pid, a :| Step(s, pid, a, s');
    assert Shaped(s);
    NewEvent(s, pid, a, s', id);
    var e := s'.histories[id - 1][k];
    hide Inv;
    assert id <= s.counter && pid in s.sessions;
    var user := s.sessions[pid].user;
    NewsIsShort(s, user, pid, a, id);
    assert News(s, user, pid, a, id) == [e] && e == Event(e.kind, pid);
    OnlyNotifyTells(s, user, pid, a, id, e.kind);
    hide News, Tells, Step, Shaped, Enabled;
    assert Enabled(s, pid, Notify);
    var n := NewsHasNotice(s, pid, id);
    assert ToldBy(s, s', pid, n, id, e.kind == Returned);
  }

  /**
   Every announcement, and every report of a rejection, on record was a line in the snapshot
   of some earlier step of the run. With RequestLife: what was accepted had first been in a
   snapshot of a session of its receiver.
   */
  lemma {:induction false} RecordedMeansTold(run: seq<State>, id: nat, k: nat)
    requires Run(run) && 1 <= id <= Last(run).counter
    requires |Last(run).histories| == Last(run).counter && k < |Last(run).histories[id - 1]|
    requires Last(run).histories[id - 1][k].kind == Announced || Last(run).histories[id - 1][k].kind == Returned
    ensures exists j :: 0 < j < |run| && Told(run[j - 1], run[j], id, Last(run).histories[id - 1][k].kind == Returned)
    decreases |run|
  {
    if |run| > 1 {
      hide Inv, Told, Init, Next, Shaped;
      InvAt(run, |run| - 1);
      InvAt(run, |run| - 2);
      var s, s' := run[|run| - 2], Last(run);
      ShapedBoth(s);
      var before := run[..|run| - 1];
      PrefixIsRun(Init, Next, run, |run| - 1);
      assert StepAt(Next, run, |run| - 1);
      assert Last(before) == s;
      if id <= s.counter && k < |s.histories[id - 1]| {
        StepGrows(s, s', id);
        RecordedMeansTold(before, id, k);
        var j :| 0 < j < |before| && Told(before[j - 1], before[j], id, s.histories[id - 1][k].kind == Returned);
        assert Told(run[j - 1], run[j], id, s'.histories[id - 1][k].kind == Returned);
      } else {
        NewNotice(s, s', id, k);
        assert Told(run[|run| - 2], run[|run| - 1], id, s'.histories[id - 1][k].kind == Returned);
      }
    }
  }

  /** The id and the receiver of the request a line tells of. */
  lemma ToldOfIssued(s: State, s': State, pid: Pid, n: nat, id: nat, rejection: bool)
    requires ToldBy(s, s', pid, n, id, rejection) && Inv(s)
    ensures 1 <= id <= s.counter && pid in s.sessions
    ensures !rejection ==> s.terms[id - 1].receiver == s.sessions[pid].user
    ensures Shaped(s')
    ensures s'.histories[id - 1] == s.histories[id - 1] + [Event(if rejection then Returned else Announced, pid)]
  {
    var user := s.sessions[pid].user;
    TellsOfIssued(s, user, n, id, rejection);
    hide Inv, News, SnapshotOf, Tells, SlotOk;
    NoticesAreEvents(s, pid, id, rejection);
  }

  lemma TellsOfIssued(s: State, user: string, n: nat, id: nat, rejection: bool)
    requires Inv(s) && Tells(s, user, n, id, rejection)
    ensures 1 <= id <= s.counter
    ensures !rejection ==> s.terms[id - 1].receiver == user
  {
    var i := NoticeSlots(s.pending, user)[n];
    hide NoticeSlots, FateOf;
    assert SlotOk(s, i);
  }

  lemma {:induction false} KindsAt(h: seq<Event>, n: nat)
    requires n < |h|
    ensures Kinds(h)[n] == h[n].kind
    decreases |h|
  {
    if n < |h| - 1 {
      KindsAt(h[..|h| - 1], n);
    }
  }

  lemma InvAt(run: seq<State>, k: nat)
    requires Run(run) && k < |run|
    ensures Inv(run[k]) && Shaped(run[k])
  {
    PrefixIsRun(Init, Next, run, k + 1);
    RunInv(run[..k + 1]);
    assert run[k] == Last(run[..k + 1]);
  }

  /** A line in the snapshot of step `j` is on record at its place from then on. */
  lemma ToldIsRecorded(run: seq<State>, j: nat, id: nat, rejection: bool) returns (n: nat)
    requires Run(run) && 0 < j < |run| && Told(run[j - 1], run[j], id, rejection)
    ensures Shaped(run[j - 1]) && Shaped(run[j]) && Shaped(Last(run)) && 1 <= id <= run[j - 1].counter
    ensures run[j - 1].counter <= run[j].counter <= Last(run).counter
    ensures n == |run[j - 1].histories[id - 1]| < |run[j].histories[id - 1]|
    ensures n < |Last(run).histories[id - 1]|
    ensures Kinds(Last(run).histories[id - 1])[n] == if rejection then Returned else Announced
  {
    hide Inv, Told, Run, Kinds;
    InvAt(run, j - 1);
    InvAt(run, |run| - 1);
    var e := ToldEvent(run[j - 1], run[j], id, rejection);
    ShapedBoth(run[j - 1]);
    ShapedBoth(run[j]);
    hide Shaped;
    n := |run[j - 1].histories[id - 1]|;
    HistoryGrows(run, j - 1, j, id);
    HistoryGrows(run, j, |run| - 1, id);
    ThenRecorded(run[j - 1].histories[id - 1], e, run[j].histories[id - 1], Last(run).histories[id - 1]);
  }

  lemma ToldEvent(s: State, s': State, id: nat, rejection: bool) returns (e: Event)
    requires Told(s, s', id, rejection) && Inv(s)
    ensures Shaped(s) && Shaped(s') && 1 <= id <= s.counter
    ensures e.kind == (if rejection then Returned else Announced)
    ensures s'.histories[id - 1] == s.histories[id - 1] + [e]
  {
    var pid, m: nat :| ToldBy(s, s', pid, m, id, rejection);
    InvIsShaped(s);
    hide Inv, ToldBy, Shaped;
    ToldOfIssued(s, s', pid, m, id, rejection);
    e := Event(if rejection then Returned else Announced, pid);
  }

  lemma InvIsShaped(s: State)
    requires Inv(s)
    ensures Shaped(s)
  {
  }

  lemma ThenRecorded(h: seq<Event>, e: Event, h': seq<Event>, last: seq<Event>)
    requires h' == h + [e] && h' <= last
    ensures |h| < |last| && Kinds(last)[|h|] == e.kind
  {
    hide Kinds;
    assert last[|h|] == h'[|h|] == e;
    KindsAt(last, |h|);
  }

  lemma NotToldAgain(run: seq<State>, j: nat, k: nat, id: nat, rejection: bool)
    requires Run(run) && 0 < j < k < |run| && Told(run[j - 1], run[j], id, rejection)
    ensures !Told(run[k - 1], run[k], id, rejection)
  {
    hide Told, Run, Kinds, PossibleLife, Shaped;
    var m := ToldIsRecorded(run, j, id, rejection);
    InvAt(run, j);
    ShapedBoth(run[j]);
    HistoryGrows(run, j, k - 1, id);
    RequestLife(run, id);
    LifeFacts(Kinds(Last(run).histories[id - 1]), m);
    if Told(run[k - 1], run[k], id, rejection) {
      var n := ToldIsRecorded(run, k, id, rejection);
    }
  }

  /**
   Each request is in the snapshot of at most one step of a run as new, and in that of at
   most one step as rejected.
   */
  lemma ToldOnce(run: seq<State>, j: nat, k: nat, id: nat, rejection: bool)
    requires Run(run) && 0 < j < |run| && 0 < k < |run|
    requires Told(run[j - 1], run[j], id, rejection) && Told(run[k - 1], run[k], id, rejection)
    ensures j == k
  {
    hide Told, Run;
    if j < k {
      NotToldAgain(run, j, k, id, rejection);
    } else if k < j {
      NotToldAgain(run, k, j, id, rejection);
    }
  }

  // ---------------------------------------------------------------- before the acceptance

  /** The step records that `id` was accepted. */
  ghost predicate AcceptedBy(s: State, s': State, id: nat) {
    && Shaped(s) && Shaped(s') && 1 <= id <= s.counter <= s'.counter
    && exists pid :: s'.histories[id - 1] == s.histories[id - 1] + [Event(Accepted, pid)]
  }

  /** The last thing recorded before an acceptance was the announcement. */
  lemma AnnouncedBefore(run: seq<State>, k: nat, id: nat)
    requires Run(run) && 0 < k < |run| && AcceptedBy(run[k - 1], run[k], id)
    ensures var h := run[k - 1].histories[id - 1]; h != [] && h[|h| - 1].kind == Announced
  {
    var h, h' := run[k - 1].histories[id - 1], run[k].histories[id - 1];
    var upto := run[..k + 1];
    PrefixIsRun(Init, Next, run, k + 1);
    hide Run, Kinds, PossibleLife;
    assert Last(upto) == run[k] && |h'| == |h| + 1 && h'[..|h|] == h;
    RequestLife(upto, id);
    KindsAt(h', |h|);
    LifeFacts(Kinds(h'), |h|);
    KindsAt(h', |h| - 1);
  }

  /** A step before `k` told a session of the receiver that the request is there. */
  ghost predicate ReceiverTold(run: seq<State>, j: nat, k: nat, id: nat, pid: Pid, n: nat)
    requires k < |run|
  {
    && 0 < j < k && ToldBy(run[j - 1], run[j], pid, n, id, false)
    && Shaped(run[k]) && 1 <= id <= run[k].counter
    && run[j - 1].sessions[pid].user == run[k].terms[id - 1].receiver
  }

  /** What is accepted was in the snapshot of a session of its receiver before. */
  lemma AcceptedWasTold(run: seq<State>, k: nat, id: nat) returns (j: nat, pid: Pid, n: nat)
    requires Run(run) && 0 < k < |run| && AcceptedBy(run[k - 1], run[k], id)
    ensures ReceiverTold(run, j, k, id, pid, n)
  {
    AnnouncedBefore(run, k, id);
    var before := run[..k];
    PrefixIsRun(Init, Next, run, k);
    assert Last(before) == run[k - 1];
    hide Run, AcceptedBy, Told;
    RecordedMeansTold(before, id, |run[k - 1].histories[id - 1]| - 1);
    j :| 0 < j < k && Told(before[j - 1], before[j], id, false);
    pid, n := ToReceiver(run, j, k, id);
  }

  lemma ToReceiver(run: seq<State>, j: nat, k: nat, id: nat) returns (pid: Pid, n: nat)
    requires Run(run) && 0 < j < k < |run| && Told(run[j - 1], run[j], id, false)
    ensures ReceiverTold(run, j, k, id, pid, n)
  {
    pid, n :| ToldBy(run[j - 1], run[j], pid, n, id, false);
    InvAt(run, j - 1);
    InvAt(run, k);
    hide Run, Inv, ToldBy;
    ToldOfIssued(run[j - 1], run[j], pid, n, id, false);
    HistoryGrows(run, j - 1, k, id);
  }

  lemma ShapedBoth(s: State)
    requires Shaped(s)
    ensures |s.histories| == |s.terms| == s.counter
  {
  }
}
