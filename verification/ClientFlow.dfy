/**
 The client's two threads against the handler and its transfer children, around the one
 flag `waiting_for_response`. Messages travel in order in either direction; the handler takes
 one command after the other; each child sends one last message, or dies. Any reply may be
 given up instead of sent, as when the socket lock is refused.
 */
module ClientFlow {
  import opened Bytes
  import opened Runs
  import opened ClientCommands

  datatype Event =
    | Sent(cmd: nat)     // the client sent a command
    | Cleared(cmd: nat)  // a reply to `cmd` cleared the flag
    | Stray              // a message that answers no command cleared it

  /** A message on its way to the client, and the command it answers. */
  datatype Mail = Mail(reply: Reply, cmd: Option<nat>)

  datatype State = State(
    waiting: bool,
    loggedIn: bool,
    sent: seq<Text>,     // history: the commands so far
    toServer: seq<nat>,  // positions in `sent`
    children: set<nat>,  // commands whose transfer child runs
    toClient: seq<Mail>,
    lost: set<nat>,      // history: commands whose closing reply was given up, or whose child died
    log: seq<Event>      // history
  )

  /** A quiet moment, from which a run is watched. */
  ghost predicate Init(s: State) {
    && !s.waiting && s.sent == [] && s.toServer == [] && s.children == {} && s.toClient == []
    && s.lost == {} && s.log == []
  }

  datatype Action =
    | Send(text: Text)
    | Handle(outcome: Outcome, sends: bool)
    | Finish(cmd: nat, sends: bool)
    | Notify
    | Receive

  predicate Known(s: State) {
    && (forall i :: 0 <= i < |s.toServer| ==> s.toServer[i] < |s.sent|)
    && (forall k :: k in s.children ==> k < |s.sent|)
  }

  ghost predicate Enabled(s: State, a: Action) {
    && Known(s)
    && match a
       case Send(_) => !s.waiting
       case Handle(_, _) => s.toServer != []
       case Finish(cmd, _) => cmd in s.children
       case Notify => s.loggedIn
       case Receive => s.toClient != []
  }

  /** Sending stores in the flag whether to wait. */
  ghost function AfterSend(s: State, text: Text): State {
    s.(waiting := !Flagged(text), sent := s.sent + [text], toServer := s.toServer + [|s.sent|],
    log := s.log + [Sent(|s.sent|)])
  }

  function AfterHandle(s: State, outcome: Outcome, sends: bool): State
    requires Known(s) && s.toServer != []
  {
    var k := s.toServer[0];
    var argv := Argv(s.sent[k]);
    s.(toServer := s.toServer[1..],
    toClient :=
      if sends then s.toClient + [Mail(Answer(argv, s.loggedIn, outcome), Some(k))] else s.toClient,
    lost := if sends || StartsChild(argv, s.loggedIn, outcome) then s.lost else s.lost + {k},
    children := if StartsChild(argv, s.loggedIn, outcome) then s.children + {k} else s.children,
    loggedIn := s.loggedIn || (|argv| == 2 && argv[0] == LOGIN && outcome == Goes))
  }

  function AfterFinish(s: State, k: nat, sends: bool): State
    requires Known(s) && k in s.children
  {
    s.(children := s.children - {k},
    lost := if sends then s.lost else s.lost + {k},
    toClient := if sends then s.toClient + [Mail(ChildReply(Argv(s.sent[k])), Some(k))] else s.toClient)
  }

  function AfterReceive(s: State): State
    requires s.toClient != []
  {
    var mail := s.toClient[0];
    var s' := s.(toClient := s.toClient[1..]);
    if Clears(mail.reply) then
      s'.(waiting := false, log := s.log + [match mail.cmd case Some(k) => Cleared(k) case None => Stray])
    else s'
  }

  ghost function Apply(s: State, a: Action): State
    requires Enabled(s, a)
  {
    match a
    case Send(text) => AfterSend(s, text)
    case Handle(outcome, sends) => AfterHandle(s, outcome, sends)
    case Finish(cmd, sends) => AfterFinish(s, cmd, sends)
    case Notify => s.(toClient := s.toClient + [Mail(Reply(0, true), None)])
    case Receive => AfterReceive(s)
  }

  ghost predicate Step(s: State, a: Action, s': State) {
    Enabled(s, a) && s' == Apply(s, a)
  }

  ghost predicate Next(s: State, s': State) {
    exists a :: Step(s, a, s')
  }

  ghost predicate Run(run: seq<State>) {
    IsRun(Init, Next, run)
  }

  // ---------------------------------------------------------------- the invariant

  ghost predicate AllAgree(s: State) {
    forall i :: 0 <= i < |s.sent| ==> Agrees(s.sent[i])
  }

  ghost predicate Foreground(s: State, k: nat) {
    k < |s.sent| && !Flagged(s.sent[k])
  }

  /** The client waits for `k`. */
  ghost predicate WaitsFor(s: State, k: nat) {
    s.waiting && s.log != [] && s.log[|s.log| - 1] == Sent(k) && Foreground(s, k)
  }

  /** The commands whose closing reply is still to be made are distinct. */
  ghost predicate Distinct(s: State) {
    && Known(s)
    && (forall i, j :: 0 <= i < j < |s.toServer| ==> s.toServer[i] != s.toServer[j])
    && (forall i :: 0 <= i < |s.toServer| ==> s.toServer[i] !in s.children)
  }

  ghost predicate Awaited(s: State) {
    && (s.waiting ==> s.log != [] && s.log[|s.log| - 1].Sent? && Foreground(s, s.log[|s.log| - 1].cmd))
    && (!s.waiting && s.log != [] ==>
          match s.log[|s.log| - 1]
          case Sent(k) => k < |s.sent| && Flagged(s.sent[k])
          case Cleared(_) => true
          case Stray => false)
    && (forall i :: 0 <= i < |s.toServer| && Foreground(s, s.toServer[i]) ==> WaitsFor(s, s.toServer[i]))
    && (forall k :: k in s.children && Foreground(s, k) ==> WaitsFor(s, k))
  }

  /** A clearing message is the only one, closes the awaited command, and nothing else will. */
  ghost predicate ClearingMail(s: State, i: nat)
    requires i < |s.toClient|
  {
    Clears(s.toClient[i].reply) ==>
      && s.toClient[i].cmd.Some?
      && var k := s.toClient[i].cmd.value;
         && WaitsFor(s, k)
         && k !in s.toServer && k !in s.children
         && forall j :: 0 <= j < |s.toClient| && j != i ==> !Clears(s.toClient[j].reply)
  }

  predicate ClearsAt(mails: seq<Mail>, i: nat) {
    i < |mails| && Clears(mails[i].reply)
  }

  /** The reply the client waits for is still to come. */
  ghost predicate Due(s: State, k: nat) {
    || k in s.toServer
    || k in s.children
    || exists i: nat :: ClearsAt(s.toClient, i)
  }

  /** Waiting and clearing alternate in the history. */
  ghost predicate Paired(sent: seq<Text>, log: seq<Event>) {
    && (forall i :: 0 <= i < |log| ==> log[i] != Stray && (log[i].Sent? ==> log[i].cmd < |sent|))
    && (forall i :: 0 <= i < |log| - 1 && log[i].Sent? && !Flagged(sent[log[i].cmd]) ==>
        log[i + 1] == Cleared(log[i].cmd))
    && (forall i :: 0 <= i < |log| && log[i].Cleared? ==>
        i > 0 && log[i - 1] == Sent(log[i].cmd) && !Flagged(sent[log[i].cmd]))
  }

  ghost predicate ChildrenStarted(s: State) {
    Known(s) && forall k :: k in s.children ==> StartsChild(Argv(s.sent[k]), true, Goes)
  }

  /** A reply is due to the waiting client, unless it was lost. */
  ghost predicate NothingLost(s: State) {
    forall k :: WaitsFor(s, k) ==> Due(s, k) || k in s.lost
  }

  /** No reply will come to a command whose reply was lost. */
  ghost predicate LostIsOver(s: State) {
    forall k :: k in s.lost ==> k < |s.sent| && k !in s.toServer && k !in s.children && NoClosingMail(s, k)
  }

  ghost predicate NoClosingMail(s: State, k: nat) {
    forall i: nat :: ClearsAt(s.toClient, i) ==> s.toClient[i].cmd != Some(k)
  }

  ghost predicate Inv(s: State) {
    && Distinct(s) && Awaited(s) && ChildrenStarted(s) && NothingLost(s) && LostIsOver(s)
    && (forall i: nat :: i < |s.toClient| ==> ClearingMail(s, i))
    && Paired(s.sent, s.log)
  }

  /** What the handler and its child send, in terms of the client's choice. */
  lemma AnswersAgree(text: Text, loggedIn: bool, outcome: Outcome)
    requires Agrees(text)
    ensures var argv := Argv(text);
            if StartsChild(argv, loggedIn, outcome)
            then !Clears(Answer(argv, loggedIn, outcome)) && StartsChild(argv, true, Goes)
            else Clears(Answer(argv, loggedIn, outcome)) <==> !Flagged(text)
  {
    hide Argv, Flagged;
    assert Clears(Closing(Argv(text), loggedIn, outcome)) <==> !Flagged(text);
  }

  lemma ChildAgrees(text: Text)
    requires Agrees(text) && StartsChild(Argv(text), true, Goes)
    ensures Clears(ChildReply(Argv(text))) <==> !Flagged(text)
  {
    hide Argv, Flagged;
    assert Clears(Closing(Argv(text), true, Goes)) <==> !Flagged(text);
  }

  lemma SendKeepsInv(s: State, text: Text)
    requires Inv(s) && !s.waiting
    ensures Inv(AfterSend(s, text))
  {
    var s' := AfterSend(s, text);
    hide Flagged, Argv, StartsChild, Clears;
    assert Awaited(s') && Distinct(s') && ChildrenStarted(s');
    forall i: nat | i < |s'.toClient| ensures ClearingMail(s', i) {
      assert ClearingMail(s, i);
    }
    assert s'.toServer[|s.toServer|] == |s.sent|;
    assert NothingLost(s');
    forall k | k in s'.lost ensures NoClosingMail(s', k) {
      assert NoClosingMail(s, k);
    }
    SendKeepsPaired(s, text);
  }

  lemma SendKeepsPaired(s: State, text: Text)
    requires Known(s) && Awaited(s) && Paired(s.sent, s.log) && !s.waiting
    ensures Paired(AfterSend(s, text).sent, AfterSend(s, text).log)
  {
    hide Flagged;
    var sent', log' := AfterSend(s, text).sent, AfterSend(s, text).log;
    assert forall k :: 0 <= k < |s.sent| ==> sent'[k] == s.sent[k];
    forall i | 0 <= i < |log'| - 1 && log'[i].Sent? && !Flagged(sent'[log'[i].cmd])
      ensures log'[i + 1] == Cleared(log'[i].cmd)
    {
      assert log'[i] == s.log[i];
      assert i == |s.log| - 1 || log'[i + 1] == s.log[i + 1];
    }
    forall i | 0 <= i < |log'| && log'[i].Cleared?
      ensures i > 0 && log'[i - 1] == Sent(log'[i].cmd) && !Flagged(sent'[log'[i].cmd])
    {
      assert log'[i] == s.log[i] && log'[i - 1] == s.log[i - 1];
    }
  }

  /** Mail that does not clear, or the only mail that does, at the end of the queue. */
  lemma MailKeepsClearing(s: State, s': State, mail: Mail)
    requires forall i: nat :: i < |s.toClient| ==> ClearingMail(s, i)
    requires s'.toClient == s.toClient + [mail]
    requires s'.waiting == s.waiting && s'.log == s.log && s'.sent == s.sent
    requires forall k :: k in s'.toServer ==> k in s.toServer
    requires forall k :: k in s'.children && k !in s.children ==> k in s.toServer
    requires Clears(mail.reply) ==>
      && mail.cmd.Some? && WaitsFor(s, mail.cmd.value)
      && (mail.cmd.value in s.toServer || mail.cmd.value in s.children)
      && mail.cmd.value !in s'.toServer && mail.cmd.value !in s'.children
    ensures forall i: nat :: i < |s'.toClient| ==> ClearingMail(s', i)
  {
    hide Flagged, Clears;
    forall i: nat | i < |s.toClient| && Clears(s.toClient[i].reply)
      ensures ClearingMail(s, i) && !Clears(mail.reply)
    {
      assert ClearingMail(s, i);
    }
    assert forall i: nat :: i < |s.toClient| ==> s'.toClient[i] == s.toClient[i];
    assert s'.toClient[|s.toClient|] == mail;
    assert forall k :: WaitsFor(s, k) ==> WaitsFor(s', k);
    forall i: nat | i < |s'.toClient| ensures ClearingMail(s', i) {
    }
  }

  /** No new mail, and nothing new at the server or its children. */
  lemma QuietKeepsClearing(s: State, s': State)
    requires forall i: nat :: i < |s.toClient| ==> ClearingMail(s, i)
    requires s'.toClient == s.toClient
    requires s'.waiting == s.waiting && s'.log == s.log && s'.sent == s.sent
    requires forall k :: k in s'.toServer ==> k in s.toServer
    requires forall k :: k in s'.children && k !in s.children ==> k in s.toServer
    ensures forall i: nat :: i < |s'.toClient| ==> ClearingMail(s', i)
  {
    hide Flagged, Clears;
    forall i: nat | i < |s'.toClient| ensures ClearingMail(s', i) {
      assert ClearingMail(s, i);
    }
  }

  lemma MailStaysDue(s: State, s': State, mail: Mail, k: nat)
    requires s'.toClient == s.toClient + [mail] && Due(s, k)
    requires k in s.toServer ==> k in s'.toServer || k in s'.children || Clears(mail.reply)
    requires k in s.children ==> k in s'.children || Clears(mail.reply)
    ensures Due(s', k)
  {
    hide Clears;
    if i: nat :| ClearsAt(s.toClient, i) {
      assert ClearsAt(s'.toClient, i);
    }
    assert Clears(mail.reply) ==> ClearsAt(s'.toClient, |s.toClient|);
  }

  lemma HandleKeepsOrder(s: State, outcome: Outcome, sends: bool)
    requires Distinct(s) && Awaited(s) && ChildrenStarted(s) && s.toServer != []
    requires StartsChild(Argv(s.sent[s.toServer[0]]), s.loggedIn, outcome) ==>
      StartsChild(Argv(s.sent[s.toServer[0]]), true, Goes)
    ensures var s' := AfterHandle(s, outcome, sends); Distinct(s') && Awaited(s') && ChildrenStarted(s')
    ensures s.toServer[0] !in AfterHandle(s, outcome, sends).toServer
  {
    hide Flagged, Argv, StartsChild, Answer;
  }

  lemma HandleKeepsMail(s: State, outcome: Outcome, sends: bool)
    requires Inv(s) && s.toServer != [] && AllAgree(s)
    ensures var s' := AfterHandle(s, outcome, sends); forall i: nat :: i < |s'.toClient| ==> ClearingMail(s', i)
  {
    var s', k0 := AfterHandle(s, outcome, sends), s.toServer[0];
    var mail := Mail(Answer(Argv(s.sent[k0]), s.loggedIn, outcome), Some(k0));
    AnswersAgree(s.sent[k0], s.loggedIn, outcome);
    hide Flagged, Argv, StartsChild, Clears, Answer;
    HandleKeepsOrder(s, outcome, sends);
    assert WaitsFor(s, k0) || !Foreground(s, k0);
    assert s.toServer == [k0] + s'.toServer;
    hide Distinct, Awaited, ChildrenStarted, Known, NothingLost, LostIsOver, Paired;
    if sends {
      MailKeepsClearing(s, s', mail);
    } else {
      QuietKeepsClearing(s, s');
    }
  }

  lemma HandleKeepsDue(s: State, outcome: Outcome, sends: bool)
    requires Inv(s) && s.toServer != [] && AllAgree(s)
    ensures NothingLost(AfterHandle(s, outcome, sends))
  {
    var s', k0 := AfterHandle(s, outcome, sends), s.toServer[0];
    var mail := Mail(Answer(Argv(s.sent[k0]), s.loggedIn, outcome), Some(k0));
    AnswersAgree(s.sent[k0], s.loggedIn, outcome);
    assert s.toServer == [k0] + s'.toServer;
    hide Flagged, Argv, StartsChild, Clears, Answer, Distinct, Awaited, ChildrenStarted, LostIsOver, Paired;
    forall k | WaitsFor(s', k) ensures Due(s', k) || k in s'.lost {
      assert WaitsFor(s, k);
      if Due(s, k) && sends {
        MailStaysDue(s, s', mail, k);
      }
    }
  }

  /** The command handled has no closing reply yet. */
  lemma FirstHasNoMail(s: State)
    requires Known(s) && s.toServer != []
    requires forall i: nat :: i < |s.toClient| ==> ClearingMail(s, i)
    ensures NoClosingMail(s, s.toServer[0])
  {
    hide Flagged, Clears, WaitsFor;
    forall i: nat | ClearsAt(s.toClient, i) ensures s.toClient[i].cmd != Some(s.toServer[0]) {
      assert ClearingMail(s, i);
    }
  }

  lemma HandleKeepsLost(s: State, outcome: Outcome, sends: bool)
    requires Inv(s) && s.toServer != []
    ensures LostIsOver(AfterHandle(s, outcome, sends))
  {
    var s', k0 := AfterHandle(s, outcome, sends), s.toServer[0];
    FirstHasNoMail(s);
    HandleTakesFirst(s, outcome, sends);
    assert k0 !in s.lost && k0 !in s.children;
    hide Flagged, Argv, StartsChild, Clears, Answer, Distinct, Awaited, ChildrenStarted, NothingLost, Paired;
    forall k | k in s'.lost ensures NoClosingMail(s', k) {
      assert NoClosingMail(s, k);
      forall i: nat | ClearsAt(s'.toClient, i) ensures s'.toClient[i].cmd != Some(k) {
        assert i < |s.toClient| ==> ClearsAt(s.toClient, i);
      }
    }
  }

  lemma HandleTakesFirst(s: State, outcome: Outcome, sends: bool)
    requires Distinct(s) && s.toServer != []
    ensures s.toServer[0] !in AfterHandle(s, outcome, sends).toServer
  {
    hide Flagged, Argv, StartsChild, Answer;
  }

  lemma HandleKeepsInv(s: State, outcome: Outcome, sends: bool)
    requires Inv(s) && s.toServer != [] && AllAgree(s)
    ensures Inv(AfterHandle(s, outcome, sends))
  {
    AnswersAgree(s.sent[s.toServer[0]], s.loggedIn, outcome);
    HandleKeepsOrder(s, outcome, sends);
    HandleKeepsMail(s, outcome, sends);
    HandleKeepsDue(s, outcome, sends);
    HandleKeepsLost(s, outcome, sends);
    hide Flagged, Argv, StartsChild, Answer, Distinct, Awaited, ChildrenStarted, NothingLost, LostIsOver;
    hide ClearingMail, Paired;
  }

  lemma FinishKeepsOrder(s: State, k: nat, sends: bool)
    requires Distinct(s) && Awaited(s) && ChildrenStarted(s) && k in s.children
    ensures var s' := AfterFinish(s, k, sends); Distinct(s') && Awaited(s') && ChildrenStarted(s')
  {
    hide Flagged, Argv, StartsChild, ChildReply;
  }

  lemma FinishKeepsMail(s: State, k: nat, sends: bool)
    requires Inv(s) && k in s.children && AllAgree(s)
    ensures var s' := AfterFinish(s, k, sends); forall i: nat :: i < |s'.toClient| ==> ClearingMail(s', i)
  {
    var s' := AfterFinish(s, k, sends);
    ChildAgrees(s.sent[k]);
    hide Flagged, Argv, StartsChild, Clears, ChildReply;
    assert (WaitsFor(s, k) || !Foreground(s, k)) && k !in s'.toServer;
    hide Distinct, Awaited, ChildrenStarted, NothingLost, LostIsOver, Paired;
    if sends {
      MailKeepsClearing(s, s', Mail(ChildReply(Argv(s.sent[k])), Some(k)));
    } else {
      QuietKeepsClearing(s, s');
    }
  }

  lemma FinishKeepsDue(s: State, k: nat, sends: bool)
    requires Inv(s) && k in s.children && AllAgree(s)
    ensures NothingLost(AfterFinish(s, k, sends))
  {
    var s' := AfterFinish(s, k, sends);
    ChildAgrees(s.sent[k]);
    hide Flagged, Argv, StartsChild, Clears, ChildReply, Distinct, Awaited, LostIsOver, Paired;
    forall l | WaitsFor(s', l) ensures Due(s', l) || l in s'.lost {
      assert WaitsFor(s, l);
      if Due(s, l) && sends {
        MailStaysDue(s, s', Mail(ChildReply(Argv(s.sent[k])), Some(k)), l);
      }
    }
  }

  lemma FinishKeepsLost(s: State, k: nat, sends: bool)
    requires Inv(s) && k in s.children
    ensures LostIsOver(AfterFinish(s, k, sends))
  {
    var s' := AfterFinish(s, k, sends);
    ChildHasNoMail(s, k);
    assert k !in s.lost && k !in s.toServer;
    hide Flagged, Argv, StartsChild, Clears, ChildReply, Distinct, Awaited, ChildrenStarted, NothingLost, Paired;
    forall l | l in s'.lost ensures NoClosingMail(s', l) {
      assert NoClosingMail(s, l);
      forall i: nat | ClearsAt(s'.toClient, i) ensures s'.toClient[i].cmd != Some(l) {
        assert i < |s.toClient| ==> ClearsAt(s.toClient, i);
      }
    }
  }

  lemma ChildHasNoMail(s: State, k: nat)
    requires k in s.children && forall i: nat :: i < |s.toClient| ==> ClearingMail(s, i)
    ensures NoClosingMail(s, k)
  {
    hide Flagged, Clears, WaitsFor;
    forall i: nat | ClearsAt(s.toClient, i) ensures s.toClient[i].cmd != Some(k) {
      assert ClearingMail(s, i);
    }
  }

  lemma FinishKeepsInv(s: State, k: nat, sends: bool)
    requires Inv(s) && k in s.children && AllAgree(s)
    ensures Inv(AfterFinish(s, k, sends))
  {
    FinishKeepsOrder(s, k, sends);
    FinishKeepsMail(s, k, sends);
    FinishKeepsDue(s, k, sends);
    FinishKeepsLost(s, k, sends);
    hide Flagged, Argv, StartsChild, ChildReply, Distinct, Awaited, ChildrenStarted, NothingLost, LostIsOver;
    hide ClearingMail, Paired;
  }

  lemma ReceiveKeepsOrder(s: State)
    requires Inv(s) && s.toClient != []
    ensures var s' := AfterReceive(s); Distinct(s') && Awaited(s') && ChildrenStarted(s')
  {
    assert ClearingMail(s, 0);
    hide Flagged, Argv, StartsChild, Clears, NothingLost, LostIsOver, Paired;
  }

  lemma ReceiveKeepsPaired(s: State)
    requires Inv(s) && s.toClient != []
    ensures Paired(AfterReceive(s).sent, AfterReceive(s).log)
  {
    assert ClearingMail(s, 0);
    hide Flagged, Argv, StartsChild, Clears, Distinct, Awaited, ChildrenStarted, NothingLost, LostIsOver;
  }

  lemma ReceiveKeepsMail(s: State)
    requires Inv(s) && s.toClient != []
    ensures var s' := AfterReceive(s); forall i: nat :: i < |s'.toClient| ==> ClearingMail(s', i)
  {
    var s' := AfterReceive(s);
    assert ClearingMail(s, 0);
    hide Flagged, Argv, StartsChild, Clears, Distinct, Awaited, ChildrenStarted, NothingLost, LostIsOver, Paired;
    forall i: nat | i < |s'.toClient| ensures ClearingMail(s', i) {
      assert ClearingMail(s, i + 1);
    }
  }

  lemma ReceiveKeepsDue(s: State)
    requires Inv(s) && s.toClient != []
    ensures NothingLost(AfterReceive(s)) && LostIsOver(AfterReceive(s))
  {
    var s' := AfterReceive(s);
    hide Flagged, Argv, StartsChild, Clears, Distinct, Awaited, ChildrenStarted, Paired;
    forall k | WaitsFor(s', k) ensures Due(s', k) || k in s'.lost {
      assert WaitsFor(s, k);
      if i: nat :| ClearsAt(s.toClient, i) {
        assert ClearsAt(s'.toClient, i - 1);
      }
    }
    forall k | k in s'.lost ensures NoClosingMail(s', k) {
      assert NoClosingMail(s, k);
      forall i: nat | ClearsAt(s'.toClient, i) ensures s'.toClient[i].cmd != Some(k) {
        assert ClearsAt(s.toClient, i + 1);
      }
    }
  }

  lemma ReceiveKeepsInv(s: State)
    requires Inv(s) && s.toClient != []
    ensures Inv(AfterReceive(s))
  {
    ReceiveKeepsOrder(s);
    ReceiveKeepsPaired(s);
    ReceiveKeepsMail(s);
    ReceiveKeepsDue(s);
    hide Flagged, Clears, Distinct, Awaited, ChildrenStarted, NothingLost, LostIsOver, ClearingMail, Paired;
  }

  lemma NotifyKeepsInv(s: State, s': State)
    requires Inv(s) && s' == s.(toClient := s.toClient + [Mail(Reply(0, true), None)])
    ensures Inv(s')
  {
    var mail := Mail(Reply(0, true), None);
    assert !Clears(mail.reply);
    hide Flagged, Argv, StartsChild, Clears;
    assert Distinct(s') && Awaited(s') && ChildrenStarted(s');
    MailKeepsClearing(s, s', mail);
    hide Distinct, Awaited, ChildrenStarted, ClearingMail, Paired;
    forall k | WaitsFor(s', k) ensures Due(s', k) || k in s'.lost {
      assert WaitsFor(s, k);
      if Due(s, k) {
        MailStaysDue(s, s', mail, k);
      }
    }
    forall k | k in s'.lost ensures NoClosingMail(s', k) {
      assert NoClosingMail(s, k);
      forall i: nat | ClearsAt(s'.toClient, i) ensures s'.toClient[i].cmd != Some(k) {
        assert i < |s.toClient| ==> ClearsAt(s.toClient, i);
      }
    }
  }

  lemma StepKeepsInv(s: State, a: Action, s': State)
    requires Step(s, a, s') && Inv(s) && AllAgree(s)
    ensures Inv(s')
  {
    match a
    case Send(text) => SendKeepsInv(s, text);
    case Handle(outcome, sends) => HandleKeepsInv(s, outcome, sends);
    case Finish(cmd, sends) => FinishKeepsInv(s, cmd, sends);
    case Notify => NotifyKeepsInv(s, s');
    case Receive => ReceiveKeepsInv(s);
  }


  // ---------------------------------------------------------------- theorems

  lemma {:induction false} RunInv(run: seq<State>)
    requires Run(run) && AllAgree(run[|run| - 1])
    ensures Inv(run[|run| - 1])
    decreases |run|
  {
    hide Inv, AllAgree, Init;
    var s' := run[|run| - 1];
    if |run| == 1 {
      InitInv(s');
    } else {
      assert StepAt(Next, run, |run| - 1);
      var s := run[|run| - 2];
      var a :| Step(s, a, s');
      StepKeepsSent(s, a, s');
      PrefixIsRun(Init, Next, run, |run| - 1);
      RunInv(run[..|run| - 1]);
      StepKeepsInv(s, a, s');
    }
  }

  lemma InitInv(s: State)
    requires Init(s)
    ensures Inv(s)
  {
  }

  lemma StepKeepsSent(s: State, a: Action, s': State)
    requires Step(s, a, s') && AllAgree(s')
    ensures AllAgree(s)
  {
    hide Agrees;
    assert s.sent <= s'.sent;
    forall i | 0 <= i < |s.sent| ensures Agrees(s.sent[i]) {
      assert s'.sent[i] == s.sent[i];
    }
  }

  /**
   Pairing. If client and handler agree on every command sent, then in the history each
   foreground command is followed by the clearing of the flag by its own closing reply and
   by nothing else, and nothing else ever clears it. In particular the client sends no
   command between a foreground one and its closing reply.
   */
  lemma Pairing(run: seq<State>)
    requires Run(run) && AllAgree(run[|run| - 1])
    ensures var s := run[|run| - 1]; Paired(s.sent, s.log)
  {
    RunInv(run);
  }

  /** A closing reply is queued only for the command that is waited for. */
  lemma LostIsNotDue(s: State, k: nat)
    requires Inv(s) && WaitsFor(s, k) && k in s.lost
    ensures !Due(s, k)
  {
    assert NoClosingMail(s, k);
    hide Flagged, Clears, Distinct, Awaited, ChildrenStarted, NothingLost, Paired;
    forall i: nat ensures !ClearsAt(s.toClient, i) {
      assert i < |s.toClient| ==> ClearingMail(s, i);
    }
  }

  /**
   The client waits exactly from a foreground command to the reply to it. While it waits,
   that reply is on its way, or being prepared, exactly if it was not given up and the
   command's child has not died.
   */
  lemma WaitingEnds(run: seq<State>)
    requires Run(run) && AllAgree(run[|run| - 1])
    ensures var s := run[|run| - 1];
            && (s.waiting <==> s.log != [] && s.log[|s.log| - 1].Sent? && Foreground(s, s.log[|s.log| - 1].cmd))
            && (s.waiting ==> (Due(s, s.log[|s.log| - 1].cmd) <==> s.log[|s.log| - 1].cmd !in s.lost))
  {
    RunInv(run);
    var s := run[|run| - 1];
    hide Flagged, Run;
    if s.waiting {
      var k := s.log[|s.log| - 1].cmd;
      assert WaitsFor(s, k);
      if k in s.lost {
        LostIsNotDue(s, k);
      }
    }
  }

  lemma Extend(run: seq<State>, a: Action) returns (run': seq<State>)
    requires Run(run) && Enabled(run[|run| - 1], a)
    ensures run' == run + [Apply(run[|run| - 1], a)] && Run(run')
  {
    var s' := Apply(run[|run| - 1], a);
    run' := run + [s'];
    assert Step(run[|run| - 1], a, s');
    hide Init, Enabled, Apply;
    OneMoreStep(Init, Next, run, s');
  }

  /** The client sends both commands before the first answer is made. */
  lemma SendBoth(s0: State, text: Text, next: Text) returns (run: seq<State>)
    requires Init(s0) && Flagged(text) && !Flagged(next)
    ensures Run(run) && run[0] == s0
    ensures run[|run| - 1] == State(true, s0.loggedIn, [text, next], [0, 1], {}, [], {}, [Sent(0), Sent(1)])
  {
    run := [s0];
    hide Flagged;
    run := Extend(run, Send(text));
    run := Extend(run, Send(next));
  }

  lemma RunByHandler(s0: State, text: Text, next: Text) returns (run: seq<State>)
    requires Init(s0) && s0.loggedIn && Flagged(text) && !Flagged(next)
    requires !StartsChild(Argv(text), true, Goes) && Clears(Answer(Argv(text), true, Goes))
    ensures Run(run) && run[0] == s0
    ensures var s := run[|run| - 1]; s.sent == [text, next] && s.log == [Sent(0), Sent(1), Cleared(0)]
  {
    run := SendBoth(s0, text, next);
    hide Init, Flagged, Argv, StartsChild, Answer, Clears;
    run := Extend(run, Handle(Goes, true));
    var s := run[|run| - 1];
    assert s.toClient == [Mail(Answer(Argv(text), true, Goes), Some(0))];
    run := Extend(run, Receive);
  }

  lemma RunByChild(s0: State, text: Text, next: Text) returns (run: seq<State>)
    requires Init(s0) && s0.loggedIn && Flagged(text) && !Flagged(next)
    requires StartsChild(Argv(text), true, Goes) && Clears(ChildReply(Argv(text)))
    ensures Run(run) && run[0] == s0
    ensures var s := run[|run| - 1]; s.sent == [text, next] && s.log == [Sent(0), Sent(1), Cleared(0)]
  {
    run := SendBoth(s0, text, next);
    assert !Clears(Answer(Argv(text), true, Goes));
    hide Init, Flagged, Argv, StartsChild, Answer, Clears, ChildReply;
    run := Extend(run, Handle(Goes, true));
    run := Extend(run, Finish(0, true));
    var s := run[|run| - 1];
    assert s.toClient == [Mail(Answer(Argv(text), true, Goes), Some(0)), Mail(ChildReply(Argv(text)), Some(0))];
    run := Extend(run, Receive);
    run := Extend(run, Receive);
  }

  lemma NotPaired(sent: seq<Text>, log: seq<Event>)
    requires |sent| == 2 && log == [Sent(0), Sent(1), Cleared(0)]
    ensures !Paired(sent, log)
  {
    hide Flagged;
    assert log[2].Cleared? && log[1] != Sent(log[2].cmd);
  }

  /**
   The condition is needed: after any line on which the two disagree, the reply to it clears
   the flag of the command sent next.
   */
  lemma DisagreementBreaksPairing(s0: State, text: Text, next: Text) returns (run: seq<State>)
    requires Init(s0) && s0.loggedIn && !Agrees(text) && !Flagged(next)
    ensures Run(run) && run[0] == s0
    ensures var s := run[|run| - 1];
            s.sent == [text, next] && s.log == [Sent(0), Sent(1), Cleared(0)] && !Paired(s.sent, s.log)
  {
    FlagAgreement(text);
    ClearingReply(Argv(text), true);
    hide Init, Flagged, Argv, BackgroundForm, Run, Paired;
    if StartsChild(Argv(text), true, Goes) {
      run := RunByChild(s0, text, next);
    } else {
      run := RunByHandler(s0, text, next);
    }
    NotPaired([text, next], [Sent(0), Sent(1), Cleared(0)]);
  }
}
