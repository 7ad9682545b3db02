/**
 Which commands a data port is announced to: downloads as downloads, uploads as uploads, and
 neither before a login.
 */
module ClientPorts {
  import opened Bytes
  import opened ClientCommands
  import opened ClientFlow
  import opened Runs
  import Frames

  predicate IsLogin(text: Text) {
    |Argv(text)| == 2 && Argv(text)[0] == LOGIN
  }

  /** A login is among the first `n` commands. */
  ghost predicate LoginBefore(sent: seq<Text>, n: nat) {
    exists j :: 0 <= j < n <= |sent| && IsLogin(sent[j])
  }

  /** The commands the handler has taken. */
  function Handled(s: State): int {
    |s.sent| - |s.toServer|
  }

  /** The message announces a port to a command of its own kind, entered after a login. */
  ghost predicate PortFits(sent: seq<Text>, mail: Mail, wasIn: bool) {
    mail.reply.kind == Frames.DOWNLOAD_RES || mail.reply.kind == Frames.UPLOAD_RES ==>
      && mail.cmd.Some? && mail.cmd.value < |sent|
      && var argv := Argv(sent[mail.cmd.value]);
         && 3 <= |argv| <= 4
         && argv[0] == (if mail.reply.kind == Frames.DOWNLOAD_RES then DOWNLOAD else UPLOAD)
         && (wasIn || LoginBefore(sent, mail.cmd.value))
  }

  /** Commands are taken in order, and the handler is logged in only by one of them. */
  ghost predicate InOrder(s: State, wasIn: bool) {
    && Handled(s) >= 0
    && (forall i :: 0 <= i < |s.toServer| ==> s.toServer[i] == Handled(s) + i)
    && (s.loggedIn ==> wasIn || LoginBefore(s.sent, Handled(s)))
  }

  ghost predicate PortsOk(s: State, wasIn: bool) {
    && InOrder(s, wasIn)
    && forall i :: 0 <= i < |s.toClient| ==> PortFits(s.sent, s.toClient[i], wasIn)
  }

  lemma MoreSent(sent: seq<Text>, text: Text, n: nat)
    requires LoginBefore(sent, n)
    ensures LoginBefore(sent + [text], n)
  {
    var j :| 0 <= j < n <= |sent| && IsLogin(sent[j]);
    assert IsLogin((sent + [text])[j]);
    hide IsLogin;
  }

  lemma LaterLogin(sent: seq<Text>, m: nat, n: nat)
    requires LoginBefore(sent, m) && m <= n <= |sent|
    ensures LoginBefore(sent, n)
  {
    hide IsLogin;
  }

  lemma StillFits(sent: seq<Text>, text: Text, mail: Mail, wasIn: bool)
    requires PortFits(sent, mail, wasIn)
    ensures PortFits(sent + [text], mail, wasIn)
  {
    hide LoginBefore, Argv;
    if mail.reply.kind == Frames.DOWNLOAD_RES || mail.reply.kind == Frames.UPLOAD_RES {
      if LoginBefore(sent, mail.cmd.value) {
        MoreSent(sent, text, mail.cmd.value);
      }
    }
  }

  lemma SendKeepsPorts(s: State, text: Text, wasIn: bool)
    requires PortsOk(s, wasIn) && Known(s)
    ensures PortsOk(AfterSend(s, text), wasIn)
  {
    hide Argv, Flagged, PortFits, LoginBefore;
    if LoginBefore(s.sent, Handled(s)) {
      MoreSent(s.sent, text, Handled(s));
    }
    forall i | 0 <= i < |s.toClient| ensures PortFits(s.sent + [text], s.toClient[i], wasIn) {
      StillFits(s.sent, text, s.toClient[i], wasIn);
    }
  }

  /** The handler's own answer. */
  lemma AnswerFits(sent: seq<Text>, k: nat, loggedIn: bool, outcome: Outcome, wasIn: bool)
    requires k < |sent| && (loggedIn ==> wasIn || LoginBefore(sent, k))
    ensures PortFits(sent, Mail(Answer(Argv(sent[k]), loggedIn, outcome), Some(k)), wasIn)
  {
    hide LoginBefore, Argv;
  }

  lemma HandleKeepsPorts(s: State, outcome: Outcome, sends: bool, wasIn: bool)
    requires PortsOk(s, wasIn) && Known(s) && s.toServer != []
    ensures PortsOk(AfterHandle(s, outcome, sends), wasIn)
  {
    var s', k := AfterHandle(s, outcome, sends), s.toServer[0];
    assert k == Handled(s) && Handled(s') == k + 1;
    AnswerFits(s.sent, k, s.loggedIn, outcome, wasIn);
    if LoginBefore(s.sent, k) {
      LaterLogin(s.sent, k, k + 1);
    }
    assert !s.loggedIn && s'.loggedIn ==> IsLogin(s.sent[k]);
    hide Argv, PortFits, Answer, StartsChild, IsLogin;
  }

  lemma ChildHasNoPort(sent: seq<Text>, argv: seq<Text>, k: nat, wasIn: bool)
    ensures PortFits(sent, Mail(ChildReply(argv), Some(k)), wasIn)
  {
  }

  lemma StepKeepsPorts(s: State, a: Action, s': State, wasIn: bool)
    requires Step(s, a, s') && PortsOk(s, wasIn)
    ensures PortsOk(s', wasIn)
  {
    hide PortFits, LoginBefore, Argv, Flagged;
    match a
    case Send(text) => SendKeepsPorts(s, text, wasIn);
    case Handle(outcome, sends) => HandleKeepsPorts(s, outcome, sends, wasIn);
    case Finish(k, sends) =>
      ChildHasNoPort(s.sent, Argv(s.sent[k]), k, wasIn);
    case Notify => NoticeHasNoPort(s.sent, wasIn);
    case Receive =>
  }

  lemma NoticeHasNoPort(sent: seq<Text>, wasIn: bool)
    ensures PortFits(sent, Mail(Reply(0, true), None), wasIn)
  {
  }

  /**
   In every run each announced port answers a download or upload of three or four words, by a
   message of that kind, and a login was entered before it, unless the run began logged in.
   */
  lemma {:induction false} PortsAnswerTransfers(run: seq<State>)
    requires Run(run)
    ensures PortsOk(run[|run| - 1], run[0].loggedIn)
    decreases |run|
  {
    if |run| > 1 {
      PrefixIsRun(Init, Next, run, |run| - 1);
      PortsAnswerTransfers(run[..|run| - 1]);
      assert StepAt(Next, run, |run| - 1);
      var a :| Step(run[|run| - 2], a, run[|run| - 1]);
      hide Run, Init, Step, PortsOk;
      StepKeepsPorts(run[|run| - 2], a, run[|run| - 1], run[0].loggedIn);
    }
  }

  /** After a login, and an answer to it, a transfer command is announced a port of its kind. */
  lemma LoginOpensTransfers(s0: State, login: Text, text: Text) returns (run: seq<State>)
    requires Init(s0) && !s0.loggedIn && IsLogin(login) && !Flagged(login)
    requires Transfers(Argv(text)) && (|Argv(text)| == 3 || BackgroundForm(Argv(text)))
    ensures Run(run) && run[0] == s0
    ensures var s := run[|run| - 1];
            && s.sent == [login, text] && s.loggedIn && s.children == {1}
            && var kind := if Argv(text)[0] == DOWNLOAD then Frames.DOWNLOAD_RES else Frames.UPLOAD_RES;
               s.toClient == [Mail(Reply(kind, false), Some(1))]
  {
    run := [s0];
    LoginIsPlain(Argv(login));
    TransferOpens(Argv(text));
    hide Flagged, Answer, StartsChild, BackgroundForm, Transfers;
    run := Extend(run, Send(login));
    run := Extend(run, Handle(Goes, true));
    run := Extend(run, Receive);
    run := Extend(run, Send(text));
    run := Extend(run, Handle(Goes, true));
  }

  lemma LoginIsPlain(argv: seq<Text>)
    requires |argv| == 2 && argv[0] == LOGIN
    ensures !StartsChild(argv, false, Goes) && Clears(Answer(argv, false, Goes))
  {
    assert LOGIN != DOWNLOAD && LOGIN != UPLOAD;
  }

  lemma TransferOpens(argv: seq<Text>)
    requires Transfers(argv) && (|argv| == 3 || BackgroundForm(argv))
    ensures StartsChild(argv, true, Goes)
    ensures Answer(argv, true, Goes)
            == Reply(if argv[0] == DOWNLOAD then Frames.DOWNLOAD_RES else Frames.UPLOAD_RES, false)
  {
  }
}
