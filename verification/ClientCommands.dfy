/**
 Foreground or background? The client decides from the command line it sends
 (src/client/worker.c), the handler from the words it splits it into
 (src/server/handler/handlers.c). This module says when the two agree.
 */
module ClientCommands {
  import opened Bytes
  import opened Words
  import Frames

  type Text = seq<byte>

  const MAXARGS := 5

  const DOWNLOAD: Text := [100, 111, 119, 110, 108, 111, 97, 100]
  const UPLOAD: Text := [117, 112, 108, 111, 97, 100]
  const LOGIN: Text := [108, 111, 103, 105, 110]

  // "-b"
  const DASH_B: Text := [45, 98]

  predicate FlagAt(text: Text, i: nat) {
    i + 3 <= |text| && text[i..i + 3] == [SPACE] + DASH_B
  }

  /** The client's test: `strstr(command, " -b")`. */
  ghost predicate Flagged(text: Text) {
    exists i: nat :: FlagAt(text, i)
  }

  /** The handler's words. */
  function Argv(text: Text): (argv: seq<Text>)
    ensures |argv| <= MAXARGS
  {
    var words := WordsOf(text);
    words[..Min(MAXARGS, |words|)]
  }

  /** How things go on the way to an answer. */
  datatype Outcome =
    | Goes           // nothing fails
    | SetupFails     // the data socket or the fork
    | Fails          // any other reason

  /** A message to the client, as far as the waiting flag is concerned. */
  datatype Reply = Reply(kind: nat, background: bool)

  /** The reader thread's test. */
  predicate Clears(r: Reply) {
    !r.background && r.kind != Frames.DOWNLOAD_RES && r.kind != Frames.UPLOAD_RES
  }

  predicate Transfers(argv: seq<Text>) {
    argv != [] && (argv[0] == DOWNLOAD || argv[0] == UPLOAD)
  }

  /** `is_bg` in `handleDownload` and `handleUpload`. */
  predicate RunsBehind(argv: seq<Text>) {
    |argv| >= 4 && argv[|argv| - 1] == DASH_B
  }

  /** The handler's direct answer; a transfer that starts leaves the closing reply to a child. */
  function Answer(argv: seq<Text>, loggedIn: bool, outcome: Outcome): Reply {
    if !Transfers(argv) then
      // every other handler answers once and unflagged, with TEXT or with the listing or the
      // contents asked for; the flag treats the three kinds alike
      Reply(Frames.TEXT, false)
    else if argv[0] == DOWNLOAD && |argv| >= 4 && argv[|argv| - 1] != DASH_B then Reply(Frames.TEXT, false)
    else if !loggedIn then Reply(Frames.TEXT, RunsBehind(argv))
    else if |argv| < 3 || |argv| > 4 then Reply(Frames.TEXT, false)
    else if outcome == SetupFails then Reply(Frames.TEXT, RunsBehind(argv))
    else Reply(if argv[0] == DOWNLOAD then Frames.DOWNLOAD_RES else Frames.UPLOAD_RES, false)
  }

  /** The answer is a port, and a child goes on with the transfer. */
  predicate StartsChild(argv: seq<Text>, loggedIn: bool, outcome: Outcome) {
    var kind := Answer(argv, loggedIn, outcome).kind;
    kind == Frames.DOWNLOAD_RES || kind == Frames.UPLOAD_RES
  }

  /** The child's last message: concluded or failed. */
  function ChildReply(argv: seq<Text>): Reply {
    Reply(Frames.TEXT, RunsBehind(argv))
  }

  /** The reply that ends the command: the answer itself, or the child's last message. */
  function Closing(argv: seq<Text>, loggedIn: bool, outcome: Outcome): Reply {
    if StartsChild(argv, loggedIn, outcome) then ChildReply(argv) else Answer(argv, loggedIn, outcome)
  }

  /** Whatever happens, the closing reply clears the flag exactly when the client waits for it. */
  ghost predicate Agrees(text: Text) {
    forall loggedIn, outcome :: Clears(Closing(Argv(text), loggedIn, outcome)) <==> !Flagged(text)
  }

  /** `download` or `upload`, two paths, and `-b` at the end. */
  predicate BackgroundForm(argv: seq<Text>) {
    Transfers(argv) && |argv| == 4 && argv[3] == DASH_B
  }

  /** A word `-b` that is not the first has a space before it. */
  lemma DashBIsFlag(text: Text, k: nat)
    requires 0 < k < |WordsOf(text)| && WordsOf(text)[k] == DASH_B
    ensures Flagged(text)
  {
    var w := Spans(text, 0)[k];
    WordsAreTheMaximalRuns(text, w);
    hide Spans, Flagged, WordsOf, WordsIn;
    DashBRunIsFlag(text, w);
  }

  lemma DashBRunIsFlag(text: Text, w: (nat, nat))
    requires MaximalRun(text, w) && w.0 > 0 && text[w.0..w.1] == DASH_B
    ensures Flagged(text)
  {
    assert text[w.0 - 1..w.0 - 1 + 3] == [SPACE] + text[w.0..w.1];
    assert FlagAt(text, w.0 - 1);
  }

  lemma FormIsFlagged(text: Text)
    requires BackgroundForm(Argv(text))
    ensures Flagged(text)
  {
    assert WordsOf(text)[3] == Argv(text)[3];
    hide WordsOf;
    DashBIsFlag(text, 3);
  }

  lemma ClosingOfForm(argv: seq<Text>, loggedIn: bool, outcome: Outcome)
    ensures BackgroundForm(argv) ==> !Clears(Closing(argv, loggedIn, outcome))
    ensures !RunsBehind(argv) || !Transfers(argv) ==> Clears(Closing(argv, loggedIn, outcome))
  {
  }

  /** A way to a clearing reply, for every line that is not of the background form. */
  lemma ClearingReply(argv: seq<Text>, loggedIn: bool)
    requires |argv| <= MAXARGS && !BackgroundForm(argv) && (|argv| == MAXARGS ==> loggedIn)
    ensures Clears(Closing(argv, loggedIn, Goes))
  {
  }

  /**
   Client and handler agree exactly on the lines without ` -b`, and on `download` and `upload`
   lines of four words ending in `-b`. On any other line with ` -b` in it, `ls -b` or
   `upload a b -bx`, the client does not wait for a reply that clears its flag.
   */
  lemma FlagAgreement(text: Text)
    ensures Agrees(text) <==> (Flagged(text) ==> BackgroundForm(Argv(text)))
  {
    var argv := Argv(text);
    if BackgroundForm(argv) {
      FormIsFlagged(text);
    } else {
      ClearingReply(argv, true);
    }
    if !Flagged(text) && RunsBehind(argv) {
      assert WordsOf(text)[|argv| - 1] == argv[|argv| - 1];
      DashBIsFlag(text, |argv| - 1);
    }
    hide Argv, Flagged, BackgroundForm, RunsBehind, Closing, Clears;
    forall loggedIn, outcome
      ensures BackgroundForm(argv) ==> !Clears(Closing(argv, loggedIn, outcome))
      ensures !RunsBehind(argv) ==> Clears(Closing(argv, loggedIn, outcome))
    {
      ClosingOfForm(argv, loggedIn, outcome);
    }
  }
}
