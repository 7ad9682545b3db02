# A verified model of the file server

The repository is a multi-user file server. A handler process serves each client, a privileged
helper process serves each request of a handler, and a registry in shared memory holds the
user-to-user transfers. This project models its five hard parts in Dafny and proves what holds
of every input and of every interleaving. `dafny verify dfyconfig.toml` checks the whole project.

| part | modules |
|---|---|
| bytes, descriptors with short reads and writes, runs of a state machine | `Bytes`, `Streams`, `Runs` |
| file commands under advisory locks | `FileSpec`, `LockPlans`, `FileHandlers` (one process, in place), `FileServer`, `FileServerProof`, `FileServerTheorems`, `FileServerRuns`, `FileServerFinish` (any number of processes), `LockWaits` |
| byte pipelines and framing | `Pipeline`, `Relay`, `Frames`, `SocketLock`, `SocketDelivery` |
| command codecs | `Words`, `WriteCommand`, `HelperRequest`, `EndToEnd` |
| transfer registry | `Registry` (in place), `TransferRuns`, `TransferTheorems`, `TransferEffects`, `TransferAsked`, `TransferGoes`, `TransferNotices`, `TransferCounts`, `TransferOrphans` |
| client flow control | `ClientCommands`, `ClientFlow`, `ClientPorts` |
| user creation | `UserCreation` |

Where processes run side by side, a module defines a state, the steps of each process, and
`Run`: the finite sequences of states that begin in an initial state and go on by steps.
Theorems are about the states of any run: what holds in them, and which runs there are from them. Loops that fill buffers, walk over arguments, scan
slots or copy bytes are methods with invariants, each proved against functions on values. The
registry machine (`TransferRuns`) takes its steps from the functions the methods of
`Registry.SharedRegistry` are proved equal to, and `LockWaits` takes its plans from the
contracts of `FileHandlers`. The methods of `FileHandlers` and `Relay` and the machines
`FileServer` and `Pipeline` are two models of the same loops, each proved on its own; what they
share is the meaning of a read and a write in `FileSpec`.

`fcntl` locks follow the System Interfaces volume of POSIX.1-2017: owned by a process, shared or
exclusive, dropped when the process closes the file. `StrTok` follows section 7.24.5.8 of
ISO/IEC 9899:2011.

## Assumptions

The code gives no more than these, so the model takes them as given.

- `sem_wait` is not interrupted and no signal arrives in the middle of a header.
- User names have at most 19 characters and file names fit `FILENAME_SIZE`.
- The registry starts out zeroed and fewer than 2^31 transfer ids are issued.
- File sizes are below 2^31 and integers on a command line fit an `int`; sizes are unbounded
  where the model says so (the announced download length is taken modulo 2^32).
- A handler's process id is fresh when it logs in.
- `adduser` and `deluser` either do their work or change nothing.

Calls can fail at any time: opening, locking, reading, writing and sending in `FileHandlers`
and `FileServer` (where a contract says `reliable`, they do not), reads and sends in `Pipeline`
and `Relay`, the lock and every write in `SocketLock`, the sending of every reply in
`ClientFlow`, every system call in `UserCreation`. The codecs and `EndToEnd` are about streams
that deliver what was written.

## What the code does not keep

Each of these is a proved statement about the code as it is.

- **Trailing space in `write`.** A command line that ends in a space sends its further spaces and
  the terminating NUL into the file in front of the content. The content arrives unchanged if and
  only if there is no trailing space (`WriteCommand.ContentRoundTrip`).
- **"concluded" is not complete.** The handler reports a concluded download after its loop however
  the loop ended (`Pipeline.ConcludedIsNotComplete`). The copy is whole if and only if the loop
  ended by its own test and the size is below 2^32 (`Pipeline.DownloadOutcome`).
- **The socket lock protects only its users.** Notifications and the replies of all commands but
  `download` and `upload` are sent without it. Never two are sending at a time, in any run, if
  and only if everybody who shares the socket locks it (`SocketLock.OneAtATime`). Of two that do
  not both lock it, either can put its whole frame into any place of the other's
  (`SocketLock.FrameInsideFrame`), and if one has a text to send there is a run in which both
  sends succeed and the client first decodes a message nobody sends
  (`SocketLock.UnlockedSenderTearsFrames`).
- **A failing write tears a frame.** `writeAll` gives up in the middle of a frame when a write
  fails, as on a signal, the lock is released, and others go on sending. With everybody locking,
  the stream is whole frames if and only if no write failed within a frame
  (`SocketLock.FramesStayWhole`).
- **` -b` means two things.** The client looks for it anywhere in the line, the handler looks at the
  last word of a `download` or `upload`. They agree exactly on the lines named by
  `ClientCommands.FlagAgreement`; after any other line a later command is taken as answered by the
  wrong reply (`ClientFlow.DisagreementBreaksPairing`).
- **A logout can leave a request behind.** A request is stranded, without a session of its
  receiver that could act on it, if and only if it is created when no such session is left, the
  receiver having been seen online before (`TransferOrphans.StrandedByCreate`); such runs exist
  (`TransferOrphans.LogoutLeavesOrphan`).
- **A transfer takes a failing read for end of file** and reports success with a part of the
  source. It delivers the source if and only if all of it was read and source and destination are
  different files, or the source is empty (`FileHandlers.HelperProcess.HandleTransfer`).
- **Transfers that copy in a circle** can end up waiting for each other's locks, and nothing else
  can (`LockWaits.DeadlocksAreFileCycles`).
- **More than five arguments** would not survive the helper request; no handler sends more than
  four (`HelperRequest.RequestsRoundTrip`).

## Model

| member | source | states |
|---|---|---|
| `Streams.ReadAll` | src/common/utility.c:29-40 | whatever pieces the kernel delivers, either exactly the first `len` waiting bytes are in the buffer and consumed, or end of file came first and 0 is returned; the rest of the buffer is untouched |
| `Streams.WriteAll` | src/common/utility.c:19-27 | success if and only if all bytes were written, in order; a failure leaves a proper prefix of them |
| `FileSpec.DataAfterPadding` | src/server/helper/helper.c:771-797 | padding with spaces up to the offset and then writing equals the one-step write: no hole of NULs is left |
| `FileSpec.ReadAfterWrite` | src/server/helper/helper.c:693-715 | a read at the offset of a write returns the written data, then what the old file had behind it, cut at 4096 bytes |
| `FileSpec.WritesCommute` | src/server/helper/helper.c:771-790 | two writes give the same file in either order if and only if they put the same bytes where they overlap; so disjoint writes commute even past the end of file |
| `FileHandlers.HelperProcess.Pad` | src/server/helper/helper.c:771-780 | the padding loop leaves the file padded with spaces exactly up to the offset, or up to where a call failed |
| `FileHandlers.HelperProcess.HandleWrite` | src/server/helper/helper.c:735-818 | success if and only if the file is regular and the offset not negative (no call failing), and then the file is the atomic write of the data; any failure leaves a part of that write; no lock is left |
| `FileHandlers.HelperProcess.HandleRead` | src/server/helper/helper.c:668-733 | success if and only if the file is regular and the offset inside it, and then the payload is the file from there, at most 4096 bytes; nothing changes; no lock is left |
| `FileHandlers.HelperProcess.HandleDownload` | src/server/helper/helper.c:821-874 | what is sent is a prefix of the file, the whole file when no call fails; the announced length is the size modulo 2^32; no lock is left |
| `FileHandlers.HelperProcess.HandleUpload` | src/server/helper/helper.c:876-921 | afterwards the file holds a prefix of the incoming stream, all of it when no call fails; after a failure nothing has changed but a truncation; no other file is touched; no lock is left |
| `FileHandlers.HelperProcess.HandleCreate` | src/server/helper/helper.c:478-535 | the file exists and is empty, or nothing changed but a truncation; the lock does not outlive the double close |
| `FileHandlers.HelperProcess.HandleDelete` | src/server/helper/helper.c:565-615 | the name is gone on success, nothing changed on failure; no lock is left |
| `FileHandlers.HelperProcess.HandleMove` | src/server/helper/helper.c:616-666 | on success the content is unchanged under its base name in the directory, a name that was free; success if and only if that directory exists and the name is free (a regular file, no call failing); otherwise nothing changed; no lock is left |
| `FileHandlers.MoveTarget` | src/server/helper/helper.c:638-647 | the target is the directory, one slash, and the longest part at the end of the path that has no slash in it |
| `FileHandlers.HelperProcess.HandleTransfer` | src/server/helper/helper.c:925-984 | a successful transfer delivers the part of the source that was read before end of file or a failing read; it delivers the source if and only if all of it was read and source and destination differ or the source is empty; other files are untouched; no lock is left |
| `FileServerTheorems.Linearizable` | src/server/helper/helper.c:668-874 | in every interleaving of the system calls of any number of reads, writes and downloads, a file nobody is writing holds the committed writes applied whole in the order their locks were granted; each of them is one command's own write, or of a failed command its first bytes or some of its padding; each successful read or download returned a slice of the file between two of them; a command none of whose calls failed succeeded if and only if it had found its file, or was a write, and its offset was in range |
| `FileServerTheorems.RealTimeOrder` | src/server/helper/helper.c:735-818 | that atomic order respects real time: a command that had no lock yet at one moment comes after every write committed by then |
| `FileServerTheorems.NoLockCycle` | src/server/helper/helper.c:668-874 | whoever waits for a file lock, or has finished, holds none |
| `FileServerTheorems.NeverStuck` | src/server/helper/helper.c:668-874 | while a command is unfinished some process can make its next call without an error |
| `FileServerRuns.NamesComeFromWrites` | src/server/helper/helper.c:748-752 | over every run, a file that was not there at first was added by a write command on it, at its first call |
| `FileServerRuns.SuccessFoundFile` | src/server/helper/helper.c:679-683 | over every run, a read or download that reports success found its file when it made its first call, which changed no file |
| `FileServerRuns.AnswerFits` | src/server/helper/helper.c:668-874 | over every run, a finished command none of whose calls failed succeeded if and only if its file was there at its first call, for a write in any case, and its offset fits the version of the file it was given |
| `FileServerFinish.EverybodyFinishes` | src/server/helper/helper.c:668-874 | from every reachable state some run, no further call failing, brings every command to its end |
| `FileHandlers.HelperProcess.LockFile` | src/common/utility.c:112-138 | asks for one lock in the given mode, and for an exclusive one only on what can be opened for writing |
| `FileHandlers.HelperProcess.SysWrite` | src/server/helper/helper.c:771-797 | file data is written only under an exclusive lock of the file (its precondition, met by every handler), and a call takes any part of the bytes or fails |
| `LockWaits.WaitCyclesAreFileCycles` | src/server/helper/helper.c:945-968 | handlers can come to wait for each other in a circle if and only if they are transfers of which each writes the file the next one reads |
| `LockWaits.NoTransferNoWaitCycle` | src/common/utility.c:112-183 | in any run of handlers other than `transfer`, each asking for the locks its contract in `FileHandlers` names, nobody who waits for a lock holds one, and no wait cycle exists |
| `LockWaits.DeadlocksAreFileCycles` | src/server/helper/helper.c:945-968 | some run of given handlers ends in a deadlock, processes of which each waits for another of them, if and only if transfers among them copy in a circle |
| `LockWaits.SomebodyGoesOn` | src/server/helper/helper.c:478-984 | unless transfers copy in a circle, in every run some unfinished process is blocked by nobody, and is granted its next lock, or has all of its plan and finishes |
| `Pipeline.BytesConserved` | src/server/handler/handlers.c:690-712 | in every interleaving, chunking and failure of the three processes, destination, buffers, sockets and unread rest together are the source file, in order |
| `Pipeline.DownloadOutcome` | src/client/worker.c:118-131 | once the client meets end of file its copy is the server's file if and only if the relay loop ended by its own test and the size is below 2^32 |
| `Pipeline.UploadOutcome` | src/server/helper/helper.c:901-908 | once the helper meets end of file the stored file is the client's file if and only if nothing was left in the relay, the socket or the client; so whenever both loops before it ended at end of file |
| `Pipeline.CopyCompletes` | src/server/handler/handlers.c:690-712 | from every reachable state in which nobody has failed some run without a failure ends with all three processes finished: an upload is then the whole file, a download the announced part, which is the whole file below 2^32 bytes |
| `Pipeline.EverybodyEnds` | src/server/handler/handlers.c:774-781 | from every reachable state, whoever has failed, some run without another failure ends all three processes |
| `Pipeline.DestIsPrefix` | src/client/worker.c:59-71 | at any moment the destination is an initial part of the source |
| `Pipeline.ConcludedIsNotComplete` | src/server/handler/handlers.c:699-718 | a run in which the handler goes on to report a concluded download though the copy is not complete |
| `Relay.RelayDownload` | src/server/handler/handlers.c:690-712 | what is passed on is a prefix of what the helper sent, exactly the announced number of bytes unless the loop broke |
| `Relay.RelayUpload` | src/server/handler/handlers.c:774-781 | what is passed on is a prefix of what the client sent, all of it up to end of file when no call fails |
| `Frames.DecodeFrame` | src/server/net/net.c:88-97 | a frame in front of a stream is decoded to its message, whatever follows |
| `Frames.DecodePartial` | src/client/worker.c:156-176 | an incomplete frame is decoded to nothing yet |
| `Frames.TextArrives` | src/server/net/net.c:164-176 | status, flag and text of a text message are recovered from its frame, negative statuses included |
| `Frames.SendMessage` | src/server/net/net.c:88-97 | success if and only if the whole frame was written; a failure leaves a proper prefix |
| `Frames.ReceiveAll` | src/client/worker.c:156-176 | the reader's loop yields exactly the messages of the byte stream, however it is cut into reads |
| `SocketLock.FramesStayWhole` | src/server/net/net.c:80-97 | with every sender using the lock, in every interleaving of partial and failing writes the stream is the frames of the messages sent, in lock order, and a part of the frame being sent, if and only if no write failed within a frame; then the client decodes exactly those messages; a failed lock call sends nothing |
| `SocketLock.OneAtATime` | src/server/net/net.c:177-202 | from given senders no run has two of them sending at a time if and only if every two of them both lock |
| `SocketDelivery.AllCanBeDelivered` | src/server/net/net.c:80-97 | with every sender using the lock, from every reachable state some run sends all that is left, every message whole; if no frame was torn before, the client has then decoded exactly the messages sent whole |
| `SocketLock.FrameInsideFrame` | src/server/net/net.c:164-202 | of any two senders that do not both lock, one can put its whole frame into any place of the other's, both sends succeeding |
| `SocketLock.UnlockedSenderTearsFrames` | src/server/net/net.c:164-202 | for any two senders that do not both lock, one with a text to send, a run in which both sends succeed and the client first decodes a message nobody sends |
| `Words.WordsAreTheMaximalRuns` | src/server/handler/handlers.c:205-214 | the words of a line are exactly its maximal runs of non-spaces, from left to right |
| `Words.AtoiOfDecimal` | src/server/handler/handlers.c:603-604 | a decimal number on the command line is read back as itself |
| `WriteCommand.BuildPayload` | src/client/worker.c:305-326 | the payload of a write message is the command line, a NUL, and all of standard input |
| `WriteCommand.CutKeepsTail` | src/server/handler/handlers.c:205-214 | tokenizing changes no byte at or after the end of the command line |
| `WriteCommand.TokenizeCommand` | src/server/handler/handlers.c:205-214 | the in-place tokenizer leaves in the buffer exactly one NUL behind each word it looked at, and in `argv` the starts of the first five words |
| `WriteCommand.ParseWrite` | src/server/handler/handlers.c:585-612 | the pointer arithmetic over the tokenized buffer finds path, offset and data as the command line means them |
| `WriteCommand.ContentRoundTrip` | src/server/handler/handlers.c:585-593 | the content is recovered unchanged if and only if the command line does not end in a space |
| `WriteCommand.WriteRoundTrip` | src/server/handler/handlers.c:585-612 | with two words, or three of which the second is `-offset=N`, and no trailing space, path, offset and any content come back exactly |
| `HelperRequest.SendRequest` | src/server/net/net.c:99-129 | the loops append exactly the encoding of the request to the socket |
| `HelperRequest.UnpackJoined` | src/server/helper/helper.c:146-159 | walking over the argument block with `strlen` gives back the first five arguments |
| `HelperRequest.HandleCommands` | src/server/helper/helper.c:132-168 | the requests acted on are those of the byte stream, however it is cut into reads |
| `HelperRequest.RequestsRoundTrip` | src/server/helper/helper.c:132-168 | requests written back to back are decoded one for one, aligned, and equal to the ones sent if and only if none has more than five arguments |
| `EndToEnd.RunWrite` | src/server/handler/handlers.c:579-632 | from the client's terminal through message, tokenizer, request and helper: without a login, or on a usage error, nothing changes; else the file is the atomic write of what the command line means, reported as success exactly when it happened |
| `EndToEnd.WriteThenRead` | src/server/helper/helper.c:668-818 | `write -offset=N path` with any content, read back at N, gives that content and then what the file had behind it; other files are untouched |
| `Registry.SharedRegistry.CheckForNotifications` | src/server/handler/handlers.c:78-110 | afterwards no request is pending at the user and no rejection of theirs is left, each such slot having been announced or freed and every other slot being unchanged; the snapshot has one line for each of them, in slot order, saying which of the two it is, within the two arrays |
| `Registry.SharedRegistry.CleanupUserRequests` | src/server/handler/handlers.c:130-142 | the loop frees exactly the slots addressed to the user, clearing their names |
| `Registry.SharedRegistry.CreateRequest` | src/server/handler/handlers.c:829-852 | the first free slot is filled under a new id; refused if and only if every slot is taken |
| `Registry.SharedRegistry.Accept` | src/server/handler/handlers.c:872-888 | found if and only if some slot is announced to this user under this id; that slot alone is freed |
| `Registry.SharedRegistry.Reject` | src/server/handler/handlers.c:919-941 | the first occupied slot with the id decides the answer, and is turned into a rejection if it is this user's |
| `Registry.SharedRegistry.InsertOnline` | src/server/handler/handlers.c:292-306 | the first inactive entry becomes this session's; a full table is left as it is |
| `Registry.LoginIsEntered` | src/server/handler/handlers.c:292-306 | a login has its entry unless the table is full of active ones, and disturbs no active one |
| `Registry.SharedRegistry.RemoveOnline` | src/server/handler/handlers.c:187-201 | the first entry with this process id is deactivated, nothing else |
| `Registry.SharedRegistry.FindOnline` | src/server/handler/handlers.c:812-819 | the handler of the first active entry under the name, or 0 |
| `Registry.OnlinePid` | src/server/handler/handlers.c:812-819 | a process id other than 0 is that of an active entry of the user; the answer is 0 if and only if nobody of that name is active, active entries having process ids |
| `TransferRuns.StepKeepsInv` | src/server/handler/handlers.c:78-142 | every critical section of every session keeps slots, ids, terms and recorded lives consistent |
| `TransferTheorems.RegistryInvariant` | src/server/handler/handlers.c:829-847 | in every reachable state a slot has a nonzero id if and only if it is PENDING or NOTIFIED, and such ids are distinct and between 1 and the counter |
| `TransferTheorems.RequestLife` | src/server/handler/handlers.c:875-888 | over every run each id lives one of eleven lives: announced at most once, leaving the open states at most once, by exactly one of accept, reject and the receiver's logout; every event is the doing of a session of the user it belongs to |
| `TransferTheorems.LifeFacts` | src/server/handler/handlers.c:922-941 | no event happens twice to a request, an accepted one was announced just before and is never rejected or dropped, a reported one was rejected just before |
| `TransferTheorems.HistoryGrows` | src/server/handler/handlers.c:829-847 | what is recorded of a request only grows along a run, and its sender, receiver and file name never change |
| `TransferTheorems.AcceptMeans` | src/server/handler/handlers.c:870-888 | accept, given any number at all, succeeds if and only if it is the id of a request announced to this user and not resolved yet |
| `TransferTheorems.RejectMeans` | src/server/handler/handlers.c:919-941 | reject of an issued id succeeds if and only if the request is open and this user's, announced or not; 0 is answered by the first rejected slot; any other number is not found |
| `TransferTheorems.RejectZeroChangesNothing` | src/server/handler/handlers.c:917-941 | `reject 0` may find a rejected slot and changes nothing at all |
| `TransferTheorems.OnlyPartiesTouch` | src/server/handler/handlers.c:78-142 | an open request is changed only by its receiver's sessions, a rejected one freed only by its sender's notification or its receiver's logout, and until then its terms stay |
| `TransferEffects.NotifyTellsAll` | src/server/handler/handlers.c:89-108 | after a notification step no request waits for the session's user; what was pending at them is announced, what was rejected of theirs is freed, every other slot is as it was |
| `TransferEffects.AcceptFrees` | src/server/handler/handlers.c:874-886 | accepting a request announced to this user frees its slot and changes no other |
| `TransferEffects.RejectTurns` | src/server/handler/handlers.c:924-939 | rejecting a request open at this user turns its slot into a rejection with the same names and changes no other |
| `TransferEffects.LogoutFrees` | src/server/handler/handlers.c:130-142 | a logout frees the slots addressed to its user and changes no other |
| `TransferAsked.IssuedAsAsked` | src/server/handler/handlers.c:809-847 | over every run, sender, receiver and file name of every request issued are the user of the issuing session and what it had asked for at its last transfer command, when that receiver was online |
| `TransferGoes.CanAsk` | src/server/handler/handlers.c:811-825 | a session that takes commands can ask for a transfer to a user if and only if that user is online |
| `TransferGoes.TransferGoesThrough` | src/server/handler/handlers.c:829-888 | from every reachable state with a slot free, any session's transfer to the user of another session who is online can be issued, announced and accepted |
| `TransferGoes.RejectionIsReported` | src/server/handler/handlers.c:919-941 | from every such state it can be issued, rejected and reported back to its sender |
| `TransferTheorems.RunInv` | src/server/handler/handlers.c:284-306 | in every reachable state active entries of the online table have distinct process ids, each of a session still logged in under that name |
| `TransferTheorems.EntryClearedByOwner` | src/server/handler/handlers.c:187-201 | an active entry changes only by the logout of its own session, also when other logins found the table full |
| `TransferNotices.NoticesAreEvents` | src/server/handler/handlers.c:81-110 | a snapshot has a line for a request if and only if the step records its announcement or the report of its rejection to this session, one line at most, and never more lines than slots |
| `TransferNotices.RecordedMeansTold` | src/server/handler/handlers.c:81-110 | over every run, each announcement and each reported rejection on record was a line in the snapshot of a step of that run |
| `TransferNotices.ToldOnce` | src/server/handler/handlers.c:81-110 | over every run, a request is in the snapshot of at most one step as new and of at most one step as rejected |
| `TransferNotices.AcceptedWasTold` | src/server/handler/handlers.c:877-879 | whenever a step of a run accepts a request, an earlier step told it to a session of its receiver |
| `TransferCounts.SlotConservation` | src/server/handler/handlers.c:829-852 | in every reachable state the occupied slots are the requests created less the accepted, the reported and the dropped ones, and at most twenty |
| `TransferCounts.RefusedWhenFull` | src/server/handler/handlers.c:829-852 | a request is refused if and only if all slots are occupied, and then nothing changes |
| `TransferOrphans.StrandedByCreate` | src/server/handler/handlers.c:811-852 | a step leaves a request without a session of its receiver that can act on it if and only if it creates one, a slot being free, when no such session is left |
| `TransferOrphans.OrphansAreStranded` | src/server/handler/handlers.c:187-201 | along any run a stranded request exists at some time if and only if some step of the run is such a creation |
| `TransferOrphans.OrphansArePending` | src/server/handler/handlers.c:130-142 | a stranded request has never been announced or rejected, in every run |
| `TransferOrphans.LogoutLeavesOrphan` | src/server/handler/handlers.c:187-201 | a run after which a request is stranded |
| `ClientCommands.FlagAgreement` | src/client/worker.c:293 | client and handler agree on foreground and background, whatever happens, if and only if the line has no ` -b` in it or is a four-word transfer ending in `-b` |
| `ClientFlow.Pairing` | src/client/worker.c:238-262 | if they agree on every command sent, each foreground command is followed by the clearing of the flag by its own closing reply, with no command sent in between, and nothing else ever clears the flag |
| `ClientFlow.WaitingEnds` | src/client/worker.c:335-356 | the client waits exactly from a foreground command to the reply to it, and while it waits that reply is due if and only if it was not given up and the command's child has not died |
| `ClientPorts.PortsAnswerTransfers` | src/server/handler/handlers.c:673-679 | over every run, each announced port answers a download or an upload of three or four words, by a message of that kind, and a login was entered before it |
| `ClientPorts.LoginOpensTransfers` | src/server/handler/handlers.c:284-290 | after a login that goes well, a run in which a transfer command is announced a port of its kind |
| `ClientFlow.DisagreementBreaksPairing` | src/server/handler/handlers.c:636-797 | after any line on which they disagree there is a run in which the reply to it clears the flag of the next command |
| `UserCreation.IsUsernameValid` | src/server/utils/utils.c:21-35 | valid if and only if 1 to 20 letters and nothing else |
| `UserCreation.AccountsAreTheSuccesses` | src/server/helper/helper.c:246-344 | whenever the creation lock is free the accounts are the initial ones and those of the successful calls; a failed call leaves no trace unless its `deluser` failed too; per name at most one call succeeds |
| `UserCreation.AnswerIsTheLookup` | src/server/helper/helper.c:261-344 | over every run, a returned call none of whose system calls failed looked its name up under the lock, and succeeded if and only if the name was not taken then |
| `UserCreation.CallCanBeMade` | src/server/helper/helper.c:246-344 | from every reachable state in which nobody holds the lock, a call can go through: it succeeds if and only if its name is free, and the accounts are then the old ones and the name |
| `UserCreation.LockIsReleased` | src/server/utils/utils.c:148-182 | a call holds the creation lock exactly between taking it and its return, on every path |

## Left out

- chroot, privilege dropping, path resolution and links: kernel semantics; a path is one file name, so `cd`, `ls` and the path checks of `transfer` are not modelled, and `move` compares names.
- `create`, `upload`, `delete`, `move` and `transfer` in the interleaved file machine: they truncate, unlink or rename before or without the lock readers use, so snapshot reads do not hold against them; each is modelled as one process in `FileHandlers`.
- Socket setup, accepting connections, `DATA_PORT` parsing, terminal output and server shutdown.
- The rendering of `ls` entries and the parsing of octal permissions.
- Response messages: a response is its status and its payload; `helper_response` is sent whole.
- Delivery of every notification: a signal can be lost between the test of the flag and the next read.
- The client's count of background operations.
- Padding bytes of the helper request header: its fields are laid out as on x86-64 Linux, where there are none.
- Malformed helper requests: an argument block without its last NUL, or with fewer strings than announced, makes the C loop read on past the block; the model stops at its end.
- ClientFlow.Pairing: messages to the client are whole and in order, which `SocketLock.FramesStayWhole` gives for locked senders whose writes do not fail within a frame.
- EndToEnd.RunWrite: one command at a time and no failing call; failures and interleavings are in `FileHandlers` and `FileServer`.
- LockWaits.WaitCyclesAreFileCycles: the kernel may answer such a wait with EDEADLK, upon which the transfer gives up; the model only says when the circle arises.
- UserCreation.AccountsAreTheSuccesses: home directories are not modelled, so nothing is said of one that existed before.
- FileServerTheorems.NeverStuck: some process can move, and `FileServerFinish.EverybodyFinishes` gives a run in which all finish; that every run does would need a fair scheduler.
