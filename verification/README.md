# Control Room native helpers and browser latches: a Dafny model

This project models the protocols that Control Room relies on to keep its promises when processes
die, disks lose unsynced data and replies arrive in any order, and proves what those protocols keep.
`dafny verify dfyconfig.toml` checks all of it.

| files | what they model |
|---|---|
| `Custody`, `CustodyProofs`, `CustodyCleanup`, `CustodyConduct`, `CustodyExamples`, `CustodySuccess` | the process-custody protocol: supervisor, group anchor, custodian and target as interleaved steps over a record of what the kernel knows |
| `Wrappers`, `Bytes`, `JournalNames`, `JournalList`, `JournalFrames`, `JournalSpec`, `JournalProofs`, `JournalAnswers`, `JournalSession` | the installation-journal session: byte framing, file-name grammar, list payload, command semantics, and the command loop over short reads |
| `PublisherDisk`, `Publisher` | the configuration publisher over a file system with volatile and durable state, other writers, and a crash possible in every state |
| `Paths` | the path splitters of three helpers |
| `Service` | one run of the LaunchAgent custodian, with other writers between its steps |
| `OperationsControl`, `RunPanel`, `Workboard` | three browser state machines: the operations-mode reader/writer, the Start/Stop panel of a loop run, the capacity-expiry redraw |

Programs that change state step by step are classes and methods with loops; their contracts tie the
new state to a specification, and the theorems are about that specification. Concurrency is a state
machine whose steps may come in any order. System calls that may fail, deadlines that may pass and
short reads or writes are nondeterministic.

## How the results fit together

**Custody.** `Custody.Run` executes any finite sequence of steps of the four parties and of their
environment (abrupt deaths, lost anchors, refused kills, forks of the target, reuse of a freed
number). `CustodyProofs.InvariantOfRun` gives one invariant of every reachable state, built from one
lemma for each program point; the theorems read it off. Exit codes 0 and 1 are characterised exactly
(`ReturnCodeIsProof`, `ReturnCodeIsExact`), and `EveryStatusCanBeReported` gives, for every status of
the target, a run that reports it and returns 0. Whatever the code, a supervisor that returns leaves
nothing running unless the system refused one of its group kills (`FinishedLeavesNothing`). `CustodyConduct`
says what must have happened before a target starts, is signalled or is killed. The order of the supervisor's two observations
matters: `SwappedObservationsMisjudge` gives a run of the protocol with the two swapped in which a declared
kill is judged unexpected, which `DeclaredKillIsNeverUnexpected` excludes for the order of the source.

**Journal.** `JournalSpec` says what each command does to a directory; `JournalProofs` proves what a
whole session keeps, over a history of commands with their replies, and `JournalAnswers` what each answer
says of the directory and when a client gets it; `JournalFrames` parses commands
from bytes. `JournalSession` is the imperative program. For every stream of bytes, however it is split
into short reads and wherever it is interrupted, `RunSession` has run a prefix of the commands in the
stream (`Done`), so the theorems about runs hold of it.

**Publisher.** Every state a run passes through is kept in a ghost history (`Recorded`). Each is
`Secure`, which implies that a crash there leaves `Protected` absent, not ours, or complete
(`SecureSurvivesCrash`), and each follows from the one before by a `Polite` step of this run or an
`Interferes` step of others, which gives `PreexistingSurvivesCrash`. Which calls fail is a parameter of
the run, so `Publish` states how far it comes as an equivalence for every choice of failures.

**Where the code does less than one might expect**, each with the exact condition and an input:

- `Workboard.ExpiryContent.Schedule`: the board agrees with a direct freshness test until its timer is
  due if and only if the effect runs before the computed expiry. When it runs later, no timer is set
  and the row stays shown as fresh (`Workboard.MissedExpiryStaysShown`).
- `OperationsControl.Control.OnWriteReply`: the read awaited after a confirmed write was started before
  the reply if and only if a read was pending when the reply came. `OperationsControl.RefreshDuringWrite`
  is such a run of the hook, whose `refresh` joins while a write is out; the one button of the page that
  calls it is disabled then.
- `CustodyProofs.ReturnCodeIsExact`: a custodian that exited 0 is not enough for exit code 0
  (`CustodyExamples.CleanCancelMayReturnTwo`).
- `Publisher.Publication.Publish`: with nobody else writing, a run that fails before the rename leaves
  the parent as it was if and only if it made no temporary directory, or held all three objects and
  removed them; a failure in between is not rolled back (`Publisher.FailureLeavesTemporary`). What was
  removed stays away after a crash if and only if the last sync succeeds too.
- `JournalFrames.DeviceIsTruncated`: a command carries a 64-bit device number that the program stores in
  32 bits, so two commands that differ in the device are the same if and only if the devices agree
  modulo 2^32; one that names a wider device acts on another file
  (`JournalFrames.WideDeviceActsOnAnother`).

## Model

| member | source | states |
|---|---|---|
| `CustodyProofs.InvariantOfRun` | native/claude-code-process-v1.c:489-559 | every reachable state of every interleaving satisfies the protocol invariant: shapes of the program points, the kernel's view, the order of intent and kill, and the record |
| `CustodyProofs.ReturnCodeIsProof` | native/claude-code-process-v1.c:489-559 | exit code 0 or 1 implies: custodian reaped with that status, anchor reaped, no unexpected loss, group seen absent after both reaps, nothing left running; 0 implies a final EXIT or CANCELLED |
| `CustodyProofs.ReturnCodeIsExact` | native/claude-code-process-v1.c:544-559 | a finished run returned 0 (or 1) if and only if its record shows both reaps before the observed absence, that exit status, and no unexpected loss |
| `CustodyProofs.AbsenceIsFinal` | native/claude-code-process-v1.c:343-347 | once either party has seen the group absent, no later step brings a process of it back |
| `CustodyProofs.SignalsArePinned` | native/claude-code-process-v1.c:321-348 | every non-zero group signal is sent while an unreaped process known to its sender pins the number, never reaches a stranger, and never follows the sender's own reap |
| `CustodyProofs.DeclaredKillIsNeverUnexpected` | native/claude-code-process-v1.c:496-521 | an anchor death caused by the custodian's group kill is never classified as unexpected |
| `CustodyProofs.StatusStreamIsHonest` | native/claude-code-process-v1.c:359-423 | statuses are ordered VERIFIED, STARTED, one terminal; EXIT follows the reap of that status and an observed absence; REFUSED means no target was resumed and none that was spawned remains |
| `CustodyProofs.WatchdogLeavesNoSurvivor` | native/claude-code-process-v1.c:461-467 | after the custodian is gone and the anchor has read the end of its pipe, whatever happens before its next statement, once it runs that statement nothing of the group runs then or at any later time |
| `CustodyProofs.WatchdogKillIsFinal` | native/claude-code-process-v1.c:461-467 | once the anchor has died of its own kill, nothing of the group ever runs again |
| `CustodyCleanup.FinishedLeavesNothing` | native/claude-code-process-v1.c:496-550 | a supervisor that returns, whatever its code and whatever else failed, leaves nothing of the group running then or at any later time, unless the system refused one of its group kills |
| `CustodyCleanup.ExitedLeavesNoTarget` | native/claude-code-process-v1.c:327-348 | a custodian that exits, whatever its last message, leaves neither the leader nor any member running, unless the system refused its group kill |
| `CustodyConduct.NothingStartsUnchecked` | native/claude-code-process-v1.c:378-394 | a target is spawned only after verification, VERIFIED and GO, and resumed only after the second verification too |
| `CustodyConduct.SignalsNeedOwnership` | native/claude-code-process-v1.c:321-326 | the custodian signals the group only after a spawn whose group it verified |
| `CustodyConduct.KillCommandLeavesNoSurvivor` | native/claude-code-process-v1.c:411-414 | a KILL or CANCEL read while serving is declared and sent by the next two statements, and then nothing of the group runs at any later time, if the custodian lives to run them and the kill is not refused |
| `CustodyConduct.CommandsAreBounded` | native/claude-code-process-v1.c:395-410 | at most 32 commands are carried out |
| `CustodyConduct.ServiceEndsForGood` | native/claude-code-process-v1.c:396-415 | serving ends exactly at the finish of the leader, the deadline, an error, an unknown command, a refused TERM or the 33rd command, and is never resumed |
| `CustodyConduct.UndeclaredLossIsNeverExcused` | native/claude-code-process-v1.c:510-514 | an anchor seen dead while the custodian is not reaped and no kill was declared ends in code 2 or in none |
| `CustodyExamples.SwappedObservationsMisjudge` | native/claude-code-process-v1.c:496-514 | with the two observations swapped, some run judges a declared kill unexpected |
| `CustodyExamples.CleanCancelMayReturnTwo` | native/claude-code-process-v1.c:496-514 | some run returns 2 although the custodian exited 0 after CANCELLED |
| `CustodySuccess.EveryStatusCanBeReported` | native/claude-code-process-v1.c:395-403 | for every status a target may end with, some run sends VERIFIED, STARTED and EXIT with that status and returns 0 |
| `Bytes.DecodeEncode` | native/installation-journal-session-v1.c:78-93 | decoding an encoded value that fits the width gives it back |
| `Bytes.EncodeDecode` | native/installation-journal-session-v1.c:78-93 | encoding a decoded value gives the bytes back |
| `Bytes.DecodeBigEndian` | native/installation-journal-session-v1.c:78-86 | the shift-and-or loop computes the big-endian value |
| `JournalNames.CheckBasename` | native/installation-journal-session-v1.c:150-155 | accepts exactly the non-empty names of at most 255 bytes that are not "." or ".." and hold no control byte or slash |
| `JournalNames.JournalNameValid` | native/installation-journal-session-v1.c:156-173 | accepts exactly the renderings of (installation id, ten-digit revision, kind), the temporary kind with a version-4 UUID |
| `JournalNames.AcceptsExactlyRenderings` | native/installation-journal-session-v1.c:156-173 | the tested conditions and the existence of a rendering are equivalent |
| `JournalNames.RenderInjective` | native/installation-journal-session-v1.c:156-173 | equal renderings have equal parts |
| `JournalNames.SuffixClassifies` | native/installation-journal-session-v1.c:174-180 | target, witness and temporary tests recognise exactly the rendered kind, so they partition the accepted names |
| `JournalList.ListRoundTrip` | native/installation-journal-session-v1.c:255-272 | the list payload decodes back to exactly the names in order |
| `JournalList.EncodeNamesBound` | native/installation-journal-session-v1.c:30-36 | entry and name limits imply the byte bound |
| `JournalList.CommandList` | native/installation-journal-session-v1.c:255-272 | the reply exists if and only if the entry and name limits hold, so the size test never decides, and it is the encoding of the visible names |
| `JournalFrames.HeaderRoundTrip` | native/installation-journal-session-v1.c:358-366 | a command header decodes back to the fields encoded |
| `JournalFrames.CommandRoundTrip` | native/installation-journal-session-v1.c:358-377 | every well-formed command parses back from its encoding followed by any bytes, consuming exactly its own |
| `JournalFrames.ParsedIsEncoded` | native/installation-journal-session-v1.c:358-377 | only encodings are accepted: a parsed command is permitted, and the bytes taken are its encoding with the expected ordinal, up to an identity or a limit it does not use and the high bits of a device |
| `JournalFrames.ServingIsRunning` | native/installation-journal-session-v1.c:358-393 | serving the encoding of any list of commands a client may send is running the list |
| `JournalFrames.StreamIsRun` | native/installation-journal-session-v1.c:358-393 | for every stream of bytes, serving it is running the commands in it, with the same state and replies |
| `JournalFrames.DeviceIsTruncated` | native/installation-journal-session-v1.c:378-378 | two headers that differ only in the device announce the same command if and only if the devices agree modulo 2^32 or the command uses no identity |
| `JournalFrames.WideDeviceActsOnAnother` | native/installation-journal-session-v1.c:378-378 | an UNLINK for device 2^32 + d is answered and removes a name of the file on device d |
| `JournalProofs.PublishedNeverChanges` | native/installation-journal-session-v1.c:297-357 | a target present at any point of a session keeps its name, inode and bytes for the rest of it |
| `JournalProofs.LinkedTargetHasLineage` | native/installation-journal-session-v1.c:297-341 | a target that appears in a session leads to a file held in a slot: the CREATE that returned its identity, the only accepted WRITE of it, whose payload it still holds, and a later SYNC_FILE were accepted in this order, and the LINK of that target after them, or it is the command the session failed on |
| `JournalProofs.RecreatedNameIsAnotherFile` | native/installation-journal-session-v1.c:231-235 | from any point of a session on, commands that carry another identity, that of another file created under the same name included, leave a created file's slot, bytes and exactly its names as they were; no two slots share an identity |
| `JournalProofs.ReadSessionOnlyRemoves` | native/installation-journal-session-v1.c:224-230 | a READ session changes no file and can only remove temporary or witness names |
| `JournalProofs.InspectSessionChangesNothing` | native/installation-journal-session-v1.c:224-230 | an INSPECT session leaves directory and files as they were |
| `JournalProofs.SessionAnswersInOrder` | native/installation-journal-session-v1.c:358-393 | the accepted commands are a prefix of those sent, one reply each, the k-th with ordinal k modulo 2^32, and nothing follows a failure or CLOSE |
| `JournalProofs.ListIsTheDirectory` | native/installation-journal-session-v1.c:255-272 | an answered LIST decodes to every name of the directory once |
| `JournalAnswers.ReadAnswersTheFile` | native/installation-journal-session-v1.c:283-296 | READ is answered if and only if the journal name leads to a regular file of 1 byte up to the limit of its kind and no call fails, and then with that whole file; nothing changes |
| `JournalAnswers.StatAnswersTheFile` | native/installation-journal-session-v1.c:273-282 | STAT of a journal name is answered with the file it leads to, and with none if and only if the name is not bound |
| `JournalAnswers.ListAnswersTheDirectory` | native/installation-journal-session-v1.c:255-272 | LIST is answered if and only if the entries are the directory within the limits, and decodes to them |
| `JournalAnswers.SessionsAnswerTheirOwn` | native/installation-journal-session-v1.c:224-230 | an INSPECT session answers only LIST, STAT, READ, VERIFY_ROOT and CLOSE, a READ session no command that creates, writes, syncs a file or links |
| `JournalAnswers.PlainCommandsAreAnswered` | native/installation-journal-session-v1.c:389-391 | SYNC_DIRECTORY, VERIFY_ROOT and CLOSE are answered if and only if the session has them and no call fails, and change nothing |
| `JournalAnswers.TakenNamesAreKept` | native/installation-journal-session-v1.c:297-341 | CREATE and LINK answer 1 if and only if the name is taken, then change nothing, and rebind no name |
| `JournalAnswers.UnlinkRemovesItsOwn` | native/installation-journal-session-v1.c:342-357 | UNLINK removes no name but its own, only while it leads to the file named, and is answered when it did or a missing name was allowed |
| `JournalAnswers.AnsweredFilesAreNamed` | native/installation-journal-session-v1.c:313-341 | WRITE, SYNC_FILE and LINK are answered only for a held file that its name still leads to, in the phase they need: written once within the limit of its kind, then synced once, then linked from a temporary name to a target |
| `JournalAnswers.CreateAddsAnEmptyFile` | native/installation-journal-session-v1.c:297-312 | CREATE, answered or not, leaves names and files as they were or adds an empty new file under its name |
| `JournalAnswers.WriteLeavesAPrefix` | native/installation-journal-session-v1.c:313-323 | WRITE, answered or not, changes no name, and of the files only its own, to a beginning of its payload, which is all of it when answered |
| `JournalAnswers.PublicationSucceeds` | native/installation-journal-session-v1.c:297-357 | in an append session with room, publishing a payload of 1 to 65536 bytes under free names is answered at every step and adds exactly the target, leading to a durable file with exactly the payload, which READ then returns |
| `JournalAnswers.SessionStaysTidy` | native/installation-journal-session-v1.c:297-323 | a session holds at most four files, creates only temporary and witness names, adds only journal names of its installation, and writes nothing empty or over the limit |
| `JournalAnswers.LinkedTargetReadsBack` | native/installation-journal-session-v1.c:283-341 | READ of a target linked in the session is answered unless a call fails, with the payload of the one accepted WRITE of its file |
| `JournalSession.Input.ReadExact` | native/installation-journal-session-v1.c:94-103 | fills the buffer with the next bytes for any split into short reads; unless the deadline passes or a poll or read fails, it fails only on a short stream |
| `JournalSession.Journal.WritePieces` | native/installation-journal-session-v1.c:313-323 | a write in pieces leaves exactly the written prefix |
| `JournalSession.Journal.HandleCommand` | native/installation-journal-session-v1.c:297-393 | state and reply after a command of any kind, refused and half-way failing ones included, are those of its specification |
| `JournalSession.Journal.ReadCommand` | native/installation-journal-session-v1.c:358-377 | reads exactly the command that parsing the rest of the stream gives |
| `JournalSession.Journal.RunSession` | native/installation-journal-session-v1.c:358-425 | for every stream of bytes and every split into short reads: uninterrupted, the replies and the directory are those of parsing the whole stream; interrupted, those of running exactly the commands answered; every published name is as it was |
| `PublisherDisk.SecureSurvivesCrash` | native/installed-configuration-v1.c:264-312 | whatever a crash leaves of a secure state, `Protected` is absent, not ours, or a directory with both files holding exactly the given bytes and an empty journal |
| `PublisherDisk.LastingSurvivesCrash` | native/installed-configuration-v1.c:300-312 | after a completed publication every crash image holds the complete tree |
| `PublisherDisk.OneVersionSurvivesCrash` | native/installed-configuration-v1.c:347-348 | a parent directory with one version is found so after every crash |
| `PublisherDisk.AnyVersionMayBeFound` | native/installed-configuration-v1.c:347-348 | any version of the parent that was not synced away may be what a crash leaves |
| `PublisherDisk.PreexistingIsLasting` | native/installed-configuration-v1.c:264-354 | a durable `Protected` present at the start stays bound as it was in every state of the run and in every version a crash may keep, unless another process touches it |
| `PublisherDisk.PreexistingSurvivesCrash` | native/installed-configuration-v1.c:264-354 | so a crash at any point of a run finds it bound as it was |
| `PublisherDisk.PublishedNameIsKept` | native/installed-configuration-v1.c:264-354 | across a run a bound `Protected` keeps its binding unless another process rebinds it |
| `PublisherDisk.InterferenceIsHarmless` | native/installed-configuration-v1.c:264-354 | moves of other processes outside the private tree keep every state secure |
| `Publisher.Publication.WriteAll` | native/installed-configuration-v1.c:248-253 | the write loop leaves exactly the bytes, with a crash possible between any two pieces |
| `Publisher.Publication.ReadBack` | native/installed-configuration-v1.c:255-262 | success means the file begins with the bytes meant |
| `Publisher.Publication.CreateWriteFile` | native/installed-configuration-v1.c:242-263 | a descriptor is kept if and only if the name was free and create, write, sync and comparison succeed, and then the file is new, complete and synced and nothing else changed; the call succeeds if moreover the deadline has not passed |
| `Publisher.Publication.SyncTree` | native/installed-configuration-v1.c:294-294 | both directories are durable with the entries they had |
| `Publisher.Publication.Rename` | native/installed-configuration-v1.c:295-301 | either the sealed tree gets the final name, which was free, or nothing changed |
| `Publisher.Publication.Rollback` | native/installed-configuration-v1.c:334-349 | with nobody else writing, the parent is exactly what it was if and only if the check and all removals succeed, and keeps the temporary name otherwise; the emptied tree is synced first; after a removal the parent has one version, so that no crash brings the name back, if and only if its sync succeeds |
| `Publisher.Publication.Publish` | native/installed-configuration-v1.c:264-354 | every state of the run survives a crash and every step is polite; a published tree is complete and lasting; with nobody else writing, whether the directory is made, held, renamed, published or removed is equivalent to which calls fail and which names are taken; before the rename the parent is as it was if and only if no directory was made or all was held and removed; a rolled back run leaves the parent with one version if and only if the last sync succeeds |
| `Publisher.FailureLeavesTemporary` | native/installed-configuration-v1.c:334-342 | a run that cannot create its second file leaves the temporary name behind |
| `Paths.JoinInjective` | native/installed-configuration-v1.c:182-204 | a path reads as components in at most one way |
| `Paths.Split` | native/installation-journal-session-v1.c:200-218 | returns the components whose joining is the path, within the limits, and refuses exactly when there are none; also the loop of native/installed-configuration-v1.c:182-204, with its bare root |
| `Paths.SplitScanning` | native/claude-code-process-v1.c:163-191 | the splitter that judges bytes while scanning accepts the same paths, read the same way |
| `Service.ContainsRunning` | native/macos-service-v1.c:398-404 | true if and only if the text occurs somewhere in the output |
| `Service.Run.ServiceStatus` | native/macos-service-v1.c:405-418 | registered if and only if launchctl exits 0, running if and only if moreover its output holds the text, stopped or not installed on 113 by the definition, and no state on any other code |
| `Service.Run.WriteAll` | native/macos-service-v1.c:292-298 | a completed write loop leaves exactly the bytes in the run's own file |
| `Service.Run.RenameExclusively` | native/macos-service-v1.c:299-305 | the rename binds the definition name only when it is free, to the run's own file with the bytes |
| `Service.Run.Publish` | native/macos-service-v1.c:282-317 | at most one publication, of exactly the bytes; every own step on the directory is gentle and one that binds the definition name is that publication; alone, the directory is unchanged, or has the new definition, or a temporary name that could not be removed |
| `Service.NamesAreKept` | native/macos-service-v1.c:282-317 | whoever else writes, between any two moments of a run the bound definition name, and every name but the temporary one, is bound as it was unless another process changed it: the definition is never replaced |
| `Service.Run.Transition` | native/macos-service-v1.c:419-431 | at most one launch verb, the one the operation and the registration call for |
| `Service.Run.Perform` | native/macos-service-v1.c:482-509 | at most one effect, the one asked for, and only when the directory held what the request expects and launchctl's answer permits it; FAILED_BEFORE_EFFECT implies none; a publication displaces nothing; the registration and the state seen and reported are those of the exit codes 0 and 113 and of the text in the output; a success reply describes the directory; alone, with no failing call and sensible answers, the run always answers |
| `OperationsControl.OneWriteAtATime` | private-app/app/operations-control.tsx:110-136 | a write is sent only after every earlier one finished |
| `OperationsControl.OnlyTheLatestReadApplies` | private-app/app/operations-control.tsx:61-89 | a cancelled, settled or superseded read never changes the view |
| `OperationsControl.ViewsFollowReadOrder` | private-app/app/operations-control.tsx:65-89 | views are applied in the order their reads were started |
| `OperationsControl.AppliedReadsFollowTheWrite` | private-app/app/operations-control.tsx:110-136 | every view applied after a write was sent comes from a read started after it was sent |
| `OperationsControl.AppliedReadsFollowTheReply` | private-app/app/operations-control.tsx:110-136 | a view applied after a write's reply comes from a read started after that reply, unless it is an explicit refresh started while the write was out |
| `OperationsControl.Control.Read` | private-app/app/operations-control.tsx:65-89 | starts a read unless one is pending, and names the one to await |
| `OperationsControl.Control.OnReadReply` | private-app/app/operations-control.tsx:71-87 | a reply to the pending read is shown or its failure told; a reply to any other changes nothing |
| `OperationsControl.Control.SetMode` | private-app/app/operations-control.tsx:110-121 | sends if and only if mounted, online and no write is pending, and cancels the pending read |
| `OperationsControl.Control.OnWriteReply` | private-app/app/operations-control.tsx:121-136 | the read awaited after a confirmed write is older than the reply if and only if a read was pending |
| `OperationsControl.Control.Run` | private-app/app/operations-control.tsx:58-136 | after every order of events: writes are single, a view comes from a read neither cancelled, settled nor superseded, views follow the writes and, explicit refreshes aside, their replies; a known view is never lost |
| `OperationsControl.RefreshDuringWrite` | private-app/app/operations-control.tsx:121-136 | a run of the hook in which the view shown after the reply comes from a read older than the reply |
| `RunPanel.FreshKeysNeedRetirement` | private-app/app/improvement-run-panel.tsx:119-128 | a second Start key needs a refusal of the first or a clearing of authority in between, a second Stop key a clearing |
| `RunPanel.RetriesAreIdentical` | private-app/app/improvement-run-panel.tsx:119-134 | all requests with one key are the same request, with the body minted for it |
| `RunPanel.StartsNameTheLatestStatus` | private-app/app/improvement-run-panel.tsx:108-128 | a Start expects the revision and route of the status accepted last, which allowed it and was asked for after the last request |
| `RunPanel.OneRequestAtATime` | private-app/app/improvement-run-panel.tsx:116-154 | one request of each operation is out at a time |
| `RunPanel.NothingIsSentAcrossAClear` | private-app/app/improvement-run-panel.tsx:82-82 | no key minted before a clearing of authority is sent after it |
| `RunPanel.AcceptedStatusesAdvance` | private-app/app/improvement-run-panel.tsx:87-97 | revisions never fall, and no status asked for before a request or before an invalidation, such as a protected failure brings, is accepted after it |
| `RunPanel.StoppedStaysStopped` | private-app/app/improvement-run-panel.tsx:92-95 | within a period of authority a stopped run is never shown as anything else |
| `RunPanel.Panel.EndRead` | private-app/app/improvement-run-panel.tsx:87-107 | accepts a status if and only if it matches, nothing was written since it was asked for, its revision is no older and it does not revive a stopped run |
| `RunPanel.Panel.Submit` | private-app/app/improvement-run-panel.tsx:116-132 | a fresh Start is sent if and only if the device is online, the desk fresh, the status just verified, current and allowing it, no Start frozen and neither operation pending; it names the row's version and run, the status's revision and route, and a cap if and only if the paid box is checked; a Stop likewise; a retry sends the frozen action |
| `RunPanel.CapIsANumber` | private-app/app/improvement-run-panel.tsx:111-111 | the caps let through are exactly the decimal forms of the numbers from 1 to 10^30 - 1 |
| `RunPanel.Panel.OnReply` | private-app/app/improvement-run-panel.tsx:133-157 | the whole effect of a reply: only a refused Start frees its action, a protected failure clears all and invalidates the reads under way, anything else keeps the action, and a retry is offered exactly after an uncertain receipt or another failure |
| `RunPanel.Panel.Run` | private-app/app/improvement-run-panel.tsx:71-157 | after every order of events: one key of an operation at a time, every request as it was minted and not across a clearing, one request of an operation out at a time, and accepted statuses never fall back |
| `Workboard.FreshnessIsConstant` | private-app/app/control-room-workboard.tsx:122-126 | no row changes its freshness from the presented time up to the next expiry |
| `Workboard.VerdictIsConstant` | private-app/app/control-room-workboard.tsx:17-37 | the full verdict of every task is constant up to the next expiry |
| `Workboard.AvailableExactly` | private-app/app/control-room-workboard.tsx:17-37 | a row is available if and only if eligibility is configured and the first row of its first candidate's worker is verified, measures a slot, was observed at most five minutes ago and is online or idle |
| `Workboard.VerdictNamesTheReason` | private-app/app/control-room-workboard.tsx:23-35 | each other verdict is given if and only if it is the first thing wrong with that row |
| `Workboard.UnjudgedTasks` | private-app/app/control-room-workboard.tsx:19-24 | not eligible if and only if eligibility is not configured or no candidate lists it; no matching capacity if and only if there is a candidate without a row |
| `Workboard.ExpiryIsAhead` | private-app/app/control-room-workboard.tsx:122-126 | the expiry is finite if and only if some row is fresh, and lies ahead |
| `Workboard.SomeRowFlips` | private-app/app/control-room-workboard.tsx:122-126 | some row is fresh one millisecond before the expiry and stale from then on |
| `Workboard.RedrawReduces` | private-app/app/control-room-workboard.tsx:127-131 | a redraw at or after the expiry strictly reduces the fresh rows |
| `Workboard.RedrawsAreBounded` | private-app/app/control-room-workboard.tsx:116-131 | one snapshot is redrawn at most once for each row fresh when presented |
| `Workboard.AgreesUntilExpiry` | private-app/app/control-room-workboard.tsx:116-131 | the cached presentation agrees with a direct test at a later time if and only if that is before the expiry |
| `Workboard.ExpiryContent.Schedule` | private-app/app/control-room-workboard.tsx:116-131 | the board agrees with a direct test until the timer is due if and only if the effect ran before the expiry |
| `Workboard.ExpiryContent.Fire` | private-app/app/control-room-workboard.tsx:129-129 | after the one-shot the board agrees with the clock, with strictly fewer fresh rows |
| `Workboard.ExpiryContent.Present` | private-app/app/control-room-workboard.tsx:110-131 | a new snapshot is presented at the clock's time, with the same guarantee as the effect |
| `Workboard.MissedExpiryStaysShown` | private-app/app/control-room-workboard.tsx:127-128 | the component, its effect run at the expiry, has no timer and shows as available a row that is stale from then on |

## Left out

Custody:

- The setup before both forks (pipes, the ready byte, a failed fork); a run starts with anchor and custodian alive.
- Assumptions of the model: a number is not reused while an unreaped process of ours holds it; the leader and its descendants do not leave the group; the intent byte is written and a later read sees it; a process killed with SIGKILL takes no further step; a spawn into a vanished group fails.
- Header, path, digest and Mach-O checks are one step that succeeds or fails. No claim is made about durations, in particular not that the supervisor's budget covers the custodian's limits.
- Scheduling: no claim that a party runs its next statement. A kill the system refuses is a case of the theorems on supervisor and custodian; the anchor's own kill is not refused.

Journal:

- The opening header, ownership, mode and ACL checks, and the re-verification of the directory chain are one fault of the environment; the 40-byte attribute encoding of STAT and the bytes of a reply header are not modelled.
- Nobody else writes in the directory during a session, and the kernel gives a new file no number that a name or a held descriptor carries.
- A deadline that passes while a command is handled is one of the failures of that command; the interruption of the session is one that comes while its input is read.

Publisher:

- Assumptions: what was synced is found after a crash; other processes leave the temporary name and the objects of the run alone; an inode number is not given out again while a crash could bring back a name that carries it.
- Sizes, link counts and modes of the exactness checks, the reply text, and the separate operation that verifies a held descriptor.

Paths:

- Opening each component and comparing the held chain with a second walk.

Service:

- Request framing, parent-directory checks, and the bounded run of launchctl itself, including the retirement of its process. A digest stands for the bytes. What a successful START reports is whatever state is read again.
- Service.Run.Publish: the state of the whole directory at the end is given for a run nobody else interferes with, because other writers may change any name but the temporary one; what the run itself does to it is Service.NamesAreKept.

Browser:

- Rendering, texts and forms. Each click uses the latest render; the polled reader is an environment whose reads end in any order.
- A request object is named by its position in the log; a random key is never drawn twice.
- OperationsControl.AppliedReadsFollowTheReply: allows an explicit refresh started while the write was out, because the code joins it.
- Time is in whole milliseconds, and the timer's own upper limit on a delay is not modelled.

Not modelled at all: native/protected-directory-v1.c, native/hermes-native-launch-custodian-v1.c and native/pg-clone-probe-v1.c, which repeat simpler forms of the framing, path walk and write loops; the qualification and database scripts; the rest of the web application.
