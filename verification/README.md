# mgba-live-mcp: a verified model

This project models the core of mgba-live-mcp in Dafny and proves what that core is for. mgba-live-mcp lets several
host processes drive one running mGBA emulator through a directory of files. Its hard parts are

- the **command transaction protocol**: host workers, a bridge script inside the emulator and an independent recovery
  stop share a journal, three locks and the files `command.lua`, `command.lua.running` and `response.json`, and any of
  them can crash between two file system effects;
- the bridge's **bounded JSON encoder** over Lua table graphs, with its UTF-8 check;
- **verified termination** of a process group by TERM and KILL;
- smaller cores around them: command arguments written as Lua source, nested deadlines with their settle loops, key
  releases, and the active-session marker.

`dafny verify dfyconfig.toml` checks everything.

## How it is built

| part | files |
|---|---|
| shared datatypes, waiting steps | `Basics`, `Pacing` |
| protocol: state, steps | `TransactionWorld`, `TransactionProtocol`, `BridgeReply` |
| protocol: invariant and what follows from it | `TransactionInvariant`, `TransactionFrames`, `TransactionSafety`, `TransactionFences`, `TransactionArtifacts`, `TransactionComposites`, `TransactionProgress`, `TransactionCounterexamples` |
| protocol: the host's own code | `SessionTransactions`, `StagingTransactions`, `RequestTransactions`, `SendCommand`, `Stop` |
| encoder and its inverse | `Utf8`, `JsonText`, `LuaTables`, `JsonLimits`, `JsonEncoder`, `JsonAcceptance`, `JsonParser`, `FallbackReply` |
| termination | `ProcessState`, `Termination` |
| Lua source of commands | `LuaLiteral`, `LuaCommand`, `LuaFloat`, `LuaArrival` |
| deadlines, tap release, marker | `Deadlines`, `TapSettle`, `ActiveMarker` |

**The protocol** is a state machine in which every atomic file system effect is one step, so a crash of a worker, of the
bridge or of a recovery, a competing process or an outside program can fall between any two of them. A journal write
fails before or after `os.replace`. `World` carries a ghost history of published, claimed, executed, returned and
replied requests and of every outcome a host reported. One inductive invariant is kept by every step; single flight,
at-most-once execution, outcome soundness, the permanence of the recovery fence and the life of staging files are read
off it for every reachable state and every continuation. The host's methods are imperative code over one shared
`SessionDirectory`: they take one effect at a time, others interfere in between, and the directory's whole past is a run
of the machine. What the system answers (a write that fails, a deadline that is over, a file that cannot be unlinked) is
a parameter, and the states in which a method decides something are named in its results, so that each postcondition
says how the call ends by what was seen and answered, successes included, and what it leaves.

**The encoder** is a class with the bridge's four counters and mutually recursive methods. Its specification knows
nothing of budgets or of `active`: a value *unfolds* to a JSON tree (`LuaTables.Unfolds`), a tree has an unbounded
encoding (`JsonText.Enc`), a depth and a number of entries. The top method succeeds exactly when the value unfolds to a
tree within the limits and then returns that tree's encoding; each error is tied to something the value contains or
exceeds. A separate RFC 8259 parser reads every encoding back.

**Termination** runs against arbitrary probe results, delays and signal errors; its postconditions speak about the trace
of looks, signals and sleeps. `Stop` composes it with the recovery fence of the protocol.

## What was found

Four promises do not hold as the documentation or the labels suggest; each has a concrete counterexample and the exact
condition under which it holds.

- A worker that notices a recovery fence while polling raises `not_executed`, although its request may have been
  executed (`TransactionCounterexamples.FencedWorkerCanReportNotExecutedAfterExecution`). The label is right exactly when
  the request is barred from running, or the emulator was never started
  (`TransactionFences.FencedLabelRightExactlyWhenBarred`).
- A standalone command that already has its response leaves its transaction before it returns. If a stop fences the
  session just then, the exit raises `not_executed` for a command that ran
  (`TransactionCounterexamples.FencedFinishReportsNotExecutedAfterCompletion`). That label is never right, because
  whoever carries a correlated response carries it for an executed request (`TransactionSafety.AnsweredMeansExecuted`,
  `TransactionSafety.FencedFinishLabelIsNeverRight`). A composite meets the same fence at its own exit
  (`TransactionCounterexamples.FencedCompositeRaisesNotExecutedAfterCompletion`); there the label is right exactly when
  every request it sent is ruled out (`TransactionFences.FencedExitLabelRightExactly`).
- An outermost deadline sets `completed` before its exit check, so a command that failed in the bridge can be reported
  as completed when the deadline expires at that moment (`TransactionCounterexamples.LateExitCanReportCompletedAfterError`,
  exact condition in `TransactionSafety.LateExitRightExactlyWhenReturned`).
- Publication looks for an existing `command.lua` and then replaces it, so a command that another program puts there in
  between is overwritten (`TransactionCounterexamples.PublicationCanOverwriteForeignCommand`). A publishing step keeps a
  foreign command exactly unless it is the replacement and that command lies there unclaimed
  (`TransactionFences.PublicationKeepsForeignExactlyUnlessOverwritten`), and over the whole callback exactly the commands
  that arrive after the existence check and are still unclaimed are lost
  (`TransactionFences.CallbackLosesExactlyLateArrivals`). Withdrawal, in contrast, never loses a foreign command.

Smaller ones: a tap with a fractional duration is still pressed in the frame the host takes for settled, though never
in the screenshot (`TapSettle.ReleasedAtPollExactly`); dictionary keys that are Lua reserved words or identifiers beyond
ASCII make a command unreadable (`LuaCommand.ValueComesBack`); trailing `None` elements of lists and `None` entries of
dictionaries are lost at every depth, an empty list and an empty dictionary arrive alike, integers below -(2^63 - 1) or
above 2^63 - 1 arrive as the nearest float, -2^63 among them although Lua has that integer, and nothing else is lost
(`LuaArrival.SameArrivalExactlyUpToNone`, `LuaCommand.IntComesBack`); and `terminate_owned_process` can raise an
error whose code is `alive` (`Termination.AliveCanBeRaised`), exactly when an ownership check first sees a permission
problem or an unconfirmed exit and the wait for it ends with the process running
(`Termination.AliveExactlyWhenItClearedUp`).

## Model

| member | source | states |
|---|---|---|
| TransactionInvariant.InitEstablishes | src/mgba_live_mcp/session_transactions.py:385-392 | a directory that the protocol has not touched satisfies the invariant |
| TransactionInvariant.StepKeeps | src/mgba_live_mcp/session_transactions.py:888-1164 | every step of worker, bridge, recovery and outside programs keeps the whole invariant |
| TransactionSafety.RunKeeps | src/mgba_live_mcp/session_transactions.py:888-1249 | along any run the invariant holds and every outcome reported so far stays sound |
| TransactionSafety.SingleRequestInFlight | src/mgba_live_mcp/session_transactions.py:888-936 | in every reachable state with a ready journal, a request that waits in `command.lua`, is claimed or runs without its response is exactly the journaled pending request; so at most one is in flight, across crashes, timeouts, reclaims and failed journal writes |
| TransactionSafety.ExecutedAtMostOnce | src/mgba_live_mcp/resources/mgba_live_bridge.lua:241-262 | over every run, each request id is executed at most once, and only if it was published |
| TransactionSafety.WithdrawalExcludesExecution | src/mgba_live_mcp/session_transactions.py:939-1029 | once an expired request is reported as withdrawn, no continuation executes it |
| TransactionSafety.OutcomesAreSound | src/mgba_live_mcp/session_manager.py:647-700 | every reported `not_executed` (except at a fence met while polling or while the call's own transaction finishes) excludes execution in all continuations, and every reported `completed` (except at a late outermost exit) means the handler returned normally, exactly once |
| TransactionSafety.RunBars | src/mgba_live_mcp/session_transactions.py:939-1029 | a request that is barred stays unexecuted along every run |
| TransactionSafety.RunsExactlyUnlessBarred | src/mgba_live_mcp/session_transactions.py:939-1029 | a request published to a started bridge of either kind is executed in some continuation if and only if the files and the bridge do not bar it |
| TransactionProgress.AnsweredExactlyUnlessBarred | src/mgba_live_mcp/resources/mgba_live_bridge.lua:241-262 | a published request that has not run can still be claimed, run and answered in `response.json` as completed if and only if nothing bars it |
| TransactionProgress.ReclaimedWorkIsOver | src/mgba_live_mcp/session_transactions.py:555-568 | in every reachable state without a worker, an operation is reclaimable if and only if it is no started composite and is either without a request and without doubt, or answered by the response that is there; then nothing is in flight, and an answered request ran exactly once |
| TransactionProgress.ChecksAreGuards | src/mgba_live_mcp/session_transactions.py:571-590 | the ownership check, branch by branch, decides exactly the guards of the worker's steps: its own operation, the fence, or lost |
| TransactionSafety.DeadBridgeRunsNothing | src/mgba_live_mcp/session_manager.py:1317-1335 | after confirmed termination nothing unexecuted can ever run |
| TransactionFences.FencedLabelRightExactlyWhenBarred | src/mgba_live_mcp/session_transactions.py:44-56 | in every reachable state, the `not_executed` label of a worker fenced while polling is right if and only if its request is barred, or the emulator was never started and nothing ran |
| TransactionFences.FencedExitLabelRightExactly | src/mgba_live_mcp/session_transactions.py:1183-1184 | for a transaction that ended normally, a composite too, whose exit meets the fence: `not_executed` is right in all continuations if and only if every request it sent is ruled out, and wrong as soon as one was reported completed |
| TransactionSafety.AnsweredMeansExecuted | src/mgba_live_mcp/session_manager.py:656-677 | in every reachable state, a worker that carries a correlated response, from reading it to returning it, carries it for a request that was executed exactly once, and the response tells truly whether the handler returned |
| TransactionSafety.FencedFinishLabelIsNeverRight | src/mgba_live_mcp/session_transactions.py:1066-1070 | the `not_executed` that the exit of a transaction raises at a fence, with the response already read, is told for an executed request, always |
| TransactionSafety.LateExitRightExactlyWhenReturned | src/mgba_live_mcp/deadlines.py:120-130 | the `completed` label of a late outermost exit, with or without a transaction of its own, is right if and only if the response is a completed one |
| TransactionCounterexamples.FencedWorkerCanReportNotExecutedAfterExecution | src/mgba_live_mcp/session_transactions.py:545-552 | a run from a fresh directory in which a worker reports `not_executed` for a request that was executed |
| TransactionCounterexamples.FencedFinishReportsNotExecutedAfterCompletion | src/mgba_live_mcp/session_transactions.py:1183-1184 | a run in which a completed command is reported as `not_executed` because a stop fences the session before its transaction is left |
| TransactionCounterexamples.FencedCompositeRaisesNotExecutedAfterCompletion | src/mgba_live_mcp/session_transactions.py:1183-1184 | a run in which a command of a composite is reported as completed and the composite's exit then meets the fence |
| TransactionCounterexamples.LateExitCanReportCompletedAfterError | src/mgba_live_mcp/deadlines.py:124-126 | a run in which `completed` is reported for a request whose handler raised |
| TransactionCounterexamples.PublicationCanOverwriteForeignCommand | src/mgba_live_mcp/session_manager.py:594-607 | a run in which publishing destroys a command that another program placed |
| TransactionFences.FenceHolds | src/mgba_live_mcp/session_transactions.py:571-590 | no single step of anybody turns a fenced journal ready again, publishes, admits or edits it, except the recovery that owns it |
| TransactionFences.FenceIsPermanent | src/mgba_live_mcp/session_transactions.py:1223-1249 | once `stopping` is journaled, every later state is fenced, nothing more is published, and no operation is admitted |
| TransactionFences.CompositeLeavesOnlyByItsOwner | src/mgba_live_mcp/session_transactions.py:555-568 | a started composite leaves the journal only by its own unfailed finish, by its creator's rollback that removes the journal, or by the finish of a recovery |
| TransactionFences.AbandonedCompositeStaysFenced | src/mgba_live_mcp/session_transactions.py:1135-1156 | after its worker is gone, a started composite stays journaled along every run until recovery retires the session, whatever responses arrive |
| TransactionFences.AbandonedAllowsNothingElse | src/mgba_live_mcp/session_transactions.py:1135-1147 | while no worker is past the admission check, nothing is published, polled, withdrawn, marked or finished |
| TransactionFences.AbandonedEntry | src/mgba_live_mcp/session_transactions.py:1135-1147 | while an abandoned composite is journaled, or the session is retired, taking the operation lock leads no further than the admission check: nothing is admitted, reclaimed or initialised |
| TransactionComposites.PendingMeansStarted | src/mgba_live_mcp/session_transactions.py:904-911 | in every reachable state, an operation with a pending request is marked as started, which is also the validity rule of the journal |
| TransactionComposites.SentCompositeIsNeverReclaimed | src/mgba_live_mcp/session_transactions.py:555-568 | once a composite has a request in its journal, along every run in which that request is not taken back its entry stays started and no response whatever makes it reclaimable, until its own finish or rollback or a recovery ends it; later requests may come, be answered or be taken back, and the worker may die |
| TransactionFences.StagingOutlivesWriters | src/mgba_live_mcp/session_transactions.py:427-477 | a step that removes or replaces a staging file is an outside program or happens while no request is in flight, and takes exactly the journaled inode, or the one this worker has just created |
| TransactionFences.InFlightPinsStaging | src/mgba_live_mcp/session_transactions.py:699-837 | in every reachable state, while any request is in flight or may still be started no staging step of the host (create, journal, publish by rename or link, clean up) is possible, and every staging file stays unless an outside program replaces it |
| TransactionFences.UntagUndoesTag | src/mgba_live_mcp/session_transactions.py:909-912 | removing a fresh request id from the artifacts undoes adding it |
| TransactionFences.WithdrawUndoesPublish | src/mgba_live_mcp/session_transactions.py:1003-1010 | publishing a fresh request and withdrawing it is the identity on the journal entry |
| TransactionFences.WithdrawalKeepsForeignCommands | src/mgba_live_mcp/session_transactions.py:972-1010 | in every reachable state, no withdrawal step loses a command written by another program: it stays at `command.lua`, at the private name, or is retained |
| TransactionFences.PublicationKeepsForeignExactlyUnlessOverwritten | src/mgba_live_mcp/session_manager.py:594-607 | for every state, publishing step and foreign command: the command survives if and only if the step is not a replacement that finds it unclaimed at `command.lua` |
| TransactionFences.CallbackLosesExactlyLateArrivals | src/mgba_live_mcp/session_manager.py:594-607 | over any run between the existence check and the replacement, a foreign command that still exists is lost if and only if it arrived in between and still lies unclaimed at `command.lua` |
| TransactionArtifacts.RunKeepsArtifacts | src/mgba_live_mcp/session_transactions.py:395-412 | journaled artifacts only ever name inodes and requests that already exist |
| BridgeReply.ReplyTellsTheTruth | src/mgba_live_mcp/resources/mgba_live_bridge.lua:509-560 | the host reads `completed` from a reply exactly when the handler returned normally, serialization failures included, and `not_executed` exactly from the fixed reply to a rejected command file; the fixed reply stands for exactly the responses that cannot be encoded |
| SessionTransactions.SessionDirectory.Take | src/mgba_live_mcp/session_transactions.py:204-251 | one atomic effect extends the directory's run by one protocol step |
| SessionTransactions.SessionDirectory.Interfere | src/mgba_live_mcp/session_transactions.py:154-188 | whatever the others do, the worker's own state, and the journal under its lock, are undisturbed |
| SessionTransactions.CleanupScreenshots | src/mgba_live_mcp/session_transactions.py:434-477 | exactly the journaled files that were replaced or cannot be unlinked are kept for the journal, all others are gone from their paths, and only journaled inodes were unlinked |
| SessionTransactions.OpenJournal | src/mgba_live_mcp/session_transactions.py:1119-1138 | the operation lock is taken if and only if it is free and the directory is as asked for, the journal is ready or could be initialised; then the journal is the one that was there |
| SessionTransactions.ReclaimAbandoned | src/mgba_live_mcp/session_transactions.py:1135-1149 | an abandoned operation is cleaned up only if it is provably resolved and not a started composite, and whenever it is resolved and nothing keeps its files; otherwise what is left stays listed |
| SessionTransactions.Begin | src/mgba_live_mcp/session_transactions.py:1097-1164 | an admitted worker owns a ready session with a fresh operation and nothing in flight; a replaced operation was no started composite; a worker is admitted whenever lock, journal, an abandoned operation, its files, the journal write and the deadline allow it; a refused one changes no request |
| SessionTransactions.FinishTransaction | src/mgba_live_mcp/session_transactions.py:1066-1093 | an operation is retired only if it is resolved, swept and not a failed, started composite, and whenever it is the worker's own, that holds, and the files and the write allow it; the lock is always given back; the exit says `Fenced` exactly at a fence of its own generation; a call that was about to return its response ends with exactly one report, the response's own when it is retired in time, and one with the `not_executed` of a fence had run |
| SessionTransactions.Refuse | src/mgba_live_mcp/session_transactions.py:545-552 | what the exit of a transaction raises over a session that is no longer owned: `not_executed` exactly for a fence of its own generation, `unknown` otherwise |
| SessionTransactions.Retire | src/mgba_live_mcp/session_transactions.py:1075-1093 | exactly when the last journal write retires the operation, keeps a failed started composite, or leaves the restored entry marked uncertain |
| SessionTransactions.Fence | src/mgba_live_mcp/session_transactions.py:1223-1249 | recovery fences first, exactly when no other recovery is there, the state lock is free and the write succeeds, whoever holds the operation lock; the operation stays as it is and its generation is the fenced one |
| SessionTransactions.FinishRecovery | src/mgba_live_mcp/session_transactions.py:1197-1219 | it retires whenever the files can go and the write succeeds; retiring leaves `stopped`, no operation and a dead emulator, and nothing unexecuted can run; otherwise the session stays fenced |
| Stop.StopSession | src/mgba_live_mcp/session_manager.py:1317-1352 | a session is retired only if the last look of its verified termination found the whole group gone, and then nothing unexecuted can ever run; each failure has its cause: a negative grace, a fence that was refused, an unknown process, a termination error explained by the looks, or a lock, file or write that stood against the end; nothing is signalled without the fence and a known process; every failure after the fence leaves the session fenced |
| StagingTransactions.StageScreenshot | src/mgba_live_mcp/session_transactions.py:699-768 | whether a file is staged, taken back or refused is decided by the state it is asked in and the answers; success adds exactly one artifact with a fresh inode to the journal entry and nothing else; a file left behind is listed besides the others if the journal could be written |
| StagingTransactions.JournalStaged | src/mgba_live_mcp/session_transactions.py:733-768 | when the journal write or the deadline fails, the staged file is gone, or it could not be removed and the journal is asked to remember it |
| StagingTransactions.PublishScreenshot | src/mgba_live_mcp/session_transactions.py:808-837 | a file is published exactly when it is the journaled inode of a resolved operation of this worker; then no request is in flight, and exactly this file is taken or linked |
| StagingTransactions.MarkOperationUncertain | src/mgba_live_mcp/session_transactions.py:1049-1053 | exactly for an owned operation and a successful write; only the mark changes, and a marked operation is unresolved and, without a pending request, never reclaimable |
| StagingTransactions.EnterNested | src/mgba_live_mcp/session_transactions.py:1055-1064 | a nested transaction is let in exactly by its own worker, one that creates only over an unstarted reservation of this worker; at most it makes the operation a composite |
| StagingTransactions.SpawnEmulator | src/mgba_live_mcp/session_transactions.py:844-855 | the emulator is spawned exactly by the creating worker, once, and after the journal says `started` |
| StagingTransactions.RollBack | src/mgba_live_mcp/session_transactions.py:594-637 | the directory is removed exactly when its creator asks, no emulator was ever started, nothing is unresolved and no recovery is there; a removal that fails on the way, the journal reached or not, is recorded as uncertain work nobody reclaims |
| RequestTransactions.Publish | src/mgba_live_mcp/session_transactions.py:888-936 | the result is decided, in the order of the code, by the state at the ownership check, the state at the look for an old command, and the answers; a request that went out or may have gone out stands in a started entry with its artifacts, by field; one whose deadline expired unsent leaves the journal exactly as it was; before an old response could be taken for its own, there was none |
| RequestTransactions.TagGives | src/mgba_live_mcp/session_transactions.py:907-909 | the artifacts without a request are given to this one and nothing else about them changes |
| RequestTransactions.TakenBackIsIdentity | src/mgba_live_mcp/session_transactions.py:926-931 | taking a fresh, journaled request back restores the journal of the moment before it |
| RequestTransactions.RunCallback | src/mgba_live_mcp/session_manager.py:594-607 | the guarded side effect ends as the checks before it, the old command and the writes decide: no command file found, old response removed, new command visible |
| RequestTransactions.WriteCommandFile | src/mgba_live_mcp/session_manager.py:526-548 | an expiry counts as unpublished only if it came before the replacement |
| RequestTransactions.UndoUnwritten | src/mgba_live_mcp/session_transactions.py:920-935 | the entry is restored for a request that was never published, unless that write fails as well |
| RequestTransactions.Complete | src/mgba_live_mcp/session_transactions.py:1031-1047 | the result is decided by the state at the check and the answers: completion clears the pending request and nothing else; the outcome is the response's own except at a late outermost exit; a call with its own transaction tells nothing yet |
| RequestTransactions.Withdraw | src/mgba_live_mcp/session_transactions.py:939-1029 | it claims proof if and only if the bridge claims by rename, the pending request is the worker's own and the file it moved away is the one it opened and had published; then no continuation executes the request; when it restores, the journal is what it was before publication |
| RequestTransactions.VerifyMoved | src/mgba_live_mcp/session_transactions.py:972-1000 | a moved file is verified exactly if it is the opened one and can be read; any other is put back or retained, never dropped |
| RequestTransactions.RecordWithdrawal | src/mgba_live_mcp/session_transactions.py:1000-1029 | dropping the verified file proves that the request never runs, whether or not the journal write succeeds |
| SendCommand.Send | src/mgba_live_mcp/session_manager.py:550-723 | what was seen and answered decides the report of a body: publication, the first round that ends polling, or the reconciliation; the reported outcome is sound for every continuation, and a taken-back request leaves the journal as it was |
| SendCommand.Call | src/mgba_live_mcp/session_manager.py:550-723 | a whole standalone call through its own transaction: whatever it tells its caller is sound for every continuation, except the two labels characterised above; one whose entry nothing stands against is admitted, and one that read its response and can retire its operation reports exactly that response's outcome; one not admitted publishes nothing |
| SendCommand.Poll | src/mgba_live_mcp/session_manager.py:650-677 | the loop goes on exactly while a round ends nothing, ends as its last round does, and expires only when the budget of rounds is used up; then it still owns the unchanged published entry |
| SendCommand.PollOnce | src/mgba_live_mcp/session_manager.py:651-677 | one round is decided by what it sees: lock, fence, ownership and start-up first, then a correlated response, then the process; a response that is there is always taken |
| SendCommand.AnsweredRoundReturns | src/mgba_live_mcp/session_manager.py:660-664 | a round that owns its transaction and finds the response to its request never goes on polling; with a clean write and time left it returns exactly that response, or is on its way out with it |
| SendCommand.AnsweredCallReturns | src/mgba_live_mcp/session_manager.py:647-664 | a whole call whose request became visible and one of whose rounds found the response returns exactly that response's outcome once its operation is retired in time, and that round was its last |
| SendCommand.ReconcileExpiry | src/mgba_live_mcp/session_manager.py:678-703 | after expiry, for a transaction that is still owned, a correlated response gives the outcome, otherwise the request is withdrawn exactly if it still can be; for a lost one the outcome is unknown |
| SendCommand.ReportedIsSound | src/mgba_live_mcp/session_manager.py:620-629 | any report of the directory is sound in the state it is made in |
| Utf8.FrontIsScalar | src/mgba_live_mcp/resources/mgba_live_bridge.lua:56-63 | each accepted byte pattern is the encoding of one scalar value: no overlong form, no surrogate, nothing above U+10FFFF |
| Utf8.ScalarIsFront | src/mgba_live_mcp/resources/mgba_live_bridge.lua:56-63 | the encoding of every scalar value is accepted, whatever follows it |
| Utf8.Utf8Front | src/mgba_live_mcp/resources/mgba_live_bridge.lua:52-68 | well-formedness is decided one character at a time |
| Utf8.ValidUtf8 | src/mgba_live_mcp/resources/mgba_live_bridge.lua:49-70 | returns true if and only if the bytes are the UTF-8 encoding of some sequence of Unicode scalar values (RFC 3629, sections 3 and 4) |
| JsonText.NumberStops | src/mgba_live_mcp/resources/mgba_live_bridge.lua:112-120 | a number is scanned to exactly its own end when nothing that could extend it follows |
| JsonText.DecimalTextIsNumber | src/mgba_live_mcp/resources/mgba_live_bridge.lua:116-117 | the text of every integer is a JSON number |
| JsonText.WritesExactly | src/mgba_live_mcp/resources/mgba_live_bridge.lua:114-117 | for every text and integer: the text is a sign and shortest digits that denote the integer if and only if it is the one that is written |
| JsonText.IntegersDiffer | src/mgba_live_mcp/resources/mgba_live_bridge.lua:114-117 | the text of an integer denotes that integer, so two integers are never written alike |
| LuaTables.UnfoldsOnce | src/mgba_live_mcp/resources/mgba_live_bridge.lua:104-170 | a value unfolds to at most one tree |
| LuaTables.OrderDoesNotMatter | src/mgba_live_mcp/resources/mgba_live_bridge.lua:134-163 | the tree is the same whatever order `next` lists the entries in |
| LuaTables.CyclesNeverUnfold | src/mgba_live_mcp/resources/mgba_live_bridge.lua:124-126 | a value with a cycle inside it has no finite tree |
| LuaTables.SortSorts | src/mgba_live_mcp/resources/mgba_live_bridge.lua:157-159 | sorting distinct keys gives the same keys in ascending order |
| LuaTables.AscendingIsUnique | src/mgba_live_mcp/resources/mgba_live_bridge.lua:157-163 | there is only one ascending order of a set of keys |
| JsonLimits.MaximumForcesArray | src/mgba_live_mcp/resources/mgba_live_bridge.lua:152-155 | distinct integer keys from 1 whose maximum is their count are exactly 1 to the count |
| JsonLimits.EarlyKeyCheckIsSafe | src/mgba_live_mcp/resources/mgba_live_bridge.lua:146-150 | the early key-byte check never counts more than the whole encoding |
| JsonLimits.JustifiedMeansUnfit | src/mgba_live_mcp/resources/mgba_live_bridge.lua:33-43 | every justified error belongs to a value outside what the limits allow |
| JsonEncoder.ScanDecidesShape | src/mgba_live_mcp/resources/mgba_live_bridge.lua:152-155 | the scan's counters say array exactly for keys 1 to n and object exactly for string keys |
| JsonEncoder.JsonEncoder.Append | src/mgba_live_mcp/resources/mgba_live_bridge.lua:75-81 | appends if and only if the text still fits |
| JsonEncoder.JsonEncoder.FitsEscaped | src/mgba_live_mcp/resources/mgba_live_bridge.lua:90-96 | the count made before escaping is exact |
| JsonEncoder.JsonEncoder.EncodeString | src/mgba_live_mcp/resources/mgba_live_bridge.lua:82-102 | succeeds if and only if the string is UTF-8 and its quoted form fits, and then appends that form |
| JsonEncoder.JsonEncoder.ScanKeys | src/mgba_live_mcp/resources/mgba_live_bridge.lua:130-151 | classifies all keys or stops for one of its three reasons |
| JsonEncoder.JsonEncoder.EncodeItems | src/mgba_live_mcp/resources/mgba_live_bridge.lua:156-169 | the array branch: brackets, commas and the items at 1 to n are exactly the encoded array, within all budgets |
| JsonEncoder.JsonEncoder.EncodeMembers | src/mgba_live_mcp/resources/mgba_live_bridge.lua:156-169 | the object branch: braces, commas, sorted keys, colons and values are exactly the encoded object, within all budgets |
| JsonEncoder.JsonEncoder.EncodeTable | src/mgba_live_mcp/resources/mgba_live_bridge.lua:123-171 | a table is encoded as its tree, `active` is restored, and each error is justified |
| JsonEncoder.JsonEncoder.Encode | src/mgba_live_mcp/resources/mgba_live_bridge.lua:104-175 | success yields the encoding of the value's tree, counts its entries and restores `active`, which is always the path from the root; recursion ends on every heap |
| JsonEncoder.JsonEncode | src/mgba_live_mcp/resources/mgba_live_bridge.lua:72-176 | succeeds if and only if the value unfolds to a tree with valid strings, depth at most 32, at most 10000 entries counted with multiplicity and at most 1048576 bytes; the output is that tree's unbounded encoding; each error names what the value contains or exceeds |
| JsonAcceptance.UnfoldsExactlyWhenBlameless | src/mgba_live_mcp/resources/mgba_live_bridge.lua:104-175 | a value of any table graph, shared or not, unfolds if and only if it holds no cycle, no mixed keys, no non-finite number and no unsupported value |
| JsonParser.StringComesBack | src/mgba_live_mcp/resources/mgba_live_bridge.lua:82-102 | every control, quote and backslash escape is undone by an RFC 8259 string reader |
| JsonParser.TreeComesBack | src/mgba_live_mcp/resources/mgba_live_bridge.lua:104-175 | parsing an encoded tree, followed by anything that cannot extend a number, returns that tree and exactly what followed |
| JsonParser.ResponseParsesToItsValue | src/mgba_live_mcp/resources/mgba_live_bridge.lua:531-541 | what the bridge writes is a JSON text for exactly the value's tree; an integer reads back as itself; the empty table reads back as the empty array |
| JsonParser.EncodingIsInjective | src/mgba_live_mcp/resources/mgba_live_bridge.lua:104-175 | different trees are never written alike |
| FallbackReply.ReplyText | src/mgba_live_mcp/resources/mgba_live_bridge.lua:509-560 | every processed command gets a reply that parses: it names the request, session and frame; it is the full response, with the result or the error in it, if and only if its tree fits the limits and no non-text error was raised, else the fixed reply with the reason, which the response really has; the record the host reads by member name is the one of the protocol, completed exactly for a normal return and not executed exactly for a rejected file answered by the fixed reply |
| FallbackReply.FallbackReads | src/mgba_live_mcp/resources/mgba_live_bridge.lua:539-550 | a reader of the member names gets id, session, reason, completion and outcome back from the fixed reply |
| FallbackReply.ResponseReads | src/mgba_live_mcp/resources/mgba_live_bridge.lua:517-528 | and whether the handler returned, from a full response |
| FallbackReply.ResponseCarries | src/mgba_live_mcp/resources/mgba_live_bridge.lua:523-528 | the full response carries what the handler returned or raised |
| FallbackReply.FallbackFits | src/mgba_live_mcp/resources/mgba_live_bridge.lua:533-546 | the fixed reply is within every limit, whatever the reason, for valid UTF-8 ids of at most 10000 bytes and any frame number of a Lua integer |
| FallbackReply.FallbackUnfolds | src/mgba_live_mcp/resources/mgba_live_bridge.lua:536-546 | whatever order `next` has, the fixed table unfolds to the object of its ten members in key order |
| ProcessState.AliveExactlyWhenVerified | src/mgba_live_mcp/process_control.py:337-396 | `alive` is reported if and only if the recorded birth, group leadership and a running process were seen |
| ProcessState.DeadMeansGroupGone | src/mgba_live_mcp/process_control.py:302-334 | `dead` always means the whole group is gone; a failed inspection alone never counts as absence |
| ProcessState.UninspectedIsDeadExactly | src/mgba_live_mcp/process_control.py:310-334 | a process that cannot be inspected is never alive, and dead if and only if neither it nor its group is there and its record does not speak against it |
| ProcessState.StrangerIsAMismatch | src/mgba_live_mcp/process_control.py:376-385 | an inspected process is a mismatch if and only if it is not the recorded leader of its own group |
| ProcessState.CodesExplained | src/mgba_live_mcp/process_control.py:310-396 | a mismatch is another process or an impossible record, a permission problem is a refused question, and an unconfirmed end is a process that is gone or a zombie while its group is not known to be gone |
| Termination.ProcessControl.WaitForExit | src/mgba_live_mcp/process_control.py:399-407 | looks at least once, stops only at death, a mismatch or the deadline, and makes at most one look per remaining 0.05 second step plus one |
| Termination.ProcessControl.TerminateOwnedProcess | src/mgba_live_mcp/process_control.py:410-499 | the signals are a prefix of TERM, KILL; each follows a live look at once; it returns if and only if the last look found the group dead; sleeping stays within grace plus confirmation, and a KILL comes only after the grace; every result is explained by the trace: which signals a stage implies, which check, signal or wait failed and where it stands, the code by that failure and the last look, the outcome by the signals, and a call that gives up gave the process its time; the final assertion is unreachable |
| Termination.IgnoredTermIsFollowedByKill | src/mgba_live_mcp/process_control.py:448-487 | a process that ignores TERM is killed: with live looks and delivered signals a call sends TERM and then KILL |
| Termination.LiveAfterTermGoesOn | src/mgba_live_mcp/process_control.py:482-486 | after a delivered TERM, a call whose looks are all live goes on to KILL; it can end at TERM only because a look saw something else |
| Termination.AliveExactlyWhenItClearedUp | src/mgba_live_mcp/process_control.py:434-447 | a raised code is `alive` if and only if an ownership check first saw a permission problem or unconfirmed absence and its wait ended alive, after no, one or two signals alike; it is a mismatch exactly when one was seen last, and never `dead` |
| Termination.AliveCanBeRaised | src/mgba_live_mcp/process_control.py:424-433 | one refused look followed by live ones makes the call raise `alive`, for every grace and confirmation time |
| Termination.SignalsHitOnlyTheRecordedProcess | src/mgba_live_mcp/process_control.py:436-452 | any signal of a disciplined call comes right after the recorded process was verified |
| Termination.ReturnMeansGroupGone | src/mgba_live_mcp/process_control.py:433-435 | a normal return means the last probe found no group |
| Termination.TwoSignalsAreTermThenKill | src/mgba_live_mcp/process_control.py:448-451 | any two signals of a call are a TERM and then a KILL; there are no retries |
| Termination.KillComesAfterTerm | src/mgba_live_mcp/process_control.py:448-451 | a KILL is never the first signal |
| LuaLiteral.ChainedIsSinglePass | src/mgba_live_mcp/session_manager.py:50-58 | the five chained replacements equal one pass over the characters |
| LuaLiteral.StringComesBack | src/mgba_live_mcp/session_manager.py:50-58 | a Lua short-string reader maps the literal of any string back to it |
| LuaCommand.ValueComesBack | src/mgba_live_mcp/session_manager.py:61-82 | every nested value reads back as its own tree if and only if every bare dictionary key is a Lua name and no reserved word; otherwise the text does not read at all |
| LuaCommand.ReservedKeyIsUnreadable | src/mgba_live_mcp/session_manager.py:76-80 | a dictionary with a reserved word such as `end` as its key is unreadable, whatever it holds |
| LuaCommand.IntComesBack | src/mgba_live_mcp/session_manager.py:66-67 | every integer, followed by anything that ends a token, reads back: as itself from -(2^63 - 1) to 2^63 - 1, and as the nearest binary64 number outside |
| LuaFloat.NearestIsNearest | src/mgba_live_mcp/session_manager.py:66-67 | no whole binary64 number is nearer to an integer than the one its digits are read as |
| LuaFloat.InfiniteExactly | src/mgba_live_mcp/session_manager.py:66-67 | digits are read as an infinity if and only if they are at least half a step above the largest finite number |
| LuaArrival.ListArrives | src/mgba_live_mcp/session_manager.py:70-72 | a list arrives with every element, built all the way down, at its position; `None` elements are absent |
| LuaArrival.DictArrives | src/mgba_live_mcp/session_manager.py:73-81 | a dictionary arrives with every value, built all the way down, under its key; `None` values are absent |
| LuaArrival.TrailingNoneIsLost | src/mgba_live_mcp/session_manager.py:62-63 | a trailing `None` cannot be told from its absence |
| LuaArrival.SameArrivalExactlyUpToNone | src/mgba_live_mcp/session_manager.py:61-82 | two values, dictionaries in key order, arrive as the same Lua value if and only if their normal forms, without trailing `None` elements and `None` entries at any depth, are written as the same tree |
| LuaArrival.TextsAgreeExactlyUpToNone | src/mgba_live_mcp/session_manager.py:61-82 | the same of the written texts of readable values, read and built by Lua |
| Deadlines.LeastIsLowerBound | src/mgba_live_mcp/deadlines.py:112-113 | the deadline is never after the limit of any scope entered so far |
| Deadlines.LeastIsOneOfThem | src/mgba_live_mcp/deadlines.py:112-113 | the deadline is the limit of one of those scopes |
| Deadlines.Operation.Enter | src/mgba_live_mcp/deadlines.py:102-123 | an inner scope shares the deadline and can only bring it forward; the outermost one creates it; entering expires exactly when the deadline is over already |
| Deadlines.Operation.Leave | src/mgba_live_mcp/deadlines.py:116-126 | leaving checks once more; the outermost exit is labelled completed before that check |
| Deadlines.Operation.Begin | src/mgba_live_mcp/deadlines.py:73-76 | a new phase forgets the request and its outcome but not the deadline |
| Deadlines.Operation.PollFrame | src/mgba_live_mcp/session_manager.py:1689-1691 | the answer of a command counts exactly when it comes in time; given what remains, the command never moves the deadline |
| Deadlines.Operation.WaitForFrame | src/mgba_live_mcp/session_manager.py:1685-1695 | settles on the first poll that reports the target, and ends otherwise only by a failed poll or the deadline; no sleep is asked to end after the deadline, which never moves past either limit; the number of polls is bounded |
| TapSettle.Bridge.ApplyKeyReleases | src/mgba_live_mcp/resources/mgba_live_bridge.lua:232-239 | releases exactly the due keys, in whatever order the table is walked |
| TapSettle.Bridge.HandleCommand | src/mgba_live_mcp/resources/mgba_live_bridge.lua:421-453 | the effect of the key commands on pressed keys and schedule |
| TapSettle.Bridge.FrameCallback | src/mgba_live_mcp/resources/mgba_live_bridge.lua:571-583 | count, release what is due, then run at most one command |
| TapSettle.RunKeepsTidy | src/mgba_live_mcp/resources/mgba_live_bridge.lua:232-239 | over any run, every scheduled key is pressed and no release is overdue |
| TapSettle.TapHoldsExactly | src/mgba_live_mcp/resources/mgba_live_bridge.lua:421-432 | a tap holds its key in exactly the frames before its end when nothing else touches the key |
| TapSettle.SetKeysHoldExactly | src/mgba_live_mcp/resources/mgba_live_bridge.lua:435-440 | exactly the keys that were set are pressed, in every later frame, until another command touches them |
| TapSettle.ClearedStaysReleased | src/mgba_live_mcp/resources/mgba_live_bridge.lua:442-454 | a cleared key stays released until another command touches it, whatever was scheduled |
| TapSettle.OtherKeysAreNotTouched | src/mgba_live_mcp/resources/mgba_live_bridge.lua:421-454 | a tap or a clear is invisible to every other key along any run |
| TapSettle.ScreenshotSeesReleasedKey | src/mgba_live_mcp/session_manager.py:1809-1835 | once a poll reported the target frame, the screenshot command runs with the key released, also for fractional durations |
| TapSettle.ReleasedAtPollExactly | src/mgba_live_mcp/session_manager.py:1826-1828 | in the target frame itself the key is released if and only if the duration is whole or extra frames are waited for |
| TapSettle.FractionalTapStillHeldAtPoll | src/mgba_live_mcp/session_manager.py:1827-1827 | a tap of one and a half frames is still pressed in its target frame |
| ActiveMarker.StepKeepsLinear | src/mgba_live_mcp/session_manager.py:316-362 | a step keeps the marker consistent if and only if its restoring write took effect |
| ActiveMarker.MarkerLinearizes | src/mgba_live_mcp/session_manager.py:300-367 | with any processes and exceptions, whenever the lock is free the marker is what the last committed writer wrote |
| ActiveMarker.FailedActivationRestores | src/mgba_live_mcp/session_manager.py:1116-1136 | a failed activation ends with the exact prior value and never undoes a later commit, if and only if the restoring write took effect or nothing had changed |
| ActiveMarker.DeathCanLeaveAnUncommittedMark | src/mgba_live_mcp/session_manager.py:326-331 | a process that dies between writing and leaving leaves a value nobody committed |
| ActiveMarker.MarkerFile.SetActiveSession | src/mgba_live_mcp/session_manager.py:364-367 | commits the new marker, or commits nothing and restores the old one, unless the restoring write did not take effect either |
| ActiveMarker.MarkerFile.Refresh | src/mgba_live_mcp/session_manager.py:380-416 | keeps a live active session, else takes the first eligible one, else clears the marker; a timeout while sessions are read changes nothing, and a failing write is restored |
| ActiveMarker.ChosenIsFirst | src/mgba_live_mcp/session_manager.py:402-415 | a listed session is chosen, or ends the walk by a timeout, exactly as the first one that is eligible or takes too long |
| ActiveMarker.ChoiceExplained | src/mgba_live_mcp/session_manager.py:380-416 | the marker stays if and only if the active session could be read and is not known to be dead; it names a session only if that is the first running one of the listing, is cleared only when none runs, and a refresh gives up only on a timeout |

## Left out

- SessionTransactions.CleanupScreenshots: the method does not let others interfere between two unlinks, and the inode check and the unlink are one step; the state machine itself allows interference between the steps.
- Termination.ProcessControl.TerminateOwnedProcess: the clock stands still between reading it and using the value; observations, signals and sleeps take any time.
- Deadlines.Operation.WaitForFrame: the twin loop for macros differs only in its test and is not repeated; `suspend_deadline` is not modelled.
- FallbackReply.ReplyText: request and session ids are strings of at most 10000 bytes, as the host writes them; the protocol itself also allows a reply that could not be written.
- LuaCommand.ValueComesBack: floats, and dictionaries whose keys are not strings, are not modelled; identifiers beyond ASCII are an arbitrary predicate; an integer so long that Python refuses to print it is not covered.
- TapSettle.TapHoldsExactly: key commands of user scripts are not modelled.
- The real file system: directories are one inode whose replacement is a generation mismatch, locks are owner fields, and rename, link and unlink are atomic steps that can fail.
- Journal corruption, external edits of journal and lock files, and failures of a restore that follows a failure, beyond the journal writes named above.
- User Lua is an opaque handler that returns, raises or never returns; the heartbeat is what the host can read of it.
- Float formatting is any JSON number text; `table.sort` compares bytes, so collation by another locale is not covered.
- Ids: an outside program never guesses a host's request id.
- Errors that the operations around a command raise themselves (snapshots, macros, start-up, the exit of a composite) are not request reports; a screenshot directory that was replaced counts as a file that cannot be removed.
- Session metadata, archiving and status reads are left out, and so are the checks of the session record and of its process between the admission of a call and its publication.
- Waiting for the state lock is what others do before a step; a lock that is still held then counts as one that was not given in time.
- The undo of a creation that fails before its body begins; the end of its worker is modelled.
- Operating system inspection through /proc, libproc and ctypes is an arbitrary probe.
- The MCP server, tool schemas, command line, controller, PNG validation, log excerpts and error texts.
- Memory, OAM and entity dumps and pointer reads are not modelled.
