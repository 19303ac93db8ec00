# Verified model of the cmdra output pipeline

cmdra is a daemon that runs commands and file transfers for remote clients. It keeps each job's row
and output in a history database, streams output to one attached client, and serves uploads and
downloads. This project models the parts where the daemon's correctness is hardest to see by reading and
proves what they keep.

- **The log** (`OutputLog`, `Jobs`, `Store`): a job's output is a run of records with consecutive
  sequence numbers and abutting byte offsets, over two tables changed one transaction at a time. Replay
  from an offset, resumed reading and `ORDER BY offset_bytes` are proved about that run.
- **The attach protocol** (`Protocol`, `ProtocolInvariant`, `ProtocolTheorems`, `ProtocolSessions`, `ProtocolEnds`,
  `ProtocolExit`, `ProtocolWitnesses`): one execution with its capture goroutines, its exit waiter, any number of
  attach sessions, cancel requests and history clean-up, as a step relation. A step is one atomic section of the
  code: a store transaction, a section under the execution's lock, or one channel operation. In particular
  `publish` is two steps, the subscriber read under the lock and the send after it. The theorems hold of every
  interleaving.
- **The running execution as an object** (`ManagedExecution`): the fields and channels the daemon updates in
  place. A ghost protocol state is tied to them, and each method is proved to perform the protocol's steps, so
  the theorems about runs hold of the object.
- **History operations** (`History`, `Outcomes`, `Manager`, `Clearing`, `Interleaved`): the manager's operations as steps of one
  world (tables plus the map of live executions), their invariants over whole runs and the frame between owners,
  the class whose methods perform exactly those steps, and three operations as they really run, with others in
  between: clearing history row by row, completing a transfer, and a read that discards.
- **Capture** (`Capture`): the loops that cut streams into records, interleaved append by append, and the
  client that separates the streams again.
- **Transfer** (`Transfer`): download and upload, both ends, with short reads and failures anywhere.
- **The attach terminal** (`Terminal`, `TerminalTheorems`, `TerminalEdits`, `TerminalDispatch`, `TerminalModel`): cursor,
  scroll region, deferred wrap and alternate screen over a cell grid; values first, what each decoded operation
  does seen from outside, then the class with its nested loops.
- **Words** (`ShellWords`, `WordStyles`): quoting of service arguments and splitting of argument input.

Where the code does less than one might expect, the model follows the code and says exactly when the
property holds:

- A channel can be closed between a capture goroutine's subscriber read and its send; that send panics. It
  happens in some run exactly if a capture goroutine is between the two when EOF closes the channel
  (`CloseIsSafeIffNobodyHolds`, `PanicIsReachable`).
- An Exit does not imply that all output was seen (`ExitBeforeLastOutput`). A session that asked for a replay is
  certain to have, at its Exit, all output stored by the EOF publication exactly if at that moment no capture
  goroutine is publishing a record its replay did not cover (`ExitHasStoredOutputIff`), and the job's whole
  output exactly if by then every capture goroutine has returned, or the row is gone and none holds such
  a record (`ExitHasAllOutputIff`); drops on a full queue aside. Nothing in the code waits for either.
- An exit is stored once; what it stored is final however often the job is cancelled (`VerdictIsFinal`).
- Clearing history interleaved with other callers deletes only rows that are finished at that moment, and counts as
  skipped the rows that ran when they were listed, whatever became of them (`InterleavedClear`).
- A session that attaches after the EOF publication never gets an Exit (`AttachAfterEofGetsNoExit`).
- A replay from inside a record skips that record's tail (`ReplayIsByteSuffixIffBoundary`).
- Ordering by offset is ordering by sequence exactly if no record but the last is empty
  (`OffsetOrderIsSequenceOrderIff`); the capture path never appends an empty one.
- Reading a job's output gives a client each stream's bytes up to what its capture loop has flushed
  (`StreamsSeparateAgain`). That is the whole stream exactly if the loop has seen its reader close: an empty
  buffer is not enough, since the loop may go on reading (`StreamIsWholeIffClosed`). A finished row does not
  ensure it either. Nothing can be added to a job's output any more exactly if the daemon panicked, the row is
  gone, or every capture goroutine has returned or can only send on a closed channel (`NoMoreOutputIff`).
- Completing a transfer finishes its row, and still answers not found exactly if the owner deletes the row or
  clears the history before it is read back (`CompletionAnswersNotFoundIff`).
- A discarding read deletes nothing that it did not send exactly if nothing is left to delete, or no record lay
  before its offset and none was appended since its query (`DiscardsOnlySentIff`).
- Leaving the alternate screen restores the cursor's column only if no wrap was pending, and the
  scroll region only if it was the whole screen (`AltScreenRoundTrip`).
- Double-quoted words come back from `parseWords` exactly if none is empty (`WrittenWordsParseBack`). Non-empty
  words written in any style come back exactly if the trimming that comes first takes nothing off a word: a plain
  word can lose a space that is no separator, such as a no-break space, and a last word the space after its
  backslash (`AnyStyleParsesBack`, `TrimmingTakesWords`).
- A failed wait is never stored as exit code zero, and no other code is changed (`ExitWrites`).

`dafny verify dfyconfig.toml` checks the whole project.

## Model

| member | source | states |
|---|---|---|
| OutputLog.FromOffsetIsSuffix | internal/history/store.go:297-302 | a replay of a run of records is a suffix of it, beginning at the first record at or past the offset |
| OutputLog.ReplayIsByteSuffixIffBoundary | internal/history/store.go:293-319 | for every offset inside the log, the replay's bytes are exactly the bytes from that offset on if and only if the offset is a record boundary |
| OutputLog.ResumedReadsArePrefix | internal/execution/manager.go:675-702 | for every interleaving of appends and cut-off reads that resume at the end of the last record received, the records received are a prefix of the log, and an uncut read catches up |
| OutputLog.ResumedBytesArePrefix | internal/history/store.go:253-319 | the same in bytes: every byte arrives once and in order |
| Jobs.AppendKeepsConsistent | internal/history/store.go:253-290 | an append keeps every job's rows a run that ends at its counters, and touches no other job |
| Jobs.AppendAddsOneRecord | internal/history/store.go:267-277 | an append adds one record to its own job's rows and none to any other's |
| Jobs.RemovalKeepsConsistent | internal/history/store.go:322-335 | discarding output, and deleting rows with their output, keep the tables consistent |
| Jobs.OffsetOrderIsSequenceOrderIff | internal/history/store.go:297-302 | whatever the database does with ties, ordering a run by offset is ordering it by sequence if and only if no record but the last is empty |
| Store.AppendEffect | internal/history/store.go:253-290 | after an append the job's rows are the old ones followed by one record at the old end, and the job's size is that record's end |
| Store.Store.constructor | internal/history/store.go:60-84 | an empty, consistent pair of tables |
| Store.Store.Create | internal/history/store.go:153-191 | fails exactly on a duplicate id, else adds the row with sequence zero, keeping the tables consistent |
| Store.Store.Complete | internal/history/store.go:202-218 | not found exactly if the row is gone; otherwise state, end, exit code, signal and error of that row and nothing else |
| Store.Store.Append | internal/history/store.go:253-290 | not found exactly if the row is gone, and then nothing changed; otherwise record and counters advance together |
| Store.Store.StreamOutput | internal/history/store.go:293-319 | sends a prefix of some offset ordering of the selected rows, all of them unless the receiver fails; when no row but the last is empty, of the selected rows in append order |
| Store.Store.RemoveOutput | internal/history/store.go:322-325 | removes exactly the job's output rows |
| Store.Store.Remove | internal/history/store.go:328-335 | removes the row and, by the cascade, its output; not found exactly if there is none |
| Store.Store.List | internal/history/store.go:368-402 | lists exactly the owner's rows (or its running ones), each once, newest start first |
| History.ReachableAgree | internal/execution/manager.go:277-401 | in every reachable state between operations each live execution has a row of the same owner, every output row has its job row, and every job's output is one run of non-empty records ending at its counters |
| History.StepKeepsAgree | internal/execution/manager.go:432-567 | every operation keeps that agreement |
| History.StepKeepsRunningRows | internal/execution/manager.go:432-483 | no operation removes a running row, returns a job to running or moves a row to another owner |
| History.FinishedNeverRunsAgain | internal/execution/manager.go:432-483 | over whole runs a finished row stays finished or is gone, unless its id is issued anew |
| History.RunKeepsExitsAgree | internal/execution/manager.go:781-812 | over whole runs an execution's row is finished exactly if its waiter has run |
| History.VerdictIsFinal | internal/execution/manager.go:570-587 | over whole runs, cancels and exits included, the state, exit code, end and signal the waiter stored stay as long as the row |
| Outcomes.RunningKeepsOutput | internal/execution/manager.go:675-702 | no operation of anybody, a discarding read by the owner included, takes anything from a running job's output |
| Outcomes.OutputGrowsWhileRunning | internal/execution/manager.go:697-700 | over whole runs, for as long as a job runs its output only grows: what it was is a prefix of what it is |
| Outcomes.StartWrites | internal/execution/manager.go:306-401 | an id that exists is never touched; otherwise the fresh row runs with its pid, runs without one, or failed to start with the message and code -1, and only the first is live |
| Outcomes.ExitWrites | internal/execution/manager.go:781-812 | once, the row becomes canceled exactly if cancelling was asked for, else exited, with the exit code of the process, except -1 for a failed wait with code zero; the rest of the row stays |
| Outcomes.StartTransferWrites | internal/execution/manager.go:486-522 | an id that exists is never touched; otherwise a running row of that kind and total, and one system record |
| Outcomes.ProgressWrites | internal/execution/manager.go:525-527 | progress is that of the row named, whose total changes only to a total given |
| Outcomes.CompleteTransferWrites | internal/execution/manager.go:530-567 | state, end and message of the row, and after its output the one record that says how the transfer went |
| Outcomes.TextSpells | internal/execution/manager.go:519 | a system record holds the message, one byte per character below 128 |
| Interleaved.FinishedRowGoesIff | internal/execution/manager.go:432-483 | over whole runs of anybody's operations a finished row goes if and only if its owner deletes it or clears the history |
| Interleaved.CompleteAlone | internal/execution/manager.go:530-567 | with nothing in between, the statements of a transfer's completion are the one step of `History`, with the answer of `Manager` |
| Interleaved.CompletionAnswersNotFoundIff | internal/execution/manager.go:530-567 | with any operations between its statements, completing a running transfer finishes the row, answers not found if and only if the owner removed the row before the read-back, and leaves a row if and only if the owner did not remove it later either |
| Interleaved.DiscardsOnlySentIff | internal/execution/manager.go:675-702 | with any operations between query and discard, what is deleted was all sent if and only if nothing is left to delete, or no record lay before the offset and none was appended in between |
| Clearing.VisitDeletesOnlyFinished | internal/execution/manager.go:465-482 | one pass of the loop removes nothing, or exactly one row that is a finished row of the owner at that moment, and counts it exactly if it was still there |
| Clearing.InterleavedClear | internal/execution/manager.go:460-483 | with any operations in between: afterwards no row listed as finished is left, skipped are exactly those listed as running, and deleted plus found missing is the rest |
| Clearing.ClearedAlone | internal/execution/manager.go:460-483 | with nothing in between the passes are the one step of clearing, and both counts are exact |
| History.StepFramesOwners | internal/execution/manager.go:814-833 | an operation of one owner changes no other owner's rows, output or live executions |
| History.RunFramesOwners | internal/execution/manager.go:404-483 | the same over whole runs of others' operations |
| History.ClearRemovesExactlyFinished | internal/execution/manager.go:460-483 | clearing removes exactly the owner's finished rows, with their output and live executions |
| Manager.RefusedChangesNothing | internal/execution/manager.go:432-447 | an operation refused as not found, forbidden, running or without an owner changes nothing at all |
| Manager.RefusedExactlyIf | internal/execution/manager.go:432-447 | for every operation and each error, the exact condition on row, owner, state and live map under which it is the answer |
| Manager.DeleteOnce | internal/execution/manager.go:432-457 | an accepted delete leaves no row, output or live execution, and a second one is not found |
| Manager.CancelPersistsNothing | internal/execution/manager.go:570-587 | cancelling changes no table; a running job's exit then stores canceled, and a finished one's row is not touched again |
| Manager.StartOutcomes | internal/execution/manager.go:306-389 | an execution is live exactly if its process started and its pid was stored, which is when no error is returned; a failed start leaves a finished row with exit code -1 |
| Manager.DiscardDoesNotRestart | internal/history/store.go:253-325 | after a discard the next record still follows the last discarded one, in sequence and in offset |
| Manager.ClearCountsEveryRow | internal/execution/manager.go:460-483 | deleted plus skipped is the number of rows listed |
| Manager.Manager.GetOwned | internal/execution/manager.go:814-833 | not found, forbidden, or the live execution, in that order of checks |
| Manager.Manager.Start | internal/execution/manager.go:306-401 | the row is created first; the execution goes live only if the process started and its pid was stored, and a failed start leaves a finished row |
| Manager.Manager.Cancel | internal/execution/manager.go:570-587 | sets the flag of an owned live execution, also when ending its process fails, which is then the answer; or answers with the lookup's error and changes nothing |
| Manager.Manager.WaitForExit | internal/execution/manager.go:781-812 | stores canceled or exited with the exit code, -1 for a failed wait with code zero, and does so once |
| Manager.Manager.Delete | internal/execution/manager.go:432-457 | removes an owned finished row with its output and execution, or answers with the right error and changes nothing |
| Manager.Manager.ClearHistory | internal/execution/manager.go:460-483 | the loop over the listing removes the set of all finished rows at once, and the two counts are the sizes of the finished and the running rows |
| Manager.Manager.StartTransfer | internal/execution/manager.go:486-522 | a running row with the first system record, or an error and no change |
| Manager.Manager.UpdateTransferProgress | internal/execution/manager.go:525-527 | progress of that row; a total only if one is given |
| Manager.Manager.CompleteTransfer | internal/execution/manager.go:530-567 | canceled or exited, with the closing system record, for the owner only |
| Manager.Manager.StreamOutput | internal/execution/manager.go:675-702 | the owner gets the selected records in order; output is discarded only after a complete send and only for a job that was finished before it |
| ProtocolInvariant.ActionKeepsInv | internal/execution/manager.go:650-880 | every step of every goroutine keeps the inductive invariant |
| ProtocolTheorems.GuardsAreProgramCounters | internal/execution/manager.go:862-880 | in reachable states the model's range guards hold by themselves, and EOF never meets a closed channel |
| ProtocolTheorems.RunIsLater | internal/server/service.go:252-276 | over any stretch of a run the log and everything sent, received or replayed stay; a session with its Exit receives nothing more |
| ProtocolTheorems.NoGap | internal/server/service.go:193-217 | a record published while a session is the subscriber, at or past its offset and not discarded before its replay, is from then on always replayed, forwarded, queued, in a capture goroutine's hands or dropped on a full queue |
| ProtocolTheorems.PublishedIsAccounted | internal/execution/manager.go:862-876 | with or without a replay: a record published to a session stays received, queued, in a capture goroutine's hands or dropped |
| ProtocolSessions.SessionGetsWhatItAsked | internal/server/service.go:193-217 | over every run, by its k-th attach request: a session that asked for a replay receives nothing and gets no Exit before it, and can query it until it did or left; one that did not ask never has one; past that it can receive until it left or has its Exit |
| ProtocolSessions.ReplayIsWhatWasStored | internal/server/service.go:202-217 | a replay is all rows that were in the table at its query and lie at or past the offset asked for, in order |
| ProtocolSessions.OfferIsAcceptedIff | internal/execution/manager.go:873-876 | a non-blocking send is accepted if and only if fewer than 256 events are queued, and then stands last |
| ProtocolSessions.DroppedOnlyWhenFull | internal/execution/manager.go:660-661 | over every run each send to a session was dropped if and only if it found 256 events queued |
| ProtocolTheorems.BoundedInOrderDelivery | internal/execution/manager.go:660-671 | at most 256 queued; forwarded followed by queued is exactly what was accepted of the sends, in order; per source the sequences grow |
| ProtocolTheorems.DeliveredAtMostTwice | internal/server/service.go:202-217 | a record reaches a client once for the replay and once for the live stream at most: replayed only if appended before the replay query, forwarded only if published to this session |
| ProtocolTheorems.ExitOnlyIfSubscribedAtEof | internal/server/service.go:258-265 | an Exit goes only to the session subscribed at the EOF publication, once, with the persisted state |
| ProtocolTheorems.AttachAfterEofGetsNoExit | internal/execution/manager.go:862-870 | a session attached after the EOF publication gets no Exit, no EOF and no closed channel, ever |
| ProtocolTheorems.ReceiveOne | internal/server/service.go:252-276 | one turn of the forwarding loop leaves what draining the channel will leave, and forwards the head of what remains |
| ProtocolTheorems.DrainToExit | internal/server/service.go:252-276 | from a closed channel the loop forwards everything queued before EOF, or everything when EOF was dropped, then one Exit, within one receive per queued event and one more |
| ProtocolTheorems.ClosedSessionProgress | internal/server/service.go:252-266 | whatever else is interleaved, nobody else touches a live session whose channel is closed, it can always receive, and each receive shrinks its queue or ends its loop |
| ProtocolEnds.ClosedSessionEnds | internal/server/service.go:252-276 | over every continuation in which the client stays: such a session has its Exit if and only if it received once more than there were events queued before EOF; until then it can receive, and it is forwarded those events and nothing else |
| ProtocolEnds.MissingMeansGone | internal/server/service.go:258-265 | an Exit is replaced by the missing-job error only if the row is gone |
| ProtocolEnds.ExitVerdict | internal/server/service.go:258-265 | an Exit says canceled exactly if the completion was written and a cancel request came before the waiter took the exit, exited if it was written otherwise, and running if it was not; always so while the row is present |
| ProtocolEnds.NoMoreOutputIff | internal/execution/manager.go:704-779 | for every reachable state, finished or not: no continuation adds to the job's output if and only if the daemon panicked, the row is gone, or every capture goroutine has returned or is sending to a closed session |
| ProtocolTheorems.SubscriberIsClosedInTheEnd | internal/execution/manager.go:877-879 | when the waiter is done, exactly the session subscribed at EOF has its channel closed |
| ProtocolTheorems.ExitDelivers | internal/execution/manager.go:781-812 | a record whose publication was over at EOF is with the client at the Exit, unless the replay skipped it or a full queue dropped it |
| ProtocolTheorems.ExitStreamIsExact | internal/server/service.go:252-276 | in every run, what a session that got its Exit was forwarded is exactly what its channel accepted before EOF, in order |
| ProtocolTheorems.PublishedIsDelivered | internal/execution/manager.go:862-880 | with or without a replay: a record published to a session whose send was over at EOF is received by its Exit, or was dropped |
| ProtocolExit.EofRunIs | internal/execution/manager.go:862-880 | the EOF publication is a run of the protocol's steps and leaves nobody subscribed |
| ProtocolExit.ExitHasStoredOutputIff | internal/server/service.go:252-266 | over every continuation: each Exit finds the client with every record stored by the EOF publication, at or past its offset and not dropped, if and only if no capture goroutine is then publishing a record past the replay |
| ProtocolExit.ExitHasAllOutputIff | internal/execution/manager.go:738-742 | the same for every record the job ever gets, if and only if every capture goroutine has returned, or the row is gone and no such record is held |
| ProtocolTheorems.PersistedVerdict | internal/execution/manager.go:787-806 | the persisted state is canceled exactly if a cancel request came before the waiter took the exit, exited otherwise, running until the completion was written |
| ProtocolTheorems.FinishedStaysFinished | internal/execution/manager.go:570-587 | a finished job's persisted state never changes, and no row is discarded or removed while it runs |
| ProtocolTheorems.CountersAgree | internal/execution/manager.go:767-770 | the size in memory plus the bytes whose append is in flight is the persisted size and the length of the log |
| ProtocolTheorems.CloseIsSafeIffNobodyHolds | internal/execution/manager.go:862-880 | after EOF closes the channel some continuation panics if and only if a capture goroutine is between its subscriber read and its send to that channel |
| ProtocolWitnesses.PanicIsReachable | internal/execution/manager.go:862-880 | such a run exists |
| ProtocolWitnesses.ExitBeforeLastOutput | internal/execution/manager.go:781-812 | a session live from the start can get its Exit without a record that is stored |
| ManagedExecution.ManagedExecution.RequestCancellation | internal/execution/manager.go:575-578 | is the protocol's cancel step |
| ManagedExecution.ManagedExecution.constructor | internal/execution/manager.go:312-329 | a new execution over its fresh running row shows the protocol's initial state |
| ManagedExecution.ManagedExecution.Attach | internal/execution/manager.go:650-673 | not found, forbidden or already attached, in that order, changing nothing; else a new channel is the subscriber, and the session starts in its replay exactly if one was asked for |
| ManagedExecution.ManagedExecution.ReplayBuffered | internal/server/service.go:202-217 | the replay sends what the protocol's query selects; if the row is gone or the receiver fails, the session leaves |
| ManagedExecution.ManagedExecution.Detach | internal/execution/manager.go:664-671 | unsubscribes only its own channel |
| ManagedExecution.ManagedExecution.AppendOutput | internal/execution/manager.go:758-779 | stores, counts and publishes one chunk, or drops it when the row is gone or it is empty; of all channels only the subscriber's queue changes, by that record if it holds fewer than 256 events |
| ManagedExecution.ManagedExecution.DiscardOutput | internal/execution/manager.go:698-700 | the discard of a finished job's rows is the protocol's step |
| ManagedExecution.ManagedExecution.Delete | internal/execution/manager.go:432-457 | not found, forbidden or running, in that order, changing nothing; else row and output are gone and the execution goes on without them |
| ManagedExecution.AppendRunIs | internal/execution/manager.go:758-779 | what that method does is a run of the protocol's steps |
| ManagedExecution.ManagedExecution.Publish | internal/execution/manager.go:862-876 | the subscriber read followed by one non-blocking send |
| ManagedExecution.ManagedExecution.WaitForExit | internal/execution/manager.go:781-812 | decides the state, persists it with the exit code, -1 for a failed wait with code zero, then publishes EOF and closes the channel; memory and row agree on canceled or exited |
| ManagedExecution.ManagedExecution.ForwardToExit | internal/server/service.go:252-276 | the session's loop on a closed channel sends exactly what was queued before EOF and ends with the row as it then is |
| Capture.ChunkingConservesBytes | internal/execution/manager.go:704-756 | in every interleaving of capture loops: each source's records followed by its buffer are the bytes read; each record has 1 to chunkSize bytes, exactly chunkSize unless a tick or the close cut it; a closed loop has nothing buffered; the log is one run |
| Capture.DrainEnds | internal/execution/manager.go:745-749 | a drain ends with less than one chunk buffered, after as many appends as there were whole chunks |
| Capture.FlushStoresTheBuffer | internal/execution/manager.go:728-752 | a tick and the close leave nothing buffered: what was there is one record at the log's end, and nothing is appended when nothing was there |
| Capture.ReadBoundariesDoNotShow | internal/execution/manager.go:744-749 | two reads in a row leave the same records and buffer as one read of both |
| Capture.CaptureLoop.CaptureOutput | internal/execution/manager.go:704-756 | the select loop appends exactly the specified chunks, loses nothing, and stops at the close with an empty buffer; its history is a run of the machine |
| Capture.CaptureLoop.OnChunk | internal/execution/manager.go:744-750 | buffers the chunk and appends every whole chunk, in order |
| Capture.StreamsSeparateAgain | internal/execution/manager.go:392-397 | in every interleaving, at every moment, splitting the log by source gives exactly the bytes each loop has read so far, short of its buffer, which is empty after the close |
| Capture.StreamIsWholeIffClosed | internal/execution/manager.go:704-756 | in every reachable state: over every continuation the client's side of the split stays all that the loop will have read, if and only if the loop has seen its reader close |
| Capture.SplitLosesNoRecord | sdk/python/cmdra_client/ansible_plugins/connection/cmdra.py:80-89 | every record of the two captures is on exactly one side of the split, at the place given by the records of its source before it |
| Capture.ExecCommand | sdk/python/cmdra_client/ansible_plugins/connection/cmdra.py:80-89 | the loop joins the standard error frames on one side and all other data frames on the other |
| Transfer.SendPieces | internal/server/service.go:394-420 | whatever the reads and failures, what was sent is a prefix of the file in abutting pieces of at most the chunk size, equal to the persisted progress; all of it unless a send or a read failed |
| Transfer.DownloadFile | internal/server/service.go:361-422 | an empty or missing path, a failed stat and a directory are refused and leave no row; done means all data frames and one end frame at the file's length; the row ends canceled exactly if a data frame could not be sent, exited otherwise, and without an error exactly if all data frames were sent |
| Transfer.ReceiveFileStream | pkg/cmdraclient/client.go:547-580 | succeeds exactly if no write failed and the stream did not break before an end frame; then the file holds the frames' data up to the end frame and the count is its length |
| Transfer.DownloadArrives | pkg/cmdraclient/client.go:558-579 | a whole download is received as the file, whatever follows the end frame |
| Transfer.Download | pkg/cmdraclient/client.go:459-469 | both ends together: success means the local file is the remote one and count, end offset and progress are its length; the client succeeds exactly if the server did and no local write failed |
| Transfer.SendFile | pkg/cmdraclient/client.go:425-446 | the chunks sent are a prefix of the file, all of it exactly if nothing failed |
| Transfer.UploadFile | internal/server/service.go:300-358 | done exactly if nothing failed and the stream ended cleanly, and then the file, and the bytes fed to the digest, are the chunks joined; it cannot be opened exactly if it cannot be written, or exists and overwriting was refused outright, and then it is left alone; the row ends canceled exactly if the stream broke, and without an error exactly if done |
| Transfer.Upload | pkg/cmdraclient/client.go:394-446 | both ends together: a completed upload is the client's file, with written and progress its length and the digest that of its bytes |
| Terminal.Run | internal/tui/attachterm/model.go:54-97 | for every session of operations and resizes the cursor, the saved cursor, the scroll region and both grids stay legal |
| TerminalTheorems.TextIsRowMajor | internal/tui/attachterm/model.go:170-194 | n runes on a fresh w by h terminal: cell (x, y) holds rune (y + k) * w + x, blank past n, where k is the number of rows scrolled off, and the cursor is after the last rune with the wrap deferred |
| TerminalTheorems.RowsNeededIsCeiling | internal/tui/attachterm/model.go:498-524 | the rows needed are n / w rounded up |
| TerminalTheorems.TabStopsAtMultipleOrMargin | internal/tui/attachterm/model.go:203-207 | a tab ends at the next multiple of eight or at the margin, on the same row |
| TerminalTheorems.RunStaysBehind | internal/tui/attachterm/model.go:149-154 | no run of operations that stays on the alternate screen touches the primary grid or the saved cursor |
| TerminalTheorems.AltScreenRoundTrip | internal/tui/attachterm/model.go:402-423 | entering, any such run and leaving restore the primary grid cell for cell and the cursor's row; the column exactly if no wrap was pending, the region exactly if it was the whole screen |
| TerminalEdits.EraseDisplayExactly | internal/tui/attachterm/model.go:472-496 | a cell is blank after erasing exactly if it is at or after the cursor in reading order, at or before it, or anywhere, by mode; else it is as before; only erasing all moves the cursor |
| TerminalEdits.ScrollBack | internal/tui/attachterm/model.go:519-531 | scrolling up and back down restores every row but those that left at the top; rows outside the region never change |
| TerminalEdits.IndexThenReverse | internal/tui/attachterm/model.go:503-517 | a reverse line feed undoes a line feed if and only if neither scrolls nor stops at the bottom of the screen, or the region is one blank row |
| TerminalEdits.DeleteUndoesInsertedCells | internal/tui/attachterm/model.go:269-272 | deleting as many cells as were inserted restores the row up to what was pushed off its end |
| TerminalEdits.DeleteUndoesInsertedLines | internal/tui/attachterm/model.go:265-268 | the same for lines within the scroll region |
| TerminalDispatch.MotionsGo | internal/tui/attachterm/model.go:240-259 | each of the nine motions ends where its final byte and count say, row and column told apart, counted from one and kept on the screen, and changes nothing else |
| TerminalDispatch.ControlsMove | internal/tui/attachterm/model.go:196-213 | backspace and carriage return move within the row and change nothing else |
| TerminalDispatch.LineFeedGoes | internal/tui/attachterm/model.go:498-509 | one row down, or the region up by a row from its last row; column zero but for the index |
| TerminalDispatch.ReverseLineFeedGoes | internal/tui/attachterm/model.go:511-517 | one row up, or the region down by a row from its first row |
| TerminalDispatch.ScrollsGo | internal/tui/attachterm/model.go:519-531 | every row of the region moves by the count, at least one, blank rows follow, and no other row changes |
| TerminalDispatch.LinesGo | internal/tui/attachterm/model.go:264-267 | inserting and deleting lines moves the rows from the cursor to the region's end; outside the region nothing happens |
| TerminalDispatch.CellsGo | internal/tui/attachterm/model.go:268-271 | inserting and deleting cells moves those from the cursor to the row's end, and no other row |
| TerminalDispatch.ErasesExactly | internal/tui/attachterm/model.go:446-496 | for the three erase commands and every mode, a cell is blank afterwards if it is erased and unchanged otherwise; only erasing all moves the cursor |
| TerminalDispatch.PrintStands | internal/tui/attachterm/model.go:170-194 | a glyph that fits stands at the cursor with its tails, wide ones included, and no other cell changes |
| TerminalDispatch.PrintWraps | internal/tui/attachterm/model.go:170-194 | one that does not fit is printed after a line feed, one wider than the screen never |
| TerminalDispatch.RegionIsSet | internal/tui/attachterm/model.go:433-444 | a region of rows on the screen is taken with the cursor at the origin; any other gives the whole screen |
| TerminalDispatch.ModesGo | internal/tui/attachterm/model.go:291-308 | each mode in a list is set or reset whatever stands beside it, and without the prefix none |
| TerminalDispatch.AltScreenGoes | internal/tui/attachterm/model.go:402-423 | entering shows a blank screen and saves the cursor, leaving goes back to it, and doing either twice does nothing more |
| TerminalDispatch.ResetIsFresh | internal/tui/attachterm/model.go:156-168 | a reset leaves the size and nothing else |
| TerminalDispatch.SavedCursorComesBack | internal/tui/attachterm/model.go:393-400 | after any run that saves no other cursor, restoring moves the cursor to where it was saved and changes nothing else; exactly if no wrap was pending |
| TerminalDispatch.ResizeFits | internal/tui/attachterm/model.go:77-97 | both cursors and the region are brought onto the new screen; the same size changes nothing |
| TerminalDispatch.ResizeKeepsCells | internal/tui/attachterm/model.go:77-97 | every cell on both screens stays and the others are blank, on either buffer |
| TerminalDispatch.OthersDoNothing | internal/tui/attachterm/model.go:196-288 | every other control, escape and final byte changes nothing |
| TerminalModel.Model.DoPrintRune | internal/tui/attachterm/model.go:170-194 | updates the fields as the specification says, wide runes and deferred wrap included |
| TerminalModel.Model.DoTab | internal/tui/attachterm/model.go:203-207 | the loop of spaces ends at the tab stop |
| TerminalModel.Model.DoEraseDisplay | internal/tui/attachterm/model.go:472-496 | the nested loops blank exactly the cells of the mode's region |
| TerminalModel.Model.Dispatch | internal/tui/attachterm/model.go:196-308 | every decoded operation changes the object as the specification changes the value |
| ShellWords.JoinShellArgs | cmd/cmdrad/service.go:339-355 | the loop computes the quoted line |
| ShellWords.JoinedArgsTokenizeBack | cmd/cmdrad/service.go:339-355 | for every argument list, with empty arguments and embedded quotes, tokenising the line by the quoting rules of section 2.2 of the POSIX Shell Command Language, restricted to the five characters the code looks for, gives the list back |
| ShellWords.QuotedExactlyIfNeeded | cmd/cmdrad/service.go:339-353 | an argument is left as it is if and only if it is not empty and has no blank, quote or backslash |
| ShellWords.ParseWords | internal/tui/app.go:1961-2004 | the scan computes the specified words, and fails exactly if a quote is open at the end |
| ShellWords.ErrsExactlyOnOpenQuote | internal/tui/app.go:1998-2000 | parsing fails if and only if a quote is left open at the end of the trimmed input |
| ShellWords.WrittenWordsParseBack | internal/tui/app.go:1961-2004 | words written in double quotes, with backslash before quote and backslash, parse back without the empty ones: to the list itself if and only if none is empty |
| WordStyles.AnyStyleParsesBack | internal/tui/app.go:1961-2004 | every list of non-empty words, each in stretches that are plain, after a backslash or in either kind of quotes, with any runs of space, tab and newline between them and any spaces around them, is read back unchanged if and only if neither end of the text is a space that trimming takes |
| WordStyles.TrimmingTakesWords | internal/tui/app.go:1962-1965 | inputs of both kinds on which trimming does take part of a word |

## Left out

- Process start, signals, pipes, PTY and ConPTY handles, clocks and tickers: events and parameters of the model.
- SQLite, its schema migration and write-ahead log, and the JSON encoding of arguments: two tables with atomic statements; a statement fails only on a missing or duplicate row.
- Columns no modelled operation reads (command line, transfer paths, PTY size), record timestamps, and the snapshot views returned to callers.
- Random ids: `Transfer.DownloadFile`, `Transfer.UploadFile`, `History.FinishedNeverRunsAgain`, `History.VerdictIsFinal` and `Clearing.InterleavedClear` assume that an id is not issued twice.
- gRPC, TLS, certificates, audit logging, validation of request fields and conversion of errors to status codes.
- The execution lookup before `Attach` and `Cancel` is not a step of `Protocol`: there the row may be deleted at any moment around those steps, which only adds runs. `ManagedExecution.ManagedExecution.Attach` takes the answer of the map lookup as a parameter.
- Writing to stdin and resizing a PTY during an attach.
- The in-memory sequence counter of an execution: nothing reads it.
- History.Step: a live execution is a value with its owner and cancel flag there and in `Manager`; the object with its channel is `ManagedExecution`, tied to `Protocol`. One execution object per map entry, shared by both, is not modelled.
- History.DeleteStep: removes row and map entry at once, where the code removes the row first and the map entry after it, so for a moment a live entry has no row; every operation looks the row up first. What holds of every reachable state holds between operations.
- Manager.Manager.StreamOutput: nothing is interleaved with its query and its discard; what operations in between do is `Interleaved.DiscardsOnlySentIff`.
- Manager.Manager.CompleteTransfer: nothing is interleaved with its statements; `Interleaved.CompleteInParts` has operations between them.
- Interleaved.CompletionAnswersNotFoundIff: assumes that nobody else completes the transfer before it does, and that ids are not issued twice, as `Interleaved.FinishedRowGoesIff` and `Interleaved.DiscardsOnlySentIff` do.
- ProtocolEnds.ClosedSessionEnds: that the session's handler is scheduled at all is not modelled; the receives are counted.
- History.RunKeepsExitsAgree: assumes that a transfer is completed under the id of a transfer, as the service does; the two kinds of id have different prefixes.
- History.Text: a system record's text is one byte per character.
- Protocol.Apply: an append whose row is gone is dropped, as in the code; other database errors on append are not steps.
- Capture.Apply: appends succeed; an append that fails loses its chunk, which `ManagedExecution.AppendOutput` models.
- Capture.CaptureLoop.CaptureOutput: the select statement is a sequence of events, and the channel of 32 chunks between reader and loop is not modelled, since it only delays events.
- ManagedExecution.ManagedExecution.AppendOutput: stated with nothing interleaved; the interleavings are those of `Protocol`, whose single steps the methods it calls perform.
- ProtocolExit.ExitHasAllOutputIff: for sessions that asked for a replay; what a session without one gets is `PublishedIsDelivered`. Records dropped on a full queue are set aside, since the code drops by design.
- Transfer.DownloadFile: other operations are not interleaved with a transfer; they cannot remove its row while it is running; from the completion on see `Interleaved.CompletionAnswersNotFoundIff`.
- Transfer.UploadFile: the SHA-256 function itself, checks of the metadata frame, directories and file modes; a failure to create the directory ends as a failure to open. Nothing is interleaved there, and then completing cannot fail; when it answers not found for a complete upload is `Interleaved.CompletionAnswersNotFoundIff`.
- DownloadArchive: zip and directory walking; its chunk loop is that of `DownloadFile`.
- Terminal.PrintRune: a cell's style is not modelled, and overwriting half of a wide cell leaves the other half, where the screen library may blank it.
- The escape-sequence parser, cell width tables, colours, and rendering: the model starts from decoded operations.
- Terminal.InsertLines: the screen library's insert, delete and resize are given plain grid contracts; a count of zero or less is a contract of the library, not of this code.
- WordStyles.AnyStyleParsesBack: for words that are not empty; an empty word, in whatever quotes, never comes back, as `ShellWords.WrittenWordsParseBack` says of double ones.
- ShellWords.JoinShellArgs: shell characters other than the five it looks for, newline among them, pass through unquoted, so the round trip is for a tokeniser that knows only those five.
- windowsCommandLine: it does not double backslashes, so its round trip needs a side condition.
- Enum and view conversions, XML escaping, the rest of the TUI, flag parsing, configuration merging, service installation, other SDK wrappers.
