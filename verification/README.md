# A verified model of qsync

qsync copies a directory tree one way over QUIC. The client walks the tree and announces
every entry as a length-prefixed record on a control stream. The server decides for each
record whether it needs the file: it acknowledges the record's 8-byte id, updates a
directory, or opens a data stream that carries the id. The client answers on that stream
with the file in blocks, and the server writes a temporary file and renames it into place.

This project models those five layers and proves what they keep over every input, every
cut of a stream into buffers, and every interleaving. Each layer has a functional or
small-step specification; the code that updates fields in place is a class whose methods
are proved to take exactly the specified steps. Where the code departs from its evident
intent, the model keeps the code as it is and proves exactly when it is right; a repaired
variant (named as such) is proved right unconditionally.

| file | what it holds |
|---|---|
| Wrappers.dfy, Bytes.dfy | options, byte streams, little-endian integers |
| Framing.dfy, Deframer.dfy, FailedAllocations.dfy, ControlStream.dfy | records on the control stream, their one-shot parse, the server's incremental reader, and what it does when an allocation fails |
| IdReader.dfy, ClientControl.dfy | the client's 8-byte id reassembly, once for both of its callbacks |
| SendPipeline.dfy, SendContext.dfy | the client's windowed sending of one file |
| ReceivePipeline.dfy, FinRace.dfy, ServerStream.dfy | the server's receiving, writing, validating and installing of one file, and the race for its last receive |
| Threadpool.dfy | the pool, with sleeping, woken and running workers |
| Traversal.dfy, FindFiles.dfy, Walks.dfy | the three breadth-first walks, ids, the order of records |
| Sync.dfy, Endpoints.dfy | the whole-run protocol, and the code that takes its steps |
| Progress.dfy, Convergence.dfy, TempPaths.dfy, Idempotence.dfy, RunFrame.dfy | how runs end, what they leave, what they leave alone, and what a second run does |
| EndToEnd.dfy | the layers put together |

`dafny verify dfyconfig.toml` checks the whole project.

## Findings

- The server's control-stream reader agrees with the one-shot parse exactly on the cuts
  called `RunIntact`. Outside them it reads past a buffer (a size prefix completed by a
  buffer without the whole payload), drops later buffers of the event, or loses a record
  whose allocation failed.
- After a failed allocation the reader is back in step if and only if the bytes to skip are
  no more than the next buffer holds: what is left of a skip is forgotten.
- The client's id reader is exact if and only if no partial id is completed by a buffer
  that goes on after it. A data stream carries one id only, so there every cut is right.
- The send window of four is respected in all interleavings exactly by files of fewer than
  five full blocks; a file of n blocks can have (n + 4) / 2 sends outstanding, and does in
  some interleaving.
- Work items can be left queued for a stream that has sent and completed everything, in
  some interleaving, exactly for files of at least one full block; the context they refer
  to is deleted at shutdown.
- The server reads the FIN flag after it has completed the receive. An error-free stream is
  finalised once, plus once for every worker that FIN overtook there. All undisturbed
  interleavings deliver exactly on the cuts called `SafeCut`: FIN's receive is the only
  one; or neither the bytes before it nor all bytes are as many as announced; or no byte
  came before it, it brings as many as announced, and there are none or they are already
  at the destination. So whenever an empty receive with FIN follows all the bytes of a
  file, an interleaving leaves an empty file: FIN's worker truncates the temporary file
  between the other worker's close and its rename.
- A context is freed if and only if no worker left through the failed open.
- FindFiles announces every directory before its contents exactly when every directory
  that has contents to announce reports a size; it skips entries whose size fails. What
  is announced below such a directory arrives in no run if the destination lacks it.
- A directory made current by a run ends with the announced time if and only if nothing
  has to be put into it.
- Every finished run delivers every record exactly when no file that needs a transfer has a
  temporary path (its own path and ".qsync") that is announced too.
- A record of 2^32 bytes or more arrives as its first bytes only.

## Model

| member | source | states |
|---|---|---|
| Framing.ParseFrame | client.cpp:368-384 | whatever incomplete record follows, the one-shot parse of the client's framing returns exactly the records and leaves exactly the rest |
| Framing.FrameParse | server.cpp:367-409 | the parse invents and loses no byte: framing its messages and adding its rest gives the stream back |
| Framing.ParseAppend | server.cpp:316-413 | parsing can stop at any byte and be resumed from the unread suffix |
| Framing.RoundTripExactly | client.cpp:373-378 | a list of records survives the framing if and only if each is shorter than 2^32 bytes, because the size is cast to 32 bits |
| Framing.ArrivesCut | client.cpp:373-378 | whatever the lengths of the records, each arrives as its first bytes, as many as its length is modulo 2^32, and the stream stays in step |
| Deframer.FaithfulExactlyWhenIntact | server.cpp:316-413 | for all events, buffers, cuts and allocation results, the reader as written hands over the messages of the one-shot parse, saves exactly its unread suffix and never reads past a buffer if and only if the cuts are intact |
| Deframer.OneEvent | server.cpp:317-411 | one receive event, from the saved suffix to the next saved suffix, for as many buffers as it has |
| Deframer.DeliversAllRecords | server.cpp:316-413 | framing, then any intact cut, then the reader gives the records in order and ends in NoPartialData with no skip |
| Deframer.SingleBufferEvents | server.cpp:321-341 | with one buffer per event and no failed allocation, the cuts are intact if and only if every buffer that completes a split size brings the whole payload |
| Deframer.OverreadOnSplitPrefix | server.cpp:331-338 | a concrete run of three one-buffer events in which the reader takes its payload from beyond the buffer |
| Deframer.LaterBufferDropped | server.cpp:322-330 | a concrete run in which the early return drops the second buffer of an event |
| Deframer.TwoBuffers | server.cpp:373-405 | for all contents of two buffers of one event, in terms of the one-shot parse alone: if the event does not hold the rest of the record, or of its size, that the first buffer leaves, the second buffer is dropped; if the first splits a size, the second must bring the whole payload or is read past; otherwise the event is read as one |
| Deframer.ContinuesInNextBuffer | server.cpp:400-405 | a concrete event whose second buffer holds the payload: the record is delivered |
| Deframer.RunKeeps | server.cpp:316-413 | no run holds or hands over more bytes than it was given, on any cut, unless it read past a buffer |
| Deframer.CutsDoNotMatter | server.cpp:316-413 | a reader that parses each event from the saved suffix gives, for every cut, the one-shot parse of the whole stream |
| ControlStream.ControlStream.ScanRecords | server.cpp:367-410 | the inner loop hands over the complete records of a buffer from any index and saves the partial size, partial message or skip of the specification |
| ControlStream.ControlStream.FinishSize | server.cpp:321-342 | completing a split size: more of it saved, or one message taken from the same buffer, or the read past its end |
| ControlStream.ControlStream.FinishMessage | server.cpp:343-366 | completing a split message: more of it saved, or the whole message handed over and the state cleared |
| ControlStream.ControlStream.Receive | server.cpp:316-413 | the callback's field updates, on arrays for the union, are one event of the functional reader, including every early return |
| FailedAllocations.ResynchronisesExactly | server.cpp:319-320 | from every saved state and for every buffer, as written, the messages and the state after it are what they should be if and only if the buffer holds all that is still to be skipped and a split size comes with its payload |
| FailedAllocations.DeliversSurvivors | server.cpp:383-396 | skipping as far as needed delivers, for every cut and every pattern of failed allocations, the records of the one-shot parse in order except exactly those whose allocation failed, told by their offsets and the buffer that completes their size |
| FailedAllocations.SoundRunDelivers | server.cpp:316-413 | a whole run of the reader as written delivers exactly those records if each of its buffers meets that condition and no early return drops data |
| FailedAllocations.ForgottenSkipShows | server.cpp:319-320 | whenever a skip is longer than the next buffer there is a continuation that the code as written reads as other records |
| FailedAllocations.SkipForgotten | server.cpp:385-395 | a concrete run of three buffers in which the payload of a lost record is read as a record |
| ControlStream.ControlStream.ReceiveRepaired | server.cpp:316-413 | repaired reader: for every cut, any number of buffers and any failed allocations, the messages and the saved state are those of the reader that skips as far as needed, and of the one-shot parse if no allocation fails |
| IdReader.IdsRoundTrip | server.cpp:116-120 | the server's encoding of 64-bit ids is read back as the same ids with nothing left over |
| IdReader.IdsOfAppend | client.cpp:57-121 | grouping into eights can stop at any byte and be resumed from the 0 to 7 leftover bytes |
| IdReader.ExactlyWhenIntact | client.cpp:61-98 | as written, the ids looked up are the consecutive little-endian groups and the leftover bytes are kept if and only if no completed partial id has bytes after it in its buffer |
| IdReader.SingleIdAlwaysRead | client.cpp:57-121 | the one id of a data stream is read from every cut of its eight bytes |
| IdReader.SecondIdLost | client.cpp:78-79 | two ids cut as 4 and 12 bytes: only the first is seen |
| ClientControl.ControlAcks.ReadIds | client.cpp:157-201 | the loop over one buffer, as written and with the cursor repaired, looks up the ids of the respective specification and saves its leftover |
| ClientControl.ControlAcks.Receive | client.cpp:155-204 | a whole event erases from FileInfos exactly the ids read; repaired, these are the groups of the concatenated bytes |
| ClientControl.EventsAreOneReading | client.cpp:155-204 | the events of a whole run, cut in any way, erase the ids of one reading of all their buffers and keep its leftover, as written and repaired |
| SendPipeline.BlocksAreTheFile | client.cpp:21-30 | the blocks are floor(n / 65535) full ones and one of n mod 65535 bytes, and together they are the file |
| SendPipeline.StepKeepsCounter | client.cpp:36-37 | the 32-bit counter is the number of sends in flight, less one between a send and its count, modulo 2^32, across every step, also when a completion overtakes its increment |
| SendPipeline.NeverStalls | client.cpp:36-39 | in every reachable state before end of file there is a queued item, an active worker, an untested completion or a send in flight, and so some step to take |
| SendPipeline.TransferCompletes | client.cpp:10-40 | every interleaving has at most 10 steps for each block and 3 more, and one that can go no further has sent the file block by block with FIN on the last block alone |
| SendPipeline.LeftoverItemsSendNothing | client.cpp:13-15 | from the end of file on, in every continuation, what has been sent and its FIN flags stay as they are and no further item is queued |
| SendPipeline.ItemsLeftOverExactly | client.cpp:124-133 | some interleaving leaves work items queued when the whole file has been sent and completed if and only if the file has at least one full block |
| SendPipeline.InFlightAtMost | client.cpp:124-129 | in every interleaving at most (n + 4) / 2 sends of n blocks are outstanding |
| SendPipeline.InFlightAttained | client.cpp:37-38 | for every k with enough blocks, an interleaving with 4 + k sends outstanding exists |
| SendPipeline.WindowHoldsExactly | client.cpp:7-8 | the window of four holds in every interleaving if and only if the file has fewer than 5 * 65535 bytes |
| SendPipeline.RecheckedWindowHolds | client.cpp:37-38 | with the window tested again before a block is read, it holds for every file in every interleaving |
| SendContext.DataStreamContext.FileIoWorker | client.cpp:10-40 | one uninterrupted worker takes exactly the read, send, increment and test steps |
| SendContext.DataStreamContext.SendComplete | client.cpp:124-130 | one uninterrupted completion takes exactly the decrement and test steps |
| SendContext.WorkerIsARun | client.cpp:10-40 | before the end of the file an uninterrupted worker is the run read, send, increment, test of the pipeline, and after it the run of one read that finds nothing |
| SendContext.CompletionIsARun | client.cpp:124-130 | an uninterrupted completion is the run decrement, test |
| ReceivePipeline.StepKeepsLifetime | server.cpp:443-452 | across every step RefCount is the stream's reference, plus queued and running workers, plus workers that left through the failed open |
| ReceivePipeline.NothingAfterFree | server.cpp:102-105 | once the context is freed no step of the stream or of a worker is possible, so it is freed once and not touched afterwards |
| ReceivePipeline.FreedExactlyWithoutOpenFailure | server.cpp:33-37 | with the stream down and no worker left, the context has been freed if and only if no open failed |
| ReceivePipeline.FailedOpenLeaks | server.cpp:33-37 | a concrete run of three steps that ends with the stream down, no worker and the context not freed |
| ReceivePipeline.RepairedFreedExactly | server.cpp:33-37 | with the dereference put back on that exit, in every reachable state the context has been freed if and only if the stream is down and no worker is left |
| ReceivePipeline.TemporaryFileInOrder | server.cpp:39-50 | in every interleaving, although a second worker may start before the first has ended, the temporary file is until a worker closes it to finalise the in-order concatenation of the receives, less what the last worker has to write, and BytesWritten counts it |
| ReceivePipeline.FinalisedOnce | server.cpp:51 | on clean runs (flag latched per receive, or no worker overtaken) finalisation runs at most once, by the worker of the receive with FIN, and has run when an unbroken stream is done |
| ReceivePipeline.FinalisationsAsWritten | server.cpp:440 | as written, an unbroken stream is finalised 1 + k times, k being the workers between ReceiveComplete and the flag when FIN arrives; so once if and only if k is 0 |
| FinRace.DeliversAsWrittenExactly | server.cpp:50-95 | for every cut of a stream, announced size, old file and time: as written, every undisturbed interleaving over that cut, in which a worker may reopen the temporary file between the close and the rename of another, leaves what it should if and only if the cut is safe, which is a test of sizes and, in one corner, of the old file |
| FinRace.SafeCutDelivers | server.cpp:50-95 | over a safe cut every undisturbed interleaving, however many workers FIN overtakes and wherever they stand between reading the flag, closing and renaming, ends with the received bytes and the announced time, or with the old file if they are not as many as announced |
| FinRace.UnsafeCutFails | server.cpp:31-51 | over any other cut there is an undisturbed interleaving that ends with something else |
| FinRace.EmptyFileInstalled | server.cpp:31-95 | whatever the old file and however the bytes were cut, an error-free run as written in which all announced bytes, then an empty receive with FIN, end as an empty file at the destination |
| FinRace.LateBytesLand | server.cpp:31-95 | when bytes beyond the announced size follow, some undisturbed run puts an empty file in place and then writes those bytes straight into it |
| ReceivePipeline.InstallIsAllOrNothing | server.cpp:51-95 | in every run, as written or repaired, whatever fails and whoever else writes, the destination is only replaced after FIN and never over a snapshotted file seen to have changed in size or time; a clean run replaces it at most once, by all received bytes, exactly NewFileSize of them |
| ReceivePipeline.OnlyInstallsReplace | server.cpp:89 | no step but that replacement changes the destination, except a write through a stream that was opened again before a replacement renamed its file |
| ReceivePipeline.WriteExactly | server.cpp:39-49 | for every outcome of a write, where its bytes go: all of them or at most a part, to the end of the open file, which may be the temporary file or, after a rename, the destination; nothing if another worker has closed the stream |
| ReceivePipeline.FinaliseExactly | server.cpp:54-100 | for every outcome of the file-system calls, exactly when the destination is replaced, by what and with which time, and what becomes of the temporary file; in particular a failed rename, or a failed size or time test on a file that was there at the snapshot, leaves the destination as it was, and a failed existence test skips the comparison |
| ReceivePipeline.Delivers | server.cpp:85-95 | a clean undisturbed stream leaves the received bytes with the announced time if they are as many as announced, and the old destination otherwise |
| ServerStream.DataStreamContext.Receive | server.cpp:438-445 | the receive event overwrites flag and buffers, takes a reference and queues a worker |
| ServerStream.DataStreamContext.ShutdownComplete | server.cpp:449-453 | shutdown gives up the stream's reference and frees at zero |
| ServerStream.DataStreamContext.FinaliseFile | server.cpp:51-101 | the close and the nested tests of validation, size, rename and time, with their different exits, are the close and finalisation steps for every result of the file-system calls |
| ServerStream.DataStreamContext.FileIoWorker | server.cpp:28-106 | one uninterrupted worker, with its goto exits and the failed-open return, takes exactly the worker's steps |
| ServerStream.WorkerIsARun | server.cpp:28-106 | an uninterrupted worker is, through each of its exits, a run of the pipeline: open, write, account, complete, test, close and finalise if FIN, dereference; open, write, dereference; or a failed open |
| Threadpool.NoLostWakeUp | threadpool.h:34-56 | with any number of threads, while running, if a worker sleeps then the queue is no longer than the woken workers plus the enqueuers that have yet to notify |
| Threadpool.QueuedMeansBusy | threadpool.h:34-56 | an item waits in a pool at rest only if every thread is running an item |
| Threadpool.TakenInOrder | threadpool.h:42-45 | items taken, then the queue, are always the enqueue order, and items taken are those ended and those in hand, so each runs at most once |
| Threadpool.OneThreadRunsInSequence | threadpool.h:11-17 | a pool of one thread ends every item before it takes the next |
| Threadpool.NothingTakenAfterStop | threadpool.h:36-41 | after the stop flag no further item is ever taken |
| Threadpool.JoiningProgress | threadpool.h:21-32 | after notify_all every worker step brings the pool strictly nearer to the end of its threads and no other step sets it back |
| Threadpool.JoiningNeverStuck | threadpool.h:29-31 | while joining, some worker can take a step if and only if some thread has not finished |
| Threadpool.StopEndsAll | threadpool.h:21-32 | from every reachable state, clearing the flag and notifying everyone is followed by a run of the workers alone in which all finish and nothing more is taken |
| Threadpool.Shared.WaitOrTake | threadpool.h:37-44 | the worker's critical section is the step of the pool in which it sleeps, leaves or takes exactly the front item |
| Threadpool.Shared.Enqueue | threadpool.h:50-56 | the enqueuer's critical section is the push step of the pool, with its notification still to come |
| Traversal.QueueGetsLighter | files.cpp:223-230 | taking a directory and queueing its folders strictly decreases the nodes in unexplored subtrees |
| Traversal.LayeredIsQueued | files.cpp:264-283 | concatenating the layers of the parallel search gives exactly the order in which FindFiles dequeues directories |
| Traversal.QueuedIsLevelOrder | files.cpp:219-234 | both are the level order of the tree, defined by depth alone |
| Traversal.DirectoriesAreDistinct | files.cpp:219-234 | no directory is visited twice in a tree whose siblings have distinct names |
| FindFiles.RecordTellsEntry | files.cpp:111-131 | every record has its entry's path, kind and size, the next id, and its time with the fraction of a second dropped towards zero |
| FindFiles.FoundExactly | files.cpp:143-237 | what is announced is exactly: every file and directory with a readable status and size that is below the root through directories with a readable status, and the root if it has a stem and a size |
| FindFiles.ParentsFirstExactly | files.cpp:112-116 | every entry follows its own directory's record if and only if every visited directory with something to announce reports a size |
| FindFiles.UnsizedTreeFails | files.cpp:112-116 | a concrete tree with a directory of unreadable size, whose file is announced without it |
| FindFiles.FoundPathsDistinct | files.cpp:126-129 | no path is announced twice |
| FindFiles.WalksAgreeExactly | src/files.rs:27-67 | walk_files touches exactly what FindFiles announces below the root, in the same order, if and only if no entry is skipped by FindFiles |
| Walks.Walk.DirItemToFileInfo | files.cpp:99-141 | an entry whose size fails is skipped without using an id; any other is announced with the next id |
| Walks.Walk.ProcessFolder | files.cpp:143-192 | announces the folder's entries in order with consecutive ids, returns its directories, and reports whether every status was read |
| Walks.Walk.FindFiles | files.cpp:194-237 | the loop over the deque announces exactly the specified list and succeeds if and only if every status was read |
| Walks.Walk.RunTasks | files.cpp:265-269 | the tasks of one layer, in any interleaving of their announcements, announce the same entries as a multiset with consecutive ids |
| Walks.Walk.FindFilesParallel | files.cpp:239-285 | visits the directories of the queued search, in its order, and announces the same entries as a multiset |
| Walks.WalkFiles | src/files.rs:16-69 | the loop over the VecDeque touches the entries of the level order |
| Sync.DoesFileNeedUpdate | files.cpp:17-97 | whatever call fails, an update is only ordered where the error-free decision orders one; a failed existence, status or time prevents it, a failed size only if the size was asked for |
| Sync.LeftAlone | files.cpp:17-97 | whatever fails, an entry of another type, a directory at least as new as announced, and a file at least as new and of the announced size (or whose size cannot be read) are never updated |
| Sync.TempPathInjective | server.cpp:201-202 | two destinations never share a temporary path |
| Sync.StepKeepsAccount | client.cpp:99-118 | every step of a run, failing or not, keeps each announced id in exactly one place and the client's table exact, including the entry that stays when its file cannot be opened |
| Sync.EachIdInOnePlace | client.cpp:379-381 | in every reachable state each announced id is in exactly one of: wire or server queue, acknowledgement, data stream, resolved, silently handled, refused, abandoned, unopened; no other id is anywhere; FileInfos holds exactly the ids on the wire, acknowledged in flight, asked for in flight, handled without a reply, or whose file the client could not open |
| Sync.LookupsSucceed | client.cpp:99-118 | no announcement finds its id taken, and every id that reaches the client is found in its table |
| Sync.AcksInOrder | server.cpp:238-243 | in every reachable state the ids on their way back are in the order of their announcement |
| Sync.ServeEnds | server.cpp:108-244 | in terms of the entry at the path, its type, time and size: which records are acknowledged, which open a data stream, which directories are updated without a reply, which cannot be created, and what the tree is afterwards |
| Sync.InstallEnds | server.cpp:54-98 | a transfer replaces the file exactly if nothing has changed at the path since the data stream was opened, as many bytes as announced have come and the rename is possible; only a wrong number of bytes leaves the temporary file behind |
| Progress.RunsEnd | server.cpp:109-244 | no run has more than five steps for each record, whatever fails in it |
| Endpoints.Client.Announce | client.cpp:355-385 | exits on an id that is taken, and otherwise leaves the table of the announce step and puts exactly the record's frame on the wire |
| Endpoints.Client.OpenRequested | client.cpp:99-119 | leaves the table of the step in which a request arrives, for files that open and files that do not, and queues work exactly when the transfer goes on |
| Endpoints.Client.Acknowledged | client.cpp:197-200 | leaves the table of the step in which an acknowledgement arrives |
| Endpoints.Server.WorkerCallback | server.cpp:108-244 | the branches of the server's worker change tree, acknowledgements and data streams exactly as the decision of Sync |
| Convergence.ParentIsThere | server.cpp:138 | the directory that holds a record's path is at the destination by the time the server gets to it |
| Convergence.StepKeepsTree | server.cpp:122-236 | every step keeps, for every record, what its path and temporary path hold and that nothing has failed |
| Convergence.ParentsAlwaysExist | server.cpp:32-38 | in every reachable state the parent of the next record and of every file in transfer exists, and no create_directory, temporary file or transfer has failed |
| Convergence.RunConverges | server.cpp:109-244 | in every run that can go no further each announced directory and file exists, files have the announced size and are up to date, transferred files have the source's bytes and the announced time, and the client's table holds exactly the directories updated without a reply; which way each record went is settled by the tree at the start: exactly the directories that needed an update were updated without a reply, exactly the files that needed one were installed, and every other record was acknowledged |
| Convergence.RecordsOfTree | files.cpp:215-234 | the records of a real tree whose directories report sizes have ids from one, distinct paths, and parents before children |
| TempPaths.SomeRunFails | server.cpp:201-202 | if the temporary path of a file to be transferred is announced, some finished run has given up that file or lost the other |
| TempPaths.EveryRunDeliversExactly | server.cpp:201-202 | every finished run delivers every record without a failure on the way if and only if no file that needs a transfer has an announced temporary path |
| TempPaths.XAndItsTemp | server.cpp:201-202 | a new file x beside a new empty file x.qsync, as a concrete tree for which some run fails |
| Idempotence.QuietExactly | server.cpp:122-243 | no interleaving of a run opens a data stream if and only if no announced file is missing, older than announced or of another size at the start |
| Idempotence.SecondRunIsQuiet | files.cpp:73-96 | after any run whose records have converged, a second run over the same records opens no data stream in any interleaving, and every file stays up to date |
| RunFrame.CurrentFilesAreKept | files.cpp:79-96 | in every reachable state a file that was at least as new as announced and of the announced size has its bytes and its time as they were, and has no data stream |
| RunFrame.UnannouncedIsKept | server.cpp:108-244 | in every reachable state what is at a path that is neither announced nor the temporary path of a file to be transferred is as it was, but for the time of a directory into which something is put |
| RunFrame.ServingSetsTime | server.cpp:144-145 | a directory handled without a reply has the announced time after that step |
| RunFrame.KeepsTimeExactly | server.cpp:138-145 | a directory that was missing or older than announced ends every run with the announced time if and only if no file directly in it is transferred and no directory directly in it is missing |
| RunFrame.OrphansNeverArrive | server.cpp:138-142 | if a directory is neither there nor announced, nothing announced in it is there in any reachable state of any run |
| RunFrame.UnsizedContentsNeverArrive | files.cpp:112-116 | so what FindFiles announces below a directory whose size cannot be read arrives in no run at a destination that lacks the directory |
| EndToEnd.AnnouncementsArrive | client.cpp:368-384 | with any injective encoding, the announced records come out of the server's reader in order: on every cut when events are read as their concatenation, and as written on every intact cut |
| EndToEnd.AcknowledgementsArrive | client.cpp:155-204 | in every reachable state, however many of the acknowledged ids arrive and however their bytes are cut into events and buffers, the client's table becomes that of as many acknowledgement steps of the run: always with the repaired cursor, and as written if and only if the cut is intact |
| EndToEnd.TransferIsOneStep | client.cpp:99-116 | id bytes in any cut, any maximal interleaving of sending, any cut of the bytes sent, and any undisturbed interleaving of receiving that is clean, or as written over a safe cut, leave at the path exactly what the install step of a run puts there |
| EndToEnd.TreeArrivesExactly | files.cpp:194-237 | from a source tree to the destination: for the records FindFiles announces, every finished run delivers if and only if the temporary paths are clear; and then every announced entry of the source is there, each file with its size and not older to within a second, and a transferred one with its bytes and its time to within a second |

## Left out

- InFlightAtMost: is stated for files of fewer than 2^32 - 1 blocks; beyond that the 32-bit counter itself can wrap.
- TransferIsOneStep: asks for a clean receive run or a safe cut (DeliversAsWrittenExactly shows that other cuts fail) and for no failure or outside writer during the transfer.
- FindFilesParallel: tasks are interleaved announcement by announcement, so the id counter, a plain static variable in files.cpp, is taken to be incremented atomically.
- RunConverges: takes the source not to change size between announcement and transfer, no entry of another type in the way, and no outside writers.
- Authentication, certificates, MsQuic registration, connections, listeners, stream priorities and the Rust server: a stream is an ordered byte sequence with receive and completion events (section 2.2 of RFC 9000).
- The Cap'n Proto packed encoding: any injective encoding of the record will do; the 64-bit unsigned modification time of fileinfo.capnp is an integer here.
- The file system: a map from paths to folders, files and other entries; clocks, time zones and canonical paths are not modelled, and times are ticks of 10^-7 seconds.
- Error results in the steps of Sync: DoesFileNeedUpdate, the receive worker and the walks have them, but a whole run decides with NeedsUpdate, and the server's snapshot calls always succeed.
- Symbolic links: status follows links at files.cpp:32 and files.cpp:159, so the link cases are not reached on the announce path; trees are finite.
- Failures of read_dir and of directory iteration itself; only the status and size of single entries fail here.
- Malloc and free of send buffers, a failed send on the client's data stream, a data stream that fails to open, and the unsynchronised access to FileInfos: table operations are atomic steps.
- The unlocked read of WorkerContinue in the pool's loop is one atomic step.
- Wrap-around of the 64-bit id counter, and of the 32-bit buffer index, which only happens past an overread.
- Uninitialised fields: parser, counter and id fields start as zero, NoPartialData and false.
- The receive event's two buffers are one chunk in the receive pipeline; a write may stop after any number of bytes.
- DeliversAsWrittenExactly: takes the validation, size test, rename and time of one worker as one step against the other workers and outside writers, as do all results on receiving; its close before them is a step of its own.
- Writes reach their file at once: what std::ofstream still buffers when another worker renames or removes the file is not modelled. A rename under an open stream succeeds and the stream keeps its file, as on POSIX systems.
- A temporary file left behind when the size does not match is kept in the model, but nothing ever cleans it up, there or in the code.
- qsync.cpp, main.rs, printing and argument parsing: no properties.
