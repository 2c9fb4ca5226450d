# go-aria2 verification

go-aria2 is a download daemon with an aria2-compatible interface. This project models the
parts of it that are self-contained algorithms or protocols and proves what they are for:

- **The scheduler and its queue** (`Scheduler.dfy`, `Manager.dfy`, `Queue.dfy`). The manager
  is a class over the task map, each operation written as the program writes it. Every change of
  the map is an event of a history; the theorems about histories (the concurrency limit, the
  counter of stopped tasks, the order of the queue) hold after every event of every history,
  whatever the drivers report. A driver is a class whose method bodies choose any outcome its
  promises allow. The queue has no list: its order is the order of creation times, and the proofs
  show that rewriting these times refines a list.
- **Removal as a protocol** (`RemoveProtocol.dfy`). Any number of concurrent Remove calls with
  their per-task mutexes, in every interleaving of their steps.
- **Rate limiting** (`RateLimit.dfy`, `BtGate.dfy`). The token bucket over real time and real
  tokens, its blocking wait with sleeps in whole nanoseconds, and the data gate of a torrent that
  start, pause, option changes, limits, seed policy and metadata all drive.
- **Two writers and their readers** (`XmlRpc.dfy`, `XmlForeign.dfy`, `TextSession.dfy`, `TextParser.dfy`).
  The XML-RPC value codec over a token stream, with what its reader makes of the documents other
  programs write, and the aria2 text session over characters and lines.
- **Byte ranges** (`Split.dfy`, `PieceCheck.dfy`). Splitting a download, assembling a torrent
  piece from the files it overlaps, rebuilding the bitfield, spreading progress over files.
- **Workers and trackers** (`WorkerLifecycle.dfy`, `Trackers.dfy`). Cancellation and restart of
  the HTTP workers, and the rewriting of tracker lists.

`Wrappers.dfy`, `Sorting.dfy`, `Text.dfy`, `Numbers.dfy` and `Tasks.dfy` hold what these share.
Code that changes state in place is a class or a method with loops, proved equal to a function
of its inputs or of the old state; the theorems are about those functions.

Where the code does not do what its names suggest, the code is kept, and the exact condition
under which it does is proved, or the run in which it does not:

- A forward move of the queue lands one place before the index ChangePosition returns, and a move
  by one place forward does nothing (`Queue.LandsShort`).
- Unpause starts a task without looking for a free slot. From a state within the limit it
  keeps the limit, whatever the driver reports, if and only if the task is active already or a
  slot is free (`Scheduler.StartKeepsLimitExactly`); `Scheduler.UnpauseBreaksLimit` reaches a
  full house from an empty manager in which it does not.
- At most one of the concurrent Remove calls on a task succeeds, whatever drivers and stores do,
  if and only if no three of them name it (`RemoveProtocol.AtMostOneExactly`). With any number
  of calls at most one succeeds when no driver call for that task fails before it is
  detached (`RemoveProtocol.AtMostOneRemoves`).
- A worker that exits late cancels the worker of a later Start
  (`WorkerLifecycle.StaleExitStopsRestart`). A restarted worker lives until it is itself stopped or
  done, in every history, if and only if no earlier worker of the task is still running at
  the Start (`WorkerLifecycle.RestartLastsExactly`).
- The rate limit loop can undo a seed stop, though nothing is uploaded any more
  (`BtGate.ThrottledStopUndone`). The stop lasts if and only if, when it happens, the torrent has no
  upload limit, or is not throttled by it and can pay for what it wrote since the last sample
  (`BtGate.SeedStopLasts`).
- A reordering of the queue does not last for a task whose driver reports a time of its own: a time
  survives a report if and only if the report has none, or the same
  (`Scheduler.StampSurvivesExactly`, `Scheduler.ReorderingUndone`).
- An XML-RPC value survives the round trip exactly when it is lossless: no nil, no floating-point
  number, no integer a 64-bit float cannot hold, no empty member name (`XmlRpc.CanonFixed`).
- An XML-RPC document cut short is an error wherever it is cut, unless it is cut inside an element of
  an unknown type, which then reads as the empty string (`XmlForeign.CutDoc`, `XmlForeign.UnknownTypeCut`).
- A session option `paused` overrides the status a task is exported with
  (`TextParser.PausedSurvives`).
- A queue position whose sum leaves the 64-bit integers resolves to the front
  (`Queue.ResolvesToNearest`).
- SyncActive fills slots if and only if one of the tasks active at first is found complete
  (`Manager.Manager.SyncActive`). When all it finds is that the active task ended in an error, the
  slot stays free while another task waits (`Manager.SyncAfterError`, `Scheduler.ErrorLeavesSlotFree`).
  From a state where no slot is free or nothing waits, refreshing alone keeps it so for all
  reports if and only if nothing waits (`Scheduler.RefreshConservesExactly`).

## Model

| member | source | states |
|---|---|---|
| Scheduler.KeepsLimitExactly | internal/core/manager/manager.go:929-964 | from a state within the limit, an event keeps it there if and only if it is not the start of one more active task at a full house, the insertion of one, or a limit below the active tasks |
| Scheduler.StartKeepsLimitExactly | internal/core/manager/manager.go:329-347 | from a state within the limit, a start without a slot check keeps it for every possible report if and only if the task is active already or a slot is free |
| Scheduler.UnpauseBreaksLimit | internal/core/manager/manager.go:329-362 | from an empty manager with one slot, a history within the slots leads to a full house with a paused task, whose start makes two active |
| Scheduler.ErrorLeavesSlotFree | internal/core/manager/manager.go:901-914 | from an empty manager a history within the slots ends in the report that the active task failed; a slot is free then and a task waits |
| Scheduler.RefreshConservesExactly | internal/core/manager/manager.go:901-914 | from a state with no free slot or nothing waiting, every legal refreshing keeps it so if and only if nothing waits |
| Scheduler.WithinStep | internal/core/manager/manager.go:1410-1434 | an event within the slots never raises the active tasks above both the limit and what they were |
| Scheduler.LimitHolds | internal/core/manager/manager.go:108-203 | over every history within the slots the active tasks stay within the limit, or no more than at its start |
| Scheduler.CounterCountsStops | internal/core/manager/manager.go:1170-1247 | over every history numStoppedTotal grows by the number of tasks seen to go from not stopped to stopped, and the tasks stopped now are at most those plus the ones stopped at the start or put in place stopped |
| Scheduler.StoppedStep | internal/core/manager/manager.go:1179-1182 | one event moves the counter by the number of tasks it stops, and the stopped tasks by no more |
| Scheduler.CountsAddUp | internal/core/manager/manager.go:756-775 | active, queued and stopped tasks are all the tasks |
| Scheduler.SyncsRefresh | internal/core/manager/manager.go:966-991 | any number of refreshes makes no task active or waiting and keeps ids, creation times and the limit |
| Scheduler.TimesStay | internal/core/manager/manager.go:1195-1197 | over a history without a reordering and without an insertion in its own place, a task keeps its creation time and does not return once gone, whatever happens to others |
| Scheduler.StampSurvivesExactly | internal/core/manager/manager.go:1195-1197 | a stored report leaves the creation time if and only if it has none or the same |
| Scheduler.ReorderingUndone | internal/core/manager/queue.go:48-50 | when every queued task is reported with the time it had before, storing the reports after a reordering brings the old task map and queue back |
| Scheduler.QueueOrderStays | internal/core/manager/queue.go:197-227 | adding, starting, refreshing and removing tasks keeps the relative order of any two tasks queued before and after |
| Scheduler.NewTaskJoinsLast | internal/core/manager/manager.go:137-168 | after any history with no time after its own, a task put in queued stands at the end of the queue if and only if no queued task with exactly its time has a larger id |
| Manager.Driver.Add | internal/core/manager/driver.go:20-30 | promise of a driver: a new task has an id and is not active |
| Manager.Driver.TellStatus | internal/core/manager/driver.go:20-30 | promise of a driver: the report is on the task asked for, is active only after a start or if it was, waiting only if it was and not after a start, leaves the creation time open, and does not fail right after a start |
| Manager.Manager.constructor | internal/core/manager/manager.go:81-98 | an empty manager, with a limit of at least one |
| Manager.Manager.ShouldStartImmediately | internal/core/manager/manager.go:929-940 | true exactly when fewer tasks are active than the limit |
| Manager.Manager.GetGlobalStat | internal/core/manager/manager.go:756-775 | the three counts are the cardinalities of the status groups and add up to the number of tasks |
| Manager.Manager.NextWaitingTaskID | internal/core/manager/manager.go:1436-1459 | a waiting task none is older than, or none exactly when nothing waits |
| Manager.Manager.LookupByGID | internal/core/manager/manager.go:1116-1126 | some task of the group id, or none exactly when no task has it |
| Manager.Manager.SnapshotTaskIDsByStatus | internal/core/manager/manager.go:1312-1329 | the ids with the statuses, each once, in order |
| Manager.Manager.StoreTask | internal/core/manager/manager.go:1170-1247 | stores the report as one event of the history: status taken over, open group id and creation time kept, a stop counted |
| Manager.Manager.StartTaskByID | internal/core/manager/manager.go:942-964 | on success exactly this task is replaced, and is not waiting; on failure nothing has changed |
| Manager.Manager.SyncTaskByID | internal/core/manager/manager.go:966-991 | at most this task is replaced, by a refresh; an unknown task is an error |
| Manager.Manager.StartAndTell | internal/core/manager/manager.go:1422-1428 | a start with the following refresh keeps what the start achieved, and stays within the slots when one was free |
| Manager.Manager.SaveSession | internal/core/manager/manager.go:850-855 | with a store every task is asked for its status; saving only refreshes tasks |
| Manager.Manager.FillSlots | internal/core/manager/manager.go:1410-1434 | terminates; without a driver failure its loop ends with no free slot or nothing waiting, and the drivers were asked for exactly the starts it lists: the oldest waiting tasks, oldest first, each into a free slot; only waiting tasks became active |
| Manager.Manager.FillLoop | internal/core/manager/manager.go:1411-1430 | the loop terminates with the oldest waiting tasks started, oldest first, and without a driver failure no free slot or nothing waiting |
| Manager.Manager.ApplyQueueOrder | internal/core/manager/queue.go:229-239 | the loop gives the listed tasks the times of the specification, as one event |
| Manager.Manager.InsertTaskAtQueuePosition | internal/core/manager/queue.go:108-133 | the queue is the old one with the task moved to min(position, number of others), a negative position meaning last; unknown group ids are an error, tasks not queued are left alone |
| Manager.Manager.ChangePosition | internal/core/manager/queue.go:19-51 | errors for unknown, unqueued and unknown mode change nothing; otherwise the returned index is the resolved one and the queue is the old one with only this task moved, back to that index or forward to one before it |
| Manager.Manager.MoveInQueue | internal/core/manager/queue.go:44-49 | the reordering of ChangePosition moves one task and nothing else |
| Manager.Manager.Add | internal/core/manager/manager.go:108-203 | the new task enters the map as the driver made it, at `now` when the driver leaves its time open, under the group id asked for, else the driver's, else a new one; where a queue position is asked for, the task of its group id stands at min(position, number of others), the rest in order; without one a new queued task stands last if and only if all queued tasks come before it by time and id; a new task to be paused is paused, and one without a free slot left alone, and neither is active at the end; one with a free slot is started and not waiting at the end; no other task is asked to do anything; all within the slots, failures included |
| Manager.Manager.NewTask | internal/core/manager/manager.go:132-162 | the driver is asked for one new task, whose open group id and time are filled in |
| Manager.Manager.AddNew | internal/core/manager/manager.go:165-202 | from the new task on: its place in the queue, its pause or start, and the session |
| Manager.Manager.Enter | internal/core/manager/manager.go:165-174 | the task enters the map, and the queue place of its group id is the one asked for |
| Manager.Manager.Pause | internal/core/manager/manager.go:285-307 | the driver is asked to pause exactly this task and the report on it is stored first; after that, on success, the slots are filled: the oldest waiting tasks are asked to start, until no slot is free or nothing waits; a task reported paused or stopped is neither active nor waiting at the end; unknown group ids are an error |
| Manager.Manager.SaveAndFill | internal/core/manager/manager.go:299-305 | after the session is saved the slots are filled, from a point of this call on |
| Manager.Manager.PauseAll | internal/core/manager/manager.go:314-326 | on success exactly the active and waiting tasks were asked to pause, each once, in the order of their ids; nothing becomes active or waiting |
| Manager.Manager.Remove | internal/core/manager/manager.go:217-265 | the driver is asked to remove exactly this task; the task is gone and no other, and on success the slots are filled after that, or nothing has changed |
| Manager.Manager.DetachTask | internal/core/manager/manager.go:267-282 | exactly this task leaves the map |
| Manager.Manager.SyncActive | internal/core/manager/manager.go:901-914 | the active tasks are asked for their status one after the other in the order of their ids; after each that is complete then the slots are filled, after each other nothing happens; so something is filled if and only if one of them is found complete; all within the slots |
| Manager.Manager.PauseTaskByID | internal/core/manager/manager.go:993-1018 | one task is asked to pause, then all are refreshed |
| Manager.Manager.SyncAndRefill | internal/core/manager/manager.go:903-912 | the turn of one task: it is refreshed, and the slots are filled right after if and only if it is complete then |
| Manager.SyncAfterError | internal/core/manager/manager.go:901-914 | with one slot, one active and one waiting task, when all that SyncActive finds is that the active one failed, it starts nothing and leaves the slot free |
| Manager.Manager.Unpause | internal/core/manager/manager.go:329-347 | the driver is asked to start exactly this task; a success leaves it not waiting; within the limit when the task was active or a slot was free |
| Manager.Manager.ChangeMaxConcurrent | internal/core/manager/manager.go:687-690 | a positive number becomes the limit; raising it stays within the slots |
| Manager.Serve | internal/core/manager/manager.go:108-326 | from an empty manager, under any sequence of Add, Pause, PauseAll, Remove, SyncActive, ChangePosition and limits never lowered, the history is the answers to the requests in order, each of the kind of its request and at its time, and the new tasks are those the drivers made, with the time of their request when left open; the active tasks are within the limit at every point; numStoppedTotal counts the stops and bounds the stopped tasks |
| Manager.ServeOne | internal/core/manager/manager.go:108-326 | the events of one request are those of its kind, on the task it names, and a success leaves its mark |
| Manager.LimitAtEveryPoint | internal/core/manager/manager.go:929-940 | every prefix of a history within the slots is within the limit |
| Manager.OneMoreStarted | internal/core/manager/manager.go:1410-1434 | a round of fillSlots takes the oldest waiting task, so waiting tasks strictly fall and the started ones stay the oldest, in order |
| Queue.OrderedQueueTaskIDs | internal/core/manager/queue.go:197-227 | the queued ids, each once, by creation time and then id, whatever the order of the map |
| Queue.OrderedQueueUnique | internal/core/manager/queue.go:215-220 | there is only one such ordering |
| Queue.StampFacts | internal/core/manager/queue.go:229-239 | a rewriting gives each listed task its own time and touches nothing else |
| Queue.OrderApplied | internal/core/manager/queue.go:197-239 | times refine a list: after applying any ordering of the queued ids that ordering is the queue, and nothing else of any task changes |
| Queue.NextInOrder | internal/core/manager/manager.go:1436-1459 | after applying an ordering a task may be started next if and only if it is the first waiting one of the ordering |
| Queue.JoinsLast | internal/core/manager/queue.go:215-220 | a new queued task joins at the end if and only if every queued task is older, or as old with a smaller id |
| Queue.LaterComesLast | internal/core/manager/queue.go:230 | a task created at or after a reordering comes last |
| Queue.ReorderQueueIDs | internal/core/manager/queue.go:267-278 | the others keep their order; the moved id is at its landing place |
| Queue.LandsShort | internal/core/manager/queue.go:272-277 | the moved id is at the requested index if and only if it did not move forward; one place forward is no move |
| Queue.MovesOnlyPermutes | internal/core/manager/queue.go:267-278 | moving one element permutes the queue |
| Queue.InsertedOrder | internal/core/manager/queue.go:117-130 | dropping the id and inserting it again moves it to the insertion place and keeps the others in order |
| Queue.ResolveQueueIndex | internal/core/manager/queue.go:241-265 | within the queue for each known mode, an error for any other |
| Queue.ResolvesToNearest | internal/core/manager/queue.go:241-265 | the index is the place nearest to the position meant if and only if the sum stays a 64-bit integer or there is one place only; an overflow falls to the front |
| Queue.StampMoves | internal/core/manager/queue.go:48-49 | applying a list with one element moved makes the queue that list |
| RemoveProtocol.StepKeepsInv | internal/core/manager/manager.go:206-282 | every step keeps the invariant of a task unless it is an early driver failure of a call on it: calls hold the mutexes they took, and a present task's mutex is the one in the table |
| RemoveProtocol.RunKeepsInv | internal/core/manager/manager.go:206-282 | the invariant of a task over every interleaving without an early driver failure of its own calls |
| RemoveProtocol.AtMostOneRemoves | internal/core/manager/manager.go:206-282 | no two calls remove the same task in any such interleaving, whatever fails for other tasks |
| RemoveProtocol.AtMostOneExactly | internal/core/manager/manager.go:206-282 | over all interleavings with any failures, at most one call succeeds on a task if and only if no three calls name it |
| RemoveProtocol.ExactlyOneRemoves | internal/core/manager/manager.go:206-282 | without failures, when all calls have returned, exactly one returned the task and all others ErrTaskNotFound |
| RemoveProtocol.FailureLetsTwoRemove | internal/core/manager/manager.go:223-241 | from every initial state with three calls on a task there is a run with a driver failure in which two of them succeed |
| RateLimit.NewByteLimiter | internal/protocol/common/ratelimit.go:18-28 | a full bucket, or no limiter exactly when the rate is not positive |
| RateLimit.SetRate | internal/protocol/common/ratelimit.go:30-41 | the new rate, tokens cut to it |
| RateLimit.CanAfford | internal/protocol/common/ratelimit.go:43-59 | refills and answers; takes nothing |
| RateLimit.TryConsume | internal/protocol/common/ratelimit.go:61-81 | takes all of n or nothing, as the bucket specification says |
| RateLimit.ApplyAccounts | internal/protocol/common/ratelimit.go:43-128 | every step of any user keeps 0 <= tokens <= rate and every waiter's account, and what it takes leaves the bucket |
| RateLimit.RunBound | internal/protocol/common/ratelimit.go:30-128 | with changing positive rates, what a run takes is at most the tokens at its start plus the largest rate times the time since the last refill |
| RateLimit.WindowBound | internal/protocol/common/ratelimit.go:43-128 | at a fixed rate at most rate * (1 + length) is taken in any window, for any mix of TryConsume, CanAfford and rounds of Wait |
| RateLimit.WindowBoundTight | internal/protocol/common/ratelimit.go:61-81 | the bound is reached |
| RateLimit.RoundProgress | internal/protocol/common/ratelimit.go:83-128 | after a full sleep, truncated to nanoseconds and floored at a millisecond, a round finishes the wait or leaves one sleep fewer |
| RateLimit.RoundInTime | internal/protocol/common/ratelimit.go:83-128 | a round after its sleep loses nothing but the lateness of the timer and, if it is the last, a millisecond |
| RateLimit.Wait | internal/protocol/common/ratelimit.go:83-128 | uncontended it ends within ceil(n/rate) + 2 rounds, each at most a second and the lateness of its timer after the one before, and has taken exactly n when it succeeds; the rate times its length is at most what the bucket lacked at the start, a millisecond's worth, and the lateness of its timers; its rounds are steps of the shared system |
| RateLimit.WaitIsShort | internal/protocol/common/ratelimit.go:83-128 | with timers never late a wait lasts at most (n - tokens available) / rate, or nothing, and a millisecond |
| RateLimit.WaitTakesTime | internal/protocol/common/ratelimit.go:83-128 | a successful wait is not shorter than (n - tokens available) / rate |
| RateLimit.OwnShare | internal/protocol/common/ratelimit.go:83-128 | in any run a waiter takes no more than all users together |
| RateLimit.SharedWaitTakesTime | internal/protocol/common/ratelimit.go:83-128 | the same for every waiter, whoever else uses the limiter meanwhile |
| BtGate.TorrentState.Add | internal/protocol/bt/driver.go:305-360 | a new torrent may neither download nor upload |
| BtGate.TorrentState.StartTorrent | internal/protocol/bt/driver.go:363-388 | both permissions granted, throttles and sample cleared; a removed torrent is not found |
| BtGate.TorrentState.PauseTorrent | internal/protocol/bt/driver.go:391-411 | both permissions withdrawn |
| BtGate.TorrentState.ChangeOption | internal/protocol/bt/driver.go:600-625 | a pause option and new limits are the matching operations one after the other |
| BtGate.TorrentState.ApplyRateLimiters | internal/protocol/bt/task_rate_limit.go:9-21 | fresh limiters for positive rates; without one the throttle mark goes |
| BtGate.TorrentState.EnforceRateLimits | internal/protocol/bt/task_rate_limit.go:36-82 | one tick of the loop: both limits enforced on the bytes since the last sample, sampled only while started and not paused |
| BtGate.TorrentState.EnforceDownload | internal/protocol/bt/task_rate_limit.go:84-108 | throttled when the bytes cannot be paid, released when a byte is affordable again or the limit is gone |
| BtGate.TorrentState.EnforceUpload | internal/protocol/bt/task_rate_limit.go:110-134 | the same for upload |
| BtGate.TorrentState.StopSeeding | internal/protocol/bt/driver.go:458-466 | upload withdrawn, once |
| BtGate.TorrentState.MetadataReceived | internal/protocol/bt/driver.go:1043-1052 | pause after metadata withdraws both permissions and the start |
| BtGate.TorrentState.RemoveTorrent | internal/protocol/bt/driver.go:468-489 | a removed torrent is marked, once, and neither started nor paused |
| BtGate.AddedGate | internal/protocol/bt/driver.go:312-411 | over every history from Add: unless removed, download is allowed if and only if started, not paused and not throttled; upload only then, and if never seed-stopped exactly then |
| BtGate.FirstTickIsFree | internal/protocol/bt/task_rate_limit.go:55-60 | after a Start or a change of limits the next tick only takes a sample |
| BtGate.TickThrottlesDownload | internal/protocol/bt/task_rate_limit.go:36-108 | for a running sampled torrent with a download limit, by what the bucket holds after its refill and the bytes read since the sample: throttled after the tick if and only if they cannot be paid, or it was throttled and not a byte is left; allowed if and only if not throttled; what is paid leaves the bucket; the sample is the present counters |
| BtGate.TickThrottlesUpload | internal/protocol/bt/task_rate_limit.go:110-134 | the same for upload, which a tick allows only by lifting a throttle |
| BtGate.TickWithoutLimit | internal/protocol/bt/task_rate_limit.go:84-121 | a direction without a limit is left alone |
| BtGate.ThrottleLifts | internal/protocol/bt/task_rate_limit.go:95-134 | a throttled torrent that moves nothing more is allowed again by any tick a second after the last refill |
| BtGate.LimitsTakeEffect | internal/protocol/bt/driver.go:600-625 | new limits are fresh and full, one for each positive rate, no throttle is left, and a running torrent is allowed both ways |
| BtGate.SeedStopLasts | internal/protocol/bt/task_rate_limit.go:110-134 | while nothing is uploaded and the clock does not go back, no number of ticks allows upload again after a seed stop, if and only if there is no upload limit, or the torrent is not throttled and can pay for what it wrote since the last sample |
| BtGate.NoLimitNoUpload | internal/protocol/bt/task_rate_limit.go:110-121 | without an upload limit no ticks allow upload again, whatever bytes they count |
| BtGate.UndoSeedStop | internal/protocol/bt/task_rate_limit.go:110-134 | otherwise two ticks a second apart, with nothing uploaded between, allow upload again |
| BtGate.ThrottledStopUndone | internal/protocol/bt/driver.go:458-466 | a history from Add whose seed stop, of a throttled torrent, is undone by the next tick |
| XmlRpc.XmlDecoder.DecodeValue | internal/rpc/xmlrpc/server.go:134-185 | the decoder consumes and returns what the reading function says, on every stream |
| XmlRpc.XmlDecoder.DecodeValueContent | internal/rpc/xmlrpc/server.go:187-245 | the same for the content of a value |
| XmlRpc.XmlDecoder.DecodeArray | internal/rpc/xmlrpc/server.go:246-268 | the same for arrays |
| XmlRpc.XmlDecoder.DecodeStruct | internal/rpc/xmlrpc/server.go:270-303 | the same for structs |
| XmlRpc.EncodeValue | internal/rpc/xmlrpc/server.go:316-387 | writes the encoding of the value, struct members in sorted order |
| XmlRpc.SortStrings | internal/rpc/xmlrpc/server.go:405-414 | the in-place exchange sort sorts and permutes |
| XmlRpc.ReadsBack | internal/rpc/xmlrpc/server.go:187-303 | reading the encoding of any nested value, followed by anything, gives its canonical form and stops right after it |
| XmlRpc.CanonFixed | internal/rpc/xmlrpc/server.go:316-387 | a value is its canonical form if and only if it has no lossy part |
| XmlRpc.RoundTrip | internal/rpc/xmlrpc/server.go:134-387 | through value elements the reader leaves exactly the closing tag and the rest, and returns the value itself if and only if it is lossless |
| XmlRpc.SmallIntegersSurvive | internal/rpc/xmlrpc/server.go:316-387 | integers up to 2^53 survive |
| XmlRpc.LargeIntegerLost | internal/rpc/xmlrpc/server.go:187-245 | 2^53 + 1 reads back as 2^53 |
| XmlForeign.ReadsDoc | internal/rpc/xmlrpc/server.go:187-303 | for every document of the grammar (any of the integer types with space or sign, booleans in any case, base64, strings, unknown types, untyped text, empty values, comments and space between, nested arrays and structs), followed by anything, the reader gives its meaning and stops right after it, or gives the first malformed number or base64 text in it |
| XmlForeign.ForeignReads | internal/rpc/xmlrpc/server.go:134-185 | the same from the start tag of the value on, whatever precedes it but a start tag |
| XmlForeign.CutDoc | internal/rpc/xmlrpc/server.go:187-303 | a document of known types cut short is an error, wherever it is cut |
| XmlForeign.UnknownTypeCut | internal/rpc/xmlrpc/server.go:233-237 | an element of an unknown type cut short reads as the empty string |
| XmlForeign.BareText | internal/rpc/xmlrpc/server.go:194-198 | text without a type is a string, trimmed |
| XmlForeign.AnyInteger | internal/rpc/xmlrpc/server.go:207-216 | int, i4 and i8 are numbers, signs allowed |
| TextSession.TaskToEntry | internal/migrate/aria2session/text/io.go:78-156 | an entry if and only if the task is waiting, paused, active, failed, or complete and seeding, not detached, and has a source that is not blank; the first such source in the listed order; each option the task's own or else the inherited one, but for those that stand for fields and `pause`, which stands for the status |
| TextSession.ExportedExactly | internal/migrate/aria2session/text/io.go:78-156 | exactly those tasks are exported, as such entries |
| TextSession.EntriesConcat | internal/migrate/aria2session/text/io.go:36-53 | the entries of a task list are those of its parts in order |
| TextSession.EntryOfOne | internal/migrate/aria2session/text/io.go:36-53 | one task gives its own entry or none |
| TextSession.WriteEntry | internal/migrate/aria2session/text/io.go:55-76 | writes the entry's block, or refuses exactly a blank URI |
| TextSession.Format | internal/migrate/aria2session/text/io.go:36-53 | never fails, and writes the blocks of the exported tasks in order, separated by empty lines |
| TextParser.ParseReader | internal/migrate/aria2session/text/parser.go:36-101 | the line loop computes the parsing function, errors included |
| TextParser.OptionLineParses | internal/migrate/aria2session/text/parser.go:60-100 | a written option line adds exactly that option to the current entry |
| TextParser.ForeignOption | internal/migrate/aria2session/text/parser.go:54-118 | an option line with a key in any case and space around key and value is recorded under the lower-case key with the trimmed value; `pause` and `paused` pause the task with 1, true, yes or on in any case and with nothing else |
| TextParser.AddAllOverlays | internal/migrate/aria2session/text/parser.go:60-100 | the option lines of an entry give the kept options and the fields they stand for |
| TextParser.RoundTrip | internal/migrate/aria2session/text/parser.go:36-101 | for every task list whose written lines are line-safe, reading the written session gives one entry per exported task, in order, with the trimmed URI, the non-blank options and the fields derived from them |
| TextParser.TaskFieldsSurvive | internal/migrate/aria2session/text/io.go:78-124 | plain group id, directory and name read back |
| TextParser.PausedSurvives | internal/migrate/aria2session/text/io.go:78-124 | reads back paused if and only if paused, unless a `paused` option is there, which then decides |
| Split.EffectiveSegmentCount | internal/protocol/common/split.go:38-62 | the largest count allowed by split, connections and minimum size, and at least one |
| Split.BuildDownloadRanges | internal/protocol/common/split.go:65-73 | contiguous, disjoint, non-empty ranges covering exactly [start, total): by piece length ceil(remaining/pieceLength) of them, else max(1, min(segments, remaining)) equal ones |
| Split.BuildPieceAlignedRanges | internal/protocol/common/split.go:75-93 | tiles of the piece length, only the last shorter |
| Split.SplitEvenRanges | internal/protocol/common/split.go:95-136 | equal tiles, the last with the remainder |
| Split.TilesCover | internal/protocol/common/split.go:65-136 | every position is in a tile if and only if it is in [start, total), and in one only |
| Split.TilesTotal | internal/protocol/common/split.go:65-136 | the sizes add up to the whole |
| Split.MinimumSize | internal/protocol/common/split.go:38-62 | with the allowed count no part is below the minimum unless there is only one |
| Split.SplitDownload | internal/protocol/common/split.go:38-73 | count and split together: a tiling with as many parts as split, connections, size and minimum size allow, no part below the minimum unless alone |
| PieceCheck.VerifyPiece | internal/protocol/bt/resume.go:134-183 | the verdict is the hash of the piece's slice of the concatenated files; a missing or forbidden file is a plain no, any other first trouble an error |
| PieceCheck.TroubleDecides | internal/protocol/bt/resume.go:163-174 | the first file of a piece that cannot be read decides: missing or forbidden makes the piece incomplete, unreadable or too short is an error |
| PieceCheck.CompleteDisk | internal/protocol/bt/resume.go:134-183 | on a complete disk the gathered bytes are exactly [i * pieceLength, min((i+1) * pieceLength, total)) and the length check never fails |
| PieceCheck.RebuildBTProgress | internal/protocol/bt/resume.go:43-115 | a bit is set if and only if its piece is verified, spare bits are zero; counts, completed bytes, completion store and first error agree with the verdicts; without pieces nothing changes |
| PieceCheck.CompletedWithinTotal | internal/protocol/bt/resume.go:86-110 | completed bytes never exceed the total, whatever the piece count and length claim |
| PieceCheck.CompleteExactlyWhenAllVerified | internal/protocol/bt/resume.go:86-110 | in a well-formed torrent completed bytes reach the total if and only if every piece is verified |
| PieceCheck.SetPiece | internal/protocol/bt/resume.go:92 | sets this bit and no other |
| PieceCheck.ApplyCompletedToFiles | internal/protocol/bt/driver.go:914-930 | each file gets the completed bytes beyond the files before it, between zero and its length |
| PieceCheck.FillConserves | internal/protocol/bt/driver.go:914-930 | the files get min(completed, sum of lengths) in all, none over its length, and none before its predecessors are full |
| WorkerLifecycle.TaskState.StartDownload | internal/protocol/httpdl/driver.go:157-183 | a running task is left alone; otherwise a fresh context is stored |
| WorkerLifecycle.TaskState.PauseDownload | internal/protocol/httpdl/driver.go:185-206 | the stored context is cancelled and forgotten |
| WorkerLifecycle.TaskState.RemoveDownload | internal/protocol/httpdl/driver.go:208-233 | the same, for good |
| WorkerLifecycle.TaskState.StopSlow | internal/protocol/httpdl/driver.go:885-913 | cancels what is stored, keeps the marks |
| WorkerLifecycle.TaskState.WorkerExit | internal/protocol/httpdl/driver.go:447-458 | any exiting worker clears running and cancels what is stored |
| WorkerLifecycle.OneLiveWorker | internal/protocol/httpdl/driver.go:157-233 | in every history at most one context is live, it is the stored one, and none is unless running |
| WorkerLifecycle.PauseLasts | internal/protocol/httpdl/driver.go:185-206 | a paused task is marked paused and not running, whatever its workers do, until a Start |
| WorkerLifecycle.StartResumes | internal/protocol/httpdl/driver.go:157-183 | a Start of a stopped task marks it running and not paused, with a new live worker |
| WorkerLifecycle.LiveUntilStopped | internal/protocol/httpdl/driver.go:447-458 | a live worker stays live through a given history if and only if no pause, removal, low-speed stop or worker exit, its own included, is in it |
| WorkerLifecycle.LivesItsOwnLife | internal/protocol/httpdl/driver.go:447-458 | a live worker goes on in every history that neither pauses, removes or slows the task nor ends it itself, if and only if no other worker of the task is running |
| WorkerLifecycle.RestartLastsExactly | internal/protocol/httpdl/driver.go:157-183 | what can be checked before a Start: the worker it spawns lives until it is itself stopped or done if and only if no earlier worker is still running |
| WorkerLifecycle.StaleExitStopsRestart | internal/protocol/httpdl/driver.go:447-458 | the late exit of a stale worker ends the worker of a restart |
| Trackers.TrackerExcludedByPrefixes | internal/protocol/bt/trackers.go:89-96 | true exactly when some non-empty prefix fits |
| Trackers.OnePart | internal/protocol/bt/trackers.go:74-87 | a text without a comma is one trimmed part, or none if blank |
| Trackers.PartsAppend | internal/protocol/bt/trackers.go:74-87 | a comma separates: the parts of two texts joined by one are those of the first and those of the second |
| Trackers.FilterTrackersByExclude | internal/protocol/bt/trackers.go:98-119 | the loops compute the filter |
| Trackers.FilterTierKeeps | internal/protocol/bt/trackers.go:98-119 | a filtered tier is a subsequence of the tier with exactly the kept trackers |
| Trackers.FilterConcat | internal/protocol/bt/trackers.go:98-119 | filtering tier by tier is filtering the whole list |
| Trackers.FilterTiersKeeps | internal/protocol/bt/trackers.go:98-119 | tiers stay apart and in order; only those left empty go |
| Trackers.ApplyBTTrackerOpts | internal/protocol/bt/trackers.go:39-72 | rewrites the torrent's tiers as the rewriting function says, and the flat list with them |
| Trackers.FreshMembers | internal/protocol/bt/trackers.go:39-72 | the extras appended are exactly the new, kept ones, each once |
| Trackers.FreshOrder | internal/protocol/bt/trackers.go:39-72 | in the order of their first occurrence |
| Trackers.NothingExcluded | internal/protocol/bt/trackers.go:39-72 | no surviving or appended tracker starts with an excluded prefix |
| Trackers.RewriteIdempotent | internal/protocol/bt/trackers.go:39-72 | rewriting twice is rewriting once |
| Trackers.FlattenTrackers | internal/protocol/bt/parser.go:270-286 | the loop computes the flattening |
| Trackers.FlattenMembers | internal/protocol/bt/parser.go:270-286 | the flat list has no duplicates and the members of the tiers |

## Left out

- Manager.Serve: does not include Unpause and UnpauseAll, which start tasks without a slot check, nor ChangeOption, which does the same with `pause=false` (internal/core/manager/manager.go:611), nor a lowered limit, nor LoadSession, which puts active tasks in place; `Scheduler.KeepsLimitExactly` says what each does to the limit.
- Manager.Serve: serves requests one after the other; concurrent requests can both find the last free slot, because the check and the start are separate.
- Manager.Driver.TellStatus: its promises are assumptions about the drivers; a driver whose report fails right after a successful start is not covered. The HTTP driver keeps them only while no cancelled worker still reports: a late report of progress after a Pause sets the status active again (internal/protocol/httpdl/driver.go:885-905).
- Manager.Manager.ChangePosition: the drivers leave creation times to the manager, which holds for tasks they added themselves. The HTTP driver reports every task restored from a session with the time it was saved with (internal/protocol/httpdl/driver.go:418), so the saving of the session inside ChangePosition undoes the reordering of such a task at once; `Scheduler.ReorderingUndone` shows it, `Scheduler.StampSurvivesExactly` says when not.
- Manager.Driver.Start: a failed start leaves the task as it was; the ED2K driver, which marks the task started before the transfer can fail to resume (internal/protocol/ed2k/driver.go:178-180), is not covered.
- Manager.Manager.Add: one driver that handles every input; choosing among drivers, merging options and directories, ids invented by the manager and events to subscribers are not part of the model.
- Manager.Manager.StoreTask: names, files, options, metadata, relations between tasks and update times are not part of a task here; an empty group id and a zero creation time are.
- Manager.Manager.SaveSession: whether the store accepts is chosen freely; what is written is modelled by the text session only.
- Manager.Manager.NextWaitingTaskID: any of equally old tasks, as the program's sort is not stable.
- Manager.Manager.Remove: run alone; concurrent calls are the subject of `RemoveProtocol`, where a mutex is a step that waits and fillSlots is not part of the call.
- RateLimit.Wait: nobody else uses the limiter meanwhile; with others its rounds are steps of the shared system, for which the bounds hold but not the number of rounds.
- RateLimit.SetRate: a rate that is not positive is modelled but outside the bounds; no driver sets one.
- Tokens, rates and times are real numbers; rounding of 64-bit floats is not modelled, except where XML-RPC integers become floats.
- BtGate.TorrentState.EnforceRateLimits: peer boosting, completion handling and the measured speeds of a tick are left out, as they do not touch the permissions; so is the integrity check of Start, and session restore.
- BtGate.TorrentState.ChangeOption: the limits arrive as parsed rates; parsing sizes is left out, and so are the other options, among them the return before the limits when `select-file` is malformed.
- XmlRpc.RoundTrip: XML tokenising and escaping and base64 are library code; a token stream stands for the text, and base64 for any pair that inverts each other. Go slices and maps of strings are converted before encoding, a `float32` is written as its truncated integer and is not part of the model, and Go types not named in the encoder are written as text.
- TextParser.RoundTrip: the scanner's limit on line length and reading and renaming files are left out.
- TextParser.PausedSurvives: the option set of a task decides; nothing in the program keeps `paused` out of it.
- Lower and upper case are those of the ASCII letters, and case-insensitive comparison is by lower case; other letters are not folded.
- Split.BuildPieceAlignedRanges: positions are unbounded integers; an overflow of start plus piece length beyond 64 bits is left out.
- PieceCheck.VerifyPiece: what opening a file's path yields is given; joining paths and the piece completion database beyond its entries are left out. File lengths are not negative.
- PieceCheck.RebuildBTProgress: the hexadecimal text of the bitfield and the log lines are left out.
- WorkerLifecycle.OneLiveWorker: the transfers themselves and the status shown to the user are left out; a worker is its context.
- The FTP, SFTP and local-file drivers repeat the lifecycle of the HTTP driver, which stands for them. URI changes, option validation and pagination rearrange single requests and keep no state of their own; DHT, WebSocket, REST and ED2K gateways, authentication and logging are input and output around the model.
