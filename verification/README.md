# A model of the scan daemon and its proofs

The daemon accepts scan requests, walks directory trees with a pool of workers, streams what they find
through a result queue, and keeps an index of the filesystem with a history and a diff per scan. This project
models its concurrent core and proves what it promises in every interleaving before shutdown.

| part | modules |
|---|---|
| paths and trees | `Paths`, `FileTree`, `Messages`, `Options`, `Counting` |
| scan engine: `Manager`, `MultiScanner`, the LIFO job queue | `ScanEngine`, `EngineMass`, `EngineInvariant`, `EngineTheorems`, `CancelFlags`, `CancelEffect`, `EngineRows`, `OneWorker`, `Traversal` |
| scheduler | `SchedulerModel`, `SchedulerProofs`, `SchedulerTheorems`, `Scheduler` |
| exporter and index | `Tables`, `Serial`, `Snapshot`, `DiffTheorem`, `StreamDiff`, `Exporter` |
| bounded queue and thread pool | `JobQueue`, `WaitQueue`, `PoolQueue` |
| the whole daemon | `Daemon`, `DaemonInvariant`, `DaemonTheorems`, `DaemonOrder`, `DaemonLiveness`, `DaemonRefusal`, `DaemonCancel`, `DaemonWitness` |
| sequential helpers | `Grouping`, `Query` |

Every critical section, atomic operation and queue operation is one step of a transition system; a run is any
sequence of enabled steps, and the theorems speak of all runs. Where the source is an object with fields, the
same critical sections are also written as methods of a class and proved equal to the steps (`Scheduler`,
`ExportManager`, `BoundedQueue`, `Scanner`). The parts are then joined in `Daemon`, where the callbacks between
them are joint steps; what one part assumes of another is proved there (`DaemonTheorems.NoPartBlocked`).

The strongest statements are about the joined system. When an uncanceled sentinel has been applied, the index
below its root is exactly the directory tree that was walked (`IndexIsTree`), whatever other scans, cancels and
retries were interleaved, and stays so until an overlapping scan speaks (`IndexStaysTree`); a scan shown as DONE is such
a scan (`DoneIsIndexed`); and what its diff says is known exactly in every run (`ExactDiffInEveryRun`), which is right
whenever ids are in order (`DiffInEveryRun`).

## Findings

Things the code does that its comments or documentation do not suggest; each is proved.

- The shared condition variable of the result queue loses wake-ups as soon as there are more producers than
  slots, and is safe exactly otherwise (`WaitQueue.SafeIffRoomForAll`, `WaitQueue.DeadlockReachable`).
- `running_scans` can be -1 (`SchedulerTheorems.CounterCanBeNegative`). It is the number of active scans minus one exactly
  while the dispatcher holds an accepted scan that is still active or was canceled, and negative exactly when, besides,
  no scan is active (`SchedulerTheorems.ConcurrencyCeiling`, `SchedulerTheorems.NegativeIff`); it never hides a scan above
  the limit.
- A cancel can return true and leave the scan CANCELED while the exporter still receives an uncanceled sentinel and
  applies the deletions (`DaemonWitness.CanceledButExportedAsComplete`); the sentinel is marked canceled iff the flag
  was set when the finishing thread read it (`CancelFlags.CancelTakesEffectIff`). A flag set while the scan has jobs left
  is always in time (`DaemonCancel.EarlyCancelIsExported`, `DaemonWitness.CanceledInTime`).
- The root of an ended scan can be released iff the manager has accepted the scan or is being asked to
  (`SchedulerTheorems.ReleasableIff`). The roots of DROPPED scans stay locked for ever, and so do those of scans canceled
  while the manager answers Full (`SchedulerTheorems.CanceledOnFullStaysLocked`). All others are released: a daemon at
  rest holds exactly the roots of submissions never accepted (`DaemonTheorems.RestReleasesAccepted`).
- FAILED is unreachable before shutdown, as long as `start_new_scan` does not throw (`DaemonTheorems.NeverFails`).
- `get_query_value` returns the value of the first key that ends with the requested one, so `scan_id=5&id=7`
  answers `5` for `id` (`Query.ShadowedKey`); the round trip holds iff no earlier key ends with the requested one
  (`Query.RoundTripIffNoEarlierSuffix`).
- An error is missing from the diff iff the path was in the index with the same time and size
  (`StreamDiff.ErrorReportedIff`), as for a directory that became unreadable (`StreamDiff.UnreadableDirectoryUnreported`).
- Ids are drawn before the lock is taken, so an overlapping scan can carry a smaller id than the one before it. Its diff
  may then be wrong: a changed path reported as new, a deleted file with old size 0 (`StreamDiff.LateIdMislabels`). In
  every run, whatever the ids, the diff of a path is right iff the row the query for the previous state finds fits the
  state the path was in: present or not, for a new or changed path, and of the same size
  (`DaemonOrder.ExactDiffInEveryRun`). It finds the latest real row, which always fits, iff ids are in order at that path
  (`StreamDiff.PreviousIsLatestIff`, `StreamDiff.LatestFits`).
- The slots reserved for roots do not suffice once two workers pass the check together: given as many slots as concurrent
  scans, a root can be refused iff there are at least two workers and two scans at a time
  (`DaemonRefusal.RootNeverRefusedIff`).
- After a refusal the dispatcher may never dispatch again, with scans PENDING: exactly when nobody is about to call
  `notify_dispatch_available`, and the flag is down or no worker has a job left (`DaemonLiveness.DispatcherResumesIff`).
  This can happen iff a root can be refused (`DaemonRefusal.NeverStuckIff`, `DaemonRefusal.DispatcherSticks`).
- A sentinel can be popped before its task row is inserted (`DaemonWitness.ScanCompletes`), and the exporter stops for good
  exactly at the first sentinel whose row is missing (`Exporter.ExportManager.WriteResultToDb`).
- A root submitted to a stopped pool still sends a sentinel, uncanceled if no cancel was seen, with no event before it
  (`Traversal.Scanner.RunScan`); applied, such a sentinel empties the index below its root
  (`Snapshot.EmptyScanEmptiesIndex`).

## Model

| member | source | states |
|---|---|---|
| Paths.OverlapIffSubtreesMeet | src/utils/formater.cpp:110-115 | for all strings, two roots overlap iff some path lies in both subtrees |
| FileTree.ScanOneNode | src/scan_system/multi_scanner.cpp:49-143 | the event's type iff the kind of node, its time, 512 bytes a block, its error for a missing or unreadable node only; the children of a readable directory |
| FileTree.ReadEntries | src/scan_system/multi_scanner.cpp:125-139 | the readdir loop: its children are entries of the directory, by increasing position |
| FileTree.ChildrenInOrder | src/scan_system/multi_scanner.cpp:125-139 | exactly the entries but "." and ".." become children, in the directory's order |
| FileTree.WalkReportsNodes | src/scan_system/multi_scanner.cpp:49-143 | an event is in the walk iff names lead from the root to a node at its path that it describes: type, time, size and error |
| FileTree.PreorderPathsDistinct | src/scan_system/multi_scanner.cpp:125-139 | in a tree with distinct slash-free names every node has its own path, below the root |
| FileTree.OccursCountsPreorder | src/scan_system/multi_scanner.cpp:19-46 | the count used by the engine's balances is the multiplicity in the recursive walk |
| EngineInvariant.DoKeepsInv | src/scan_system/manager.cpp:49-238 | every step of every thread keeps one balance equation per token: units, nodes to report, notifies, sentinels, registry, slots, fuel |
| EngineInvariant.EraseFinds | src/scan_system/manager.cpp:197-214 | the thread that saw the zero crossing always finds its scan registered |
| EngineTheorems.SentinelSound | src/scan_system/multi_scanner.cpp:19-46 | before an uncanceled sentinel there is exactly one event for every node of the tree |
| EngineTheorems.NothingAfterSentinel | src/scan_system/manager.cpp:172-227 | no event and no second sentinel of a scan follows its sentinel, canceled or not |
| EngineTheorems.NeverReportedTwice | src/scan_system/multi_scanner.cpp:19-46 | even a canceled scan reports no node twice and nothing outside its tree |
| EngineTheorems.CounterExact | src/scan_system/manager.cpp:146-175 | `unfinished_jobs` is queued jobs plus open calls plus submissions in progress, on the inline, cancel and Full paths too |
| EngineTheorems.FiresExactlyOnce | src/scan_system/manager.cpp:172-227 | notify and sentinel fire at most once, only after zero, and exactly once when nothing of the scan is left |
| EngineTheorems.Progress | src/scan_system/multi_scanner.cpp:19-46 | while a scan has unfinished jobs some worker can step |
| EngineTheorems.RestMeansFinished | src/scan_system/manager.cpp:172-227 | when no worker can step, every accepted scan is at zero, reported once, closed by one sentinel and unregistered; unless canceled its whole tree was sent |
| EngineTheorems.TraversalBounded | src/scan_system/multi_scanner.cpp:27-46 | over a whole run a scan costs at most a number of steps computed from its tree |
| EngineTheorems.RootSlotsReserved | src/scan_system/manager.cpp:155-162 | queued non-root jobs plus workers between check and push never exceed Q - M + T |
| EngineTheorems.QueueWithinSlots | src/concurrency/job_queue.h:67-90 | in every run the shared job queue holds at most its capacity |
| OneWorker.PreorderWithOneWorker | src/scan_system/multi_scanner.cpp:27-40 | with one worker, whatever scans share the LIFO queue, a scan none of whose children ran inline is reported in exact recursive preorder |
| CancelFlags.CanceledSentinel | src/scan_system/manager.cpp:186-218 | a sentinel is marked canceled only if the context's flag was set |
| CancelFlags.CancelTakesEffectIff | src/scan_system/manager.cpp:186-218 | in every run the sentinel is marked canceled iff the flag was set at the moment the finishing thread read it |
| EngineRows.RowForEverySentinel | src/scan_system/manager.cpp:195-226 | in every run a sentinel has its task row or a worker is about to insert it, no other scan has one, and the row says CANCELED if the sentinel does, and only if the flag is set |
| Traversal.Scanner.TaskOnJobSubmit | src/scan_system/manager.cpp:146-169 | when a submission is queued, answered Full or answered Shutdown, for roots and children, and the rollback after Shutdown |
| Traversal.Scanner.WorkerJob | src/scan_system/multi_scanner.cpp:19-46 | for every moment of a cancel or stop: reported plus queued work is conserved iff nothing cut it; each node reported took a load of the flag that read false, and a call after the cancel does nothing; without Full only the own node is reported and the children's walk is stacked in order |
| Traversal.Scanner.RunScan | src/concurrency/thread_pool.h:23-29 | one sentinel, marked canceled only if a load read true, and a permutation of the recursive walk iff no cancel or stop cut it; without Full, and whenever the slots cover the tree, exactly the preorder; on a stopped pool a sentinel without events |
| SchedulerProofs.DoKeeps | src/daemon_system/scheduler.cpp:11-300 | every critical section keeps the scheduler's invariant |
| SchedulerTheorems.ConcurrencyCeiling | src/daemon_system/scheduler.cpp:57-165 | accepted and unfinished scans never exceed the limit; the counter is their number minus one iff it lags, which is said exactly |
| SchedulerTheorems.NegativeIff | src/daemon_system/scheduler.cpp:258-277 | the counter is negative iff it lags and nothing is active |
| SchedulerTheorems.CounterCanBeNegative | src/daemon_system/scheduler.cpp:258-277 | a concrete run drives `running_scans` to -1 |
| SchedulerTheorems.PendingAccounting | src/daemon_system/scheduler.cpp:22-45 | `pending_scans` counts the queue entries not DROPPED, within 0..QUEUE_MAX_SIZE; only the front is mid-dispatch |
| SchedulerTheorems.AcceptedInOrder | src/daemon_system/scheduler.cpp:76-160 | the manager accepts scans in submission order, whatever retries and drops occur |
| SchedulerTheorems.FinalForever | src/daemon_system/scheduler.cpp:118-208 | DONE, DROPPED, FAILED and CANCELED are absorbing |
| SchedulerTheorems.CancelsExact | src/daemon_system/scheduler.cpp:168-208 | at most one cancel per id returns true, and exactly for the scans CANCELED or DROPPED |
| SchedulerTheorems.CanceledNeverDone | src/daemon_system/scheduler.cpp:168-208 | after a cancel that returned true the scan is never DONE and no later cancel returns true |
| SchedulerTheorems.OverlapLock | src/daemon_system/scheduler.cpp:294-300 | the locked roots are exactly those of submissions not yet exported, pairwise apart |
| SchedulerTheorems.UnacceptedRootStaysLocked | src/daemon_system/scheduler.cpp:126-136 | after any further run a submission overlapping a scan that ended unaccepted is refused |
| SchedulerTheorems.ReleasableIff | src/daemon_system/scheduler.cpp:294-300 | an ended scan's root can be released iff the manager accepted the scan or is being asked to |
| SchedulerTheorems.CanceledOnFullStaysLocked | src/daemon_system/scheduler.cpp:126-136 | a concrete run: canceled while the manager answers Full, root locked for ever |
| SchedulerTheorems.SubmitAnswers | src/daemon_system/scheduler.cpp:11-51 | in every reachable state each answer iff its condition: no root, as many scans waiting as fit, a root that shares a path with a submission not yet exported, an id known already |
| SchedulerTheorems.TakesIff | src/daemon_system/scheduler.cpp:62-71 | in every run the dispatcher can take an entry iff it waits, the manager is not known to be full, fewer scans than the limit are active and a queued scan is not DROPPED |
| Scheduler.Scheduler.CheckNonOverlapPath | src/daemon_system/scheduler.cpp:366-374 | true iff the path overlaps no locked root |
| Scheduler.Scheduler.SubmitScanRoot | src/daemon_system/scheduler.cpp:11-51 | Invalid, QueueFull, OverlapConflict and InternalError each iff its condition on the waiting scans, the roots not yet exported and the known ids; the whole new state, invariant kept |
| Scheduler.Scheduler.TakeFront | src/daemon_system/scheduler.cpp:62-95 | the front is dispatched iff PENDING and dropped otherwise; the whole new state, invariant kept |
| Scheduler.Scheduler.Complete | src/daemon_system/scheduler.cpp:118-160 | RUNNING, PENDING with the manager marked full, or FAILED by the manager's answer; a cancel in between is passed on iff the manager accepted; the whole new state, invariant kept |
| Scheduler.Scheduler.Cancel | src/daemon_system/scheduler.cpp:168-208 | true iff PENDING, DISPATCHING or RUNNING; DROPPED or CANCELED accordingly, and the manager is called iff the scan was not PENDING |
| Scheduler.Scheduler.NotifyScanFinished | src/daemon_system/scheduler.cpp:257-280 | the counter drops iff RUNNING or CANCELED, the scan is DONE iff RUNNING or DISPATCHING; an unknown id changes nothing |
| Scheduler.Scheduler.NotifyDispatchAvailable | src/daemon_system/scheduler.cpp:283-291 | only the full flag is cleared, invariant kept |
| Scheduler.Scheduler.NotifyExportDone | src/daemon_system/scheduler.cpp:294-300 | any root is erased if held; for the exported scan's own root the invariant is kept |
| Scheduler.Scheduler.GetState | src/daemon_system/scheduler.cpp:322-344 | unknown ids show FAILED, DISPATCHING shows PENDING |
| Tables.IndexAgreesWithHistory | src/export_system/db_wrapper/index_writer.cpp:105-210 | after any messages a path is in `index_current` iff its latest non-Canceled history row is not Deleted, with the same time and size |
| Tables.EventRecorded | src/export_system/db_wrapper/index_writer.cpp:105-169 | what one event writes, field by field: its row in `index_current`, and a history row iff the path was not indexed with the same time and size; nothing else |
| Serial.Serialisable | src/export_system/export_manager.cpp:112-161 | an interleaved stream of scans apart leaves the tables of whole scans applied one after another |
| Serial.SerialInSentinelOrder | src/export_system/export_manager.cpp:133-139 | those scans come in the order of their sentinels |
| Serial.FinishedIsOneBlock | src/export_system/export_manager.cpp:133-139 | each finished scan is one contiguous block |
| Serial.SerialKeepsScans | src/export_system/export_manager.cpp:133-155 | the serial order keeps every scan's own messages in order |
| Snapshot.SnapshotUnderRoot | src/export_system/db_wrapper/index_writer.cpp:173-210 | after an uncanceled sentinel `index_current` strictly under the root is exactly the scan's events |
| Snapshot.OutsideUntouched | src/export_system/db_wrapper/index_writer.cpp:105-210 | outside its root's subtree the tables are as if the scan had never run |
| Snapshot.CanceledRemovesNothing | src/export_system/db_wrapper/index_writer.cpp:192-202 | after a canceled scan, whatever was interleaved, paths it did not see are as if it had never run and paths it saw hold its rows |
| Snapshot.EmptyScanEmptiesIndex | src/export_system/db_wrapper/index_writer.cpp:195-202 | an uncanceled sentinel without events removes everything below its root |
| Snapshot.SentinelAppends | src/export_system/db_wrapper/index_writer.cpp:173-210 | a sentinel, canceled or not, appends one history row to exactly the indexed paths under its root that its scan did not see, with the type, time and size they were indexed with |
| Snapshot.HistoryKeysUnique | src/export_system/db_wrapper/index_writer.cpp:154-169 | no (path, scan) key of the history is inserted twice |
| Snapshot.StoredCounts | src/export_system/db_wrapper/scan_table.cpp:194-229 | stored counts and total size are those of the scan's events |
| DiffTheorem.DiffExact | src/export_system/db_wrapper/index_reader.cpp:102-142 | for a scan as one block, whatever the ids: a row iff the fingerprint changed, labelled by the row the query finds |
| DiffTheorem.RightIff | src/export_system/db_wrapper/index_reader.cpp:117-134 | that label and old size are right iff the row found fits the state before |
| DiffTheorem.DiffCorrect | src/export_system/db_wrapper/index_reader.cpp:102-142 | ids in order: New, Changed, Deleted, Error exactly by `index_current` before and after, no row for unchanged fingerprints, previous size |
| DiffTheorem.CanceledExact | src/export_system/db_wrapper/index_reader.cpp:102-142 | the diff of a canceled scan as one block, whatever the ids: seen paths as for a finished scan, unseen indexed paths under the root Canceled, no other row |
| DiffTheorem.RowsBalance | src/export_system/db_wrapper/index_reader.cpp:102-142 | error-free, whatever the ids: rows and labels balance up to the paths the query mistakes |
| DiffTheorem.RowsConserved | src/export_system/db_wrapper/index_reader.cpp:102-142 | error-free, ids in order: rows after = rows before + New - Deleted in the subtree |
| StreamDiff.HistoryIncreasing | src/export_system/db_wrapper/index_reader.cpp:8-30 | every path's history stays in scan order, so `ORDER BY last_scan_id` finds the previous state |
| StreamDiff.DiffInStream | src/export_system/db_wrapper/index_reader.cpp:102-142 | the exact diff in the interleaved stream, whatever the ids, right iff the row found fits; none outside the subtree |
| StreamDiff.DiffOfStream | src/export_system/db_wrapper/index_reader.cpp:102-142 | ids in order: the right labels in the interleaved stream, and none outside the subtree |
| StreamDiff.OldSizeOfStream | src/export_system/db_wrapper/index_reader.cpp:111-134 | ids in order: the old size is that of the path's latest real row, a Deleted one included |
| StreamDiff.CanceledDiffInStream | src/export_system/db_wrapper/index_reader.cpp:102-142 | the diff of a canceled scan in the interleaved stream, whatever the ids |
| StreamDiff.CanceledDiffInOrder | src/export_system/db_wrapper/index_reader.cpp:121-121 | ids in order: an indexed path a canceled scan did not reach is Canceled with its indexed size, any other unreached path has no row |
| StreamDiff.RowsBalanceInStream | src/export_system/db_wrapper/index_reader.cpp:102-142 | the same balance in the interleaved stream, whatever the ids |
| StreamDiff.RowsConservedInStream | src/export_system/db_wrapper/index_reader.cpp:102-142 | the same conservation in the interleaved stream, ids in order |
| StreamDiff.ErrorReportedIff | src/export_system/db_wrapper/index_writer.cpp:143-154 | a path recorded with an error is an error in the index, and in the diff iff it was not indexed with the same time and size |
| StreamDiff.UnreadableDirectoryUnreported | src/export_system/db_wrapper/index_writer.cpp:143-154 | the concrete directory whose error the diff misses |
| StreamDiff.PreviousIsLatestIff | src/export_system/db_wrapper/index_reader.cpp:13-24 | the subquery finds the latest real row iff ids are in order at the path |
| StreamDiff.LatestFits | src/export_system/db_wrapper/index_reader.cpp:13-24 | where ids are in order the row found fits |
| StreamDiff.LateIdMislabels | src/daemon_system/scheduler.cpp:20-23 | a concrete stream from empty tables: a late id turns a change into New and loses a deleted file's size |
| Exporter.ExportManager.UpsertEvent | src/export_system/db_wrapper/index_writer.cpp:105-169 | both tables after one event are those `Tables.EventRecorded` describes |
| Exporter.ExportManager.MarkDeletedRows | src/export_system/db_wrapper/index_writer.cpp:173-210 | both tables after the deletions of a finished or canceled scan, committed; `Snapshot.SentinelAppends` says what the rows hold |
| Exporter.ExportManager.FindScanDiff | src/export_system/db_wrapper/index_reader.cpp:102-142 | the diff table after the row loop, rows in any order |
| Exporter.ExportManager.UpsertCount | src/export_system/db_wrapper/scan_table.cpp:194-229 | the stored aggregate |
| Exporter.ExportManager.FinalizeScan | src/export_system/export_manager.cpp:164-200 | the order task row, deletions, diff, counts; the failure on a missing row |
| Exporter.ExportManager.WriteResultToDb | src/export_system/export_manager.cpp:112-161 | for every batch size, 0 included, and every moment of row insertion: no nested transaction, everything committed at the end, tables as if applied one by one, metrics exact, stop exactly at the first sentinel without a row |
| Exporter.DiffLoop | src/export_system/db_wrapper/index_reader.cpp:109-137 | the loop leaves one row per touched path, whatever the row order |
| Exporter.Classify | src/export_system/db_wrapper/index_reader.cpp:111-134 | each label iff its condition on the scan's row and the previous one; the old size is the previous row's, 0 without one |
| JobQueue.PopOrder | src/concurrency/job_queue.h:123-137 | LIFO returns the newest item, FIFO the oldest, the rest keeps its order |
| JobQueue.BoundedQueue.TryPushItem | src/concurrency/job_queue.h:67-90 | Shutdown iff stopped, Full iff running and at capacity; the new contents and metrics |
| JobQueue.BoundedQueue.PushItem | src/concurrency/job_queue.h:93-110 | a pusher waits iff the queue runs and is at capacity; the contents otherwise, a stopped queue dropping the item |
| JobQueue.BoundedQueue.PopItem | src/concurrency/job_queue.h:113-145 | the oldest or newest item by policy, wait iff empty and running, drained iff empty and stopped |
| WaitQueue.FirstInFirstOut | src/concurrency/job_queue.h:93-145 | what comes out is what went in, in order, within capacity |
| WaitQueue.NoLostWakeUp | src/concurrency/job_queue.h:93-145 | with capacity for all producers the consumer never sleeps un-notified while a producer sleeps, nor on waiting items without a notify under way |
| WaitQueue.DeadlockReachable | src/concurrency/job_queue.h:93-145 | with fewer slots than producers a run without spurious wake-ups puts everybody to sleep |
| WaitQueue.SafeIffRoomForAll | src/concurrency/job_queue.h:93-145 | the wake-up is safe iff producers <= capacity |
| PoolQueue.QueueBoundedAndExact | src/concurrency/job_queue.h:67-145 | size within capacity, queued metric exact, every item in exactly one place |
| PoolQueue.CountersExact | src/concurrency/job_queue.h:67-90 | in every run the submitted and failed metrics count exactly the submissions accepted and refused |
| PoolQueue.OneNotifyEach | src/concurrency/job_queue.h:67-145 | every item pushed and every item handed out is followed by exactly one `notify_one`, made or under way |
| PoolQueue.SleepersOwedWakeUps | src/concurrency/job_queue.h:67-154 | while a worker sleeps, items are covered by woken workers and notifies under way; once stopped a notify_all is under way |
| PoolQueue.ExitMeansDrained | src/concurrency/thread_pool.h:23-29 | when a worker has exited, every item ever pushed was handed out exactly once |
| PoolQueue.DrainBounded | src/concurrency/thread_pool.h:65-75 | after shutdown the pool takes boundedly many more steps |
| PoolQueue.DrainNeverStuck | src/concurrency/thread_pool.h:65-75 | until all workers have exited some step is enabled |
| PoolQueue.ShutdownDrains | src/concurrency/thread_pool.h:65-75 | when no step is left all workers have exited and every pushed item was handed out once |
| DaemonTheorems.NoPartBlocked | src/scan_system/manager.cpp:49-238 | the scheduler, engine and exporter always meet each other's guards; the id is never registered already |
| DaemonTheorems.NeverFails | src/daemon_system/scheduler.cpp:147-158 | no scan becomes FAILED |
| DaemonTheorems.CanceledFlagIsCanceledState | src/scan_system/manager.cpp:257-268 | a set context flag means the scheduler state is CANCELED |
| DaemonCancel.CancelArrives | src/daemon_system/scheduler.cpp:168-208 | in every run a CANCELED scan registered in the manager carries the flag, unless its cancel is still on its way in the cancelling thread or the dispatcher |
| DaemonCancel.CancelCallSetsFlag | src/scan_system/manager.cpp:257-268 | the call sets the flag of every accepted scan with jobs left |
| DaemonCancel.EarlyCancelIsExported | src/scan_system/manager.cpp:186-218 | once the flag is set while the scan has jobs left, its sentinel is marked canceled in every continuation |
| DaemonCancel.LateCancelIgnored | src/scan_system/manager.cpp:257-268 | once an accepted scan has left the registry no later cancel changes its flag |
| DaemonCancel.CancelStopsWalk | src/scan_system/multi_scanner.cpp:20-46 | once the flag is set, in every continuation only calls already past the test at their start report another node, and only calls past the test in their loop queue another job |
| DaemonWitness.CanceledInTime | src/scan_system/multi_scanner.cpp:20-46 | a concrete run: canceled before the root is scanned, no event, sentinel canceled |
| DaemonWitness.CanceledButExportedAsComplete | src/scan_system/manager.cpp:175-218 | a concrete run: cancel returned true, state CANCELED, sentinel uncanceled |
| DaemonWitness.ScanCompletes | src/scan_system/manager.cpp:172-227 | a concrete run from submission to DONE and an uncanceled sentinel |
| DaemonTheorems.DoneMeansComplete | src/daemon_system/scheduler.cpp:257-280 | a scan shown DONE has every node of its tree in the result queue exactly once |
| DaemonTheorems.ResultQueueIsStream | src/daemon_system/scheduler.cpp:29-38 | overlapping scans never share the result queue; paths of one scan are distinct and below its root |
| DaemonTheorems.TablesAreSerial | src/export_system/export_manager.cpp:112-161 | at every moment the tables are those of whole scans in sentinel order |
| DaemonTheorems.IndexIsTree | src/export_system/export_manager.cpp:164-200 | after an uncanceled sentinel a path under the root is indexed iff names lead to a node there, with that node's type, time, size and error |
| DaemonTheorems.IndexStaysTree | src/export_system/export_manager.cpp:164-200 | and it still is, at every later moment before an overlapping scan sends a message |
| DaemonTheorems.DoneIsIndexed | src/export_system/export_manager.cpp:164-200 | the same for every scan shown DONE once its sentinel is applied |
| DaemonTheorems.CanceledKeepsIndex | src/export_system/db_wrapper/index_writer.cpp:192-202 | in every run a canceled scan removes nothing |
| DaemonTheorems.CountsInEveryRun | src/export_system/db_wrapper/scan_table.cpp:194-229 | in every run the stored counts are those of the scan's events |
| DaemonTheorems.RestReleasesAccepted | src/daemon_system/scheduler.cpp:294-300 | a daemon at rest has exported exactly the accepted scans and holds exactly the other submissions' roots |
| DaemonTheorems.RootNeverRefused | src/scan_system/manager.cpp:155-162 | with one worker or one scan at a time, and Q >= M, a root submission never gets Full |
| DaemonRefusal.RefusalReachable | src/scan_system/manager.cpp:155-162 | for all T >= 2 and Q >= M >= 2, a run in which a root gets Full |
| DaemonRefusal.RootNeverRefusedIff | src/scan_system/manager.cpp:155-162 | for Q >= M, roots never get Full iff T <= 1 or M = 1 |
| DaemonLiveness.DispatcherResumesIff | src/scan_system/manager.cpp:234-235 | in every run a dispatcher told "full" can dispatch again iff a notify is on its way, or the flag is up and a worker has a job left; otherwise it never takes another scan |
| DaemonRefusal.DispatcherSticks | src/daemon_system/scheduler.cpp:148-151 | for all T >= 2 and Q >= M >= 2, a run that leaves the dispatcher waiting for ever with a scan PENDING |
| DaemonRefusal.NeverStuckIff | src/daemon_system/scheduler.cpp:63-71 | for Q >= M, a refused dispatcher can always resume iff T <= 1 or M = 1 |
| DaemonOrder.OverlapsInSubmissionOrder | src/daemon_system/scheduler.cpp:22-45 | messages of overlapping scans come in submission order |
| DaemonOrder.ExactDiffInEveryRun | src/export_system/db_wrapper/index_reader.cpp:102-142 | the diff of every completed scan of every run, whatever the ids, and exactly when it is right |
| DaemonOrder.CanceledDiffInEveryRun | src/export_system/db_wrapper/index_reader.cpp:102-142 | the diff of every canceled scan of every run, whatever the ids |
| DaemonOrder.HistoryInEveryRun | src/export_system/db_wrapper/index_writer.cpp:173-210 | the history rows any sentinel of any run appends, field by field |
| DaemonOrder.RowsBalanceInEveryRun | src/export_system/db_wrapper/index_reader.cpp:102-142 | rows and labels balance in every run, whatever the ids |
| DaemonOrder.ErrorsInEveryRun | src/export_system/db_wrapper/index_writer.cpp:143-154 | in every run an error is in the index, and in the diff iff the path was not indexed with the same time and size |
| DaemonOrder.DiffInEveryRun | src/export_system/db_wrapper/index_reader.cpp:102-142 | the ordered case: diff labels are right for every completed scan of every run in which overlapping ids are in order |
| DaemonOrder.RowsConservedInEveryRun | src/export_system/db_wrapper/index_reader.cpp:102-142 | and rows are conserved, for error-free scans |
| Grouping.GetCommonParent | src/export_system/db_wrapper/index_reader.cpp:252-285 | for all strings: the deepest common ancestor-or-self without its trailing slash, or empty where no path is an ancestor of both |
| Grouping.SndLayerUnique | src/export_system/db_wrapper/index_reader.cpp:244-250 | the second layer is the one direct child of the root that is an ancestor-or-self |
| Grouping.GroupByFolderInSndLayer | src/export_system/db_wrapper/index_reader.cpp:165-186 | each row adds to its second-layer folder, direct non-directories aside; the totals sum to the grouped rows |
| Query.Decode | src/daemon_system/httpserver.cpp:957-976 | the decoding loop computes the recursive decoding, for any text |
| Query.CharToNumIsDigit | src/daemon_system/httpserver.cpp:981-990 | -1 iff not one of 0-9, a-f, A-F, else the digit's value |
| Query.DecodedByPosition | src/daemon_system/httpserver.cpp:957-976 | for any text, by position: '%' and two hex digits become their byte, '+' a space, every other character stays, a lone '%' included |
| Query.PlainTextKept | src/daemon_system/httpserver.cpp:957-976 | text without escapes and '+' is left alone |
| Query.PercentKept | src/daemon_system/httpserver.cpp:964-964 | the concrete path "/data/50%off" |
| Query.DecodeEncoded | src/daemon_system/httpserver.cpp:957-990 | decoding undoes every percent-encoding of section 2.1 of RFC 3986 |
| Query.EncodeEncodes | src/daemon_system/httpserver.cpp:955-976 | every byte string has such an encoding: the usual producer's |
| Query.GetQueryValue | src/daemon_system/httpserver.cpp:938-979 | the value found, or missing for an absent key and for an empty value |
| Query.LooksUpBySuffix | src/daemon_system/httpserver.cpp:942-953 | for every well-formed query: the value of the first field whose key ends with the requested one |
| Query.QueryRoundTrip | src/daemon_system/httpserver.cpp:938-979 | each original value comes back when no earlier key ends with its key |
| Query.RoundTripIffNoEarlierSuffix | src/daemon_system/httpserver.cpp:942-945 | for all values, it does so iff no earlier key ends with it |
| Query.ShadowedKey | src/daemon_system/httpserver.cpp:942-945 | the concrete query on which it fails |

## Left out

- Shutdown of the scheduler and `Manager::wait_to_finish`: runs of the joined system end before `Scheduler::shutdown`; a stop of the pool is modelled in `PoolQueue` and, for one worker, in `Traversal`.
- Exceptions inside a worker, and an exception thrown by `start_new_scan`, which `Scheduler::run` (src/daemon_system/scheduler.cpp:105) turns into FAILED.
- The gap between pushing a sentinel and inserting its task row: the joined system applies a sentinel as if its row were there; `Exporter` models the failure when it is not.
- The end state, start and finish time stored in a task row, error messages and file extensions: stored text that nothing modelled reads.
- SQLite itself, failed or retried writes, and GLOB metacharacters in roots: tables are maps, writes succeed, `root/*` is a prefix match.
- 64-bit wrap-around of sizes, counters and ids: integers are unbounded.
- `lstat`, `readdir`, `realpath`: the filesystem is a static finite tree and roots arrive normalised; changes during a scan are not modelled.
- Sockets, routing, JSON, configuration, metrics endpoints, loggers, search, extension grouping and history pages: text assembly, foreign calls or single SQL statements.
- EngineTheorems.Progress: the step may be on another scan, since the queue is shared, and waiting for room in the result queue is not counted, because the engine model leaves that queue unbounded; `WaitQueue` treats that wait on its own, and `EngineTheorems.RestMeansFinished` says that all scans finish.
- DaemonOrder.DiffInEveryRun: is the case of ids in order; `DaemonOrder.ExactDiffInEveryRun` covers all others.
- DaemonOrder.RowsConservedInEveryRun: is the case of ids in order; `DaemonOrder.RowsBalanceInEveryRun` covers all others.
- DaemonTheorems.NeverFails: does not cover an exception thrown by `start_new_scan`.
- Scheduler.Scheduler.SubmitScanRoot: has no Shutdown answer, because runs end before shutdown.
- Scheduler.Scheduler.NotifyScanFinished: promises the invariant only for unknown ids and first reports of accepted scans; `DaemonTheorems.NoPartBlocked` shows that the manager makes no other call.
- Scheduler.Scheduler.NotifyExportDone: takes the scan id as a ghost argument, because the source passes only the root.
- Traversal.Scanner.WorkerJob: runs one scan on one worker; several scans are those of `ScanEngine` and `OneWorker`.
- Traversal.Scanner.RunScan: has one scan alone in the queue; `OneWorker.PreorderWithOneWorker` has any number.
