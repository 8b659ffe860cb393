# Verified model of the live block-device backup

The agent copies block devices that are still being written to. It tracks the sectors
that remain to be copied, freezes the file system while it wraps up, and lets one worker
per device agree with the others on the moment when everything is finished. This project
models that protocol in Dafny and proves what a reported success is worth.

## How the pieces fit

- `IntervalMap.dfy`: the interval map and interval set (sorted, disjoint, coalesced
  segments; time 0 is absorbed), their pointwise meaning, and the uniqueness of the
  representation.
- `SectorStore.dfy`, `SectorStoreObject.dfy`: the unsynced-sector store as functions on a
  value, and the object that performs them in place; the trace handler.
- `StoreHistory.dfy`, `StoreDrain.dfy`: what any run of store operations leaves behind,
  and how the round-robin cursor drains a store.
- `Coordinator.dfy`, `CoordinatorObject.dfy`: the 32-bit counter, the workers' protocol
  over it for any number of workers, and the object.
- `CopyLoop.dfy`: the block-copy loop on arrays, and its rounding arithmetic.
- `DeviceSync.dfy`: one device as a state machine: source writes, pending traces, trace
  delivery, the freeze thread, seeding, and the synchronisation loop. Every lock
  acquisition, atomic access, block read and block write is a step of its own.
- `FreezeWindow.dfy`, `NoLostWrite.dfy`, `LoopInvariant.dfy`: what every step of a device
  keeps.
- `BackupRun.dfy`: a whole backup, with any number of devices, the coordinator and the
  thread that launches, waits and reports; runs of it refine runs of the protocol.
- `BackupSuccess.dfy`, `FullBackup.dfy`, `BackupHistory.dfy`: theorems over whole runs.
- `LoopDecisions.dfy`, `FreezeErrors.dfy`, `RunOutcome.dfy`: on what grounds a worker
  decides, what freezes and failures lead to, and what is reported, in every run.
- `RunWitness.dfy`, `SuccessWitness.dfy`, `WrapWitness.dfy`: a full backup that ends in
  success, and a backup of two devices that wraps the counter, built step by step.
- `FailedBackup.dfy`: what any backup leaves behind for the next one, and one that forgets
  a sector.
- `MachineIntegers.dfy`: the integer widths.
- `BackupOutcome.dfy`, `Seeding.dfy`, `InUseScan.dfy`, `BackupManager.dfy`: the outcome,
  the builder, the two file-system scans, and job admission.

## What the model takes as given

- A write's data is visible no later than its trace is delivered: content and pending
  trace change in one step. The tracer asks for queue events, so this is an assumption
  about the kernel, not something the agent enforces.
- A write covers whole sectors, inside the device, and its trace names exactly them. For
  other traces see `TraceCoversIff`.
- A frozen file system does not write: a source write is possible only while the device
  is not frozen. Freeze and thaw may fail, and a failed call may leave the device either
  way.
- The scan reports an arbitrary set of sectors at one moment; system calls may fail at any
  point, and a destination write may fail after any number of its sectors.
- Traces are delivered in any order, one at a time, and never dropped. Nothing is assumed
  about when: undelivered traces appear in every conclusion, because the loop does not
  flush the tracer.
- A full backup starts with nothing tracked and its store still to be cleared. An
  incremental one starts where earlier backups and the tracer left off: every sector it
  answers for already agrees with the destination, or is in the store or in a trace on its
  way. The agent does not check this; backups keep it, except where a worker died while
  copying (`OnlyFailedCopiesForget`).
- One worker per source device. A request that names a device twice is not rejected by
  the agent and is outside the model.
- The clock is above 10, the store's volatile period, as the store itself checks, and
  does not run backwards.
- A wait on a condition variable is a step enabled while its condition holds; only safety
  is claimed, never that a waiter wakes up.

## Findings

- The loop discards the answer of its resume call. A worker that resumes after the count
  reached zero is refused, goes on as if permitted, and wraps the counter when it finishes
  again (`RefusedWorkerWraps`; `WrapIsReachable` is a whole backup in which a late trace
  leads to it). From then on the workers cannot all leave
  without a cancellation (`RefusalPreventsFinish`), so such a backup hangs but is never
  reported as successful: a reported success implies that no worker was ever refused
  (`SuccessMeansFinishedTogether`).
- Re-inserting the sync history is documented to load the synced intervals into the
  unsynced ones. It inserts them at time 0, which is absorbed, so it only forgets them
  (`ReInsertLosesHistory`, `RemovedIsNotReInserted`).
- An interval is taken out of the store before it is copied. When the copy fails, what was
  not yet copied is in neither the store nor a trace, and the history operations that
  could bring it back are never called, and would not: the next incremental backup does
  not know of it (`ForgettingIsReachable`). Nothing but a failed copy does this
  (`OnlyFailedCopiesForget`).
- A trace whose last sector is only partly written leaves that sector unmarked, and one
  whose end does not fit 64 bits marks nothing, unless they were marked before
  (`TraceCoversIff`).
- The bitmap buffer is too small exactly for group sizes above 2^32 - 8, where the
  rounding overflows (`BitmapCoversIff`); for all others the scan is exact (`ExtInUse`).
- With block sizes of whole sectors, an xfs free record of at least one sector whose first
  byte is at or beyond 2^64 subtracts sectors that are not its own; of the records not at
  fault only such a one does (`ExtentIsWholeBlocksIff`).
- A full backup clears the store before it scans. A scan that throws leaves the store
  with nothing but what was traced since, and checks of the devices that fail leave it seeded
  (`CreateDeviceSynchronizer`).
- A fatal error with neither text nor source leaves no mark in the failure text; a backup
  with only such errors is reported as cancelled (`OutcomeMeans`).

## Model

| member | source | states |
|---|---|---|
| IntervalMap.AddAt | unsynced_sector_manager/timed_sector_map.h:10-14 | adding is the pointwise maximum on the interval and nothing elsewhere; time 0 is absorbed |
| IntervalMap.SubtractAt | unsynced_sector_manager/unsynced_sector_store.cc:34-34 | subtracting forgets the interval and nothing else |
| IntervalMap.Insert | unsynced_sector_manager/timed_sector_map.h:10-14 | insertion keeps the segments sorted, disjoint, non-empty and coalesced |
| IntervalMap.Erase | unsynced_sector_manager/unsynced_sector_store.cc:34-34 | erasure keeps the segments sorted, disjoint, non-empty and coalesced |
| IntervalMap.Unique | unsynced_sector_manager/timed_sector_map.h:10-14 | two canonical maps with the same meaning are the same sequence |
| IntervalMap.CountIsSize | unsynced_sector_manager/unsynced_sector_store.cc:93-96 | the summed segment lengths are the number of sectors in the map |
| IntervalMap.AddCount | unsynced_sector_manager/unsynced_sector_store.cc:22-22 | adding grows the count by exactly the sectors that were absent |
| IntervalMap.SubtractCount | unsynced_sector_manager/unsynced_sector_store.cc:34-34 | removing a wholly unsynced interval shrinks the count by its cardinality |
| SectorStoreObject.UnsyncedSectorStore.constructor | unsynced_sector_manager/unsynced_sector_store.cc:8-13 | a new store is empty with its cursor at 0 |
| SectorStoreObject.UnsyncedSectorStore.AddInterval | unsynced_sector_manager/unsynced_sector_store.cc:15-23 | every sector of the interval gets the later of its time and the epoch, no other changes; history and cursor stay |
| SectorStoreObject.UnsyncedSectorStore.AddNonVolatileInterval | unsynced_sector_manager/unsynced_sector_store.cc:25-29 | absent sectors of the interval get time 1, no other changes; history and cursor stay |
| SectorStoreObject.UnsyncedSectorStore.RemoveInterval | unsynced_sector_manager/unsynced_sector_store.cc:31-36 | every sector of the interval is absent and in the history; nothing else changes |
| SectorStoreObject.UnsyncedSectorStore.GetInterval | unsynced_sector_manager/unsynced_sector_store.cc:40-72 | the scan loop hands out the first segment that starts past the cursor, or the very first when none does, and an empty interval only when nothing is unsynced; every sector of it is unsynced with a time that decides the volatile flag; only the cursor moves, to the end of the interval |
| SectorStoreObject.UnsyncedSectorStore.ClearIntervals | unsynced_sector_manager/unsynced_sector_store.cc:74-78 | both containers are emptied, the cursor stays |
| SectorStoreObject.UnsyncedSectorStore.ClearSyncHistory | unsynced_sector_manager/unsynced_sector_store.cc:80-83 | only the history is emptied |
| SectorStoreObject.UnsyncedSectorStore.ReInsertSyncHistory | unsynced_sector_manager/unsynced_sector_store.cc:85-91 | the loop over the history leaves the unsynced map as it was and empties the history |
| SectorStoreObject.UnsyncedSectorStore.UnsyncedSectorCount | unsynced_sector_manager/unsynced_sector_store.cc:93-96 | returns the number of unsynced sectors |
| SectorStoreObject.HandleTrace | tracing/trace_handler.cc:10-27 | write traces of positive length give each sector of their interval the later of its time and the current time, all others change nothing |
| SectorStore.TraceCoversIff | tracing/trace_handler.cc:15-21 | in any store, a trace leaves every sector it touched marked exactly when its last sector is wholly written or was marked before, or, if its end does not fit 64 bits, all were marked before; no other sector changes |
| SectorStore.TraceTimes | tracing/trace_handler.cc:15-21 | a trace of whole sectors leaves each with the later of its old time and the time it was handled, and no other changed |
| StoreHistory.StoredTimeIsLatestWrite | unsynced_sector_manager/unsynced_sector_store.cc:15-36 | after any run of operations a sector's stored time is the largest of its writes since it was last removed, and it is absent when there is none |
| StoreHistory.CountIsLiveSectors | unsynced_sector_manager/unsynced_sector_store.cc:93-96 | after any run the count is the number of sectors with such a write |
| StoreHistory.SameLiveWritesSameSegments | unsynced_sector_manager/timed_sector_map.h:10-14 | histories that agree on those writes leave the same segments |
| StoreHistory.VolatileIsExact | unsynced_sector_manager/unsynced_sector_store.cc:45-71 | a hand-out is wholly unsynced, and volatile exactly when each of its sectors has a live write newer than epoch minus the volatile period |
| StoreHistory.SeededIsNotVolatile | unsynced_sector_manager/unsynced_sector_store.cc:25-28 | a hand-out with a sector that was only ever seeded is not volatile, whatever else was written |
| StoreHistory.HistoryIsConserved | unsynced_sector_manager/unsynced_sector_store.cc:15-36 | unsynced and synced sectors together are exactly those added or removed since the last clear |
| StoreHistory.ReInsertLosesHistory | unsynced_sector_manager/unsynced_sector_store.cc:85-91 | re-insertion only forgets the history; the documented law holds exactly when the synced sectors were unsynced already |
| StoreHistory.RemovedIsNotReInserted | unsynced_sector_manager/unsynced_sector_store.h:47-49 | after any history, a removed sector stays lost when the history is re-inserted |
| StoreDrain.RoundTakesPick | unsynced_sector_manager/unsynced_sector_store.cc:31-72 | a hand-out and removal takes out exactly the picked segment and parks the cursor at its end |
| StoreDrain.DrainIsExact | unsynced_sector_manager/unsynced_sector_store.cc:31-72 | from any store and cursor, n segments drain in exactly n rounds, each handed out once |
| StoreDrain.AtMostTwoWraps | unsynced_sector_manager/unsynced_sector_store.cc:48-68 | draining starts again at the first segment at most twice |
| StoreDrain.TwoWrapsWitness | unsynced_sector_manager/unsynced_sector_store.cc:48-68 | a store for which it does so twice |
| CoordinatorObject.BackupCoordinator.constructor | backup/backup_coordinator.cc:9-14 | the counter starts at the number of workers |
| CoordinatorObject.BackupCoordinator.SignalFinished | backup/backup_coordinator.cc:16-20 | the counter goes down by one, and from zero to 2^32 - 1 |
| CoordinatorObject.BackupCoordinator.SignalMoreWorkToDo | backup/backup_coordinator.cc:22-29 | permitted exactly when uncancelled and above zero; then the counter goes up by one, from 2^32 - 1 to zero, and otherwise stays |
| CoordinatorObject.BackupCoordinator.AddFatalError | backup/backup_coordinator.cc:31-36 | the error is recorded last and the backup is cancelled |
| CoordinatorObject.BackupCoordinator.Cancel | backup/backup_coordinator.cc:43-47 | the cancelled flag is set and nothing else changes |
| CoordinatorObject.BackupCoordinator.WaitUntilFinished | backup/backup_coordinator.cc:54-62 | whatever other threads do between its looks, the wait succeeds at the first look that finds the count zero or the backup cancelled, and times out exactly when none does |
| Coordinator.StepInv | backup/backup_coordinator.cc:16-36 | every step of every worker keeps the counter equal to the workers not done minus the refusals, modulo 2^32, and refusals at most the number of workers while uncancelled |
| Coordinator.CountIsNotDoneIff | backup/backup_coordinator.h:13-16 | uncancelled, the count is exact exactly when nobody was refused; then it never underflows and is zero only when all are done |
| Coordinator.CountIsExactUntilZero | backup/backup_coordinator.h:13-16 | up to and including the first zero of an uncancelled run nobody was refused and the count is exactly the workers not done |
| Coordinator.AllLeftMeansFinishedTogether | backup/backup_coordinator.h:13-16 | if all workers left uncancelled, nobody was ever refused, and from the first zero on all were done at once |
| Coordinator.ZeroIsStable | backup/backup_coordinator.cc:22-29 | with nobody refused, zero and the wait's answer last until a worker that has resumed since signals finished again, and only such workers are not done |
| Coordinator.RefusedWorkerWraps | device_synchronizer/device_synchronizer.cc:121-134 | a refused worker that goes on leaves the counter at 2^32 - 1 with every worker done |
| WrapWitness.WrapIsReachable | device_synchronizer/device_synchronizer.cc:99-134 | a backup of two devices in which a trace delivered after a finish signal leads to a refused resume, and in the end everything is copied, all workers are done and waiting, and the count is 2^32 - 1 |
| Coordinator.RefusalPreventsFinish | device_synchronizer/device_synchronizer.cc:127-134 | after a refusal the workers cannot all leave unless the backup is cancelled |
| CopyLoop.CopyBlock | device_synchronizer/device_synchronizer.cc:24-49 | one block is copied in place exactly when the read is full and the write succeeds; otherwise the part the write let through, nothing if the read failed |
| CopyLoop.CopyInterval | device_synchronizer/device_synchronizer.cc:148-163 | whatever is written to the source between blocks and whichever calls fail or fall short, the loop copies the interval rounded up to whole blocks and nothing else, or stops at the first block that fails with exactly the blocks before it copied; without faults that is when the rounded interval runs past the source |
| CopyLoop.RoundUpBounds | device_synchronizer/device_synchronizer.cc:149-163 | the overshoot is less than one block |
| CopyLoop.AlignedBlocksFit | device_synchronizer/device_synchronizer.cc:148-163 | block-aligned intervals on a source of whole blocks stay inside it |
| LoopInvariant.AlignedReadFits | device_synchronizer/device_synchronizer.cc:30-38 | at any point of the loop such an interval never meets a short read |
| LoopInvariant.StepKeepsLoopInv | device_synchronizer/device_synchronizer.cc:96-134 | the done flag matches the place in the loop, and a zero count that leads to a finish signal implies a positive flush time |
| LoopInvariant.DestinationFrame | device_synchronizer/device_synchronizer.cc:148-163 | a destination sector changes only in a block write inside the rounded interval in hand |
| FreezeWindow.StepKeepsFreezeInv | freeze_helper/freeze_helper.cc:19-76 | every step keeps the frozen flag true of the device, the handshake flags true of the thread, and the task run once per attempt, at most ten |
| FreezeWindow.InsideIsOneWindow | freeze_helper/freeze_helper.cc:31-76 | no step inside a required freeze block opens a window |
| FreezeWindow.StepKeepsExact | device_synchronizer/device_synchronizer.cc:153-158 | while the window lasts a volatile block is buffered and written exactly as the source holds it |
| NoLostWrite.StepKeepsSyncInv | device_synchronizer/device_synchronizer.cc:136-168 | no step of the machine, the tracer, the freeze thread or the worker loses a write or breaks the accounting |
| BackupRun.ProtoStep | backup/backup.cc:18-76 | every step of a backup is a step of the coordinator protocol or leaves it idle |
| BackupRun.RunInv | backup/backup.cc:18-76 | all device, coordinator and reporting invariants hold in every state of every run |
| BackupRun.RunRefinesProtocol | backup/backup.cc:18-76 | seen from the coordinator a run of the backup is a run of the protocol |
| BackupHistory.NoWriteIsLost | device_synchronizer/device_synchronizer.cc:136-163 | in every state a tracked sector agrees, or is in the store, in an undelivered trace, still to be seeded, or in the uncopied part of the interval in flight, which is in the history; for a worker that threw or died the history is all that names that part |
| BackupHistory.BytesAreAccountedFor | device_synchronizer/device_synchronizer.cc:138-168 | at each turn bytes sent plus unsynced sectors equal those at the start plus those newly inserted, and an interval is wholly unsynced when removed |
| BackupHistory.RunWhileFrozenIsOneWindow | freeze_helper/freeze_helper.cc:19-29 | a run of the task that is not tried again was one of one to ten, and lay inside one freeze window with the source unchanged, and a block copied then equals the source |
| BackupHistory.FreezesAlternateWithThaws | freeze_helper/freeze_helper.cc:36-61 | between two freezes of a device a thaw is attempted |
| BackupHistory.FrozenFlagIsTrue | freeze_helper/freeze_helper.cc:44-61 | in every state the flag implies a frozen device, and a thread is spawned only after the last one was joined |
| BackupHistory.DestinationProvenance | device_synchronizer/device_synchronizer.cc:24-49 | a destination sector holds its original content, or an earlier content of the same source sector copied with a rounded interval handed out |
| FreezeErrors.AwaitIsAnswered | freeze_helper/freeze_helper.cc:44-67 | a worker that awaits its freeze has a thread at work on it, or an answer |
| FreezeErrors.TaskStartsFrozen | freeze_helper/freeze_helper.cc:31-72 | a frozen task starts only when the last freeze call of its device returned normally, and after an await only without an error flagged |
| FreezeErrors.RetriesAsPromised | freeze_helper/freeze_helper.cc:19-76 | given up after exactly ten runs; a device still frozen is used as it is; a flagged error is rethrown; and the task is run again exactly when the freeze did not last |
| FreezeErrors.FailureExcludesSuccess | backup/backup.cc:26-38 | a failing call, a freeze error a worker comes to know of, or giving up, excludes success |
| FreezeErrors.WindowIsFreezes | freeze_helper/freeze_helper.cc:44-54 | the window of a state is the number of freezes of its device so far |
| FreezeErrors.StaysThawed | freeze_helper/freeze_helper.cc:53-54 | a thawed device can be written until the next freeze call returns |
| LoopDecisions.WorkIsFound | device_synchronizer/device_synchronizer.cc:121-143 | a worker resumes, and asks for an interval, only with a positive count in hand and a store that is not empty, and the interval it gets is not empty |
| LoopDecisions.DecisionIsByCount | device_synchronizer/device_synchronizer.cc:121-134 | with none left a worker signals, once, and waits; with some left it resumes if it had signalled, and goes on; the flush time never matters |
| LoopDecisions.FreezesForLastMegabyte | device_synchronizer/device_synchronizer.cc:100-116 | a worker freezes to count again exactly when less than a megabyte is unsynced; flush times are more than five seconds apart |
| LoopDecisions.HandoutIsByClock | device_synchronizer/device_synchronizer.cc:136-139 | a hand-out is the next segment in round robin, and volatile exactly when its sectors were written in the last ten seconds |
| LoopDecisions.VolatileBlocksAreFrozen | device_synchronizer/device_synchronizer.cc:149-163 | a block is copied under a freeze exactly when the hand-out was volatile, and the loop ends exactly at the end of the hand-out |
| LoopDecisions.StartsAfresh | device_synchronizer/device_synchronizer.cc:85-97 | a worker starts with nothing sent, no flush time and not done |
| LoopDecisions.TurnsAreChecked | device_synchronizer/device_synchronizer.cc:99-130 | every turn, also after a copy or a wait in vain, begins with a look at the cancellation and is taken only without one |
| LoopDecisions.TalksAsPromised | device_synchronizer/device_synchronizer.cc:121-134 | what each call to the coordinator changes and what the worker makes of the answer; it goes on after a resume call whether or not that was permitted |
| LoopDecisions.TracesAreConserved | tracing/trace_handler.cc:10-27 | traces on their way and delivered are exactly those on their way at the start and queued since |
| BackupSuccess.FinishSignalMeansSynced | device_synchronizer/device_synchronizer.cc:100-126 | every finish signal, also a worker's later ones, is owed to a zero count, read and then accepted by the next step of the worker in one freeze window, with the device synced up to undelivered traces; no other count was looked at and the destination did not change up to the signal |
| BackupSuccess.SuccessMeansFinishedTogether | backup/backup.cc:45-75 | a reported success means no error, no cancellation, no refusal, an exact counter throughout, and all workers done at once from the first zero on |
| BackupSuccess.SuccessMeansSynced | backup/backup.cc:45-75 | a reported success means every worker left after such a read and looked at no count since, and the destination has stayed that of the read up to the report |
| BackupSuccess.SuccessMeansSyncedTogether | backup/backup.cc:45-75 | a reported success has one moment, the first zero count, before which every device was synced at an accepted zero read, from which on all were done, with each destination unchanged from its read to the report |
| FullBackup.FullBackupIsFaithful | backup/backup_builder.cc:46-55 | when a full backup succeeds, every sector in use at the scan, written since the store was cleared or with a trace then on its way is, in the reported destination, as the source held it at one moment inside a freeze window, except where a trace was still on its way |
| FullBackup.AllocatedBlocksAreInImage | block_device/ext_mountable_block_device.cc:40-95 | with the ext scan, a successful full backup holds every sector of every allocated block the scan covers |
| FullBackup.UnfreedSectorsAreInImage | block_device/xfs_mountable_block_device.cc:34-140 | with the xfs scan, it holds every sector that lies in no free extent |
| FailedBackup.OnlyFailedCopiesForget | device_synchronizer/device_synchronizer.cc:143-163 | a worker that is gone leaves every out-of-date sector in the store or in a trace, unless it died copying; then what is missing is the uncopied part of its last interval, which is in the history |
| FailedBackup.ForgettingIsReachable | device_synchronizer/device_synchronizer.cc:143-163 | an incremental backup, properly started, that is reported failed with an out-of-date sector in neither the store nor a trace |
| SuccessWitness.SuccessIsReachable | backup/backup.cc:45-75 | a full backup that ends in success, with a sector scanned, overwritten after the scan, traced and copied |
| BackupOutcome.CollectErrorText | backup/backup.cc:55-67 | the loop computes the text that OneErrorText, NextErrorText and TextIsLines spell out |
| BackupOutcome.ErrorTextEmptyIff | backup/backup.cc:57-67 | the text is empty exactly when every error lacks both text and source |
| BackupOutcome.OneErrorText | backup/backup.cc:62-66 | one error reads as source, " : " and text, or the text alone without a source |
| BackupOutcome.NextErrorText | backup/backup.cc:57-67 | every further error follows what was there, after a newline |
| BackupOutcome.TextIsLines | backup/backup.cc:57-67 | the text is all errors in order, one per line, from the first that is not blank on |
| BackupOutcome.OutcomeMeans | backup/backup.cc:69-75 | which coordinator states each outcome is reported for, both ways, and that a failure carries the text of all errors |
| RunOutcome.CoordOfRun | backup/backup.cc:26-38 | in every run the coordinator holds exactly the errors raised, in order, and is cancelled exactly when it was asked to or a worker failed |
| RunOutcome.ReportIsOfTheRun | backup/backup.cc:55-75 | success is reported exactly when nobody cancelled and no worker failed, failure exactly when some error raised is not blank, with the text of all of them, and cancellation otherwise |
| RunOutcome.StopExcludesSuccess | backup/backup_manager.cc:92-93 | a cancellation or an error before the report excludes success |
| RunOutcome.ReportComesLast | backup/backup.cc:21-53 | the report comes after every worker was launched, after a wait that found them finished or cancelled, and after every worker is gone |
| RunOutcome.CancelledWorkersLeave | device_synchronizer/device_synchronizer.cc:99-99 | at the top of its loop a worker leaves exactly when there was a cancellation or an error before, and copies nothing more |
| Seeding.ScanIsSeeded | backup/backup_builder.cc:46-55 | under any interleaved writes and traces, every sector in use at the scan is in the store when the device is ready |
| Seeding.StoreIsScanAndTraces | backup/backup_builder.cc:46-55 | under any interleaving, the store of a ready device holds exactly the scanned sectors and those traced since the clear, a sector that was only scanned with time 1 |
| Seeding.WritesAreSeeded | backup/backup_builder.cc:46-55 | every write after the clear, and every trace then on its way, is in the store or still on its way |
| Seeding.CreateDeviceSynchronizer | backup/backup_builder.cc:36-61 | which of the seven failing steps stops the builder, when a synchronizer comes out, and what the store then holds: as before up to the clear, only what was traced since when the scan throws, exactly the scanned sectors and those traced since after it; an incremental backup never touches it |
| Seeding.SeedStore | backup/backup_builder.cc:51-54 | adding the scanned intervals one by one to a cleared store, while traces arrive in between, leaves exactly the scanned and the traced sectors, and rebuilds the set segment for segment when nothing arrives |
| InUseScan.BitmapCoversIff | block_device/tools.h:20-20 | the bitmap buffer covers a group exactly when the rounding does not overflow |
| InUseScan.ScanGroup | block_device/ext_mountable_block_device.cc:73-94 | one group adds exactly its allocated blocks below the block count, visiting each once |
| InUseScan.ExtInUse | block_device/ext_mountable_block_device.cc:40-95 | for all 32-bit fields, the nested scan overruns the bitmap exactly for group sizes above 2^32 - 8, and else returns exactly sectors 0 and 1 and those of every allocated block covered, each block visited once in order |
| InUseScan.BlockNumberFits | block_device/ext_mountable_block_device.cc:61-82 | with 32-bit fields no block number overflows 64 bits |
| InUseScan.SectorNumberFits | block_device/ext_mountable_block_device.cc:84-92 | nor does a sector number below the block count |
| InUseScan.XfsInUse | block_device/xfs_mountable_block_device.cc:34-140 | fails exactly at the first line at fault (a record before a header, a number out of range, a signed overflow), else returns exactly the sectors in no free extent |
| InUseScan.HeadersAreLast | block_device/xfs_mountable_block_device.cc:77-94 | a header value in force is that of the last such line, and unknown exactly when there is none |
| InUseScan.HeaderFaults | block_device/xfs_mountable_block_device.cc:88-103 | a record is unexpected exactly when one of the headers has not come yet, and a header out of range from 2^31 on |
| InUseScan.RecordFaults | block_device/xfs_mountable_block_device.cc:105-108 | exactly which numbers put a record out of range, which overflow, and which are fine |
| InUseScan.OutputIsFineIff | block_device/xfs_mountable_block_device.cc:82-119 | the scan of two headers and records succeeds exactly when the headers are below 2^31 and every record's numbers, block number and bytes below 2^63 |
| InUseScan.ExtentIsRoundedDown | block_device/xfs_mountable_block_device.cc:105-110 | for any block size an extent starts in the sector of its first byte and has the whole sectors of its length |
| InUseScan.FreeOrderIsIrrelevant | block_device/xfs_mountable_block_device.cc:82-119 | outputs that free the same sectors give the same segments |
| InUseScan.PermutedRecordsScanAlike | block_device/xfs_mountable_block_device.cc:82-119 | reordering or repeating the records after the headers changes nothing |
| InUseScan.ExtentIsWholeBlocksIff | block_device/xfs_mountable_block_device.cc:105-110 | for block sizes of whole sectors the extent of a record not at fault is exactly the sectors of its blocks if and only if it has none or their first byte is below 2^64, and otherwise contains a sector that is not among them |
| BackupManager.BackupManager.constructor | backup/backup_manager.h:28-34 | no job is in progress |
| BackupManager.BackupManager.AddToInProgressSet | backup/backup_manager.cc:105-134 | a job is admitted exactly when none of its vectors names a device of a job in progress, and then holds exactly the devices its vectors name; otherwise nothing changes |
| BackupManager.BackupManager.Erase | backup/backup_manager.cc:56-73 | the end of a job or a failed build removes that job only |
| BackupManager.BackupManager.StopBackup | backup/backup_manager.cc:81-94 | a known job's coordinator is cancelled and no other changes; an unknown job is reported |
| BackupManager.BackupManager.CancelAll | backup/backup_manager.cc:96-103 | every job's coordinator is cancelled |
| BackupManager.BackupManager.Shutdown | backup/backup_manager.cc:136-138 | every later start is refused and every job cancelled |
| BackupManager.JobsStaySeparate | backup/backup_manager.cc:117-133 | in every interleaving of starts, failures and ends no device is part of two jobs |
| BackupManager.FailedStartLeavesOthers | backup/backup_manager.cc:48-60 | a start admitted and then failed leaves exactly the other jobs that had not ended meanwhile |
| BackupManager.BackupManager.StartBackup | backup/backup_manager.cc:22-79 | when a start is refused, fails or succeeds, what each leaves of the jobs while others are stopped or end meanwhile, and that the new coordinator counts one worker for each synchronizer built and keeps a stop that reaches it before the call returns |
| BackupManager.CreateBackup | backup/backup_builder.cc:10-21 | a backup comes out exactly when every vector gives a synchronizer, one for each, and the builder stops at the first that does not |

## Left out

- NBD client and server, device open and ioctl code, mount-table parsing and UUID lookup: system calls; a device is its sectors, its size and whether it is frozen.
- Freeze as a no-op on unmounted devices and ext2: the model takes a freeze that returned normally to have frozen the device.
- CpuTracer and DeviceTracer internals and dropped traces: only the traces still pending are kept.
- UnsyncedSectorManager: only that a device always has the same store, with a volatile period of ten seconds.
- Request listener, reply channel, status tracker, protocol messages, log sink, signals, lock file, daemon, Python and shell tools: plumbing.
- Progress reports of the synchronisation loop, beyond the byte total they carry.
- Regular expressions, the child process of the xfs scan, and the ext2fs library: parsed records and bitmaps are inputs.
- Wake-up of condition variables, timeouts and termination of the waiting loops: liveness is not claimed.
- Fairness of the cursor while sectors are being re-added: a segment touching the cursor can be skipped again and again, so only the drain without adds is bounded.
- Torn blocks: a block read is one step, and so is a block write, unless it fails part-way.
- The freeze helper's destructor, which only waits for its thread: the thread's remaining steps stay possible after the worker is gone.
- InUseScan.XfsInUse: an overflow of signed arithmetic, undefined in the source, ends the scan with a fault of its own; the exit status of the tool, which the source only logs, is not modelled.
- BackupManager.BackupManager.StartBackup: the job id is taken to be fresh; all interleavings of the jobs' critical sections are in JobsStaySeparate and FailedStartLeavesOthers.
- CopyLoop.CopyInterval: the retry of a volatile block whose freeze did not last is not in this loop, because it is a matter of several threads: it is in RunWhileFrozenIsOneWindow and StepKeepsExact.
- FreezeHelper, DeviceSynchronizer::DoSync and Backup::DoBackup run as several threads and are state machines here instead of methods.
