# Replication and the binary log, modelled and proved

This project models the part of a MySQL 8.0 server that writes the binary log, keeps it crash
safe, stamps its transactions for parallel apply, and applies them in parallel on a replica. It
has one module per component; the modules build on each other in this order.

* **Stamping on the source.** `LogicalClocks` is the lock-free clock, `WritesetHistory` the
  bounded map from row hashes to their newest writer, `TrxTracking` the three dependency
  trackers. `Transactions` says what a transaction changes. `TrackerRuns` is the state machine of
  all interleavings of statement prepare, flush, engine commit and rotation.
* **Parallel apply.** `AssignedQueue` is the ring of assigned groups, `SchedulerState` the
  scheduler's state and moves as values, `SchedulerCalls` what a scheduling call comes to, and
  `MtsScheduler` the coordinator in logical-clock mode with its cached low-water mark, its waits and
  its barrier; its class keeps a trace of the moves that led to its state. `ReplicaRuns` has the runs of the
  scheduling rule on a log with rows, `CoordinatorRuns` those of the coordinator's own moves and
  its workers. Each says exactly which transactions can be in flight together. `LogScheduling`
  takes the coordinator's class through a whole log, `SerialReplay` compares with serial replay,
  and `ParallelApply` puts source and replica together.
* **Binary log.** `BinlogRecovery` is the scan of the last file after a crash. `GroupCommit` is
  the state machine of the flush, sync and commit stages, of the prepared-transaction counter and
  of rotation; `CrashSafety` adds crash and recovery, which bring engine and log together exactly
  for sync_binlog=1; `StageProgress` has what the stages get done in the end, and `OrderedCommit` the
  leaders' code. `IndexFile` is the index file,
  `EventWriter` the stream that completes events, `TrxCache` the transaction cache, `DumpStart`
  the choice of the file to send from, `AccessedDbs` the sorted list of databases and the search
  that relies on it.
* **ALTER TABLE.** `AlterColumns` rebuilds the column list.

Objects that the server updates in place are classes whose methods are proved against functions on
their value; what the server promises is proved of those functions, over all runs.

## What holds of the environment

* Locks: two transactions that change a common row hold their locks one after the other, from
  before the commit clock is read until after publication; not so if the earlier one is an admin
  statement, which releases its lock early (`TrackerRuns.LockDiscipline`).
* A writeset has the hashes of all changed rows unless its session uses another algorithm, foreign
  keys reach into other tables, it has reached its limit, or nothing was extracted
  (`Transactions.Covered`).
* When the applier is told to stop, a worker fails or stops, or a checkpoint fails, is given from
  outside (`SchedulerCalls.Surroundings`).
* A change of the log file makes the coordinator start a new group
  (mysql/源码分析/复制/log_event.cc:5780-5786), so the first transaction of a file starts alone.
* An operation on a row has its effect on that row only. Each worker applies the operations of
  its transaction in order.
* Where the model lets two transactions run side by side, the replica has two free workers for them
  (mysql/源码分析/复制/rpl_mts_submode.cc:1049-1057) and no commit-order manager
  (mysql/源码分析/复制/rpl_mts_submode.cc:1026-1027), that is, slave_preserve_commit_order is off. The
  "only if" halves of `SerialReplay.SerialExactly` and `ParallelApply.ParallelEqualsSerialExactly`
  rest on it; the "if" halves do not.
* A crash keeps a prefix of the engine's log that is no shorter than what was synced, the same of
  every log file, and either value of a header flag that had not been synced. It cuts a log file
  between two events. A write or sync that fails aborts the server, which is a crash. Creating,
  deleting and renaming files takes effect at once.
* Of the index files a crash leaves what had reached its place and a part of the rest; where a file
  was written over, that may be anything as long as what stood there. When the server dies, what the
  operating system holds stays there, and a later power failure may still take it.
* Log files are numbered upwards with at least six digits, so their names do not get shorter, and
  a start opens a new log before anything is purged.
* Every transaction that enters group commit writes at least one event.

## Where the code does not do what it is meant to do

* In WRITESET_SESSION mode the replica may run a transaction beside an admin statement logged
  before it in the same file: if commit order gives the transaction no parent because of a
  rotation, the last transaction of its session, from before the admin statement, is put in its
  place. `ParallelApply.AdminOverlapExactly` says exactly when, `ParallelApply.LostAdminOverlaps`
  has the runs of source and replica, `ParallelApply.ParallelEqualsSerialExactly` says when the rows
  depend on it, and `ParallelApply.LostAdminChangesRows` has a run after which they do.
* In `schedule_next_event` the test of `first_event` in the decision for a new group can never be
  true, and the correction of the mark for a gap successor is never reached.
* A purge replaces the index without syncing the new one first (`IndexFile.PurgeUnderPowerFailure`).
  If the server dies then, the index is lost in a power failure before the restart has synced it
  (`IndexFile.RestartUnderPowerFailure`).
* The temporary index is opened without emptying it. What a crash leaves of it is written over by
  the log that the next start opens, provided that its name is not shorter
  (`IndexFile.CreateAfterCrash`, `IndexFile.IndexSurvives`).
* A register of files to delete that a crash has cut off may name another file of the directory,
  which the restart then deletes: `IndexFile.CreateKeepsFiles` and `IndexFile.PurgeKeepsFiles` say
  exactly when, and `IndexFile.ForeignFileLost` has such a file.
* An event that is a bare header gets no checksum although its length counts one
  (`EventWriter.StreamIsAppended`).
* The copying loop turns for ever exactly if the rest of a buffer is a multiple of 4 GiB at some
  point where a header is awaited (`EventWriter.BinlogEventWriter.Write`), as with a buffer of 4 GiB
  between two events (`EventWriter.WholeWordIsStuck`).
* A savepoint's position is taken after the SAVEPOINT statement, so a rollback keeps that
  statement; the comment above `binlog_savepoint_set` says that it is chopped off.
* The first GTID that goes with the file chosen for a dump is that of a later file if the chosen
  one has none (`DumpStart.FindFirstLogNotInGtidSet`).

## Model

| member | source | states |
|---|---|---|
| LogicalClocks.LogicalClock.SetIfGreater | mysql/源码分析/提交/rpl_trx_tracking.cc:82-112 | under any interference that only raises the clock the loop ends, the clock takes the maximum of its value and the new one in one instant, the caller gets that value, and values at or below the offset are ignored |
| LogicalClocks.LogicalClock.CompareExchange | mysql/源码分析/提交/rpl_trx_tracking.cc:97-104 | one exchange: it succeeds only on the expected value and otherwise reports what it saw |
| LogicalClocks.LogicalClock.Step | mysql/源码分析/提交/rpl_trx_tracking.cc:64-66 | the counter moves up by one and its new value is returned |
| LogicalClocks.LogicalClock.UpdateOffset | mysql/源码分析/提交/rpl_trx_tracking.h:70-74 | the offset only rises |
| WritesetHistory.WritesetTracker.GetDependency | mysql/源码分析/提交/rpl_trx_tracking.cc:213-311 | the loop over the row hashes gives the same history and parent as looking every hash up and then recording it, whatever hashes repeat, and the map stays within its limit |
| WritesetHistory.NewestWriterIsNewest | mysql/源码分析/提交/rpl_trx_tracking.cc:271-290 | the newest writer of a hash in the log is a logged transaction with that hash, and no later one has it |
| WritesetHistory.TrackedAgrees | mysql/源码分析/提交/rpl_trx_tracking.cc:233-311 | after a call the history still agrees with a scan of the log: each hash of each earlier transaction is held with its newest writer, or the start of the history covers it |
| WritesetHistory.ParentIsScan | mysql/源码分析/提交/rpl_trx_tracking.cc:266-303 | the parent found in the bounded history, against the newest conflicting transaction a scan of the whole log would find |
| WritesetHistory.ParentCoversConflicts | mysql/源码分析/提交/rpl_trx_tracking.cc:213-311 | against an earlier transaction that may conflict the parent is never lower than commit order allows; it reaches it exactly if the commit-order parent does, and is missing exactly if that is |
| WritesetHistory.WritesetTracker.EnterWriteset | mysql/源码分析/提交/rpl_trx_tracking.cc:270-290 | the loop over the hashes finds the newest conflict of the history before it, and a full history takes no new rows |
| WritesetHistory.RecordedSize | mysql/源码分析/提交/rpl_trx_tracking.cc:262-290 | recording a writeset adds at most its number of distinct hashes |
| WritesetHistory.HistoryIsKept | mysql/源码分析/提交/rpl_trx_tracking.cc:257-310 | a transaction that can use its writeset and fits adds its rows and takes none away; any other empties the history, which then starts with it |
| WritesetHistory.TrackedExactly | mysql/源码分析/提交/rpl_trx_tracking.cc:257-310 | over a whole file the history holds exactly the rows since the last transaction that did not fit or could not use its writeset, and starts there |
| WritesetHistory.LastForgetting | mysql/源码分析/提交/rpl_trx_tracking.cc:305-310 | where the history starts is the last transaction that made it forget, or the rotation |
| TrxTracking.CommitOrderTracker.GetDependency | mysql/源码分析/提交/rpl_trx_tracking.cc:145-179 | sequence number and parent relative to the file, and which transaction later ones are blocked by |
| TrxTracking.CommitOrderTracker.UpdateMaxCommitted | mysql/源码分析/提交/rpl_trx_tracking.cc:192-196 | the commit clock becomes the maximum of itself and the published number |
| TrxTracking.CommitOrderTracker.Rotate | mysql/源码分析/提交/rpl_trx_tracking.cc:185-190 | both clocks count from the last number of the old file |
| TrxTracking.DependencyTracker.GetDependency | mysql/源码分析/提交/rpl_trx_tracking.cc:345-370 | the stamp and the new trackers for each of the three modes |
| TrxTracking.DependencyTracker.FlushStamp | mysql/源码分析/提交/binlog.cc:2066-2078 | stepping the counter and stamping at flush, with the parent stored at prepare |
| TrxTracking.DependencyTracker.StoreCommitParent | mysql/源码分析/提交/binlog.cc:2222-2231 | the commit parent is the commit clock at the time of the call |
| TrxTracking.DependencyTracker.UpdateMaxCommitted | mysql/源码分析/提交/rpl_trx_tracking.cc:392-403 | publishing a transaction raises the commit clock and forgets its number |
| TrxTracking.DependencyTracker.Rotate | mysql/源码分析/提交/rpl_trx_tracking.cc:407-415 | a rotation moves the offsets and restarts the writeset history |
| TrxTracking.ParentBelowSequence | mysql/源码分析/提交/rpl_trx_tracking.cc:145-370 | in every mode the parent is at least 0 and below the sequence number |
| TrackerRuns.StampsAreSound | mysql/源码分析/提交/rpl_trx_tracking.cc:145-370 | on every interleaving of prepare, flush, publication, rotation and resizing, in every file: numbers follow each other, parents lie below them, and for every pair: one published before the other took its snapshot is within its commit-order parent, and within its logged parent if the trackers have to order the two (commit-order mode, a common hash, or one that cannot use its writeset); such a pair waits exactly if commit order or session keeps the later one behind; in session mode two transactions of one session keep their order |
| TrackerRuns.NextKeeps | mysql/源码分析/提交/rpl_trx_tracking.cc:145-415 | every step keeps the invariant of clocks, sessions, history and file |
| TrackerRuns.StampsAreExact | mysql/源码分析/提交/rpl_trx_tracking.cc:145-370 | on every run and in every file each stamp is what the log determines: the commit-order parent is the last transaction published before the clock was read, or the last unsafe one, and missing if none of the file was published by then; in the writeset modes it is lowered to the newest transaction with a common row, as far as the history reaches back; in session mode it is raised to the last of the session |
| TrackerRuns.OrderReaches | mysql/源码分析/提交/rpl_trx_tracking.cc:155-176 | commit order reaches a transaction exactly if it or a later one of the file was published before the clock was read, or is unsafe |
| TrackerRuns.ParentIsNewestWriter | mysql/源码分析/提交/rpl_trx_tracking.cc:262-303 | in a file whose transactions all use their writesets and fit, the parent is the newest writer of a common row, the start of the history if there is none, or the commit-order parent if that is lower |
| TrackerRuns.OtherRowsDoNotWait | mysql/源码分析/提交/rpl_trx_tracking.cc:213-311 | transactions that change different rows of tables with keys wait for the first one of the file only |
| TrackerRuns.NextKeepsExact | mysql/源码分析/提交/rpl_trx_tracking.cc:145-415 | every step keeps the clocks those of known transactions, the history exactly what the log leaves it, and all stamps exact |
| TrackerRuns.AdminStatementsBlock | mysql/源码分析/提交/rpl_trx_tracking.cc:145-176 | the stamps make a transaction wait for an earlier admin statement of its file exactly unless, in session mode, a missing commit-order parent was replaced by a transaction of the session from before the statement |
| TrackerRuns.LostAdminStatement | mysql/源码分析/提交/rpl_trx_tracking.cc:329-339 | a legal run in session mode whose stamps do not make a transaction wait for the admin statement before it |
| Transactions.ConflictIsSeen | mysql/源码分析/提交/rpl_trx_tracking.cc:213-232 | if writesets cover the changed rows, two transactions that change a common row may conflict by their writesets |
| AssignedQueue.Queue.EnQueue | mysql/源码分析/复制/rpl_mts_submode.cc:648-665 | a group is put behind the others, in the next slot of the ring |
| AssignedQueue.Queue.FindLwm | mysql/源码分析/复制/rpl_mts_submode.cc:501-521 | the search from any slot inside the done prefix finds the last group of that prefix, or reports none |
| AssignedQueue.Queue.MoveQueueHead | mysql/源码分析/复制/rpl_mts_submode.cc:488-498 | exactly the done prefix leaves the queue and the stable mark is the number of its last group |
| AssignedQueue.MarkIsSafe | mysql/源码分析/复制/rpl_mts_submode.cc:438-479 | every queued group numbered up to the cached mark is done |
| AssignedQueue.ScanAfterCompletion | mysql/源码分析/复制/rpl_mts_submode.cc:438-479 | a completion never lowers the mark a full scan finds |
| AssignedQueue.ScanAfterRemoval | mysql/源码分析/复制/rpl_mts_submode.cc:488-498 | removing the done prefix leaves the scanned mark as it was |
| MtsScheduler.LogicalClockSubmode.GetLwmTimestamp | mysql/源码分析/复制/rpl_mts_submode.cc:480-526 | the cached mark returned equals that of a full scan, the remembered index is that of its group, and the mark never falls |
| MtsScheduler.LogicalClockSubmode.SearchStart | mysql/源码分析/复制/rpl_mts_submode.cc:486-505 | the remembered index is resumed from only while it still points at the group it was stored for |
| MtsScheduler.LogicalClockSubmode.WaitForLastCommittedTrx | mysql/源码分析/复制/rpl_mts_submode.cc:562-622 | the wait ends with the mark at the wanted parent, unless the applier was stopped or a worker failed; and it goes on only while the mark is below |
| SchedulerState.SomebodyToWaitFor | mysql/源码分析/复制/rpl_mts_submode.cc:586-603 | whenever the coordinator has to wait some earlier group is unfinished |
| MtsScheduler.LogicalClockSubmode.WaitForWorkersToFinish | mysql/源码分析/复制/rpl_mts_submode.cc:1069-1105 | the barrier ends; it fails exactly if the applier was stopped, a worker failed or stopped, or a checkpoint failed; otherwise every earlier group is done and only the current one is queued |
| MtsScheduler.LogicalClockSubmode.ScheduleNextEvent | mysql/源码分析/复制/rpl_mts_submode.cc:637-859 | good timestamps are scheduled unless something around the coordinator prevents it, and exactly what; every group scheduled before with a number up to the parent is done then, and all of them if a new batch starts; when a new batch starts, when timestamps are refused, that a group waits no longer than for its parent, and that no job is lost |
| MtsScheduler.LogicalClockSubmode.Classify | mysql/源码分析/复制/rpl_mts_submode.cc:655-761 | which timestamps are refused and which groups need the barrier |
| SchedulerState.BadTimestampsAre | mysql/源码分析/复制/rpl_mts_submode.cc:675-699 | timestamps are good exactly if a parent that is given lies below the group and a number that is given lies above the last |
| SchedulerCalls.CallEnds | mysql/源码分析/复制/rpl_mts_submode.cc:637-859 | a call with good timestamps that does not schedule the group has been stopped by something that happened around the coordinator |
| MtsScheduler.LogicalClockSubmode.JoinBatch | mysql/源码分析/复制/rpl_mts_submode.cc:768-807 | a group in sequence starts at once if the mark has reached its parent or nothing is in front, otherwise as soon as it has, unless the applier is stopped or a worker fails meanwhile |
| MtsScheduler.LogicalClockSubmode.StartBatch | mysql/源码分析/复制/rpl_mts_submode.cc:808-851 | a new batch starts alone, with one job delegated and none done, unless the barrier fails |
| MtsScheduler.LogicalClockSubmode.EnQueueGroup | mysql/源码分析/复制/rpl_mts_submode.cc:648-665 | a group enters the queue before its timestamps are known, in the slot the coordinator remembers |
| SchedulerState.MovedInv | mysql/源码分析/复制/rpl_mts_submode.cc:480-526 | every move of the scheduler keeps its invariant |
| MtsScheduler.LogicalClockSubmode.Checkpoint | mysql/源码分析/复制/rpl_mts_submode.cc:1078-1082 | the checkpoint keeps history and scanned mark and counts what it removes |
| MtsScheduler.LogicalClockSubmode.WorkerDone | mysql/源码分析/复制/rpl_mts_submode.cc:571-585 | a completion at any moment keeps the scheduler consistent and never lowers the mark |
| MtsScheduler.LogicalClockSubmode.StartNewGroup | mysql/源码分析/复制/rpl_mts_submode.h:175-178 | the next group is forced to start a new batch |
| SchedulerState.MarkAllowsStart | mysql/源码分析/复制/rpl_mts_submode.cc:769-785 | a mark at the parent allows the group to start |
| SchedulerState.CollectedInv | mysql/源码分析/复制/rpl_mts_submode.cc:488-498 | the checkpoint keeps the invariant, the history and the scanned mark |
| SchedulerState.BarrierProgress | mysql/源码分析/复制/rpl_mts_submode.cc:1078-1090 | each round of the barrier finishes or removes a group and loses none |
| ReplicaRuns.OverlapExactly | mysql/源码分析/复制/rpl_mts_submode.cc:779-805 | the scheduling rule lets two transactions be in flight together if and only if nothing from the first to the second waits for the first |
| ReplicaRuns.ParallelIsSerial | mysql/源码分析/复制/rpl_mts_submode.cc:637-859 | on every run of the rule that finishes, the rows are those of serial replay if conflicting transactions are held back by each other |
| ReplicaRuns.OneMoreOperation | mysql/源码分析/复制/rpl_mts_submode.cc:637-859 | an operation of one transaction may run before or after the parts of later transactions that have already run |
| CoordinatorRuns.RanIsReached | mysql/源码分析/复制/rpl_mts_submode.cc:637-859 | every run of the coordinator's moves with the workers' row changes is a run of the rule, and keeps the coordinator consistent |
| CoordinatorRuns.TraceRuns | mysql/源码分析/复制/rpl_mts_submode.cc:637-859 | whatever moves the coordinator's class makes on a log, the workers can do what it has seen: its state is that of such a run |
| CoordinatorRuns.OverlapExactly | mysql/源码分析/复制/rpl_mts_submode.cc:480-526 | the coordinator has two transactions in flight together if and only if nothing up to the second waits for the first, the first did not start its batch, before whose end there is no mark, and the queue holds all from the one to the other |
| LogScheduling.ScheduleTransaction | mysql/源码分析/复制/log_event.cc:2747-2790 | the next transaction of a log is queued and scheduled after any completions and checkpoints, in a new batch if a file begins; timestamps that a source writes are never refused, and only something that happens around the coordinator prevents it |
| LogScheduling.ScheduleLog | mysql/源码分析/复制/log_event.cc:2692-2790 | the coordinator's class, given a log transaction by transaction, follows the log, to its end unless something happens around it; whenever it stops, its state is that of a run of coordinator and workers on the log |
| LogScheduling.FollowsWhileWaiting | mysql/源码分析/复制/rpl_mts_submode.cc:562-622 | nothing is scheduled while the coordinator waits |
| SerialReplay.SerialExactly | mysql/源码分析/复制/rpl_mts_submode.cc:637-859 | on every run that finishes, whatever the data, the rows are those of serial replay if and only if the coordinator can not have conflicting transactions in flight together; "only if" with two free workers and no commit-order manager |
| ParallelApply.NeverInFlightTogether | mysql/源码分析/复制/rpl_mts_submode.cc:637-859 | on the log of any run of the source and any run of a replica: once the later one has started the earlier one has finished, for transactions of different files; with a common row, the earlier one not being an admin statement; for an admin statement not lost to the session; for two of one session in session mode; and for one published before the other read the commit clock, in commit-order mode or if they have a common hash or one cannot use its writeset |
| ParallelApply.OverlapByRule | mysql/源码分析/提交/rpl_trx_tracking.cc:145-370 | a transaction that cannot use its writeset, and in commit-order mode any, may be in flight with a later one under the scheduling rule exactly if they are in one file and neither commit order nor session keeps anything up to the later one behind it |
| ParallelApply.OverlapByCoordinator | mysql/源码分析/复制/rpl_mts_submode.cc:637-859 | the same for runs of the coordinator, with the exact further conditions |
| ParallelApply.AdminOverlapExactly | mysql/源码分析/提交/rpl_trx_tracking.cc:329-339 | a replica may have an admin statement in flight with a later transaction exactly in session mode, within a file, if everything up to the later one has lost it to its session; on runs of the coordinator also only if it did not start a batch and the queue is long enough |
| ParallelApply.LostAdminOverlaps | mysql/源码分析/提交/rpl_trx_tracking.cc:329-339 | runs of a source and a replica with an ANALYZE TABLE and the transaction behind it both unfinished |
| ParallelApply.ParallelEqualsSerial | mysql/源码分析/复制/rpl_mts_submode.cc:637-859 | in commit-order and writeset mode every run of the replica that finishes has the rows of applying the transactions one by one |
| ParallelApply.ParallelEqualsSerialExactly | mysql/源码分析/复制/rpl_mts_submode.cc:637-859 | in every mode so it is, whatever the data, if and only if no admin statement can be in flight with a later transaction that changes a common row; "only if" with two free workers and no commit-order manager |
| ParallelApply.LostAdminChangesRows | mysql/源码分析/提交/rpl_trx_tracking.cc:329-339 | a run of a source after which the replica may finish with other rows than serial replay |
| ParallelApply.ScheduledApart | mysql/源码分析/复制/rpl_mts_submode.cc:637-859 | whatever part of a source's log the coordinator's class has scheduled: for two such transactions, the earlier one has finished if the later one has started |
| ParallelApply.BinaryLogIsStamped | mysql/源码分析/复制/log_event.cc:5780-5786 | the log a replica reads is that of the files one after the other, numbered in sequence, each opening with a transaction that starts alone |
| BinlogRecovery.BinlogFile.BinlogRecover | mysql/源码分析/提交/binlog.cc:9034-9147 | the event loop finds the valid position that the scan of the events defines, and exactly the transactions of the XID events and of the atomic DDL statements |
| BinlogRecovery.BinlogFile.Open | mysql/源码分析/提交/binlog.cc:7760-7823 | a log left in use is cut to its valid part and closed, any other is left alone |
| BinlogRecovery.CutLog | mysql/源码分析/提交/binlog.cc:9050-9134 | for any log of whole groups cut after any event: the valid position is the end of the longest prefix of whole groups and the transactions are exactly those whose XID event or atomic DDL statement ends one of these groups |
| BinlogRecovery.RecoverAgain | mysql/源码分析/提交/binlog.cc:7795-7814 | recovering the truncated log again changes nothing and finds the same transactions |
| BinlogRecovery.WholeGroups | mysql/源码分析/提交/binlog.cc:9050-9134 | the scan of whole groups ends at their end and finds exactly the transactions that an XID event or an atomic DDL statement at the end of a group names |
| BinlogRecovery.FoundExactly | mysql/源码分析/提交/binlog.cc:9062-9098 | whatever the events are, a transaction is found exactly if an XID event or an atomic DDL statement names it |
| BinlogRecovery.WholeCountIsLongest | mysql/源码分析/提交/binlog.cc:9088-9122 | which prefix of whole groups is the longest inside a cut |
| GroupCommit.ConservedKeeps | mysql/源码分析/提交/binlog.cc:8469-8490 | every step keeps it: commits made and transactions in flight together are the log, in log order if commits are ordered |
| GroupCommit.CountedKeeps | mysql/源码分析/提交/binlog.cc:6347-6368 | every step keeps it: the counter of prepared transactions counts those logged and not yet finished |
| CrashSafety.CommitOrderIsLogOrder | mysql/源码分析/提交/binlog.cc:8763-8928 | on every interleaving of leaders, followers and rotations the engine commits in the order of the log if commits are ordered; no transaction is lost or committed twice in any case |
| CrashSafety.EndPosIsSafe | mysql/源码分析/提交/binlog.cc:9271-9288 | the end position shown to readers is never past what was written, and with sync_binlog=1 never past what is on disk |
| CrashSafety.DrainedIsSettled | mysql/源码分析/提交/binlog.cc:6432-6454 | when the counter is zero the engine has committed everything in the current file |
| CrashSafety.NextKeeps | mysql/源码分析/提交/binlog.cc:8266-8999 | every step keeps what crash safety rests on |
| CrashSafety.EngineAgreesWithLog | mysql/源码分析/提交/binlog.cc:8724-8999 | with sync_binlog=1, after a crash at any step of any run, also inside a rotation, recovery leaves the engine with exactly the transactions that are complete in the surviving files, although only the last is scanned |
| CrashSafety.NoCommitIsLost | mysql/源码分析/提交/binlog.cc:8363-8429 | with sync_binlog=1 no transaction the engine had committed is lost by a crash |
| CrashSafety.LogIsNeverAhead | mysql/源码分析/提交/binlog.cc:8268-8296 | with any setting, what is complete in the surviving log is committed after recovery |
| CrashSafety.SafeIffEveryGroupSynced | mysql/源码分析/提交/binlog.cc:8500-8523 | engine and log agree after every crash of every run if and only if sync_binlog is 1 |
| StageProgress.SyncedEveryPeriod | mysql/源码分析/提交/binlog.cc:8503-8525 | on every run the n-th pass of the sync stage syncs the open file exactly if n makes up whole periods of sync_binlog |
| StageProgress.EndPosCatchesUp | mysql/源码分析/提交/binlog.cc:8812-8884 | when no leader holds the log lock, and with sync_binlog=1 none is on its way through the sync stage, readers may see all that has been written |
| StageProgress.NextShows | mysql/源码分析/提交/binlog.cc:9281-9288 | every step keeps it: readers may see all but what is on its way |
| OrderedCommit.BinLog.FetchAndProcessFlushStageQueue | mysql/源码分析/提交/binlog.cc:8266-8304 | the whole queue is taken and the engine log is on disk before any of it is logged |
| OrderedCommit.BinLog.ProcessFlushStageQueue | mysql/源码分析/提交/binlog.cc:8306-8345 | the file gets the queued transactions in queue order |
| OrderedCommit.BinLog.FlushStage | mysql/源码分析/提交/binlog.cc:8763-8836 | the flush stage is a run of the model and leaves its batch written |
| OrderedCommit.BinLog.SyncBinlogFile | mysql/源码分析/提交/binlog.cc:8503-8525 | the file is synced every sync_binlog-th time and never if that is 0 |
| OrderedCommit.BinLog.UpdateBinlogEndPos | mysql/源码分析/提交/binlog.cc:9281-9288 | the end position moves forward only, and only for the active file |
| OrderedCommit.BinLog.SyncStage | mysql/源码分析/提交/binlog.cc:8848-8884 | the sync stage is a run of the model that hands its queue on in order |
| OrderedCommit.BinLog.CommitStage | mysql/源码分析/提交/binlog.cc:8363-8429 | the queue is committed in its order, and only then counted out |
| OrderedCommit.BinLog.FlushThreadCaches | mysql/源码分析/提交/binlog.cc:8212-8229 | one transaction is appended and counted if the engine has it prepared |
| OrderedCommit.LeadersStayLegal | mysql/源码分析/提交/binlog.cc:8469-8490 | what the leaders do continues any run of the model |
| IndexFile.CreateIsAtomic | mysql/源码分析/提交/binlog.cc:4788-5016 | from any start, also with a temporary index left over: after any crash at any step of opening a new log, a restart finds the old list or the new one, every listed file exists, the new file is not left unlisted, and what is left over does not stand in the way of the next log |
| IndexFile.PurgeIsAtomic | mysql/源码分析/提交/binlog.cc:5783-5962 | the same for a purge when the server dies at any step, or a power failure hits it at any step but two; no purged file is left behind |
| IndexFile.CreateKeepsFiles | mysql/源码分析/提交/binlog.cc:6047-6195 | after any crash at any step of opening a log the restart leaves all other files alone, exactly unless the register was being written and the name of a file that is no listed log is a part of the new name |
| IndexFile.PurgeKeepsFiles | mysql/源码分析/提交/binlog.cc:6047-6195 | the same for a purge and the names it registers, the purged files being deleted once the new list is in place |
| IndexFile.ForeignFileLost | mysql/源码分析/提交/binlog.cc:6047-6195 | a directory in which opening the first log may delete another file |
| IndexFile.PurgeUnderPowerFailure | mysql/源码分析/提交/binlog.cc:5783-5828 | under power failures the list is the old or the new one, with consistent files, at every step but those between the replacement of the index and the next sync |
| IndexFile.CreateOverLeftover | mysql/源码分析/提交/binlog.cc:5205-5243 | opening a log writes the right list over a temporary index left over exactly if that is not longer |
| IndexFile.PurgeOverLeftover | mysql/源码分析/提交/binlog.cc:5716-5734 | and so does a purge |
| IndexFile.CreateAfterCrash | mysql/源码分析/提交/binlog.cc:5205-5243 | after a crash just before the index is replaced the next log is listed rightly exactly if its name is not shorter than that of the lost one |
| IndexFile.IndexSurvives | mysql/源码分析/提交/binlog.cc:3806-3853 | through any number of operations, crashes and restarts, also crashes of restarts, the index is the list it should be or is made so by the next restart, all its files exist, no log is left over unlisted, and nothing left over gets into the list; power failures while a new index of a purge is not synced excepted |
| IndexFile.CutText | mysql/源码分析/提交/binlog.cc:6063-6082 | a reader of a cut-off register finds registered names and perhaps a part of one |
| IndexFile.RestartAgain | mysql/源码分析/提交/binlog.cc:3806-3853 | a restart that crashes at any step is completed by the next, if the index is not lost and what the register says was out of reach of the crash |
| IndexFile.RestartUnderPowerFailure | mysql/源码分析/提交/binlog.cc:3796-3815 | a crash of a restart loses the index exactly if it is a power failure before the sync, and the index was not on disk |
| IndexFile.StartCompletes | mysql/源码分析/提交/binlog.cc:3796-3853 | the steps of a restart that is not interrupted restore and sync the index and delete exactly the registered files that it does not list |
| IndexFile.IndexedLogs.FilesToPurge | mysql/源码分析/提交/binlog.cc:5877-5908 | the files taken are those in front of the named log, and that one if it is included, up to the first that is active or in use |
| IndexFile.IndexedLogs.PurgeLogs | mysql/源码分析/提交/binlog.cc:5845-5962 | a purge carries out its steps for exactly those files, or nothing if the log is not listed |
| IndexFile.IndexedLogs.OpenIndexFile | mysql/源码分析/提交/binlog.cc:3806-3853 | opening the index restores it and deletes exactly the registered files that it does not list |
| IndexFile.LinesOfText | mysql/源码分析/提交/binlog.cc:6063-6082 | a reader of the index text finds exactly the names written |
| EventWriter.BinlogEventWriter.Write | mysql/源码分析/提交/binlog.cc:1285-1329 | for any cutting of the stream into buffers the file is as if the bytes had come one at a time; it stops at the first point where the loop of the source would turn for ever, and all of a buffer is taken exactly if there is none, so always below 4 GiB |
| EventWriter.BinlogEventWriter.WritePart | mysql/源码分析/提交/binlog.cc:1287-1325 | a turn of the loop takes nothing and changes nothing exactly if a header is awaited and the rest has a 32-bit length of zero, and does not pass by such a point |
| EventWriter.WholeWordIsStuck | mysql/源码分析/提交/binlog.cc:1289-1296 | a buffer of 4 GiB is such a case between two events |
| EventWriter.StreamIsAppended | mysql/源码分析/提交/binlog.cc:1285-1329 | the file gets every event completed as it should be, exactly if no event is a bare header or checksums are off |
| EventWriter.AppendedEvent | mysql/源码分析/提交/binlog.cc:1264-1283 | what a reader finds: the length with the checksum, the position just after the event modulo 2^32, other bytes unchanged, and the checksum of exactly the rewritten header and body |
| EventWriter.HeaderCompleted | mysql/源码分析/提交/binlog.cc:1264-1283 | completing a header sets its length and its position and no other field |
| EventWriter.WrittenLength | mysql/源码分析/提交/binlog.cc:1298-1326 | each bare header makes the file four bytes short of what its header says |
| EventWriter.BinlogEventWriter.UpdateHeaderInPlace | mysql/源码分析/提交/binlog.cc:1264-1283 | the header is completed in place and written, the position advanced modulo 2^32 |
| TrxCache.FlagsAreComputed | mysql/源码分析/提交/binlog.cc:1404-1417 | after any history flags and event counter are those of the events in the cache, and the start of the statement is undefined or within it |
| TrxCache.SavepointRoundTrip | mysql/源码分析/提交/binlog.cc:2774-2816 | whatever happens between setting a savepoint and returning to it while it is live, events, flags and counter are as they were |
| TrxCache.StatementRoundTrip | mysql/源码分析/提交/binlog.cc:989-1003 | rolling a statement back restores events, flags and counter of its start |
| TrxCache.NextKeeps | mysql/源码分析/提交/binlog.cc:628-665 | every operation keeps flags computed and live positions restorable, whatever stale entries the map has |
| TrxCache.NothingIsDropped | mysql/源码分析/提交/binlog.cc:1382-1420 | without rollbacks the cache holds every event written, in order, a pending one from the next flush or savepoint on, and the marks for XID and immediate events are theirs |
| TrxCache.SavepointsLeft | mysql/源码分析/提交/binlog.cc:1005-1013 | a return to a savepoint leaves exactly the savepoints that were set no later, and the start of a statement that had begun before |
| TrxCache.BinlogTrxCacheData.RestoreSavepoint | mysql/源码分析/提交/binlog.cc:1005-1013 | truncation, flags and statement start after a return to a savepoint |
| TrxCache.BinlogTrxCacheData.RestorePrevPosition | mysql/源码分析/提交/binlog.cc:2138-2178 | what a statement rollback leaves, and that it is a no-op without a statement start |
| TrxCache.BinlogTrxCacheData.SavepointSet | mysql/源码分析/提交/binlog.cc:2741-2771 | the position is that after the SAVEPOINT event |
| TrxCache.BinlogTrxCacheData.RegisterStatement | mysql/源码分析/提交/binlog.cc:9346-9369 | the first call in a statement fixes its start, later ones change nothing |
| TrxCache.BinlogTrxCacheData.Write | mysql/源码分析/提交/binlog.cc:1382-1420 | the flags an event adds |
| DumpStart.FindFirstLogNotInGtidSet | mysql/源码分析/提交/binlog.cc:4361-4457 | which file the backward search picks, each of its five failures exactly, and that the first GTID returned is the first in the log from that file on |
| DumpStart.NothingIsSkipped | mysql/源码分析/提交/binlog.cc:4384-4392 | every GTID the replica lacks lies in the chosen file or a later one |
| DumpStart.OldestLacking | mysql/源码分析/提交/binlog.cc:4384-4392 | with no truncated file the choice is the oldest file with a transaction the replica lacks, or the newest file if the others have none |
| DumpStart.MissingExactly | mysql/源码分析/提交/binlog.cc:4445-4448 | the search fails as missing exactly if the replica lacks something logged before the oldest readable file |
| AccessedDbs.Thd.AddToBinlogAccessedDbs | mysql/源码分析/提交/binlog.cc:9617-9655 | shifting names in place puts the new name where it belongs, once, unless the list is past its maximum |
| AccessedDbs.ListIsSorted | mysql/源码分析/提交/binlog.cc:9634-9654 | after any calls the list is strictly descending, holds only touched databases, all of them unless it has one more than the maximum, and never more |
| AccessedDbs.EarlyStopIsRight | mysql/源码分析/复制/rpl_mts_submode.cc:345-368 | the early-stopping search ends at the right partition exactly if the table's database is listed, or the empty name is and all others sort after |
| AccessedDbs.RulesSearchAll | mysql/源码分析/复制/rpl_mts_submode.cc:349-366 | with rewrite rules the search finds the name that is rewritten to the database, or is it and not rewritten, or the empty one, if there is any |
| AccessedDbs.Worker.DetachTempTables | mysql/源码分析/复制/rpl_mts_submode.cc:318-386 | every temporary table goes to the partition of its own database and none stays with the worker |
| AccessedDbs.TablesOfAre | mysql/源码分析/复制/rpl_mts_submode.cc:318-386 | a partition has every table of its database as often as there was one, and no other |
| AlterColumns.Rebuild.PrepareColumns | mysql/源码分析/onlineDdl/sql_table#prepare_fields_and_keys.cc:79-354 | when the rebuild succeeds, in terms of the old columns and the definitions, and that the list it then makes is as promised |
| AlterColumns.ListIsRebuilt | mysql/源码分析/onlineDdl/sql_table#prepare_fields_and_keys.cc:79-349 | each undropped column and each definition has exactly one entry, columns without a place keep the order of the old table with new ones behind in the order of the statement, and exactly the unchanged columns of functional indexes form a name-sorted tail |
| AlterColumns.ArrangedInOldOrder | mysql/源码分析/onlineDdl/sql_table#prepare_fields_and_keys.cc:79-327 | columns without a place of their own are in the order of the old table, new ones behind in that of the statement |
| AlterColumns.FieldIsGood | mysql/源码分析/onlineDdl/sql_table#prepare_fields_and_keys.cc:86-185 | a column is accepted exactly if it is dropped and nothing depends on it, redefined with its storage kept and its name too if something depends on it, or left as it can be |
| AlterColumns.Rebuild.CollectFields | mysql/源码分析/onlineDdl/sql_table#prepare_fields_and_keys.cc:79-228 | which old columns are kept, replaced, set aside or refused |
| AlterColumns.Rebuild.AddColumns | mysql/源码分析/onlineDdl/sql_table#prepare_fields_and_keys.cc:229-327 | the definitions that can be carried out, and the list they make |
| AlterColumns.SpotFound | mysql/源码分析/onlineDdl/sql_table#prepare_fields_and_keys.cc:310-324 | whether a column to follow is found does not depend on how others were placed |
| AlterColumns.PlacedAsAsked | mysql/源码分析/onlineDdl/sql_table#prepare_fields_and_keys.cc:307-325 | a column with FIRST or AFTER lands at the front, or directly behind the first column of that name |
| AlterColumns.AddedOrder | mysql/源码分析/onlineDdl/sql_table#prepare_fields_and_keys.cc:286-325 | placing one column never changes the order of those that have no place |
| AlterColumns.AddedEntries | mysql/源码分析/onlineDdl/sql_table#prepare_fields_and_keys.cc:286-325 | placing a column neither loses nor repeats an entry |

## Left out

- XA transactions, groups that end in ROLLBACK and payload events in the recovery scan, which recognises none of them.
- Detection of a transaction found twice by the recovery scan: the flag that would report it is overwritten in the same round.
- Partial events at the end of a crashed log file: the cut is made between events.
- Changing the tracking mode while flushed transactions are not yet committed; a run has one mode.
- The session write of sequence number 2 when the trackers rotate, which no later step of the model reads.
- The 64-bit wrap-around of clocks and of `delegated_jobs`; timestamps and counters are unbounded.
- Worker assignment, temporary tables of the logical-clock mode, statistics, and withdrawal of a delegated job.
- `find_lwm`, the checkpoint routine, `enroll_for` and `fetch_queue` are modelled from the comments and assertions of their callers; their own code is not part of this model.
- `std::sort` of the functional-index columns is modelled by an insertion sort with the same result.
- TrxTracking.Mode: the switch to commit order for a changed mode variable is not modelled.
- OrderedCommit.BinLog.FlushStage: the method is one leader's uninterrupted pass; what other sessions do between its steps is in the state machine of `GroupCommit`.
- OrderedCommit.BinLog.SyncStage: one leader's uninterrupted pass, for the same reason.
- OrderedCommit.BinLog.CommitStage: one leader's uninterrupted pass, for the same reason.
- Errors and stops of the applier in the runs on a log; the scheduler's class has them call by call.
- IndexFile.PurgeIsAtomic: a power failure in the two steps of `IndexFile.PurgeUnderPowerFailure` is not survived.
- IndexFile.IndexSurvives: nor is one before the restart that follows has synced the index; which files of other kinds a cut-off register takes is in `IndexFile.CreateKeepsFiles`, not in this theorem.
- LogScheduling.ScheduleLog: how the coordinator waits for room in the queue is not in the code modelled here; the model has the oldest group finish and a checkpoint made.
- GroupCommit.Next: empty caches, failed writes and the closed-log paths of `ordered_commit` are not modelled.
- Semi-synchronous hooks, GTID assignment, dump threads, encryption and compression.
- binlog_error_action=IGNORE_ERROR.
- `reset_logs`, which its own comment calls unsafe, and failing deletions of log files.
- TrxCache.BinlogTrxCacheData.RestoreSavepoint: the flags for XID and immediate events are not restored, as in the code; after a rollback nothing is claimed about them.
- AlterColumns.Rebuild.PrepareColumns: keys, the checks of types and defaults that only set warning flags, and drops of columns that the table does not have, which the key half reports.
- Renaming and default changes of unchanged columns are a given of each old column; the function that makes them is not part of this model.
- `decide_logging_format`, the rest of `log_event.h`, `HA_ALTER_FLAGS.cc` and the group replication callbacks have no part in the properties above.
