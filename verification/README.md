# rtmd durable core, modelled and verified

rtmd is a runtime manager: it starts agent runtimes through shims, keeps one lifecycle
row per session, writes an event log that clients follow by cursor, and wraps launches
in `docker run` when a session asks for isolation. This project models the parts of it
whose correctness spans several functions, and proves what they promise.

| file | models |
|---|---|
| `EventLogs.dfy`, `EventLogService.dfy` | log bytes, tail recovery, numbering, cursor pages, retention; the log and watcher objects |
| `LogRun.dfy` | every run of appends (byte by byte), compactions (step by step), crashes and one polling client |
| `LongPoll.dfy` | every interleaving of any number of long-poll waiters and appenders |
| `Lifecycles.dfy`, `Handlers.dfy`, `Server.dfy` | the lifecycle row and its marks; the handlers one at a time with stops at their I/O steps, restarts; the store and server objects |
| `Recorders.dfy`, `Spawns.dfy` | the same coordinators with one step per await point |
| `EventOrder.dfy` | what the recorders may still log of a session: event order, the last terminal event, restarts |
| `SerialRecorders.dfy` | the two models of the recorders agree when recorders run one after the other |
| `Paths.dfy`, `MountPlan.dfy`, `Preflight.dfy`, `DockerArgv.dfy` | container and host paths, the mount plan, request preflight, the `docker run` command and a reader for it |
| `Codec.dfy` | printers, parsers and the row encoding |
| `Reconcile.dfy`, `StartTime.dfy` | the sweep, the periodic loop and its deadlines; tick arithmetic and the stat line |
| `Strings.dfy` | split, join, first/last occurrence, decimal numbers |

Runs are lists of actions: `Exec(acts)` is the state after them, and an action that is
not possible where it stands changes nothing. A theorem about `Exec(acts)` for all
`acts` is therefore a theorem about every interleaving. An object the program updates in
place is a class whose methods are proved equal to a function of the old state; the
theorems are about those functions and about runs of them.

`dafny verify dfyconfig.toml` checks everything.

## Where the code does less than one might expect

Each of these is a lemma, and where a caller could test a condition it is exact.

- A poll from a cursor beyond the end of a non-empty log moves the cursor back (`PageCursorMovesBackIff`).
- An append that fails after its push leaves asleep exactly the waiters whose cursor lies before its event, until the next notify (`NoLostWakeup`, `FailedAppendStrandsWaiter`).
- A compaction abandoned by an I/O error leaves only the dropped prefix in memory and sends back exactly the readers beyond it (`MemoryIsFileIff`, `AbandonedMovesBackIff`, reached by `CompactionReached`); the next append hides the gap, and every reader but the one that had seen everything silently skips the kept entries (`AppendAfterAbandoned`).
- Sequence numbers stop identifying entries past `u64::MAX` of them (`NumbersIdentifyEntries`).
- A ready report read early and written late overwrites a terminal row (`LateReadyOverwritesTerminal`); a terminal row is safe exactly when no task holds a differing copy of it (`TerminalRowSafeIff`), and always in runs that keep a session's writes apart (`ApartWritesFreeze`).
- A Running event can follow a terminal one, even in runs that keep the writes apart (`LateAppendReordersEvents`); once the row is terminal, it can exactly when a ready recorder stands between its read and its append (`RunningOverIff`).
- A session can get two terminal events over two lives (`TwoTerminalEvents`); no further one can come exactly when the session is closed (`TerminalOverIff`), and runs that keep its writes apart end it once (`ApartEndsOnce`).
- A terminal row lacks its event exactly when the handler that wrote it was stopped before the append (`EndedRowIsLoggedIff`).
- Two equal covers before a longer one are refused, after it they are not (`OrderDecidesSuccess`).
- An accepted request does not always start its container in the host working directory: a mount below the selected one can shadow the planned workdir (`ShadowedRequestAccepted`, `ShadowedPlan`); it does exactly when none does (`AcceptedRequestKeepsCwdIff`, `AcceptedLaunchStartsInCwdIff`).
- An empty mount source is a prefix of every path (`WorkdirMapsBackIff`); canonicalised sources are never empty.
- A comma in a path, an `=` in an environment key or a dash-led image breaks the command line (`ArgvReadsBackIff`).
- `Docker(Some(""))`, `Other("claude")` and an empty tmux session do not round trip (`RowRoundTripIff`).
- Above one tick per nanosecond two starts can share a time (`IncreasingIffRateAtMostNano`).
- A zero sweep interval makes `advance_deadline` spin forever (`AdvanceTerminatesIff`).

## Model

| member | source | states |
|---|---|---|
| Strings.SplitJoin | crates/rtm-daemon/src/docker_mount_plan.rs:138-153 | splitting undoes joining for separator-free parts, so component lists and strings correspond |
| Strings.ParseShow | crates/rtm-core/src/types/spawn.rs:17-47 | a printed number parses back exactly when it fits the integer type |
| Strings.ParseNatIff | crates/rtm-core/src/types/spawn.rs:36-41 | accepted numbers are exactly digit strings within the type, with at most one plus sign before them |
| Strings.JoinSplit | crates/rtm-core/src/path_shaped_envs.rs:20-26 | joining undoes splitting, so no part of a value is lost |
| EventLogs.RecoverTail | crates/rtm-daemon/src/event_log.rs:246-264 | recovery keeps a prefix that is empty or ends in a newline and cuts no complete line |
| EventLogs.ReadRender | crates/rtm-daemon/src/event_log.rs:266-278 | reading a file of written records returns exactly those records in order |
| EventLogs.LinesHead | crates/rtm-daemon/src/event_log.rs:266-278 | a terminated line is read without its newline and one carriage return, and the rest follows |
| EventLogs.LinesLast | crates/rtm-daemon/src/event_log.rs:266-278 | an unterminated last line is read as it is, an empty one not at all |
| EventLogs.DecodesIff | crates/rtm-daemon/src/event_log.rs:269-277 | reading fails if and only if some line does not decode, and otherwise gives each line's entry in order |
| EventLogs.TornAppend | crates/rtm-daemon/src/event_log.rs:95-99 | after any number of bytes of an appended line, recovery yields the file before it, or after it once the newline is down |
| EventLogs.ReopenTorn | crates/rtm-daemon/src/event_log.rs:62-84 | opening a file torn anywhere in its last line gives the entries before or after that append and the matching next number |
| EventLogs.ReopenRender | crates/rtm-daemon/src/event_log.rs:62-84 | opening an intact file gives its entries and the next number |
| EventLogs.NumbersIdentifyEntries | crates/rtm-daemon/src/event_log.rs:88-93 | saturating numbering keeps entries distinct if and only if at most `u64::MAX` were appended |
| EventLogs.PageOfWindow | crates/rtm-daemon/src/event_log.rs:109-130 | a read is expired exactly for cursors before the retained window, otherwise it is the history from the cursor to the end |
| EventLogs.PageCursorMovesBackIff | crates/rtm-daemon/src/event_log.rs:126-129 | a page moves a cursor back if and only if the reader was ahead of a log that holds entries |
| EventLogs.DroppedByAge | crates/rtm-daemon/src/event_log.rs:318-330 | compaction drops exactly the leading entries older than 604 800 000 ms that leave ten thousand, and stops at the first younger one |
| EventLogs.RetainFromIsLongest | crates/rtm-daemon/src/event_log.rs:318-330 | compaction drops the longest prefix of old entries that leaves the minimum count, whatever the timestamp order, so it never empties the log and keeps the newest entry |
| EventLogs.AppendKeepsYoung | crates/rtm-daemon/src/event_log.rs:292-330 | an append never removes an event younger than seven days, nor any of the last ten thousand, whatever the order of timestamps |
| EventLogService.EventLog.Append | crates/rtm-daemon/src/event_log.rs:86-107 | a successful append adds one entry with the next number to the history, cuts memory and file alike by the retention policy, keeps memory, file and numbering agreeing, and leaves fewer than a batch of this life's entries unsynced |
| EventLogService.EventLog.WriteAndPush | crates/rtm-daemon/src/event_log.rs:95-101 | record, newline and memory gain the same entry |
| EventLogService.EventLog.SyncIfDue | crates/rtm-daemon/src/event_log.rs:280-290 | the counter is the number of entries appended since the last sync; afterwards it is below the batch size, and everything is synced exactly when the batch was full, the interval over, or nothing was pending |
| EventLogService.EventLog.CompactIfDue | crates/rtm-daemon/src/event_log.rs:292-316 | compaction changes neither history nor numbering and leaves file and memory equal to the retained suffix |
| EventLogService.EventLog.EventsSince | crates/rtm-daemon/src/event_log.rs:109-130 | the answer is the cursor page of the entries in memory |
| EventLogService.WriteTemp | crates/rtm-daemon/src/event_log.rs:299-309 | the temporary file is the rendering of the retained entries |
| EventLogService.Open | crates/rtm-daemon/src/event_log.rs:62-84 | opening refuses a file that does not decode, and any file an earlier life left behind, torn tail included, opens to a valid log of the same history |
| EventLogService.EventWatcher.Next | crates/rtm-client/src/event_watcher.rs:73-95 | a poll from inside the history returns exactly the entries between old and new cursor, or jumps forward to the oldest servable cursor |
| LogRun.CrashOutcome | crates/rtm-daemon/src/event_log.rs:246-278 | in any state of the log, reopening the file gives the entries before or after the operation in progress |
| LogRun.ExecKeepsLog | crates/rtm-daemon/src/event_log.rs:86-107 | in every run the file holds the live history plus at most a torn line, through every step of append and compaction |
| LogRun.CrashAnywhere | crates/rtm-daemon/src/event_log.rs:292-316 | killing the process after any byte or step of any run loses at most the torn entry, which no reader had seen, and a compaction crash does not change the next number |
| LogRun.ExecKeepsWatch | crates/rtm-client/src/event_watcher.rs:73-95 | in every run each reply the client got advances its cursor over exactly the events it carried |
| LogRun.DeliveredSlices | crates/rtm-client/src/event_watcher.rs:73-95 | over every run with appends, compactions and restarts, the events between two expiries are one contiguous, ordered, duplicate-free slice of the append history |
| LogRun.CursorNeverDecreases | crates/rtm-client/src/event_watcher.rs:85-95 | the cursor never decreases, and an expiry moves it strictly forward to where the next slice starts |
| LogRun.PollDelivers | crates/rtm-client/src/event_watcher.rs:73-95 | a delivered poll of a log at rest adds one reply with everything beyond the cursor, or with the oldest servable cursor when that lies beyond it |
| LogRun.LostReplyIsReread | crates/rtm-client/src/event_watcher.rs:73-95 | a reply that never arrives delivers nothing and leaves the cursor, so the next poll is answered as the lost one would have been |
| LogRun.RebuiltFromSaved | crates/rtm-client/src/event_watcher.rs:51-95 | a watcher rebuilt from any cursor the log returned, or from none, first receives everything after it or the oldest servable cursor |
| LogRun.CompactionKeepsTail | crates/rtm-daemon/src/event_log.rs:292-330 | over every run compaction leaves a non-empty, contiguous log with the same last number and next number |
| LogRun.AbandonedMovesBackIff | crates/rtm-daemon/src/event_log.rs:296-312 | anywhere between `split_off` and its end, were compaction abandoned, a page would move a cursor back if and only if the cursor lies beyond the dropped prefix |
| LogRun.MemoryIsFileIff | crates/rtm-daemon/src/event_log.rs:86-107 | in every run memory holds what reopening the file would give if and only if no compaction is between `split_off` and its end and no written line awaits its push |
| LogRun.CompactionReached | crates/rtm-daemon/src/event_log.rs:292-330 | runs that reach each phase of a compaction exist: the minimum count of appends, one more, and a retention age |
| LogRun.AppendAfterAbandoned | crates/rtm-daemon/src/event_log.rs:296-312 | after an abandoned compaction and one more append, a page from inside the history is complete if and only if its reader had seen everything, yet moves every reader past the missing entries |
| LogRun.AppendRunIsAppend | crates/rtm-daemon/src/event_log.rs:86-107 | the byte and compaction steps of one append, taken to their end, do to history, memory, file and numbering what the log object's append is proved to do |
| LongPoll.NoLostWakeup | crates/rtm-daemon/src/event_log.rs:132-156 | in every interleaving a parked waiter without a notification has something beyond its cursor if and only if such an entry was pushed by an append that has not notified; with no append under way, if and only if such an append failed since the last notify |
| LongPoll.AnswersAreCurrent | crates/rtm-daemon/src/event_log.rs:132-156 | in every run a call with a cursor inside the history is answered by its checks or its wake with the events beyond the cursor at that moment, or with the start of the log; an empty page of a waiting call comes only from a timeout or from a wake with nothing beyond the cursor |
| LongPoll.CallsProceed | crates/rtm-daemon/src/event_log.rs:137-155 | a check answers exactly when the call does not wait or has something to read, and otherwise moves it on; a wake needs a notification, a timeout does not |
| LongPoll.NotifiedByNotify | crates/rtm-daemon/src/event_log.rs:105-145 | a call is notified only by an append that reached its notify while the call listened |
| LongPoll.AppendersProceed | crates/rtm-daemon/src/event_log.rs:86-107 | a push adds the next entry; its notify flags exactly the listening calls |
| LongPoll.FailedAppendStrandsWaiter | crates/rtm-daemon/src/event_log.rs:100-105 | a concrete run in which an append fails between push and notify and a waiter sleeps on its event |
| LongPoll.WaiterCountIsParked | crates/rtm-daemon/src/event_log.rs:186-201 | the guard's counter equals the number of parked calls, however they end |
| LongPoll.StalePageLosesNothing | crates/rtm-daemon/src/event_log.rs:146-155 | the page a waiter times out with may be stale, but a later poll from its cursor returns every later event or says it expired |
| Lifecycles.AfterReady | crates/rtm-core/src/types/lifecycle.rs:82-92 | only a Forking row becomes Running, and then it names both pids and the start time |
| Lifecycles.AfterExit | crates/rtm-core/src/types/lifecycle.rs:94-108 | a change is reported exactly for live rows, yet a different exit overwrites an exited copy |
| Lifecycles.EndReportedOnce | crates/rtm-core/src/types/lifecycle.rs:82-121 | over any sequence of marks exactly one end is reported if the row ends, at most one ready report, an ended row stays ended and a lost one stays as it is |
| Lifecycles.LifecycleCell.MarkRunning | crates/rtm-core/src/types/lifecycle.rs:82-92 | the in-place mark is the ready transition |
| Lifecycles.LifecycleCell.MarkExited | crates/rtm-core/src/types/lifecycle.rs:94-108 | the in-place mark is the exit transition |
| Lifecycles.LifecycleCell.MarkLost | crates/rtm-core/src/types/lifecycle.rs:110-121 | the in-place mark is the loss transition |
| Recorders.AtMostOneTerminalEvent | crates/rtm-daemon/src/server/termination.rs:113-178 | under every interleaving of recorders at their await points, a session gets at most one Terminated or Lost event in one daemon life |
| Recorders.SettledSessionHasItsEvent | crates/rtm-daemon/src/server/termination.rs:157-178 | once nobody stands between set insert and append and none failed there, a session in the set has its event in the log |
| Recorders.ExecKeepsOne | crates/rtm-daemon/src/server/termination.rs:164-177 | the terminated set holds a session exactly when its event is logged, about to be appended by one task, or failed to append |
| Recorders.ApartWritesFreeze | crates/rtm-daemon/src/server/termination.rs:120-130 | in every run in which at most one task of a session stands between its row read and its row write, no step rewrites the session's terminal row |
| Recorders.TerminalRowSafeIff | crates/rtm-daemon/src/server/termination.rs:120-130 | a terminal row outlives every continuation without a cancel if and only if no task holds a differing copy read before the row was terminal |
| EventOrder.RunningOverIff | crates/rtm-daemon/src/server/spawn.rs:150-175 | once a session's row is terminal, no continuation without a cancel logs a Running event of it, restarts included, if and only if no ready recorder of it stands between its row read and its append |
| EventOrder.OrderlyEvents | crates/rtm-daemon/src/server/spawn.rs:169-175 | the arrangement that ensures it: in runs in which a session's recorders do not overlap and which cancel it only while Forking, no Running event follows a terminal one |
| EventOrder.TerminalOverIff | crates/rtm-daemon/src/server/termination.rs:157-178 | no continuation without a cancel logs another terminal event of a session, restarts included, if and only if its row is terminal, no ready recorder holds a copy to write and the set turns away every exit or loss recorder under way |
| EventOrder.TwoTerminalEvents | crates/rtm-daemon/src/server/spawn.rs:150-169 | a late ready report, a restart and a loss give one session two terminal events |
| EventOrder.ApartEndsOnce | crates/rtm-daemon/src/server/termination.rs:113-178 | in every uncancelled run that keeps a session's writes apart at most one terminal event of it is logged over all lives |
| EventOrder.LateAppendReordersEvents | crates/rtm-daemon/src/server/spawn.rs:169-175 | a concrete run that keeps the writes apart and still logs Running after Terminated |
| Recorders.DeletedStaysDeleted | crates/rtm-daemon/src/server/spawn.rs:104-110 | under every interleaving no recorder brings a cancelled row back, and unless one was already past its row write no event of that session follows |
| SerialRecorders.SerialIsHandler | crates/rtm-daemon/src/server/termination.rs:113-178 | from any point of any interleaving, an exit, loss, reconnect or spawn recorder run on its own, to its end or to an I/O stop, does to rows, set and log what its handler does |
| SerialRecorders.RestartIsRestart | crates/rtm-daemon/src/server/termination.rs:21-27 | a restart keeps rows and the whole log and empties the set in both models |
| Recorders.LateReadyOverwritesTerminal | crates/rtm-daemon/src/server/spawn.rs:150-169 | a concrete run that ends with a Running row for a session whose Terminated event is logged |
| Spawns.PendingHasRow | crates/rtm-daemon/src/server/spawn.rs:28-53 | in every interleaving each pending launch and each pending ready sender has a row and belongs to the one spawn that inserted it |
| Spawns.OneSpawnPerId | crates/rtm-store/src/sqlite/lifecycle.rs:51-81 | the primary key lets one spawn per id past the insert at a time |
| Spawns.LaunchHandedOnce | crates/rtm-daemon/src/server/spawn.rs:112-122 | no launch spec is handed to two shims |
| Spawns.NeverAlreadyPending | crates/rtm-daemon/src/server/spawn.rs:93-102 | the "already has a pending shim" error is unreachable: no sender is there when a spawn stores its own |
| Spawns.SpawnAloneWaits | crates/rtm-daemon/src/server/spawn.rs:28-53 | from any point of any interleaving a new spawn of a free id, run on, waits with row, launch spec and sender stored |
| Spawns.SpawnAloneUndone | crates/rtm-daemon/src/server/spawn.rs:104-110 | if its backend fails, the cancel leaves rows, launch specs and senders as before |
| Spawns.SecondSpawnRefused | crates/rtm-store/src/sqlite/lifecycle.rs:51-81 | a spawn that finds a row at its check or insert is refused and leaves everything else alone |
| Spawns.PendingIsTaken | crates/rtm-daemon/src/server/spawn.rs:112-129 | a shim is handed the stored spec, which is then gone; a report takes the stored sender |
| Handlers.EventsAreWellShaped | crates/rtm-daemon/src/server/termination.rs:113-155 | over all handlers, early stops and restarts, an uncancelled session's events are at most one Running, then at most one terminal event |
| Handlers.TerminalRowsFrozen | crates/rtm-core/src/types/lifecycle.rs:94-108 | one handler at a time, a stored terminal row is never rewritten although the marked copy differs from it |
| Handlers.LiveRowExitIsPublished | crates/rtm-daemon/src/server/termination.rs:113-131 | a completed exit of a live, uncancelled session always appends its event: the set cannot suppress it |
| Handlers.WatcherExitIsPublished | crates/rtm-daemon/src/server/watcher.rs:56-78 | a watcher that fires for a Running, uncancelled session publishes one event, a loss exactly when the shim is gone; "missing shim pid" is not reported |
| Handlers.RunningRowsIdentified | crates/rtm-daemon/src/reconcile.rs:192-209 | every Running row carries its pids and start time, so "missing runtime pid" is unreachable |
| Handlers.LiveRowNotTerminated | crates/rtm-daemon/src/server/termination.rs:164-167 | a live session is not in the terminated set and has at most its Running event |
| Handlers.LiveRowEnds | crates/rtm-daemon/src/server/termination.rs:113-178 | an exit or loss of a live uncancelled session stores its end, drops its watcher, enters the set and logs its event, in this order up to any stop, and changes nothing else |
| Handlers.NothingToEnd | crates/rtm-daemon/src/server/termination.rs:120-127 | recorders of an absent session fail, those of an ended one are silent, and nothing changes |
| Handlers.SpawnBegins | crates/rtm-daemon/src/server/spawn.rs:28-53 | from every reachable state a spawn of a free id stores its Forking row, launch spec and sender and nothing else; a present id or refused target changes nothing |
| Handlers.SpawnIsUndoneAndHandedOnce | crates/rtm-daemon/src/server/spawn.rs:104-141 | a cancel restores the state before the spawn, the launch spec is handed out exactly once, and the first report goes to the waiting spawn |
| Handlers.CancelRemoves | crates/rtm-daemon/src/server/spawn.rs:104-110 | row, launch spec and sender of the session go, those of every other session stay |
| Handlers.SpawnReportPublishes | crates/rtm-daemon/src/server/spawn.rs:143-177 | a spawn's report turns the Forking row of the right runtime Running with the report's processes and the requested pane, watches it and logs its Running event, up to any stop; any other row makes it fail and change nothing |
| Handlers.ReconnectPublishes | crates/rtm-daemon/src/server/spawn.rs:179-215 | a reconnect publishes a Forking row likewise, only watches a Running one, and fails on any other |
| Handlers.WatchedWhileRunning | crates/rtm-daemon/src/server/watcher.rs:22-49 | a watched session stays watched while it is Running and the daemon does not restart, whatever handlers run |
| Handlers.RestartForgets | crates/rtm-daemon/src/server/spawn.rs:20-27 | a new life has the stored rows and log and nothing pending, watched or ended |
| Handlers.EndedRowIsLoggedIff | crates/rtm-daemon/src/server/termination.rs:128-130 | a terminal row of an uncancelled session has its terminal event in the log if and only if the handler that made it terminal ran to its end |
| Handlers.ExecKeepsKeyed | crates/rtm-store/src/sqlite/lifecycle.rs:83-121 | every row stays stored under its own session id |
| Handlers.RowIsOwnHistory | crates/rtm-store/src/sqlite/lifecycle.rs:51-130 | whatever the other sessions' inserts, updates and deletes, a session has at most one row, under its own id, and it is what its own operations made of it |
| Server.LifecycleStore.Running | crates/rtm-store/src/sqlite/lifecycle.rs:195-209 | every Running row once and no other |
| Server.ServerState.BeginSpawn | crates/rtm-daemon/src/server/spawn.rs:28-53 | the object's new state and reply are those of the handler the run theorems speak about |
| Server.ServerState.CancelSpawn | crates/rtm-daemon/src/server/spawn.rs:104-110 | launch, sender and row of the session are gone, nothing else |
| Server.ServerState.TakeLaunchSpec | crates/rtm-daemon/src/server/spawn.rs:112-122 | the pending spec is handed out and removed |
| Server.ServerState.CompleteShimReady | crates/rtm-daemon/src/server/spawn.rs:124-141 | a waiting spawn consumes the report, otherwise it is a reconnect |
| Server.ServerState.RecordReconnectedReady | crates/rtm-daemon/src/server/spawn.rs:179-215 | a reconnect publishes a Forking row, rewatches a Running one and refuses a terminal one |
| Server.ServerState.RecordRunning | crates/rtm-daemon/src/server/spawn.rs:143-177 | the object's state and reply are those of the handler, for every I/O stop |
| Server.ServerState.RecordExited | crates/rtm-daemon/src/server/termination.rs:113-131 | the object's state and reply are those of the handler, for every I/O stop |
| Server.ServerState.RecordLost | crates/rtm-daemon/src/server/termination.rs:133-155 | the object's state and reply are those of the handler, for every I/O stop |
| Server.ServerState.FinishTerminal | crates/rtm-daemon/src/server/termination.rs:157-178 | the watcher goes, the set decides, the event is appended last |
| Server.ServerState.RecordWatcherExit | crates/rtm-daemon/src/server/watcher.rs:56-78 | the object's state and reply are those of the handler, for every I/O stop |
| Paths.NormalizeContainerPath | crates/rtm-daemon/src/docker_mount_plan.rs:133-154 | the push/pop loop is a fold of the components over a stack |
| Paths.NormalizeIdempotent | crates/rtm-daemon/src/docker_mount_plan.rs:133-154 | normalising twice changes nothing; no empty, `.` or `..` component is left |
| Paths.NormalizeResolves | crates/rtm-daemon/src/docker_mount_plan.rs:138-149 | a joined path is resolved from where its first half leads, and `..` removes exactly one component or none at the root |
| Paths.CoversIffPrefix | crates/rtm-daemon/src/docker_mount_plan.rs:125-131 | on normalised paths the string test holds exactly when one component list is a prefix of the other: root covers all, `/a` does not cover `/ab` |
| Paths.PartsOfRender | crates/rtm-daemon/src/docker_mount_plan.rs:150-153 | a rendered component list is read back unchanged |
| Paths.HostOfCanonical | crates/rtm-daemon/src/docker_mount_plan.rs:65-67 | for a canonical host path the library's components are the root and the path's names |
| Paths.HostComponentsOf | crates/rtm-daemon/src/docker_mount_plan.rs:65-67 | host components as the standard library documents them: trailing slash and `.` vanish, `..` stays, a name is appended |
| MountPlan.SelectCwdCover | crates/rtm-daemon/src/docker_mount_plan.rs:69-107 | the scan with a running best computes the selection the lemmas characterise |
| MountPlan.SelectionExact | crates/rtm-daemon/src/docker_mount_plan.rs:69-107 | selection fails if and only if two equal covers appear with no longer cover before the second; otherwise it is the unique longest cover, or none exactly when nothing covers |
| MountPlan.PlanOrderIndependent | crates/rtm-daemon/src/docker_mount_plan.rs:42-63 | two orderings of the same mounts that both succeed give the same plan |
| MountPlan.PlanMadeIff | crates/rtm-daemon/src/docker_mount_plan.rs:42-63 | a plan is made if and only if no source lies strictly below the cwd, no covers clash, and something covers the cwd or no target is above, at or below it; the cwd is mounted by itself if and only if nothing covers it |
| MountPlan.OrderDecidesSuccess | crates/rtm-daemon/src/docker_mount_plan.rs:88-99 | three concrete mounts that are refused in one order and planned in another |
| MountPlan.RemapCwdWorkdir | crates/rtm-daemon/src/docker_mount_plan.rs:168-195 | the workdir is the target with the remaining names appended |
| MountPlan.RejectSourceDescendants | crates/rtm-daemon/src/docker_mount_plan.rs:109-123 | accepts exactly when no source lies strictly below the working directory |
| MountPlan.RejectTargetOverlaps | crates/rtm-daemon/src/docker_mount_plan.rs:156-166 | accepts exactly when no target is above, at or below the automatic mount |
| MountPlan.ValidateCwdMountPlan | crates/rtm-daemon/src/docker_mount_plan.rs:42-63 | the method computes the plan the lemmas speak about |
| MountPlan.WorkdirMapsBackIff | crates/rtm-daemon/src/docker_mount_plan.rs:168-186 | mapping the workdir back through the mount gives the host directory if and only if the mount source is not empty |
| MountPlan.WorkdirBelowTarget | crates/rtm-daemon/src/docker_mount_plan.rs:168-195 | the workdir is normalised and lies under the selected target |
| MountPlan.AutoMountIsAlone | crates/rtm-daemon/src/docker_mount_plan.rs:57-62 | with the automatic mount the workdir is the cwd and no declared target is above, at or below it |
| MountPlan.CoverPreservesWorkdir | crates/rtm-daemon/src/docker_mount_plan.rs:51-55 | with a cover, the unique longest one carries the workdir back to the cwd |
| MountPlan.ResolutionPreservesIff | crates/rtm-daemon/src/docker_mount_plan.rs:51-55 | resolving the workdir by the deepest target gives the cwd if and only if no declared target lies strictly below the cover's and at or above the place the remaining names lead to |
| MountPlan.ShadowsIffDeeper | crates/rtm-daemon/src/docker_mount_plan.rs:168-186 | that condition on the declared targets is covering the planned workdir from deeper than the selected mount |
| MountPlan.PlanResolvesIff | crates/rtm-daemon/src/docker_mount_plan.rs:42-63 | for either kind of plan the container resolves its workdir to the cwd if and only if nothing shadows the selected mount |
| MountPlan.PlanHasDeepest | crates/rtm-daemon/src/docker_mount_plan.rs:42-63 | some mount of every plan covers its workdir, so it is resolved at all |
| MountPlan.ShadowedPlan | crates/rtm-daemon/src/docker_mount_plan.rs:51-55 | a concrete accepted plan whose workdir the container resolves to another mount's source |
| Preflight.SpawnRequestCell.ValidateDockerMounts | crates/rtm-daemon/src/spawn_preflight.rs:119-127 | accepts exactly the requests that canonicalise, have distinct targets, a plan and covered path values, and leaves an accepted one rewritten |
| Preflight.SpawnRequestCell.CanonicalizeRequestMounts | crates/rtm-daemon/src/spawn_preflight.rs:129-138 | sources are rewritten in order until the first refusal |
| Preflight.RejectDuplicateMountTargets | crates/rtm-daemon/src/spawn_preflight.rs:140-155 | counting accepts exactly pairwise distinct targets |
| Preflight.RejectUncoveredPathEnvs | crates/rtm-daemon/src/spawn_preflight.rs:157-183 | accepts exactly when every path value of every catalogued entry is absolute and lies under a declared target |
| Preflight.EnvCoveredIff | crates/rtm-daemon/src/spawn_preflight.rs:157-190 | the environment is accepted if and only if every path held by a catalogued entry whose key starts with `CLAUDE_`, colon lists included, is absolute and lies at or below a target |
| Preflight.AcceptedMountsResolved | crates/rtm-daemon/src/spawn_preflight.rs:192-215 | an accepted mount keeps target and mode, and its source is the file system's answer for the path given, taken from the cwd when relative |
| Preflight.PreparedIff | crates/rtm-daemon/src/spawn_preflight.rs:129-138 | the mounts are prepared if and only if every source resolves and every target is absolute |
| Preflight.AcceptedRequestReplans | crates/rtm-daemon/src/docker_mount_plan.rs:34-40 | after acceptance, planning again from the rewritten request cannot fail and gives the same plan; targets are distinct and path values covered |
| Preflight.AcceptedRequestKeepsCwdIff | crates/rtm-daemon/src/spawn_preflight.rs:119-127 | an accepted request's container resolves its workdir to the host working directory if and only if no declared target shadows the selected mount, always so with the automatic mount |
| Preflight.ShadowedRequestAccepted | crates/rtm-daemon/src/spawn_preflight.rs:119-127 | a concrete accepted request that is shadowed |
| DockerArgv.BindMountArg | crates/rtm-daemon/src/docker_argv.rs:125-135 | the argument is the comma-joined list of its fields |
| DockerArgv.AppendMountArgs | crates/rtm-daemon/src/docker_argv.rs:118-123 | one `--mount` pair per declared mount is pushed, in order |
| DockerArgv.AppendEnvArgs | crates/rtm-daemon/src/docker_argv.rs:111-116 | one `--env` pair per entry is pushed, in order |
| DockerArgv.BaseFlags | crates/rtm-daemon/src/docker_argv.rs:66-91 | what is pushed before the terminal flags is exactly the command's beginning |
| DockerArgv.AppendModeFlags | crates/rtm-daemon/src/docker_argv.rs:56-96 | the terminal flags and `--init` are pushed exactly where tmux and the profile ask for them |
| DockerArgv.DockerRunLaunch | crates/rtm-daemon/src/docker_argv.rs:16-64 | refuses exactly an empty command or an unplannable mount set, otherwise builds the command the round trip is about |
| DockerArgv.CommandIsBareName | crates/rtm-daemon/src/docker_argv.rs:36-109 | after the image comes the bare name of an absolute launcher, whatever its directory, or the launcher itself if it is not absolute, then the launch's own arguments |
| DockerArgv.ViewedCommand | crates/rtm-daemon/src/docker_argv.rs:36-109 | the same of the command as read back |
| DockerArgv.BindReadsBackIff | crates/rtm-daemon/src/docker_argv.rs:125-135 | a mount argument reads back with source, target and mode if and only if neither path holds a comma |
| DockerArgv.AutoBindReadsBackIff | crates/rtm-daemon/src/docker_argv.rs:85-88 | the automatic mount reads back if and only if the cwd holds no comma |
| DockerArgv.EnvReadsBackIff | crates/rtm-daemon/src/docker_argv.rs:111-116 | an entry splits back into key and value at the first `=` if and only if the key holds none |
| DockerArgv.EnvsReadBackIff | crates/rtm-daemon/src/docker_argv.rs:111-116 | the whole environment reads back in order if and only if no key holds an `=` |
| DockerArgv.DashImageLost | crates/rtm-daemon/src/docker_argv.rs:62-63 | an image that starts with a dash is never read as the image |
| DockerArgv.ArgvReadsBackIff | crates/rtm-daemon/src/docker_argv.rs:16-135 | reading the command by flag arity recovers switches, name, label, mounts, modes, environment entries, workdir, image and arguments if and only if paths are comma-free, keys hold no `=` and the image starts with no dash |
| DockerArgv.BindsAreEffective | crates/rtm-daemon/src/docker_argv.rs:84-89 | the binds read back, targets normalised, are the mounts the plan was made for |
| DockerArgv.AcceptedLaunchStartsInCwdIff | crates/rtm-daemon/src/docker_argv.rs:66-98 | from an accepted request to the binds read back from its command: the deepest of them resolves the workdir to the host working directory if and only if nothing shadows the selected mount |
| Codec.TmuxRoundTripIff | crates/rtm-core/src/types/spawn.rs:17-47 | a printed address parses back exactly when its session is not empty, whatever colons or dots it holds |
| Codec.ParseTmuxIff | crates/rtm-core/src/types/spawn.rs:23-47 | exactly the texts of a session, a last colon, two numbers and a dot are accepted |
| Codec.TargetSyntax | crates/rtm-core/src/types/spawn.rs:250-266 | the `tmux:` syntax names every address with a session |
| Codec.TargetForms | crates/rtm-core/src/types/spawn.rs:250-266 | the only other accepted target is the word headless |
| Codec.IsolationRoundTripIff | crates/rtm-core/src/isolation.rs:21-58 | every policy but a Docker profile with the empty name parses back |
| Codec.ParsedIsPrinted | crates/rtm-core/src/isolation.rs:36-58 | no isolation or runtime text is accepted but the one printed for the result |
| Codec.RuntimeRoundTripIff | crates/rtm-core/src/types/runtime.rs:15-45 | a runtime parses back if and only if it is not an other-runtime under a reserved or empty name |
| Codec.StateRoundTrip | crates/rtm-store/src/sqlite/lifecycle/codec.rs:122-164 | every state decodes to itself, with its exit or its evidence |
| Codec.TmuxColumnRoundTripIff | crates/rtm-store/src/sqlite/lifecycle/codec.rs:106-120 | a stored pane decodes to itself exactly when its session is not empty |
| Codec.PlainTmuxColumnDecodes | crates/rtm-store/src/sqlite/lifecycle/codec.rs:110-120 | a pane stored as plain text is still understood |
| Codec.RowRoundTripIff | crates/rtm-store/src/sqlite/lifecycle/codec.rs:56-92 | a row decodes to the lifecycle it came from, less log availability, if and only if runtime, isolation and pane are storable |
| Codec.DecodeRefuses | crates/rtm-store/src/sqlite/lifecycle/codec.rs:132-176 | numbers outside their type, unknown states and unknown loss evidence refuse the row |
| Codec.StoredRowsReadBack | crates/rtm-daemon/src/spawn_preflight.rs:83-106 | every row any run of the handlers stores reads back as itself |
| StartTime.NanosBelowSecond | crates/rtm-platform/src/process.rs:162-164 | the nanosecond part stays below one second for any tick rate |
| StartTime.IncreasingIffRateAtMostNano | crates/rtm-platform/src/process.rs:147-169 | conversion is strictly increasing on accepted inputs if and only if the rate is at most 10^9 |
| StartTime.ConversionInjective | crates/rtm-platform/src/process.rs:147-169 | two conversions of one boot are equal if and only if the ticks are |
| StartTime.ConversionIsFloor | crates/rtm-platform/src/process.rs:147-169 | the time is boot time plus ticks, rounded down to a nanosecond; it is given if and only if the rate is positive and the date in range, and an error replaces no answer exactly when the ticks or the date are refused |
| StartTime.TicksFoundForAnyName | crates/rtm-platform/src/process.rs:124-128 | the tick field is found for every process name, spaces and parentheses included, and for any one character skipped after it |
| StartTime.TicksRefused | crates/rtm-platform/src/process.rs:124-128 | without a closing parenthesis, a character after it or a twentieth word there is no start time |
| Reconcile.ReuseDetectedIffTicksDiffer | crates/rtm-daemon/src/reconcile.rs:203-237 | for a living pid with both times from tick conversion, reuse is reported if and only if the ticks differ |
| Reconcile.ReconcileOnce | crates/rtm-daemon/src/reconcile.rs:180-201 | the loop over the server object is the sweep over every Running row, in the order the store gave |
| Reconcile.ReconcileRow | crates/rtm-daemon/src/reconcile.rs:186-197 | one row is recorded lost, rewatched, or stops the sweep, as the sweep theorems say |
| Reconcile.ReachableIsSweepReady | crates/rtm-daemon/src/reconcile.rs:180-201 | the states handler runs reach meet what the sweep theorems assume |
| Reconcile.SweepReaches | crates/rtm-daemon/src/reconcile.rs:180-201 | after any part of a sweep exactly the visited dead rows are Lost and logged |
| Reconcile.SweepIsExact | crates/rtm-daemon/src/reconcile.rs:180-201 | a sweep completes if and only if no liveness is unknown and no watcher fails to start; it then turns exactly the dead Running rows into Lost, leaves all others and has every living session watched |
| Reconcile.SweepJudgesHost | crates/rtm-daemon/src/reconcile.rs:203-237 | a completed sweep stores a Running host session lost, with one event, exactly when its pid does not answer, is gone, answers no more on the second look, or has another start time |
| Reconcile.SweepJudgesOthers | crates/rtm-daemon/src/reconcile.rs:82-103 | a Running Docker session is lost exactly when its container does not run; rows that are not Running are left alone |
| Reconcile.SweepCompletesIff | crates/rtm-daemon/src/reconcile.rs:180-237 | with watchers that start, only a living pid whose start time cannot be read or a container that cannot be inspected stops a sweep |
| Reconcile.StoppedSweep | crates/rtm-daemon/src/reconcile.rs:185-198 | a stopped sweep has done exactly the rows before the one that stopped it |
| Reconcile.SweepDetectsReuse | crates/rtm-daemon/src/reconcile.rs:203-237 | a completed sweep turns a living host session into a loss by pid reuse if and only if its start ticks differ, and otherwise leaves its row alone |
| Reconcile.OneEventPerLoss | crates/rtm-daemon/src/reconcile.rs:186-191 | each lost session has one Lost event, every other session none |
| Reconcile.SecondSweepIsQuiet | crates/rtm-daemon/src/reconcile.rs:180-201 | under the same answers a second sweep always completes, emits nothing and changes no row |
| Reconcile.AdvanceTerminatesIff | crates/rtm-daemon/src/reconcile.rs:172-178 | a later grid point exists if and only if the interval is positive or the deadline is ahead |
| Reconcile.AdvanceDeadline | crates/rtm-daemon/src/reconcile.rs:172-178 | the least later point of the original grid, at most one interval past now when the deadline had come |
| Reconcile.TakeTurn | crates/rtm-daemon/src/reconcile.rs:151-166 | one turn sweeps exactly when due or resumed and sets the next deadline accordingly |
| Reconcile.RunPeriodic | crates/rtm-daemon/src/reconcile.rs:131-170 | after every turn the next deadline lies in (now, now + interval] |

## Left out

- Unix sockets, JSON lines, serde and the MCP bridge: a record's JSON is a pair of functions assumed inverse to each other, its text free of newlines and not ending in a carriage return.
- SQL text, sqlx, migrations, RFC 3339 and UUID text: the table is a map by session id; the text encodings are function pairs assumed to invert each other, JSON strings being assumed to end in a quote.
- tmux, docker and libc calls, kqueue and pidfd: their answers are parameters of the handlers, the sweep and the preflight.
- Path canonicalisation: an arbitrary partial function whose answers are assumed canonical; the file system does not change between two of its answers.
- Host paths are character strings: bytes that are not UTF-8 are not modelled.
- The kill escalation loop, shim reconnect backoff, pane occupancy, tmux target checks, image user and architecture checks, launcher lookup and the content of the path-shaped environment catalogue: short branches or parameters.
- `MountSpec` parsing and `~` expansion: the mounts are given parsed.
- Power loss of unsynced appends and recovery of a failed write: claims stop at process crashes.
- EventLogService.EventLog.Append: states the successful append; a failed one is modelled only in `LogRun` (abandoned compaction) and `LongPoll` (failure before notify).
- DockerArgv.ArgvReadsBackIff: the exactness is relative to this project's reader, which cuts a mount argument at every comma; docker reads it as a CSV record, where a double quote in a path matters too.
- EventLogService.EventWatcher.Seek: a plain assignment; a cursor the log never returned may lie ahead of it, and what a page does then is `EventLogs.PageCursorMovesBackIff`.
- Server.LifecycleStore.Get: the lookup, insert, update and delete of the store are map operations; what they keep is stated by `Handlers.RowIsOwnHistory`.
- LogRun.DeliveredSlices: assumes at most `u64::MAX` appends, where numbers stop identifying entries.
- LongPoll.NoLostWakeup: its entries carry unbounded numbers, equal to the saturating ones below `u64::MAX`, and any prefix may be compacted. An append that fails there is one whose sync fails: what a failed compaction leaves in memory is `LogRun.AbandonedMovesBackIff`.
- LogRun: the long poll's re-reads are further polls of one client; several clients share no state but the log.
- Handlers.EventsAreWellShaped: leaves out sessions cancelled after their shim reported, which needs a backend that fails and still starts a shim; and handlers run one at a time, which `Recorders` and `Spawns` drop and `SerialRecorders` connects.
- Handlers: the sweep enters runs as the losses it records, and starting a watcher can fail only as a stop.
- Server.LifecycleStore.Running: the order of the rows is left open, the SQL orders them.
- Reconcile.RunPeriodic: clock readings are given and do not run backwards; the shutdown signal and the poll interval are not modelled.
- Reconcile.ReconcileOnce: a failing store ends the sweep at the row it fails on and is not modelled, nor is the recorded sweep time.
- `log_availability` is computed for answers and never stored; the rows here do not carry it.
- Error texts: refusals are distinguished by kind only.
