# Process/thread identity tracker — a Dafny model

This project models the process/thread identity tracker of the Perfetto trace
processor (`ProcessTracker`). OS pids and tids are reused over the course of a
trace, so the tracker gives every process instance a stable row number in the
process table (`upid`) and every thread instance a stable row number in the
thread table (`utid`). It keeps two reverse indices: pid → the upids created
for it, and tid → the utids created for it. In each index, the last entry is
the "current" row for that key.

The model is functional. A `Tracker` value holds the two tables (`seq` of
rows) and the two indices (`map` from key to `seq` of row numbers). Each
operation is a pure function that returns the next tracker and the row number
it resolved.

- `options.dfy` defines `Options.Option`, used for the nullable columns.
- `index.dfy` defines `Index.Positions`. It is the reference definition an index
  range must agree with: the ascending positions of a key in a table's key
  column, skipping the sentinel row 0.
- `tables.dfy` defines the row types, the sentinel rows, and the pid/tid columns.
  `u32` and `i64` are subset types that match the source's `uint32_t` pids/tids
  and `int64_t` timestamps.
- `tracker.dfy` defines:
  - the tracker state and its well-formedness predicate `Valid`. The sentinel
    rows are in place, each index range equals `Positions` of its key, and
    every attached thread points at a real process.
  - `Extends`, which says how a later state relates to an earlier one. Tables
    never shrink, rows keep their pid/tid, and an attached thread keeps its
    process.
  - the lookups and the operations.
- `properties.dfy` holds lemmas that relate several calls: idempotence, merge,
  tid reuse, main-thread creation and retained history.
- `events.dfy` defines an arbitrary stream of tracker calls and its replay,
  which keeps `Valid` and `Extends`.
- `scenarios.dfy` replays each unit test of the tracker on a fresh tracker.

The implementation (`src/trace_processor/process_tracker.h`, included at
`process_tracker_unittest.cc:17`, and its `.cc`) is not part of this model. The
behaviour modelled is the one the unit tests fix. The unit tests leave six
cases open. For each, the model picks one simple rule; none is claimed as
source behaviour:

- **`StartNewProcess` on a pid that is already tracked.** The model always
  appends a fresh row, which becomes the pid's current process. This rule is
  what gives a pid more than one upid. Reusing and updating the existing row
  would also satisfy every test.
- **`SetProcessMetadata` with a new name for a pid that is already tracked.**
  The tests only announce each pid once, or twice with identical arguments.
  The model renames the pid's current row in place and keeps its upid; a
  parent pid given in the call replaces the stored one, and an absent one
  keeps it. For example, announcing pid 1 as "x" and then as "y" leaves two
  process rows, with row 1 named "y".
- **`SetProcessMetadata` repeating the current name with a new parent pid.**
  The model treats any announcement whose name equals the current row's name
  as a no-op, so the new parent pid is dropped. For example, announcing pid 1
  as "x", then as "x" with parent 5, leaves row 1's parent absent.
  `TrackerProperties.SetProcessMetadataIdempotent` states this for any parent.
- **`UpdateThread` for a tid whose current row is attached to a different
  process.** The model appends a new row and leaves the old binding alone.
  Only the tid's current (newest) row is examined.
- **The scheduler importer's effect** (`PushSchedSwitch`). Each switch is
  modelled by `GetOrCreateThread` of its incoming tid. That call returns the
  tid's current row, or appends a provisional row (one with no process) if
  the tid was never seen. So the two switches leave tid 4 in row 1 and tid 1
  in row 2; registering both tids, incoming first, gives the same state.
- **A process's main thread.** It is attached with the same rule as any other
  thread. On a fresh tracker, `UpdateThread(12, 2)` therefore gives row 1 to
  the main thread (tid 2) and row 2 to tid 12. This follows the order in the
  test's comment.

## Model

| member | source | states |
|---|---|---|
| ProcessTracker.Init | src/trace_processor/process_tracker_unittest.cc:119-120 | a fresh tracker is well formed, holds only the sentinel row in each table, and every pid and tid has an empty history |
| ProcessTracker.UpidsForPid | src/trace_processor/process_tracker_unittest.cc:70-72 | the pid's index range holds exactly the non-sentinel process rows with that pid, each in range, in creation order |
| ProcessTracker.UtidsForTid | src/trace_processor/process_tracker_unittest.cc:122-123 | the tid's index range holds exactly the non-sentinel thread rows with that tid, each in range, in creation order |
| ProcessTracker.CurrentUpid | src/trace_processor/process_tracker_unittest.cc:56-57 | the current process exists iff some row has the pid, and it is the newest such row |
| ProcessTracker.CurrentUtid | src/trace_processor/process_tracker_unittest.cc:122-123 | the current thread exists iff some row has the tid, and it is the newest such row |
| ProcessTracker.AppendProcess | src/trace_processor/process_tracker_unittest.cc:75-82 | a new process row gets the next dense upid and becomes the last entry of its own pid's range, leaving every other pid's range untouched |
| ProcessTracker.AppendThread | src/trace_processor/process_tracker_unittest.cc:119-123 | a new thread row gets the next dense utid and becomes the last entry of its own tid's range, leaving every other tid's range untouched |
| ProcessTracker.ReplaceProcess | src/trace_processor/process_tracker_unittest.cc:67-89 | an in-place update of a process row that keeps its pid keeps the tracker valid, leaves the thread table and both indices unchanged, and changes no other process row |
| ProcessTracker.ReplaceThread | src/trace_processor/process_tracker_unittest.cc:110-111 | an in-place update of a thread row that keeps its tid and any existing binding keeps the tracker valid |
| ProcessTracker.GetOrCreateProcess | src/trace_processor/process_tracker_unittest.cc:54-58 | the result is the pid's current upid afterwards; a tracked pid leaves the state unchanged, an unseen pid gets one bare row; threads are never touched |
| ProcessTracker.StartNewProcess | src/trace_processor/process_tracker_unittest.cc:60-65 | the started process is a new row that becomes the pid's current process, with the given start timestamp and parent; old rows and other pids are unchanged |
| ProcessTracker.SetProcessMetadata | src/trace_processor/process_tracker_unittest.cc:67-89 | the pid's current row carries the name afterwards; a tracked pid adds no row and no index entry; a repeated name changes nothing; no start timestamp is ever set; no other row changes |
| ProcessTracker.GetOrCreateThread | src/trace_processor/process_tracker_unittest.cc:100-105 | the result is the tid's current utid; an unseen tid gets one provisional row with no process; processes are never touched |
| ProcessTracker.AttachThread | src/trace_processor/process_tracker_unittest.cc:108-111 | the tid's current row is attached to the process; an existing row is reused exactly when it is provisional or already attached there, otherwise exactly one row is appended; no other row or tid changes |
| ProcessTracker.EnsureMainThread | src/trace_processor/process_tracker_unittest.cc:119-124 | a process with no thread gets a row with tid equal to its pid attached to it; one that already has a thread is left as it is; no other tid changes |
| ProcessTracker.UpdateThread | src/trace_processor/process_tracker_unittest.cc:116-128 | the returned row is the tid's current thread and is attached to the pid's current process; a tracked pid keeps its current process; at most two thread rows are added; every other tid keeps its rows and its index range |
| TrackerProperties.GetOrCreateProcessIdempotent | src/trace_processor/process_tracker_unittest.cc:54-58 | a second GetOrCreateProcess for the same pid returns the same upid and the same state |
| TrackerProperties.StartNewProcessThenGet | src/trace_processor/process_tracker_unittest.cc:60-65 | after StartNewProcess, GetOrCreateProcess for that pid returns the started upid without change, and the row's start timestamp is the one given |
| TrackerProperties.SetProcessMetadataIdempotent | src/trace_processor/process_tracker_unittest.cc:67-73 | repeating a name announcement for the same pid returns the same upid and leaves the state unchanged |
| TrackerProperties.SetProcessMetadataDistinctPids | src/trace_processor/process_tracker_unittest.cc:75-82 | announcing two unseen pids gives consecutive upids in call order, each the sole entry of its pid's range |
| TrackerProperties.UpdateThreadProcesses | src/trace_processor/process_tracker_unittest.cc:107-113 | UpdateThread leaves the process table unchanged for a tracked pid and appends one bare row otherwise, so start timestamps stay absent |
| TrackerProperties.UpdateThreadMainThread | src/trace_processor/process_tracker_unittest.cc:119-124 | after UpdateThread, a process that had no thread has a row with tid equal to its pid attached to it |
| TrackerProperties.UpdateThreadMerges | src/trace_processor/process_tracker_unittest.cc:108-111 | when the tid's current row is provisional, UpdateThread returns that row, so it is attached in place and not duplicated |
| TrackerProperties.UpdateThreadIdempotent | src/trace_processor/process_tracker_unittest.cc:116-128 | repeating UpdateThread for the same tid and pid returns the same utid and the same state |
| TrackerProperties.UpdateThreadTidReuse | src/trace_processor/process_tracker_unittest.cc:116-128 | the same tid under a different pid gets a different row, and the first row keeps its binding |
| TrackerProperties.UpdateThreadReturnDuplicates | src/trace_processor/process_tracker_unittest.cc:116-128 | a tid seen under pid p1, then p2, then p1 again gets a second row equal to its first; this is the duplicate recorded under Left out |
| TrackerProperties.UpdateThreadFresh | src/trace_processor/process_tracker_unittest.cc:116-128 | for an unseen pid and tid, exactly one process row and two thread rows (main thread, then the tid) are appended, both attached to the new process |
| TrackerProperties.ExtendsKeepsHistory | src/trace_processor/process_tracker_unittest.cc:67-82 | whenever the tables only grow and keep their keys, every pid's and tid's index range only grows at the end |
| Index.PositionsPrefix | src/trace_processor/process_tracker_unittest.cc:67-82 | a table that only grew keeps each key's earlier positions as a prefix of its positions |
| EventStream.Apply | src/trace_processor/process_tracker_unittest.cc:47-128 | every tracker call keeps the tracker valid, only extends it, never returns a sentinel row, and returns a row carrying the pid or tid it was asked about |
| EventStream.Replay | src/trace_processor/process_tracker_unittest.cc:91-114 | any sequence of tracker calls keeps the tracker valid and only extends it |
| EventStream.ReplayKeepsHistory | src/trace_processor/process_tracker_unittest.cc:91-114 | after any sequence of calls, every pid's and tid's earlier history is a prefix of its new history |
| TrackerScenarios.PushProcessScenario | src/trace_processor/process_tracker_unittest.cc:47-52 | on a fresh tracker, SetProcessMetadata(1, none, "test") makes pid 1's range exactly [1] |
| TrackerScenarios.GetOrCreateNewProcessScenario | src/trace_processor/process_tracker_unittest.cc:54-58 | GetOrCreateProcess(123) twice gives the same upid |
| TrackerScenarios.StartNewProcessScenario | src/trace_processor/process_tracker_unittest.cc:60-65 | after StartNewProcess(1000, 0, 123), GetOrCreateProcess(123) returns the same upid, whose start timestamp is 1000 |
| TrackerScenarios.SamePidAndNameScenario | src/trace_processor/process_tracker_unittest.cc:67-73 | two identical announcements for pid 1 leave pid 1's range exactly [1] and two process rows |
| TrackerScenarios.DifferentPidScenario | src/trace_processor/process_tracker_unittest.cc:75-82 | announcing pids 1 then 3 gives ranges [1] and [2] |
| TrackerScenarios.CorrectNameScenario | src/trace_processor/process_tracker_unittest.cc:84-89 | after announcing pid 1 as "test", process row 1's name is "test" |
| TrackerScenarios.UpdateThreadMatchScenario | src/trace_processor/process_tracker_unittest.cc:91-114 | with provisional rows for tids 4 and 1, announcing pid 2 then UpdateThread(4, 2) attaches row 1 (tid 4) in place to upid 1, whose pid is 2 and whose start timestamp is absent |
| TrackerScenarios.UpdateThreadCreateScenario | src/trace_processor/process_tracker_unittest.cc:116-128 | on a fresh tracker, UpdateThread(12, 2) leaves 3 thread rows and 2 process rows, non-empty ranges for tid 12 and pid 2, and thread row 1 attached to upid 1 |

## Left out

- `src/trace_processor/process_tracker.h` and its implementation are not part of this model. The model follows the behaviour the unit tests fix, plus the chosen rules listed above.
- The test fixture is left out: `TraceStorage`, `GlobalArgsTracker`, `ArgsTracker`, `EventTracker` and the tracker context. It is setup only.
- The scheduler importer's internals are left out: cpu, priority, prev_state, timestamps and slice bookkeeping. Only its net effect on the tracker is modelled, as `GetOrCreateThread`.
- String interning is not modelled. Names are strings compared by value. Equal strings intern to equal ids, so the comparison gives the same result.
- The `uid` argument of `StartNewProcess` is dropped, because nothing observable depends on it.
- Thread names (comm strings) are left out, because no test observes them.
- Parent pids are stored raw. They are not resolved to a parent upid.
- ProcessTracker.AttachThread: never re-binds a thread that is already attached to a process; a tid seen under another process gets a new row instead. Re-binding an attached row to another process is not modelled.
- ProcessTracker.SetProcessMetadata: the renaming of a tracked pid and the dropped parent on a repeated name are rules this model chooses (listed above); no test fixes either, so neither is claimed as source behaviour.
- ProcessTracker.UpdateThread: looks only at the tid's newest row. A tid that returns to an earlier process after being seen under another one therefore gets a duplicate row. For example, `UpdateThread` for tid 7 with pids 1, then 2, then 1 leaves two rows `ThreadRow(7, Some(1))`. `TrackerProperties.UpdateThreadIdempotent` covers back-to-back calls only; `TrackerProperties.UpdateThreadReturnDuplicates` proves the duplicate.
- upids and utids are unbounded `nat`. Overflow of the 32-bit row counters is not modelled, because a trace cannot hold 2^32 rows.
- Concurrency, persistence and the query layer are left out. They are not part of the tracker.
