/**
 The process/thread identity tracker.

 It turns reused OS pids and tids into stable row numbers of the process and
 thread tables (`upid`, `utid`), keeping one reverse index from pid to upids
 and one from tid to utids. Every operation is a pure function from a tracker
 state to the next state and the row number it resolved.
 */
module ProcessTracker {
  import opened Options
  import opened Index
  import opened Tables

  datatype Tracker = Tracker(
    processes: seq<ProcessRow>,
    threads: seq<ThreadRow>,
    pidIdx: map<u32, seq<nat>>,
    tidIdx: map<u32, seq<nat>>)

  /** The state after an operation, with the upid or utid it resolved. */
  datatype Step = Step(t: Tracker, id: nat)

  /** A reverse index holds, for every key, exactly the rows of the table whose
      key column carries it, in creation order. */
  ghost predicate IndexMatches(idx: map<u32, seq<nat>>, keys: seq<u32>)
  {
    forall k :: KeyMatches(idx, keys, k)
  }

  /** The index entry for one key agrees with a scan of the key column. */
  ghost predicate KeyMatches(idx: map<u32, seq<nat>>, keys: seq<u32>, k: u32)
  {
    Range(idx, k) == Positions(keys, k)
  }

  /** Every resolved thread points at a real (non-sentinel) process row. */
  ghost predicate LinksInRange(threads: seq<ThreadRow>, processCount: nat)
  {
    forall u :: 0 <= u < |threads| && threads[u].upid.Some? ==> 0 < threads[u].upid.value < processCount
  }

  /** Well-formedness: the sentinel rows are in place, each reverse index agrees
      with its table, and every resolved thread points at a real process row. */
  ghost predicate Valid(t: Tracker)
  {
    && |t.processes| >= 1 && t.processes[0] == UnknownProcess
    && |t.threads| >= 1 && t.threads[0] == UnknownThread
    && IndexMatches(t.pidIdx, PidColumn(t.processes))
    && IndexMatches(t.tidIdx, TidColumn(t.threads))
    && LinksInRange(t.threads, |t.processes|)
  }

  /** How a later state relates to an earlier one: tables never shrink, a row
      never changes its pid or tid, and a resolved thread keeps its process. */
  ghost predicate Extends(t: Tracker, t': Tracker)
  {
    && |t.processes| <= |t'.processes|
    && |t.threads| <= |t'.threads|
    && (forall u :: 0 <= u < |t.processes| ==> t'.processes[u].pid == t.processes[u].pid)
    && (forall u :: 0 <= u < |t.threads| ==> t'.threads[u].tid == t.threads[u].tid)
    && (forall u :: 0 <= u < |t.threads| && t.threads[u].upid.Some? ==>
          t'.threads[u].upid == t.threads[u].upid)
  }

  lemma ExtendsTransitive(t: Tracker, t': Tracker, t'': Tracker)
    requires Extends(t, t') && Extends(t', t'')
    ensures Extends(t, t'')
  {
  }

  /** A fresh tracker: the two sentinel rows and empty indices. */
  function Init(): (t: Tracker)
    ensures Valid(t)
    ensures |t.processes| == 1 && |t.threads| == 1
    ensures forall pid :: UpidsForPid(t, pid) == []
    ensures forall tid :: UtidsForTid(t, tid) == []
  {
    Tracker([UnknownProcess], [UnknownThread], map[], map[])
  }

  // ---------------------------------------------------------------------------
  // Lookups

  /** Every upid ever created for `pid`, oldest first. */
  function UpidsForPid(t: Tracker, pid: u32): (r: seq<nat>)
    requires Valid(t)
    ensures forall i :: 0 <= i < |r| ==> 0 < r[i] < |t.processes| && t.processes[r[i]].pid == pid
    ensures forall i, j :: 0 <= i < j < |r| ==> r[i] < r[j]
    ensures forall u :: 0 < u < |t.processes| && t.processes[u].pid == pid ==> u in r
  {
    assert KeyMatches(t.pidIdx, PidColumn(t.processes), pid);
    Range(t.pidIdx, pid)
  }

  /** Every utid ever created for `tid`, oldest first. */
  function UtidsForTid(t: Tracker, tid: u32): (r: seq<nat>)
    requires Valid(t)
    ensures forall i :: 0 <= i < |r| ==> 0 < r[i] < |t.threads| && t.threads[r[i]].tid == tid
    ensures forall i, j :: 0 <= i < j < |r| ==> r[i] < r[j]
    ensures forall u :: 0 < u < |t.threads| && t.threads[u].tid == tid ==> u in r
  {
    assert KeyMatches(t.tidIdx, TidColumn(t.threads), tid);
    Range(t.tidIdx, tid)
  }

  /** The current process for `pid`: the most recently created row with that pid. */
  function CurrentUpid(t: Tracker, pid: u32): (r: Option<nat>)
    requires Valid(t)
    ensures r.Some? <==> exists u :: 0 < u < |t.processes| && t.processes[u].pid == pid
    ensures r.Some? ==> 0 < r.value < |t.processes| && t.processes[r.value].pid == pid
    ensures r.Some? ==> forall u :: r.value < u < |t.processes| ==> t.processes[u].pid != pid
  {
    var s := UpidsForPid(t, pid);
    assert forall u :: 0 < u < |t.processes| && t.processes[u].pid == pid ==> u <= s[|s| - 1] by {
      forall u | 0 < u < |t.processes| && t.processes[u].pid == pid
        ensures u <= s[|s| - 1]
      {
        assert u in s;
        var i :| 0 <= i < |s| && s[i] == u;
        assert i == |s| - 1 || s[i] < s[|s| - 1];
      }
    }
    Latest(s)
  }

  /** The current thread for `tid`: the most recently created row with that tid. */
  function CurrentUtid(t: Tracker, tid: u32): (r: Option<nat>)
    requires Valid(t)
    ensures r.Some? <==> exists u :: 0 < u < |t.threads| && t.threads[u].tid == tid
    ensures r.Some? ==> 0 < r.value < |t.threads| && t.threads[r.value].tid == tid
    ensures r.Some? ==> forall u :: r.value < u < |t.threads| ==> t.threads[u].tid != tid
  {
    var s := UtidsForTid(t, tid);
    assert forall u :: 0 < u < |t.threads| && t.threads[u].tid == tid ==> u <= s[|s| - 1] by {
      forall u | 0 < u < |t.threads| && t.threads[u].tid == tid
        ensures u <= s[|s| - 1]
      {
        assert u in s;
        var i :| 0 <= i < |s| && s[i] == u;
        assert i == |s| - 1 || s[i] < s[|s| - 1];
      }
    }
    Latest(s)
  }

  /** Whether some thread row is attached to process `upid`. */
  predicate HasThread(t: Tracker, upid: nat)
  {
    exists u :: 0 < u < |t.threads| && t.threads[u].upid == Some(upid)
  }

  // ---------------------------------------------------------------------------
  // Appending rows

  lemma AppendProcessValid(t: Tracker, row: ProcessRow, t': Tracker)
    requires Valid(t)
    requires t' == t.(processes := t.processes + [row],
                      pidIdx := t.pidIdx[row.pid := Range(t.pidIdx, row.pid) + [|t.processes|]])
    ensures Valid(t')
  {
    PidColumnAppend(t.processes, row);
    forall pid
      ensures KeyMatches(t'.pidIdx, PidColumn(t'.processes), pid)
    {
      assert KeyMatches(t.pidIdx, PidColumn(t.processes), pid);
      PositionsSnoc(PidColumn(t.processes), row.pid, pid);
    }
  }

  /** Appends a process row and registers it as the newest upid of its pid. */
  function AppendProcess(t: Tracker, row: ProcessRow): (r: Step)
    requires Valid(t)
    ensures Valid(r.t) && Extends(t, r.t)
    ensures r.id == |t.processes| && r.t.processes == t.processes + [row]
    ensures r.t.threads == t.threads && r.t.tidIdx == t.tidIdx
    ensures UpidsForPid(r.t, row.pid) == UpidsForPid(t, row.pid) + [r.id]
    ensures forall pid :: pid != row.pid ==> UpidsForPid(r.t, pid) == UpidsForPid(t, pid)
  {
    var n := |t.processes|;
    var t' := t.(processes := t.processes + [row],
                 pidIdx := t.pidIdx[row.pid := Range(t.pidIdx, row.pid) + [n]]);
    AppendProcessValid(t, row, t');
    Step(t', n)
  }

  lemma AppendThreadValid(t: Tracker, row: ThreadRow, t': Tracker)
    requires Valid(t)
    requires row.upid.Some? ==> 0 < row.upid.value < |t.processes|
    requires t' == t.(threads := t.threads + [row],
                      tidIdx := t.tidIdx[row.tid := Range(t.tidIdx, row.tid) + [|t.threads|]])
    ensures Valid(t')
  {
    TidColumnAppend(t.threads, row);
    forall tid
      ensures KeyMatches(t'.tidIdx, TidColumn(t'.threads), tid)
    {
      assert KeyMatches(t.tidIdx, TidColumn(t.threads), tid);
      PositionsSnoc(TidColumn(t.threads), row.tid, tid);
    }
  }

  /** Appends a thread row and registers it as the newest utid of its tid. */
  function AppendThread(t: Tracker, row: ThreadRow): (r: Step)
    requires Valid(t)
    requires row.upid.Some? ==> 0 < row.upid.value < |t.processes|
    ensures Valid(r.t) && Extends(t, r.t)
    ensures r.id == |t.threads| && r.t.threads == t.threads + [row]
    ensures r.t.processes == t.processes && r.t.pidIdx == t.pidIdx
    ensures UtidsForTid(r.t, row.tid) == UtidsForTid(t, row.tid) + [r.id]
    ensures forall tid :: tid != row.tid ==> UtidsForTid(r.t, tid) == UtidsForTid(t, tid)
  {
    var n := |t.threads|;
    var t' := t.(threads := t.threads + [row],
                 tidIdx := t.tidIdx[row.tid := Range(t.tidIdx, row.tid) + [n]]);
    AppendThreadValid(t, row, t');
    Step(t', n)
  }

  /** Replaces process row `u` by a row with the same pid; indices are unchanged. */
  function ReplaceProcess(t: Tracker, u: nat, row: ProcessRow): (r: Tracker)
    requires Valid(t) && 0 < u < |t.processes| && row.pid == t.processes[u].pid
    ensures Valid(r) && Extends(t, r)
    ensures r.processes == t.processes[u := row]
    ensures r.threads == t.threads && r.pidIdx == t.pidIdx && r.tidIdx == t.tidIdx
  {
    PidColumnUpdate(t.processes, u, row);
    t.(processes := t.processes[u := row])
  }

  /** Replaces thread row `u` by a row with the same tid that keeps any process
      the old row was attached to; indices are unchanged. */
  function ReplaceThread(t: Tracker, u: nat, row: ThreadRow): (r: Tracker)
    requires Valid(t) && 0 < u < |t.threads| && row.tid == t.threads[u].tid
    requires t.threads[u].upid.Some? ==> row.upid == t.threads[u].upid
    requires row.upid.Some? ==> 0 < row.upid.value < |t.processes|
    ensures Valid(r) && Extends(t, r)
    ensures r.threads == t.threads[u := row]
    ensures r.processes == t.processes && r.pidIdx == t.pidIdx && r.tidIdx == t.tidIdx
  {
    TidColumnUpdate(t.threads, u, row);
    t.(threads := t.threads[u := row])
  }

  // ---------------------------------------------------------------------------
  // Processes

  /** The current process for `pid`, created (with every other field absent)
      when `pid` has never been seen. */
  function GetOrCreateProcess(t: Tracker, pid: u32): (r: Step)
    requires Valid(t)
    ensures Valid(r.t) && Extends(t, r.t)
    ensures CurrentUpid(r.t, pid) == Some(r.id)
    ensures r.t.threads == t.threads && r.t.tidIdx == t.tidIdx
    ensures CurrentUpid(t, pid).Some? ==> r.t == t
    ensures CurrentUpid(t, pid).None? ==>
      && r.id == |t.processes|
      && r.t.processes == t.processes + [ProcessRow(pid, None, None, None)]
  {
    match CurrentUpid(t, pid)
    case Some(upid) => Step(t, upid)
    case None => AppendProcess(t, ProcessRow(pid, None, None, None))
  }

  /** A process observed being started: always a new process instance, which
      becomes the current process for `pid` and records `ts` as its start. */
  function StartNewProcess(t: Tracker, ts: i64, parentPid: u32, pid: u32): (r: Step)
    requires Valid(t)
    ensures Valid(r.t) && Extends(t, r.t)
    ensures r.id == |t.processes| && CurrentUpid(r.t, pid) == Some(r.id)
    ensures r.t.processes[r.id].startTs == Some(ts)
    ensures r.t.processes[r.id].parentPid == Some(parentPid)
    ensures r.t.processes[..|t.processes|] == t.processes && r.t.threads == t.threads
    ensures UpidsForPid(r.t, pid) == UpidsForPid(t, pid) + [r.id]
    ensures forall q :: q != pid ==> UpidsForPid(r.t, q) == UpidsForPid(t, q)
  {
    AppendProcess(t, ProcessRow(pid, Some(ts), Some(parentPid), None))
  }

  /** A name announcement for `pid`. Repeating the current name changes nothing;
      a different name overwrites the current row's name in place; an unseen pid
      gets a new row. The start timestamp is never set here. */
  function SetProcessMetadata(t: Tracker, pid: u32, parentPid: Option<u32>, name: Name): (r: Step)
    requires Valid(t)
    ensures Valid(r.t) && Extends(t, r.t)
    ensures CurrentUpid(r.t, pid) == Some(r.id)
    ensures r.t.processes[r.id].name == Some(name)
    ensures r.t.threads == t.threads && r.t.tidIdx == t.tidIdx
    ensures forall u :: 0 <= u < |r.t.processes| ==>
      r.t.processes[u].startTs == (if u < |t.processes| then t.processes[u].startTs else None)
    ensures forall u :: 0 <= u < |t.processes| && u != r.id ==> r.t.processes[u] == t.processes[u]
    ensures CurrentUpid(t, pid).Some? ==>
      r.id == CurrentUpid(t, pid).value && |r.t.processes| == |t.processes| && r.t.pidIdx == t.pidIdx
    ensures CurrentUpid(t, pid).Some? && t.processes[CurrentUpid(t, pid).value].name == Some(name) ==>
      r.t == t
    ensures CurrentUpid(t, pid).None? ==>
      r.id == |t.processes| && r.t.processes == t.processes + [ProcessRow(pid, None, parentPid, Some(name))]
  {
    match CurrentUpid(t, pid)
    case None => AppendProcess(t, ProcessRow(pid, None, parentPid, Some(name)))
    case Some(upid) =>
      var row := t.processes[upid];
      if row.name == Some(name) then Step(t, upid)
      else
        var row' := row.(name := Some(name),
                         parentPid := if parentPid.Some? then parentPid else row.parentPid);
        Step(ReplaceProcess(t, upid, row'), upid)
  }

  // ---------------------------------------------------------------------------
  // Threads

  /** The current thread for `tid`, created provisionally (no process) when
      `tid` has never been seen. This is the effect the scheduler importer has
      on the tracker when it meets a tid in a context switch. */
  function GetOrCreateThread(t: Tracker, tid: u32): (r: Step)
    requires Valid(t)
    ensures Valid(r.t) && Extends(t, r.t)
    ensures CurrentUtid(r.t, tid) == Some(r.id)
    ensures r.t.processes == t.processes && r.t.pidIdx == t.pidIdx
    ensures CurrentUtid(t, tid).Some? ==> r.t == t
    ensures CurrentUtid(t, tid).None? ==>
      r.id == |t.threads| && r.t.threads == t.threads + [ThreadRow(tid, None)]
  {
    match CurrentUtid(t, tid)
    case Some(utid) => Step(t, utid)
    case None => AppendThread(t, ThreadRow(tid, None))
  }

  /** Whether the current thread for `tid` can take process `upid` without a
      new row: it is provisional or already attached to `upid`. */
  predicate Attachable(t: Tracker, tid: u32, upid: nat)
    requires Valid(t)
  {
    match CurrentUtid(t, tid)
    case None => false
    case Some(u) => t.threads[u].upid.None? || t.threads[u].upid == Some(upid)
  }

  /** Attaches thread `tid` to process `upid`: a provisional current row is
      attached in place, a row already attached to `upid` is reused, and
      otherwise (no row, or a row of another process) a new row is appended. */
  function AttachThread(t: Tracker, tid: u32, upid: nat): (r: Step)
    requires Valid(t) && 0 < upid < |t.processes|
    ensures Valid(r.t) && Extends(t, r.t)
    ensures r.t.processes == t.processes && r.t.pidIdx == t.pidIdx
    ensures CurrentUtid(r.t, tid) == Some(r.id)
    ensures r.t.threads[r.id] == ThreadRow(tid, Some(upid))
    ensures r.id < |t.threads| <==> Attachable(t, tid, upid)
    ensures r.id < |t.threads| ==> r.id == CurrentUtid(t, tid).value && |r.t.threads| == |t.threads|
    ensures r.id >= |t.threads| ==> r.id == |t.threads| && |r.t.threads| == |t.threads| + 1
    ensures forall u :: 0 <= u < |t.threads| && u != r.id ==> r.t.threads[u] == t.threads[u]
    ensures forall q :: q != tid ==> UtidsForTid(r.t, q) == UtidsForTid(t, q)
  {
    var current := CurrentUtid(t, tid);
    if current.Some? && t.threads[current.value].upid.None? then
      Step(ReplaceThread(t, current.value, ThreadRow(tid, Some(upid))), current.value)
    else if current.Some? && t.threads[current.value].upid == Some(upid) then
      Step(t, current.value)
    else
      AppendThread(t, ThreadRow(tid, Some(upid)))
  }

  /** Gives process `upid` (whose pid is `pid`) its main thread, a thread whose
      tid is the pid, unless some thread is already attached to it. */
  function EnsureMainThread(t: Tracker, pid: u32, upid: nat): (r: Tracker)
    requires Valid(t) && 0 < upid < |t.processes| && t.processes[upid].pid == pid
    ensures Valid(r) && Extends(t, r)
    ensures r.processes == t.processes && r.pidIdx == t.pidIdx
    ensures HasThread(t, upid) ==> r == t
    ensures !HasThread(t, upid) ==>
      exists u :: 0 < u < |r.threads| && r.threads[u] == ThreadRow(pid, Some(upid))
    ensures |r.threads| <= |t.threads| + 1
    ensures forall u :: 0 <= u < |t.threads| && t.threads[u].tid != pid ==> r.threads[u] == t.threads[u]
    ensures forall q :: q != pid ==> UtidsForTid(r, q) == UtidsForTid(t, q)
  {
    if HasThread(t, upid) then t
    else
      var a := AttachThread(t, pid, upid);
      assert a.t.threads[a.id] == ThreadRow(pid, Some(upid));
      a.t
  }

  /** Records that thread `tid` belongs to process `pid`: resolves (or creates)
      the process, gives it a main thread if it has no thread yet, then attaches
      `tid` to it. */
  function UpdateThread(t: Tracker, tid: u32, pid: u32): (r: Step)
    requires Valid(t)
    ensures Valid(r.t) && Extends(t, r.t)
    ensures CurrentUtid(r.t, tid) == Some(r.id)
    ensures CurrentUpid(r.t, pid).Some?
    ensures r.t.threads[r.id] == ThreadRow(tid, Some(CurrentUpid(r.t, pid).value))
    ensures CurrentUpid(t, pid).Some? ==> CurrentUpid(r.t, pid) == CurrentUpid(t, pid)
    ensures |r.t.threads| <= |t.threads| + 2
    ensures forall u :: 0 <= u < |t.threads| && t.threads[u].tid != tid && t.threads[u].tid != pid ==>
      r.t.threads[u] == t.threads[u]
    ensures forall q :: q != tid && q != pid ==> UtidsForTid(r.t, q) == UtidsForTid(t, q)
  {
    var p := GetOrCreateProcess(t, pid);
    var m := EnsureMainThread(p.t, pid, p.id);
    var r := AttachThread(m, tid, p.id);
    ExtendsTransitive(t, p.t, m);
    ExtendsTransitive(t, m, r.t);
    assert r.t.processes == p.t.processes && r.t.pidIdx == p.t.pidIdx;
    assert CurrentUpid(r.t, pid) == CurrentUpid(p.t, pid) == Some(p.id);
    assert p.t.threads == t.threads && p.t.tidIdx == t.tidIdx;
    r
  }
}
