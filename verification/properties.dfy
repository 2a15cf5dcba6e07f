/**
 Properties of the tracker that relate several operations, or an operation to
 the tables as a whole.
 */
module TrackerProperties {
  import opened Options
  import opened Index
  import opened Tables
  import opened ProcessTracker

  // ---------------------------------------------------------------------------
  // Processes

  /** Asking twice for the process of a pid, with nothing in between, gives the
      same upid and the second call changes nothing. */
  lemma GetOrCreateProcessIdempotent(t: Tracker, pid: u32)
    requires Valid(t)
    ensures var a := GetOrCreateProcess(t, pid);
      GetOrCreateProcess(a.t, pid) == a
  {
  }

  /** A started process is the one later lookups of its pid resolve to, and its
      row carries the start timestamp. */
  lemma StartNewProcessThenGet(t: Tracker, ts: i64, parentPid: u32, pid: u32)
    requires Valid(t)
    ensures var s := StartNewProcess(t, ts, parentPid, pid);
      && GetOrCreateProcess(s.t, pid) == s
      && s.t.processes[s.id].startTs == Some(ts)
  {
  }

  /** Repeating a name announcement for the same pid neither adds a row nor
      changes the state, whatever parent it names. */
  lemma SetProcessMetadataIdempotent(t: Tracker, pid: u32, parentPid: Option<u32>, parentPid': Option<u32>, name: Name)
    requires Valid(t)
    ensures var a := SetProcessMetadata(t, pid, parentPid, name);
      SetProcessMetadata(a.t, pid, parentPid', name) == a
  {
  }

  /** Announcing two unseen pids creates two rows, in call order, each the only
      entry of its own pid's index range. */
  lemma SetProcessMetadataDistinctPids(t: Tracker, p: u32, q: u32, name: Name, name': Name)
    requires Valid(t) && p != q
    requires UpidsForPid(t, p) == [] && UpidsForPid(t, q) == []
    ensures var a := SetProcessMetadata(t, p, None, name);
      var b := SetProcessMetadata(a.t, q, None, name');
      && a.id == |t.processes| && b.id == a.id + 1
      && UpidsForPid(b.t, p) == [a.id]
      && UpidsForPid(b.t, q) == [b.id]
  {
    var a := SetProcessMetadata(t, p, None, name);
    var b := SetProcessMetadata(a.t, q, None, name');
    assert UpidsForPid(a.t, q) == [];
  }

  // ---------------------------------------------------------------------------
  // Threads

  /** UpdateThread changes the process table only through GetOrCreateProcess:
      not at all when the pid is tracked, by one bare row otherwise. Start
      timestamps in particular are never touched. */
  lemma UpdateThreadProcesses(t: Tracker, tid: u32, pid: u32)
    requires Valid(t)
    ensures var r := UpdateThread(t, tid, pid);
      && (CurrentUpid(t, pid).Some? ==> r.t.processes == t.processes)
      && (CurrentUpid(t, pid).None? ==> r.t.processes == t.processes + [ProcessRow(pid, None, None, None)])
  {
    var p := GetOrCreateProcess(t, pid);
    var m := EnsureMainThread(p.t, pid, p.id);
    var r := AttachThread(m, tid, p.id);
    assert r.t.processes == m.processes == p.t.processes;
  }

  /** A process that had no thread gets a main thread: a row whose tid is the
      pid, attached to the process. */
  lemma UpdateThreadMainThread(t: Tracker, tid: u32, pid: u32)
    requires Valid(t)
    ensures var r := UpdateThread(t, tid, pid);
      var upid := CurrentUpid(r.t, pid).value;
      !HasThread(t, upid) ==>
        exists u :: 0 < u < |r.t.threads| && r.t.threads[u] == ThreadRow(pid, Some(upid))
  {
    var p := GetOrCreateProcess(t, pid);
    var m := EnsureMainThread(p.t, pid, p.id);
    var r := AttachThread(m, tid, p.id);
    if !HasThread(t, p.id) {
      assert !HasThread(p.t, p.id);
      var u :| 0 < u < |m.threads| && m.threads[u] == ThreadRow(pid, Some(p.id));
      assert r.t.threads[u] == ThreadRow(pid, Some(p.id));
    }
  }

  /** The merge path: a provisional current row for the tid is attached in
      place, so the call returns that row and no duplicate is made for it. */
  lemma UpdateThreadMerges(t: Tracker, tid: u32, pid: u32, u: nat)
    requires Valid(t)
    requires CurrentUtid(t, tid) == Some(u) && t.threads[u].upid.None?
    ensures UpdateThread(t, tid, pid).id == u
  {
    var p := GetOrCreateProcess(t, pid);
    assert CurrentUtid(p.t, tid) == Some(u) by {
      assert UtidsForTid(p.t, tid) == UtidsForTid(t, tid);
    }
    var m := EnsureMainThread(p.t, pid, p.id);
    if tid != pid {
      assert UtidsForTid(m, tid) == UtidsForTid(p.t, tid);
      assert m.threads[u] == t.threads[u];
    } else if !HasThread(p.t, p.id) {
      var a := AttachThread(p.t, pid, p.id);
      assert a.id == u && m == a.t;
    }
    assert CurrentUtid(m, tid) == Some(u);
    assert Attachable(m, tid, p.id);
  }

  /** Repeating UpdateThread for the same tid and pid returns the same utid and
      changes nothing. */
  lemma UpdateThreadIdempotent(t: Tracker, tid: u32, pid: u32)
    requires Valid(t)
    ensures var a := UpdateThread(t, tid, pid);
      UpdateThread(a.t, tid, pid) == a
  {
    var a := UpdateThread(t, tid, pid);
    var upid := CurrentUpid(a.t, pid).value;
    assert GetOrCreateProcess(a.t, pid) == Step(a.t, upid);
    assert HasThread(a.t, upid) by {
      assert a.t.threads[a.id].upid == Some(upid);
    }
    assert AttachThread(a.t, tid, upid) == Step(a.t, a.id);
  }

  /** A tid seen again under a different process gets a new row; the row bound
      to the first process keeps its binding. */
  lemma UpdateThreadTidReuse(t: Tracker, tid: u32, p1: u32, p2: u32)
    requires Valid(t) && p1 != p2
    ensures var a := UpdateThread(t, tid, p1);
      var b := UpdateThread(a.t, tid, p2);
      && b.id != a.id
      && b.t.threads[a.id] == a.t.threads[a.id]
  {
    var a := UpdateThread(t, tid, p1);
    var b := UpdateThread(a.t, tid, p2);
    var u1 := CurrentUpid(a.t, p1).value;
    var u2 := CurrentUpid(b.t, p2).value;
    assert b.t.processes[u1].pid == p1;
    assert b.t.threads[a.id].upid == Some(u1);
  }

  /** Only a tid's newest row is examined, so a tid that comes back to its
      first process after being seen under another one gets a second row with
      the same tid and process as its first. */
  lemma UpdateThreadReturnDuplicates(t: Tracker, tid: u32, p1: u32, p2: u32)
    requires Valid(t) && p1 != p2
    ensures var a := UpdateThread(t, tid, p1);
      var b := UpdateThread(a.t, tid, p2);
      var c := UpdateThread(b.t, tid, p1);
      && c.id != a.id
      && c.t.threads[c.id] == c.t.threads[a.id] == a.t.threads[a.id]
  {
    var a := UpdateThread(t, tid, p1);
    var b := UpdateThread(a.t, tid, p2);
    var c := UpdateThread(b.t, tid, p1);
    UpdateThreadTidReuse(t, tid, p1, p2);
    var u1 := CurrentUpid(a.t, p1).value;
    assert CurrentUpid(b.t, p1) == Some(u1) by {
      UpdateThreadProcesses(a.t, tid, p2);
    }
    assert CurrentUpid(c.t, p1) == Some(u1);
    assert c.t.threads[a.id] == a.t.threads[a.id];
    assert c.id != a.id by {
      assert b.id > a.id || b.id < a.id;
      assert c.id == b.id || c.id >= |b.t.threads|;
    }
  }

  /** On a process and tids never seen before, UpdateThread appends exactly a
      main-thread row and the requested row, both attached to the new process. */
  lemma UpdateThreadFresh(t: Tracker, tid: u32, pid: u32)
    requires Valid(t) && tid != pid
    requires UpidsForPid(t, pid) == [] && UtidsForTid(t, pid) == [] && UtidsForTid(t, tid) == []
    ensures var r := UpdateThread(t, tid, pid);
      var n := |t.processes|;
      && r.t.processes == t.processes + [ProcessRow(pid, None, None, None)]
      && r.t.threads == t.threads + [ThreadRow(pid, Some(n)), ThreadRow(tid, Some(n))]
      && r.id == |t.threads| + 1
  {
    var n := |t.processes|;
    var p := GetOrCreateProcess(t, pid);
    assert !HasThread(p.t, n);
    var m := EnsureMainThread(p.t, pid, n);
    var a := AttachThread(p.t, pid, n);
    assert m == a.t;
    assert m.threads == t.threads + [ThreadRow(pid, Some(n))];
    assert UtidsForTid(m, tid) == [];
    UpdateThreadProcesses(t, tid, pid);
  }

  // ---------------------------------------------------------------------------
  // History

  /** Rows are never removed and never re-keyed, so every pid's and tid's
      history of row numbers only grows at the end. */
  lemma ExtendsKeepsHistory(t: Tracker, t': Tracker, pid: u32, tid: u32)
    requires Valid(t) && Valid(t') && Extends(t, t')
    ensures UpidsForPid(t, pid) <= UpidsForPid(t', pid)
    ensures UtidsForTid(t, tid) <= UtidsForTid(t', tid)
  {
    assert KeyMatches(t.pidIdx, PidColumn(t.processes), pid);
    assert KeyMatches(t'.pidIdx, PidColumn(t'.processes), pid);
    assert PidColumn(t.processes) == PidColumn(t'.processes)[..|t.processes|];
    PositionsPrefix(PidColumn(t.processes), PidColumn(t'.processes), pid);
    assert KeyMatches(t.tidIdx, TidColumn(t.threads), tid);
    assert KeyMatches(t'.tidIdx, TidColumn(t'.threads), tid);
    assert TidColumn(t.threads) == TidColumn(t'.threads)[..|t.threads|];
    PositionsPrefix(TidColumn(t.threads), TidColumn(t'.threads), tid);
  }
}
