/**
 A stream of tracker calls, as importers issue them one after another, and its
 replay. Whatever the calls, the tracker stays well formed, only grows, and
 never hands out a sentinel row.
 */
module EventStream {
  import opened Options
  import opened Tables
  import opened ProcessTracker
  import TrackerProperties

  /** One call into the tracker. */
  datatype Call =
    | GetOrCreateProcessCall(pid: u32)
    | StartNewProcessCall(ts: i64, parentPid: u32, startedPid: u32)
    | SetProcessMetadataCall(namedPid: u32, metaParent: Option<u32>, name: Name)
    | GetOrCreateThreadCall(tid: u32)
    | UpdateThreadCall(threadTid: u32, ownerPid: u32)

  /** Performs one call. The resolved row is never a sentinel and carries the
      pid or tid the call asked about. */
  function Apply(t: Tracker, c: Call): (r: Step)
    requires Valid(t)
    ensures Valid(r.t) && Extends(t, r.t)
    ensures r.id > 0
    ensures c.GetOrCreateProcessCall? ==> r.id < |r.t.processes| && r.t.processes[r.id].pid == c.pid
    ensures c.StartNewProcessCall? ==> r.id < |r.t.processes| && r.t.processes[r.id].pid == c.startedPid
    ensures c.SetProcessMetadataCall? ==> r.id < |r.t.processes| && r.t.processes[r.id].pid == c.namedPid
    ensures c.GetOrCreateThreadCall? ==> r.id < |r.t.threads| && r.t.threads[r.id].tid == c.tid
    ensures c.UpdateThreadCall? ==> r.id < |r.t.threads| && r.t.threads[r.id].tid == c.threadTid
  {
    match c
    case GetOrCreateProcessCall(pid) => GetOrCreateProcess(t, pid)
    case StartNewProcessCall(ts, parentPid, pid) => StartNewProcess(t, ts, parentPid, pid)
    case SetProcessMetadataCall(pid, parentPid, name) => SetProcessMetadata(t, pid, parentPid, name)
    case GetOrCreateThreadCall(tid) => GetOrCreateThread(t, tid)
    case UpdateThreadCall(tid, pid) => UpdateThread(t, tid, pid)
  }

  /** Performs the calls in order. */
  function Replay(t: Tracker, calls: seq<Call>): (r: Tracker)
    requires Valid(t)
    ensures Valid(r) && Extends(t, r)
    decreases |calls|
  {
    if |calls| == 0 then t else Replay(Apply(t, calls[0]).t, calls[1..])
  }

  /** Whatever the calls, every pid's and tid's history of rows is kept: later
      states only add row numbers at the end. */
  lemma ReplayKeepsHistory(t: Tracker, calls: seq<Call>, pid: u32, tid: u32)
    requires Valid(t)
    ensures UpidsForPid(t, pid) <= UpidsForPid(Replay(t, calls), pid)
    ensures UtidsForTid(t, tid) <= UtidsForTid(Replay(t, calls), tid)
  {
    TrackerProperties.ExtendsKeepsHistory(t, Replay(t, calls), pid, tid);
  }
}
