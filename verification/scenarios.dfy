/**
 The tracker's unit tests, each replayed on a fresh tracker.
 */
module TrackerScenarios {
  import opened Options
  import opened Tables
  import opened ProcessTracker
  import TrackerProperties

  /** Announcing pid 1 registers upid 1, the first row after the sentinel. */
  lemma PushProcessScenario()
    ensures var s := SetProcessMetadata(Init(), 1, None, "test");
      UpidsForPid(s.t, 1) == [1]
  {
  }

  /** Two lookups of pid 123 give the same upid. */
  lemma GetOrCreateNewProcessScenario()
    ensures var a := GetOrCreateProcess(Init(), 123);
      GetOrCreateProcess(a.t, 123).id == a.id
  {
  }

  /** A started process is found again by pid and carries its start time. */
  lemma StartNewProcessScenario()
    ensures var s := StartNewProcess(Init(), 1000, 0, 123);
      && GetOrCreateProcess(s.t, 123).id == s.id
      && s.t.processes[s.id].startTs == Some(1000)
  {
    TrackerProperties.StartNewProcessThenGet(Init(), 1000, 0, 123);
  }

  /** The same announcement twice leaves exactly one upid, 1, for pid 1. */
  lemma SamePidAndNameScenario()
    ensures var a := SetProcessMetadata(Init(), 1, None, "test");
      var b := SetProcessMetadata(a.t, 1, None, "test");
      && UpidsForPid(b.t, 1) == [1]
      && |b.t.processes| == 2
  {
    TrackerProperties.SetProcessMetadataIdempotent(Init(), 1, None, None, "test");
  }

  /** Announcing pids 1 then 3 gives them upids 1 and 2. */
  lemma DifferentPidScenario()
    ensures var a := SetProcessMetadata(Init(), 1, None, "test");
      var b := SetProcessMetadata(a.t, 3, None, "test");
      && UpidsForPid(b.t, 1) == [1]
      && UpidsForPid(b.t, 3) == [2]
  {
    TrackerProperties.SetProcessMetadataDistinctPids(Init(), 1, 3, "test", "test");
  }

  /** The announced name lands in process row 1. */
  lemma CorrectNameScenario()
    ensures var s := SetProcessMetadata(Init(), 1, None, "test");
      |s.t.processes| == 2 && s.t.processes[1].name == Some("test")
  {
  }

  /** Context switches leave provisional rows for tids 4 and 1; after pid 2 is
      announced, UpdateThread(4, 2) attaches row 1 in place to process 1, whose
      start time stays absent. */
  lemma UpdateThreadMatchScenario()
    ensures var a := GetOrCreateThread(Init(), 4);
      var b := GetOrCreateThread(a.t, 1);
      var c := SetProcessMetadata(b.t, 2, None, "test");
      var d := UpdateThread(c.t, 4, 2);
      && |d.t.threads| > 1 && |d.t.processes| > 1
      && d.id == 1
      && d.t.threads[1] == ThreadRow(4, Some(1))
      && d.t.processes[1].pid == 2
      && d.t.processes[1].startTs == None
  {
    var a := GetOrCreateThread(Init(), 4);
    var b := GetOrCreateThread(a.t, 1);
    assert UtidsForTid(a.t, 1) == [];
    var c := SetProcessMetadata(b.t, 2, None, "test");
    assert CurrentUtid(c.t, 4) == Some(1);
    TrackerProperties.UpdateThreadMerges(c.t, 4, 2, 1);
    TrackerProperties.UpdateThreadProcesses(c.t, 4, 2);
  }

  /** On a fresh tracker UpdateThread(12, 2) yields the sentinel, pid 2's main
      thread and tid 12 as threads, and the sentinel and pid 2 as processes. */
  lemma UpdateThreadCreateScenario()
    ensures var r := UpdateThread(Init(), 12, 2);
      && |r.t.threads| == 3
      && UtidsForTid(r.t, 12) != []
      && r.t.threads[1].upid == Some(1)
      && UpidsForPid(r.t, 2) != []
      && |r.t.processes| == 2
  {
    TrackerProperties.UpdateThreadFresh(Init(), 12, 2);
  }
}
