/**
 Row storage: the process table and the thread table.

 Both tables are append-only sequences of rows; a row's position is its stable
 identifier (`upid` for processes, `utid` for threads). Row 0 of each table is
 the reserved "unknown" sentinel.
 */
module Tables {
  import opened Options

  /** An OS process or thread number (`uint32_t`). */
  type u32 = x: int | 0 <= x < 0x1_0000_0000

  /** A trace timestamp (`int64_t`). */
  type i64 = x: int | -0x8000_0000_0000_0000 <= x < 0x8000_0000_0000_0000

  /** A process name, compared by value (string interning is not modelled). */
  type Name = string

  /** One row of the process table. `startTs` is present only for processes
      observed being started. */
  datatype ProcessRow = ProcessRow(pid: u32, startTs: Option<i64>, parentPid: Option<u32>, name: Option<Name>)

  /** One row of the thread table. `upid` is absent while the row is provisional. */
  datatype ThreadRow = ThreadRow(tid: u32, upid: Option<nat>)

  /** The sentinel process row, upid 0. */
  const UnknownProcess := ProcessRow(0, None, None, None)

  /** The sentinel thread row, utid 0. */
  const UnknownThread := ThreadRow(0, None)

  /** The pid column of the process table. */
  function PidColumn(ps: seq<ProcessRow>): (c: seq<u32>)
    ensures |c| == |ps|
    ensures forall u :: 0 <= u < |ps| ==> c[u] == ps[u].pid
  {
    seq(|ps|, u requires 0 <= u < |ps| => ps[u].pid)
  }

  /** The tid column of the thread table. */
  function TidColumn(ts: seq<ThreadRow>): (c: seq<u32>)
    ensures |c| == |ts|
    ensures forall u :: 0 <= u < |ts| ==> c[u] == ts[u].tid
  {
    seq(|ts|, u requires 0 <= u < |ts| => ts[u].tid)
  }

  lemma PidColumnAppend(ps: seq<ProcessRow>, row: ProcessRow)
    ensures PidColumn(ps + [row]) == PidColumn(ps) + [row.pid]
  {
    assert forall u :: 0 <= u < |ps| ==> (ps + [row])[u] == ps[u];
  }

  lemma TidColumnAppend(ts: seq<ThreadRow>, row: ThreadRow)
    ensures TidColumn(ts + [row]) == TidColumn(ts) + [row.tid]
  {
    assert forall u :: 0 <= u < |ts| ==> (ts + [row])[u] == ts[u];
  }

  lemma PidColumnUpdate(ps: seq<ProcessRow>, u: nat, row: ProcessRow)
    requires u < |ps| && row.pid == ps[u].pid
    ensures PidColumn(ps[u := row]) == PidColumn(ps)
  {
  }

  lemma TidColumnUpdate(ts: seq<ThreadRow>, u: nat, row: ThreadRow)
    requires u < |ts| && row.tid == ts[u].tid
    ensures TidColumn(ts[u := row]) == TidColumn(ts)
  {
  }
}
