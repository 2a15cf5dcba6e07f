/**
 Reverse indices from a raw OS number (pid or tid) to the rows created for it.

 An index maps a key to the sequence of row numbers ever appended for that key,
 in creation order, so that the "current" row for a key is the last entry.
 `Positions` is the reference definition such an index must agree with: a scan
 of the table's key column.
 */
module Index {
  import opened Options

  /** The row numbers `u`, `1 <= u < |keys|`, whose key is `k`, in increasing
      order. Row 0 is the reserved sentinel and is never reported. */
  function Positions<K(==)>(keys: seq<K>, k: K): (r: seq<nat>)
    ensures forall i :: 0 <= i < |r| ==> 1 <= r[i] < |keys| && keys[r[i]] == k
    ensures forall i, j :: 0 <= i < j < |r| ==> r[i] < r[j]
    ensures forall u :: 1 <= u < |keys| && keys[u] == k ==> u in r
    decreases |keys|
  {
    if |keys| <= 1 then []
    else
      var n := |keys| - 1;
      Positions(keys[..n], k) + (if keys[n] == k then [n] else [])
  }

  /** The entries an index holds for `k` (empty when `k` was never seen). */
  function Range<K>(idx: map<K, seq<nat>>, k: K): (r: seq<nat>)
    ensures k in idx ==> r == idx[k]
    ensures k !in idx ==> r == []
  {
    if k in idx then idx[k] else []
  }

  /** The most recent entry of an index range. */
  function Latest(s: seq<nat>): (r: Option<nat>)
    ensures r.Some? <==> |s| > 0
    ensures r.Some? ==> r.value == s[|s| - 1]
  {
    if |s| == 0 then None else Some(s[|s| - 1])
  }

  /** Appending one row to a table appends at most one position for each key. */
  lemma PositionsSnoc<K>(keys: seq<K>, x: K, k: K)
    requires |keys| >= 1
    ensures Positions(keys + [x], k) == Positions(keys, k) + (if x == k then [|keys|] else [])
  {
    assert (keys + [x])[..|keys|] == keys;
  }

  /** A table that only grew keeps every key's earlier positions as a prefix. */
  lemma {:induction false} PositionsPrefix<K>(a: seq<K>, b: seq<K>, k: K)
    requires |a| <= |b| && a == b[..|a|]
    ensures Positions(a, k) <= Positions(b, k)
    decreases |b|
  {
    if |a| == |b| {
      assert a == b;
    } else if |b| <= 1 {
    } else {
      var n := |b| - 1;
      assert a == b[..n][..|a|];
      PositionsPrefix(a, b[..n], k);
    }
  }
}
