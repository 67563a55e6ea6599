/**
 * Audit retention: deleting a prefix of the chain in batches, and pruning the runs
 * that surviving events refer to. A batch is any 5000 rows below the boundary, so
 * between batches the chain may have holes; other transactions may append meanwhile.
 */
module AuditRetention {
  import opened Options
  import opened AuditChain

  const BATCH := 5000
  const MAX_POSITION := 0x7fff_ffff_ffff_ffff

  /** Chain positions order the rows, as a `bigint` sequence hands them out. */
  ghost predicate Ordered(rows: seq<Event>) {
    && (forall i, j :: 0 <= i < j < |rows| ==> rows[i].position < rows[j].position)
    && (forall i :: 0 <= i < |rows| ==> 0 < rows[i].position < MAX_POSITION)
  }

  /** `min(chain_position)` of the rows inside the window, or `i64::MAX` when there is none. */
  function KeepBoundary(rows: seq<Event>, cutoff: int): int {
    if rows == [] then MAX_POSITION
    else if rows[0].createdUs >= cutoff then rows[0].position
    else KeepBoundary(rows[1..], cutoff)
  }

  /** The rows at or beyond a position. */
  function From(rows: seq<Event>, boundary: int): seq<Event> {
    if rows == [] then []
    else if rows[0].position >= boundary then [rows[0]] + From(rows[1..], boundary)
    else From(rows[1..], boundary)
  }

  /** The positions a batch may delete. */
  function Below(rows: seq<Event>, boundary: int): set<int> {
    set i | 0 <= i < |rows| && rows[i].position < boundary :: rows[i].position
  }

  predicate AllBelow(positions: set<int>, boundary: int) {
    forall p :: p in positions ==> p < boundary
  }

  /** `delete from audit_events where ctid in (..)`. */
  function Delete(rows: seq<Event>, batch: set<int>): seq<Event> {
    if rows == [] then []
    else if rows[0].position in batch then Delete(rows[1..], batch)
    else [rows[0]] + Delete(rows[1..], batch)
  }

  function Concat(chunks: seq<seq<Event>>): seq<Event> {
    if chunks == [] then [] else chunks[0] + Concat(chunks[1..])
  }

  // ------------------------------------------------------------- the batches

  lemma SubsetOfSize(s: set<int>, n: nat) returns (t: set<int>)
    requires n <= |s|
    ensures t <= s && |t| == n
  {
    if n == |s| {
      t := s;
    } else {
      var x := Element(s);
      t := SubsetOfSize(s - {x}, n);
    }
  }

  lemma {:induction false} DeleteKeepsBeyond(rows: seq<Event>, batch: set<int>, boundary: int)
    requires AllBelow(batch, boundary)
    ensures From(Delete(rows, batch), boundary) == From(rows, boundary)
  {
    if rows != [] {
      DeleteKeepsBeyond(rows[1..], batch, boundary);
      if rows[0].position !in batch { assert Delete(rows, batch)[1..] == Delete(rows[1..], batch); }
    }
  }

  lemma {:induction false} DeleteAllBelow(rows: seq<Event>, boundary: int, batch: set<int>)
    requires AllBelow(batch, boundary)
    requires forall i :: 0 <= i < |rows| && rows[i].position < boundary ==> rows[i].position in batch
    ensures Delete(rows, batch) == From(rows, boundary)
  {
    if rows != [] { DeleteAllBelow(rows[1..], boundary, batch); }
  }

  lemma SubsetOfFullSize(a: set<int>, b: set<int>)
    requires a <= b && |a| == |b|
    ensures a == b
  {
    assert |b - a| == |b| - |a|;
    assert b - a == {};
  }

  lemma DeleteRest(rows: seq<Event>, boundary: int, batch: set<int>)
    requires batch <= Below(rows, boundary) && |batch| == |Below(rows, boundary)|
    ensures Delete(rows, batch) == From(rows, boundary)
  {
    SubsetOfFullSize(batch, Below(rows, boundary));
    DeleteAllBelow(rows, boundary, batch);
  }

  lemma {:induction false} DeleteShrinks(rows: seq<Event>, batch: set<int>)
    ensures |Delete(rows, batch)| <= |rows|
    ensures (exists i :: 0 <= i < |rows| && rows[i].position in batch) ==> |Delete(rows, batch)| < |rows|
  {
    if rows != [] { DeleteShrinks(rows[1..], batch); }
  }

  lemma {:induction false} FromConcat(a: seq<Event>, b: seq<Event>, boundary: int)
    ensures From(a + b, boundary) == From(a, boundary) + From(b, boundary)
  {
    if a == [] {
      assert a + b == b;
    } else {
      assert (a + b)[1..] == a[1..] + b;
      FromConcat(a[1..], b, boundary);
    }
  }

  lemma {:induction false} FromAll(rows: seq<Event>, boundary: int)
    ensures forall i :: 0 <= i < |From(rows, boundary)| ==> From(rows, boundary)[i].position >= boundary
  {
    if rows != [] { FromAll(rows[1..], boundary); }
  }

  lemma {:induction false} ConcatOneMore(chunks: seq<seq<Event>>, n: nat)
    requires n < |chunks|
    ensures Concat(chunks[..n + 1]) == Concat(chunks[..n]) + chunks[n]
  {
    if n == 0 {
      assert chunks[..1][1..] == [];
    } else {
      ConcatOneMore(chunks[1..], n - 1);
      assert chunks[..n + 1][1..] == chunks[1..][..n];
      assert chunks[..n][1..] == chunks[1..][..n - 1];
    }
  }

  /** The rows that arrive before a batch change nothing of the invariants of the loop. */
  lemma Arrives(initial: seq<Event>, rows: seq<Event>, seen: seq<Event>, arrivals: seq<seq<Event>>, n: nat, keep: int)
    requires n < |arrivals| && seen == initial + Concat(arrivals[..n])
    requires From(rows, keep) == From(seen, keep)
    ensures seen + arrivals[n] == initial + Concat(arrivals[..n + 1])
    ensures From(rows + arrivals[n], keep) == From(seen + arrivals[n], keep)
  {
    FromConcat(rows, arrivals[n], keep);
    FromConcat(seen, arrivals[n], keep);
    ConcatOneMore(arrivals, n);
  }

  class AuditTable {
    var rows: seq<Event>

    /**
     * The audit part of `apply_security_retention`. `arrivals[n]` are the rows other
     * transactions commit before batch `n`; `seen` collects every row that was ever in the table.
     */
    method DeleteExpired(cutoff: int, arrivals: seq<seq<Event>>) returns (ghost seen: seq<Event>, ghost boundary: int)
      modifies this
      ensures boundary == KeepBoundary(old(rows), cutoff)
      ensures rows == From(seen, boundary)
      ensures exists n :: 0 <= n <= |arrivals| && seen == old(rows) + Concat(arrivals[..n])
    {
      var keep := KeepBoundary(rows, cutoff);
      boundary := keep;
      seen := rows;
      var n := 0;
      assert arrivals[..0] == [] && rows + [] == rows;
      while true
        invariant n <= |arrivals| && seen == old(rows) + Concat(arrivals[..n])
        invariant From(rows, keep) == From(seen, keep)
        decreases |arrivals| - n, |rows|
      {
        if n < |arrivals| {
          Arrives(old(rows), rows, seen, arrivals, n, keep);
          rows, seen := rows + arrivals[n], seen + arrivals[n];
          n := n + 1;
        }
        var expired := Below(rows, keep);
        var size := if |expired| < BATCH then |expired| else BATCH;
        ghost var some := SubsetOfSize(expired, size);
        var batch: set<int> :| batch <= expired && |batch| == size;
        DeleteKeepsBeyond(rows, batch, keep);
        DeleteShrinks(rows, batch);
        if |batch| < BATCH {
          DeleteRest(rows, keep, batch);
          rows := Delete(rows, batch);
          return;
        }
        ghost var p := Element(batch);
        rows := Delete(rows, batch);
      }
    }
  }

  // ------------------------------------------------------------ main results

  lemma {:induction false} FromEverything(rows: seq<Event>, boundary: int)
    requires forall i :: 0 <= i < |rows| ==> rows[i].position >= boundary
    ensures From(rows, boundary) == rows
  {
    if rows != [] { FromEverything(rows[1..], boundary); }
  }

  /** In position order, what remains is a suffix of the table. */
  lemma {:induction false} FromIsSuffix(rows: seq<Event>, boundary: int) returns (k: nat)
    requires forall i, j :: 0 <= i < j < |rows| ==> rows[i].position < rows[j].position
    ensures k <= |rows| && From(rows, boundary) == rows[k..]
  {
    if rows == [] {
      k := 0;
    } else if rows[0].position >= boundary {
      k := 0;
      forall i | 0 <= i < |rows| ensures rows[i].position >= boundary {
        if i > 0 { assert rows[0].position < rows[i].position; }
      }
      FromEverything(rows, boundary);
    } else {
      k := FromIsSuffix(rows[1..], boundary);
      assert rows[1..][k..] == rows[k + 1..];
      k := k + 1;
    }
  }

  /** A suffix of an intact chain is intact: the first row may name a hash that is gone. */
  lemma {:induction false} SuffixIsIntact(rows: seq<Event>, k: nat, latest: Option<Hash>)
    requires k <= |rows| && Scan(rows, latest).broken.None?
    ensures Intact(rows[k..])
  {
    if k > 0 {
      SuffixIsIntact(rows[1..], k - 1, if rows[0].hash.Some? then rows[0].hash else latest);
      assert rows[1..][k - 1..] == rows[k..];
    } else {
      assert rows[0..] == rows;
      FirstRowIsFree(rows, latest);
    }
  }

  lemma {:induction false} FirstRowIsFree(rows: seq<Event>, latest: Option<Hash>)
    requires Scan(rows, latest).broken.None?
    ensures Scan(rows, None).broken.None?
  {
    if rows != [] && rows[0].hash.None? { FirstRowIsFree(rows[1..], latest); }
  }

  /** Retention leaves exactly a chain-position suffix of everything that was in the table, and it still verifies. */
  lemma RetentionKeepsIntact(seen: seq<Event>, boundary: int)
    requires Intact(seen) && forall i, j :: 0 <= i < j < |seen| ==> seen[i].position < seen[j].position
    ensures Intact(From(seen, boundary))
  {
    var k := FromIsSuffix(seen, boundary);
    SuffixIsIntact(seen, k, None);
  }

  lemma {:induction false} BoundaryIsLeast(rows: seq<Event>, cutoff: int)
    requires Ordered(rows)
    ensures forall i :: 0 <= i < |rows| && rows[i].createdUs >= cutoff ==>
      rows[i].position >= KeepBoundary(rows, cutoff)
    ensures KeepBoundary(rows, cutoff) == MAX_POSITION <==> forall i :: 0 <= i < |rows| ==> rows[i].createdUs < cutoff
    ensures KeepBoundary(rows, cutoff) != MAX_POSITION ==>
      exists i :: 0 <= i < |rows| && rows[i].createdUs >= cutoff && rows[i].position == KeepBoundary(rows, cutoff)
  {
    if rows != [] {
      BoundaryIsLeast(rows[1..], cutoff);
      forall i | 0 <= i < |rows| && rows[i].createdUs >= cutoff ensures rows[i].position >= KeepBoundary(rows, cutoff) {
        if i > 0 { assert rows[i] == rows[1..][i - 1]; }
      }
      if rows[0].createdUs >= cutoff {
        assert KeepBoundary(rows, cutoff) == rows[0].position < MAX_POSITION;
      } else {
        if KeepBoundary(rows, cutoff) != MAX_POSITION {
          var i :| 0 <= i < |rows[1..]| && rows[1..][i].createdUs >= cutoff
            && rows[1..][i].position == KeepBoundary(rows[1..], cutoff);
          assert rows[i + 1] == rows[1..][i];
        }
        forall i | 0 <= i < |rows| && KeepBoundary(rows, cutoff) == MAX_POSITION ensures rows[i].createdUs < cutoff {
          if i > 0 { assert rows[i] == rows[1..][i - 1]; }
        }
      }
    }
  }

  /** No row inside the window is lost: none of those present, and none of those that arrived. */
  ghost predicate WindowKept(seen: seq<Event>, boundary: int, cutoff: int) {
    forall i :: 0 <= i < |seen| && seen[i].createdUs >= cutoff ==> seen[i].position >= boundary
  }

  /**
   * Retention deletes nothing inside the window exactly when some row was inside it at
   * the start, or nothing inside it arrived during the run: without such a row the
   * boundary is the largest position there is, and arrivals lie below it.
   */
  lemma WindowIsKeptExactly(before: seq<Event>, arrived: seq<Event>, cutoff: int)
    requires Ordered(before + arrived)
    ensures WindowKept(before + arrived, KeepBoundary(before, cutoff), cutoff) <==>
      || (exists i :: 0 <= i < |before| && before[i].createdUs >= cutoff)
      || (forall i :: 0 <= i < |arrived| ==> arrived[i].createdUs < cutoff)
  {
    var seen, b := before + arrived, KeepBoundary(before, cutoff);
    assert forall i :: 0 <= i < |before| ==> before[i] == seen[i];
    assert forall i :: 0 <= i < |arrived| ==> arrived[i] == seen[|before| + i];
    assert Ordered(before);
    BoundaryIsLeast(before, cutoff);
    if b != MAX_POSITION {
      var w :| 0 <= w < |before| && before[w].createdUs >= cutoff && before[w].position == b;
      forall i | 0 <= i < |seen| && seen[i].createdUs >= cutoff ensures seen[i].position >= b {
        if i < |before| { assert seen[i] == before[i]; } else { assert seen[w].position < seen[i].position; }
      }
    } else if WindowKept(seen, b, cutoff) {
      forall i | 0 <= i < |arrived| ensures arrived[i].createdUs < cutoff {
        assert seen[|before| + i].position < MAX_POSITION;
      }
    } else {
      var i :| 0 <= i < |seen| && seen[i].createdUs >= cutoff && seen[i].position < b;
      assert i >= |before|;
      assert arrived[i - |before|] == seen[i];
    }
  }

  /** What an interrupted run may leave: some rows below its boundary are gone. */
  ghost predicate Interrupted(part: seq<Event>, rows: seq<Event>, cutoff: int) {
    exists gone: set<int> :: part == Delete(rows, gone) && AllBelow(gone, KeepBoundary(rows, cutoff))
  }

  lemma {:induction false} DeleteBoundary(rows: seq<Event>, gone: set<int>, bound: int, cutoff: int)
    requires AllBelow(gone, bound)
    requires forall i :: 0 <= i < |rows| && rows[i].createdUs >= cutoff ==> rows[i].position >= bound
    requires bound <= MAX_POSITION
    ensures KeepBoundary(Delete(rows, gone), cutoff) == KeepBoundary(rows, cutoff)
    ensures KeepBoundary(rows, cutoff) >= bound
  {
    if rows != [] {
      DeleteBoundary(rows[1..], gone, bound, cutoff);
      if rows[0].position !in gone { assert Delete(rows, gone)[1..] == Delete(rows[1..], gone); }
    }
  }

  /**
   * A run interrupted between batches may leave holes; any later run whose cutoff is no
   * earlier ends where it would have ended on the untouched table, so the holes are gone.
   */
  lemma LaterRunHeals(part: seq<Event>, rows: seq<Event>, cutoff: int, later: int)
    requires Ordered(rows) && Interrupted(part, rows, cutoff) && cutoff <= later
    ensures From(part, KeepBoundary(part, later)) == From(rows, KeepBoundary(rows, later))
    ensures Intact(rows) ==> Intact(From(part, KeepBoundary(part, later)))
  {
    var bound := KeepBoundary(rows, cutoff);
    var gone: set<int> :| part == Delete(rows, gone) && AllBelow(gone, bound);
    BoundaryIsLeast(rows, cutoff);
    DeleteBoundary(rows, gone, bound, later);
    DeleteKeepsBeyond(rows, gone, KeepBoundary(rows, later));
    if Intact(rows) { RetentionKeepsIntact(rows, KeepBoundary(rows, later)); }
  }

  // ------------------------------------------------------------- run pruning

  /** Deleting runs, and with them their jobs, nulls the references of surviving events. */
  function Unlink(e: Event, runs: set<string>, jobs: set<string>): Event {
    e.(core := e.core.(
      runId := if e.core.runId.Some? && e.core.runId.value in runs then None else e.core.runId,
      jobId := if e.core.jobId.Some? && e.core.jobId.value in jobs then None else e.core.jobId))
  }

  function UnlinkAll(rows: seq<Event>, runs: set<string>, jobs: set<string>): seq<Event> {
    if rows == [] then [] else [Unlink(rows[0], runs, jobs)] + UnlinkAll(rows[1..], runs, jobs)
  }

  /** The event names a run or a job that is pruned. */
  predicate NamesPruned(e: Event, runs: set<string>, jobs: set<string>) {
    || (e.core.runId.Some? && e.core.runId.value in runs)
    || (e.core.jobId.Some? && e.core.jobId.value in jobs)
  }

  lemma ChangedCoreMismatches(e: Event, core: Core, latest: Option<Hash>)
    requires e.hash.Some? && Check(e, latest).Ok? && Printed(core) != Printed(e.core)
    ensures Check(e.(core := core), latest) == Err(Payload)
  {
    var v := Check(e, latest).value;
    assert Reproduces(e.version.value, e, SuffixOf(v));
    var d := e.(core := core);
    assert forall s :: !Reproduces(e.version.value, d, s);
  }

  /** Both references are hashed: after pruning the chain verifies exactly if no hashed event names a pruned one. */
  lemma {:induction false} PruningRunsExactly(
      rows: seq<Event>, runs: set<string>, jobs: set<string>, latest: Option<Hash>)
    requires Scan(rows, latest).broken.None?
    ensures Scan(UnlinkAll(rows, runs, jobs), latest).broken.None? <==>
      forall i :: 0 <= i < |rows| && rows[i].hash.Some? ==> !NamesPruned(rows[i], runs, jobs)
  {
    if rows != [] {
      var e := rows[0];
      var u := Unlink(e, runs, jobs);
      var next := if e.hash.Some? then e.hash else latest;
      PruningRunsExactly(rows[1..], runs, jobs, next);
      assert UnlinkAll(rows, runs, jobs)[1..] == UnlinkAll(rows[1..], runs, jobs);
      assert forall i :: 0 < i < |rows| ==> rows[i] == rows[1..][i - 1];
      if e.hash.Some? && u != e {
        ChangedCoreMismatches(e, u.core, latest);
      } else {
        assert Scan(UnlinkAll(rows, runs, jobs), latest).broken == Scan(UnlinkAll(rows[1..], runs, jobs), next).broken;
      }
    }
  }
}
