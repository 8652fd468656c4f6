// Counting a log in bounded holds while it grows (crates/ehdb-feed/src/fenced_engine.rs).

module ChunkedFold {
  import opened Basics
  import opened Groups

  /** How long the log is at each successive hold of the lock: it only grows. */
  ghost predicate Grows(sizes: seq<nat>, log: seq<Record>) {
    && (forall i, j | 0 <= i < j < |sizes| :: sizes[i] <= sizes[j])
    && (forall i | 0 <= i < |sizes| :: sizes[i] <= |log|)
  }

  lemma {:induction false} TailSplit(a: seq<Record>, b: seq<Record>, cursor: nat)
    ensures TailAfter(a + b, cursor) == TailAfter(a, cursor) + TailAfter(b, cursor)
  {
    if a == [] {
      assert a + b == b;
    } else {
      assert (a + b)[1..] == a[1..] + b;
      TailSplit(a[1..], b, cursor);
    }
  }

  lemma {:induction false} TailGrows(a: seq<Record>, b: seq<Record>, cursor: nat)
    requires a <= b
    ensures TailAfter(a, cursor) <= TailAfter(b, cursor)
  {
    assert b == a + b[|a|..];
    TailSplit(a, b[|a|..], cursor);
  }

  /** Reading on from the last key of a batch continues exactly where the batch ended. */
  lemma {:induction false} TailContinues(log: seq<Record>, after: nat, n: nat)
    requires AscendingLog(log) && 0 < n <= |TailAfter(log, after)|
    ensures TailAfter(log, TailAfter(log, after)[n - 1].key) == TailAfter(log, after)[n..]
  {
    var t := TailAfter(log, after);
    var rest := TailAfter(log[1..], after);
    if log[0].key <= after {
      TailContinues(log[1..], after, n);
      TailMembers(log[1..], after, rest[n - 1]);
    } else if n == 1 {
      TailAll(log[1..], log[0].key);
      TailAll(log[1..], after);
      assert t == [log[0]] + rest && t[1..] == rest;
    } else {
      assert t == [log[0]] + rest && t[n - 1] == rest[n - 2] && t[n..] == rest[n - 1..];
      TailContinues(log[1..], after, n - 1);
      TailMembers(log[1..], after, rest[n - 2]);
    }
  }

  lemma {:induction false} TailAll(log: seq<Record>, c: nat)
    requires forall i | 0 <= i < |log| :: log[i].key > c
    ensures TailAfter(log, c) == log
  {
    if log != [] { TailAll(log[1..], c); }
  }

  function CursorAfter(visited: seq<Record>, after: nat): nat {
    if visited == [] then after else visited[|visited| - 1].key
  }

  lemma {:induction false} NextBatch(log: seq<Record>, after: nat, visited: seq<Record>, n: nat)
    requires AscendingLog(log) && visited <= TailAfter(log, after)
    ensures var batch := Batch(log, CursorAfter(visited, after), n);
            && visited + batch <= TailAfter(log, after)
            && (|batch| < n ==> visited + batch == TailAfter(log, after))
  {
    if visited != [] { TailContinues(log, after, |visited|); }
  }

  /** What has been visited stays a prefix of the tail as the log grows. */
  lemma {:induction false} VisitedStays(log: seq<Record>, visited: seq<Record>, m: nat, n: nat, after: nat)
    requires m <= n <= |log| && visited <= TailAfter(log[..m], after)
    ensures visited <= TailAfter(log[..n], after)
  {
    TailGrows(log[..m], log[..n], after);
  }

  /** One bounded read of the log as it is now. */
  method ReadChunk(log: seq<Record>, now: nat, after: nat, visited: seq<Record>, step: nat)
    returns (batch: seq<Record>)
    requires AscendingLog(log) && now <= |log| && visited <= TailAfter(log[..now], after)
    ensures batch == Batch(log[..now], CursorAfter(visited, after), step)
    ensures visited + batch <= TailAfter(log[..now], after)
    ensures |batch| < step ==> visited + batch == TailAfter(log[..now], after)
  {
    batch := Batch(log[..now], CursorAfter(visited, after), step);
    NextBatch(log[..now], after, visited, step);
  }

  /** Visits the records after `after`, at most `chunk` per hold, stopping at the first short
      read; `sizes` says how far the log has grown at each hold. What it visits is in key
      order, once each: everything the log held when the count began, and nothing the log did
      not hold at the last hold. A writer that fills every chunk keeps it going, so the holds
      are only bounded by what the log ever holds. */
  method FoldAfter(log: seq<Record>, sizes: seq<nat>, after: nat, chunk: nat)
    returns (visited: seq<Record>, holds: nat)
    requires AscendingLog(log) && Grows(sizes, log) && |TailAfter(log, after)| < |sizes|
    ensures 1 <= holds <= |sizes|
    ensures TailAfter(log[..sizes[0]], after) <= visited
    ensures visited == TailAfter(log[..sizes[holds - 1]], after)
  {
    var step := Max(chunk, 1);
    visited, holds := [], 0;
    assert log[..|log|] == log;
    while true
      invariant holds < |sizes| && holds <= |visited|
      invariant visited <= TailAfter(log[..sizes[if holds == 0 then 0 else holds - 1]], after)
      decreases |sizes| - holds
    {
      VisitedStays(log, visited, sizes[if holds == 0 then 0 else holds - 1], sizes[holds], after);
      var batch := ReadChunk(log, sizes[holds], after, visited, step);
      holds := holds + 1;
      visited := visited + batch;
      if |batch| < step { break; }
      VisitedStays(log, visited, sizes[holds - 1], |log|, after);
    }
    TailGrows(log[..sizes[0]], log[..sizes[holds - 1]], after);
  }
}
