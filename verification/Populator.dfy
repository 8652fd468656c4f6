// Populating a chain partition from the authoritative log, and the guarded read
// (crates/ehdb-l0/src/chain_populator.rs).

module Populator {
  import opened Basics
  import opened Ordering
  import opened OrderedKeys
  import opened Chain
  import opened Loops
  import opened KeyLayout
  import opened DurableChain
  import opened LinkOrder

  datatype FromLog =
    | InSync(total: nat, appended: nat)
    | Diverged(atPosition: nat, stored: string, log: string)
    | StaleLog(storedLen: nat, logLen: nat)

  // --- specification: one call against one disk ------------------------------------

  function PutMark(w: World, first: nat, through: nat): (World, bool) {
    Spend(w, w.disk.(mark := Some((first, through))))
  }

  function PutCover(w: World, root: string, total: nat): (World, bool) {
    if w.disk.cover.Some? && w.disk.cover.value.1 > total && w.disk.cover.value.0 == root then (w, true)
    else Spend(w, w.disk.(cover := Some((root, total))))
  }

  /** The first position, from `i` on, where the stored chain is not matched by the snapshot. */
  function Compare(stored: seq<ChainEvent>, events: seq<LogEvent>, i: nat): (r: Option<FromLog>)
    requires i <= |stored|
    ensures r.None? && i <= |events| ==> |stored| <= |events|
    decreases |stored| - i
  {
    if i == |stored| then None
    else if i >= |events| then Some(StaleLog(|stored|, |events|))
    else if events[i].eventId == stored[i].eventId then Compare(stored, events, i + 1)
    else Some(Diverged(i, stored[i].eventId, events[i].eventId))
  }

  function PrevIn(events: seq<LogEvent>, i: nat): Option<string>
    requires i < |events|
  {
    if i == 0 then None else Some(events[i - 1].eventId)
  }

  /** Append the snapshot's events from position `i` on, stopping at the first failure. */
  function Extend(w: World, exec: string, events: seq<LogEvent>, i: nat): (World, bool)
    requires i <= |events|
    decreases |events| - i
  {
    if i == |events| then (w, true)
    else
      var ev := events[i];
      var (w', r) := AppendOn(w, exec, ev.eventId, PrevIn(events, i), ev.parentExecutionId, ev.payload);
      if r.Err? then (w', false) else Extend(w', exec, events, i + 1)
  }

  /** Coverage, then the events from position `have` on, then the watermark. */
  function GrowOn(w: World, exec: string, events: seq<LogEvent>, have: nat): (World, Option<FromLog>)
    requires events != [] && have <= |events|
  {
    var (w1, ok1) := PutCover(w, events[0].eventId, |events|);
    if !ok1 then (w1, None) else
    var (w2, ok2) := Extend(w1, exec, events, have);
    if !ok2 then (w2, None) else
    var (w3, ok3) := PutMark(w2, 1, |events|);
    (w3, if ok3 then Some(InSync(|events|, |events| - have)) else None)
  }

  /** `None` is an error return (a failed write or a refused append). */
  ghost function PopulateOn(w: World, exec: string, events: seq<LogEvent>): (World, Option<FromLog>) {
    if events == [] then
      var (w1, ok1) := PutMark(w, 0, 0);
      if !ok1 then (w1, None) else
      var (w2, ok2) := PutCover(w1, "", 0);
      (w2, if ok2 then Some(InSync(0, 0)) else None)
    else
      var stored := ChainOn(w.disk);
      match Compare(stored, events, 0)
      case Some(Diverged(p, s, l)) => (Spend(w, w.disk.(cover := None)).0, Some(Diverged(p, s, l)))
      case Some(other) => (w, Some(other))
      case None =>
        GrowOn(w, exec, events, |stored|)
  }

  /** `chain_if_authoritative`: `None` means the store cannot answer. */
  ghost function GuardedRead(d: Disk): Option<seq<ChainEvent>> {
    if d.mark.None? || HeadSeq(d) != d.mark.value.1 || d.cover.None? then None
    else
      var chain := ChainOn(d);
      var (root, total) := d.cover.value;
      if |chain| != total then None
      else if chain == [] then (if root == "" then Some(chain) else None)
      else if chain[0].eventId == root then Some(chain) else None
  }

  // --- the log a partition is populated from -----------------------------------------

  ghost predicate GoodLog(log: seq<LogEvent>) {
    && |log| <= U64_MAX
    && (forall i | 0 <= i < |log| :: !Blank(log[i].eventId))
    && DistinctIds(log)
  }

  /** What the log's `n`-th event (from 1) must look like in the store. */
  ghost function EventAt(exec: string, log: seq<LogEvent>, n: nat): ChainEvent
    requires 1 <= n <= |log|
  {
    ChainEvent(n, log[n - 1].eventId, PrevIn(log, n - 1), exec, log[n - 1].parentExecutionId, log[n - 1].payload)
  }

  /** The first `n` log events as a chain: ids, recomputed links, parents, payloads. */
  ghost function LogPrefix(exec: string, log: seq<LogEvent>, n: nat): (c: seq<ChainEvent>)
    requires n <= |log|
    ensures |c| == n
    ensures forall k | 1 <= k <= n :: c[k - 1] == EventAt(exec, log, k)
  {
    if n == 0 then [] else LogPrefix(exec, log, n - 1) + [EventAt(exec, log, n)]
  }

  ghost predicate StoredAt(d: Disk, exec: string, log: seq<LogEvent>, k: nat) {
    && 1 <= k <= |log| && k in d.ptr
    && d.ptr[k] == EventAt(exec, log, k).eventId
    && d.ptr[k] in d.ev && d.ev[d.ptr[k]] == EventAt(exec, log, k)
  }

  /** Exactly the first `n` log events are pointed to and stored as the log has them. */
  ghost predicate Stores(d: Disk, exec: string, log: seq<LogEvent>, n: nat) {
    && n <= |log|
    && (forall k :: k in d.ptr <==> 1 <= k <= n)
    && (forall k | 1 <= k <= n :: StoredAt(d, exec, log, k))
  }

  /** What every reachable disk satisfies: a log prefix is stored, the head is an event
      of it, and the coverage record is absent, empty, or rooted at the log's first event. */
  ghost predicate Consistent(d: Disk, exec: string, log: seq<LogEvent>, n: nat) {
    && Stores(d, exec, log, n)
    && (d.head.Some? ==> 1 <= d.head.value.0 <= n && d.head.value.1 == EventAt(exec, log, d.head.value.0).eventId)
    && (d.cover.Some? ==> d.cover.value == ("", 0) ||
                          (|log| > 0 && d.cover.value.0 == log[0].eventId && 1 <= d.cover.value.1 <= |log|))
  }

  lemma {:induction false} LogIdsDiffer(exec: string, log: seq<LogEvent>, j: nat, k: nat)
    requires GoodLog(log) && 1 <= j <= |log| && 1 <= k <= |log|
    ensures EventAt(exec, log, j).eventId == EventAt(exec, log, k).eventId <==> j == k
    ensures !Blank(EventAt(exec, log, j).eventId) && EventAt(exec, log, j).eventId != ""
  { }

  ghost function UpTo(n: nat): (ks: seq<nat>)
    ensures |ks| == n
    ensures forall i | 0 <= i < n :: ks[i] == i + 1
  {
    if n == 0 then [] else UpTo(n - 1) + [n]
  }

  lemma {:induction false} CollectPrefix(d: Disk, exec: string, log: seq<LogEvent>, n: nat, m: nat)
    requires Stores(d, exec, log, n) && m <= n
    ensures forall k | k in UpTo(m) :: k in d.ptr
    ensures Collect(d, UpTo(m)) == LogPrefix(exec, log, m)
  {
    if m > 0 {
      CollectPrefix(d, exec, log, n, m - 1);
      assert StoredAt(d, exec, log, m);
      CollectSplit(d, UpTo(m - 1), [m]);
    }
  }

  /** The stored chain reads back as exactly the log's first `n` events. */
  lemma {:induction false} ChainIsLogPrefix(d: Disk, exec: string, log: seq<LogEvent>, n: nat)
    requires Stores(d, exec, log, n)
    ensures ChainOn(d) == LogPrefix(exec, log, n)
  {
    forall k ensures k in UpTo(n) <==> k in d.ptr.Keys {
      if 1 <= k <= n { assert UpTo(n)[k - 1] == k; }
    }
    AscendsUnique(UpTo(n), Ascending(d.ptr.Keys), d.ptr.Keys);
    CollectPrefix(d, exec, log, n, n);
    var c := LogPrefix(exec, log, n);
    forall i, j | 0 <= i < j < |c| ensures ByExecSeq(c[i], c[j]) {
      assert c[i] == EventAt(exec, log, i + 1) && c[j] == EventAt(exec, log, j + 1);
    }
    SortOfSorted(c, ByExecSeq);
  }

  // --- every step keeps the disk consistent ------------------------------------------

  function AppendNext(w: World, exec: string, log: seq<LogEvent>, n: nat): (World, Result<nat, ChainError>)
    requires n < |log|
  {
    AppendOn(w, exec, log[n].eventId, PrevIn(log, n), log[n].parentExecutionId, log[n].payload)
  }

  /** The extension as a loop over the log. */
  ghost function ExtendTurn(exec: string, log: seq<LogEvent>): (World, nat) -> (World, bool) {
    (w: World, i: nat) =>
      if i < |log| then (AppendNext(w, exec, log, i).0, AppendNext(w, exec, log, i).1.Ok?) else (w, false)
  }

  lemma {:induction false} ExtendIsLoop(w: World, exec: string, log: seq<LogEvent>, m: nat, n: nat)
    requires n <= m <= |log|
    ensures Extend(w, exec, log[..m], n) == From(ExtendTurn(exec, log), w, n, m)
    decreases m - n
  {
    if n < m {
      var events := log[..m];
      assert events[n] == log[n] && PrevIn(events, n) == PrevIn(log, n);
      ExtendIsLoop(AppendNext(w, exec, log, n).0, exec, log, m, n + 1);
    }
  }

  /** One append of the log's next event, cut off after any of its three writes. */
  lemma {:induction false} AppendKeeps(w: World, exec: string, log: seq<LogEvent>, n: nat) returns (n': nat)
    requires GoodLog(log) && Consistent(w.disk, exec, log, n) && n < |log|
    ensures var (w', r) := AppendNext(w, exec, log, n);
            && n <= n' <= n + 1 && Consistent(w'.disk, exec, log, n')
            && w'.disk.cover == w.disk.cover && w'.disk.mark == w.disk.mark
            && (r.Ok? ==> n' == n + 1)
  {
    n' := n;
    var d, id := w.disk, log[n].eventId;
    LogIdsDiffer(exec, log, n + 1, n + 1);
    if !Blank(exec) && HeadId(d) == PrevIn(log, n) && id !in d.ev && w.budget > 0 {
      if n > 0 { LogIdsDiffer(exec, log, d.head.value.0, n); }
      assert HeadSeq(d) == n;
      assert AppendNext(w, exec, log, n).0 == WriteEvent(w, EventAt(exec, log, n + 1)).0;
      n' := WriteKeeps(w, exec, log, n);
    }
  }

  lemma {:induction false} WriteKeeps(w: World, exec: string, log: seq<LogEvent>, n: nat) returns (n': nat)
    requires GoodLog(log) && Consistent(w.disk, exec, log, n) && n < |log| && log[n].eventId !in w.disk.ev
    ensures var (w', failed) := WriteEvent(w, EventAt(exec, log, n + 1));
            && n <= n' <= n + 1 && Consistent(w'.disk, exec, log, n')
            && w'.disk.cover == w.disk.cover && w'.disk.mark == w.disk.mark
            && (failed.None? ==> n' == n + 1)
  {
    n' := n;
    var d, id := w.disk, log[n].eventId;
    if w.budget > 0 {
      var d1 := d.(ev := d.ev[id := EventAt(exec, log, n + 1)]);
      KeepsEv(d, exec, log, n, d1);
      if w.budget > 1 {
        n' := n + 1;
        var d2 := d1.(ptr := d1.ptr[n + 1 := id]);
        KeepsPtr(d1, exec, log, n, d2);
        if w.budget > 2 { KeepsHead(d2, exec, log, n + 1); }
      }
    }
  }

  lemma {:induction false} KeepsEv(d: Disk, exec: string, log: seq<LogEvent>, n: nat, d1: Disk)
    requires Consistent(d, exec, log, n) && n < |log|
    requires log[n].eventId !in d.ev
    requires d1 == d.(ev := d.ev[log[n].eventId := EventAt(exec, log, n + 1)])
    ensures Consistent(d1, exec, log, n)
  {
    forall k | 1 <= k <= n ensures StoredAt(d1, exec, log, k) { assert StoredAt(d, exec, log, k); }
  }

  lemma {:induction false} KeepsPtr(d1: Disk, exec: string, log: seq<LogEvent>, n: nat, d2: Disk)
    requires Consistent(d1, exec, log, n) && n < |log|
    requires log[n].eventId in d1.ev && d1.ev[log[n].eventId] == EventAt(exec, log, n + 1)
    requires d2 == d1.(ptr := d1.ptr[n + 1 := log[n].eventId])
    ensures Consistent(d2, exec, log, n + 1)
  {
    forall k | 1 <= k <= n + 1 ensures StoredAt(d2, exec, log, k) {
      if k <= n { assert StoredAt(d1, exec, log, k); }
    }
  }

  lemma {:induction false} KeepsHead(d: Disk, exec: string, log: seq<LogEvent>, n: nat)
    requires Consistent(d, exec, log, n) && n > 0
    ensures Consistent(d.(head := Some((n, log[n - 1].eventId))), exec, log, n)
  {
    var d' := d.(head := Some((n, log[n - 1].eventId)));
    forall k | 1 <= k <= n ensures StoredAt(d', exec, log, k) { assert StoredAt(d, exec, log, k); }
  }

  /** Between two turns `i` events are stored; where a turn failed, some number up to `m` is. */
  ghost predicate StoredSome(w: World, w0: World, exec: string, log: seq<LogEvent>, lo: nat, hi: nat) {
    && w.disk.cover == w0.disk.cover && w.disk.mark == w0.disk.mark
    && exists n' :: lo <= n' <= hi && Consistent(w.disk, exec, log, n')
  }

  ghost predicate StoredUpTo(w: World, w0: World, exec: string, log: seq<LogEvent>, i: nat) {
    w.disk.cover == w0.disk.cover && w.disk.mark == w0.disk.mark && Consistent(w.disk, exec, log, i)
  }

  lemma {:induction false} TurnStores(w: World, w0: World, exec: string, log: seq<LogEvent>, n: nat, m: nat, i: nat)
    requires GoodLog(log) && n <= i < m <= |log| && StoredUpTo(w, w0, exec, log, i)
    ensures var (w', r) := AppendNext(w, exec, log, i);
            if r.Ok? then StoredUpTo(w', w0, exec, log, i + 1) else StoredSome(w', w0, exec, log, n, m)
  {
    var n' := AppendKeeps(w, exec, log, i);
  }

  lemma {:induction false} ExtendKeeps(w: World, exec: string, log: seq<LogEvent>, m: nat, n: nat)
    returns (w': World, n': nat, ok: bool)
    requires GoodLog(log) && Consistent(w.disk, exec, log, n) && n <= m <= |log|
    ensures Extend(w, exec, log[..m], n) == (w', ok)
    ensures n <= n' <= m && Consistent(w'.disk, exec, log, n') && (ok ==> n' == m)
    ensures w'.disk.cover == w.disk.cover && w'.disk.mark == w.disk.mark
  {
    var turn := ExtendTurn(exec, log);
    var good := (x: World, i: nat) => n <= i && StoredUpTo(x, w, exec, log, i);
    var left := (x: World) => StoredSome(x, w, exec, log, n, m);
    forall x, i: nat | i < m && good(x, i) ensures TurnKeeps(turn, good, left, x, i) { TurnStores(x, w, exec, log, n, m, i); }
    LoopKeeps(turn, good, left, w, n, m);
    ExtendIsLoop(w, exec, log, m, n);
    w', ok := From(turn, w, n, m).0, From(turn, w, n, m).1;
    if ok { n' := m; } else { n' :| n <= n' <= m && Consistent(w'.disk, exec, log, n'); }
  }

  /** On a consistent disk the comparison never finds a conflict. */
  lemma {:induction false} NeverConflicts(exec: string, log: seq<LogEvent>, n: nat, m: nat, i: nat)
    requires n <= |log| && m <= |log| && i <= n && i <= m
    ensures Compare(LogPrefix(exec, log, n), log[..m], i) == if n <= m then None else Some(StaleLog(n, m))
    decreases n - i
  {
    var stored := LogPrefix(exec, log, n);
    if i < n && i < m {
      assert stored[i] == EventAt(exec, log, i + 1);
      NeverConflicts(exec, log, n, m, i + 1);
    }
  }

  function Covered(d: Disk): nat { if d.cover.Some? then d.cover.value.1 else 0 }

  lemma {:induction false} CoverKeeps(w: World, exec: string, log: seq<LogEvent>, m: nat, n: nat)
    requires GoodLog(log) && Consistent(w.disk, exec, log, n) && 1 <= m <= |log|
    ensures var w' := PutCover(w, log[0].eventId, m).0;
            && Consistent(w'.disk, exec, log, n)
            && Covered(w'.disk) >= Covered(w.disk)
  {
    var w' := PutCover(w, log[0].eventId, m).0;
    forall k | 1 <= k <= n ensures StoredAt(w'.disk, exec, log, k) { assert StoredAt(w.disk, exec, log, k); }
  }

  lemma {:induction false} GrowKeeps(w: World, exec: string, log: seq<LogEvent>, m: nat, n: nat) returns (n': nat)
    requires GoodLog(log) && Consistent(w.disk, exec, log, n) && n <= m && 1 <= m <= |log|
    ensures var (w', r) := GrowOn(w, exec, log[..m], n);
            && n <= n' && Consistent(w'.disk, exec, log, n')
            && !(r.Some? && r.value.Diverged?)
            && Covered(w'.disk) >= Covered(w.disk)
            && (w.budget > 0 ==> Covered(w'.disk) >= m)
  {
    n' := n;
    CoverKeeps(w, exec, log, m, n);
    var (w1, ok1) := PutCover(w, log[0].eventId, m);
    if ok1 {
      var w2, ok2;
      w2, n', ok2 := ExtendKeeps(w1, exec, log, m, n);
      MarkKeeps(w2, exec, log, n', 1, m);
    }
  }

  /** One whole call on any snapshot of the log, interrupted anywhere. */
  lemma {:induction false} PopulateKeeps(w: World, exec: string, log: seq<LogEvent>, m: nat, n: nat) returns (n': nat)
    requires GoodLog(log) && Consistent(w.disk, exec, log, n) && m <= |log|
    ensures var (w', r) := PopulateOn(w, exec, log[..m]);
            && n <= n' && Consistent(w'.disk, exec, log, n')
            && !(r.Some? && r.value.Diverged?)
            && (m > 0 ==> Covered(w'.disk) >= Covered(w.disk))
            && (m > 0 && w.budget > 0 ==> n' >= m || Covered(w'.disk) >= m)
  {
    n' := n;
    if m > 0 {
      ChainIsLogPrefix(w.disk, exec, log, n);
      NeverConflicts(exec, log, n, m, 0);
      if n <= m {
        n' := GrowKeeps(w, exec, log, m, n);
      }
    } else {
      MarkKeeps(w, exec, log, n, 0, 0);
      var (w1, ok1) := PutMark(w, 0, 0);
      var w2 := PutCover(w1, "", 0).0;
      forall k | 1 <= k <= n ensures StoredAt(w2.disk, exec, log, k) { assert StoredAt(w1.disk, exec, log, k); }
    }
  }

  lemma {:induction false} MarkKeeps(w: World, exec: string, log: seq<LogEvent>, n: nat, first: nat, through: nat)
    requires Consistent(w.disk, exec, log, n)
    ensures Consistent(PutMark(w, first, through).0.disk, exec, log, n)
  {
    var d := PutMark(w, first, through).0.disk;
    forall k | 1 <= k <= n ensures StoredAt(d, exec, log, k) { assert StoredAt(w.disk, exec, log, k); }
  }

  // --- safety over every run -----------------------------------------------------------

  /** One call: the length of the log snapshot it was given, and how many writes it
      lived to make. */
  datatype Call = Call(len: nat, budget: nat)

  ghost function After(d: Disk, exec: string, log: seq<LogEvent>, c: Call): Disk
    requires c.len <= |log|
  {
    PopulateOn(World(d, c.budget), exec, log[..c.len]).0.disk
  }

  /** The disk after a run of calls, each on some snapshot of the log, in any order of
      snapshot lengths, each cut off anywhere. */
  ghost function RunFrom(d: Disk, exec: string, log: seq<LogEvent>, calls: seq<Call>): Disk
    requires forall c | c in calls :: c.len <= |log|
    decreases |calls|
  {
    if calls == [] then d else RunFrom(After(d, exec, log, calls[0]), exec, log, calls[1..])
  }

  lemma {:induction false} RunKeeps(d: Disk, exec: string, log: seq<LogEvent>, calls: seq<Call>, n: nat)
    returns (n': nat)
    requires GoodLog(log) && Consistent(d, exec, log, n)
    requires forall c | c in calls :: c.len <= |log|
    ensures n <= n' && Consistent(RunFrom(d, exec, log, calls), exec, log, n')
    ensures (forall c | c in calls :: c.len > 0) ==> Covered(RunFrom(d, exec, log, calls)) >= Covered(d)
    decreases |calls|
  {
    n' := n;
    if calls != [] {
      n' := PopulateKeeps(World(d, calls[0].budget), exec, log, calls[0].len, n);
      n' := RunKeeps(After(d, exec, log, calls[0]), exec, log, calls[1..], n');
    }
  }

  lemma {:induction false} BlankConsistent(exec: string, log: seq<LogEvent>)
    ensures Consistent(BlankDisk, exec, log, 0)
  { }

  /** Whatever the run and wherever it was cut off, a served chain is exactly the log
      from its first event, at the recorded coverage length. */
  lemma {:induction false} ServedIsLogPrefix(exec: string, log: seq<LogEvent>, calls: seq<Call>)
    requires GoodLog(log) && forall c | c in calls :: c.len <= |log|
    ensures var d := RunFrom(BlankDisk, exec, log, calls);
            GuardedRead(d).Some? ==>
              && d.cover.Some? && Covered(d) <= |log|
              && GuardedRead(d).value == LogPrefix(exec, log, Covered(d))
  {
    var n := RunKeeps(BlankDisk, exec, log, calls, 0);
    ChainIsLogPrefix(RunFrom(BlankDisk, exec, log, calls), exec, log, n);
  }

  lemma {:induction false} RunSplit(d: Disk, exec: string, log: seq<LogEvent>, a: seq<Call>, b: seq<Call>)
    requires forall c | c in a + b :: c.len <= |log|
    ensures (forall c | c in a :: c.len <= |log|) && (forall c | c in b :: c.len <= |log|)
    ensures RunFrom(d, exec, log, a + b) == RunFrom(RunFrom(d, exec, log, a), exec, log, b)
    decreases |a|
  {
    if a == [] {
      assert a + b == b;
    } else {
      assert (a + b)[1..] == a[1..] + b;
      RunSplit(After(d, exec, log, a[0]), exec, log, a[1..], b);
    }
  }

  /** Once a non-empty snapshot has had its first write, no later read serves less than
      that snapshot, as long as only non-empty snapshots follow. */
  lemma {:induction false} NeverServesLess(exec: string, log: seq<LogEvent>, before: seq<Call>, c: Call, later: seq<Call>)
    requires GoodLog(log) && forall x | x in before + [c] + later :: x.len <= |log|
    requires c.len > 0 && c.budget > 0 && forall x | x in later :: x.len > 0
    ensures var d := RunFrom(BlankDisk, exec, log, before + [c] + later);
            GuardedRead(d).Some? ==> |GuardedRead(d).value| >= c.len
  {
    RunSplit(BlankDisk, exec, log, before + [c], later);
    RunSplit(BlankDisk, exec, log, before, [c]);
    var n0 := RunKeeps(BlankDisk, exec, log, before, 0);
    var d0 := RunFrom(BlankDisk, exec, log, before);
    var n1 := PopulateKeeps(World(d0, c.budget), exec, log, c.len, n0);
    var d1 := After(d0, exec, log, c);
    var n2 := RunKeeps(d1, exec, log, later, n1);
    ChainIsLogPrefix(RunFrom(d1, exec, log, later), exec, log, n2);
  }

  /** The coverage record is documented never to shrink. It shrinks exactly when an empty
      snapshot follows a non-empty coverage and both of its writes land. */
  lemma {:induction false} CoverageShrinksIff(w: World, exec: string, log: seq<LogEvent>, m: nat, n: nat)
    requires GoodLog(log) && Consistent(w.disk, exec, log, n) && m <= |log|
    ensures Covered(PopulateOn(w, exec, log[..m]).0.disk) < Covered(w.disk) <==>
            m == 0 && Covered(w.disk) > 0 && w.budget >= 2
  {
    if m > 0 {
      var n' := PopulateKeeps(w, exec, log, m, n);
    } else {
      if w.disk.cover.Some? && Covered(w.disk) > 0 { LogIdsDiffer(exec, log, 1, 1); }
    }
  }

  /** So the bound above needs its condition: a one-event snapshot that died before its
      first append, then an empty one, and the empty chain is served as authoritative. */
  lemma {:induction false} EmptySnapshotResurfaces(e: LogEvent, exec: string)
    requires GoodLog([e])
    ensures GuardedRead(RunFrom(BlankDisk, exec, [e], [Call(1, 1), Call(0, 2)])) == Some([])
  {
    var log := [e];
    var d1 := After(BlankDisk, exec, log, Call(1, 1));
    assert d1 == BlankDisk.(cover := Some((e.eventId, 1)));
  }

  // --- uninterrupted calls do serve -----------------------------------------------------

  /** No trace of a crash: the head is the last stored event and nothing beyond it exists. */
  ghost predicate Clean(d: Disk, exec: string, log: seq<LogEvent>, n: nat) {
    && Consistent(d, exec, log, n)
    && d.head == (if n == 0 then None else Some((n, log[n - 1].eventId)))
    && (forall k | n < k <= |log| :: EventAt(exec, log, k).eventId !in d.ev)
  }

  lemma {:induction false} AppendCleanly(w: World, exec: string, log: seq<LogEvent>, n: nat) returns (w': World)
    requires GoodLog(log) && !Blank(exec) && Clean(w.disk, exec, log, n) && n < |log| && w.budget >= 3
    ensures AppendNext(w, exec, log, n) == (w', Ok(n + 1))
    ensures Clean(w'.disk, exec, log, n + 1) && w'.budget == w.budget - 3
    ensures w'.disk.cover == w.disk.cover && w'.disk.mark == w.disk.mark
  {
    var n' := AppendKeeps(w, exec, log, n);
    assert EventAt(exec, log, n + 1).eventId !in w.disk.ev;
    w' := AppendNext(w, exec, log, n).0;
    forall k | n + 1 < k <= |log| ensures EventAt(exec, log, k).eventId !in w'.disk.ev { LogIdsDiffer(exec, log, n + 1, k); }
  }

  lemma {:induction false} ExtendStep(w: World, exec: string, log: seq<LogEvent>, m: nat, n: nat)
    requires n < m <= |log|
    ensures var (w', r) := AppendNext(w, exec, log, n);
            Extend(w, exec, log[..m], n) == if r.Err? then (w', false) else Extend(w', exec, log[..m], n + 1)
  {
    assert log[..m][n] == log[n] && PrevIn(log[..m], n) == PrevIn(log, n);
  }

  /** The world once the extension has appended up to event `j`. */
  ghost function Appended(w: World, exec: string, log: seq<LogEvent>, n: nat, j: nat): World
    requires n <= j <= |log|
    decreases j
  {
    if j == n then w else AppendNext(Appended(w, exec, log, n, j - 1), exec, log, j - 1).0
  }

  lemma {:induction false} AppendedIsClean(w: World, exec: string, log: seq<LogEvent>, n: nat, j: nat) returns (w': World)
    requires GoodLog(log) && !Blank(exec) && Clean(w.disk, exec, log, n) && n <= j <= |log| && w.budget >= 3 * (j - n)
    ensures Appended(w, exec, log, n, j) == w' && Clean(w'.disk, exec, log, j)
    ensures w'.disk.cover == w.disk.cover && w'.disk.mark == w.disk.mark && w'.budget == w.budget - 3 * (j - n)
    ensures j > n ==> AppendNext(Appended(w, exec, log, n, j - 1), exec, log, j - 1) == (w', Ok(j))
    decreases j
  {
    w' := w;
    if j > n {
      var before := AppendedIsClean(w, exec, log, n, j - 1);
      w' := AppendCleanly(before, exec, log, j - 1);
    }
  }

  lemma {:induction false} TurnReaches(w: World, exec: string, log: seq<LogEvent>, n: nat, j: nat)
    requires GoodLog(log) && !Blank(exec) && Clean(w.disk, exec, log, n) && n <= j < |log| && w.budget >= 3 * (j + 1 - n)
    ensures ExtendTurn(exec, log)(Appended(w, exec, log, n, j), j) == (Appended(w, exec, log, n, j + 1), true)
  {
    var w' := AppendedIsClean(w, exec, log, n, j + 1);
  }

  ghost function Reached(w: World, exec: string, log: seq<LogEvent>, n: nat): nat -> World {
    (j: nat) => if n <= j <= |log| then Appended(w, exec, log, n, j) else w
  }

  lemma {:induction false} LoopReaches(w: World, exec: string, log: seq<LogEvent>, m: nat, n: nat, q: nat)
    requires GoodLog(log) && !Blank(exec) && Clean(w.disk, exec, log, n) && n <= q <= m <= |log| && w.budget >= 3 * (q - n)
    ensures From(ExtendTurn(exec, log), w, n, m) == From(ExtendTurn(exec, log), Appended(w, exec, log, n, q), q, m)
  {
    var turn, at := ExtendTurn(exec, log), Reached(w, exec, log, n);
    forall j: nat | n <= j < q ensures turn(at(j), j) == (at(j + 1), true) { TurnReaches(w, exec, log, n, j); }
    LoopFollows(turn, at, n, q, m);
  }

  /** The extension reaches every event its writes suffice for. */
  lemma {:induction false} ExtendFollows(w: World, exec: string, log: seq<LogEvent>, m: nat, n: nat, q: nat)
    requires GoodLog(log) && !Blank(exec) && Clean(w.disk, exec, log, n) && n <= q <= m <= |log| && w.budget >= 3 * (q - n)
    ensures Extend(w, exec, log[..m], n) == Extend(Appended(w, exec, log, n, q), exec, log[..m], q)
  {
    LoopReaches(w, exec, log, m, n, q);
    ExtendIsLoop(w, exec, log, m, n);
    ExtendIsLoop(Appended(w, exec, log, n, q), exec, log, m, q);
  }

  lemma {:induction false} ExtendCleanly(w: World, exec: string, log: seq<LogEvent>, m: nat, n: nat) returns (w': World)
    requires GoodLog(log) && !Blank(exec) && Clean(w.disk, exec, log, n) && n <= m <= |log|
    requires w.budget >= 3 * (m - n)
    ensures Extend(w, exec, log[..m], n) == (w', true)
    ensures Clean(w'.disk, exec, log, m) && w'.disk.cover == w.disk.cover && w'.disk.mark == w.disk.mark
    ensures w'.budget == w.budget - 3 * (m - n)
  {
    w' := AppendedIsClean(w, exec, log, n, m);
    ExtendFollows(w, exec, log, m, n, m);
  }

  lemma {:induction false} CoverKeepsClean(w: World, exec: string, log: seq<LogEvent>, n: nat, m: nat) returns (w': World)
    requires GoodLog(log) && Clean(w.disk, exec, log, n) && 1 <= m <= |log| && w.budget > 0
    requires Covered(w.disk) <= m
    ensures PutCover(w, log[0].eventId, m) == (w', true)
    ensures Clean(w'.disk, exec, log, n) && w'.disk.cover == Some((log[0].eventId, m)) && w'.disk.mark == w.disk.mark
    ensures w'.budget == w.budget - 1
  {
    w' := PutCover(w, log[0].eventId, m).0;
    forall k | 1 <= k <= n ensures StoredAt(w'.disk, exec, log, k) { assert StoredAt(w.disk, exec, log, k); }
  }

  lemma {:induction false} MarkServes(w: World, exec: string, log: seq<LogEvent>, m: nat) returns (w': World)
    requires GoodLog(log) && Clean(w.disk, exec, log, m) && 1 <= m && w.budget > 0
    requires w.disk.cover == Some((log[0].eventId, m))
    ensures PutMark(w, 1, m) == (w', true)
    ensures Clean(w'.disk, exec, log, m) && GuardedRead(w'.disk) == Some(LogPrefix(exec, log, m))
  {
    MarkKeeps(w, exec, log, m, 1, m);
    w' := PutMark(w, 1, m).0;
    ChainIsLogPrefix(w'.disk, exec, log, m);
    assert LogPrefix(exec, log, m)[1 - 1] == EventAt(exec, log, 1);
  }

  lemma {:induction false} GrowSteps(w: World, exec: string, log: seq<LogEvent>, m: nat, n: nat, w1: World, w2: World, w3: World)
    requires 1 <= m <= |log| && n <= m
    requires PutCover(w, log[0].eventId, m) == (w1, true)
    requires Extend(w1, exec, log[..m], n) == (w2, true)
    requires PutMark(w2, 1, m) == (w3, true)
    ensures GrowOn(w, exec, log[..m], n) == (w3, Some(InSync(m, m - n)))
  {
    assert log[..m][0] == log[0] && |log[..m]| == m;
  }

  lemma {:induction false} GrowCleanly(w: World, exec: string, log: seq<LogEvent>, m: nat, n: nat) returns (w': World)
    requires GoodLog(log) && !Blank(exec) && Clean(w.disk, exec, log, n) && 1 <= m <= |log| && n <= m
    requires Covered(w.disk) <= m && w.budget >= 3 * (m - n) + 2
    ensures GrowOn(w, exec, log[..m], n) == (w', Some(InSync(m, m - n)))
    ensures Clean(w'.disk, exec, log, m) && GuardedRead(w'.disk) == Some(LogPrefix(exec, log, m))
  {
    var w1 := CoverKeepsClean(w, exec, log, n, m);
    var w2 := ExtendCleanly(w1, exec, log, m, n);
    w' := MarkServes(w2, exec, log, m);
    GrowSteps(w, exec, log, m, n, w1, w2, w');
  }

  /** From a clean disk whose coverage is no longer than the snapshot, a call that is not
      cut off reports what it appended and the guarded read serves the whole snapshot. */
  lemma {:induction false} UninterruptedServes(w: World, exec: string, log: seq<LogEvent>, m: nat, n: nat)
    requires GoodLog(log) && !Blank(exec) && Clean(w.disk, exec, log, n) && 1 <= m <= |log| && n <= m
    requires Covered(w.disk) <= m && w.budget >= 3 * (m - n) + 2
    ensures var (w', r) := PopulateOn(w, exec, log[..m]);
            && r == Some(InSync(m, m - n))
            && Clean(w'.disk, exec, log, m)
            && GuardedRead(w'.disk) == Some(LogPrefix(exec, log, m))
  {
    ChainIsLogPrefix(w.disk, exec, log, n);
    NeverConflicts(exec, log, n, m, 0);
    var w' := GrowCleanly(w, exec, log, m, n);
  }

  // --- calls cut off before their watermark ----------------------------------------------

  /** An append that dies: the event key alone leaves no trace, the pointer extends the chain,
      and the head stays where it was. */
  lemma {:induction false} AppendCut(w: World, exec: string, log: seq<LogEvent>, n: nat) returns (w': World)
    requires GoodLog(log) && !Blank(exec) && Clean(w.disk, exec, log, n) && n < |log| && w.budget < 3
    ensures AppendNext(w, exec, log, n).0 == w' && AppendNext(w, exec, log, n).1.Err?
    ensures Consistent(w'.disk, exec, log, if w.budget == 2 then n + 1 else n)
    ensures HeadSeq(w'.disk) == n && w'.disk.cover == w.disk.cover && w'.disk.mark == w.disk.mark && w'.budget == 0
  {
    var d := w.disk;
    assert EventAt(exec, log, n + 1).eventId !in d.ev;
    w' := AppendNext(w, exec, log, n).0;
    if w.budget > 0 {
      var d1 := d.(ev := d.ev[log[n].eventId := EventAt(exec, log, n + 1)]);
      KeepsEv(d, exec, log, n, d1);
      if w.budget > 1 { KeepsPtr(d1, exec, log, n, d1.(ptr := d1.ptr[n + 1 := log[n].eventId])); }
    }
  }

  /** Where the extension stands when its writes run out: every second write of three lengthens
      the chain, every third moves the head. */
  lemma {:induction false} ExtendCut(w: World, exec: string, log: seq<LogEvent>, m: nat, n: nat) returns (w': World)
    requires GoodLog(log) && !Blank(exec) && Clean(w.disk, exec, log, n) && n <= m <= |log| && w.budget < 3 * (m - n)
    ensures Extend(w, exec, log[..m], n) == (w', false)
    ensures Consistent(w'.disk, exec, log, n + (w.budget + 1) / 3) && HeadSeq(w'.disk) == n + w.budget / 3
    ensures w'.disk.cover == w.disk.cover && w'.disk.mark == w.disk.mark
  {
    var q := n + w.budget / 3;
    ExtendFollows(w, exec, log, m, n, q);
    var w1 := AppendedIsClean(w, exec, log, n, q);
    ExtendStep(w1, exec, log, m, q);
    w' := AppendCut(w1, exec, log, q);
  }

  /** Any disk: the whole stored chain or nothing, and the chain only where the watermark is the
      head and the coverage record names its root and its length. */
  lemma {:induction false} ServesWholeOrNothing(d: Disk)
    ensures var chain := ChainOn(d);
            var root := if chain == [] then "" else chain[0].eventId;
            && (GuardedRead(d).Some? ==> GuardedRead(d).value == chain)
            && (GuardedRead(d).Some? <==> && d.mark.Some? && d.mark.value.1 == HeadSeq(d)
                                          && d.cover.Some? && d.cover.value.0 == root && d.cover.value.1 == |chain|)
  { }

  /** When a reachable partition holding `n` events is served: the watermark stands at the head
      and the coverage record has that length. */
  lemma {:induction false} ServedIff(d: Disk, exec: string, log: seq<LogEvent>, n: nat)
    requires GoodLog(log) && Consistent(d, exec, log, n)
    ensures GuardedRead(d).Some? <==>
            d.mark.Some? && d.mark.value.1 == HeadSeq(d) && d.cover.Some? && d.cover.value.1 == n
    ensures GuardedRead(d).Some? ==> GuardedRead(d).value == LogPrefix(exec, log, n)
  {
    ChainIsLogPrefix(d, exec, log, n);
    if n > 0 { assert LogPrefix(exec, log, n)[1 - 1] == EventAt(exec, log, 1); }
  }

  lemma {:induction false} GrowCut(w: World, exec: string, log: seq<LogEvent>, m: nat, n: nat) returns (d: Disk, n': nat)
    requires GoodLog(log) && !Blank(exec) && Clean(w.disk, exec, log, n) && 1 <= m <= |log| && n <= m
    requires Covered(w.disk) <= m && 0 < w.budget < 3 * (m - n) + 2
    ensures GrowOn(w, exec, log[..m], n).0.disk == d && Consistent(d, exec, log, n')
    ensures n' == m <==> w.budget >= 3 * (m - n)
    ensures HeadSeq(d) == n + (w.budget - 1) / 3 && d.mark == w.disk.mark && d.cover == Some((log[0].eventId, m))
  {
    var w1 := CoverKeepsClean(w, exec, log, n, m);
    assert log[..m][0] == log[0] && |log[..m]| == m;
    if w1.budget < 3 * (m - n) {
      var w2 := ExtendCut(w1, exec, log, m, n);
      d, n' := w2.disk, n + w.budget / 3;
    } else {
      var w2 := ExtendCleanly(w1, exec, log, m, n);
      d, n' := w2.disk, m;
    }
  }

  /** A call that wrote something and died before its watermark, from a clean disk with `n` of
      the snapshot's `m` events: the partition is served afterwards exactly when all events are
      in and the old watermark happens to stand at the head, wherever that was left. */
  lemma {:induction false} CutOffServesIff(w: World, exec: string, log: seq<LogEvent>, m: nat, n: nat)
    requires GoodLog(log) && !Blank(exec) && Clean(w.disk, exec, log, n) && 1 <= m <= |log| && n <= m
    requires Covered(w.disk) <= m && 0 < w.budget < 3 * (m - n) + 2
    ensures var d := PopulateOn(w, exec, log[..m]).0.disk;
            && (GuardedRead(d).Some? <==>
                w.disk.mark.Some? && ((w.budget == 3 * (m - n) + 1 && w.disk.mark.value.1 == m)
                                      || (w.budget == 3 * (m - n) && w.disk.mark.value.1 == m - 1)))
            && (GuardedRead(d).Some? ==> GuardedRead(d).value == LogPrefix(exec, log, m))
  {
    ChainIsLogPrefix(w.disk, exec, log, n);
    NeverConflicts(exec, log, n, m, 0);
    var d, n' := GrowCut(w, exec, log, m, n);
    ServedIff(d, exec, log, n');
  }

  // --- a partition that disagrees with the log stays unserved ------------------------------

  ghost predicate ConflictAt(stored: seq<ChainEvent>, log: seq<LogEvent>, i: nat) {
    i < |stored| && i < |log| && stored[i].eventId != log[i].eventId
  }

  /** The stored chain contradicts the log and serve-trust is revoked. */
  ghost predicate Revoked(d: Disk, log: seq<LogEvent>) {
    && (exists i: nat :: ConflictAt(ChainOn(d), log, i))
    && (d.cover.None? || d.cover == Some(("", 0)))
  }

  /** The chain is read from the event and pointer keys alone. */
  lemma {:induction false} CollectFrame(d: Disk, d': Disk, ks: seq<nat>)
    requires d'.ev == d.ev && d'.ptr == d.ptr && forall k | k in ks :: k in d.ptr
    ensures Collect(d', ks) == Collect(d, ks)
  {
    if ks != [] { CollectFrame(d, d', ks[1..]); }
  }

  lemma {:induction false} ChainFrame(d: Disk, d': Disk)
    requires d'.ev == d.ev && d'.ptr == d.ptr
    ensures ChainOn(d') == ChainOn(d)
  {
    CollectFrame(d, d', Ascending(d.ptr.Keys));
  }

  lemma {:induction false} CompareConflict(stored: seq<ChainEvent>, log: seq<LogEvent>, m: nat, i: nat, k: nat)
    requires ConflictAt(stored, log, k) && m <= |log| && i <= k && i <= |stored|
    ensures Compare(stored, log[..m], i).Some? && !Compare(stored, log[..m], i).value.InSync?
    decreases |stored| - i
  {
    if i < k && i < m { CompareConflict(stored, log, m, i + 1, k); }
  }

  ghost predicate AgreeUpTo(stored: seq<ChainEvent>, events: seq<LogEvent>, n: nat) {
    n <= |stored| && n <= |events| && forall j | 0 <= j < n :: stored[j].eventId == events[j].eventId
  }

  /** No conflict: at every position inside both the ids are the same. */
  ghost predicate Agree(stored: seq<ChainEvent>, events: seq<LogEvent>) {
    AgreeUpTo(stored, events, Min(|stored|, |events|))
  }

  ghost predicate FirstConflict(stored: seq<ChainEvent>, events: seq<LogEvent>, i: nat) {
    ConflictAt(stored, events, i) && AgreeUpTo(stored, events, i)
  }

  /** What a call on a non-empty snapshot has to report, told from the stored and the given ids:
      the least position at which they differ, else a snapshot shorter than the store, else the
      new total, unless (`None`) it has failed or is not done yet. */
  ghost predicate Reports(stored: seq<ChainEvent>, events: seq<LogEvent>, r: Option<FromLog>) {
    match r
    case Some(Diverged(p, s, l)) => FirstConflict(stored, events, p) && s == stored[p].eventId && l == events[p].eventId
    case Some(StaleLog(n, m)) => Agree(stored, events) && n == |stored| > |events| == m
    case Some(InSync(total, appended)) => Agree(stored, events) && |stored| + appended == |events| == total
    case None => Agree(stored, events) && |stored| <= |events|
  }

  lemma {:induction false} CompareDecides(stored: seq<ChainEvent>, events: seq<LogEvent>, i: nat)
    requires AgreeUpTo(stored, events, i)
    ensures Reports(stored, events, Compare(stored, events, i))
    ensures Compare(stored, events, i).Some? ==> !Compare(stored, events, i).value.InSync?
    decreases |stored| - i
  {
    if i < |stored| && i < |events| && events[i].eventId == stored[i].eventId {
      CompareDecides(stored, events, i + 1);
    }
  }

  /** A report of one kind rules out the others. */
  lemma {:induction false} ReportsOne(stored: seq<ChainEvent>, events: seq<LogEvent>, r: Option<FromLog>, i: nat)
    requires Reports(stored, events, r)
    ensures r.Some? && r.value.Diverged? && r.value.atPosition == i <==> FirstConflict(stored, events, i)
    ensures r.Some? && r.value.StaleLog? <==> Agree(stored, events) && |stored| > |events|
    ensures r.None? || r.value.InSync? <==> Agree(stored, events) && |stored| <= |events|
  { }

  /** Every call on a non-empty snapshot reports that, and a stale one writes nothing. */
  lemma {:induction false} PopulateReports(w: World, exec: string, events: seq<LogEvent>, i: nat)
    requires events != []
    ensures var (w', r) := PopulateOn(w, exec, events); var stored := ChainOn(w.disk);
            && Reports(stored, events, r)
            && (r.Some? && r.value.Diverged? && r.value.atPosition == i <==> FirstConflict(stored, events, i))
            && (r.Some? && r.value.StaleLog? <==> Agree(stored, events) && |stored| > |events|)
            && (r.Some? && r.value.StaleLog? ==> w' == w)
  {
    CompareDecides(ChainOn(w.disk), events, 0);
    ReportsOne(ChainOn(w.disk), events, PopulateOn(w, exec, events).1, i);
  }

  /** So whatever the snapshot's length, one that conflicts with the stored chain anywhere costs
      the partition its trust and nothing else: it is served afterwards only if it was before
      and the one write of the call was lost. */
  lemma {:induction false} ConflictUnserves(w: World, exec: string, events: seq<LogEvent>, k: nat)
    requires ConflictAt(ChainOn(w.disk), events, k)
    ensures var w' := PopulateOn(w, exec, events).0;
            && w'.disk == w.disk.(cover := if w.budget > 0 then None else w.disk.cover)
            && (GuardedRead(w'.disk).Some? <==> w.budget == 0 && GuardedRead(w.disk).Some?)
  {
    CompareDecides(ChainOn(w.disk), events, 0);
  }

  lemma {:induction false} PopulateOutcome(w: World, exec: string, events: seq<LogEvent>)
    ensures var (w', r) := PopulateOn(w, exec, events);
            && (events != [] ==> Reports(ChainOn(w.disk), events, r))
            && (r.Some? && r.value.Diverged? && w.budget > 0 ==> GuardedRead(w'.disk).None?)
  {
    if events != [] { PopulateReports(w, exec, events, 0); }
    var r := PopulateOn(w, exec, events).1;
    if r.Some? && r.value.Diverged? { ConflictUnserves(w, exec, events, r.value.atPosition); }
  }

  /** A reported divergence names a real conflict and leaves the chain as it was. It is still
      served exactly when it was before and the delete was lost: the code discards the
      delete's own error. */
  lemma {:induction false} DivergedRevokesIff(w: World, exec: string, log: seq<LogEvent>, m: nat)
    requires m <= |log|
    requires var r := PopulateOn(w, exec, log[..m]).1; r.Some? && r.value.Diverged?
    ensures var (w', r) := PopulateOn(w, exec, log[..m]);
            && ConflictAt(ChainOn(w.disk), log, r.value.atPosition)
            && ChainOn(w'.disk) == ChainOn(w.disk)
            && (w'.disk.cover.None? <==> w.budget > 0 || w.disk.cover.None?)
            && (GuardedRead(w'.disk).Some? <==> w.budget == 0 && GuardedRead(w.disk).Some?)
  {
    CompareDecides(ChainOn(w.disk), log[..m], 0);
    ChainFrame(w.disk, PopulateOn(w, exec, log[..m]).0.disk);
  }

  /** Against a conflicting log a call touches no event and only ever lowers trust. */
  lemma {:induction false} RevokedWrites(w: World, exec: string, log: seq<LogEvent>, m: nat, k: nat)
    requires ConflictAt(ChainOn(w.disk), log, k) && m <= |log|
    ensures var d' := PopulateOn(w, exec, log[..m]).0.disk;
            && d'.ev == w.disk.ev && d'.ptr == w.disk.ptr
            && (d'.cover == w.disk.cover || d'.cover.None? || d'.cover == Some(("", 0)))
  {
    if m == 0 {
    } else {
      CompareConflict(ChainOn(w.disk), log, m, 0, k);
    }
  }

  lemma {:induction false} RevokedStep(w: World, exec: string, log: seq<LogEvent>, m: nat)
    requires Revoked(w.disk, log) && m <= |log|
    ensures Revoked(PopulateOn(w, exec, log[..m]).0.disk, log)
  {
    var k: nat :| ConflictAt(ChainOn(w.disk), log, k);
    var w' := PopulateOn(w, exec, log[..m]).0;
    RevokedWrites(w, exec, log, m, k);
    ChainFrame(w.disk, w'.disk);
  }

  /** From then on no run of calls on any snapshots of that log, cut off anywhere, makes
      the partition served again. */
  lemma {:induction false} RevokedStaysUnserved(d: Disk, exec: string, log: seq<LogEvent>, calls: seq<Call>)
    requires Revoked(d, log) && forall c | c in calls :: c.len <= |log|
    ensures GuardedRead(RunFrom(d, exec, log, calls)).None?
    decreases |calls|
  {
    if calls == [] {
      var k: nat :| ConflictAt(ChainOn(d), log, k);
    } else {
      RevokedStep(World(d, calls[0].budget), exec, log, calls[0].len);
      RevokedStaysUnserved(After(d, exec, log, calls[0]), exec, log, calls[1..]);
    }
  }

  /** A divergence whose delete landed: whatever calls follow on that log, the partition is
      not served. */
  lemma {:induction false} DivergedStaysUnserved(w: World, exec: string, log: seq<LogEvent>, m: nat, calls: seq<Call>)
    requires m <= |log| && (forall c | c in calls :: c.len <= |log|) && w.budget > 0
    requires var r := PopulateOn(w, exec, log[..m]).1; r.Some? && r.value.Diverged?
    ensures GuardedRead(RunFrom(PopulateOn(w, exec, log[..m]).0.disk, exec, log, calls)).None?
  {
    DivergedRevokesIff(w, exec, log, m);
    RevokedStaysUnserved(PopulateOn(w, exec, log[..m]).0.disk, exec, log, calls);
  }

  /** And one whose delete was lost: a one-event chain populated from one log is reported as
      diverged from another, and is served all the same. */
  lemma {:induction false} DivergedAndServed(exec: string, a: LogEvent, b: LogEvent) returns (d: Disk)
    requires !Blank(exec) && GoodLog([a]) && GoodLog([b]) && a.eventId != b.eventId
    ensures d == PopulateOn(World(BlankDisk, 5), exec, [a]).0.disk
    ensures var (w, r) := PopulateOn(World(d, 0), exec, [b]);
            r == Some(Diverged(0, a.eventId, b.eventId)) && GuardedRead(w.disk) == Some(LogPrefix(exec, [a], 1))
  {
    assert [a][..1] == [a];
    BlankConsistent(exec, [a]);
    UninterruptedServes(World(BlankDisk, 5), exec, [a], 1, 0);
    d := PopulateOn(World(BlankDisk, 5), exec, [a]).0.disk;
    ChainIsLogPrefix(d, exec, [a], 1);
  }

  // --- the populator itself ------------------------------------------------------------------

  class ChainPopulator {
    const store: DurableChainStore
    const substrate: Substrate

    constructor (store: DurableChainStore, substrate: Substrate)
      ensures this.store == store && this.substrate == substrate
    {
      this.store, this.substrate := store, substrate;
    }

    method Authority(ghost d: Disk, exec: string) returns (r: Option<(nat, nat)>)
      requires Rep(substrate.kv, exec, d)
      ensures r == d.mark
    {
      var found := substrate.GetAll(MarkKey(exec));
      if found.None? { return None; }
      RecordsRoundTrip(d.mark.value.0, d.mark.value.1, "");
      r := ReadMark(found.value.text);
    }

    method Coverage(ghost d: Disk, exec: string) returns (r: Option<(string, nat)>)
      requires Rep(substrate.kv, exec, d)
      ensures r == d.cover
    {
      var found := substrate.GetAll(CoverKey(exec));
      if found.None? { return None; }
      RecordsRoundTrip(d.cover.value.1, 0, d.cover.value.0);
      r := ReadCover(found.value.text);
    }

    method WriteWatermark(ghost d: Disk, exec: string, first: nat, through: nat) returns (ok: bool, ghost d': Disk)
      requires Rep(substrate.kv, exec, d) && first <= U64_MAX && through <= U64_MAX
      modifies substrate
      ensures (World(d', substrate.budget), ok) == PutMark(World(d, old(substrate.budget)), first, through)
      ensures Rep(substrate.kv, exec, d') && OnlyChanged(old(substrate.kv), substrate.kv, exec)
    {
      ghost var kv0 := substrate.kv;
      ok := substrate.PutOverwrite(MarkKey(exec), Text(MarkText(first, through)));
      d' := d;
      if ok {
        RepPutMark(kv0, exec, d, first, through);
        d' := d.(mark := Some((first, through)));
      }
    }

    method WriteCoverage(ghost d: Disk, exec: string, root: string, total: nat) returns (ok: bool, ghost d': Disk)
      requires Rep(substrate.kv, exec, d) && total <= U64_MAX
      modifies substrate
      ensures (World(d', substrate.budget), ok) == PutCover(World(d, old(substrate.budget)), root, total)
      ensures Rep(substrate.kv, exec, d') && OnlyChanged(old(substrate.kv), substrate.kv, exec)
    {
      d' := d;
      var existing := Coverage(d, exec);
      if existing.Some? && existing.value.1 > total && existing.value.0 == root { return true, d; }
      ghost var kv0 := substrate.kv;
      ok := substrate.PutOverwrite(CoverKey(exec), Text(CoverText(root, total)));
      if ok {
        RepPutCover(kv0, exec, d, root, total);
        d' := d.(cover := Some((root, total)));
      }
    }

    method ComparePrefix(stored: seq<ChainEvent>, events: seq<LogEvent>) returns (r: Option<FromLog>)
      ensures r == Compare(stored, events, 0)
      ensures Reports(stored, events, r) && (r.Some? ==> !r.value.InSync?)
    {
      CompareDecides(stored, events, 0);
      for i := 0 to |stored|
        invariant Compare(stored, events, 0) == Compare(stored, events, i)
      {
        if i >= |events| { return Some(StaleLog(|stored|, |events|)); }
        if events[i].eventId != stored[i].eventId {
          return Some(Diverged(i, stored[i].eventId, events[i].eventId));
        }
      }
      return None;
    }

    method ExtendFrom(ghost d: Disk, exec: string, events: seq<LogEvent>, from: nat) returns (ok: bool, ghost d': Disk)
      requires store.substrate == substrate && Rep(substrate.kv, exec, d)
      requires from <= |events| && HeadSeq(d) + |events| <= U64_MAX
      modifies substrate
      ensures (World(d', substrate.budget), ok) == Extend(World(d, old(substrate.budget)), exec, events, from)
      ensures Rep(substrate.kv, exec, d') && OnlyChanged(old(substrate.kv), substrate.kv, exec)
    {
      d' := d;
      for i := from to |events|
        invariant Extend(World(d, old(substrate.budget)), exec, events, from) ==
                  Extend(World(d', substrate.budget), exec, events, i)
        invariant Rep(substrate.kv, exec, d') && OnlyChanged(old(substrate.kv), substrate.kv, exec)
        invariant HeadSeq(d') + |events| - (i - from) <= U64_MAX
      {
        ghost var kv := substrate.kv;
        var r;
        r, d' := store.Append(d', exec, events[i].eventId, PrevIn(events, i),
                              events[i].parentExecutionId, events[i].payload);
        OnlyChangedTrans(old(substrate.kv), kv, substrate.kv, exec);
        if r.Err? { return false, d'; }
      }
      return true, d';
    }

    /** Reports how the stored chain and the snapshot stand to each other, and a conflict, unless
        its delete is lost, leaves the partition unserved. */
    method PopulateFromLog(ghost d: Disk, exec: string, events: seq<LogEvent>)
      returns (r: Option<FromLog>, ghost d': Disk)
      requires store.substrate == substrate && Rep(substrate.kv, exec, d)
      requires HeadSeq(d) + |events| <= U64_MAX
      modifies substrate
      ensures (World(d', substrate.budget), r) == PopulateOn(World(d, old(substrate.budget)), exec, events)
      ensures events != [] ==> Reports(ChainOn(d), events, r)
      ensures r.Some? && r.value.Diverged? && old(substrate.budget) > 0 ==> GuardedRead(d').None?
      ensures Rep(substrate.kv, exec, d') && OnlyChanged(old(substrate.kv), substrate.kv, exec)
    {
      PopulateOutcome(World(d, substrate.budget), exec, events);
      r, d' := Populate(d, exec, events);
    }

    method Populate(ghost d: Disk, exec: string, events: seq<LogEvent>)
      returns (r: Option<FromLog>, ghost d': Disk)
      requires store.substrate == substrate && Rep(substrate.kv, exec, d)
      requires HeadSeq(d) + |events| <= U64_MAX
      modifies substrate
      ensures (World(d', substrate.budget), r) == PopulateOn(World(d, old(substrate.budget)), exec, events)
      ensures Rep(substrate.kv, exec, d') && OnlyChanged(old(substrate.kv), substrate.kv, exec)
    {
      ghost var kv0 := substrate.kv;
      if events == [] {
        r, d' := CoverNothing(d, exec);
        return;
      }
      var stored := store.ChainOf(d, exec);
      var verdict := ComparePrefix(stored, events);
      d' := d;
      match verdict
      case Some(Diverged(_, _, _)) =>
        var gone := substrate.Delete(CoverKey(exec));
        if gone {
          RepDropCover(kv0, exec, d);
          d' := d.(cover := None);
        }
        return verdict, d';
      case Some(_) =>
        return verdict, d;
      case None =>
        r, d' := Grow(d, exec, events, |stored|);
    }

    method CoverNothing(ghost d: Disk, exec: string) returns (r: Option<FromLog>, ghost d': Disk)
      requires Rep(substrate.kv, exec, d)
      modifies substrate
      ensures (World(d', substrate.budget), r) == PopulateOn(World(d, old(substrate.budget)), exec, [])
      ensures Rep(substrate.kv, exec, d') && OnlyChanged(old(substrate.kv), substrate.kv, exec)
    {
      ghost var kv0 := substrate.kv;
      var ok;
      ok, d' := WriteWatermark(d, exec, 0, 0);
      if !ok { return None, d'; }
      ghost var kv1 := substrate.kv;
      ok, d' := WriteCoverage(d', exec, "", 0);
      OnlyChangedTrans(kv0, kv1, substrate.kv, exec);
      return (if ok then Some(InSync(0, 0)) else None), d';
    }

    /** Coverage, then the missing events, then the watermark. */
    method Grow(ghost d: Disk, exec: string, events: seq<LogEvent>, have: nat)
      returns (r: Option<FromLog>, ghost d': Disk)
      requires store.substrate == substrate && Rep(substrate.kv, exec, d)
      requires events != [] && have <= |events| && HeadSeq(d) + |events| <= U64_MAX
      modifies substrate
      ensures (World(d', substrate.budget), r) == GrowOn(World(d, old(substrate.budget)), exec, events, have)
      ensures Rep(substrate.kv, exec, d') && OnlyChanged(old(substrate.kv), substrate.kv, exec)
    {
      ghost var kv0 := substrate.kv;
      var ok;
      ok, d' := WriteCoverage(d, exec, events[0].eventId, |events|);
      if !ok { return None, d'; }
      ghost var kv1 := substrate.kv;
      ok, d' := ExtendFrom(d', exec, events, have);
      OnlyChangedTrans(kv0, kv1, substrate.kv, exec);
      if !ok { return None, d'; }
      ghost var kv2 := substrate.kv;
      ok, d' := WriteWatermark(d', exec, 1, |events|);
      OnlyChangedTrans(kv0, kv2, substrate.kv, exec);
      return (if ok then Some(InSync(|events|, |events| - have)) else None), d';
    }

    method ChainIfAuthoritative(ghost d: Disk, exec: string) returns (r: Option<seq<ChainEvent>>)
      requires store.substrate == substrate && Rep(substrate.kv, exec, d)
      ensures r == GuardedRead(d)
    {
      var mark := Authority(d, exec);
      if mark.None? { return None; }
      var head := store.HeadEntry(d, exec);
      if (if head.Some? then head.value.0 else 0) != mark.value.1 { return None; }
      var cover := Coverage(d, exec);
      if cover.None? { return None; }
      var chain := store.ChainOf(d, exec);
      if |chain| != cover.value.1 { return None; }
      if chain == [] {
        if cover.value.0 != "" { return None; }
      } else if chain[0].eventId != cover.value.0 { return None; }
      return Some(chain);
    }
  }
}
