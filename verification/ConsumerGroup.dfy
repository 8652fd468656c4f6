// The subject-routed group and its feed as they run
// (crates/ehdb-feed/src/group.rs, crates/ehdb-l0/src/feed.rs).

module ConsumerGroup {
  import opened Basics
  import opened OrderedKeys
  import opened Subjects
  import opened Groups
  import opened GroupRuns

  /** The batch is every record between the two cursors, in order, and all there is when it
      stays short of the limit. */
  ghost predicate HandsOver(log: seq<Record>, from: nat, to: nat, batch: seq<Record>, limit: nat) {
    && AscendingLog(batch) && |batch| <= limit
    && (forall r :: r in batch <==> r in log && from < r.key <= to)
    && (|batch| < limit ==> forall r | r in log && from < r.key :: r in batch)
  }

  lemma {:induction false} BatchHandsOver(log: seq<Record>, from: nat, limit: nat)
    requires AscendingLog(log)
    ensures var batch := Batch(log, from, limit);
            HandsOver(log, from, if batch == [] then from else batch[|batch| - 1].key, batch, limit)
  {
    var batch := Batch(log, from, limit);
    forall r ensures r in batch <==> r in log && batch != [] && from < r.key <= batch[|batch| - 1].key {
      BatchIsInterval(log, from, limit, r);
    }
    TailAscends(log, from);
    if |batch| < limit {
      forall r | r in log && from < r.key ensures r in batch { TailMembers(log, from, r); }
    }
  }

  /** A cursor over one shard's log. */
  class ChangeFeed {
    var cursor: nat

    constructor (from: nat)
      ensures cursor == from
    {
      cursor := from;
    }

    /** Hands over, in order, every record the cursor passes and no other; a batch short of the
        limit leaves nothing behind it. */
    method PollLimited(log: seq<Record>, limit: nat) returns (batch: seq<Record>)
      modifies this
      ensures batch == Batch(log, old(cursor), limit)
      ensures cursor == if batch == [] then old(cursor) else batch[|batch| - 1].key
      ensures AscendingLog(log) ==> HandsOver(log, old(cursor), cursor, batch, limit)
    {
      if AscendingLog(log) { BatchHandsOver(log, cursor, limit); }
      batch := Batch(log, cursor, limit);
      if batch != [] { cursor := batch[|batch| - 1].key; }
    }
  }

  // --- counting a backlog by subject ----------------------------------------------------------

  /** `counts` lists every seen subject, and every counted one, with its multiplicity. */
  ghost predicate Tallies(counts: map<string, nat>, seen: set<string>, names: multiset<string>) {
    && (forall n :: n in counts <==> n in seen || n in names)
    && (forall n | n in counts :: counts[n] == names[n])
  }

  function Bump(counts: map<string, nat>, n: string): map<string, nat> {
    counts[n := (if n in counts then counts[n] else 0) + 1]
  }

  lemma {:induction false} BumpTallies(counts: map<string, nat>, seen: set<string>, names: multiset<string>, n: string)
    requires Tallies(counts, seen, names)
    ensures Tallies(Bump(counts, n), seen, names + multiset{n})
  { }

  ghost function Total(counts: map<string, nat>): nat
    decreases |counts|
  {
    if |counts| == 0 then 0
    else
      var n :| n in counts;
      assert |counts - {n}| == |counts| - 1 by { assert (counts - {n}).Keys == counts.Keys - {n}; }
      counts[n] + Total(counts - {n})
  }

  /** The counts add up to the number of records counted. */
  lemma {:induction false} TotalIs(counts: map<string, nat>, seen: set<string>, names: multiset<string>)
    requires Tallies(counts, seen, names)
    ensures Total(counts) == |names|
    decreases |counts|
  {
    if |counts| == 0 {
      forall n ensures n !in names { assert n !in counts.Keys; }
      assert names == multiset{};
    } else {
      var n :| n in counts && Total(counts) == counts[n] + Total(counts - {n});
      assert (counts - {n}).Keys == counts.Keys - {n};
      TotalIs(counts - {n}, seen - {n}, names[n := 0]);
      assert |names[n := 0]| == |names| - names[n];
    }
  }

  ghost function PendingNames(pending: seq<Item>): multiset<string> {
    if pending == [] then multiset{}
    else PendingNames(pending[..|pending| - 1]) + multiset{Name(pending[|pending| - 1].subject)}
  }

  ghost function FlightNames(inflight: map<nat, Flight>, ks: seq<nat>): multiset<string>
    requires forall k | k in ks :: k in inflight
  {
    if ks == [] then multiset{}
    else FlightNames(inflight, ks[..|ks| - 1]) + multiset{Name(inflight[ks[|ks| - 1]].subject)}
  }

  ghost function TailNames(tail: seq<Record>, route: Route): multiset<string> {
    if tail == [] then multiset{}
    else TailNames(tail[..|tail| - 1], route) + multiset{Name(route(tail[|tail| - 1]))}
  }

  /** The subject of every record the group holds open or has yet to pull. */
  ghost function BacklogNames(g: Group, log: seq<Record>, route: Route): multiset<string> {
    PendingNames(g.pending) + FlightNames(g.inflight, Ascending(g.inflight.Keys))
    + TailNames(TailAfter(log, g.frontier), route)
  }

  lemma {:induction false} NamesCount(pending: seq<Item>, inflight: map<nat, Flight>, ks: seq<nat>, tail: seq<Record>, route: Route)
    requires forall k | k in ks :: k in inflight
    ensures |PendingNames(pending)| == |pending|
    ensures |FlightNames(inflight, ks)| == |ks|
    ensures |TailNames(tail, route)| == |tail|
    decreases |pending| + |ks| + |tail|
  {
    if pending != [] { NamesCount(pending[..|pending| - 1], inflight, ks, tail, route); }
    if ks != [] { NamesCount(pending, inflight, ks[..|ks| - 1], tail, route); }
    if tail != [] { NamesCount(pending, inflight, ks, tail[..|tail| - 1], route); }
  }

  lemma {:induction false} AscendingCount(s: set<nat>)
    ensures |Ascending(s)| == |s|
  {
    if s != {} { AscendingCount(s - {MaxKey(s)}); }
  }

  /** Per-subject lags never sum to more than the shard's lag, and to exactly that when and
      only when nothing above the committed cursor has been acked. */
  lemma {:induction false} SubjectLagsSum(g: Group, log: seq<Record>, route: Route, from: nat, acked: set<nat>,
                                          counts: map<string, nat>)
    requires Tracks(g, log, route, from, acked)
    requires Tallies(counts, g.seen, BacklogNames(g, log, route))
    ensures Total(counts) + |AckedAbove(g, acked)| == Lag(g, log)
    ensures Total(counts) == Lag(g, log) <==> forall k | k in acked :: k <= Committed(g)
  {
    TotalIs(counts, g.seen, BacklogNames(g, log, route));
    NamesCount(g.pending, g.inflight, Ascending(g.inflight.Keys), TailAfter(log, g.frontier), route);
    AscendingCount(g.inflight.Keys);
    LagSplits(g, log, route, from, acked);
    if k :| k in acked && k > Committed(g) { assert k in AckedAbove(g, acked); }
    if k :| k in AckedAbove(g, acked) { assert k in acked; }
  }

  // --- the group --------------------------------------------------------------------------------

  class SubjectConsumerGroup {
    const ackWait: nat
    const route: Route
    const feed: ChangeFeed
    var frontier: nat
    var pending: seq<Item>
    var inflight: map<nat, Flight>
    var bound: nat
    var seen: set<string>

    ghost function View(): Group
      reads this, feed
    {
      Group(ackWait, feed.cursor, frontier, pending, inflight, bound, seen)
    }

    constructor (ackWait: nat, from: nat, route: Route)
      ensures View() == Fresh(ackWait, from) && this.route == route && fresh(feed)
    {
      this.ackWait, this.route := ackWait, route;
      feed := new ChangeFeed(from);
      frontier, pending, inflight, bound, seen := from, [], map[], U64_MAX, {};
    }

    method Refill(log: seq<Record>, limit: nat)
      modifies this, feed
      ensures View() == Pulled(old(View()), Batch(log, old(feed.cursor), limit), route)
    {
      ghost var g := View();
      var batch := feed.PollLimited(log, limit);
      for i := 0 to |batch|
        modifies this
        invariant frontier == TopKey(g.frontier, batch[..i])
        invariant pending == g.pending + Tagged(batch[..i], route)
        invariant seen == g.seen + NamesOf(batch[..i], route)
        invariant inflight == g.inflight && bound == g.bound
      {
        var r := batch[i];
        frontier := Max(frontier, r.key);
        var subject := route(r);
        seen := seen + {Name(subject)};
        pending := pending + [Item(subject, r)];
        PullNext(g, batch, i, route);
      }
      assert batch[..|batch|] == batch;
    }

    method Scan(filter: Filter, now: Tick) returns (found: Option<nat>)
      requires bound <= now
      modifies this`bound
      ensures var due := Due(old(View()), filter, now);
              found == if due == {} then None else Some(MinKey(due))
      ensures View() == if found.Some? then old(View()) else Rebound(old(View()), now)
    {
      var anyExpired, minDeadline;
      found, anyExpired, minDeadline := ScanFlights(View(), inflight, filter, now);
      if !anyExpired { bound := minDeadline; }
    }

    /** Assign the next matching record: a due retry first, else the first fresh one. */
    method PollAssign(log: seq<Record>, limit: nat, filter: Filter, member: nat, now: Tick)
      returns (d: Option<Delivery>)
      modifies this, feed
      ensures (View(), d) == PollSpec(old(View()), Batch(log, old(feed.cursor), limit), route, filter, member, now)
      ensures BoundHolds(old(View())) ==>
                var g := Pulled(old(View()), Batch(log, old(feed.cursor), limit), route);
                d.None? <==> Due(g, filter, now) == {} && forall i: nat :: !Wants(g, filter, i)
    {
      ghost var g0 := Pulled(View(), Batch(log, feed.cursor, limit), route);
      if BoundHolds(View()) { NoneIff(g0, filter, member, now); }
      Refill(log, limit);
      ghost var g1 := View();
      var expired: Option<nat> := None;
      if bound <= now { expired := Scan(filter, now); }
      if expired.Some? {
        var k := expired.value;
        var f := inflight[k].(member := member, deadline := SaturatingAdd(now, ackWait), redelivered := true);
        inflight := inflight[k := f];
        return Some(Delivery(f.record, k, member, true));
      }
      d := AssignNext(filter, member, now);
    }

    method AssignNext(filter: Filter, member: nat, now: Tick) returns (d: Option<Delivery>)
      modifies this
      ensures (View(), d) == AssignFresh(old(View()), filter, member, now)
    {
      var first := FindFirst(pending, filter);
      if first.None? { return None; }
      var pos := first.value;
      FirstMatchIs(pending, filter, 0);
      var it := pending[pos];
      pending := pending[..pos] + pending[pos + 1..];
      var deadline := SaturatingAdd(now, ackWait);
      bound := Min(bound, deadline);
      inflight := inflight[it.record.key := Flight(it.record, it.subject, member, deadline, false)];
      return Some(Delivery(it.record, it.record.key, member, false));
    }

    method Ack(k: nat) returns (was: bool)
      modifies this
      ensures (View(), was) == AckSpec(old(View()), k)
    {
      was := k in inflight;
      inflight := inflight - {k};
    }

    method ExpireNow(k: nat) returns (was: bool)
      modifies this
      ensures (View(), was) == ExpireSpec(old(View()), k)
    {
      was := k in inflight;
      if was {
        inflight := inflight[k := inflight[k].(deadline := 0)];
        bound := 0;
      }
    }

    /** The queue's front is its least key only because the queue stays ascending. */
    method CommittedCursor() returns (c: nat)
      requires PendingAscends(pending)
      ensures c == Committed(View())
    {
      var lowest := FirstKey(inflight.Keys);
      if pending != [] {
        var front := pending[0].record.key;
        lowest := if lowest.Some? then Some(Min(lowest.value, front)) else Some(front);
      }
      LowestOpen(View(), lowest);
      match lowest
      case None => return frontier;
      case Some(open) => return if open == 0 then 0 else open - 1;
    }

    method LagOf(log: seq<Record>) returns (n: nat)
      requires PendingAscends(pending)
      ensures n == Lag(View(), log)
    {
      var c := CommittedCursor();
      n := |TailAfter(log, c)|;
    }

    method SubjectLags(log: seq<Record>) returns (counts: map<string, nat>)
      ensures Tallies(counts, seen, BacklogNames(View(), log, route))
    {
      counts := CountsInHand();
      ghost var held := PendingNames(pending) + FlightNames(inflight, Ascending(inflight.Keys));
      counts := CountTail(counts, seen, held, TailAfter(log, frontier), route);
    }

    method CountsInHand() returns (counts: map<string, nat>)
      ensures Tallies(counts, seen, PendingNames(pending) + FlightNames(inflight, Ascending(inflight.Keys)))
    {
      counts := CountPending(seen, pending);
      counts := CountFlights(counts, seen, PendingNames(pending), inflight);
    }
  }

  lemma {:induction false} NoneIff(g: Group, filter: Filter, member: nat, now: Tick)
    requires BoundHolds(g)
    ensures Assign(g, filter, member, now).1.None? <==> Due(g, filter, now) == {} && forall i: nat :: !Wants(g, filter, i)
  {
    forall i: nat | Assign(g, filter, member, now).1.None? ensures !Wants(g, filter, i) { DeliversIff(g, filter, member, now, i); }
    DeliversIff(g, filter, member, now, 0);
  }

  method CountPending(seen: set<string>, pending: seq<Item>) returns (counts: map<string, nat>)
    ensures Tallies(counts, seen, PendingNames(pending))
  {
    counts := map s | s in seen :: 0;
    for i := 0 to |pending|
      invariant Tallies(counts, seen, PendingNames(pending[..i]))
    {
      BumpTallies(counts, seen, PendingNames(pending[..i]), Name(pending[i].subject));
      counts := Bump(counts, Name(pending[i].subject));
      assert pending[..i + 1][..i] == pending[..i];
    }
    assert pending[..|pending|] == pending;
  }

  method CountFlights(have: map<string, nat>, ghost seen: set<string>, ghost names: multiset<string>,
                      inflight: map<nat, Flight>) returns (counts: map<string, nat>)
    requires Tallies(have, seen, names)
    ensures Tallies(counts, seen, names + FlightNames(inflight, Ascending(inflight.Keys)))
  {
    counts := have;
    var ks := KeysInOrder(inflight.Keys);
    assert forall k | k in ks :: k in inflight;
    for i := 0 to |ks|
      invariant Tallies(counts, seen, names + FlightNames(inflight, ks[..i]))
    {
      FlightTallies(counts, seen, names, inflight, ks, i);
      counts := Bump(counts, Name(inflight[ks[i]].subject));
    }
    assert ks[..|ks|] == ks;
  }

  lemma {:induction false} FlightTallies(counts: map<string, nat>, seen: set<string>, names: multiset<string>,
                                         inflight: map<nat, Flight>, ks: seq<nat>, i: nat)
    requires i < |ks| && forall k | k in ks :: k in inflight
    requires Tallies(counts, seen, names + FlightNames(inflight, ks[..i]))
    ensures Tallies(Bump(counts, Name(inflight[ks[i]].subject)), seen, names + FlightNames(inflight, ks[..i + 1]))
  {
    var before, n := FlightNames(inflight, ks[..i]), Name(inflight[ks[i]].subject);
    BumpTallies(counts, seen, names + before, n);
    assert ks[..i + 1][..i] == ks[..i];
  }

  method CountTail(have: map<string, nat>, ghost seen: set<string>, ghost names: multiset<string>,
                   tail: seq<Record>, route: Route) returns (counts: map<string, nat>)
    requires Tallies(have, seen, names)
    ensures Tallies(counts, seen, names + TailNames(tail, route))
  {
    counts := have;
    for i := 0 to |tail|
      invariant Tallies(counts, seen, names + TailNames(tail[..i], route))
    {
      ghost var before := TailNames(tail[..i], route);
      var n := Name(route(tail[i]));
      BumpTallies(counts, seen, names + before, n);
      counts := Bump(counts, n);
      assert tail[..i + 1][..i] == tail[..i];
      SumAssociates(names, before, n);
    }
    assert tail[..|tail|] == tail;
  }

  lemma {:induction false} SumAssociates(a: multiset<string>, b: multiset<string>, n: string)
    ensures a + b + multiset{n} == a + (b + multiset{n})
  { }

  lemma {:induction false} PullNext(g: Group, batch: seq<Record>, i: nat, route: Route)
    requires i < |batch|
    ensures TopKey(g.frontier, batch[..i + 1]) == Max(TopKey(g.frontier, batch[..i]), batch[i].key)
    ensures Tagged(batch[..i + 1], route) == Tagged(batch[..i], route) + [Item(route(batch[i]), batch[i])]
    ensures NamesOf(batch[..i + 1], route) == NamesOf(batch[..i], route) + {Name(route(batch[i]))}
  {
    var a, b := batch[..i], batch[..i + 1];
    assert b[..i] == a && b == a + [batch[i]];
    forall n ensures n in NamesOf(b, route) <==> n in NamesOf(a, route) + {Name(route(batch[i]))} {
      if r :| r in a && Name(route(r)) == n { assert r in b; }
    }
  }

  method FindFirst(pending: seq<Item>, filter: Filter) returns (pos: Option<nat>)
    ensures pos == FirstMatch(pending, filter, 0)
  {
    for i := 0 to |pending|
      invariant FirstMatch(pending, filter, 0) == FirstMatch(pending, filter, i)
    {
      var matches := DoesMatch(filter, pending[i].subject);
      if matches { return Some(i); }
    }
    return None;
  }

  /** One pass over the in-flight records in key order, stopping at the first that is due
      and matches; it learns the true minimum deadline only if it sees them all. */
  method ScanFlights(ghost g: Group, inflight: map<nat, Flight>, filter: Filter, now: Tick)
    returns (found: Option<nat>, anyExpired: bool, minDeadline: nat)
    requires g.inflight == inflight
    ensures FoundLeastDue(g, filter, now, found)
    ensures found.Some? ==> anyExpired
    ensures found.None? ==> (anyExpired <==> AnyExpired(g, now))
    ensures !anyExpired ==> minDeadline == MinDeadline(inflight)
  {
    var ks := KeysInOrder(inflight.Keys);
    found, anyExpired, minDeadline := ScanKeys(g, inflight, ks, filter, now);
    if found.None? { ScannedAll(g, filter, now, ks, anyExpired, minDeadline); }
  }

  method ScanKeys(ghost g: Group, inflight: map<nat, Flight>, ks: seq<nat>, filter: Filter, now: Tick)
    returns (found: Option<nat>, anyExpired: bool, minDeadline: nat)
    requires g.inflight == inflight && Ascends(ks, inflight.Keys)
    ensures found.Some? ==> FoundLeastDue(g, filter, now, found) && anyExpired
    ensures found.None? ==> Scanned(g, filter, now, ks, anyExpired, minDeadline)
  {
    minDeadline, anyExpired := U64_MAX, false;
    for i := 0 to |ks|
      invariant Scanned(g, filter, now, ks[..i], anyExpired, minDeadline)
    {
      var k := ks[i];
      assert k in inflight.Keys;
      if inflight[k].deadline <= now {
        var matches := DoesMatch(filter, inflight[k].subject);
        if matches {
          LeastDue(g, filter, now, ks, i, anyExpired, minDeadline);
          return Some(k), true, minDeadline;
        }
      }
      TakeOneMore(ks, i);
      ScanPasses(g, filter, now, ks[..i], anyExpired, minDeadline, k);
      if inflight[k].deadline <= now {
        anyExpired := true;
      } else {
        minDeadline := Min(minDeadline, inflight[k].deadline);
      }
    }
    assert ks[..|ks|] == ks;
    found := None;
  }

  ghost predicate FoundLeastDue(g: Group, filter: Filter, now: Tick, found: Option<nat>) {
    var due := Due(g, filter, now);
    found == if due == {} then None else Some(MinKey(due))
  }

  /** What the pass knows after the keys `ks`, none of which it stopped at. */
  ghost predicate Scanned(g: Group, filter: Filter, now: Tick, ks: seq<nat>, anyExpired: bool, minDeadline: nat) {
    && (forall k | k in ks :: k in g.inflight && k !in Due(g, filter, now))
    && (anyExpired <==> ExpiredAmong(g, now, ks))
    && (!anyExpired ==> minDeadline == MinOver(g.inflight, ks))
  }

  lemma {:induction false} ScanPasses(g: Group, filter: Filter, now: Tick, ks: seq<nat>, anyExpired: bool, minDeadline: nat, k: nat)
    requires Scanned(g, filter, now, ks, anyExpired, minDeadline) && k in g.inflight && k !in Due(g, filter, now)
    ensures if g.inflight[k].deadline <= now then Scanned(g, filter, now, ks + [k], true, minDeadline)
            else Scanned(g, filter, now, ks + [k], anyExpired, Min(minDeadline, g.inflight[k].deadline))
  { }

  lemma {:induction false} LeastDue(g: Group, filter: Filter, now: Tick, ks: seq<nat>, i: nat, anyExpired: bool, minDeadline: nat)
    requires Ascends(ks, g.inflight.Keys) && i < |ks| && ks[i] in Due(g, filter, now)
    requires Scanned(g, filter, now, ks[..i], anyExpired, minDeadline)
    ensures FoundLeastDue(g, filter, now, Some(ks[i]))
  { }

  lemma {:induction false} ScannedAll(g: Group, filter: Filter, now: Tick, ks: seq<nat>, anyExpired: bool, minDeadline: nat)
    requires Ascends(ks, g.inflight.Keys) && Scanned(g, filter, now, ks, anyExpired, minDeadline)
    ensures FoundLeastDue(g, filter, now, None)
    ensures anyExpired <==> AnyExpired(g, now)
    ensures !anyExpired ==> minDeadline == MinDeadline(g.inflight)
  {
    AscendsUnique(ks, Ascending(g.inflight.Keys), g.inflight.Keys);
    forall k | k in g.inflight.Keys ensures k in ks { }
    forall k ensures k !in Due(g, filter, now) { }
    AmongIs(g, now, ks);
  }

  ghost predicate ExpiredAmong(g: Group, now: Tick, ks: seq<nat>) {
    ks != [] && (Expired(g, now, ks[|ks| - 1]) || ExpiredAmong(g, now, ks[..|ks| - 1]))
  }

  lemma {:induction false} AmongIs(g: Group, now: Tick, ks: seq<nat>)
    ensures ExpiredAmong(g, now, ks) <==> exists k :: k in ks && Expired(g, now, k)
    decreases |ks|
  {
    if ks != [] {
      AmongIs(g, now, ks[..|ks| - 1]);
    }
  }

  lemma {:induction false} LowestOpen(g: Group, lowest: Option<nat>)
    requires PendingAscends(g.pending)
    requires var a := if g.inflight.Keys == {} then None else Some(MinKey(g.inflight.Keys));
             lowest == if g.pending == [] then a
                       else if a.Some? then Some(Min(a.value, g.pending[0].record.key))
                       else Some(g.pending[0].record.key)
    ensures lowest == if OpenKeys(g) == {} then None else Some(MinKey(OpenKeys(g)))
  {
    if g.pending == [] {
    } else {
      forall k | k in OpenKeys(g) ensures lowest.value <= k {
        if k in PendingKeys(g) {
          var i :| 0 <= i < |g.pending| && g.pending[i].record.key == k;
        }
      }
      MinIs(OpenKeys(g), lowest.value);
    }
  }
}
