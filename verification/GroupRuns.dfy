// What every run of a consumer group keeps, within one life and across restarts
// (crates/ehdb-feed/src/group.rs, crates/ehdb-feed/src/claim.rs, crates/ehdb-feed/src/cursor.rs).

module GroupRuns {
  import opened Basics
  import opened OrderedKeys
  import opened Subjects
  import opened Groups

  // --- pending, in flight, acked: a partition of what was pulled ------------------------------

  ghost predicate ExactlyOne(g: Group, acked: set<nat>, k: nat) {
    && (k in PendingKeys(g) || k in g.inflight || k in acked)
    && !(k in PendingKeys(g) && k in g.inflight)
    && !(k in PendingKeys(g) && k in acked)
    && !(k in g.inflight && k in acked)
  }

  ghost predicate Queued(g: Group, log: seq<Record>, route: Route, from: nat, it: Item) {
    it.record in log && from < it.record.key <= g.cursor && it.subject == route(it.record)
  }

  ghost predicate Flying(g: Group, log: seq<Record>, route: Route, from: nat, k: nat) {
    && k in g.inflight && g.inflight[k].record in log && g.inflight[k].record.key == k
    && from < k <= g.cursor && g.inflight[k].subject == route(g.inflight[k].record)
  }

  ghost predicate Logged(log: seq<Record>, k: nat) { exists r :: r in log && r.key == k }

  ghost predicate PendingAscends(pending: seq<Item>) {
    forall i, j | 0 <= i < j < |pending| :: pending[i].record.key < pending[j].record.key
  }

  /** `acked` holds the keys acked since the group was built at `from`. */
  ghost predicate Tracks(g: Group, log: seq<Record>, route: Route, from: nat, acked: set<nat>) {
    && AscendingLog(log)
    && g.frontier == g.cursor && from <= g.cursor
    && PendingAscends(g.pending)
    && (forall it | it in g.pending :: Queued(g, log, route, from, it))
    && (forall k | k in g.inflight :: Flying(g, log, route, from, k))
    && (forall k | k in acked :: from < k <= g.cursor && Logged(log, k))
    && (forall r | r in log && from < r.key <= g.cursor :: ExactlyOne(g, acked, r.key))
  }

  lemma {:induction false} FreshTracks(ackWait: nat, from: nat, log: seq<Record>, route: Route)
    requires AscendingLog(log)
    ensures Tracks(Fresh(ackWait, from), log, route, from, {}) && BoundHolds(Fresh(ackWait, from))
  { }

  lemma {:induction false} PendingKeysPulled(g: Group, batch: seq<Record>, route: Route, k: nat)
    ensures k in PendingKeys(Pulled(g, batch, route)) <==> k in PendingKeys(g) || exists r :: r in batch && r.key == k
  {
    var g' := Pulled(g, batch, route);
    if it :| it in g.pending && it.record.key == k { assert it in g'.pending; }
    if r :| r in batch && r.key == k {
      var i :| 0 <= i < |batch| && batch[i] == r;
      assert g'.pending[|g.pending| + i] == Item(route(r), r);
    }
  }

  lemma {:induction false} TopOfBatch(f: nat, batch: seq<Record>)
    requires AscendingLog(batch) && forall r | r in batch :: f < r.key
    ensures TopKey(f, batch) == if batch == [] then f else batch[|batch| - 1].key
  {
    if batch != [] {
      var front := batch[..|batch| - 1];
      TopOfBatch(f, front);
      if front != [] { assert batch[|batch| - 2].key < batch[|batch| - 1].key; }
    }
  }

  lemma {:induction false} PulledFrame(g: Group, log: seq<Record>, route: Route, from: nat, acked: set<nat>, limit: nat)
    requires Tracks(g, log, route, from, acked)
    ensures var b := Batch(log, g.cursor, limit); var g' := Pulled(g, b, route);
            && AscendingLog(b) && (forall r | r in b :: r in log && g.cursor < r.key <= g'.cursor)
            && g.cursor <= g'.cursor && g'.frontier == g'.cursor
  {
    var b := Batch(log, g.cursor, limit);
    forall r | r in b ensures r in log && g.cursor < r.key <= Pulled(g, b, route).cursor {
      BatchIsInterval(log, g.cursor, limit, r);
    }
    BatchIsInterval(log, g.cursor, limit, Record(0, ""));
    TopOfBatch(g.frontier, b);
    if b != [] { assert b[|b| - 1] in b; }
  }

  lemma {:induction false} PulledQueue(g: Group, log: seq<Record>, route: Route, from: nat, acked: set<nat>, limit: nat)
    requires Tracks(g, log, route, from, acked)
    ensures var g' := Pulled(g, Batch(log, g.cursor, limit), route);
            PendingAscends(g'.pending) && forall it | it in g'.pending :: Queued(g', log, route, from, it)
  {
    PulledFrame(g, log, route, from, acked, limit);
    var b := Batch(log, g.cursor, limit);
    var g' := Pulled(g, b, route);
    forall it | it in g'.pending ensures Queued(g', log, route, from, it) {
      if it in g.pending { assert Queued(g, log, route, from, it); } else { assert it.record in b; }
    }
    forall i, j | 0 <= i < j < |g'.pending| ensures g'.pending[i].record.key < g'.pending[j].record.key {
      if i < |g.pending| <= j {
        assert g.pending[i] in g.pending && Queued(g, log, route, from, g.pending[i]);
      }
    }
  }

  lemma {:induction false} PullTracks(g: Group, log: seq<Record>, route: Route, from: nat, acked: set<nat>, limit: nat)
    requires Tracks(g, log, route, from, acked)
    ensures Tracks(Pulled(g, Batch(log, g.cursor, limit), route), log, route, from, acked)
  {
    PulledFrame(g, log, route, from, acked, limit);
    PulledQueue(g, log, route, from, acked, limit);
    var b := Batch(log, g.cursor, limit);
    var g' := Pulled(g, b, route);
    forall k | k in g'.inflight ensures Flying(g', log, route, from, k) { assert Flying(g, log, route, from, k); }
    forall r | r in log && from < r.key <= g'.cursor ensures ExactlyOne(g', acked, r.key) {
      PulledKeyAccounted(g, log, route, from, acked, limit, r);
    }
  }

  lemma {:induction false} PulledKeyAccounted(g: Group, log: seq<Record>, route: Route, from: nat, acked: set<nat>,
                                              limit: nat, r: Record)
    requires Tracks(g, log, route, from, acked) && r in log && from < r.key
    requires r.key <= Pulled(g, Batch(log, g.cursor, limit), route).cursor
    ensures ExactlyOne(Pulled(g, Batch(log, g.cursor, limit), route), acked, r.key)
  {
    PulledFrame(g, log, route, from, acked, limit);
    var b := Batch(log, g.cursor, limit);
    PendingKeysPulled(g, b, route, r.key);
    if r.key <= g.cursor {
    } else {
      BatchIsInterval(log, g.cursor, limit, r);
    }
  }

  lemma {:induction false} PendingKeysTaken(g: Group, pos: nat, member: nat, now: Tick, k: nat)
    requires PendingAscends(g.pending) && pos < |g.pending|
    ensures k in PendingKeys(Taken(g, pos, member, now).0) <==> k in PendingKeys(g) && k != g.pending[pos].record.key
  { }

  lemma {:induction false} TakenQueue(g: Group, log: seq<Record>, route: Route, from: nat, acked: set<nat>,
                                      pos: nat, member: nat, now: Tick)
    requires Tracks(g, log, route, from, acked) && pos < |g.pending|
    ensures var g' := Taken(g, pos, member, now).0;
            && PendingAscends(g'.pending)
            && (forall x | x in g'.pending :: Queued(g', log, route, from, x))
            && (forall k :: k in PendingKeys(g') <==> k in PendingKeys(g) && k != g.pending[pos].record.key)
            && g.pending[pos].record.key in PendingKeys(g)
  {
    var g' := Taken(g, pos, member, now).0;
    var it := g.pending[pos];
    assert it in g.pending && it.record.key in PendingKeys(g);
    forall k ensures k in PendingKeys(g') <==> k in PendingKeys(g) && k != it.record.key {
      PendingKeysTaken(g, pos, member, now, k);
    }
    forall x | x in g'.pending ensures Queued(g', log, route, from, x) {
      assert x in g.pending && Queued(g, log, route, from, x);
    }
  }

  lemma {:induction false} TakenTracks(g: Group, log: seq<Record>, route: Route, from: nat, acked: set<nat>,
                                       pos: nat, member: nat, now: Tick)
    requires Tracks(g, log, route, from, acked) && pos < |g.pending|
    ensures Tracks(Taken(g, pos, member, now).0, log, route, from, acked)
    ensures OpenKeys(Taken(g, pos, member, now).0) == OpenKeys(g)
  {
    var g' := Taken(g, pos, member, now).0;
    var it := g.pending[pos];
    assert it in g.pending && Queued(g, log, route, from, it);
    TakenQueue(g, log, route, from, acked, pos, member, now);
    forall k | k in g'.inflight ensures Flying(g', log, route, from, k) {
      if k != it.record.key { assert Flying(g, log, route, from, k); }
    }
    forall r | r in log && from < r.key <= g'.cursor ensures ExactlyOne(g', acked, r.key) {
      assert ExactlyOne(g, acked, r.key);
    }
  }

  lemma {:induction false} RedeliveredTracks(g: Group, log: seq<Record>, route: Route, from: nat, acked: set<nat>,
                                             k: nat, member: nat, now: Tick)
    requires Tracks(g, log, route, from, acked) && k in g.inflight
    ensures Tracks(Redelivered(g, k, member, now).0, log, route, from, acked)
    ensures OpenKeys(Redelivered(g, k, member, now).0) == OpenKeys(g)
  { }

  /** Rewriting deadlines and members touches nothing that is tracked. */
  lemma {:induction false} SameKeysTrack(g: Group, g': Group, log: seq<Record>, route: Route, from: nat, acked: set<nat>)
    requires Tracks(g, log, route, from, acked)
    requires g'.pending == g.pending && g'.cursor == g.cursor && g'.frontier == g.frontier
    requires g'.inflight.Keys == g.inflight.Keys
    requires forall k | k in g.inflight ::
               g'.inflight[k].record == g.inflight[k].record && g'.inflight[k].subject == g.inflight[k].subject
    ensures Tracks(g', log, route, from, acked)
    ensures OpenKeys(g') == OpenKeys(g)
  { }

  lemma {:induction false} AssignTracks(g: Group, log: seq<Record>, route: Route, from: nat, acked: set<nat>,
                                        filter: Filter, member: nat, now: Tick)
    requires Tracks(g, log, route, from, acked)
    ensures Tracks(Assign(g, filter, member, now).0, log, route, from, acked)
    ensures OpenKeys(Assign(g, filter, member, now).0) == OpenKeys(g)
    ensures Assign(g, filter, member, now).0.frontier == g.frontier
  {
    var due := Due(g, filter, now);
    if g.bound > now || due == {} {
      var g1 := Rebound(g, now);
      SameKeysTrack(g, g1, log, route, from, acked);
      FirstMatchIs(g1.pending, filter, 0);
      var pos := FirstMatch(g1.pending, filter, 0);
      if pos.Some? { TakenTracks(g1, log, route, from, acked, pos.value, member, now); }
    } else {
      RedeliveredTracks(g, log, route, from, acked, MinKey(due), member, now);
    }
  }

  lemma {:induction false} AckTracks(g: Group, log: seq<Record>, route: Route, from: nat, acked: set<nat>, k: nat)
    requires Tracks(g, log, route, from, acked)
    ensures var (g', was) := AckSpec(g, k);
            Tracks(g', log, route, from, if was then acked + {k} else acked)
    ensures OpenKeys(AckSpec(g, k).0) == OpenKeys(g) - (if k in g.inflight then {k} else {})
  { }

  lemma {:induction false} ExpireTracks(g: Group, log: seq<Record>, route: Route, from: nat, acked: set<nat>, k: nat)
    requires Tracks(g, log, route, from, acked)
    ensures Tracks(ExpireSpec(g, k).0, log, route, from, acked)
    ensures OpenKeys(ExpireSpec(g, k).0) == OpenKeys(g)
  {
    SameKeysTrack(g, ExpireSpec(g, k).0, log, route, from, acked);
  }

  lemma {:induction false} AppendTracks(g: Group, log: seq<Record>, route: Route, from: nat, acked: set<nat>, r: Record)
    requires Tracks(g, log, route, from, acked) && g.cursor < r.key && forall x | x in log :: x.key < r.key
    ensures Tracks(g, log + [r], route, from, acked)
  { }

  // --- what a poll hands out ---------------------------------------------------------------------

  /** In flight, past its deadline, and the filter may take it over. */
  ghost predicate Overdue(g: Group, filter: Filter, now: Tick, k: nat) {
    k in g.inflight && g.inflight[k].deadline <= now && Matches(filter, g.inflight[k].subject)
  }

  /** In the log up to `to`, neither acked nor in flight, and of interest to the filter. */
  ghost predicate Unassigned(g: Group, log: seq<Record>, route: Route, from: nat, to: nat, acked: set<nat>,
                             filter: Filter, r: Record) {
    r in log && from < r.key <= to && r.key !in acked && r.key !in g.inflight && Matches(filter, route(r))
  }

  /** Which of the log's records are queued. */
  lemma {:induction false} QueuedIffUnassigned(g: Group, log: seq<Record>, route: Route, from: nat, acked: set<nat>,
                                               filter: Filter, r: Record)
    requires Tracks(g, log, route, from, acked)
    ensures Unassigned(g, log, route, from, g.cursor, acked, filter, r) <==>
            Matches(filter, route(r)) && exists i :: 0 <= i < |g.pending| && g.pending[i].record == r
  {
    if i :| 0 <= i < |g.pending| && g.pending[i].record == r {
      assert g.pending[i] in g.pending && Queued(g, log, route, from, g.pending[i]);
      assert r.key in PendingKeys(g) && ExactlyOne(g, acked, r.key);
    }
    if Unassigned(g, log, route, from, g.cursor, acked, filter, r) {
      assert ExactlyOne(g, acked, r.key);
      var it :| it in g.pending && it.record.key == r.key;
      assert Queued(g, log, route, from, it);
      SameKeySameRecord(log, it.record, r);
    }
  }

  lemma {:induction false} SameKeySameRecord(log: seq<Record>, a: Record, b: Record)
    requires AscendingLog(log) && a in log && b in log && a.key == b.key
    ensures a == b
  { }

  /** The group with a batch queued is asked: a record overdue goes first, the least such; else
      the least unassigned one; and the poll comes back empty only if there is neither. What is
      handed out is in flight for its full wait, and nothing else in flight is touched. */
  lemma {:induction false} AssignDelivers(g: Group, log: seq<Record>, route: Route, from: nat, acked: set<nat>,
                                          filter: Filter, member: nat, now: Tick, r: Record)
    requires Tracks(g, log, route, from, acked) && BoundHolds(g)
    ensures var (g', d) := Assign(g, filter, member, now);
            && (Overdue(g, filter, now, r.key) ==> d.Some? && d.value.redelivered && d.value.key <= r.key)
            && (Unassigned(g, log, route, from, g.cursor, acked, filter, r) ==>
                d.Some? && (d.value.redelivered || d.value.key <= r.key))
            && (d.Some? ==> Handed(g, g', log, route, from, acked, filter, member, now, d.value))
            && (d.None? ==> g'.inflight == g.inflight)
  {
    var due := Due(g, filter, now);
    if Overdue(g, filter, now, r.key) { assert r.key in due; }
    if due != {} {
      assert MinKey(due) in due;
      assert Flying(g, log, route, from, MinKey(due));
    } else {
      SameKeysTrack(g, Rebound(g, now), log, route, from, acked);
      FreshDelivers(Rebound(g, now), log, route, from, acked, filter, member, now, r);
    }
  }

  lemma {:induction false} FreshDelivers(g: Group, log: seq<Record>, route: Route, from: nat, acked: set<nat>,
                                         filter: Filter, member: nat, now: Tick, r: Record)
    requires Tracks(g, log, route, from, acked)
    ensures var (g', d) := AssignFresh(g, filter, member, now);
            && (Unassigned(g, log, route, from, g.cursor, acked, filter, r) ==> d.Some? && d.value.key <= r.key)
            && (d.Some? ==> Handed(g, g', log, route, from, acked, filter, member, now, d.value) && !d.value.redelivered)
            && (d.None? ==> g'.inflight == g.inflight)
  {
    var pos := FirstMatch(g.pending, filter, 0);
    FirstMatchIs(g.pending, filter, 0);
    if Unassigned(g, log, route, from, g.cursor, acked, filter, r) { LeastUnassigned(g, log, route, from, acked, filter, r); }
    if pos.Some? { TakenHands(g, log, route, from, acked, filter, member, now, pos.value); }
  }

  /** The first queued match has the least key of all that are unassigned. */
  lemma {:induction false} LeastUnassigned(g: Group, log: seq<Record>, route: Route, from: nat, acked: set<nat>,
                                           filter: Filter, r: Record)
    requires Tracks(g, log, route, from, acked) && Unassigned(g, log, route, from, g.cursor, acked, filter, r)
    ensures var pos := FirstMatch(g.pending, filter, 0);
            pos.Some? && pos.value < |g.pending| && g.pending[pos.value].record.key <= r.key
  {
    FirstMatchIs(g.pending, filter, 0);
    QueuedIffUnassigned(g, log, route, from, acked, filter, r);
    var i :| 0 <= i < |g.pending| && g.pending[i].record == r;
    assert g.pending[i] in g.pending && Queued(g, log, route, from, g.pending[i]);
  }

  lemma {:induction false} TakenHands(g: Group, log: seq<Record>, route: Route, from: nat, acked: set<nat>,
                                      filter: Filter, member: nat, now: Tick, pos: nat)
    requires Tracks(g, log, route, from, acked) && pos < |g.pending| && Matches(filter, g.pending[pos].subject)
    ensures var (g', d) := Taken(g, pos, member, now);
            d.Some? && Handed(g, g', log, route, from, acked, filter, member, now, d.value)
  {
    var it := g.pending[pos];
    assert it in g.pending && Queued(g, log, route, from, it);
    QueuedIffUnassigned(g, log, route, from, acked, filter, it.record);
  }

  /** The delivery is of a record that was to be had, and puts exactly that one in flight. */
  ghost predicate Handed(g: Group, g': Group, log: seq<Record>, route: Route, from: nat, acked: set<nat>,
                         filter: Filter, member: nat, now: Tick, d: Delivery) {
    && d.key == d.record.key && d.member == member
    && (if d.redelivered then Overdue(g, filter, now, d.key)
        else Unassigned(g, log, route, from, g.cursor, acked, filter, d.record))
    && g'.inflight == g.inflight[d.key := Flight(d.record, route(d.record), member, SaturatingAdd(now, g.ackWait), d.redelivered)]
  }

  /** A whole poll: what the log has past the cursor is pulled first, up to the limit. */
  lemma {:induction false} PollDelivers(g: Group, log: seq<Record>, route: Route, from: nat, acked: set<nat>,
                                        limit: nat, filter: Filter, member: nat, now: Tick, r: Record)
    requires Tracks(g, log, route, from, acked) && BoundHolds(g)
    ensures var (g', d) := PollSpec(g, Batch(log, g.cursor, limit), route, filter, member, now);
            && (Overdue(g, filter, now, r.key) ==> d.Some? && d.value.redelivered && d.value.key <= r.key)
            && (Unassigned(g, log, route, from, g'.cursor, acked, filter, r) ==>
                d.Some? && (d.value.redelivered || d.value.key <= r.key))
            && (d.Some? ==> Handed(g.(cursor := g'.cursor), g', log, route, from, acked, filter, member, now, d.value))
            && (d.None? ==> g'.inflight == g.inflight)
  {
    PullTracks(g, log, route, from, acked, limit);
    var g1 := Pulled(g, Batch(log, g.cursor, limit), route);
    AssignDelivers(g1, log, route, from, acked, filter, member, now, r);
  }

  // --- the committed cursor -------------------------------------------------------------------

  /** The cursor lies in what was pulled, and every record up to it has been acked. */
  lemma {:induction false} CommittedIsAcked(g: Group, log: seq<Record>, route: Route, from: nat, acked: set<nat>)
    requires Tracks(g, log, route, from, acked)
    ensures from <= Committed(g) <= g.cursor
    ensures forall r | r in log && from < r.key <= Committed(g) :: r.key in acked
  { }

  /** And it could not stand any further on: the key after it is open, or nothing is. */
  lemma {:induction false} CommittedIsGreatest(g: Group, log: seq<Record>, route: Route, from: nat, acked: set<nat>, c: nat)
    requires Tracks(g, log, route, from, acked) && from <= c <= g.cursor
    requires forall r | r in log && from < r.key <= c :: r.key in acked
    ensures c <= Committed(g)
  {
    if OpenKeys(g) != {} && MinKey(OpenKeys(g)) <= c {
      OpenIsLogged(g, log, route, from, acked, MinKey(OpenKeys(g)));
    }
  }

  /** Pulling a batch opens only keys above everything pulled so far. */
  lemma {:induction false} PullRaises(g: Group, log: seq<Record>, route: Route, from: nat, acked: set<nat>, limit: nat)
    requires Tracks(g, log, route, from, acked)
    ensures Committed(Pulled(g, Batch(log, g.cursor, limit), route)) >= Committed(g)
  {
    PulledFrame(g, log, route, from, acked, limit);
    var b := Batch(log, g.cursor, limit);
    var g' := Pulled(g, b, route);
    CommittedIsAcked(g, log, route, from, acked);
    if OpenKeys(g') != {} {
      var m := MinKey(OpenKeys(g'));
      PendingKeysPulled(g, b, route, m);
    } else {
      forall k ensures k !in OpenKeys(g) { PendingKeysPulled(g, b, route, k); assert k !in OpenKeys(g'); }
    }
  }

  lemma {:induction false} SameCommitted(g: Group, g': Group)
    requires OpenKeys(g') == OpenKeys(g) && g'.frontier == g.frontier
    ensures Committed(g') == Committed(g)
  { }

  lemma {:induction false} PollRaises(g: Group, log: seq<Record>, route: Route, from: nat, acked: set<nat>,
                                      limit: nat, filter: Filter, member: nat, now: Tick)
    requires Tracks(g, log, route, from, acked)
    ensures Committed(PollSpec(g, Batch(log, g.cursor, limit), route, filter, member, now).0) >= Committed(g)
  {
    PullRaises(g, log, route, from, acked, limit);
    PullTracks(g, log, route, from, acked, limit);
    var g1 := Pulled(g, Batch(log, g.cursor, limit), route);
    AssignTracks(g1, log, route, from, acked, filter, member, now);
    SameCommitted(g1, Assign(g1, filter, member, now).0);
  }

  lemma {:induction false} AckRaises(g: Group, log: seq<Record>, route: Route, from: nat, acked: set<nat>, k: nat)
    requires Tracks(g, log, route, from, acked)
    ensures Committed(AckSpec(g, k).0) >= Committed(g)
  { }

  /** No operation moves the committed cursor back. */
  lemma {:induction false} CommittedNeverFalls(g: Group, log: seq<Record>, route: Route, from: nat, acked: set<nat>,
                                               limit: nat, filter: Filter, member: nat, now: Tick, k: nat)
    requires Tracks(g, log, route, from, acked)
    ensures Committed(PollSpec(g, Batch(log, g.cursor, limit), route, filter, member, now).0) >= Committed(g)
    ensures Committed(AckSpec(g, k).0) >= Committed(g)
    ensures Committed(ExpireSpec(g, k).0) == Committed(g)
  {
    PollRaises(g, log, route, from, acked, limit, filter, member, now);
    AckRaises(g, log, route, from, acked, k);
    ExpireTracks(g, log, route, from, acked, k);
  }

  // --- runs, with restarts ---------------------------------------------------------------------

  /** `tip` is the engine's global sequence, `noted` the committed cursors read for
      persisting during this life, `file` the cursor file, `ever` every key acked in any
      life and still in the log. */
  datatype State = State(
    log: seq<Record>,
    tip: nat,
    g: Group,
    from: nat,
    acked: set<nat>,
    ever: set<nat>,
    noted: set<nat>,
    file: Option<nat>)

  datatype Fallback = Tail | Beginning

  datatype Step =
    | Append(record: Record)
    | OtherShards(tip: nat)
    | Poll(limit: nat, filter: Filter, member: nat, now: Tick)
    | Ack(key: nat)
    | ForceOut(key: nat)
    | ReadCommitted
    | Persist(cursor: nat)
    | Restart(tip: nat, fallback: Fallback)

  /** Persisting may land any committed cursor read in this life, in any order, but never 0: the
      store writes only what is above its mark, which starts there. What its guard keeps back is a
      step not taken. A restart may find a log that lost its newest records. */
  ghost predicate Enabled(s: State, step: Step) {
    match step
    case Append(r) => r.key > s.tip
    case OtherShards(t) => t >= s.tip
    case Persist(c) => c in s.noted && c > 0
    case Restart(t, _) => t <= s.tip
    case _ => true
  }

  function Kept(log: seq<Record>, tip: nat): seq<Record> {
    if log == [] then [] else (if log[0].key <= tip then [log[0]] else []) + Kept(log[1..], tip)
  }

  /** `ClaimCoordinator::resume`: the stored cursor clamped to the tip, or the fallback. */
  function ResumeFrom(file: Option<nat>, tip: nat, fallback: Fallback): nat {
    match file
    case Some(c) => Min(c, tip)
    case None => if fallback == Tail then tip else 0
  }

  ghost function Next(s: State, step: Step, route: Route): State {
    match step
    case Append(r) => s.(log := s.log + [r], tip := r.key)
    case OtherShards(t) => s.(tip := t)
    case Poll(limit, filter, member, now) =>
      s.(g := PollSpec(s.g, Batch(s.log, s.g.cursor, limit), route, filter, member, now).0)
    case Ack(k) =>
      var (g', was) := AckSpec(s.g, k);
      if was then s.(g := g', acked := s.acked + {k}, ever := s.ever + {k}) else s.(g := g')
    case ForceOut(k) => s.(g := ExpireSpec(s.g, k).0)
    case ReadCommitted => s.(noted := s.noted + {Committed(s.g)})
    case Persist(c) => s.(file := Some(c))
    case Restart(t, fallback) =>
      var from := ResumeFrom(s.file, t, fallback);
      State(Kept(s.log, t), t, Fresh(s.g.ackWait, from), from, {}, set k | k in s.ever && k <= t, {}, s.file)
  }

  ghost function Run(s: State, steps: seq<Step>, route: Route): State
    decreases |steps|
  {
    if steps == [] then s else Run(Next(s, steps[0], route), steps[1..], route)
  }

  /** Every record of the log at or below `c` has been acked. */
  ghost predicate AckedThrough(s: State, c: nat) {
    forall r | r in s.log && r.key <= c :: r.key in s.ever
  }

  ghost predicate Inv(s: State, route: Route) {
    && Tracks(s.g, s.log, route, s.from, s.acked) && BoundHolds(s.g)
    && (forall r | r in s.log :: r.key <= s.tip)
    && s.g.cursor <= s.tip
    && s.acked <= s.ever && (forall k | k in s.ever :: k <= s.tip)
    && AckedThrough(s, s.from)
    && (forall c | c in s.noted :: c <= s.tip && AckedThrough(s, c))
    && (s.file.Some? ==> AckedThrough(s, s.file.value))
  }

  /** A shard with nothing in it and a group at its beginning. */
  lemma {:induction false} StartInv(ackWait: nat, route: Route)
    ensures Inv(State([], 0, Fresh(ackWait, 0), 0, {}, {}, {}, None), route)
  {
    FreshTracks(ackWait, 0, [], route);
  }

  /** Nothing is skipped: each record has been acked, is held open, or is yet to be pulled. */
  lemma {:induction false} NothingSkipped(s: State, route: Route, r: Record)
    requires Inv(s, route) && r in s.log
    ensures r.key in s.ever || r.key in OpenKeys(s.g) || r.key > s.g.cursor
  { }

  /** Steps that could break the guarantee, told before they are taken: an append at or
      below the persisted cursor, and a first start at the tail of a log not fully acked. */
  ghost predicate Sound(s: State, step: Step) {
    match step
    case Append(r) => s.file.Some? ==> r.key > s.file.value
    case Restart(t, fallback) => s.file.Some? || fallback == Beginning || AckedThrough(s, t)
    case _ => true
  }

  lemma {:induction false} KeptMembers(log: seq<Record>, tip: nat, r: Record)
    ensures r in Kept(log, tip) <==> r in log && r.key <= tip
  {
    if log != [] {
      KeptMembers(log[1..], tip, r);
    }
  }

  lemma {:induction false} KeptAscends(log: seq<Record>, tip: nat)
    requires AscendingLog(log)
    ensures AscendingLog(Kept(log, tip))
  {
    if log != [] {
      KeptAscends(log[1..], tip);
      var rest := Kept(log[1..], tip);
      forall j | 0 <= j < |rest| ensures log[0].key < rest[j].key { KeptMembers(log[1..], tip, rest[j]); }
    }
  }

  lemma {:induction false} AppendInv(s: State, r: Record, route: Route)
    requires Inv(s, route) && Enabled(s, Append(r)) && Sound(s, Append(r))
    ensures Inv(Next(s, Append(r), route), route)
  {
    AppendTracks(s.g, s.log, route, s.from, s.acked, r);
    var s' := Next(s, Append(r), route);
    forall c: nat | AckedThrough(s, c) && c < r.key ensures AckedThrough(s', c) { }
  }

  /** `from` is the furthest point that lies beyond neither the stored cursor nor the tip. */
  ghost predicate ResumesAt(stored: nat, tip: nat, from: nat) {
    from <= stored && from <= tip && (from == stored || from == tip)
  }

  lemma {:induction false} RestartInv(s: State, t: nat, fallback: Fallback, route: Route)
    requires Inv(s, route) && Enabled(s, Restart(t, fallback)) && Sound(s, Restart(t, fallback))
    ensures Inv(Next(s, Restart(t, fallback), route), route)
  {
    var s' := Next(s, Restart(t, fallback), route);
    KeptAscends(s.log, t);
    forall r | r in s'.log ensures r in s.log && r.key <= t { KeptMembers(s.log, t, r); }
    forall c: nat | AckedThrough(s, c) ensures AckedThrough(s', c) { }
  }

  lemma {:induction false} PollInv(s: State, limit: nat, filter: Filter, member: nat, now: Tick, route: Route)
    requires Inv(s, route)
    ensures Inv(Next(s, Poll(limit, filter, member, now), route), route)
  {
    PollInStep(s, limit, filter, member, now, route);
    var s' := Next(s, Poll(limit, filter, member, now), route);
    SameAcked(s, s');
  }

  lemma {:induction false} SameAcked(s: State, s': State)
    requires s'.log == s.log && s.ever <= s'.ever
    ensures forall c: nat | AckedThrough(s, c) :: AckedThrough(s', c)
  { }

  lemma {:induction false} StepInv(s: State, step: Step, route: Route)
    requires Inv(s, route) && Enabled(s, step) && Sound(s, step)
    ensures Inv(Next(s, step, route), route)
    ensures step.Restart? && s.file.Some? ==> ResumesAt(s.file.value, step.tip, Next(s, step, route).from)
  {
    var s' := Next(s, step, route);
    match step
    case Append(r) => AppendInv(s, r, route);
    case Poll(limit, filter, member, now) => PollInv(s, limit, filter, member, now, route);
    case Restart(t, fallback) => RestartInv(s, t, fallback, route);
    case Ack(k) => AckInv(s, k, route);
    case ForceOut(k) =>
      ExpireTracks(s.g, s.log, route, s.from, s.acked, k);
      SameAcked(s, s');
    case ReadCommitted =>
      CommittedIsAcked(s.g, s.log, route, s.from, s.acked);
    case _ => SameAcked(s, s');
  }

  lemma {:induction false} AckInv(s: State, k: nat, route: Route)
    requires Inv(s, route)
    ensures Inv(Next(s, Ack(k), route), route)
  {
    AckTracks(s.g, s.log, route, s.from, s.acked, k);
    if k in s.g.inflight { assert Flying(s.g, s.log, route, s.from, k); }
    SameAcked(s, Next(s, Ack(k), route));
  }

  // --- where a restart resumes ---------------------------------------------------------------

  /** What needs no soundness: the group accounts for the log, which ends at the tip. */
  ghost predicate InStep(s: State, route: Route) {
    && Tracks(s.g, s.log, route, s.from, s.acked) && BoundHolds(s.g)
    && (forall r | r in s.log :: r.key <= s.tip) && s.g.cursor <= s.tip
  }

  ghost predicate DeadlinesFit(g: Group) { forall k | k in g.inflight :: g.inflight[k].deadline <= U64_MAX }

  lemma {:induction false} PollInStep(s: State, limit: nat, filter: Filter, member: nat, now: Tick, route: Route)
    requires InStep(s, route)
    ensures InStep(Next(s, Poll(limit, filter, member, now), route), route)
  {
    var b := Batch(s.log, s.g.cursor, limit);
    var g1 := Pulled(s.g, b, route);
    PulledFrame(s.g, s.log, route, s.from, s.acked, limit);
    PullTracks(s.g, s.log, route, s.from, s.acked, limit);
    AssignTracks(g1, s.log, route, s.from, s.acked, filter, member, now);
    BoundKept(g1, filter, member, now, 0);
    if b != [] { assert b[|b| - 1] in b; }
  }

  lemma {:induction false} RestartInStep(s: State, t: nat, fallback: Fallback, route: Route)
    requires InStep(s, route) && Enabled(s, Restart(t, fallback))
    ensures InStep(Next(s, Restart(t, fallback), route), route)
  {
    var s' := Next(s, Restart(t, fallback), route);
    KeptAscends(s.log, t);
    forall r | r in s'.log ensures r.key <= t { KeptMembers(s.log, t, r); }
  }

  lemma {:induction false} StepInStep(s: State, step: Step, route: Route)
    requires InStep(s, route) && Enabled(s, step)
    ensures InStep(Next(s, step, route), route)
    ensures !step.Restart? ==> Next(s, step, route).from == s.from
  {
    match step
    case Append(r) => AppendTracks(s.g, s.log, route, s.from, s.acked, r);
    case Poll(limit, filter, member, now) => PollInStep(s, limit, filter, member, now, route);
    case Restart(t, fallback) => RestartInStep(s, t, fallback, route);
    case Ack(k) => AckTracks(s.g, s.log, route, s.from, s.acked, k);
    case ForceOut(k) => ExpireTracks(s.g, s.log, route, s.from, s.acked, k);
    case _ =>
  }

  lemma {:induction false} StepFits(s: State, step: Step, route: Route)
    requires InStep(s, route) && DeadlinesFit(s.g)
    ensures DeadlinesFit(Next(s, step, route).g)
  {
    match step
    case Poll(limit, filter, member, now) =>
      PollDelivers(s.g, s.log, route, s.from, s.acked, limit, filter, member, now, Record(0, ""));
    case _ =>
  }

  ghost predicate Runs(s: State, steps: seq<Step>, route: Route)
    decreases |steps|
  {
    steps != [] ==> Enabled(s, steps[0]) && Runs(Next(s, steps[0], route), steps[1..], route)
  }

  /** Whatever the run, sound or not. */
  lemma {:induction false} RunInStep(s: State, steps: seq<Step>, route: Route)
    requires InStep(s, route) && DeadlinesFit(s.g) && Runs(s, steps, route)
    ensures InStep(Run(s, steps, route), route) && DeadlinesFit(Run(s, steps, route).g)
    ensures (forall step | step in steps :: !step.Restart?) ==> Run(s, steps, route).from == s.from
    decreases |steps|
  {
    if steps != [] {
      StepInStep(s, steps[0], route);
      StepFits(s, steps[0], route);
      RunInStep(Next(s, steps[0], route), steps[1..], route);
    }
  }

  /** A restart resumes as far on as the stored cursor and the log both allow; without a stored
      cursor, at the tail or at the beginning as asked. It keeps exactly the log up to the tip. */
  lemma {:induction false} RestartResumes(s: State, t: nat, fallback: Fallback, route: Route, r: Record)
    ensures var s' := Next(s, Restart(t, fallback), route);
            && s'.g == Fresh(s.g.ackWait, s'.from)
            && (match s.file
                case Some(c) => ResumesAt(c, t, s'.from)
                case None => s'.from == (match fallback case Tail => t case Beginning => 0))
            && (r in s'.log <==> r in s.log && r.key <= t)
  {
    KeptMembers(s.log, t, r);
  }

  /** So no poll in that life, whatever happens before it, hands out a record again that lies at
      or below the stored cursor and within the log the restart found. */
  lemma {:induction false} NothingReplayed(s: State, t: nat, fallback: Fallback, steps: seq<Step>, route: Route,
                                           limit: nat, filter: Filter, member: nat, now: Tick)
    requires InStep(s, route) && Enabled(s, Restart(t, fallback)) && s.file.Some?
    requires Runs(Next(s, Restart(t, fallback), route), steps, route) && forall step | step in steps :: !step.Restart?
    ensures var s' := Run(Next(s, Restart(t, fallback), route), steps, route);
            var got := PollSpec(s'.g, Batch(s'.log, s'.g.cursor, limit), route, filter, member, now).1;
            got.Some? ==> got.value.key > s.file.value || got.value.key > t
  {
    var s0 := Next(s, Restart(t, fallback), route);
    RestartInStep(s, t, fallback, route);
    RestartResumes(s, t, fallback, route, Record(0, ""));
    RunInStep(s0, steps, route);
    var s' := Run(s0, steps, route);
    PollAboveStart(s'.g, s'.log, route, s'.from, s'.acked, limit, filter, member, now);
  }

  lemma {:induction false} PollAboveStart(g: Group, log: seq<Record>, route: Route, from: nat, acked: set<nat>,
                                          limit: nat, filter: Filter, member: nat, now: Tick)
    requires Tracks(g, log, route, from, acked) && BoundHolds(g)
    ensures var got := PollSpec(g, Batch(log, g.cursor, limit), route, filter, member, now).1;
            got.Some? ==> got.value.key > from
  {
    PollDelivers(g, log, route, from, acked, limit, filter, member, now, Record(0, ""));
    var got := PollSpec(g, Batch(log, g.cursor, limit), route, filter, member, now).1;
    if got.Some? && got.value.redelivered { assert Flying(g, log, route, from, got.value.key); }
  }

  /** Read the committed cursor, persist it, restart on a log that still reaches it: the group
      resumes exactly there. */
  lemma {:induction false} PersistedCursorResumes(s: State, t: nat, fallback: Fallback, route: Route)
    requires InStep(s, route) && 0 < Committed(s.g) <= t <= s.tip
    ensures var steps := [ReadCommitted, Persist(Committed(s.g)), Restart(t, fallback)];
            Runs(s, steps, route) && Run(s, steps, route).from == Run(s, steps, route).g.cursor == Committed(s.g)
  {
    var c := Committed(s.g);
    var s1 := Next(s, ReadCommitted, route);
    var s2 := Next(s1, Persist(c), route);
    var s3 := Next(s2, Restart(t, fallback), route);
    Three(s, ReadCommitted, Persist(c), Restart(t, fallback), route);
  }

  lemma {:induction false} Three(s: State, a: Step, b: Step, c: Step, route: Route)
    requires Enabled(s, a) && Enabled(Next(s, a, route), b) && Enabled(Next(Next(s, a, route), b, route), c)
    ensures Runs(s, [a, b, c], route)
    ensures Run(s, [a, b, c], route) == Next(Next(Next(s, a, route), b, route), c, route)
  {
    var s1 := Next(s, a, route);
    var s2 := Next(s1, b, route);
    assert [a, b, c][1..] == [b, c] && [b, c][1..] == [c] && [c][1..] == [];
    assert Runs(s2, [c], route) && Run(s2, [c], route) == Next(s2, c, route);
    assert Runs(s1, [b, c], route) && Run(s1, [b, c], route) == Run(s2, [c], route);
  }

  /** A record forced out is due: the next matching poll, at whatever time, hands it out unless
      an earlier key is due as well. */
  lemma {:induction false} ForcedOutIsNext(s: State, k: nat, route: Route, limit: nat, filter: Filter, member: nat, now: Tick)
    requires InStep(s, route) && k in s.g.inflight && Matches(filter, s.g.inflight[k].subject)
    ensures var s' := Next(s, ForceOut(k), route);
            var got := PollSpec(s'.g, Batch(s'.log, s'.g.cursor, limit), route, filter, member, now).1;
            got.Some? && got.value.redelivered && got.value.key <= k
  {
    var s' := Next(s, ForceOut(k), route);
    StepInStep(s, ForceOut(k), route);
    PollDelivers(s'.g, s'.log, route, s'.from, s'.acked, limit, filter, member, now, Record(k, ""));
  }

  // --- a group that goes on polling gets everything -----------------------------------------------

  const ANY: Filter := [TAIL_WILDCARD]

  /** What this life has still to see acked. */
  ghost function Todo(s: State): set<nat> { set r | r in s.log && r.key > s.from && r.key !in s.acked :: r.key }

  /** Something is overdue, queued or about to be pulled. */
  ghost predicate ToHand(s: State, route: Route, limit: nat, r: Record) {
    || Overdue(s.g, ANY, U64_MAX, r.key)
    || Unassigned(s.g, s.log, route, s.from, Pulled(s.g, Batch(s.log, s.g.cursor, limit), route).cursor, s.acked, ANY, r)
  }

  lemma {:induction false} PulledToHand(s: State, route: Route, limit: nat, r: Record) returns (first: Record)
    requires InStep(s, route) && r in s.log && r.key > s.g.cursor && limit > 0
    requires forall x | x in s.log :: route(x) != []
    ensures ToHand(s, route, limit, first)
  {
    var b := Batch(s.log, s.g.cursor, limit);
    PulledFrame(s.g, s.log, route, s.from, s.acked, limit);
    TailMembers(s.log, s.g.cursor, r);
    first := b[0];
    assert first in b;
    AllMatches(route(first));
  }

  lemma {:induction false} OpenToHand(s: State, route: Route, limit: nat, r: Record)
    requires InStep(s, route) && DeadlinesFit(s.g) && r in s.log && s.from < r.key <= s.g.cursor && r.key !in s.acked
    requires forall x | x in s.log :: route(x) != []
    ensures ToHand(s, route, limit, r)
  {
    PulledFrame(s.g, s.log, route, s.from, s.acked, limit);
    AllMatches(route(r));
    if r.key in s.g.inflight {
      assert Flying(s.g, s.log, route, s.from, r.key);
      AllMatches(s.g.inflight[r.key].subject);
    }
  }

  lemma {:induction false} SomethingToHand(s: State, route: Route, limit: nat) returns (r: Record)
    requires InStep(s, route) && DeadlinesFit(s.g) && Todo(s) != {} && limit > 0
    requires forall x | x in s.log :: route(x) != []
    ensures ToHand(s, route, limit, r)
  {
    var k :| k in Todo(s);
    r :| r in s.log && r.key == k && r.key > s.from && r.key !in s.acked;
    if r.key > s.g.cursor { r := PulledToHand(s, route, limit, r); } else { OpenToHand(s, route, limit, r); }
  }

  lemma {:induction false} AssignKeepsCursor(g: Group, filter: Filter, member: nat, now: Tick)
    ensures Assign(g, filter, member, now).0.cursor == g.cursor
  {
    FirstMatchIs(g.pending, filter, 0);
  }

  /** A poll for anything at the end of time comes back with something. */
  lemma {:induction false} PollGets(s: State, route: Route, limit: nat) returns (d: Delivery)
    requires InStep(s, route) && DeadlinesFit(s.g) && Todo(s) != {} && limit > 0
    requires forall r | r in s.log :: route(r) != []
    ensures PollSpec(s.g, Batch(s.log, s.g.cursor, limit), route, ANY, 0, U64_MAX).1 == Some(d)
    ensures d.key in PollSpec(s.g, Batch(s.log, s.g.cursor, limit), route, ANY, 0, U64_MAX).0.inflight
  {
    var r := SomethingToHand(s, route, limit);
    d := HandsSomething(s, route, limit, r);
  }

  lemma {:induction false} HandsSomething(s: State, route: Route, limit: nat, r: Record) returns (d: Delivery)
    requires InStep(s, route) && ToHand(s, route, limit, r)
    ensures PollSpec(s.g, Batch(s.log, s.g.cursor, limit), route, ANY, 0, U64_MAX).1 == Some(d)
    ensures d.key in PollSpec(s.g, Batch(s.log, s.g.cursor, limit), route, ANY, 0, U64_MAX).0.inflight
  {
    AssignKeepsCursor(Pulled(s.g, Batch(s.log, s.g.cursor, limit), route), ANY, 0, U64_MAX);
    PollDelivers(s.g, s.log, route, s.from, s.acked, limit, ANY, 0, U64_MAX, r);
    d := PollSpec(s.g, Batch(s.log, s.g.cursor, limit), route, ANY, 0, U64_MAX).1.value;
  }

  lemma {:induction false} PollThenAck(s: State, route: Route, limit: nat) returns (s': State, k: nat)
    requires InStep(s, route) && DeadlinesFit(s.g) && Todo(s) != {} && limit > 0
    requires forall r | r in s.log :: route(r) != []
    ensures s' == Next(Next(s, Poll(limit, ANY, 0, U64_MAX), route), Ack(k), route)
    ensures InStep(s', route) && DeadlinesFit(s'.g) && s'.log == s.log && s'.from == s.from
    ensures k in Todo(s) && Todo(s') == Todo(s) - {k}
  {
    var d := PollGets(s, route, limit);
    k := d.key;
    var s1 := Next(s, Poll(limit, ANY, 0, U64_MAX), route);
    StepInStep(s, Poll(limit, ANY, 0, U64_MAX), route);
    StepFits(s, Poll(limit, ANY, 0, U64_MAX), route);
    SameTodo(s, s1);
    s' := AckShrinks(s1, k, route);
  }

  lemma {:induction false} SameTodo(s: State, s': State)
    requires s'.log == s.log && s'.from == s.from && s'.acked == s.acked
    ensures Todo(s') == Todo(s)
  { }

  lemma {:induction false} AckShrinks(s: State, k: nat, route: Route) returns (s': State)
    requires InStep(s, route) && DeadlinesFit(s.g) && k in s.g.inflight
    ensures s' == Next(s, Ack(k), route) && InStep(s', route) && DeadlinesFit(s'.g) && s'.log == s.log && s'.from == s.from
    ensures k in Todo(s) && Todo(s') == Todo(s) - {k}
  {
    assert Flying(s.g, s.log, route, s.from, k);
    assert ExactlyOne(s.g, s.acked, s.g.inflight[k].record.key);
    StepInStep(s, Ack(k), route);
    s' := Next(s, Ack(k), route);
  }

  lemma {:induction false} NothingTodo(s: State)
    requires Todo(s) == {}
    ensures forall r | r in s.log && r.key > s.from :: r.key in s.acked
  {
    forall r | r in s.log && r.key > s.from ensures r.key in s.acked { assert r.key in s.acked || r.key in Todo(s); }
  }

  /** `steps` are polls and acks that lead from `s` to `s'`. */
  ghost predicate Leads(s: State, steps: seq<Step>, s': State, route: Route) {
    Runs(s, steps, route) && Run(s, steps, route) == s' && forall step | step in steps :: step.Poll? || step.Ack?
  }

  lemma {:induction false} LeadsOn(s: State, a: seq<Step>, s1: State, b: seq<Step>, s2: State, route: Route)
    requires Leads(s, a, s1, route) && Leads(s1, b, s2, route)
    ensures Leads(s, a + b, s2, route)
    decreases |a|
  {
    if a == [] {
      assert a + b == b;
    } else {
      assert (a + b)[1..] == a[1..] + b;
      LeadsOn(Next(s, a[0], route), a[1..], s1, b, s2, route);
    }
  }

  lemma {:induction false} LeadsOnce(s: State, step: Step, route: Route)
    requires Enabled(s, step) && (step.Poll? || step.Ack?)
    ensures Leads(s, [step], Next(s, step, route), route)
  {
    assert [step][1..] == [] && Run(Next(s, step, route), [], route) == Next(s, step, route);
  }

  lemma {:induction false} PollThenAckLeads(s: State, route: Route, limit: nat) returns (steps: seq<Step>, s': State)
    requires InStep(s, route) && DeadlinesFit(s.g) && Todo(s) != {} && limit > 0
    requires forall r | r in s.log :: route(r) != []
    ensures Leads(s, steps, s', route) && InStep(s', route) && DeadlinesFit(s'.g) && s'.log == s.log && s'.from == s.from
    ensures |Todo(s')| < |Todo(s)|
  {
    var k;
    s', k := PollThenAck(s, route, limit);
    steps := TwoLead(s, Poll(limit, ANY, 0, U64_MAX), Ack(k), s', route);
  }

  lemma {:induction false} TwoLead(s: State, a: Step, b: Step, s': State, route: Route) returns (steps: seq<Step>)
    requires a.Poll? && b.Ack? && s' == Next(Next(s, a, route), b, route)
    ensures Leads(s, steps, s', route)
  {
    LeadsOnce(s, a, route);
    LeadsOnce(Next(s, a, route), b, route);
    LeadsOn(s, [a], Next(s, a, route), [b], s', route);
    steps := [a] + [b];
  }

  /** From any reachable state: polls that take anything, each delivery acked, have after finitely
      many turns acked every record of the log past the point the group started from. */
  lemma {:induction false} CatchesUp(s: State, route: Route, limit: nat) returns (steps: seq<Step>, s': State)
    requires InStep(s, route) && DeadlinesFit(s.g) && limit > 0
    requires forall r | r in s.log :: route(r) != []
    ensures Leads(s, steps, s', route)
    ensures s'.log == s.log && s'.from == s.from && forall r | r in s.log && r.key > s.from :: r.key in s'.acked
    decreases |Todo(s)|
  {
    if Todo(s) == {} {
      steps, s' := [], s;
      NothingTodo(s);
    } else {
      var turn, s1 := PollThenAckLeads(s, route, limit);
      var rest;
      rest, s' := CatchesUp(s1, route, limit);
      steps := turn + rest;
      LeadsOn(s, turn, s1, rest, s', route);
    }
  }

  // --- the subjects it has seen ---------------------------------------------------------------------

  ghost predicate AllSeen(s: State, route: Route) {
    forall r | r in s.log && s.from < r.key <= s.g.cursor :: Name(route(r)) in s.g.seen
  }

  lemma {:induction false} StepSees(s: State, step: Step, route: Route)
    requires InStep(s, route) && AllSeen(s, route) && Enabled(s, step)
    ensures AllSeen(Next(s, step, route), route)
  {
    match step
    case Poll(limit, filter, member, now) =>
      var g1 := Pulled(s.g, Batch(s.log, s.g.cursor, limit), route);
      FirstMatchIs(g1.pending, filter, 0);
      forall r | r in s.log && s.from < r.key <= g1.cursor ensures Name(route(r)) in g1.seen {
        BatchIsInterval(s.log, s.g.cursor, limit, r);
      }
    case Restart(_, _) =>
    case _ =>
  }

  /** Over every run the group knows the subject of each record it ever pulled in this life. */
  lemma {:induction false} SubjectsSeen(s: State, steps: seq<Step>, route: Route)
    requires InStep(s, route) && AllSeen(s, route) && Runs(s, steps, route)
    ensures AllSeen(Run(s, steps, route), route)
    decreases |steps|
  {
    if steps != [] {
      StepInStep(s, steps[0], route);
      StepSees(s, steps[0], route);
      SubjectsSeen(Next(s, steps[0], route), steps[1..], route);
    }
  }

  ghost predicate Allowed(s: State, steps: seq<Step>, route: Route)
    decreases |steps|
  {
    steps != [] ==>
      Enabled(s, steps[0]) && Sound(s, steps[0]) && Allowed(Next(s, steps[0], route), steps[1..], route)
  }

  /** Over every such run, restarts and tail loss included, no unacked record is skipped. */
  lemma {:induction false} RunSkipsNothing(s: State, steps: seq<Step>, route: Route)
    requires Inv(s, route) && Allowed(s, steps, route)
    ensures Inv(Run(s, steps, route), route)
    ensures var s' := Run(s, steps, route);
            forall r | r in s'.log :: r.key in s'.ever || r.key in OpenKeys(s'.g) || r.key > s'.g.cursor
    decreases |steps|
  {
    if steps == [] {
      forall r | r in s.log ensures r.key in s.ever || r.key in OpenKeys(s.g) || r.key > s.g.cursor { }
    } else {
      StepInv(s, steps[0], route);
      RunSkipsNothing(Next(s, steps[0], route), steps[1..], route);
    }
  }

  /** A log that keeps everything: each restart finds the tip it left, and a first start
      replays from the beginning. */
  ghost predicate Lossless(s: State, steps: seq<Step>, route: Route)
    decreases |steps|
  {
    steps != [] ==>
      && Enabled(s, steps[0])
      && (steps[0].Restart? ==> steps[0].tip == s.tip && steps[0].fallback == Beginning)
      && Lossless(Next(s, steps[0], route), steps[1..], route)
  }

  /** With nothing lost, the persisted cursor never passes the tip, so every append is above it. */
  lemma {:induction false} LosslessIsAllowed(s: State, steps: seq<Step>, route: Route)
    requires Inv(s, route) && (s.file.Some? ==> s.file.value <= s.tip) && Lossless(s, steps, route)
    ensures Allowed(s, steps, route)
    decreases |steps|
  {
    if steps != [] {
      StepInv(s, steps[0], route);
      LosslessIsAllowed(Next(s, steps[0], route), steps[1..], route);
    }
  }

  /** Both conditions are needed: after either step, an unacked record is behind the group's
      cursor (for the append: once the group restarts before persisting again). */
  lemma {:induction false} UnsoundAppendSkips(s: State, r: Record, fallback: Fallback, route: Route)
    requires Inv(s, route) && Enabled(s, Append(r)) && !Sound(s, Append(r))
    ensures var s' := Next(Next(s, Append(r), route), Restart(r.key, fallback), route);
            r in s'.log && r.key !in s'.ever && r.key !in OpenKeys(s'.g) && r.key <= s'.g.cursor
  {
    var s1 := Next(s, Append(r), route);
    KeptMembers(s1.log, r.key, r);
  }

  lemma {:induction false} UnsoundRestartSkips(s: State, t: nat, fallback: Fallback, route: Route) returns (r: Record)
    requires Inv(s, route) && Enabled(s, Restart(t, fallback)) && !Sound(s, Restart(t, fallback))
    ensures var s' := Next(s, Restart(t, fallback), route);
            r in s'.log && r.key !in s'.ever && r.key !in OpenKeys(s'.g) && r.key <= s'.g.cursor
  {
    r :| r in s.log && r.key <= t && r.key !in s.ever;
    KeptMembers(s.log, t, r);
  }

  /** So clamping a stored cursor to a shorter log is not enough by itself: appends then
      reuse keys the file still covers, and a second restart before the next persist
      steps over them. */
  lemma {:induction false} ClampedRestartExposes(s: State, t: nat, r: Record, fallback: Fallback, route: Route)
    requires Inv(s, route) && s.file.Some? && t <= s.tip && t < r.key <= s.file.value
    ensures var s' := Run(s, [Restart(t, fallback), Append(r), Restart(r.key, fallback)], route);
            r in s'.log && r.key !in s'.ever && r.key !in OpenKeys(s'.g) && r.key <= s'.g.cursor
  {
    RestartInv(s, t, fallback, route);
    var s1 := Next(s, Restart(t, fallback), route);
    UnsoundAppendSkips(s1, r, fallback, route);
    var s2 := Next(s1, Append(r), route);
    assert Run(s2, [Restart(r.key, fallback)], route) == Run(Next(s2, Restart(r.key, fallback), route), [], route);
  }

  // --- one member at a time ------------------------------------------------------------------

  /** `k` is out of the queue, and if still in flight not due before `d`. */
  ghost predicate HeldUntil(g: Group, k: nat, d: nat) {
    k <= g.cursor && k !in PendingKeys(g) && (k in g.inflight ==> g.inflight[k].deadline >= d)
  }

  /** A delivery takes its record out of every other member's reach for `ackWait`. */
  lemma {:induction false} DeliveryHolds(g: Group, log: seq<Record>, route: Route, from: nat, acked: set<nat>,
                                         filter: Filter, member: nat, now: Tick)
    requires Tracks(g, log, route, from, acked) && BoundHolds(g)
    ensures var (g', d) := Assign(g, filter, member, now);
            d.Some? ==> HeldUntil(g', d.value.key, SaturatingAdd(now, g.ackWait))
  {
    AssignTracks(g, log, route, from, acked, filter, member, now);
    var (g', d) := Assign(g, filter, member, now);
    if d.Some? {
      DeliveryInFlight(g, filter, member, now);
      assert Flying(g', log, route, from, d.value.key);
      assert ExactlyOne(g', acked, g'.inflight[d.value.key].record.key);
    }
  }

  lemma {:induction false} DeliveryInFlight(g: Group, filter: Filter, member: nat, now: Tick)
    ensures var (g', d) := Assign(g, filter, member, now);
            d.Some? ==> d.value.key in g'.inflight && g'.inflight[d.value.key].deadline == SaturatingAdd(now, g.ackWait)
  {
    FirstMatchIs(Rebound(g, now).pending, filter, 0);
  }

  lemma {:induction false} AssignHolds(g: Group, log: seq<Record>, route: Route, from: nat, acked: set<nat>,
                                       filter: Filter, member: nat, now: Tick, k: nat, d: nat)
    requires Tracks(g, log, route, from, acked) && BoundHolds(g) && HeldUntil(g, k, d)
    ensures var (g', got) := Assign(g, filter, member, now);
            HeldUntil(g', k, d) && (now < d ==> got.None? || got.value.key != k)
  {
    var due := Due(g, filter, now);
    if g.bound > now || due == {} {
      var g1 := Rebound(g, now);
      FirstMatchIs(g1.pending, filter, 0);
      var pos := FirstMatch(g1.pending, filter, 0);
      if pos.Some? {
        PendingKeysTaken(g1, pos.value, member, now, k);
      }
    }
  }

  lemma {:induction false} StepHolds(s: State, step: Step, route: Route, k: nat, d: nat)
    requires Inv(s, route) && HeldUntil(s.g, k, d) && !step.Restart? && step != ForceOut(k)
    ensures HeldUntil(Next(s, step, route).g, k, d)
  {
    match step
    case Poll(limit, filter, member, now) =>
      var b := Batch(s.log, s.g.cursor, limit);
      PulledFrame(s.g, s.log, route, s.from, s.acked, limit);
      PullTracks(s.g, s.log, route, s.from, s.acked, limit);
      PendingKeysPulled(s.g, b, route, k);
      AssignHolds(Pulled(s.g, b, route), s.log, route, s.from, s.acked, filter, member, now, k, d);
    case _ =>
  }

  /** Whatever happens in between, short of a restart or a forced expiry of `k`, no poll
      before `d` hands `k` out again. */
  lemma {:induction false} NoEarlyRedelivery(s: State, steps: seq<Step>, route: Route, k: nat, d: nat,
                                             limit: nat, filter: Filter, member: nat, now: Tick)
    requires Inv(s, route) && HeldUntil(s.g, k, d) && Allowed(s, steps, route) && now < d
    requires forall step | step in steps :: !step.Restart? && step != ForceOut(k)
    ensures var s' := Run(s, steps, route);
            var got := PollSpec(s'.g, Batch(s'.log, s'.g.cursor, limit), route, filter, member, now).1;
            got.None? || got.value.key != k
    decreases |steps|
  {
    if steps == [] {
      var b := Batch(s.log, s.g.cursor, limit);
      PulledFrame(s.g, s.log, route, s.from, s.acked, limit);
      PullTracks(s.g, s.log, route, s.from, s.acked, limit);
      PendingKeysPulled(s.g, b, route, k);
      AssignHolds(Pulled(s.g, b, route), s.log, route, s.from, s.acked, filter, member, now, k, d);
    } else {
      StepInv(s, steps[0], route);
      StepHolds(s, steps[0], route, k, d);
      NoEarlyRedelivery(Next(s, steps[0], route), steps[1..], route, k, d, limit, filter, member, now);
    }
  }

  // --- backlog ---------------------------------------------------------------------------------

  ghost function Lag(g: Group, log: seq<Record>): nat { |TailAfter(log, Committed(g))| }

  ghost function KeySet(rs: seq<Record>): set<nat> { set r | r in rs :: r.key }

  lemma {:induction false} KeyCount(rs: seq<Record>)
    requires AscendingLog(rs)
    ensures |KeySet(rs)| == |rs|
  {
    if rs != [] {
      var front, last := rs[..|rs| - 1], rs[|rs| - 1];
      KeyCount(front);
      assert KeySet(rs) == KeySet(front) + {last.key};
    }
  }

  lemma {:induction false} PendingCount(g: Group)
    requires PendingAscends(g.pending)
    ensures |PendingKeys(g)| == |g.pending|
  {
    var rs := seq(|g.pending|, i requires 0 <= i < |g.pending| => g.pending[i].record);
    KeyCount(rs);
    forall k ensures k in PendingKeys(g) <==> k in KeySet(rs) {
      if i :| 0 <= i < |rs| && rs[i].key == k { assert g.pending[i] in g.pending; }
      if i :| 0 <= i < |g.pending| && g.pending[i].record.key == k { assert rs[i] in rs; }
    }
    assert PendingKeys(g) == KeySet(rs);
  }

  ghost function AckedAbove(g: Group, acked: set<nat>): set<nat> { set k | k in acked && k > Committed(g) }

  /** The keys past the committed cursor: open, acked out of order, or not yet pulled. */
  lemma {:induction false} BacklogKeys(g: Group, log: seq<Record>, route: Route, from: nat, acked: set<nat>, k: nat)
    requires Tracks(g, log, route, from, acked)
    ensures k in KeySet(TailAfter(log, Committed(g))) <==>
            k in OpenKeys(g) || k in AckedAbove(g, acked) || k in KeySet(TailAfter(log, g.frontier))
  {
    CommittedIsAcked(g, log, route, from, acked);
    if k in OpenKeys(g) {
      OpenIsLogged(g, log, route, from, acked, k);
    }
    if Logged(log, k) {
      var r :| r in log && r.key == k;
      TailMembers(log, Committed(g), r);
      TailMembers(log, g.frontier, r);
      if from < k <= g.cursor { assert ExactlyOne(g, acked, r.key); }
    }
    if r :| r in TailAfter(log, Committed(g)) && r.key == k { TailMembers(log, Committed(g), r); }
    if r :| r in TailAfter(log, g.frontier) && r.key == k { TailMembers(log, g.frontier, r); }
  }

  lemma {:induction false} OpenIsLogged(g: Group, log: seq<Record>, route: Route, from: nat, acked: set<nat>, k: nat)
    requires Tracks(g, log, route, from, acked) && k in OpenKeys(g)
    ensures Logged(log, k) && from < k <= g.cursor && k !in acked
  { }

  lemma {:induction false} OpenCount(g: Group, log: seq<Record>, route: Route, from: nat, acked: set<nat>)
    requires Tracks(g, log, route, from, acked)
    ensures |OpenKeys(g)| == |g.pending| + |g.inflight|
  {
    PendingCount(g);
    assert PendingKeys(g) * g.inflight.Keys == {} by {
      forall k ensures !(k in PendingKeys(g) && k in g.inflight.Keys) { }
    }
  }

  lemma {:induction false} CardOfThree(a: set<nat>, b: set<nat>, c: set<nat>)
    requires forall k :: !(k in a && k in b) && !(k in a && k in c) && !(k in b && k in c)
    ensures |a + b + c| == |a| + |b| + |c|
  { }

  lemma {:induction false} BacklogDisjoint(g: Group, log: seq<Record>, route: Route, from: nat, acked: set<nat>, k: nat)
    requires Tracks(g, log, route, from, acked)
    ensures !(k in OpenKeys(g) && k in AckedAbove(g, acked))
    ensures k in KeySet(TailAfter(log, g.frontier)) ==> k !in OpenKeys(g) && k !in AckedAbove(g, acked)
  {
    if k in OpenKeys(g) { OpenIsLogged(g, log, route, from, acked, k); }
    if r :| r in TailAfter(log, g.frontier) && r.key == k { TailMembers(log, g.frontier, r); }
  }

  /** Whole-shard lag counts the open records, the unpulled tail, and the records already
      acked above the cursor; the per-subject counts leave the last group out. So they sum
      to the lag exactly when nothing above the cursor has been acked. */
  lemma {:induction false} LagSplits(g: Group, log: seq<Record>, route: Route, from: nat, acked: set<nat>)
    requires Tracks(g, log, route, from, acked)
    ensures Lag(g, log) == |g.pending| + |g.inflight| + |TailAfter(log, g.frontier)| + |AckedAbove(g, acked)|
  {
    BacklogSet(g, log, route, from, acked);
    BacklogSum(g, log, route, from, acked);
    TailCount(log, Committed(g));
    TailCount(log, g.frontier);
    OpenCount(g, log, route, from, acked);
  }

  lemma {:induction false} TailCount(log: seq<Record>, c: nat)
    requires AscendingLog(log)
    ensures |TailAfter(log, c)| == |KeySet(TailAfter(log, c))|
  {
    TailAscends(log, c);
    KeyCount(TailAfter(log, c));
  }

  lemma {:induction false} SameMembers(all: set<nat>, a: set<nat>, b: set<nat>, c: set<nat>)
    requires forall k :: k in all <==> k in a || k in b || k in c
    ensures all == a + b + c
  { }

  lemma {:induction false} BacklogSet(g: Group, log: seq<Record>, route: Route, from: nat, acked: set<nat>)
    requires Tracks(g, log, route, from, acked)
    ensures KeySet(TailAfter(log, Committed(g))) ==
            OpenKeys(g) + AckedAbove(g, acked) + KeySet(TailAfter(log, g.frontier))
  {
    var all := KeySet(TailAfter(log, Committed(g)));
    var open, above, tail := OpenKeys(g), AckedAbove(g, acked), KeySet(TailAfter(log, g.frontier));
    forall k ensures k in all <==> k in open || k in above || k in tail { BacklogKeys(g, log, route, from, acked, k); }
    SameMembers(all, open, above, tail);
  }

  lemma {:induction false} BacklogSum(g: Group, log: seq<Record>, route: Route, from: nat, acked: set<nat>)
    requires Tracks(g, log, route, from, acked)
    ensures |OpenKeys(g) + AckedAbove(g, acked) + KeySet(TailAfter(log, g.frontier))| ==
            |OpenKeys(g)| + |AckedAbove(g, acked)| + |KeySet(TailAfter(log, g.frontier))|
  {
    var open, above, tail := OpenKeys(g), AckedAbove(g, acked), KeySet(TailAfter(log, g.frontier));
    forall k ensures !(k in open && k in above) && !(k in open && k in tail) && !(k in above && k in tail) {
      BacklogDisjoint(g, log, route, from, acked, k);
    }
    CardOfThree(open, above, tail);
  }
}
