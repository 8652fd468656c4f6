// Competing-consumer groups over one shard's log
// (crates/ehdb-feed/src/group.rs, crates/ehdb-l0/src/feed.rs).
//
// The shard's log is a sequence of records with strictly ascending keys. The group reads it
// in bounded batches and hands each record to one member at a time.

module Groups {
  import opened Basics
  import opened OrderedKeys
  import opened Subjects

  /** Logical time, a `u64`. */
  type Tick = n: nat | n <= U64_MAX

  datatype Record = Record(key: nat, body: string)

  datatype Item = Item(subject: Subject, record: Record)

  datatype Flight = Flight(record: Record, subject: Subject, member: nat, deadline: nat, redelivered: bool)

  datatype Delivery = Delivery(record: Record, key: nat, member: nat, redelivered: bool)

  /** `bound` is `earliest_deadline`: at most every in-flight deadline. */
  datatype Group = Group(
    ackWait: nat,
    cursor: nat,
    frontier: nat,
    pending: seq<Item>,
    inflight: map<nat, Flight>,
    bound: nat,
    seen: set<string>)

  type Route = Record -> Subject

  function Fresh(ackWait: nat, from: nat): Group {
    Group(ackWait, from, from, [], map[], U64_MAX, {})
  }

  // --- reading the log ------------------------------------------------------------------

  ghost predicate AscendingLog(log: seq<Record>) {
    forall i, j | 0 <= i < j < |log| :: log[i].key < log[j].key
  }

  function TailAfter(log: seq<Record>, cursor: nat): seq<Record> {
    if log == [] then []
    else (if log[0].key > cursor then [log[0]] else []) + TailAfter(log[1..], cursor)
  }

  /** `read_partition_after_limited`: the oldest records past the cursor, at most `limit`. */
  function Batch(log: seq<Record>, cursor: nat, limit: nat): seq<Record> {
    var tail := TailAfter(log, cursor);
    tail[..Min(|tail|, limit)]
  }

  lemma {:induction false} TailMembers(log: seq<Record>, cursor: nat, r: Record)
    ensures r in TailAfter(log, cursor) <==> r in log && r.key > cursor
  {
    if log != [] {
      TailMembers(log[1..], cursor, r);
    }
  }

  lemma {:induction false} TailAscends(log: seq<Record>, cursor: nat)
    requires AscendingLog(log)
    ensures AscendingLog(TailAfter(log, cursor))
  {
    if log != [] {
      TailAscends(log[1..], cursor);
      var rest := TailAfter(log[1..], cursor);
      forall j | 0 <= j < |rest| ensures log[0].key < rest[j].key {
        TailMembers(log[1..], cursor, rest[j]);
      }
    }
  }

  /** A batch is everything in the log between the cursor and the batch's last key. */
  lemma {:induction false} BatchIsInterval(log: seq<Record>, cursor: nat, limit: nat, r: Record)
    requires AscendingLog(log)
    ensures var b := Batch(log, cursor, limit);
            && AscendingLog(b)
            && (r in b <==> r in log && cursor < r.key && b != [] && r.key <= b[|b| - 1].key)
  {
    var tail := TailAfter(log, cursor);
    var b := Batch(log, cursor, limit);
    TailAscends(log, cursor);
    TailMembers(log, cursor, r);
    if r in b {
      var i :| 0 <= i < |b| && b[i] == r;
    } else if r in tail && b != [] {
      var j :| 0 <= j < |tail| && tail[j] == r;
    }
  }

  // --- specification of the operations ------------------------------------------------------

  function TopKey(f: nat, batch: seq<Record>): nat {
    if batch == [] then f else Max(TopKey(f, batch[..|batch| - 1]), batch[|batch| - 1].key)
  }

  function Tagged(batch: seq<Record>, route: Route): seq<Item> {
    seq(|batch|, i requires 0 <= i < |batch| => Item(route(batch[i]), batch[i]))
  }

  function NamesOf(batch: seq<Record>, route: Route): set<string> {
    set r | r in batch :: Name(route(r))
  }

  /** Refill: queue a batch read from the log. */
  function Pulled(g: Group, batch: seq<Record>, route: Route): Group {
    g.(cursor := if batch == [] then g.cursor else batch[|batch| - 1].key,
       frontier := TopKey(g.frontier, batch),
       pending := g.pending + Tagged(batch, route),
       seen := g.seen + NamesOf(batch, route))
  }

  ghost predicate Expired(g: Group, now: Tick, k: nat) {
    k in g.inflight && g.inflight[k].deadline <= now
  }

  ghost predicate AnyExpired(g: Group, now: Tick) { exists k :: Expired(g, now, k) }

  /** In-flight records past their deadline that this filter may take over. */
  ghost function Due(g: Group, filter: Filter, now: Tick): set<nat> {
    set k | k in g.inflight && Expired(g, now, k) && Matches(filter, g.inflight[k].subject)
  }

  function MinOver(inflight: map<nat, Flight>, ks: seq<nat>): nat
    requires forall k | k in ks :: k in inflight
  {
    if ks == [] then U64_MAX
    else Min(MinOver(inflight, ks[..|ks| - 1]), inflight[ks[|ks| - 1]].deadline)
  }

  ghost function MinDeadline(inflight: map<nat, Flight>): nat {
    MinOver(inflight, Ascending(inflight.Keys))
  }

  function Redelivered(g: Group, k: nat, member: nat, now: Tick): (Group, Option<Delivery>)
    requires k in g.inflight
  {
    var f := g.inflight[k].(member := member, deadline := SaturatingAdd(now, g.ackWait), redelivered := true);
    (g.(inflight := g.inflight[k := f]), Some(Delivery(f.record, k, member, true)))
  }

  ghost function FirstMatch(pending: seq<Item>, filter: Filter, i: nat): Option<nat>
    requires i <= |pending|
    decreases |pending| - i
  {
    if i == |pending| then None
    else if Matches(filter, pending[i].subject) then Some(i)
    else FirstMatch(pending, filter, i + 1)
  }

  lemma {:induction false} FirstMatchIs(pending: seq<Item>, filter: Filter, i: nat)
    requires i <= |pending|
    ensures var p := FirstMatch(pending, filter, i);
            && (p.Some? ==> i <= p.value < |pending| && Matches(filter, pending[p.value].subject)
                            && forall j | i <= j < p.value :: !Matches(filter, pending[j].subject))
            && (p.None? ==> forall j | i <= j < |pending| :: !Matches(filter, pending[j].subject))
    decreases |pending| - i
  {
    if i < |pending| && !Matches(filter, pending[i].subject) { FirstMatchIs(pending, filter, i + 1); }
  }

  function Taken(g: Group, pos: nat, member: nat, now: Tick): (Group, Option<Delivery>)
    requires pos < |g.pending|
  {
    var it := g.pending[pos];
    var deadline := SaturatingAdd(now, g.ackWait);
    var f := Flight(it.record, it.subject, member, deadline, false);
    (g.(bound := Min(g.bound, deadline),
        pending := g.pending[..pos] + g.pending[pos + 1..],
        inflight := g.inflight[it.record.key := f]),
     Some(Delivery(it.record, it.record.key, member, false)))
  }

  ghost function AssignFresh(g: Group, filter: Filter, member: nat, now: Tick): (Group, Option<Delivery>) {
    var pos := FirstMatch(g.pending, filter, 0);
    FirstMatchIs(g.pending, filter, 0);
    if pos.None? then (g, None) else Taken(g, pos.value, member, now)
  }

  /** The scan raises the bound only when nothing at all has expired. */
  ghost function Rebound(g: Group, now: Tick): Group {
    if g.bound > now || AnyExpired(g, now) then g else g.(bound := MinDeadline(g.inflight))
  }

  ghost function Assign(g: Group, filter: Filter, member: nat, now: Tick): (Group, Option<Delivery>) {
    var due := Due(g, filter, now);
    if g.bound > now || due == {} then AssignFresh(Rebound(g, now), filter, member, now)
    else Redelivered(g, MinKey(due), member, now)
  }

  ghost function PollSpec(g: Group, batch: seq<Record>, route: Route, filter: Filter, member: nat, now: Tick):
    (Group, Option<Delivery>)
  {
    Assign(Pulled(g, batch, route), filter, member, now)
  }

  function AckSpec(g: Group, k: nat): (Group, bool) {
    (g.(inflight := g.inflight - {k}), k in g.inflight)
  }

  function ExpireSpec(g: Group, k: nat): (Group, bool) {
    if k in g.inflight then (g.(inflight := g.inflight[k := g.inflight[k].(deadline := 0)], bound := 0), true)
    else (g, false)
  }

  function PendingKeys(g: Group): set<nat> { set it | it in g.pending :: it.record.key }

  /** Pulled and not yet acked. */
  function OpenKeys(g: Group): set<nat> { PendingKeys(g) + g.inflight.Keys }

  /** Everything at or below this has been acked. */
  ghost function Committed(g: Group): nat {
    if OpenKeys(g) == {} then g.frontier
    else if MinKey(OpenKeys(g)) == 0 then 0 else MinKey(OpenKeys(g)) - 1
  }

  // --- the deadline bound -------------------------------------------------------------------

  ghost predicate BoundHolds(g: Group) {
    forall k | k in g.inflight :: g.bound <= g.inflight[k].deadline
  }

  lemma {:induction false} MinOverIs(inflight: map<nat, Flight>, ks: seq<nat>)
    requires forall k | k in ks :: k in inflight
    ensures forall k | k in ks :: MinOver(inflight, ks) <= inflight[k].deadline
  {
    if ks != [] {
      var front := ks[..|ks| - 1];
      MinOverIs(inflight, front);
    }
  }

  lemma {:induction false} ReboundKeeps(g: Group, now: Tick)
    requires BoundHolds(g)
    ensures BoundHolds(Rebound(g, now))
  {
    MinOverIs(g.inflight, Ascending(g.inflight.Keys));
    forall k | k in g.inflight ensures k in Ascending(g.inflight.Keys) { assert k in g.inflight.Keys; }
  }

  /** Polls by any filter, acks and forced expiries all keep the bound below every
      in-flight deadline, also where expired records did not match the filter. */
  lemma {:induction false} BoundKept(g: Group, filter: Filter, member: nat, now: Tick, k: nat)
    requires BoundHolds(g)
    ensures BoundHolds(Assign(g, filter, member, now).0)
    ensures BoundHolds(AckSpec(g, k).0) && BoundHolds(ExpireSpec(g, k).0)
  {
    var due := Due(g, filter, now);
    if g.bound > now || due == {} {
      ReboundKeeps(g, now);
      FreshKeepsBound(Rebound(g, now), filter, member, now);
    } else {
      assert MinKey(due) in due;
      RetryKeepsBound(g, MinKey(due), member, now);
    }
  }

  lemma {:induction false} FreshKeepsBound(g: Group, filter: Filter, member: nat, now: Tick)
    requires BoundHolds(g)
    ensures BoundHolds(AssignFresh(g, filter, member, now).0)
  {
    FirstMatchIs(g.pending, filter, 0);
  }

  lemma {:induction false} RetryKeepsBound(g: Group, k: nat, member: nat, now: Tick)
    requires BoundHolds(g) && Expired(g, now, k)
    ensures BoundHolds(Redelivered(g, k, member, now).0)
  { }

  lemma {:induction false} MinOverAbove(inflight: map<nat, Flight>, ks: seq<nat>, now: Tick)
    requires (forall k | k in ks :: k in inflight && inflight[k].deadline > now) && now < U64_MAX
    ensures MinOver(inflight, ks) > now
  {
    if ks != [] { MinOverAbove(inflight, ks[..|ks| - 1], now); }
  }

  /** A poll that finds nothing expired lifts the bound past its time: no further poll scans
      before time has moved on. */
  lemma {:induction false} ScansOnce(g: Group, filter: Filter, member: nat, now: Tick)
    requires !AnyExpired(g, now) && g.ackWait > 0 && now < U64_MAX
    ensures Assign(g, filter, member, now).0.bound > now
  {
    forall k | k in Ascending(g.inflight.Keys) ensures k in g.inflight && g.inflight[k].deadline > now {
      assert k in g.inflight.Keys && !Expired(g, now, k);
    }
    MinOverAbove(g.inflight, Ascending(g.inflight.Keys), now);
    FirstMatchIs(g.pending, filter, 0);
    assert forall k :: k !in Due(g, filter, now);
  }

  // --- the fast path refines always scanning ----------------------------------------------

  /** The group without its cached bound. */
  function Plain(g: Group): Group { g.(bound := 0) }

  /** Always scan; no bound is read or kept. */
  ghost function ScanAssign(g: Group, filter: Filter, member: nat, now: Tick): (Group, Option<Delivery>) {
    var due := Due(g, filter, now);
    var (g', d) := if due == {} then AssignFresh(g, filter, member, now) else Redelivered(g, MinKey(due), member, now);
    (Plain(g'), d)
  }

  lemma {:induction false} DuePlain(g: Group, h: Group, filter: Filter, now: Tick)
    requires g.inflight == h.inflight
    ensures Due(g, filter, now) == Due(h, filter, now)
  { }

  /** Skipping the scan returns the same delivery and the same group as always scanning. */
  lemma {:induction false} FastPathRefinesScan(g: Group, filter: Filter, member: nat, now: Tick)
    requires BoundHolds(g)
    ensures var (g', d) := Assign(g, filter, member, now);
            (Plain(g'), d) == ScanAssign(Plain(g), filter, member, now)
  {
    DuePlain(g, Plain(g), filter, now);
  }

  datatype Event =
    | Polled(batch: seq<Record>, filter: Filter, member: nat, now: Tick)
    | Acked(key: nat)
    | ForcedOut(key: nat)

  ghost function Deliveries(g: Group, route: Route, es: seq<Event>): seq<Option<Delivery>>
    decreases |es|
  {
    if es == [] then []
    else match es[0]
      case Polled(batch, filter, member, now) =>
        var (g', d) := PollSpec(g, batch, route, filter, member, now);
        [d] + Deliveries(g', route, es[1..])
      case Acked(k) => Deliveries(AckSpec(g, k).0, route, es[1..])
      case ForcedOut(k) => Deliveries(ExpireSpec(g, k).0, route, es[1..])
  }

  ghost function ScanDeliveries(g: Group, route: Route, es: seq<Event>): seq<Option<Delivery>>
    decreases |es|
  {
    if es == [] then []
    else match es[0]
      case Polled(batch, filter, member, now) =>
        var (g', d) := ScanAssign(Pulled(g, batch, route), filter, member, now);
        [d] + ScanDeliveries(g', route, es[1..])
      case Acked(k) => ScanDeliveries(AckSpec(g, k).0, route, es[1..])
      case ForcedOut(k) => ScanDeliveries(ExpireSpec(g, k).0, route, es[1..])
  }

  /** Over any run of polls, acks and expiries the two deliver record for record alike. */
  lemma {:induction false} FastRunRefinesScanRun(g: Group, route: Route, es: seq<Event>)
    requires BoundHolds(g)
    ensures Deliveries(g, route, es) == ScanDeliveries(Plain(g), route, es)
    decreases |es|
  {
    if es != [] {
      match es[0]
      case Polled(batch, filter, member, now) =>
        var g1 := Pulled(g, batch, route);
        BoundKept(g1, filter, member, now, 0);
        FastPathRefinesScan(g1, filter, member, now);
        FastRunRefinesScanRun(Assign(g1, filter, member, now).0, route, es[1..]);
      case Acked(k) =>
        BoundKept(g, [], 0, 0, k);
        FastRunRefinesScanRun(AckSpec(g, k).0, route, es[1..]);
      case ForcedOut(k) =>
        FastRunRefinesScanRun(ExpireSpec(g, k).0, route, es[1..]);
    }
  }

  // --- retries before fresh records, in key order ---------------------------------------------

  /** A poll at `now`: which batch came in and which member asked. */
  datatype Ask = Ask(batch: seq<Record>, member: nat)

  ghost function Drain(g: Group, route: Route, filter: Filter, now: Tick, asks: seq<Ask>): (Group, seq<Option<Delivery>>)
    decreases |asks|
  {
    if asks == [] then (g, [])
    else
      var (g', d) := PollSpec(g, asks[0].batch, route, filter, asks[0].member, now);
      var (g'', ds) := Drain(g', route, filter, now, asks[1..]);
      (g'', [d] + ds)
  }

  ghost predicate IsRetry(d: Option<Delivery>, k: nat) {
    d.Some? && d.value.key == k && d.value.redelivered
  }

  lemma {:induction false} RetryShrinksDue(g: Group, route: Route, filter: Filter, now: Tick, ask: Ask)
    returns (g': Group, d: Option<Delivery>)
    requires BoundHolds(g) && g.ackWait > 0 && now + g.ackWait <= U64_MAX && Due(g, filter, now) != {}
    ensures PollSpec(g, ask.batch, route, filter, ask.member, now) == (g', d)
    ensures IsRetry(d, MinKey(Due(g, filter, now))) && BoundHolds(g') && g'.ackWait == g.ackWait
    ensures Due(g', filter, now) == Due(g, filter, now) - {MinKey(Due(g, filter, now))}
  {
    var g1 := Pulled(g, ask.batch, route);
    DuePlain(g, g1, filter, now);
    var due := Due(g, filter, now);
    var k := MinKey(due);
    g', d := Redelivered(g1, k, ask.member, now).0, Redelivered(g1, k, ask.member, now).1;
    forall j ensures j in Due(g', filter, now) <==> j in due - {k} { }
  }

  ghost predicate AllRetries(ds: seq<Option<Delivery>>, ks: seq<nat>) {
    |ds| == |ks| && forall i | 0 <= i < |ks| :: IsRetry(ds[i], ks[i])
  }

  lemma {:induction false} OneMoreRetry(d: Option<Delivery>, k: nat, ds: seq<Option<Delivery>>, ks: seq<nat>)
    requires IsRetry(d, k) && AllRetries(ds, ks)
    ensures AllRetries([d] + ds, [k] + ks)
  { }

  /** Polling at one instant hands out every expired matching record, once each and in
      ascending key order, before anything fresh, whatever arrives meanwhile. */
  lemma {:induction false} DrainsRetriesInOrder(g: Group, route: Route, filter: Filter, now: Tick, asks: seq<Ask>)
    returns (g': Group, ds: seq<Option<Delivery>>)
    requires BoundHolds(g) && g.ackWait > 0 && now + g.ackWait <= U64_MAX
    requires |asks| == |Ascending(Due(g, filter, now))|
    ensures Drain(g, route, filter, now, asks) == (g', ds)
    ensures AllRetries(ds, Ascending(Due(g, filter, now)))
    ensures Due(g', filter, now) == {} && BoundHolds(g')
    decreases |asks|
  {
    var due := Due(g, filter, now);
    if due == {} {
      g', ds := g, [];
    } else {
      AscendingHead(due);
      var g1, d := RetryShrinksDue(g, route, filter, now, asks[0]);
      g', ds := DrainsRetriesInOrder(g1, route, filter, now, asks[1..]);
      OneMoreRetry(d, MinKey(due), ds, Ascending(due - {MinKey(due)}));
      ds := [d] + ds;
    }
  }

  ghost predicate Wants(g: Group, filter: Filter, i: nat) {
    i < |g.pending| && Matches(filter, g.pending[i].subject)
  }

  /** A delivery comes if and only if a record in flight is due or one that is queued matches.
      With nothing due it is the first that matches, and it leaves the queue. */
  lemma {:induction false} DeliversIff(g: Group, filter: Filter, member: nat, now: Tick, i: nat)
    requires BoundHolds(g)
    ensures var (g', d) := Assign(g, filter, member, now);
            && (d.None? ==> Due(g, filter, now) == {} && !Wants(g, filter, i) && g'.pending == g.pending)
            && (d.Some? && d.value.redelivered ==> Due(g, filter, now) != {} && g'.pending == g.pending)
            && (d.Some? && !d.value.redelivered ==>
                && Due(g, filter, now) == {}
                && exists k: nat :: && Wants(g, filter, k) && d.value.record == g.pending[k].record
                                    && (Wants(g, filter, i) ==> k <= i)
                                    && g'.pending == g.pending[..k] + g.pending[k + 1..])
  {
    FirstMatchIs(g.pending, filter, 0);
    var pos := FirstMatch(g.pending, filter, 0);
    if pos.Some? { assert Wants(g, filter, pos.value); }
  }

  /** And nothing fresh while a retry is due; every delivery matches the filter. */
  lemma {:induction false} DeliveryMatches(g: Group, filter: Filter, member: nat, now: Tick)
    requires BoundHolds(g)
    ensures var (g', d) := Assign(g, filter, member, now);
            d.Some? ==>
              && d.value.key in g'.inflight && g'.inflight[d.value.key].record == d.value.record
              && g'.inflight[d.value.key].member == member
              && Matches(filter, g'.inflight[d.value.key].subject)
              && (d.value.redelivered <==> Due(g, filter, now) != {})
  {
    FirstMatchIs(g.pending, filter, 0);
    if Due(g, filter, now) != {} { assert MinKey(Due(g, filter, now)) in Due(g, filter, now); }
  }
}
