// Claims, acks and disconnects interleaved over the two locks of the claim face
// (crates/ehdb-feed/src/claim.rs).
//
// The consumer group and the lease table are behind a lock each, and every step below holds
// at most one of them. A connection is served by one task; connections are numbered from 0.

module Claims {
  import opened Basics
  import opened OrderedKeys
  import opened Subjects
  import opened Groups
  import opened Leases

  /** Where the task that serves a connection stands. `Sent`: a poll has assigned a record and
      sent it, `Got`: the claim has received it, and the lease is recorded next. `Acking`: the
      lease is settled, the group comes next. `Releasing`: the leases are taken, the records
      are expired next. */
  datatype Task =
    | Idle
    | Polling
    | Sent(key: nat)
    | Got(key: nat)
    | Acking(key: nat)
    | Closing
    | Releasing(keys: set<nat>)
    | Gone

  datatype State = State(
    g: Group,
    leases: map<nat, nat>,
    tasks: seq<Task>,
    orphans: set<nat>,   // sent to a claim dropped since, to be expired
    detached: nat)       // polls still running for a claim dropped since

  /** What one poll is given: what the log holds past the cursor, and who asks when. */
  datatype Ask = Ask(batch: seq<Record>, route: Route, filter: Filter, member: nat, now: Tick)

  datatype Step =
    | Connect
    | StartClaim(c: nat)
    | Poll(c: nat, ask: Ask)
    | Receive(c: nat)
    | Lease(c: nat)
    | DropPolling(c: nat)
    | DropSent(c: nat)
    | DropGot(c: nat)
    | DetachedPoll(ask: Ask)
    | ExpireOrphan(key: nat)
    | StartAck(c: nat, key: nat)
    | FinishAck(c: nat)
    | Close(c: nat)
    | TakeLeases(c: nat)
    | Release(c: nat)

  ghost predicate Enabled(s: State, step: Step) {
    match step
    case Connect => true
    case DetachedPoll(_) => s.detached > 0
    case ExpireOrphan(k) => k in s.orphans
    case StartClaim(c) => c < |s.tasks| && s.tasks[c].Idle?
    case Poll(c, _) => c < |s.tasks| && s.tasks[c].Polling?
    case Receive(c) => c < |s.tasks| && s.tasks[c].Sent?
    case Lease(c) => c < |s.tasks| && s.tasks[c].Got?
    case DropPolling(c) => c < |s.tasks| && s.tasks[c].Polling?
    case DropSent(c) => c < |s.tasks| && s.tasks[c].Sent?
    case DropGot(c) => c < |s.tasks| && s.tasks[c].Got?
    case StartAck(c, _) => c < |s.tasks| && s.tasks[c].Idle?
    case FinishAck(c) => c < |s.tasks| && s.tasks[c].Acking?
    case Close(c) => c < |s.tasks| && s.tasks[c].Idle?
    case TakeLeases(c) => c < |s.tasks| && s.tasks[c].Closing?
    case Release(c) => c < |s.tasks| && s.tasks[c].Releasing?
  }

  ghost function Polled(g: Group, ask: Ask): (Group, Option<Delivery>) {
    PollSpec(g, ask.batch, ask.route, ask.filter, ask.member, ask.now)
  }

  /** A dropped claim ends its connection's request loop. */
  ghost function Next(s: State, step: Step): State
    requires Enabled(s, step)
  {
    match step
    case Connect => s.(tasks := s.tasks + [Idle])
    case StartClaim(c) => s.(tasks := s.tasks[c := Polling])
    case Poll(c, ask) =>
      var (g, d) := Polled(s.g, ask);
      s.(g := g, tasks := if d.Some? then s.tasks[c := Sent(d.value.key)] else s.tasks)
    case Receive(c) => s.(tasks := s.tasks[c := Got(s.tasks[c].key)])
    case Lease(c) => s.(leases := s.leases[s.tasks[c].key := c], tasks := s.tasks[c := Idle])
    case DropPolling(c) => s.(tasks := s.tasks[c := Closing], detached := s.detached + 1)
    case DropSent(c) => s.(tasks := s.tasks[c := Closing], orphans := s.orphans + {s.tasks[c].key})
    case DropGot(c) => s.(tasks := s.tasks[c := Closing])
    case DetachedPoll(ask) =>
      var (g, d) := Polled(s.g, ask);
      s.(g := if d.Some? then ExpireSpec(g, d.value.key).0 else g, detached := s.detached - 1)
    case ExpireOrphan(k) => s.(g := ExpireSpec(s.g, k).0, orphans := s.orphans - {k})
    case StartAck(c, k) => s.(leases := s.leases - {k}, tasks := s.tasks[c := Acking(k)])
    case FinishAck(c) => s.(g := AckSpec(s.g, s.tasks[c].key).0, tasks := s.tasks[c := Idle])
    case Close(c) => s.(tasks := s.tasks[c := Closing])
    case TakeLeases(c) =>
      var owed := Owed(s.leases, c);
      s.(leases := s.leases - owed, tasks := s.tasks[c := Releasing(owed)])
    case Release(c) =>
      s.(g := Freed(s.g, Ascending(s.tasks[c].keys)), tasks := s.tasks[c := Gone])
  }

  // --- who sees to a record -----------------------------------------------------------------------

  /** In flight and not due at once: nobody else gets it before its deadline. */
  ghost predicate Waiting(s: State, k: nat) { k in s.g.inflight && s.g.inflight[k].deadline > 0 }

  /** The task has the record in hand and its next step is about it. */
  predicate InHandOf(t: Task, k: nat) {
    match t
    case Sent(j) => j == k
    case Got(j) => j == k
    case Acking(j) => j == k
    case Releasing(ks) => k in ks
    case _ => false
  }

  predicate IsOpen(t: Task) { !t.Releasing? && !t.Gone? }

  ghost predicate LeasedOut(s: State, k: nat) {
    k in s.leases && s.leases[k] < |s.tasks| && IsOpen(s.tasks[s.leases[k]])
  }

  /** Some step yet to come acks it or frees it without waiting for its deadline. */
  ghost predicate SeenTo(s: State, k: nat) {
    (exists c: nat :: c < |s.tasks| && InHandOf(s.tasks[c], k)) || k in s.orphans || LeasedOut(s, k)
  }

  ghost predicate NoneStranded(s: State) { forall k | Waiting(s, k) :: SeenTo(s, k) }

  /** What a step of connection `c` has to show for a record that was seen to. */
  lemma {:induction false} StillSeenTo(s: State, s': State, c: nat, k: nat)
    requires SeenTo(s, k) && c < |s.tasks| == |s'.tasks|
    requires forall d: nat | d < |s.tasks| && d != c :: s'.tasks[d] == s.tasks[d]
    requires k in s.orphans ==> k in s'.orphans || SeenTo(s', k)
    requires InHandOf(s.tasks[c], k) ==> SeenTo(s', k)
    requires k in s.leases ==> SeenTo(s', k) || (k in s'.leases && s'.leases[k] == s.leases[k])
    requires k in s.leases && s.leases[k] == c && IsOpen(s.tasks[c]) ==> SeenTo(s', k)
    ensures SeenTo(s', k)
  {
    if d: nat :| d < |s.tasks| && InHandOf(s.tasks[d], k) && d != c {
      assert InHandOf(s'.tasks[d], k);
    }
  }

  /** A poll touches at most the record it hands out. */
  lemma {:induction false} PollTouchesOne(g: Group, ask: Ask, k: nat)
    ensures var (g', d) := Polled(g, ask);
            d.None? || d.value.key != k ==>
              (k in g'.inflight <==> k in g.inflight) && (k in g.inflight ==> g'.inflight[k] == g.inflight[k])
  { }

  lemma {:induction false} PollKeeps(s: State, c: nat, ask: Ask, k: nat)
    requires NoneStranded(s) && Enabled(s, Poll(c, ask)) && Waiting(Next(s, Poll(c, ask)), k)
    ensures SeenTo(Next(s, Poll(c, ask)), k)
  {
    var s' := Next(s, Poll(c, ask));
    PollTouchesOne(s.g, ask, k);
    if Polled(s.g, ask).1.Some? && Polled(s.g, ask).1.value.key == k {
      assert InHandOf(s'.tasks[c], k);
    } else {
      StillSeenTo(s, s', c, k);
    }
  }

  /** Steps between the locks: the task moves on with the record it has. */
  lemma {:induction false} HandKeeps(s: State, step: Step, k: nat)
    requires NoneStranded(s) && Enabled(s, step) && Waiting(Next(s, step), k)
    requires step.StartClaim? || step.Receive? || step.DropPolling? || step.DropSent? || step.Close?
    ensures SeenTo(Next(s, step), k)
  {
    var s', c := Next(s, step), step.c;
    if step.Receive? && s.tasks[c].key == k { assert InHandOf(s'.tasks[c], k); }
    StillSeenTo(s, s', c, k);
  }

  lemma {:induction false} LeaseKeeps(s: State, step: Step, k: nat)
    requires NoneStranded(s) && Enabled(s, step) && Waiting(Next(s, step), k)
    requires step.Lease? || step.StartAck? || step.TakeLeases?
    ensures SeenTo(Next(s, step), k)
  {
    var s', c := Next(s, step), step.c;
    if InHandOf(s'.tasks[c], k) {
    } else if step.Lease? && s.tasks[c].key == k {
      assert LeasedOut(s', k);
    } else {
      StillSeenTo(s, s', c, k);
    }
  }

  lemma {:induction false} GroupKeeps(s: State, step: Step, k: nat)
    requires NoneStranded(s) && Enabled(s, step) && Waiting(Next(s, step), k)
    requires step.FinishAck? || step.Release?
    ensures SeenTo(Next(s, step), k)
  {
    var s', c := Next(s, step), step.c;
    if step.Release? {
      FreedIsExact(s.g, Ascending(s.tasks[c].keys), k);
    }
    StillSeenTo(s, s', c, k);
  }

  lemma {:induction false} UnattendedKeeps(s: State, step: Step, k: nat)
    requires NoneStranded(s) && Enabled(s, step) && Waiting(Next(s, step), k)
    requires step.Connect? || step.DetachedPoll? || step.ExpireOrphan?
    ensures SeenTo(Next(s, step), k)
  {
    var s' := Next(s, step);
    if step.DetachedPoll? { PollTouchesOne(s.g, step.ask, k); }
    assert SeenTo(s, k);
    if c: nat :| c < |s.tasks| && InHandOf(s.tasks[c], k) { assert InHandOf(s'.tasks[c], k); }
  }

  lemma {:induction false} StepKeeps(s: State, step: Step)
    requires NoneStranded(s) && Enabled(s, step) && !step.DropGot?
    ensures NoneStranded(Next(s, step))
  {
    forall k | Waiting(Next(s, step), k) ensures SeenTo(Next(s, step), k) {
      match step
      case Poll(c, ask) => PollKeeps(s, c, ask, k);
      case Lease(_) => LeaseKeeps(s, step, k);
      case StartAck(_, _) => LeaseKeeps(s, step, k);
      case TakeLeases(_) => LeaseKeeps(s, step, k);
      case FinishAck(_) => GroupKeeps(s, step, k);
      case Release(_) => GroupKeeps(s, step, k);
      case Connect => UnattendedKeeps(s, step, k);
      case DetachedPoll(_) => UnattendedKeeps(s, step, k);
      case ExpireOrphan(_) => UnattendedKeeps(s, step, k);
      case _ => HandKeeps(s, step, k);
    }
  }

  // --- every interleaving --------------------------------------------------------------------------

  ghost predicate Runs(s: State, steps: seq<Step>)
    decreases |steps|
  {
    steps != [] ==> Enabled(s, steps[0]) && Runs(Next(s, steps[0]), steps[1..])
  }

  ghost function Run(s: State, steps: seq<Step>): State
    requires Runs(s, steps)
    decreases |steps|
  {
    if steps == [] then s else Run(Next(s, steps[0]), steps[1..])
  }

  ghost function Start(ackWait: nat, from: nat): State { State(Fresh(ackWait, from), map[], [], {}, 0) }

  /** Over every interleaving of claims, acks, dropped polls and disconnects, each record that
      would wait for its deadline is seen to: leased to an open connection, in the hands of a
      claim, an ack or a release in progress, or an orphan about to be expired. The one step
      left out is a claim dropped between receiving its record and recording the lease. */
  lemma {:induction false} NoDisconnectStrands(s: State, steps: seq<Step>)
    requires NoneStranded(s) && Runs(s, steps) && forall step | step in steps :: !step.DropGot?
    ensures NoneStranded(Run(s, steps))
    decreases |steps|
  {
    if steps != [] {
      StepKeeps(s, steps[0]);
      NoDisconnectStrands(Next(s, steps[0]), steps[1..]);
    }
  }

  /** So when every connection has gone and the orphans are expired, all that is in flight is
      due at once. */
  lemma {:induction false} AllGoneAllDue(ackWait: nat, from: nat, steps: seq<Step>, s: State, k: nat)
    requires Runs(Start(ackWait, from), steps) && Run(Start(ackWait, from), steps) == s
    requires forall step | step in steps :: !step.DropGot?
    requires (forall c | 0 <= c < |s.tasks| :: s.tasks[c].Gone?) && s.orphans == {} && k in s.g.inflight
    ensures s.g.inflight[k].deadline == 0
  {
    StartStrandsNone(ackWait, from);
    NoDisconnectStrands(Start(ackWait, from), steps);
    QuietMeansDue(s, k);
  }

  lemma {:induction false} StartStrandsNone(ackWait: nat, from: nat)
    ensures NoneStranded(Start(ackWait, from))
  { }

  lemma {:induction false} QuietMeansDue(s: State, k: nat)
    requires NoneStranded(s) && (forall c | 0 <= c < |s.tasks| :: s.tasks[c].Gone?) && s.orphans == {}
    ensures !Waiting(s, k)
  { }

  /** Something other than connection `c` sees to the record. */
  ghost predicate SeenToElsewhere(s: State, c: nat, k: nat) {
    || k in s.orphans || LeasedOut(s, k)
    || exists d: nat :: d < |s.tasks| && d != c && InHandOf(s.tasks[d], k)
  }

  /** The step left out strands its record exactly when that record waits and nothing but the
      dropped claim was seeing to it. */
  lemma {:induction false} DropStrandsIff(s: State, c: nat)
    requires NoneStranded(s) && Enabled(s, DropGot(c))
    ensures NoneStranded(Next(s, DropGot(c))) <==> !Waiting(s, s.tasks[c].key) || SeenToElsewhere(s, c, s.tasks[c].key)
  {
    var s', k := Next(s, DropGot(c)), s.tasks[c].key;
    forall j | Waiting(s', j) && j != k ensures SeenTo(s', j) { StillSeenTo(s, s', c, j); }
    assert SeenTo(s', k) <==> SeenToElsewhere(s, c, k) by {
      if d: nat :| d < |s.tasks| && d != c && InHandOf(s.tasks[d], k) { assert InHandOf(s'.tasks[d], k); }
      if d: nat :| d < |s'.tasks| && InHandOf(s'.tasks[d], k) { assert d != c && InHandOf(s.tasks[d], k); }
    }
    assert Waiting(s', k) <==> Waiting(s, k);
  }

  lemma {:induction false} Snoc(s: State, steps: seq<Step>, step: Step)
    requires Runs(s, steps) && Enabled(Run(s, steps), step)
    ensures Runs(s, steps + [step]) && Run(s, steps + [step]) == Next(Run(s, steps), step)
    decreases |steps|
  {
    if steps == [] {
      assert steps + [step] == [step] && [step][1..] == [];
    } else {
      assert (steps + [step])[1..] == steps[1..] + [step];
      Snoc(Next(s, steps[0]), steps[1..], step);
    }
  }

  lemma {:induction false} Do(start: State, steps: seq<Step>, s: State, step: Step) returns (steps': seq<Step>, s': State)
    requires Runs(start, steps) && Run(start, steps) == s && Enabled(s, step)
    ensures Runs(start, steps') && Run(start, steps') == s' == Next(s, step)
  {
    Snoc(start, steps, step);
    steps', s' := steps + [step], Next(s, step);
  }

  /** A first poll of a fresh group hands out its one matching record. */
  lemma {:induction false} FirstDelivery(ackWait: nat, ask: Ask, r: Record)
    requires ask.batch == [r] && Matches(ask.filter, ask.route(r)) && ask.now < U64_MAX
    ensures var (g, d) := Polled(Fresh(ackWait, 0), ask);
            && d.Some? && d.value.key == r.key
            && g.inflight.Keys == {r.key} && g.inflight[r.key].deadline == SaturatingAdd(ask.now, ackWait)
  {
    var g := Pulled(Fresh(ackWait, 0), ask.batch, ask.route);
    assert Tagged([r], ask.route) == [Item(ask.route(r), r)] && g.pending == [Item(ask.route(r), r)];
    FirstMatchIs(g.pending, ask.filter, 0);
  }

  /** One connection, one claim, dropped in that window: the connection is gone and has
      released all it owed, and the record waits out its whole deadline. */
  lemma {:induction false} DroppedClaimStrands(ackWait: nat, ask: Ask, r: Record) returns (steps: seq<Step>, s: State)
    requires ask.batch == [r] && Matches(ask.filter, ask.route(r)) && ask.now < U64_MAX && ackWait > 0
    ensures Runs(Start(ackWait, 0), steps) && Run(Start(ackWait, 0), steps) == s
    ensures s.tasks == [Gone] && s.orphans == {} && Waiting(s, r.key)
    ensures s.g.inflight[r.key].deadline == SaturatingAdd(ask.now, ackWait)
  {
    var g;
    steps, g, s := ReachSent(ackWait, ask, r);
    var start := Start(ackWait, 0);
    steps, s := Do(start, steps, s, Receive(0));
    steps, s := Do(start, steps, s, DropGot(0));
    assert s == State(g, map[], [Closing], {}, 0);
    steps, s := ReleasesNothing(start, steps, s, g);
  }

  lemma {:induction false} ReachSent(ackWait: nat, ask: Ask, r: Record) returns (steps: seq<Step>, g: Group, s: State)
    requires ask.batch == [r] && Matches(ask.filter, ask.route(r)) && ask.now < U64_MAX
    ensures Runs(Start(ackWait, 0), steps) && Run(Start(ackWait, 0), steps) == s
    ensures s == State(g, map[], [Sent(r.key)], {}, 0)
    ensures g.inflight.Keys == {r.key} && g.inflight[r.key].deadline == SaturatingAdd(ask.now, ackWait)
  {
    var start := Start(ackWait, 0);
    FirstDelivery(ackWait, ask, r);
    g := Polled(start.g, ask).0;
    steps, s := Do(start, [], start, Connect);
    steps, s := Do(start, steps, s, StartClaim(0));
    assert s == State(start.g, map[], [Polling], {}, 0);
    steps, s := Do(start, steps, s, Poll(0, ask));
  }

  lemma {:induction false} ReleasesNothing(start: State, steps: seq<Step>, s: State, g: Group) returns (steps': seq<Step>, s': State)
    requires Runs(start, steps) && Run(start, steps) == s == State(g, map[], [Closing], {}, 0)
    ensures Runs(start, steps') && Run(start, steps') == s' == State(g, map[], [Gone], {}, 0)
  {
    steps', s' := Do(start, steps, s, TakeLeases(0));
    assert Owed(map[], 0) == {};
    assert s' == State(g, map[], [Releasing({})], {}, 0);
    steps', s' := Do(start, steps', s', Release(0));
    assert Ascending({}) == [];
  }

  /** A claim dropped while its poll still runs: the poll hands out the record to nobody, and the
      record is due at once. */
  lemma {:induction false} DetachedPollFrees(ackWait: nat, ask: Ask, r: Record) returns (steps: seq<Step>, s: State)
    requires ask.batch == [r] && Matches(ask.filter, ask.route(r)) && ask.now < U64_MAX
    ensures Runs(Start(ackWait, 0), steps) && Run(Start(ackWait, 0), steps) == s
    ensures s.detached == 0 && r.key in s.g.inflight && s.g.inflight[r.key].deadline == 0
  {
    var start := Start(ackWait, 0);
    FirstDelivery(ackWait, ask, r);
    steps, s := Do(start, [], start, Connect);
    steps, s := Do(start, steps, s, StartClaim(0));
    assert s == State(start.g, map[], [Polling], {}, 0);
    steps, s := Do(start, steps, s, DropPolling(0));
    steps, s := Do(start, steps, s, DetachedPoll(ask));
  }
}
