// Ordering an execution's log events by following their predecessor links
// (crates/ehdb-l0/src/chain_populator.rs, `order_by_links`).

module LinkOrder {
  import opened Basics
  import opened Ordering

  /** One event as the authoritative log gives it; `prevEventId` is `None` at the root. */
  datatype LogEvent = LogEvent(
    eventId: string,
    parentExecutionId: Option<string>,
    payload: string,
    prevEventId: Option<string>)

  datatype Verdict =
    | Ordered(order: seq<nat>)
    | MultipleRoots(roots: seq<string>)
    | NoRoot
    | Fork(at: string, successors: seq<string>)
    | Dangling(event: string, prev: string)
    | Unreachable(reached: nat, total: nat)

  /** The reference notion: `order` lists every event once, the root first, each
      event linking to the one listed before it, and no id is used twice. */
  ghost predicate IsChain(es: seq<LogEvent>, order: seq<nat>) {
    && |order| == |es|
    && (forall k | 0 <= k < |order| :: order[k] < |es|)
    && (forall j, k | 0 <= j < k < |order| :: order[j] != order[k])
    && (forall k | 0 <= k < |order| :: Links(es, order, k))
    && DistinctIds(es)
  }

  ghost predicate Links(es: seq<LogEvent>, order: seq<nat>, k: nat)
    requires k < |order|
  {
    && order[k] < |es|
    && es[order[k]].prevEventId ==
       (if k == 0 then None else if order[k - 1] < |es| then Some(es[order[k - 1]].eventId) else None)
  }

  ghost predicate DistinctIds(es: seq<LogEvent>) {
    forall i, j | 0 <= i < j < |es| :: es[i].eventId != es[j].eventId
  }

  ghost predicate HasId(es: seq<LogEvent>, id: string) {
    exists i :: 0 <= i < |es| && es[i].eventId == id
  }

  ghost predicate DanglesAt(es: seq<LogEvent>, i: nat)
    requires i < |es|
  {
    es[i].prevEventId.Some? && !HasId(es, es[i].prevEventId.value)
  }

  ghost predicate AllLinked(es: seq<LogEvent>) {
    forall i | 0 <= i < |es| :: !DanglesAt(es, i)
  }

  /** Ids of the first `n` events that claim to be the root, in slice order. */
  function Roots(es: seq<LogEvent>, n: nat): seq<string>
    requires n <= |es|
  {
    if n == 0 then []
    else Roots(es, n - 1) + (if es[n - 1].prevEventId.None? then [es[n - 1].eventId] else [])
  }

  /** Indices of the first `n` events that name `id` as predecessor, in slice order. */
  function Successors(es: seq<LogEvent>, n: nat, id: string): seq<nat>
    requires n <= |es|
  {
    if n == 0 then []
    else Successors(es, n - 1, id) + (if es[n - 1].prevEventId == Some(id) then [n - 1] else [])
  }

  ghost predicate NoFork(es: seq<LogEvent>) {
    forall id :: |Successors(es, |es|, id)| <= 1
  }

  /** A walk from the sole root along successor links. */
  ghost predicate IsWalk(es: seq<LogEvent>, w: seq<nat>) {
    && |w| > 0
    && Roots(es, |es|) != []
    && (forall k | 0 <= k < |w| :: w[k] < |es|)
    && es[w[0]].eventId == Roots(es, |es|)[0]
    && (forall k | 1 <= k < |w| :: es[w[k]].prevEventId == Some(es[w[k - 1]].eventId))
  }

  /** A walk that either cannot be extended or has already overrun the slice. */
  ghost predicate IsFullWalk(es: seq<LogEvent>, w: seq<nat>) {
    && IsWalk(es, w)
    && |w| <= |es| + 1
    && (|w| <= |es| ==> Successors(es, |es|, es[w[|w| - 1]].eventId) == [])
  }

  /** What each answer means. The six cases exclude one another, so an answer that
      is explained is the only possible kind of answer (`VerdictKindUnique`). */
  ghost predicate Explained(es: seq<LogEvent>, v: Verdict) {
    match v
    case Ordered(order) => IsChain(es, order)
    case Dangling(event, prev) =>
      exists i :: 0 <= i < |es| && DanglesAt(es, i) && es[i].eventId == event
        && es[i].prevEventId == Some(prev) && forall j | 0 <= j < i :: !DanglesAt(es, j)
    case NoRoot => es != [] && AllLinked(es) && Roots(es, |es|) == []
    case MultipleRoots(roots) =>
      AllLinked(es) && |Roots(es, |es|)| > 1 && roots == Sort(Roots(es, |es|), LexLe)
    case Fork(at, successors) =>
      && AllLinked(es) && |Roots(es, |es|)| == 1
      && |Successors(es, |es|, at)| > 1
      && successors == Sort(IdsAt(es, Successors(es, |es|, at)), LexLe)
    case Unreachable(reached, total) =>
      && AllLinked(es) && |Roots(es, |es|)| == 1 && NoFork(es)
      && total == |es| && reached != total
      && exists w :: IsFullWalk(es, w) && |w| == reached
  }

  function IdsAt(es: seq<LogEvent>, ix: seq<nat>): seq<string> {
    seq(|ix|, k requires 0 <= k < |ix| => if ix[k] < |es| then es[ix[k]].eventId else "")
  }

  // --- facts about roots and successors -----------------------------------

  lemma {:induction false} SuccessorsMember(es: seq<LogEvent>, n: nat, id: string, i: nat)
    requires n <= |es|
    ensures i in Successors(es, n, id) <==> i < n && es[i].prevEventId == Some(id)
  {
    if n > 0 { SuccessorsMember(es, n - 1, id, i); }
  }

  lemma {:induction false} NoForkUnique(es: seq<LogEvent>, i: nat, j: nat)
    requires NoFork(es) && i < |es| && j < |es|
    requires es[i].prevEventId.Some? && es[i].prevEventId == es[j].prevEventId
    ensures i == j
  {
    var id := es[i].prevEventId.value;
    SuccessorsMember(es, |es|, id, i);
    SuccessorsMember(es, |es|, id, j);
  }

  lemma {:induction false} RootsMember(es: seq<LogEvent>, n: nat, id: string)
    requires n <= |es|
    ensures id in Roots(es, n) <==> exists i :: 0 <= i < n && es[i].prevEventId.None? && es[i].eventId == id
  {
    if n > 0 {
      RootsMember(es, n - 1, id);
    }
  }

  lemma {:induction false} SoleRoot(es: seq<LogEvent>, n: nat, r: nat)
    requires n <= |es| && r < |es|
    requires forall i | 0 <= i < |es| :: es[i].prevEventId.None? <==> i == r
    ensures Roots(es, n) == if n <= r then [] else [es[r].eventId]
  {
    if n > 0 {
      SoleRoot(es, n - 1, r);
      assert es[n - 1].prevEventId.None? <==> n - 1 == r;
    }
  }

  // --- soundness: a complete walk is a chain --------------------------------

  /** A walk that ends on an event nothing follows never visits the same id twice. */
  lemma {:induction false} NoRepeat(es: seq<LogEvent>, w: seq<nat>, a: nat, b: nat)
    requires NoFork(es) && IsFullWalk(es, w) && |w| <= |es| && a < b < |w|
    ensures es[w[a]].eventId != es[w[b]].eventId
    decreases |w| - b
  {
    if es[w[a]].eventId == es[w[b]].eventId {
      if b == |w| - 1 {
        SuccessorsMember(es, |es|, es[w[b]].eventId, w[a + 1]);
      } else {
        NoForkUnique(es, w[a + 1], w[b + 1]);
        NoRepeat(es, w, a + 1, b + 1);
      }
    }
  }

  lemma {:induction false} WalkIsChain(es: seq<LogEvent>, w: seq<nat>)
    requires NoFork(es) && |Roots(es, |es|)| == 1
    requires IsFullWalk(es, w) && |w| == |es|
    ensures IsChain(es, w)
  {
    forall j, k | 0 <= j < k < |w| ensures es[w[j]].eventId != es[w[k]].eventId {
      NoRepeat(es, w, j, k);
    }
    DistinctIndicesCover(w, |es|);
    forall i, j | 0 <= i < j < |es| ensures es[i].eventId != es[j].eventId {
      assert i in w && j in w;
      var a :| 0 <= a < |w| && w[a] == i;
      var b :| 0 <= b < |w| && w[b] == j;
    }
    RootsMember(es, |es|, Roots(es, |es|)[0]);
    var r :| 0 <= r < |es| && es[r].prevEventId.None? && es[r].eventId == Roots(es, |es|)[0];
  }

  // --- completeness: a chain is always found, and only one order exists -----

  lemma {:induction false} ChainShape(es: seq<LogEvent>, order: seq<nat>)
    requires IsChain(es, order) && es != []
    ensures AllLinked(es) && NoFork(es)
    ensures Roots(es, |es|) == [es[order[0]].eventId]
    ensures Successors(es, |es|, es[order[|order| - 1]].eventId) == []
  {
    DistinctIndicesCover(order, |es|);
    forall i | 0 <= i < |es|
      ensures es[i].prevEventId.None? <==> i == order[0]
      ensures !DanglesAt(es, i)
    {
      assert i in order;
      var k :| 0 <= k < |order| && order[k] == i;
      assert Links(es, order, k);
      if k > 0 { assert es[order[k - 1]].eventId == es[i].prevEventId.value; }
    }
    SoleRoot(es, |es|, order[0]);
    forall id ensures |Successors(es, |es|, id)| <= 1 { AtMostOneSuccessor(es, order, |es|, id); }
    var last := es[order[|order| - 1]].eventId;
    forall i | 0 <= i < |es| ensures es[i].prevEventId != Some(last) {
      assert i in order;
      var k :| 0 <= k < |order| && order[k] == i;
      assert Links(es, order, k);
    }
    NoSuccessors(es, |es|, last);
  }

  lemma {:induction false} NoSuccessors(es: seq<LogEvent>, n: nat, id: string)
    requires n <= |es|
    requires forall i | 0 <= i < |es| :: es[i].prevEventId != Some(id)
    ensures Successors(es, n, id) == []
  {
    if n > 0 { NoSuccessors(es, n - 1, id); }
  }

  lemma {:induction false} SamePredSameEvent(es: seq<LogEvent>, order: seq<nat>, i: nat, j: nat)
    requires IsChain(es, order) && i < |es| && j < |es|
    requires es[i].prevEventId.Some? && es[i].prevEventId == es[j].prevEventId
    ensures i == j
  {
    DistinctIndicesCover(order, |es|);
    assert i in order && j in order;
    var a :| 0 <= a < |order| && order[a] == i;
    var b :| 0 <= b < |order| && order[b] == j;
    assert Links(es, order, a) && Links(es, order, b);
  }

  lemma {:induction false} AtMostOneSuccessor(es: seq<LogEvent>, order: seq<nat>, n: nat, id: string)
    requires IsChain(es, order) && n <= |es|
    ensures |Successors(es, n, id)| <= 1
  {
    if n > 0 {
      AtMostOneSuccessor(es, order, n - 1, id);
      if es[n - 1].prevEventId == Some(id) && Successors(es, n - 1, id) != [] {
        var i := Successors(es, n - 1, id)[0];
        SuccessorsMember(es, n - 1, id, i);
        SamePredSameEvent(es, order, i, n - 1);
      }
    }
  }

  /** Every walk follows the chain order. */
  lemma {:induction false} WalkFollows(es: seq<LogEvent>, order: seq<nat>, w: seq<nat>, k: nat)
    requires IsChain(es, order) && es != [] && IsWalk(es, w) && k < |w|
    ensures k < |order| && w[k] == order[k]
  {
    ChainShape(es, order);
    if k > 0 {
      WalkFollows(es, order, w, k - 1);
      if k == |order| {
        SuccessorsMember(es, |es|, es[order[k - 1]].eventId, w[k]);
      } else {
        assert Links(es, order, k);
        SamePredSameEvent(es, order, w[k], order[k]);
      }
    }
  }

  lemma {:induction false} FullWalkIsTheOrder(es: seq<LogEvent>, order: seq<nat>, w: seq<nat>)
    requires IsChain(es, order) && es != [] && IsFullWalk(es, w)
    ensures w == order
  {
    forall k | 0 <= k < |w| ensures k < |order| && w[k] == order[k] { WalkFollows(es, order, w, k); }
    WalkFollows(es, order, w, |w| - 1);
    if |w| < |order| {
      assert Links(es, order, |w|);
      SuccessorsMember(es, |es|, es[w[|w| - 1]].eventId, order[|w|]);
    }
  }

  lemma {:induction false} ChainOrderUnique(es: seq<LogEvent>, o1: seq<nat>, o2: seq<nat>)
    requires IsChain(es, o1) && IsChain(es, o2)
    ensures o1 == o2
  {
    if es != [] {
      forall k | 1 <= k < |o2| ensures es[o2[k]].prevEventId == Some(es[o2[k - 1]].eventId) {
        assert Links(es, o2, k);
      }
      ChainShape(es, o2);
      FullWalkIsTheOrder(es, o1, o2);
    }
  }

  /** An explained answer fixes which of the six kinds any explained answer is. */
  lemma {:induction false} VerdictKindUnique(es: seq<LogEvent>, v: Verdict, u: Verdict)
    requires Explained(es, v) && Explained(es, u)
    ensures v.Ordered? <==> u.Ordered?
    ensures v.Dangling? <==> u.Dangling?
    ensures v.NoRoot? <==> u.NoRoot?
    ensures v.MultipleRoots? <==> u.MultipleRoots?
    ensures v.Fork? <==> u.Fork?
    ensures v.Ordered? ==> v == u
    ensures v.MultipleRoots? ==> v == u
  {
    if es == [] {
    } else if v.Ordered? {
      ChainShape(es, v.order);
      if u.Ordered? { ChainOrderUnique(es, v.order, u.order); }
      if u.Unreachable? {
        var w :| IsFullWalk(es, w) && |w| == u.reached;
        FullWalkIsTheOrder(es, v.order, w);
      }
    } else if u.Ordered? {
      ChainShape(es, u.order);
      if v.Unreachable? {
        var w :| IsFullWalk(es, w) && |w| == v.reached;
        FullWalkIsTheOrder(es, u.order, w);
      }
    }
  }

  // --- independence of the slice order --------------------------------------

  ghost predicate Rearranges(perm: seq<nat>, es: seq<LogEvent>, fs: seq<LogEvent>) {
    && |perm| == |es| == |fs|
    && (forall i | 0 <= i < |perm| :: perm[i] < |es| && fs[i] == es[perm[i]])
    && (forall i, j | 0 <= i < j < |perm| :: perm[i] != perm[j])
  }

  ghost function Picked(es: seq<LogEvent>, order: seq<nat>): seq<LogEvent>
    requires forall k | 0 <= k < |order| :: order[k] < |es|
  {
    seq(|order|, k requires 0 <= k < |order| => es[order[k]])
  }

  ghost function PreImage(perm: seq<nat>, v: nat): (i: nat)
    requires v in perm
    ensures i < |perm| && perm[i] == v
  {
    var i :| 0 <= i < |perm| && perm[i] == v; i
  }

  /** Presenting the same events in any other order yields the same event sequence. */
  lemma {:induction false} OrderIgnoresPresentation(es: seq<LogEvent>, fs: seq<LogEvent>, perm: seq<nat>, order: seq<nat>)
    returns (order': seq<nat>)
    requires Rearranges(perm, es, fs) && IsChain(es, order)
    ensures IsChain(fs, order')
    ensures Picked(fs, order') == Picked(es, order)
  {
    DistinctIndicesCover(perm, |es|);
    order' := seq(|order|, k requires 0 <= k < |order| => PreImage(perm, order[k]));
    forall k | 0 <= k < |order'| ensures Links(fs, order', k) {
      assert Links(es, order, k);
      assert fs[order'[k]] == es[order[k]];
      if k > 0 { assert fs[order'[k - 1]] == es[order[k - 1]]; }
    }
    forall i, j | 0 <= i < j < |fs| ensures fs[i].eventId != fs[j].eventId { }
  }

  // --- the algorithm ---------------------------------------------------------

  method IndexIds(events: seq<LogEvent>) returns (byId: map<string, nat>)
    ensures forall id :: id in byId <==> HasId(events, id)
    ensures forall id | id in byId :: byId[id] < |events| && events[byId[id]].eventId == id
  {
    byId := map[];
    for i := 0 to |events|
      invariant forall id :: id in byId <==> exists j :: 0 <= j < i && events[j].eventId == id
      invariant forall id | id in byId :: byId[id] < i && events[byId[id]].eventId == id
    {
      byId := byId[events[i].eventId := i];
    }
  }

  /** `Ok((roots, succ))`, or the first dangling link as the answer to return. */
  method IndexLinks(events: seq<LogEvent>, byId: map<string, nat>)
    returns (r: Result<(seq<string>, map<string, seq<nat>>), Verdict>)
    requires forall id :: id in byId <==> HasId(events, id)
    ensures r.Err? ==> r.error.Dangling? && Explained(events, r.error)
    ensures r.Ok? ==> AllLinked(events) && r.value.0 == Roots(events, |events|)
    ensures r.Ok? ==> forall id :: id in r.value.1 <==> Successors(events, |events|, id) != []
    ensures r.Ok? ==> forall id | id in r.value.1 :: r.value.1[id] == Successors(events, |events|, id)
  {
    var roots: seq<string> := [];
    var succ: map<string, seq<nat>> := map[];
    for i := 0 to |events|
      invariant roots == Roots(events, i)
      invariant forall id :: id in succ <==> Successors(events, i, id) != []
      invariant forall id | id in succ :: succ[id] == Successors(events, i, id)
      invariant forall j | 0 <= j < i :: !DanglesAt(events, j)
    {
      match events[i].prevEventId
      case None => roots := roots + [events[i].eventId];
      case Some(prev) =>
        if prev !in byId {
          return Err(Dangling(events[i].eventId, prev));
        }
        succ := succ[prev := (if prev in succ then succ[prev] else []) + [i]];
    }
    return Ok((roots, succ));
  }

  method Walk(events: seq<LogEvent>, start: nat, succ: map<string, seq<nat>>) returns (order: seq<nat>)
    requires start < |events| && |Roots(events, |events|)| == 1
    requires events[start].eventId == Roots(events, |events|)[0]
    requires forall id :: id in succ <==> Successors(events, |events|, id) != []
    requires forall id | id in succ :: succ[id] == Successors(events, |events|, id)
    ensures IsFullWalk(events, order)
  {
    order := [];
    var cur := start;
    while true
      invariant |order| <= |events|
      invariant IsWalk(events, order + [cur])
      decreases |events| + 1 - |order|
    {
      assert (order + [cur])[|order|] == cur;
      order := order + [cur];
      var id := events[cur].eventId;
      if id in succ && |order| <= |events| {
        SuccessorsMember(events, |events|, id, succ[id][0]);
        cur := succ[id][0];
      } else {
        break;
      }
      if |order| > |events| { break; }
    }
  }

  /** The answer is explained, and whenever the events do form one chain the
      answer is `Ordered` with that chain's (only) order. */
  method OrderByLinks(events: seq<LogEvent>) returns (v: Verdict)
    ensures Explained(events, v)
    ensures forall order :: IsChain(events, order) ==> v == Ordered(order)
  {
    if events == [] {
      return Ordered([]);
    }
    var byId := IndexIds(events);
    var indexed := IndexLinks(events, byId);
    if indexed.Err? {
      v := indexed.error;
    } else {
      var (roots, succ) := indexed.value;
      v := OrderLinked(events, byId, roots, succ);
    }
    forall order | IsChain(events, order) ensures v == Ordered(order) {
      VerdictKindUnique(events, Ordered(order), v);
    }
  }

  method OrderLinked(events: seq<LogEvent>, byId: map<string, nat>, roots: seq<string>, succ: map<string, seq<nat>>)
    returns (v: Verdict)
    requires events != [] && AllLinked(events) && roots == Roots(events, |events|)
    requires forall id :: id in byId <==> HasId(events, id)
    requires forall id | id in byId :: byId[id] < |events| && events[byId[id]].eventId == id
    requires forall id :: id in succ <==> Successors(events, |events|, id) != []
    requires forall id | id in succ :: succ[id] == Successors(events, |events|, id)
    ensures Explained(events, v)
  {
    if |roots| == 0 {
      return NoRoot;
    } else if |roots| > 1 {
      return MultipleRoots(Sort(roots, LexLe));
    }
    // Hash-map iteration order is unspecified: any forked predecessor may be reported.
    if prev :| prev in succ && |succ[prev]| > 1 {
      return Fork(prev, Sort(IdsAt(events, succ[prev]), LexLe));
    }
    forall id ensures |Successors(events, |events|, id)| <= 1 {
      if id in succ { assert |succ[id]| <= 1; }
    }
    RootsMember(events, |events|, roots[0]);
    var order := Walk(events, byId[roots[0]], succ);
    if |order| != |events| {
      return Unreachable(|order|, |events|);
    }
    WalkIsChain(events, order);
    return Ordered(order);
  }
}
