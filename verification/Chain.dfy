// The in-memory execution-partitioned chain (crates/ehdb-l0/src/chain.rs).

module Chain {
  import opened Basics
  import opened OrderedKeys
  import opened Walks

  /** One event as the chain stores it; `execSeq` starts at 1. */
  datatype ChainEvent = ChainEvent(
    execSeq: nat,
    eventId: string,
    prevEventId: Option<string>,
    executionId: string,
    parentExecutionId: Option<string>,
    payload: string)

  datatype ChainError =
    | GapAt(executionId: string, eventId: string)
    | Forked(executionId: string, prevEventId: string, first: string, second: string)
    | NotHead(executionId: string, expected: Option<string>, got: Option<string>)
    | Invalid(why: Reason)

  datatype Reason = BlankId | AlreadyPresent | Substrate

  /** Unicode White_Space, the set `str::trim` strips. */
  predicate IsSpace(c: char) {
    var n := c as int;
    || 0x09 <= n <= 0x0D || n in {0x20, 0x85, 0xA0, 0x1680, 0x2028, 0x2029, 0x202F, 0x205F, 0x3000}
    || 0x2000 <= n <= 0x200A
  }

  /** `s.trim().is_empty()`. */
  predicate Blank(s: string) { forall i | 0 <= i < |s| :: IsSpace(s[i]) }

  /** One execution's partition. */
  datatype Partition = Partition(bySeq: map<nat, ChainEvent>, byEvent: map<string, nat>, head: Option<string>)

  const EmptyPartition := Partition(map[], map[], None)

  /** The point index only names sequences that are held, and the head is held. */
  ghost predicate Indexed(p: Partition) {
    && (forall id | id in p.byEvent :: p.byEvent[id] in p.bySeq)
    && (p.head.None? <==> p.bySeq.Keys == {})
    && (p.head.Some? ==> p.head.value in p.byEvent)
  }

  /** The two maps are inverse to one another and the head is the newest event. */
  ghost predicate WellFormed(p: Partition) {
    && Indexed(p)
    && (forall id | id in p.byEvent :: p.bySeq[p.byEvent[id]].eventId == id)
    && (forall n | n in p.bySeq ::
          && n >= 1 && p.bySeq[n].execSeq == n
          && p.bySeq[n].eventId in p.byEvent && p.byEvent[p.bySeq[n].eventId] == n)
    && (p.head.Some? ==> p.head == Some(p.bySeq[Top(p.bySeq.Keys)].eventId))
  }

  /** Every held predecessor link points to a lower sequence: no cycles to walk into. */
  ghost predicate LinksDescend(p: Partition) {
    forall n | n in p.bySeq :: LinkDescends(p, n)
  }

  ghost predicate LinkDescends(p: Partition, n: nat)
    requires n in p.bySeq
  {
    var prev := p.bySeq[n].prevEventId;
    prev.Some? && prev.value in p.byEvent ==> p.byEvent[prev.value] < n
  }

  /** From each event to the predecessor it names, where that is held. */
  ghost function Links(p: Partition): map<string, string>
    requires Indexed(p)
  {
    map id | id in p.byEvent && Held(p, id).prevEventId.Some? && Held(p, id).prevEventId.value in p.byEvent
      :: Held(p, id).prevEventId.value
  }

  ghost function Held(p: Partition, id: string): ChainEvent
    requires Indexed(p) && id in p.byEvent
  {
    p.bySeq[p.byEvent[id]]
  }

  /** Following predecessors from the head comes to an end. */
  ghost predicate HeadWalkEnds(p: Partition)
    requires Indexed(p)
  {
    p.head.Some? ==> Ends(Links(p), p.head.value)
  }

  lemma {:induction false} DescendingEnds(p: Partition, id: string)
    requires Indexed(p) && LinksDescend(p) && id in p.byEvent
    ensures EndsWithin(Links(p), id, p.byEvent[id]) && Ends(Links(p), id)
    decreases p.byEvent[id]
  {
    if id in Links(p) {
      var prev := Links(p)[id];
      assert LinkDescends(p, p.byEvent[id]);
      DescendingEnds(p, prev);
      MoreSteps(Links(p), prev, p.byEvent[prev], p.byEvent[id] - 1);
    }
    assert EndsWithin(Links(p), id, p.byEvent[id]);
  }

  lemma {:induction false} DescendingHeadEnds(p: Partition)
    requires Indexed(p) && LinksDescend(p)
    ensures HeadWalkEnds(p)
  {
    if p.head.Some? { DescendingEnds(p, p.head.value); }
  }

  // --- specifications of the operations on one partition ---------------------

  ghost function Appended(p: Partition, e: ChainEvent): Partition {
    Partition(p.bySeq[e.execSeq := e], p.byEvent[e.eventId := e.execSeq], Some(e.eventId))
  }

  ghost function NextEvent(p: Partition, exec: string, id: string, prev: Option<string>, parent: Option<string>,
                           payload: string): ChainEvent
  {
    ChainEvent(Top(p.bySeq.Keys) + 1, id, prev, exec, parent, payload)
  }

  ghost function AppendSpec(p: Partition, exec: string, id: string, prev: Option<string>, parent: Option<string>,
                            payload: string): (Partition, Result<nat, ChainError>)
  {
    if Blank(exec) || Blank(id) then (p, Err(Invalid(BlankId)))
    else if p.head != prev then (p, Err(NotHead(exec, p.head, prev)))
    else if id in p.byEvent then (p, Err(Invalid(AlreadyPresent)))
    else
      var e := NextEvent(p, exec, id, prev, parent, payload);
      (Appended(p, e), Ok(e.execSeq))
  }

  ghost function ApplySpec(p: Partition, e: ChainEvent): (Partition, Result<(), ChainError>)
    requires Indexed(p)
  {
    if Blank(e.executionId) || Blank(e.eventId) then (p, Err(Invalid(BlankId)))
    else if e.eventId in p.byEvent then
      var existing := p.bySeq[p.byEvent[e.eventId]];
      if existing == e then (p, Ok(()))
      else
        var prev := if e.prevEventId.Some? then e.prevEventId.value else "<root>";
        (p, Err(Forked(e.executionId, prev, existing.eventId, e.eventId)))
    else
      var newest := forall k | k in p.bySeq :: k < e.execSeq;
      (Partition(p.bySeq[e.execSeq := e], p.byEvent[e.eventId := e.execSeq],
                 if newest then Some(e.eventId) else p.head),
       Ok(()))
  }

  ghost function GetSpec(p: Partition, id: string): Option<ChainEvent>
    requires Indexed(p)
  {
    if id in p.byEvent then Some(p.bySeq[p.byEvent[id]]) else None
  }

  /** Newest first from the event `id`, or the first missing predecessor, by name. */
  ghost function WalkFrom(p: Partition, exec: string, id: string): Result<seq<ChainEvent>, ChainError>
    requires Indexed(p) && id in p.byEvent && Ends(Links(p), id)
    decreases Steps(Links(p), id)
  {
    var e := Held(p, id);
    if e.prevEventId.None? then Ok([e])
    else if e.prevEventId.value !in p.byEvent then Err(GapAt(exec, e.prevEventId.value))
    else
      StepsShrink(Links(p), id);
      After([e], WalkFrom(p, exec, e.prevEventId.value))
  }

  /** A walk continued by `rest`. */
  ghost function After(out: seq<ChainEvent>, rest: Result<seq<ChainEvent>, ChainError>):
    (r: Result<seq<ChainEvent>, ChainError>)
    ensures out == [] ==> r == rest
  {
    assert rest.Ok? ==> [] + rest.value == rest.value;
    if rest.Ok? then Ok(out + rest.value) else rest
  }

  lemma {:induction false} AfterAfter(a: seq<ChainEvent>, b: seq<ChainEvent>, rest: Result<seq<ChainEvent>, ChainError>)
    ensures After(a, After(b, rest)) == After(a + b, rest)
  {
    if rest.Ok? { assert a + (b + rest.value) == a + b + rest.value; }
  }

  ghost function WalkSpec(p: Partition, exec: string): Result<seq<ChainEvent>, ChainError>
    requires Indexed(p) && HeadWalkEnds(p)
  {
    if p.head.None? then Ok([]) else WalkFrom(p, exec, p.head.value)
  }

  ghost function CompleteSpec(p: Partition, exec: string): Result<bool, ChainError>
    requires Indexed(p) && HeadWalkEnds(p)
  {
    match WalkSpec(p, exec)
    case Ok(walked) => Ok(|walked| == Top(p.bySeq.Keys))
    case Err(GapAt(_, _)) => Ok(false)
    case Err(e) => Err(e)
  }

  ghost function ChainSpec(p: Partition): seq<ChainEvent> {
    var ks := Ascending(p.bySeq.Keys);
    seq(|ks|, i requires 0 <= i < |ks| => assert ks[i] in p.bySeq.Keys; p.bySeq[ks[i]])
  }

  // --- the store ---------------------------------------------------------------

  /** A partition of this execution's events, properly indexed. */
  ghost predicate PartOf(p: Partition, exec: string) {
    Indexed(p) && forall n | n in p.bySeq :: p.bySeq[n].executionId == exec
  }

  lemma {:induction false} AppendKeepsPart(p: Partition, exec: string, id: string, prev: Option<string>, parent: Option<string>,
                                           payload: string)
    requires PartOf(p, exec)
    ensures PartOf(AppendSpec(p, exec, id, prev, parent, payload).0, exec)
  {
    var e := NextEvent(p, exec, id, prev, parent, payload);
    assert e.execSeq in Appended(p, e).bySeq.Keys;
  }

  class ChainStore {
    var partitions: map<string, Partition>

    ghost predicate Valid() reads this {
      forall x | x in partitions :: PartOf(partitions[x], x)
    }

    ghost function Part(exec: string): Partition reads this {
      if exec in partitions then partitions[exec] else EmptyPartition
    }

    constructor ()
      ensures Valid() && partitions == map[]
    {
      partitions := map[];
    }

    /** The execution's partition, created empty on first use. */
    method Entry(exec: string) returns (part: Partition)
      requires Valid()
      modifies this
      ensures Valid() && part == old(Part(exec)) && forall x :: Part(x) == old(Part(x))
    {
      part := if exec in partitions then partitions[exec] else EmptyPartition;
      partitions := partitions[exec := part];
    }

    method Put(exec: string, part: Partition)
      requires Valid() && PartOf(part, exec)
      modifies this
      ensures Valid() && Part(exec) == part && forall x | x != exec :: Part(x) == old(Part(x))
    {
      partitions := partitions[exec := part];
    }

    /** Refused unless it extends the head; a refusal leaves every event as it was. */
    method Append(exec: string, id: string, prev: Option<string>, parent: Option<string>, payload: string)
      returns (r: Result<nat, ChainError>)
      requires Valid()
      modifies this
      ensures Valid()
      ensures r == AppendSpec(old(Part(exec)), exec, id, prev, parent, payload).1
      ensures Part(exec) == AppendSpec(old(Part(exec)), exec, id, prev, parent, payload).0
      ensures forall x | x != exec :: Part(x) == old(Part(x))
    {
      AppendKeepsPart(Part(exec), exec, id, prev, parent, payload);
      if Blank(exec) || Blank(id) { return Err(Invalid(BlankId)); }
      var part := Entry(exec);
      if part.head != prev {
        return Err(NotHead(exec, part.head, prev));
      }
      if id in part.byEvent { return Err(Invalid(AlreadyPresent)); }
      var last := LastKey(part.bySeq.Keys);
      var seqNo := (if last.Some? then last.value else 0) + 1;
      var event := ChainEvent(seqNo, id, prev, exec, parent, payload);
      Put(exec, Partition(part.bySeq[seqNo := event], part.byEvent[id := seqNo], Some(id)));
      return Ok(seqNo);
    }

    /** The follower path: the head is not enforced, an identical redelivery is
        accepted, a different event under a held id is a fork. */
    method ApplyReplicated(e: ChainEvent) returns (r: Result<(), ChainError>)
      requires Valid()
      modifies this
      ensures Valid()
      ensures r == ApplySpec(old(Part(e.executionId)), e).1
      ensures Part(e.executionId) == ApplySpec(old(Part(e.executionId)), e).0
      ensures forall x | x != e.executionId :: Part(x) == old(Part(x))
    {
      if Blank(e.executionId) || Blank(e.eventId) { return Err(Invalid(BlankId)); }
      var part := Entry(e.executionId);
      if e.eventId in part.byEvent {
        var existing := part.bySeq[part.byEvent[e.eventId]];
        if existing == e { return Ok(()); }
        var prev := if e.prevEventId.Some? then e.prevEventId.value else "<root>";
        return Err(Forked(e.executionId, prev, existing.eventId, e.eventId));
      }
      var last := LastKey(part.bySeq.Keys);
      var isNewest := last.None? || e.execSeq > last.value;
      assert isNewest <==> forall k | k in part.bySeq :: k < e.execSeq by {
        if last.Some? { assert last.value in part.bySeq; }
      }
      part := Partition(part.bySeq[e.execSeq := e], part.byEvent[e.eventId := e.execSeq],
                        if isNewest then Some(e.eventId) else part.head);
      assert e.execSeq in part.bySeq.Keys;
      Put(e.executionId, part);
      return Ok(());
    }

    method Get(exec: string, id: string) returns (r: Option<ChainEvent>)
      requires Valid()
      ensures r == GetSpec(Part(exec), id)
    {
      if exec !in partitions { return None; }
      var part := partitions[exec];
      if id !in part.byEvent { return None; }
      return Some(part.bySeq[part.byEvent[id]]);
    }

    /** `Ok(None)` only at a root; a missing predecessor is an error naming it. */
    method ParentOf(e: ChainEvent) returns (r: Result<Option<ChainEvent>, ChainError>)
      requires Valid()
      ensures r == if e.prevEventId.None? then Ok(None)
                   else match GetSpec(Part(e.executionId), e.prevEventId.value)
                        case Some(p) => Ok(Some(p))
                        case None => Err(GapAt(e.executionId, e.prevEventId.value))
    {
      if e.prevEventId.None? { return Ok(None); }
      var found := Get(e.executionId, e.prevEventId.value);
      match found
      case Some(p) => return Ok(Some(p));
      case None => return Err(GapAt(e.executionId, e.prevEventId.value));
    }

    method ChainOf(exec: string) returns (r: seq<ChainEvent>)
      requires Valid()
      ensures r == ChainSpec(Part(exec))
    {
      if exec !in partitions {
        assert Ascending({}) == [];
        return [];
      }
      var part := partitions[exec];
      var ks := KeysInOrder(part.bySeq.Keys);
      r := [];
      for i := 0 to |ks|
        invariant |r| == i
        invariant forall j | 0 <= j < i :: ks[j] in part.bySeq && r[j] == part.bySeq[ks[j]]
      {
        assert ks[i] in part.bySeq.Keys;
        r := r + [part.bySeq[ks[i]]];
      }
    }

    /** Head to root by following predecessors; called where the source's loop ends. */
    method WalkFromHead(exec: string) returns (r: Result<seq<ChainEvent>, ChainError>)
      requires Valid() && HeadWalkEnds(Part(exec))
      ensures r == WalkSpec(Part(exec), exec)
    {
      if exec !in partitions { return Ok([]); }
      var part := partitions[exec];
      if part.head.None? { return Ok([]); }
      var head := part.head.value;
      var first := Get(exec, head);
      if first.None? { return Err(GapAt(exec, head)); }
      var cursor := first.value;
      ghost var id := head;
      var out: seq<ChainEvent> := [];
      while true
        invariant id in part.byEvent && Held(part, id) == cursor && Ends(Links(part), id)
        invariant WalkSpec(part, exec) == After(out, WalkFrom(part, exec, id))
        decreases Steps(Links(part), id)
      {
        if id in Links(part) {
          StepsShrink(Links(part), id);
          AfterAfter(out, [cursor], WalkFrom(part, exec, cursor.prevEventId.value));
        }
        out := out + [cursor];
        var up := ParentOf(cursor);
        if up.Err? { return Err(up.error); }
        if up.value.None? { break; }
        id := cursor.prevEventId.value;
        cursor := up.value.value;
      }
      return Ok(out);
    }

    method ChainIsComplete(exec: string) returns (r: Result<bool, ChainError>)
      requires Valid() && HeadWalkEnds(Part(exec))
      ensures r == CompleteSpec(Part(exec), exec)
    {
      if exec !in partitions { return Ok(true); }
      var last := LastKey(partitions[exec].bySeq.Keys);
      var span := if last.Some? then last.value else 0;
      var walked := WalkFromHead(exec);
      match walked
      case Ok(w) => return Ok(|w| == span);
      case Err(GapAt(_, _)) => return Ok(false);
      case Err(e) => return Err(e);
    }
  }

  // --- what an append keeps ----------------------------------------------------

  lemma {:induction false} AppendKeepsShape(p: Partition, exec: string, id: string, prev: Option<string>, parent: Option<string>,
                         payload: string)
    requires WellFormed(p)
    ensures WellFormed(AppendSpec(p, exec, id, prev, parent, payload).0)
  { }

  /** Some held event names `id` as the predecessor it is still waiting for. */
  ghost predicate Awaited(p: Partition, id: string) {
    exists n :: n in p.bySeq && p.bySeq[n].prevEventId == Some(id)
  }

  /** After a successful append every link still descends exactly when no replicated event
      is waiting for the appended id. */
  lemma {:induction false} AppendKeepsLinksIff(p: Partition, exec: string, id: string, prev: Option<string>, parent: Option<string>,
                            payload: string)
    requires WellFormed(p) && LinksDescend(p)
    requires AppendSpec(p, exec, id, prev, parent, payload).1.Ok?
    ensures LinksDescend(AppendSpec(p, exec, id, prev, parent, payload).0) <==> !Awaited(p, id)
  {
    var q := AppendSpec(p, exec, id, prev, parent, payload).0;
    if m :| m in p.bySeq && p.bySeq[m].prevEventId == Some(id) {
      assert m in q.bySeq && !LinkDescends(q, m);
    } else {
      forall k | k in q.bySeq ensures LinkDescends(q, k) { }
    }
  }

  /** What the walk from `from` is missing. */
  ghost predicate StopsAt(p: Partition, exec: string, from: string, id: string)
    requires Indexed(p) && from in p.byEvent && Ends(Links(p), from)
  {
    WalkFrom(p, exec, from) == Err(GapAt(exec, id))
  }

  /** `e` can be appended: neither its id nor its sequence is held. */
  ghost predicate IsNew(p: Partition, e: ChainEvent) {
    Indexed(p) && e.execSeq !in p.bySeq && e.eventId !in p.byEvent
  }

  lemma {:induction false} AppendedLinks(p: Partition, e: ChainEvent, id: string)
    requires IsNew(p, e)
    ensures Indexed(Appended(p, e))
    ensures id in Links(p) ==> id in Links(Appended(p, e)) && Links(Appended(p, e))[id] == Links(p)[id]
    ensures id in p.byEvent && id !in Links(p) ==>
              var prev := Held(p, id).prevEventId;
              && (id in Links(Appended(p, e)) <==> prev == Some(e.eventId))
              && (prev == Some(e.eventId) ==> Links(Appended(p, e))[id] == e.eventId)
  {
    assert e.execSeq in Appended(p, e).bySeq.Keys;
  }

  /** A walk that did not stop for want of the appended event is the same walk after it. */
  lemma {:induction false} OtherWalksEnd(p: Partition, exec: string, e: ChainEvent, from: string)
    requires IsNew(p, e) && from in p.byEvent && Ends(Links(p), from) && !StopsAt(p, exec, from, e.eventId)
    ensures Indexed(Appended(p, e)) && EndsWithin(Links(Appended(p, e)), from, Steps(Links(p), from))
    decreases Steps(Links(p), from)
  {
    AppendedLinks(p, e, from);
    if from in Links(p) {
      var next := Links(p)[from];
      StepsShrink(Links(p), from);
      OtherWalksEnd(p, exec, e, next);
      MoreSteps(Links(Appended(p, e)), next, Steps(Links(p), next), Steps(Links(p), from) - 1);
    }
  }

  /** A walk that did now leads on into it. */
  lemma {:induction false} WalksIntoAppended(p: Partition, exec: string, e: ChainEvent, from: string, steps: nat)
    returns (left: nat)
    requires IsNew(p, e) && from in p.byEvent && Ends(Links(p), from) && StopsAt(p, exec, from, e.eventId)
    requires Indexed(Appended(p, e)) && EndsWithin(Links(Appended(p, e)), from, steps)
    ensures left < steps && EndsWithin(Links(Appended(p, e)), e.eventId, left)
    decreases steps
  {
    AppendedLinks(p, e, from);
    if from in Links(p) {
      StepsShrink(Links(p), from);
      left := WalksIntoAppended(p, exec, e, Links(p)[from], steps - 1);
    } else {
      left := steps - 1;
    }
  }

  /** And if the appended event leads back to where that walk started, it goes round for ever. */
  lemma {:induction false} AppendedGoesRound(p: Partition, exec: string, e: ChainEvent, from: string, steps: nat)
    requires IsNew(p, e) && from in p.byEvent && Ends(Links(p), from) && StopsAt(p, exec, from, e.eventId)
    requires Indexed(Appended(p, e)) && e.prevEventId == Some(from)
    ensures !EndsWithin(Links(Appended(p, e)), e.eventId, steps)
    decreases steps
  {
    if EndsWithin(Links(Appended(p, e)), e.eventId, steps) {
      assert e.eventId in Links(Appended(p, e)) && Links(Appended(p, e))[e.eventId] == from;
      var left := WalksIntoAppended(p, exec, e, from, steps - 1);
      AppendedGoesRound(p, exec, e, from, left);
    }
  }

  /** After a successful append the head walk ends exactly when the walk before it did not
      stop for want of the appended id; a caller can tell by walking first. */
  lemma {:induction false} AppendWalkEndsIff(p: Partition, exec: string, id: string, prev: Option<string>,
                                             parent: Option<string>, payload: string)
    requires Indexed(p) && HeadWalkEnds(p)
    requires AppendSpec(p, exec, id, prev, parent, payload).1.Ok?
    ensures Indexed(AppendSpec(p, exec, id, prev, parent, payload).0)
    ensures HeadWalkEnds(AppendSpec(p, exec, id, prev, parent, payload).0) <==> WalkSpec(p, exec) != Err(GapAt(exec, id))
  {
    var e := NextEvent(p, exec, id, prev, parent, payload);
    var q := Appended(p, e);
    AppendedLinks(p, e, id);
    if p.head.None? {
      assert EndsWithin(Links(q), id, 0);
    } else {
      var from := p.head.value;
      if StopsAt(p, exec, from, id) {
        forall steps: nat ensures !EndsWithin(Links(q), id, steps) { AppendedGoesRound(p, exec, e, from, steps); }
      } else {
        OtherWalksEnd(p, exec, e, from);
        assert Links(q)[id] == from;
        assert EndsWithin(Links(q), id, Steps(Links(p), from) + 1);
      }
    }
  }

  /** Two calls close a cycle: an event arrives before the predecessor it names, and that
      predecessor is then appended after it. */
  lemma {:induction false} TwoCallsCloseACycle(exec: string, a: string, b: string, payload: string)
    requires !Blank(exec) && !Blank(a) && !Blank(b) && a != b
    ensures Indexed(EmptyPartition)
    ensures var (p, first) := ApplySpec(EmptyPartition, ChainEvent(2, b, Some(a), exec, None, payload));
            var (q, second) := AppendSpec(p, exec, a, Some(b), None, payload);
            first.Ok? && second.Ok? && Indexed(q) && !HeadWalkEnds(q)
  {
    var p := ApplySpec(EmptyPartition, ChainEvent(2, b, Some(a), exec, None, payload)).0;
    assert p.bySeq.Keys == {2};
    assert EndsWithin(Links(p), b, 0);
    AppendWalkEndsIff(p, exec, a, Some(b), None, payload);
  }

  // --- replication of one fixed path ---------------------------------------------

  /** The writer's history: consecutive sequences from 1, each linked to the last. */
  ghost predicate IsPath(path: seq<ChainEvent>, exec: string) {
    && !Blank(exec)
    && (forall n | 1 <= n <= |path| :: OnPath(path, exec, n))
    && (forall m, n | 1 <= m < n <= |path| :: EventOf(path, m).eventId != EventOf(path, n).eventId)
  }

  /** The event with sequence `n`. */
  ghost function EventOf(path: seq<ChainEvent>, n: nat): ChainEvent
    requires 1 <= n <= |path|
  {
    path[n - 1]
  }

  ghost predicate OnPath(path: seq<ChainEvent>, exec: string, n: nat)
    requires 1 <= n <= |path|
  {
    var e := EventOf(path, n);
    && e.execSeq == n
    && e.executionId == exec
    && !Blank(e.eventId)
    && e.prevEventId == if n == 1 then None else Some(EventOf(path, n - 1).eventId)
  }

  /** The replica holds exactly the path events numbered in `held`. */
  ghost predicate Replicates(p: Partition, path: seq<ChainEvent>, held: set<nat>) {
    && p.bySeq.Keys == held
    && (forall n | n in held :: HeldAt(p, path, n))
    && (forall id | id in p.byEvent :: NamedAt(p, path, held, id))
    && p.head == HeadOf(path, held)
  }

  ghost predicate HeldAt(p: Partition, path: seq<ChainEvent>, n: nat) {
    && 1 <= n <= |path|
    && n in p.bySeq && p.bySeq[n] == EventOf(path, n)
    && EventOf(path, n).eventId in p.byEvent && p.byEvent[EventOf(path, n).eventId] == n
  }

  ghost predicate NamedAt(p: Partition, path: seq<ChainEvent>, held: set<nat>, id: string) {
    && id in p.byEvent && p.byEvent[id] in held
    && 1 <= p.byEvent[id] <= |path| && EventOf(path, p.byEvent[id]).eventId == id
  }

  ghost function HeadOf(path: seq<ChainEvent>, held: set<nat>): Option<string> {
    if held != {} && 1 <= Top(held) <= |path| then Some(EventOf(path, Top(held)).eventId) else None
  }

  /** The set of events held determines the whole partition. */
  lemma {:induction false} ReplicaUnique(p: Partition, q: Partition, path: seq<ChainEvent>, held: set<nat>)
    requires Replicates(p, path, held) && Replicates(q, path, held)
    ensures p == q
  { }

  lemma {:induction false} ReplicaIndexed(p: Partition, path: seq<ChainEvent>, held: set<nat>)
    requires Replicates(p, path, held)
    ensures Indexed(p)
  { }

  lemma {:induction false} ReplicaShape(p: Partition, path: seq<ChainEvent>, exec: string, held: set<nat>)
    requires IsPath(path, exec) && Replicates(p, path, held)
    ensures WellFormed(p) && LinksDescend(p)
  {
    if held != {} { assert Top(held) in held && HeldAt(p, path, Top(held)); }
    forall n | n in p.bySeq
      ensures LinkDescends(p, n)
      ensures n >= 1 && p.bySeq[n].execSeq == n
      ensures p.bySeq[n].eventId in p.byEvent && p.byEvent[p.bySeq[n].eventId] == n
    {
      assert HeldAt(p, path, n) && OnPath(path, exec, n);
    }
    forall id | id in p.byEvent ensures p.bySeq[p.byEvent[id]].eventId == id { }
  }

  lemma {:induction false} NotYetNamed(p: Partition, path: seq<ChainEvent>, exec: string, held: set<nat>, n: nat)
    requires IsPath(path, exec) && Replicates(p, path, held) && 1 <= n <= |path| && n !in held
    ensures EventOf(path, n).eventId !in p.byEvent
  {
    var id := EventOf(path, n).eventId;
    assert id in p.byEvent ==> NamedAt(p, path, held, id);
  }

  lemma {:induction false} HeadGrows(path: seq<ChainEvent>, held: set<nat>, n: nat)
    requires (forall k | k in held :: 1 <= k <= |path|) && 1 <= n <= |path| && n !in held
    ensures HeadOf(path, held + {n}) ==
            if forall k | k in held :: k < n then Some(EventOf(path, n).eventId) else HeadOf(path, held)
  { }

  /** One delivery of a path event, new or repeated: accepted, and exactly that
      event is held in addition. */
  lemma {:induction false} ApplyOne(p: Partition, path: seq<ChainEvent>, exec: string, held: set<nat>, n: nat)
    requires IsPath(path, exec) && Replicates(p, path, held) && 1 <= n <= |path|
    ensures Indexed(p)
    ensures ApplySpec(p, EventOf(path, n)).1 == Ok(())
    ensures Replicates(ApplySpec(p, EventOf(path, n)).0, path, held + {n})
  {
    assert OnPath(path, exec, n);
    if n in held {
    } else {
      NotYetNamed(p, path, exec, held, n);
      forall k | k in held ensures 1 <= k <= |path| { assert HeldAt(p, path, k); }
      HeadGrows(path, held, n);
      HoldsOneMore(p, ApplySpec(p, EventOf(path, n)).0, path, exec, held, n);
    }
  }

  lemma {:induction false} HoldsOneMore(p: Partition, q: Partition, path: seq<ChainEvent>, exec: string, held: set<nat>, n: nat)
    requires IsPath(path, exec) && Replicates(p, path, held) && 1 <= n <= |path| && n !in held
    requires q.bySeq == p.bySeq[n := EventOf(path, n)] && q.byEvent == p.byEvent[EventOf(path, n).eventId := n]
    requires q.head == HeadOf(path, held + {n})
    ensures Replicates(q, path, held + {n})
  {
    forall k | k in held + {n} ensures HeldAt(q, path, k) {
      if k != n {
        assert HeldAt(p, path, k);
        assert k < n || n < k;
      }
    }
    forall id | id in q.byEvent ensures NamedAt(q, path, held + {n}, id) {
      if id != EventOf(path, n).eventId { assert NamedAt(p, path, held, id); }
    }
  }

  lemma {:induction false} ApplyKeepsIndex(p: Partition, e: ChainEvent)
    requires Indexed(p)
    ensures Indexed(ApplySpec(p, e).0)
  { }

  /** The deliveries applied one after another, stopping at the first refusal. */
  ghost function Deliver(p: Partition, events: seq<ChainEvent>): (Partition, Result<(), ChainError>)
    requires Indexed(p)
    decreases |events|
  {
    if events == [] then (p, Ok(()))
    else
      var (q, r) := ApplySpec(p, events[0]);
      ApplyKeepsIndex(p, events[0]);
      if r.Err? then (q, r) else Deliver(q, events[1..])
  }

  ghost function Sequences(events: seq<ChainEvent>): set<nat> {
    if events == [] then {} else {events[0].execSeq} + Sequences(events[1..])
  }

  lemma {:induction false} SequencesFirst(held: set<nat>, events: seq<ChainEvent>)
    requires events != []
    ensures held + Sequences(events) == held + {events[0].execSeq} + Sequences(events[1..])
  { }

  lemma {:induction false} SequenceOnPath(path: seq<ChainEvent>, exec: string, e: ChainEvent) returns (n: nat)
    requires IsPath(path, exec) && e in path
    ensures 1 <= n <= |path| && EventOf(path, n) == e && e.execSeq == n
  {
    var i :| 0 <= i < |path| && path[i] == e;
    n := i + 1;
    assert OnPath(path, exec, n);
  }

  lemma {:induction false} DeliverFirst(p: Partition, path: seq<ChainEvent>, exec: string, held: set<nat>,
                                        events: seq<ChainEvent>) returns (q: Partition)
    requires IsPath(path, exec) && Replicates(p, path, held) && Indexed(p)
    requires events != [] && events[0] in path
    ensures Indexed(q) && Replicates(q, path, held + {events[0].execSeq})
    ensures Deliver(p, events) == Deliver(q, events[1..])
  {
    var n := SequenceOnPath(path, exec, events[0]);
    ApplyOne(p, path, exec, held, n);
    ApplyKeepsIndex(p, events[0]);
    q := ApplySpec(p, events[0]).0;
  }

  /** Any order, any repetition, any omission: never a fork, and the outcome depends
      only on which events were delivered (`ReplicaUnique`). */
  lemma {:induction false} ReplicationIsOrderFree(p: Partition, path: seq<ChainEvent>, exec: string, held: set<nat>,
                                                  events: seq<ChainEvent>)
    requires IsPath(path, exec) && Replicates(p, path, held)
    requires forall e | e in events :: e in path
    ensures Indexed(p)
    ensures Deliver(p, events).1 == Ok(())
    ensures Replicates(Deliver(p, events).0, path, held + Sequences(events))
    decreases |events|
  {
    ReplicaIndexed(p, path, held);
    if events == [] {
    } else {
      var n := events[0].execSeq;
      var q := DeliverFirst(p, path, exec, held, events);
      ReplicationIsOrderFree(q, path, exec, held + {n}, events[1..]);
      SequencesFirst(held, events);
    }
  }

  /** There is a walk from the event with sequence `n`. */
  ghost predicate HasWalk(p: Partition, path: seq<ChainEvent>, n: nat) {
    && Indexed(p) && 1 <= n <= |path|
    && EventOf(path, n).eventId in p.byEvent && Ends(Links(p), EventOf(path, n).eventId)
  }

  lemma {:induction false} HeldWalks(p: Partition, path: seq<ChainEvent>, exec: string, held: set<nat>, n: nat)
    requires IsPath(path, exec) && Replicates(p, path, held) && n in held
    ensures HasWalk(p, path, n) && Held(p, EventOf(path, n).eventId) == EventOf(path, n) && OnPath(path, exec, n)
  {
    ReplicaShape(p, path, exec, held);
    assert HeldAt(p, path, n);
    DescendingEnds(p, EventOf(path, n).eventId);
  }

  /** With nothing missing below, the walk from sequence `n` lists the path backwards. */
  lemma {:induction false} WalkReachesRoot(p: Partition, path: seq<ChainEvent>, exec: string, held: set<nat>, n: nat)
    requires IsPath(path, exec) && Replicates(p, path, held) && n in held
    requires forall k | 1 <= k <= n :: k in held
    ensures HasWalk(p, path, n) && WalkFrom(p, exec, EventOf(path, n).eventId) == Ok(Descending(path, n))
  {
    HeldWalks(p, path, exec, held, n);
    if n > 1 {
      WalkReachesRoot(p, path, exec, held, n - 1);
    } else {
      assert Descending(path, 1) == [EventOf(path, 1)];
    }
  }

  /** Otherwise it stops at the highest missing event below `n`, and names it. */
  lemma {:induction false} WalkNamesGap(p: Partition, path: seq<ChainEvent>, exec: string, held: set<nat>, n: nat, g: nat)
    requires IsPath(path, exec) && Replicates(p, path, held) && n in held
    requires 1 <= g < n && g !in held && forall k | g < k <= n :: k in held
    ensures HasWalk(p, path, n) && g <= |path|
    ensures WalkFrom(p, exec, EventOf(path, n).eventId) == Err(GapAt(exec, EventOf(path, g).eventId))
  {
    HeldWalks(p, path, exec, held, n);
    if g == n - 1 {
      NotYetNamed(p, path, exec, held, g);
    } else {
      WalkNamesGap(p, path, exec, held, n - 1, g);
    }
  }

  ghost function Descending(path: seq<ChainEvent>, n: nat): (r: seq<ChainEvent>)
    requires n <= |path|
    ensures |r| == n
  {
    if n == 0 then [] else [EventOf(path, n)] + Descending(path, n - 1)
  }

  /** Complete means exactly: no sequence from 1 to the highest held is missing. */
  lemma {:induction false} CompleteIffNoGap(p: Partition, path: seq<ChainEvent>, exec: string, held: set<nat>)
    requires IsPath(path, exec) && Replicates(p, path, held)
    ensures Indexed(p) && HeadWalkEnds(p)
    ensures CompleteSpec(p, exec) == Ok(forall k | 1 <= k <= Top(held) :: k in held)
  {
    ReplicaShape(p, path, exec, held);
    DescendingHeadEnds(p);
    if held != {} {
      var top := Top(held);
      if forall k | 1 <= k <= top :: k in held {
        WalkReachesRoot(p, path, exec, held, top);
      } else {
        var k :| 1 <= k <= top && k !in held;
        var g := HighestGap(held, k, top);
        WalkNamesGap(p, path, exec, held, top, g);
      }
    }
  }

  lemma {:induction false} HighestGap(held: set<nat>, k: nat, n: nat) returns (g: nat)
    requires 1 <= k < n && k !in held && n in held
    ensures 1 <= g < n && g !in held && forall j | g < j <= n :: j in held
    decreases n - k
  {
    if j :| k < j < n && j !in held {
      g := HighestGap(held, j, n);
    } else {
      g := k;
    }
  }

  /** Two deliveries of the same events, in whatever orders and repetitions, leave
      equal partitions, and neither reports a fork. */
  lemma {:induction false} SameEventsSameReplica(path: seq<ChainEvent>, exec: string, xs: seq<ChainEvent>,
                                                 ys: seq<ChainEvent>)
    requires IsPath(path, exec) && Sequences(xs) == Sequences(ys)
    requires (forall e | e in xs :: e in path) && (forall e | e in ys :: e in path)
    ensures Indexed(EmptyPartition)
    ensures Deliver(EmptyPartition, xs) == Deliver(EmptyPartition, ys)
    ensures Deliver(EmptyPartition, xs).1 == Ok(())
  {
    ReplicationIsOrderFree(EmptyPartition, path, exec, {}, xs);
    ReplicationIsOrderFree(EmptyPartition, path, exec, {}, ys);
    ReplicaUnique(Deliver(EmptyPartition, xs).0, Deliver(EmptyPartition, ys).0, path, {} + Sequences(xs));
  }
}
