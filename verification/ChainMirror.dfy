// The durable chain against the in-memory one, without crashes
// (crates/ehdb-l0/src/chain_store_durable.rs, crates/ehdb-l0/src/chain.rs).

module ChainMirror {
  import opened Basics
  import opened Ordering
  import opened OrderedKeys
  import opened Chain
  import opened DurableChain
  import opened Walks

  /** The disk holds exactly the partition's events, pointers and head. */
  ghost predicate Mirrors(p: Partition, d: Disk) {
    && d.ptr.Keys == p.bySeq.Keys
    && d.ev.Keys == p.byEvent.Keys
    && (forall n | n in p.bySeq :: MirrorAt(p, d, n))
    && (forall id | id in p.byEvent :: p.byEvent[id] in p.bySeq && p.bySeq[p.byEvent[id]].eventId == id)
    && HeadsMirror(p, d)
  }

  ghost predicate MirrorAt(p: Partition, d: Disk, n: nat) {
    && n in p.bySeq && n in d.ptr
    && p.bySeq[n].execSeq == n
    && d.ptr[n] == p.bySeq[n].eventId
    && d.ptr[n] in p.byEvent && p.byEvent[d.ptr[n]] == n
    && d.ptr[n] in d.ev && d.ev[d.ptr[n]] == p.bySeq[n]
  }

  ghost predicate HeadsMirror(p: Partition, d: Disk) {
    if p.bySeq.Keys == {} then p.head.None? && d.head.None?
    else
      var top := Top(p.bySeq.Keys);
      top >= 1 && p.head == Some(p.bySeq[top].eventId) && d.head == Some((top, p.bySeq[top].eventId))
  }

  lemma {:induction false} MirrorIndexed(p: Partition, d: Disk)
    requires Mirrors(p, d)
    ensures Indexed(p) && HeadId(d) == p.head && HeadSeq(d) == Top(p.bySeq.Keys)
  { }

  // --- writes ---------------------------------------------------------------------------

  lemma {:induction false} KeysGrow<K, V>(m: map<K, V>, k: K, v: V)
    ensures m[k := v].Keys == m.Keys + {k}
  { }

  lemma {:induction false} NamesGrow(p: Partition, e: ChainEvent, q: Partition)
    requires forall id | id in p.byEvent :: p.byEvent[id] in p.bySeq && p.bySeq[p.byEvent[id]].eventId == id
    requires e.execSeq !in p.bySeq
    requires q.bySeq == p.bySeq[e.execSeq := e] && q.byEvent == p.byEvent[e.eventId := e.execSeq]
    ensures forall id | id in q.byEvent :: q.byEvent[id] in q.bySeq && q.bySeq[q.byEvent[id]].eventId == id
  { }

  lemma {:induction false} MirrorAtGrows(p: Partition, d: Disk, e: ChainEvent, q: Partition, d': Disk, n: nat)
    requires n in p.bySeq ==> MirrorAt(p, d, n)
    requires e.eventId !in p.byEvent && e.execSeq !in p.bySeq && n in q.bySeq
    requires q.bySeq == p.bySeq[e.execSeq := e] && q.byEvent == p.byEvent[e.eventId := e.execSeq]
    requires d'.ev == d.ev[e.eventId := e] && d'.ptr == d.ptr[e.execSeq := e.eventId]
    ensures MirrorAt(q, d', n)
  { }

  /** Both sides take up one fresh event. */
  lemma {:induction false} MirrorGrows(p: Partition, d: Disk, e: ChainEvent, q: Partition, d': Disk)
    requires Mirrors(p, d) && e.eventId !in p.byEvent && e.execSeq !in p.bySeq
    requires q.bySeq == p.bySeq[e.execSeq := e] && q.byEvent == p.byEvent[e.eventId := e.execSeq]
    requires d'.ev == d.ev[e.eventId := e] && d'.ptr == d.ptr[e.execSeq := e.eventId]
    requires HeadsMirror(q, d')
    ensures Mirrors(q, d')
  {
    KeysGrow(p.bySeq, e.execSeq, e);
    KeysGrow(d.ptr, e.execSeq, e.eventId);
    KeysGrow(p.byEvent, e.eventId, e.execSeq);
    KeysGrow(d.ev, e.eventId, e);
    NamesGrow(p, e, q);
    forall n | n in q.bySeq ensures MirrorAt(q, d', n) { MirrorAtGrows(p, d, e, q, d', n); }
  }

  lemma {:induction false} WriteMirrors(p: Partition, w: World, e: ChainEvent)
    requires Mirrors(p, w.disk) && w.budget >= 3 && e.eventId !in p.byEvent && e.execSeq == Top(p.bySeq.Keys) + 1
    ensures WriteEvent(w, e).1 == None && WriteEvent(w, e).0.budget == w.budget - 3
    ensures Mirrors(Appended(p, e), WriteEvent(w, e).0.disk)
  {
    KeysGrow(p.bySeq, e.execSeq, e);
    MirrorGrows(p, w.disk, e, Appended(p, e), WriteEvent(w, e).0.disk);
  }

  /** An append succeeds or fails alike on both sides, with the same sequence number or
      the same error, whatever its arguments. */
  lemma {:induction false} AppendMirrors(p: Partition, w: World, exec: string, id: string, prev: Option<string>,
                                         parent: Option<string>, payload: string)
    requires Mirrors(p, w.disk) && w.budget >= 3
    ensures var (q, r) := AppendSpec(p, exec, id, prev, parent, payload);
            var (w', r') := AppendOn(w, exec, id, prev, parent, payload);
            r == r' && Mirrors(q, w'.disk) && w'.budget >= w.budget - 3
  {
    MirrorIndexed(p, w.disk);
    if !Blank(exec) && !Blank(id) && p.head == prev && id !in p.byEvent {
      var e := NextEvent(p, exec, id, prev, parent, payload);
      WriteMirrors(p, w, e);
      assert AppendSpec(p, exec, id, prev, parent, payload) == (Appended(p, e), Ok(e.execSeq));
      assert AppendOn(w, exec, id, prev, parent, payload) == (WriteEvent(w, e).0, Ok(e.execSeq));
    } else {
      RefusalMirrors(p, w, exec, id, prev, parent, payload);
    }
  }

  lemma {:induction false} RefusalMirrors(p: Partition, w: World, exec: string, id: string, prev: Option<string>,
                                          parent: Option<string>, payload: string)
    requires Mirrors(p, w.disk) && (Blank(exec) || Blank(id) || p.head != prev || id in p.byEvent)
    ensures AppendSpec(p, exec, id, prev, parent, payload).0 == p && AppendOn(w, exec, id, prev, parent, payload).0 == w
    ensures AppendSpec(p, exec, id, prev, parent, payload).1 == AppendOn(w, exec, id, prev, parent, payload).1
  {
    MirrorIndexed(p, w.disk);
    assert id in p.byEvent.Keys <==> id in w.disk.ev.Keys;
  }

  /** A replicated event both sides can agree on: readable ids, and either the very event
      already held under that id, or a new id at a free sequence (1 or more if it is the
      first). */
  ghost predicate NonConflicting(p: Partition, e: ChainEvent) {
    && !Blank(e.executionId) && !Blank(e.eventId)
    && if e.eventId in p.byEvent then p.byEvent[e.eventId] in p.bySeq && p.bySeq[p.byEvent[e.eventId]] == e
       else e.execSeq !in p.bySeq && (e.execSeq >= 1 || p.bySeq.Keys != {})
  }

  lemma {:induction false} RedeliveryMirrors(p: Partition, w: World, e: ChainEvent)
    requires Mirrors(p, w.disk) && NonConflicting(p, e) && e.eventId in p.byEvent
    ensures ApplyOn(w, e) == (w, Ok(()))
  { }

  lemma {:induction false} FreshMirrors(p: Partition, w: World, e: ChainEvent)
    requires Mirrors(p, w.disk) && w.budget >= 3 && NonConflicting(p, e) && e.eventId !in p.byEvent
    ensures Indexed(p)
    ensures var (w', r') := ApplyOn(w, e);
            r' == Ok(()) && Mirrors(ApplySpec(p, e).0, w'.disk) && w'.budget >= w.budget - 3
  {
    MirrorIndexed(p, w.disk);
    var q := ApplySpec(p, e).0;
    var d' := ApplyOn(w, e).0.disk;
    assert q.bySeq.Keys == p.bySeq.Keys + {e.execSeq};
    if p.bySeq.Keys == {} || e.execSeq > Top(p.bySeq.Keys) {
    } else {
      TopIs(q.bySeq.Keys, Top(p.bySeq.Keys));
    }
    MirrorGrows(p, w.disk, e, q, d');
  }

  /** A replicated event is answered alike and leaves both sides alike exactly when it is
      not conflicting: the durable side checks neither ids nor forks, keeps the first
      pointer where memory keeps the last event, and never takes sequence 0 as a head. */
  lemma {:induction false} ApplyMirrorsIff(p: Partition, w: World, e: ChainEvent)
    requires Mirrors(p, w.disk) && w.budget >= 3
    ensures Indexed(p)
    ensures var (q, r) := ApplySpec(p, e);
            var (w', r') := ApplyOn(w, e);
            r == r' && Mirrors(q, w'.disk) <==> NonConflicting(p, e)
  {
    if NonConflicting(p, e) {
      if e.eventId in p.byEvent { RedeliveryMirrors(p, w, e); } else { FreshMirrors(p, w, e); }
    } else {
      ConflictShows(p, w, e);
    }
  }

  lemma {:induction false} ConflictShows(p: Partition, w: World, e: ChainEvent)
    requires Mirrors(p, w.disk) && w.budget >= 3 && !NonConflicting(p, e)
    ensures Indexed(p)
    ensures ApplyOn(w, e).1 == Ok(())
    ensures ApplySpec(p, e).1.Err? || !Mirrors(ApplySpec(p, e).0, ApplyOn(w, e).0.disk)
  {
    var q := ApplySpec(p, e).0;
    var d' := ApplyOn(w, e).0.disk;
    if ApplySpec(p, e).1.Ok? {
      if e.execSeq in p.bySeq {
      } else {
        assert e.execSeq in q.bySeq.Keys && !HeadsMirror(q, d');
      }
    }
  }

  // --- reads ----------------------------------------------------------------------------

  lemma {:induction false} CollectMirrors(p: Partition, d: Disk, ks: seq<nat>)
    requires Mirrors(p, d) && forall k | k in ks :: k in p.bySeq
    ensures forall k | k in ks :: k in d.ptr
    ensures |Collect(d, ks)| == |ks| && forall i | 0 <= i < |ks| :: Collect(d, ks)[i] == p.bySeq[ks[i]]
  {
    if ks != [] {
      CollectMirrors(p, d, ks[1..]);
    }
  }

  lemma {:induction false} ChainSorted(p: Partition, d: Disk)
    requires Mirrors(p, d)
    ensures SortedBy(ChainSpec(p), ByExecSeq)
  {
    var ks := Ascending(p.bySeq.Keys);
    var c := ChainSpec(p);
    forall i, j | 0 <= i < j < |c| ensures ByExecSeq(c[i], c[j]) {
      assert ks[i] in p.bySeq.Keys && ks[j] in p.bySeq.Keys;
    }
  }

  lemma {:induction false} ChainCollected(p: Partition, d: Disk)
    requires Mirrors(p, d)
    ensures Collect(d, Ascending(d.ptr.Keys)) == ChainSpec(p)
  {
    var ks := Ascending(p.bySeq.Keys);
    CollectMirrors(p, d, ks);
  }

  lemma {:induction false} ChainMirrors(p: Partition, d: Disk)
    requires Mirrors(p, d)
    ensures ChainOn(d) == ChainSpec(p)
  {
    ChainCollected(p, d);
    ChainSorted(p, d);
    SortOfSorted(ChainSpec(p), ByExecSeq);
  }

  /** Both sides follow the same links. */
  lemma {:induction false} LinksMirror(p: Partition, d: Disk)
    requires Mirrors(p, d)
    ensures Indexed(p) && DiskLinks(d) == Links(p) && (HeadWalkEnds(p) <==> DiskWalkEnds(d))
  {
    forall id | id in p.byEvent ensures id in d.ev && d.ev[id] == Held(p, id) { assert MirrorAt(p, d, p.byEvent[id]); }
  }

  lemma {:induction false} WalkFromMirrors(p: Partition, d: Disk, exec: string, id: string)
    requires Mirrors(p, d) && Indexed(p) && DiskLinks(d) == Links(p) && id in p.byEvent && Ends(Links(p), id)
    ensures id in d.ev && WalkDiskFrom(d, exec, id) == WalkFrom(p, exec, id)
    decreases Steps(Links(p), id)
  {
    assert MirrorAt(p, d, p.byEvent[id]);
    if id in Links(p) {
      StepsShrink(Links(p), id);
      WalkFromMirrors(p, d, exec, Links(p)[id]);
    }
  }

  /** Chain, walk and completeness read the same from the disk as from memory; where the walk
      does not end on one side, it does not on the other. */
  lemma {:induction false} ReadsMirror(p: Partition, d: Disk, exec: string)
    requires Mirrors(p, d)
    ensures Indexed(p) && ChainOn(d) == ChainSpec(p)
    ensures HeadWalkEnds(p) <==> DiskWalkEnds(d)
    ensures HeadWalkEnds(p) ==>
              WalkOn(d, exec) == WalkSpec(p, exec) && CompleteOn(d, exec) == CompleteSpec(p, exec)
  {
    LinksMirror(p, d);
    ChainMirrors(p, d);
    if p.bySeq.Keys != {} && HeadWalkEnds(p) {
      assert MirrorAt(p, d, Top(p.bySeq.Keys));
      WalkFromMirrors(p, d, exec, p.head.value);
    }
  }

  // --- whole runs -----------------------------------------------------------------------

  datatype Op =
    | Appending(id: string, prev: Option<string>, parent: Option<string>, payload: string)
    | Replicating(event: ChainEvent)

  /** What the caller learns: the sequence assigned, nothing, or the error. */
  type Answer = Result<Option<nat>, ChainError>

  ghost function MemStep(p: Partition, exec: string, op: Op): (Partition, Answer)
    requires Indexed(p)
  {
    match op
    case Appending(id, prev, parent, payload) =>
      var (q, r) := AppendSpec(p, exec, id, prev, parent, payload);
      (q, if r.Ok? then Ok(Some(r.value)) else Err(r.error))
    case Replicating(e) =>
      var (q, r) := ApplySpec(p, e);
      (q, if r.Ok? then Ok(None) else Err(r.error))
  }

  ghost function DiskStep(w: World, exec: string, op: Op): (World, Answer) {
    match op
    case Appending(id, prev, parent, payload) =>
      var (w', r) := AppendOn(w, exec, id, prev, parent, payload);
      (w', if r.Ok? then Ok(Some(r.value)) else Err(r.error))
    case Replicating(e) =>
      var (w', r) := ApplyOn(w, e);
      (w', if r.Ok? then Ok(None) else Err(r.error))
  }

  ghost predicate Fits(p: Partition, exec: string, op: Op) {
    op.Replicating? ==> op.event.executionId == exec && NonConflicting(p, op.event)
  }

  lemma {:induction false} StepMirrors(p: Partition, w: World, exec: string, op: Op)
    requires Mirrors(p, w.disk) && w.budget >= 3 && Fits(p, exec, op)
    ensures Indexed(p)
    ensures var (q, a) := MemStep(p, exec, op);
            var (w', a') := DiskStep(w, exec, op);
            a == a' && Mirrors(q, w'.disk) && w'.budget >= w.budget - 3
  {
    MirrorIndexed(p, w.disk);
    match op
    case Appending(id, prev, parent, payload) => AppendMirrors(p, w, exec, id, prev, parent, payload);
    case Replicating(e) =>
      if e.eventId in p.byEvent { RedeliveryMirrors(p, w, e); } else { FreshMirrors(p, w, e); }
  }

  lemma {:induction false} MemStepIndexed(p: Partition, exec: string, op: Op)
    requires Indexed(p)
    ensures Indexed(MemStep(p, exec, op).0)
  { }

  /** Every operation fits the memory state it meets. */
  ghost predicate AllFit(p: Partition, exec: string, ops: seq<Op>)
    requires Indexed(p)
    decreases |ops|
  {
    ops != [] ==>
      && Fits(p, exec, ops[0])
      && (MemStepIndexed(p, exec, ops[0]); AllFit(MemStep(p, exec, ops[0]).0, exec, ops[1..]))
  }

  ghost function MemRun(p: Partition, exec: string, ops: seq<Op>): (Partition, seq<Answer>)
    requires Indexed(p)
    decreases |ops|
  {
    if ops == [] then (p, [])
    else
      var (q, a) := MemStep(p, exec, ops[0]);
      MemStepIndexed(p, exec, ops[0]);
      var (q', as') := MemRun(q, exec, ops[1..]);
      (q', [a] + as')
  }

  ghost function DiskRun(w: World, exec: string, ops: seq<Op>): (World, seq<Answer>)
    decreases |ops|
  {
    if ops == [] then (w, [])
    else
      var (w', a) := DiskStep(w, exec, ops[0]);
      var (w'', as') := DiskRun(w', exec, ops[1..]);
      (w'', [a] + as')
  }

  lemma {:induction false} RunMirrors(p: Partition, w: World, exec: string, ops: seq<Op>)
    requires Mirrors(p, w.disk) && Indexed(p) && AllFit(p, exec, ops) && w.budget >= 3 * |ops|
    ensures DiskRun(w, exec, ops).1 == MemRun(p, exec, ops).1
    ensures Mirrors(MemRun(p, exec, ops).0, DiskRun(w, exec, ops).0.disk)
    decreases |ops|
  {
    if ops != [] {
      StepMirrors(p, w, exec, ops[0]);
      MemStepIndexed(p, exec, ops[0]);
      RunMirrors(MemStep(p, exec, ops[0]).0, DiskStep(w, exec, ops[0]).0, exec, ops[1..]);
    }
  }

  /** From empty stores, any crash-free mix of appends and non-conflicting replicated
      events is answered identically, and every read agrees afterwards. */
  lemma {:induction false} DurableSimulatesMemory(exec: string, ops: seq<Op>, budget: nat)
    requires Indexed(EmptyPartition) && AllFit(EmptyPartition, exec, ops) && budget >= 3 * |ops|
    ensures var (p, answers) := MemRun(EmptyPartition, exec, ops);
            var (w, answers') := DiskRun(World(BlankDisk, budget), exec, ops);
            && answers' == answers
            && HeadId(w.disk) == p.head && HeadSeq(w.disk) == Top(p.bySeq.Keys)
            && ChainOn(w.disk) == ChainSpec(p)
            && Indexed(p) && (HeadWalkEnds(p) <==> DiskWalkEnds(w.disk))
            && (HeadWalkEnds(p) ==>
                  && WalkOn(w.disk, exec) == WalkSpec(p, exec)
                  && CompleteOn(w.disk, exec) == CompleteSpec(p, exec))
  {
    var w0 := World(BlankDisk, budget);
    RunMirrors(EmptyPartition, w0, exec, ops);
    var p, d := MemRun(EmptyPartition, exec, ops).0, DiskRun(w0, exec, ops).0.disk;
    MirrorIndexed(p, d);
    ReadsMirror(p, d, exec);
  }
}
