// The chain laid out as several substrate keys per event
// (crates/ehdb-l0/src/chain_store_durable.rs).
//
// A substrate call that writes can be the one the process does not survive. That is
// modelled by `budget`, the number of writes still to come: once it is used up every
// further write fails and changes nothing. Statements hold for every budget, so they
// hold for a crash, or an I/O error, between any two writes.

module DurableChain {
  import opened Basics
  import opened Ordering
  import opened OrderedKeys
  import opened Chain
  import opened Walks
  import opened KeyLayout

  /** One execution's keys: events, sequence pointers, head, watermark, coverage. */
  datatype Disk = Disk(
    ev: map<string, ChainEvent>,
    ptr: map<nat, string>,
    head: Option<(nat, string)>,
    mark: Option<(nat, nat)>,
    cover: Option<(string, nat)>)

  const BlankDisk := Disk(map[], map[], None, None, None)

  datatype World = World(disk: Disk, budget: nat)

  // --- specification ------------------------------------------------------------

  function HeadId(d: Disk): Option<string> { if d.head.Some? then Some(d.head.value.1) else None }

  function HeadSeq(d: Disk): nat { if d.head.Some? then d.head.value.0 else 0 }

  /** One write: it happens if the process lives to see it. */
  function Spend(w: World, d: Disk): (World, bool) {
    if w.budget == 0 then (w, false) else (World(d, w.budget - 1), true)
  }

  function PutEv(w: World, id: string, e: ChainEvent): (World, bool) {
    if id in w.disk.ev then (w, true) else Spend(w, w.disk.(ev := w.disk.ev[id := e]))
  }

  function PutPtr(w: World, n: nat, id: string): (World, bool) {
    if n in w.disk.ptr then (w, true) else Spend(w, w.disk.(ptr := w.disk.ptr[n := id]))
  }

  function PutHead(w: World, n: nat, id: string): (World, bool) {
    Spend(w, w.disk.(head := Some((n, id))))
  }

  function AppendOn(w: World, exec: string, id: string, prev: Option<string>, parent: Option<string>, payload: string):
    (World, Result<nat, ChainError>)
  {
    var n := NextSequenceOn(w.disk, exec, id, prev);
    if n.Err? then (w, n)
    else
      var (w', failed) := WriteEvent(w, ChainEvent(n.value, id, prev, exec, parent, payload));
      (w', if failed.Some? then Err(Invalid(failed.value)) else n)
  }

  function NextSequenceOn(d: Disk, exec: string, id: string, prev: Option<string>): Result<nat, ChainError> {
    if Blank(exec) || Blank(id) then Err(Invalid(BlankId))
    else if HeadId(d) != prev then Err(NotHead(exec, HeadId(d), prev))
    else Ok(HeadSeq(d) + 1)
  }

  /** Event, then pointer, then head; the event key is write-once. */
  function WriteEvent(w: World, e: ChainEvent): (World, Option<Reason>) {
    if e.eventId in w.disk.ev then (w, Some(AlreadyPresent)) else
    var (w1, ok1) := PutEv(w, e.eventId, e);
    if !ok1 then (w1, Some(Substrate)) else
    var (w2, ok2) := PutPtr(w1, e.execSeq, e.eventId);
    if !ok2 then (w2, Some(Substrate)) else
    var (w3, ok3) := PutHead(w2, e.execSeq, e.eventId);
    (w3, if ok3 then None else Some(Substrate))
  }

  function ApplyOn(w: World, e: ChainEvent): (World, Result<(), ChainError>) {
    var (w1, ok1) := PutEv(w, e.eventId, e);
    if !ok1 then (w1, Err(Invalid(Substrate))) else
    var (w2, ok2) := PutPtr(w1, e.execSeq, e.eventId);
    if !ok2 then (w2, Err(Invalid(Substrate))) else
    if HeadSeq(w2.disk) >= e.execSeq then (w2, Ok(())) else
    var (w3, ok3) := PutHead(w2, e.execSeq, e.eventId);
    if !ok3 then (w3, Err(Invalid(Substrate))) else (w3, Ok(()))
  }

  predicate ByExecSeq(a: ChainEvent, b: ChainEvent) { a.execSeq <= b.execSeq }

  /** The events behind the pointers `ks`, skipping pointers to absent events. */
  function Collect(d: Disk, ks: seq<nat>): seq<ChainEvent>
    requires forall k | k in ks :: k in d.ptr
  {
    if ks == [] then []
    else
      var id := d.ptr[ks[0]];
      (if id in d.ev then [d.ev[id]] else []) + Collect(d, ks[1..])
  }

  ghost function ChainOn(d: Disk): seq<ChainEvent> {
    var ks := Ascending(d.ptr.Keys);
    Sort(Collect(d, ks), ByExecSeq)
  }

  /** From each event to the predecessor it names, where that is stored. */
  ghost function DiskLinks(d: Disk): map<string, string> {
    map id | id in d.ev && d.ev[id].prevEventId.Some? && d.ev[id].prevEventId.value in d.ev
      :: d.ev[id].prevEventId.value
  }

  /** Following predecessors from the persisted head comes to an end. */
  ghost predicate DiskWalkEnds(d: Disk) { d.head.Some? ==> Ends(DiskLinks(d), d.head.value.1) }

  ghost function WalkDiskFrom(d: Disk, exec: string, id: string): Result<seq<ChainEvent>, ChainError>
    requires id in d.ev && Ends(DiskLinks(d), id)
    decreases Steps(DiskLinks(d), id)
  {
    var e := d.ev[id];
    if e.prevEventId.None? then Ok([e])
    else if e.prevEventId.value !in d.ev then Err(GapAt(exec, e.prevEventId.value))
    else
      StepsShrink(DiskLinks(d), id);
      After([e], WalkDiskFrom(d, exec, e.prevEventId.value))
  }

  ghost function WalkOn(d: Disk, exec: string): Result<seq<ChainEvent>, ChainError>
    requires DiskWalkEnds(d)
  {
    if d.head.None? then Ok([])
    else if d.head.value.1 !in d.ev then Err(GapAt(exec, d.head.value.1))
    else WalkDiskFrom(d, exec, d.head.value.1)
  }

  ghost function CompleteOn(d: Disk, exec: string): Result<bool, ChainError>
    requires DiskWalkEnds(d)
  {
    var chain := ChainOn(d);
    var span := if chain == [] then 0 else chain[|chain| - 1].execSeq;
    match WalkOn(d, exec)
    case Ok(walked) => Ok(|walked| == span)
    case Err(GapAt(_, _)) => Ok(false)
    case Err(e) => Err(e)
  }

  // --- the substrate ---------------------------------------------------------------

  /** Object contents: an event as JSON, or a short text record. */
  datatype Blob = Json(event: ChainEvent) | Text(text: string)

  class Substrate {
    var kv: map<string, Blob>
    var budget: nat

    constructor (budget: nat)
      ensures kv == map[] && this.budget == budget
    {
      kv := map[];
      this.budget := budget;
    }

    method GetAll(key: string) returns (r: Option<Blob>)
      ensures r == if key in kv then Some(kv[key]) else None
    {
      r := if key in kv then Some(kv[key]) else None;
    }

    /** `Some(true)`: written; `Some(false)`: the key existed; `None`: the write failed. */
    method PutIfAbsent(key: string, blob: Blob) returns (r: Option<bool>)
      modifies this
      ensures key in old(kv) ==> r == Some(false) && kv == old(kv) && budget == old(budget)
      ensures key !in old(kv) && old(budget) == 0 ==> r == None && kv == old(kv) && budget == 0
      ensures key !in old(kv) && old(budget) > 0 ==>
                r == Some(true) && kv == old(kv)[key := blob] && budget == old(budget) - 1
    {
      if key in kv { return Some(false); }
      if budget == 0 { return None; }
      kv, budget := kv[key := blob], budget - 1;
      return Some(true);
    }

    method PutOverwrite(key: string, blob: Blob) returns (ok: bool)
      modifies this
      ensures ok <==> old(budget) > 0
      ensures !ok ==> kv == old(kv) && budget == 0
      ensures ok ==> kv == old(kv)[key := blob] && budget == old(budget) - 1
    {
      if budget == 0 { return false; }
      kv, budget := kv[key := blob], budget - 1;
      return true;
    }

    /** Deleting a missing key succeeds and changes nothing. */
    method Delete(key: string) returns (ok: bool)
      modifies this
      ensures ok <==> old(budget) > 0
      ensures !ok ==> kv == old(kv) && budget == 0
      ensures ok ==> kv == old(kv) - {key} && budget == old(budget) - 1
    {
      if budget == 0 { return false; }
      kv, budget := kv - {key}, budget - 1;
      return true;
    }

    /** Every key under the prefix once; the order is unspecified. */
    method ListPrefix(prefix: string) returns (keys: seq<string>)
      ensures forall k :: k in keys <==> k in kv && HasPrefix(k, prefix)
      ensures forall i, j | 0 <= i < j < |keys| :: keys[i] != keys[j]
    {
      keys := [];
      var left := kv.Keys;
      while left != {}
        invariant left <= kv.Keys
        invariant forall k :: k in keys <==> k in kv && k !in left && HasPrefix(k, prefix)
        invariant forall i, j | 0 <= i < j < |keys| :: keys[i] != keys[j]
        decreases |left|
      {
        var k :| k in left;
        if HasPrefix(k, prefix) { keys := keys + [k]; }
        left := left - {k};
      }
    }
  }

  // --- how a substrate represents an execution's disk ------------------------------

  ghost predicate EvRep(kv: map<string, Blob>, x: string, ev: map<string, ChainEvent>) {
    forall id :: EvSlot(kv, x, ev, id)
  }

  ghost predicate EvSlot(kv: map<string, Blob>, x: string, ev: map<string, ChainEvent>, id: string) {
    if id in ev then EvKey(x, id) in kv && kv[EvKey(x, id)] == Json(ev[id]) else EvKey(x, id) !in kv
  }

  ghost predicate PtrRep(kv: map<string, Blob>, x: string, ptr: map<nat, string>) {
    && (forall n: nat | n <= U64_MAX :: PtrSlot(kv, x, ptr, n))
    && (forall n | n in ptr :: n <= U64_MAX)
    && (forall k | k in kv && HasPrefix(k, SeqPrefix(x)) :: IsSeqKey(x, k))
  }

  ghost predicate PtrSlot(kv: map<string, Blob>, x: string, ptr: map<nat, string>, n: nat) {
    if n in ptr then SeqKey(x, n) in kv && kv[SeqKey(x, n)] == Text(ptr[n]) else SeqKey(x, n) !in kv
  }

  ghost predicate IsSeqKey(x: string, k: string) {
    exists n: nat :: n <= U64_MAX && k == SeqKey(x, n)
  }

  ghost predicate TextSlot(kv: map<string, Blob>, key: string, text: Option<string>) {
    match text
    case None => key !in kv
    case Some(t) => key in kv && kv[key] == Text(t)
  }

  ghost function HeadTextOf(h: Option<(nat, string)>): Option<string> {
    if h.Some? then Some(HeadText(h.value.0, h.value.1)) else None
  }

  ghost function MarkTextOf(m: Option<(nat, nat)>): Option<string> {
    if m.Some? then Some(MarkText(m.value.0, m.value.1)) else None
  }

  ghost function CoverTextOf(c: Option<(string, nat)>): Option<string> {
    if c.Some? then Some(CoverText(c.value.0, c.value.1)) else None
  }

  /** Every number on the disk fits the 64 bits it is read back into. */
  ghost predicate InRange(d: Disk) {
    && (d.head.Some? ==> d.head.value.0 <= U64_MAX)
    && (d.mark.Some? ==> d.mark.value.0 <= U64_MAX && d.mark.value.1 <= U64_MAX)
    && (d.cover.Some? ==> d.cover.value.1 <= U64_MAX)
  }

  ghost predicate Rep(kv: map<string, Blob>, x: string, d: Disk) {
    && EvRep(kv, x, d.ev)
    && PtrRep(kv, x, d.ptr)
    && TextSlot(kv, HeadKey(x), HeadTextOf(d.head))
    && TextSlot(kv, MarkKey(x), MarkTextOf(d.mark))
    && TextSlot(kv, CoverKey(x), CoverTextOf(d.cover))
    && InRange(d)
  }

  /** Nothing outside execution `x`'s keys changed. */
  ghost predicate OnlyChanged(a: map<string, Blob>, b: map<string, Blob>, x: string) {
    forall k | !HasPrefix(k, Root(x)) :: SameAt(a, b, k)
  }

  ghost predicate SameAt(a: map<string, Blob>, b: map<string, Blob>, k: string) {
    (k in a <==> k in b) && (k in a ==> a[k] == b[k])
  }

  lemma {:induction false} OnlyChangedTrans(a: map<string, Blob>, b: map<string, Blob>, c: map<string, Blob>, x: string)
    requires OnlyChanged(a, b, x) && OnlyChanged(b, c, x)
    ensures OnlyChanged(a, c, x)
  {
    forall k | !HasPrefix(k, Root(x)) ensures SameAt(a, c, k) { }
  }

  /** Frame facts: which sub-representations survive a change at one key. */
  lemma {:induction false} EvRepFrame(a: map<string, Blob>, b: map<string, Blob>, x: string, ev: map<string, ChainEvent>)
    requires EvRep(a, x, ev) && forall id :: SameAt(a, b, EvKey(x, id))
    ensures EvRep(b, x, ev)
  {
    forall id ensures EvSlot(b, x, ev, id) { assert EvSlot(a, x, ev, id) && SameAt(a, b, EvKey(x, id)); }
  }

  lemma {:induction false} PtrRepFrame(a: map<string, Blob>, b: map<string, Blob>, x: string, ptr: map<nat, string>)
    requires PtrRep(a, x, ptr)
    requires forall k | HasPrefix(k, SeqPrefix(x)) :: SameAt(a, b, k)
    ensures PtrRep(b, x, ptr)
  {
    forall n: nat | n <= U64_MAX ensures PtrSlot(b, x, ptr, n) {
      assert PtrSlot(a, x, ptr, n) && SameAt(a, b, SeqKey(x, n));
    }
    forall k | k in b && HasPrefix(k, SeqPrefix(x)) ensures IsSeqKey(x, k) { }
  }

  lemma {:induction false} SeqPrefixFamily(x: string, k: string)
    requires HasPrefix(k, SeqPrefix(x))
    ensures HasPrefix(k, Root(x)) && |k| > |Root(x)| && k[|Root(x)|] == 's'
  { }

  /** A change at a key of `x` that is neither an event nor a pointer key. */
  lemma {:induction false} OtherFamilies(a: map<string, Blob>, b: map<string, Blob>, x: string, key: string, d: Disk)
    requires key in {HeadKey(x), MarkKey(x), CoverKey(x)}
    requires forall k | k != key :: SameAt(a, b, k)
    requires EvRep(a, x, d.ev) && PtrRep(a, x, d.ptr)
    ensures EvRep(b, x, d.ev) && PtrRep(b, x, d.ptr) && OnlyChanged(a, b, x)
  {
    forall id ensures SameAt(a, b, EvKey(x, id)) { FamiliesDisjoint(x, id, 0); }
    EvRepFrame(a, b, x, d.ev);
    forall k | HasPrefix(k, SeqPrefix(x)) ensures SameAt(a, b, k) {
      SeqPrefixFamily(x, k);
    }
    PtrRepFrame(a, b, x, d.ptr);
  }

  lemma {:induction false} RepPutHead(kv: map<string, Blob>, x: string, d: Disk, n: nat, id: string)
    requires Rep(kv, x, d) && n <= U64_MAX
    ensures Rep(kv[HeadKey(x) := Text(HeadText(n, id))], x, d.(head := Some((n, id))))
    ensures OnlyChanged(kv, kv[HeadKey(x) := Text(HeadText(n, id))], x)
  {
    OtherFamilies(kv, kv[HeadKey(x) := Text(HeadText(n, id))], x, HeadKey(x), d);
  }

  lemma {:induction false} RepPutMark(kv: map<string, Blob>, x: string, d: Disk, n: nat, m: nat)
    requires Rep(kv, x, d) && n <= U64_MAX && m <= U64_MAX
    ensures Rep(kv[MarkKey(x) := Text(MarkText(n, m))], x, d.(mark := Some((n, m))))
    ensures OnlyChanged(kv, kv[MarkKey(x) := Text(MarkText(n, m))], x)
  {
    OtherFamilies(kv, kv[MarkKey(x) := Text(MarkText(n, m))], x, MarkKey(x), d);
  }

  lemma {:induction false} RepPutCover(kv: map<string, Blob>, x: string, d: Disk, root: string, n: nat)
    requires Rep(kv, x, d) && n <= U64_MAX
    ensures Rep(kv[CoverKey(x) := Text(CoverText(root, n))], x, d.(cover := Some((root, n))))
    ensures OnlyChanged(kv, kv[CoverKey(x) := Text(CoverText(root, n))], x)
  {
    OtherFamilies(kv, kv[CoverKey(x) := Text(CoverText(root, n))], x, CoverKey(x), d);
  }

  lemma {:induction false} RepDropCover(kv: map<string, Blob>, x: string, d: Disk)
    requires Rep(kv, x, d)
    ensures Rep(kv - {CoverKey(x)}, x, d.(cover := None))
    ensures OnlyChanged(kv, kv - {CoverKey(x)}, x)
  {
    OtherFamilies(kv, kv - {CoverKey(x)}, x, CoverKey(x), d);
  }

  lemma {:induction false} RepPutEv(kv: map<string, Blob>, x: string, d: Disk, id: string, e: ChainEvent)
    requires Rep(kv, x, d)
    ensures Rep(kv[EvKey(x, id) := Json(e)], x, d.(ev := d.ev[id := e]))
    ensures OnlyChanged(kv, kv[EvKey(x, id) := Json(e)], x)
  {
    var b := kv[EvKey(x, id) := Json(e)];
    var ev' := d.ev[id := e];
    forall j ensures EvSlot(b, x, ev', j) {
      EvKeyInjective(x, id, j);
      assert EvSlot(kv, x, d.ev, j);
    }
    FamiliesDisjoint(x, id, 0);
    forall k | HasPrefix(k, SeqPrefix(x)) ensures SameAt(kv, b, k) { SeqPrefixFamily(x, k); }
    PtrRepFrame(kv, b, x, d.ptr);
  }

  lemma {:induction false} RepPutPtr(kv: map<string, Blob>, x: string, d: Disk, n: nat, id: string)
    requires Rep(kv, x, d) && n <= U64_MAX
    ensures Rep(kv[SeqKey(x, n) := Text(id)], x, d.(ptr := d.ptr[n := id]))
    ensures OnlyChanged(kv, kv[SeqKey(x, n) := Text(id)], x)
  {
    var b := kv[SeqKey(x, n) := Text(id)];
    forall j ensures SameAt(kv, b, EvKey(x, j)) { FamiliesDisjoint(x, j, n); }
    EvRepFrame(kv, b, x, d.ev);
    var ptr' := d.ptr[n := id];
    forall m: nat | m <= U64_MAX ensures PtrSlot(b, x, ptr', m) {
      SeqKeyOrder(x, n, m);
      assert PtrSlot(kv, x, d.ptr, m);
    }
  }

  /** Writes to one execution are invisible to every other. */
  lemma {:induction false} RepOtherExecution(a: map<string, Blob>, b: map<string, Blob>, x: string, y: string, d: Disk)
    requires NoSlash(x) && NoSlash(y) && x != y && OnlyChanged(a, b, x) && Rep(a, y, d)
    ensures Rep(b, y, d)
  {
    forall id ensures SameAt(a, b, EvKey(y, id)) { ForeignKey(a, b, x, y, "ev/" + id); }
    EvRepFrame(a, b, y, d.ev);
    forall k | HasPrefix(k, SeqPrefix(y)) ensures SameAt(a, b, k) {
      assert k == Key(y, k[|Root(y)|..]);
      ForeignKey(a, b, x, y, k[|Root(y)|..]);
    }
    PtrRepFrame(a, b, y, d.ptr);
    ForeignKey(a, b, x, y, "head");
    ForeignKey(a, b, x, y, "wm");
    ForeignKey(a, b, x, y, "cov");
  }

  lemma {:induction false} ForeignKey(a: map<string, Blob>, b: map<string, Blob>, x: string, y: string, tail: string)
    requires NoSlash(x) && NoSlash(y) && x != y && OnlyChanged(a, b, x)
    ensures SameAt(a, b, Key(y, tail))
  {
    var k := Key(y, tail);
    if HasPrefix(k, Root(x)) {
      ExecutionsDisjoint(x, y, k[|Root(x)|..], tail);
    }
  }

  // --- the store -------------------------------------------------------------------

  class DurableChainStore {
    const substrate: Substrate

    constructor (substrate: Substrate)
      ensures this.substrate == substrate
    {
      this.substrate := substrate;
    }

    method Get(ghost d: Disk, exec: string, id: string) returns (r: Option<ChainEvent>)
      requires Rep(substrate.kv, exec, d)
      ensures r == if id in d.ev then Some(d.ev[id]) else None
    {
      assert EvSlot(substrate.kv, exec, d.ev, id);
      var found := substrate.GetAll(EvKey(exec, id));
      if found.None? { return None; }
      return Some(found.value.event);
    }

    method HeadEntry(ghost d: Disk, exec: string) returns (r: Option<(nat, string)>)
      requires Rep(substrate.kv, exec, d)
      ensures r == d.head
    {
      var found := substrate.GetAll(HeadKey(exec));
      if found.None? { return None; }
      RecordsRoundTrip(d.head.value.0, 0, d.head.value.1);
      r := ReadHead(found.value.text);
    }

    /** The three writes of an append, each atomic; `None` is a failed write. */
    method WriteEv(ghost d: Disk, x: string, id: string, e: ChainEvent) returns (r: Option<bool>, ghost d': Disk)
      requires Rep(substrate.kv, x, d)
      modifies substrate
      ensures (World(d', substrate.budget), r.Some?) == PutEv(World(d, old(substrate.budget)), id, e)
      ensures r.Some? ==> r.value == (id !in d.ev)
      ensures Rep(substrate.kv, x, d') && OnlyChanged(old(substrate.kv), substrate.kv, x)
    {
      ghost var kv0 := substrate.kv;
      assert EvSlot(kv0, x, d.ev, id);
      r := substrate.PutIfAbsent(EvKey(x, id), Json(e));
      d' := d;
      if r == Some(true) {
        RepPutEv(kv0, x, d, id, e);
        d' := d.(ev := d.ev[id := e]);
      }
    }

    method WritePtr(ghost d: Disk, x: string, n: nat, id: string) returns (ok: bool, ghost d': Disk)
      requires Rep(substrate.kv, x, d) && n <= U64_MAX
      modifies substrate
      ensures (World(d', substrate.budget), ok) == PutPtr(World(d, old(substrate.budget)), n, id)
      ensures Rep(substrate.kv, x, d') && OnlyChanged(old(substrate.kv), substrate.kv, x)
    {
      ghost var kv0 := substrate.kv;
      assert PtrSlot(kv0, x, d.ptr, n);
      var r := substrate.PutIfAbsent(SeqKey(x, n), Text(id));
      d', ok := d, r.Some?;
      if r == Some(true) {
        RepPutPtr(kv0, x, d, n, id);
        d' := d.(ptr := d.ptr[n := id]);
      }
    }

    method WriteHead(ghost d: Disk, x: string, n: nat, id: string) returns (ok: bool, ghost d': Disk)
      requires Rep(substrate.kv, x, d) && n <= U64_MAX
      modifies substrate
      ensures (World(d', substrate.budget), ok) == PutHead(World(d, old(substrate.budget)), n, id)
      ensures Rep(substrate.kv, x, d') && OnlyChanged(old(substrate.kv), substrate.kv, x)
    {
      ghost var kv0 := substrate.kv;
      ok := substrate.PutOverwrite(HeadKey(x), Text(HeadText(n, id)));
      d' := d;
      if ok {
        RepPutHead(kv0, x, d, n, id);
        d' := d.(head := Some((n, id)));
      }
    }

    method WriteAll(ghost d: Disk, x: string, e: ChainEvent) returns (failed: Option<Reason>, ghost d': Disk)
      requires Rep(substrate.kv, x, d) && e.execSeq <= U64_MAX
      modifies substrate
      ensures (World(d', substrate.budget), failed) == WriteEvent(World(d, old(substrate.budget)), e)
      ensures Rep(substrate.kv, x, d') && OnlyChanged(old(substrate.kv), substrate.kv, x)
    {
      ghost var kv0 := substrate.kv;
      var wrote;
      wrote, d' := WriteEv(d, x, e.eventId, e);
      if wrote.None? { failed := Some(Substrate); return; }
      if !wrote.value { failed := Some(AlreadyPresent); return; }
      ghost var kv1 := substrate.kv;
      var ok;
      ok, d' := WritePtr(d', x, e.execSeq, e.eventId);
      OnlyChangedTrans(kv0, kv1, substrate.kv, x);
      if !ok { failed := Some(Substrate); return; }
      ghost var kv2 := substrate.kv;
      ok, d' := WriteHead(d', x, e.execSeq, e.eventId);
      OnlyChangedTrans(kv0, kv2, substrate.kv, x);
      failed := if ok then None else Some(Substrate);
    }

    /** The sequence the event would get, or why it is refused; one read of the head serves both. */
    method NextSequence(ghost d: Disk, exec: string, id: string, prev: Option<string>) returns (r: Result<nat, ChainError>)
      requires Rep(substrate.kv, exec, d)
      ensures r == NextSequenceOn(d, exec, id, prev)
    {
      if Blank(exec) || Blank(id) { return Err(Invalid(BlankId)); }
      var head := HeadEntry(d, exec);
      var headId := if head.Some? then Some(head.value.1) else None;
      if headId != prev { return Err(NotHead(exec, headId, prev)); }
      return Ok((if head.Some? then head.value.0 else 0) + 1);
    }

    /** Appends against the persisted head; every crash point leaves a represented disk. */
    method Append(ghost d: Disk, exec: string, id: string, prev: Option<string>, parent: Option<string>,
                  payload: string)
      returns (r: Result<nat, ChainError>, ghost d': Disk)
      requires Rep(substrate.kv, exec, d) && HeadSeq(d) < U64_MAX
      modifies substrate
      ensures (World(d', substrate.budget), r) ==
              AppendOn(World(d, old(substrate.budget)), exec, id, prev, parent, payload)
      ensures Rep(substrate.kv, exec, d') && OnlyChanged(old(substrate.kv), substrate.kv, exec)
    {
      d' := d;
      r := NextSequence(d, exec, id, prev);
      if r.Err? { return; }
      var failed;
      failed, d' := WriteAll(d, exec, ChainEvent(r.value, id, prev, exec, parent, payload));
      if failed.Some? { r := Err(Invalid(failed.value)); }
    }

    /** The follower path: nothing is enforced; the head only moves forward. */
    method ApplyReplicated(ghost d: Disk, e: ChainEvent) returns (r: Result<(), ChainError>, ghost d': Disk)
      requires Rep(substrate.kv, e.executionId, d) && e.execSeq <= U64_MAX
      modifies substrate
      ensures (World(d', substrate.budget), r) == ApplyOn(World(d, old(substrate.budget)), e)
      ensures Rep(substrate.kv, e.executionId, d') && OnlyChanged(old(substrate.kv), substrate.kv, e.executionId)
    {
      var x, id, n := e.executionId, e.eventId, e.execSeq;
      ghost var kv0 := substrate.kv;
      var wrote;
      wrote, d' := WriteEv(d, x, id, e);
      if wrote.None? { r := Err(Invalid(Substrate)); return; }
      ghost var kv1 := substrate.kv;
      var ok;
      ok, d' := WritePtr(d', x, n, id);
      OnlyChangedTrans(kv0, kv1, substrate.kv, x);
      if !ok { r := Err(Invalid(Substrate)); return; }
      ghost var kv2 := substrate.kv;
      var head := HeadEntry(d', x);
      if (if head.Some? then head.value.0 else 0) < n {
        ok, d' := WriteHead(d', x, n, id);
        OnlyChangedTrans(kv0, kv2, substrate.kv, x);
      }
      r := if ok then Ok(()) else Err(Invalid(Substrate));
    }

    /** The ordered chain: list the pointer keys, sort their texts, fetch each event. */
    method ChainOf(ghost d: Disk, exec: string) returns (r: seq<ChainEvent>)
      requires Rep(substrate.kv, exec, d)
      ensures r == ChainOn(d)
    {
      var listed := substrate.ListPrefix(SeqPrefix(exec));
      var keys := Sort(listed, LexLe);
      SortedListing(substrate.kv, exec, d, listed);
      var out := Fetch(d, exec, keys, Ascending(d.ptr.Keys));
      r := Sort(out, ByExecSeq);
    }

    method Fetch(ghost d: Disk, exec: string, keys: seq<string>, ghost ks: seq<nat>) returns (out: seq<ChainEvent>)
      requires Rep(substrate.kv, exec, d) && keys == SeqKeys(exec, ks)
      requires forall k | k in ks :: k in d.ptr
      ensures out == Collect(d, ks)
    {
      out := [];
      for i := 0 to |keys|
        invariant out == Collect(d, ks[..i])
      {
        var found := Pointed(d, exec, keys[i], ks[i]);
        CollectNext(d, ks, i);
        if found.Some? { out := out + [found.value]; }
      }
      assert ks[..|ks|] == ks;
    }

    method Pointed(ghost d: Disk, exec: string, key: string, ghost n: nat) returns (r: Option<ChainEvent>)
      requires Rep(substrate.kv, exec, d) && n in d.ptr && key == SeqKey(exec, n)
      ensures r == if d.ptr[n] in d.ev then Some(d.ev[d.ptr[n]]) else None
    {
      assert PtrSlot(substrate.kv, exec, d.ptr, n);
      var pointer := substrate.GetAll(key);
      r := Get(d, exec, pointer.value.text);
    }

    method ParentOf(ghost d: Disk, e: ChainEvent) returns (r: Result<Option<ChainEvent>, ChainError>)
      requires Rep(substrate.kv, e.executionId, d)
      ensures r == if e.prevEventId.None? then Ok(None)
                   else if e.prevEventId.value in d.ev then Ok(Some(d.ev[e.prevEventId.value]))
                   else Err(GapAt(e.executionId, e.prevEventId.value))
    {
      if e.prevEventId.None? { return Ok(None); }
      var found := Get(d, e.executionId, e.prevEventId.value);
      match found
      case Some(p) => return Ok(Some(p));
      case None => return Err(GapAt(e.executionId, e.prevEventId.value));
    }

    /** As in memory, called where the source's loop ends. */
    method WalkFromHead(ghost d: Disk, exec: string) returns (r: Result<seq<ChainEvent>, ChainError>)
      requires Rep(substrate.kv, exec, d) && DiskWalkEnds(d)
      requires forall id | id in d.ev :: d.ev[id].executionId == exec && d.ev[id].eventId == id
      ensures r == WalkOn(d, exec)
    {
      var head := HeadEntry(d, exec);
      if head.None? { return Ok([]); }
      var id := head.value.1;
      var first := Get(d, exec, id);
      if first.None? { return Err(GapAt(exec, id)); }
      var cursor := first.value;
      var out: seq<ChainEvent> := [];
      while true
        invariant cursor.eventId in d.ev && d.ev[cursor.eventId] == cursor && Ends(DiskLinks(d), cursor.eventId)
        invariant WalkOn(d, exec) == After(out, WalkDiskFrom(d, exec, cursor.eventId))
        decreases Steps(DiskLinks(d), cursor.eventId)
      {
        if cursor.eventId in DiskLinks(d) {
          StepsShrink(DiskLinks(d), cursor.eventId);
          AfterAfter(out, [cursor], WalkDiskFrom(d, exec, cursor.prevEventId.value));
        }
        out := out + [cursor];
        var up := ParentOf(d, cursor);
        if up.Err? { return Err(up.error); }
        if up.value.None? { break; }
        cursor := up.value.value;
      }
      return Ok(out);
    }

    method ChainIsComplete(ghost d: Disk, exec: string) returns (r: Result<bool, ChainError>)
      requires Rep(substrate.kv, exec, d) && DiskWalkEnds(d)
      requires forall id | id in d.ev :: d.ev[id].executionId == exec && d.ev[id].eventId == id
      ensures r == CompleteOn(d, exec)
    {
      var chain := ChainOf(d, exec);
      var span := if chain == [] then 0 else chain[|chain| - 1].execSeq;
      var walked := WalkFromHead(d, exec);
      match walked
      case Ok(w) => return Ok(|w| == span);
      case Err(GapAt(_, _)) => return Ok(false);
      case Err(e) => return Err(e);
    }
  }

  lemma {:induction false} CollectSplit(d: Disk, a: seq<nat>, b: seq<nat>)
    requires (forall k | k in a :: k in d.ptr) && (forall k | k in b :: k in d.ptr)
    ensures Collect(d, a + b) == Collect(d, a) + Collect(d, b)
  {
    if a == [] {
      assert a + b == b;
    } else {
      assert (a + b)[1..] == a[1..] + b;
      CollectSplit(d, a[1..], b);
    }
  }

  lemma {:induction false} CollectNext(d: Disk, ks: seq<nat>, i: nat)
    requires i < |ks| && forall k | k in ks :: k in d.ptr
    ensures Collect(d, ks[..i + 1]) ==
            Collect(d, ks[..i]) + (if d.ptr[ks[i]] in d.ev then [d.ev[d.ptr[ks[i]]]] else [])
  {
    assert ks[..i + 1] == ks[..i] + [ks[i]];
    CollectSplit(d, ks[..i], [ks[i]]);
  }

  // --- the listing comes back in numeric order ---------------------------------------

  ghost function SeqKeys(x: string, ks: seq<nat>): seq<string> {
    seq(|ks|, i requires 0 <= i < |ks| => SeqKey(x, ks[i]))
  }

  lemma {:induction false} CountOnce<T>(s: seq<T>, x: T)
    requires forall i, j | 0 <= i < j < |s| :: s[i] != s[j]
    ensures multiset(s)[x] == if x in s then 1 else 0
  {
    if s != [] {
      var front, last := s[..|s| - 1], s[|s| - 1];
      CountOnce(front, x);
      assert s == front + [last];
    }
  }

  lemma {:induction false} TextsAscend(x: string, ks: seq<nat>)
    requires forall i | 0 <= i < |ks| :: ks[i] <= U64_MAX
    requires forall i, j | 0 <= i < j < |ks| :: ks[i] < ks[j]
    ensures SortedBy(SeqKeys(x, ks), LexLe)
    ensures forall i, j | 0 <= i < j < |ks| :: SeqKeys(x, ks)[i] != SeqKeys(x, ks)[j]
  {
    var texts := SeqKeys(x, ks);
    forall i, j | 0 <= i < j < |ks| ensures LexLe(texts[i], texts[j]) && texts[i] != texts[j] {
      SeqKeyOrder(x, ks[i], ks[j]);
    }
  }

  lemma {:induction false} TextsListed(kv: map<string, Blob>, x: string, d: Disk, k: string)
    requires Rep(kv, x, d)
    ensures k in SeqKeys(x, Ascending(d.ptr.Keys)) <==> k in kv && HasPrefix(k, SeqPrefix(x))
  {
    var ks := Ascending(d.ptr.Keys);
    var texts := SeqKeys(x, ks);
    ListedExactly(kv, x, d, k);
    if n: nat :| n in d.ptr && k == SeqKey(x, n) {
      var i :| 0 <= i < |ks| && ks[i] == n;
      assert texts[i] == k;
    }
    if i :| 0 <= i < |texts| && texts[i] == k {
      assert ks[i] in ks;
    }
  }

  lemma {:induction false} SortedListing(kv: map<string, Blob>, x: string, d: Disk, listed: seq<string>)
    requires Rep(kv, x, d)
    requires forall k :: k in listed <==> k in kv && HasPrefix(k, SeqPrefix(x))
    requires forall i, j | 0 <= i < j < |listed| :: listed[i] != listed[j]
    ensures Sort(listed, LexLe) == SeqKeys(x, Ascending(d.ptr.Keys))
  {
    var texts := SeqKeys(x, Ascending(d.ptr.Keys));
    TextsAscend(x, Ascending(d.ptr.Keys));
    forall k ensures multiset(texts)[k] == multiset(listed)[k] {
      CountOnce(texts, k);
      CountOnce(listed, k);
      TextsListed(kv, x, d, k);
    }
    SortsTo(listed, texts);
  }

  lemma {:induction false} SortsTo(a: seq<string>, b: seq<string>)
    requires SortedBy(b, LexLe) && forall k :: multiset(b)[k] == multiset(a)[k]
    ensures Sort(a, LexLe) == b
  {
    LexIsOrder();
    SortKeeps(a, LexLe);
    SortSorts(a, LexLe);
    SortedUnique(Sort(a, LexLe), b, LexLe);
  }

  /** The keys under the pointer prefix are exactly the pointers held. */
  lemma {:induction false} ListedExactly(kv: map<string, Blob>, x: string, d: Disk, k: string)
    requires Rep(kv, x, d)
    ensures k in kv && HasPrefix(k, SeqPrefix(x)) <==> exists n: nat :: n in d.ptr && k == SeqKey(x, n)
  {
    if k in kv && HasPrefix(k, SeqPrefix(x)) {
      var n: nat :| n <= U64_MAX && k == SeqKey(x, n);
      assert PtrSlot(kv, x, d.ptr, n);
    }
    if n: nat :| n in d.ptr && k == SeqKey(x, n) {
      SeqKeyOrder(x, n, n);
      assert PtrSlot(kv, x, d.ptr, n);
    }
  }
}
