// Per-execution chain certificates (crates/ehdb-l0/src/chain_cert.rs).
//
// The hash is given: a function from everything fed to it to 32 bytes.

module ChainCert {
  import opened Basics
  import opened Bytes

  const CHUNK_EVENTS: nat := 8

  type Digest = seq<byte>
  type Body = seq<byte>

  datatype Hash = Hash(tag: seq<byte>, of: seq<byte> -> Digest)

  ghost predicate FixedWidth(h: Hash) { forall x :: |h.of(x)| == 32 }

  datatype ChainCert = ChainCert(chainLen: nat, digest: Digest)

  // --- specification: the recursive fold ----------------------------------------------------------

  function Join(bodies: seq<Body>): seq<byte> {
    if bodies == [] then [] else Join(bodies[..|bodies| - 1]) + bodies[|bodies| - 1]
  }

  function Chunk(bodies: seq<Body>, k: nat): seq<Body>
    requires CHUNK_EVENTS * k + CHUNK_EVENTS <= |bodies|
  {
    bodies[CHUNK_EVENTS * k..CHUNK_EVENTS * k + CHUNK_EVENTS]
  }

  /** What the hash is fed at the start of a chunk: the tag, and the chain so far if any. */
  function Opening(h: Hash, before: Option<Digest>): seq<byte> {
    h.tag + (if before.Some? then before.value else [])
  }

  /** The digest over the first `k` chunks of eight. */
  function ChainDigest(h: Hash, bodies: seq<Body>, k: nat): Option<Digest>
    requires CHUNK_EVENTS * k <= |bodies|
  {
    if k == 0 then None
    else Some(h.of(Opening(h, ChainDigest(h, bodies, k - 1)) + Join(Chunk(bodies, k - 1))))
  }

  function CertificateOf(h: Hash, bodies: seq<Body>): Option<ChainCert> {
    var d := ChainDigest(h, bodies, |bodies| / CHUNK_EVENTS);
    if d.Some? then Some(ChainCert(|bodies| - |bodies| % CHUNK_EVENTS, d.value)) else None
  }

  // --- the roller ------------------------------------------------------------------------------------

  /** `fed` is what the running hasher has been fed since it was last reset. */
  datatype Roller = Roller(fed: seq<byte>, len: nat, sealedLen: nat, sealedDigest: Option<Digest>, open: bool)

  const FRESH := Roller([], 0, 0, None, false)

  function Absorbed(h: Hash, r: Roller, body: Body): Roller {
    var fed := FedWith(h, r, body);
    if (r.len + 1) % CHUNK_EVENTS == 0 then Roller([], r.len + 1, r.len + 1, Some(h.of(fed)), false)
    else Roller(fed, r.len + 1, r.sealedLen, r.sealedDigest, true)
  }

  class ChunkRoller {
    const h: Hash
    var fed: seq<byte>
    var len: nat
    var sealedLen: nat
    var sealedDigest: Option<Digest>
    var open: bool

    ghost function View(): Roller reads this { Roller(fed, len, sealedLen, sealedDigest, open) }

    constructor (h: Hash)
      ensures View() == FRESH && this.h == h
    {
      this.h := h;
      fed, len, sealedLen, sealedDigest, open := [], 0, 0, None, false;
    }

    method Absorb(body: Body)
      modifies this
      ensures View() == Absorbed(h, old(View()), body)
    {
      if !open {
        fed := h.tag;
        if sealedDigest.Some? { fed := fed + sealedDigest.value; }
        assert fed == Opening(h, sealedDigest);
        open := true;
      }
      fed := fed + body;
      len := len + 1;
      if len % CHUNK_EVENTS == 0 {
        sealedDigest := Some(h.of(fed));
        fed := [];
        sealedLen := len;
        open := false;
      }
    }

    method Certificate() returns (c: Option<ChainCert>)
      ensures c == if sealedDigest.Some? then Some(ChainCert(sealedLen, sealedDigest.value)) else None
    {
      c := if sealedDigest.Some? then Some(ChainCert(sealedLen, sealedDigest.value)) else None;
    }
  }

  function Rolled(h: Hash, bodies: seq<Body>): Roller {
    if bodies == [] then FRESH else Absorbed(h, Rolled(h, bodies[..|bodies| - 1]), bodies[|bodies| - 1])
  }

  /** Digests of whole chunks do not change as records follow. */
  lemma {:induction false} DigestOfPrefix(h: Hash, bodies: seq<Body>, n: nat, k: nat)
    requires CHUNK_EVENTS * k <= n <= |bodies|
    ensures ChainDigest(h, bodies[..n], k) == ChainDigest(h, bodies, k)
  {
    if k > 0 {
      DigestOfPrefix(h, bodies, n, k - 1);
      assert Chunk(bodies[..n], k - 1) == Chunk(bodies, k - 1);
    }
  }

  /** The roller in closed form: `k` chunks sealed, and the records after them in the hasher. */
  ghost predicate RolledIs(h: Hash, chunks: seq<Body>, k: nat, tail: seq<Body>, r: Roller) {
    && |chunks| == CHUNK_EVENTS * k && |tail| < CHUNK_EVENTS
    && r.len == |chunks| + |tail| && r.sealedLen == |chunks| && r.sealedDigest == ChainDigest(h, chunks, k)
    && (r.open <==> tail != [])
    && (r.open ==> r.fed == Opening(h, r.sealedDigest) + Join(tail))
  }

  /** What the hasher holds once the next record is in. */
  function FedWith(h: Hash, r: Roller, body: Body): seq<byte> {
    (if r.open then r.fed else Opening(h, r.sealedDigest)) + body
  }

  lemma {:induction false} FedIsOpeningAndTail(h: Hash, chunks: seq<Body>, k: nat, tail: seq<Body>, r: Roller, b: Body)
    requires RolledIs(h, chunks, k, tail, r)
    ensures FedWith(h, r, b) == Opening(h, r.sealedDigest) + Join(tail + [b])
  { }

  /** A chunk more: its digest is taken over the digest before it and the chunk's bytes. */
  lemma {:induction false} ChunkCloses(h: Hash, chunks: seq<Body>, k: nat, chunk: seq<Body>)
    requires |chunks| == CHUNK_EVENTS * k && |chunk| == CHUNK_EVENTS
    ensures |chunks + chunk| == CHUNK_EVENTS * (k + 1)
    ensures ChainDigest(h, chunks + chunk, k + 1) == Some(h.of(Opening(h, ChainDigest(h, chunks, k)) + Join(chunk)))
  {
    var all := chunks + chunk;
    DigestOfPrefix(h, all, |chunks|, k);
    assert Chunk(all, k) == chunk;
  }

  /** The next record continues the open chunk. */
  lemma {:induction false} ChunkContinues(h: Hash, chunks: seq<Body>, k: nat, tail: seq<Body>, r: Roller, b: Body)
    requires RolledIs(h, chunks, k, tail, r) && |tail| + 1 < CHUNK_EVENTS
    ensures RolledIs(h, chunks, k, tail + [b], Absorbed(h, r, b))
  { }

  /** The eighth record closes it. */
  lemma {:induction false} EighthCloses(h: Hash, chunks: seq<Body>, k: nat, tail: seq<Body>, r: Roller, b: Body)
    requires RolledIs(h, chunks, k, tail, r) && |tail| + 1 == CHUNK_EVENTS
    ensures RolledIs(h, chunks + (tail + [b]), k + 1, [], Absorbed(h, r, b))
  {
    FedIsOpeningAndTail(h, chunks, k, tail, r, b);
    ChunkCloses(h, chunks, k, tail + [b]);
  }

  lemma {:induction false} AbsorbStep(h: Hash, chunks: seq<Body>, k: nat, tail: seq<Body>, r: Roller, b: Body)
    returns (chunks': seq<Body>, k': nat, tail': seq<Body>)
    requires RolledIs(h, chunks, k, tail, r)
    ensures chunks' + tail' == chunks + tail + [b] && RolledIs(h, chunks', k', tail', Absorbed(h, r, b))
  {
    if |tail| + 1 == CHUNK_EVENTS {
      EighthCloses(h, chunks, k, tail, r, b);
      chunks', k', tail' := chunks + (tail + [b]), k + 1, [];
      assert chunks' + tail' == chunks + tail + [b];
    } else {
      ChunkContinues(h, chunks, k, tail, r, b);
      chunks', k', tail' := chunks, k, tail + [b];
      assert chunks' + tail' == chunks + tail + [b];
    }
  }

  lemma {:induction false} RollerIsFold(h: Hash, bodies: seq<Body>) returns (chunks: seq<Body>, k: nat, tail: seq<Body>)
    ensures bodies == chunks + tail && RolledIs(h, chunks, k, tail, Rolled(h, bodies))
    decreases |bodies|
  {
    if bodies == [] {
      chunks, k, tail := [], 0, [];
    } else {
      var front, last := bodies[..|bodies| - 1], bodies[|bodies| - 1];
      assert bodies == front + [last];
      chunks, k, tail := RollerIsFold(h, front);
      chunks, k, tail := AbsorbStep(h, chunks, k, tail, Rolled(h, front), last);
    }
  }

  lemma {:induction false} WholeChunks(k: nat, left: nat)
    requires left < CHUNK_EVENTS
    ensures (CHUNK_EVENTS * k + left) / CHUNK_EVENTS == k && (CHUNK_EVENTS * k + left) % CHUNK_EVENTS == left
  { }

  lemma {:induction false} FoldCertifies(h: Hash, chunks: seq<Body>, k: nat, tail: seq<Body>, r: Roller)
    requires RolledIs(h, chunks, k, tail, r)
    ensures CertificateOf(h, chunks + tail) ==
            (if r.sealedDigest.Some? then Some(ChainCert(r.sealedLen, r.sealedDigest.value)) else None)
    ensures r.sealedLen <= r.len && r.len - r.sealedLen == |chunks + tail| % CHUNK_EVENTS
  {
    DigestOfAll(h, chunks, k, tail);
  }

  lemma {:induction false} DigestOfAll(h: Hash, chunks: seq<Body>, k: nat, tail: seq<Body>)
    requires |chunks| == CHUNK_EVENTS * k && |tail| < CHUNK_EVENTS
    ensures |chunks + tail| / CHUNK_EVENTS == k && |chunks + tail| % CHUNK_EVENTS == |tail|
    ensures ChainDigest(h, chunks + tail, k) == ChainDigest(h, chunks, k)
  {
    WholeChunks(k, |tail|);
    DigestOfPrefix(h, chunks + tail, |chunks|, k);
    assert (chunks + tail)[..|chunks|] == chunks;
  }

  /** The roller's certificate and length are those of the records it was fed. */
  lemma {:induction false} RolledCertifies(h: Hash, bodies: seq<Body>)
    ensures var r := Rolled(h, bodies);
            && CertificateOf(h, bodies) == (if r.sealedDigest.Some? then Some(ChainCert(r.sealedLen, r.sealedDigest.value)) else None)
            && r.sealedLen <= r.len && r.len - r.sealedLen == |bodies| % CHUNK_EVENTS
  {
    var chunks, k, tail := RollerIsFold(h, bodies);
    FoldCertifies(h, chunks, k, tail, Rolled(h, bodies));
  }

  // --- many executions, one writer ----------------------------------------------------------------------

  /** One append: the record's bytes and how often they are absorbed (once, unless calibrating). */
  datatype Append = Append(key: string, body: Body, dose: nat)

  /** One execution's own records in the order they were appended. */
  function Own(log: seq<Append>, key: string): seq<Body> {
    if log == [] then []
    else Own(log[..|log| - 1], key) + OwnOf(log[|log| - 1], key)
  }

  function OwnOf(a: Append, key: string): seq<Body> {
    if a.key == key then Repeat(a.body, a.dose) else []
  }

  function Repeat(body: Body, n: nat): seq<Body> {
    if n == 0 then [] else Repeat(body, n - 1) + [body]
  }

  /** A roller that has been fed the execution's own records and nothing else. */
  ghost predicate Follows(r: Roller, h: Hash, log: seq<Append>, key: string) { r == Rolled(h, Own(log, key)) }

  method Feed(roller: ChunkRoller, key: string, body: Body, dose: nat, ghost log: seq<Append>)
    requires Follows(roller.View(), roller.h, log, key)
    modifies roller
    ensures Follows(roller.View(), roller.h, log + [Append(key, body, dose)], key)
  {
    ghost var own := Own(log, key);
    assert own + [] == own;
    for i := 0 to dose
      invariant roller.View() == Rolled(roller.h, own + Repeat(body, i))
    {
      roller.Absorb(body);
      OnceMore(roller.h, own, body, i);
    }
    OwnGrows(log, Append(key, body, dose));
  }

  lemma {:induction false} OnceMore(h: Hash, own: seq<Body>, body: Body, i: nat)
    ensures Rolled(h, own + Repeat(body, i + 1)) == Absorbed(h, Rolled(h, own + Repeat(body, i)), body)
  {
    RepeatSnoc(own, body, i);
  }

  lemma {:induction false} RepeatSnoc(own: seq<Body>, body: Body, i: nat)
    ensures own + Repeat(body, i + 1) == own + Repeat(body, i) + [body]
  { }

  method StartFed(h: Hash, key: string, body: Body, dose: nat, ghost log: seq<Append>) returns (roller: ChunkRoller)
    requires Follows(FRESH, h, log, key)
    ensures fresh(roller) && roller.h == h && Follows(roller.View(), h, log + [Append(key, body, dose)], key)
  {
    roller := new ChunkRoller(h);
    Feed(roller, key, body, dose, log);
  }

  /** Each roller follows its own execution, and an execution without one has no records. */
  ghost predicate AllFollow(views: map<string, Roller>, h: Hash, log: seq<Append>) {
    && (forall key | key in views :: Follows(views[key], h, log, key))
    && (forall key | key !in views :: Own(log, key) == [])
  }

  lemma {:induction false} AllFollowOn(views: map<string, Roller>, h: Hash, log: seq<Append>, a: Append, r: Roller)
    requires AllFollow(views, h, log) && Follows(r, h, log + [a], a.key)
    ensures AllFollow(views[a.key := r], h, log + [a])
  {
    OwnGrows(log, a);
  }

  lemma {:induction false} FreshFollows(views: map<string, Roller>, h: Hash, log: seq<Append>, key: string)
    requires AllFollow(views, h, log)
    ensures Follows(if key in views then views[key] else FRESH, h, log, key)
  { }

  class ChainCertRegistry {
    const h: Hash
    var rollers: map<string, ChunkRoller>
    var absorbed: nat
    ghost var views: map<string, Roller>
    ghost var log: seq<Append>

    /** Every execution has a roller of its own, which has seen its own records whatever came between. */
    ghost predicate Valid()
      reads this, rollers.Values
    {
      Separate() && AllFollow(views, h, log)
    }

    ghost predicate Separate()
      reads this, rollers.Values
    {
      && views.Keys == rollers.Keys
      && (forall key | key in rollers :: rollers[key].h == h && rollers[key].View() == views[key])
      && (forall key, other | key in rollers && other in rollers && key != other :: rollers[key] != rollers[other])
    }

    constructor (h: Hash)
      ensures Valid() && log == [] && this.h == h && rollers == map[]
    {
      this.h := h;
      rollers, absorbed, views, log := map[], 0, map[], [];
    }

    method Absorb(key: string, body: Body, dose: nat)
      requires Valid()
      modifies this, rollers.Values
      ensures Valid() && log == old(log) + [Append(key, body, dose)] && absorbed == old(absorbed) + dose
      ensures key in rollers
      ensures rollers == if old(key in rollers) then old(rollers) else old(rollers)[key := rollers[key]]
      ensures old(key !in rollers) ==> fresh(rollers[key])
    {
      if key in rollers {
        Continue(key, body, dose);
      } else {
        Start(key, body, dose);
      }
    }

    method Continue(key: string, body: Body, dose: nat)
      requires Valid() && key in rollers
      modifies this, rollers[key]
      ensures Valid() && log == old(log) + [Append(key, body, dose)]
      ensures absorbed == old(absorbed) + dose && rollers == old(rollers)
    {
      FreshFollows(views, h, log, key);
      FeedOwn(key, body, dose);
      AllFollowOn(old(views), h, old(log), Append(key, body, dose), views[key]);
    }

    method FeedOwn(key: string, body: Body, dose: nat)
      requires Separate() && key in rollers && Follows(views[key], h, log, key)
      modifies this, rollers[key]
      ensures Separate() && rollers == old(rollers) && absorbed == old(absorbed) + dose
      ensures log == old(log) + [Append(key, body, dose)]
      ensures key in views && views == old(views)[key := views[key]] && Follows(views[key], h, log, key)
    {
      var roller := rollers[key];
      Feed(roller, key, body, dose, log);
      views, log := views[key := roller.View()], log + [Append(key, body, dose)];
      absorbed := absorbed + dose;
    }

    method Start(key: string, body: Body, dose: nat)
      requires Valid() && key !in rollers
      modifies this
      ensures Valid() && log == old(log) + [Append(key, body, dose)] && absorbed == old(absorbed) + dose
      ensures key in rollers && rollers == old(rollers)[key := rollers[key]] && fresh(rollers[key])
    {
      FreshFollows(views, h, log, key);
      var roller := StartFed(h, key, body, dose, log);
      AllFollowOn(views, h, log, Append(key, body, dose), roller.View());
      Insert(key, roller, dose, Append(key, body, dose));
    }

    method Insert(key: string, roller: ChunkRoller, dose: nat, ghost a: Append)
      requires Separate() && key !in rollers && roller !in rollers.Values && roller.h == h
      modifies this
      ensures Separate() && rollers == old(rollers)[key := roller] && views == old(views)[key := roller.View()]
      ensures log == old(log) + [a] && absorbed == old(absorbed) + dose
    {
      rollers := rollers[key := roller];
      views, log := views[key := roller.View()], log + [a];
      absorbed := absorbed + dose;
    }

    /** The certificate is that of the execution's own records. */
    method Certificate(key: string) returns (c: Option<ChainCert>)
      requires Valid()
      ensures c == CertificateOf(h, Own(log, key))
    {
      FreshFollows(views, h, log, key);
      RolledCertifies(h, Own(log, key));
      if key in rollers {
        c := rollers[key].Certificate();
      } else {
        c := None;
      }
    }

    /** Fewer than eight of an execution's records are ever uncovered. */
    method UncertifiedTail(key: string) returns (n: nat)
      requires Valid()
      ensures n == |Own(log, key)| % CHUNK_EVENTS < CHUNK_EVENTS
    {
      FreshFollows(views, h, log, key);
      RolledCertifies(h, Own(log, key));
      if key in rollers {
        var roller := rollers[key];
        n := roller.len - roller.sealedLen;
      } else {
        n := 0;
      }
    }
  }

  lemma {:induction false} OwnGrows(log: seq<Append>, a: Append)
    ensures Own(log + [a], a.key) == Own(log, a.key) + Repeat(a.body, a.dose)
    ensures forall other | other != a.key :: Own(log + [a], other) == Own(log, other)
  { }

  /** Other executions leave no trace: without their records the certificate is the same. */
  lemma {:induction false} OthersLeaveNoTrace(h: Hash, log: seq<Append>, key: string)
    ensures Own(log, key) == Own(OnlyOf(log, key), key)
    ensures CertificateOf(h, Own(log, key)) == CertificateOf(h, Own(OnlyOf(log, key), key))
    decreases |log|
  {
    if log != [] {
      var front, last := log[..|log| - 1], log[|log| - 1];
      OthersLeaveNoTrace(h, front, key);
      if last.key == key {
      } else {
        assert OnlyOf(log, key) == OnlyOf(front, key);
      }
    }
  }

  function OnlyOf(log: seq<Append>, key: string): seq<Append> {
    if log == [] then []
    else OnlyOf(log[..|log| - 1], key) + (if log[|log| - 1].key == key then [log[|log| - 1]] else [])
  }

  // --- what a certificate pins ---------------------------------------------------------------------------

  ghost predicate SameChunks(a: seq<Body>, b: seq<Body>, k: nat)
    requires CHUNK_EVENTS * k <= |a| && CHUNK_EVENTS * k <= |b|
  {
    forall j: nat | j < k :: Join(Chunk(a, j)) == Join(Chunk(b, j))
  }

  /** Equal bytes in every chunk give equal digests. */
  lemma {:induction false} SameChunksSameDigest(h: Hash, a: seq<Body>, b: seq<Body>, k: nat)
    requires CHUNK_EVENTS * k <= |a| && CHUNK_EVENTS * k <= |b| && SameChunks(a, b, k)
    ensures ChainDigest(h, a, k) == ChainDigest(h, b, k)
  {
    if k > 0 {
      SameChunksSameDigest(h, a, b, k - 1);
    }
  }

  /** Equal digests over equally many chunks mean equal bytes in every chunk, or else two
      different inputs on which the hash itself collides, which this finds. */
  lemma {:induction false} EqualDigestsPinBytes(h: Hash, a: seq<Body>, b: seq<Body>, k: nat)
    returns (collision: Option<(seq<byte>, seq<byte>)>)
    requires FixedWidth(h) && CHUNK_EVENTS * k <= |a| && CHUNK_EVENTS * k <= |b| && ChainDigest(h, a, k) == ChainDigest(h, b, k)
    ensures collision.None? ==> SameChunks(a, b, k)
    ensures collision.Some? ==> collision.value.0 != collision.value.1 && h.of(collision.value.0) == h.of(collision.value.1)
  {
    collision := None;
    if k > 0 {
      var da, db := ChainDigest(h, a, k - 1), ChainDigest(h, b, k - 1);
      var ja, jb := Join(Chunk(a, k - 1)), Join(Chunk(b, k - 1));
      var x, y := Opening(h, da) + ja, Opening(h, db) + jb;
      if x != y {
        collision := Some((x, y));
      } else {
        DigestPresence(h, b, k - 1);
        SameOpenings(h, da, ja, db, jb);
        collision := EqualDigestsPinBytes(h, a, b, k - 1);
      }
    }
  }

  lemma {:induction false} DigestPresence(h: Hash, bodies: seq<Body>, k: nat)
    requires FixedWidth(h) && CHUNK_EVENTS * k <= |bodies|
    ensures ChainDigest(h, bodies, k).Some? <==> k > 0
    ensures k > 0 ==> |ChainDigest(h, bodies, k).value| == 32
  { }

  lemma {:induction false} SameOpenings(h: Hash, da: Option<Digest>, ja: seq<byte>, db: Option<Digest>, jb: seq<byte>)
    requires (da.Some? <==> db.Some?) && (da.Some? ==> |da.value| == |db.value|)
    requires Opening(h, da) + ja == Opening(h, db) + jb
    ensures da == db && ja == jb
  {
    var x, n := Opening(h, da) + ja, |Opening(h, da)|;
    assert x[..n] == Opening(h, da) && x[..n] == Opening(h, db);
    if da.Some? {
      assert Opening(h, da)[|h.tag|..] == da.value && Opening(h, db)[|h.tag|..] == db.value;
    }
  }

  /** Only the joined bytes of a chunk are pinned, not where one record ends and the next
      begins: moving bytes across a boundary leaves the certificate as it was. */
  lemma {:induction false} BoundariesAreNotPinned(h: Hash, x: Body, y: Body, rest: seq<Body>)
    requires |rest| == 6
    ensures CertificateOf(h, [x + y, []] + rest) == CertificateOf(h, [x, y] + rest)
    ensures y != [] ==> [x + y, []] + rest != [x, y] + rest
  {
    var a, b := [x + y, []] + rest, [x, y] + rest;
    assert Chunk(a, 0) == a && Chunk(b, 0) == b;
    JoinSplit([x + y, []], rest);
    JoinSplit([x, y], rest);
    JoinTwo(x + y, []);
    JoinTwo(x, y);
    assert (x + y) + [] == x + y;
    SameChunksSameDigest(h, a, b, 1);
    assert y != [] ==> a[1] != b[1];
  }

  lemma {:induction false} JoinTwo(x: Body, y: Body)
    ensures Join([x, y]) == x + y
  {
    assert Join([x]) == [] + x == x;
  }

  lemma {:induction false} JoinSplit(a: seq<Body>, b: seq<Body>)
    ensures Join(a + b) == Join(a) + Join(b)
    decreases |b|
  {
    if b == [] {
      assert a + b == a;
    } else {
      var front, last := b[..|b| - 1], b[|b| - 1];
      JoinSplit(a, front);
      JoinSnoc(a + front, last);
      JoinSnoc(front, last);
      assert a + front + [last] == a + b && front + [last] == b;
      assert Join(a) + Join(front) + last == Join(a) + (Join(front) + last);
    }
  }

  lemma {:induction false} JoinSnoc(bodies: seq<Body>, b: Body)
    ensures Join(bodies + [b]) == Join(bodies) + b
  {
    assert (bodies + [b])[..|bodies|] == bodies;
  }

  // --- comparing a stored certificate with a current one -----------------------------------------------

  datatype CertVerdict = Match | StaleButPrefix | StoredAhead | DigestMismatch

  function Validate(stored: ChainCert, current: ChainCert): CertVerdict {
    if stored.chainLen == current.chainLen then
      if stored.digest == current.digest then Match else DigestMismatch
    else if stored.chainLen < current.chainLen then StaleButPrefix
    else StoredAhead
  }

  /** A certificate taken earlier on the same chain is never called divergent or ahead, and it
      is called current exactly while no further chunk has closed. */
  lemma {:induction false} GrowthIsNeverDivergence(h: Hash, before: seq<Body>, more: seq<Body>)
    requires |before| >= CHUNK_EVENTS
    ensures CertificateOf(h, before).Some? && CertificateOf(h, before + more).Some?
    ensures var verdict := Validate(CertificateOf(h, before).value, CertificateOf(h, before + more).value);
            verdict == if |before| % CHUNK_EVENTS + |more| < CHUNK_EVENTS then Match else StaleButPrefix
  {
    var all := before + more;
    DigestOfPrefix(h, all, |before|, |before| / CHUNK_EVENTS);
  }

  /** The verdict "stale but prefix" looks at lengths alone: two chains without a record in
      common get it whenever the stored one is shorter. */
  lemma {:induction false} StaleIsNotAlwaysPrefix(h: Hash, x: Body, y: Body)
    requires x != y
    ensures var stored, current := Repeat(x, CHUNK_EVENTS), Repeat(y, 2 * CHUNK_EVENTS);
            && CertificateOf(h, stored).Some? && CertificateOf(h, current).Some?
            && Validate(CertificateOf(h, stored).value, CertificateOf(h, current).value) == StaleButPrefix
            && !(stored <= current)
  {
    RepeatAt(x, CHUNK_EVENTS);
    RepeatAt(y, 2 * CHUNK_EVENTS);
  }

  lemma {:induction false} RepeatAt(body: Body, n: nat)
    ensures |Repeat(body, n)| == n && forall i | 0 <= i < n :: Repeat(body, n)[i] == body
  {
    if n > 0 { RepeatAt(body, n - 1); }
  }

  /** What would settle it: the current chain's own digest at the stored length. Equal to the
      stored one, the bytes agree chunk by chunk, or the hash collides and this says where. */
  lemma {:induction false} DigestAtStoredLengthSettles(h: Hash, stored: seq<Body>, current: seq<Body>)
    returns (collision: Option<(seq<byte>, seq<byte>)>)
    requires FixedWidth(h) && CHUNK_EVENTS <= |stored| <= |current|
    ensures var k := |stored| / CHUNK_EVENTS;
            && (SameChunks(stored, current, k) ==> ChainDigest(h, current, k) == Some(CertificateOf(h, stored).value.digest))
            && (ChainDigest(h, current, k) == Some(CertificateOf(h, stored).value.digest) && collision.None?
                ==> SameChunks(stored, current, k))
    ensures collision.Some? ==> collision.value.0 != collision.value.1 && h.of(collision.value.0) == h.of(collision.value.1)
  {
    var k := |stored| / CHUNK_EVENTS;
    collision := None;
    if ChainDigest(h, current, k) == ChainDigest(h, stored, k) {
      collision := EqualDigestsPinBytes(h, stored, current, k);
    }
    if SameChunks(stored, current, k) {
      SameChunksSameDigest(h, stored, current, k);
    }
  }

  /** Certificates of equally many chunks are told apart by their digests alone. A match is never
      claimed of chunks that differ, unless the hash collides, and this says where. */
  lemma {:induction false} EqualLengthsDecide(h: Hash, stored: seq<Body>, current: seq<Body>)
    returns (collision: Option<(seq<byte>, seq<byte>)>)
    requires FixedWidth(h) && CHUNK_EVENTS <= |stored| && |stored| / CHUNK_EVENTS == |current| / CHUNK_EVENTS
    ensures CertificateOf(h, stored).Some? && CertificateOf(h, current).Some?
    ensures var k := |stored| / CHUNK_EVENTS;
            var a, b := CertificateOf(h, stored).value, CertificateOf(h, current).value;
            && Validate(a, b) == (if a.digest == b.digest then Match else DigestMismatch)
            && (SameChunks(stored, current, k) ==> Validate(a, b) == Match)
            && (!SameChunks(stored, current, k) && collision.None? ==> Validate(a, b) == DigestMismatch)
    ensures collision.Some? ==> collision.value.0 != collision.value.1 && h.of(collision.value.0) == h.of(collision.value.1)
  {
    var k := |stored| / CHUNK_EVENTS;
    collision := None;
    if ChainDigest(h, current, k) == ChainDigest(h, stored, k) {
      collision := EqualDigestsPinBytes(h, stored, current, k);
    }
    if SameChunks(stored, current, k) { SameChunksSameDigest(h, stored, current, k); }
  }
}
