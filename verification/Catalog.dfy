// The sparse index, the manifest and the pruned indexed read
// (crates/ehdb-l0/src/catalog.rs, and from the same crate part.rs and engine.rs).

module Catalog {
  import opened Basics
  import opened Ordering
  import opened Bytes
  import opened FrameLists
  import opened Bloom

  datatype Rec = Rec(key: nat, index: string, payload: string)

  /** How records lie in a part: framed bodies, encoded and decoded elsewhere. */
  datatype Layout = Layout(framing: Framing<seq<byte>>, encode: Rec -> seq<byte>, decode: seq<byte> -> Option<Rec>)

  ghost predicate Storable(c: Layout, r: Rec) { c.framing.fits(c.encode(r)) && c.decode(c.encode(r)) == Some(r) }

  datatype GranuleMark = GranuleMark(first: nat, offset: nat, count: nat)

  datatype PartMeta = PartMeta(
    partition: nat,
    minKey: nat,
    maxKey: nat,
    bytes: seq<byte>,
    marks: seq<GranuleMark>,
    bloom: Option<Filter>,
    granuleBlooms: seq<Filter>)

  // --- what the part writer leaves ------------------------------------------------------------------

  function BodiesOf(c: Layout, rs: seq<Rec>): seq<seq<byte>> {
    seq(|rs|, i requires 0 <= i < |rs| => c.encode(rs[i]))
  }

  function BytesOf(c: Layout, rs: seq<Rec>): seq<byte> { Concat(c.framing, BodiesOf(c, rs)) }

  /** A mark before the first record of each granule; later records only raise its count. */
  function MarksOf(c: Layout, rs: seq<Rec>, gsize: nat): (m: seq<GranuleMark>)
    requires gsize > 0
    ensures rs != [] ==> m != []
  {
    if rs == [] then []
    else
      var front, last := rs[..|rs| - 1], rs[|rs| - 1];
      var ms := MarksOf(c, front, gsize);
      if |front| % gsize == 0 then ms + [GranuleMark(last.key, |BytesOf(c, front)|, 1)]
      else ms[|ms| - 1 := ms[|ms| - 1].(count := ms[|ms| - 1].count + 1)]
  }

  ghost predicate AscendingKeys(rs: seq<Rec>) { forall i, j | 0 <= i < j < |rs| :: rs[i].key < rs[j].key }

  /** The records of granule `g`. */
  function Granule(rs: seq<Rec>, gsize: nat, g: nat): seq<Rec> {
    Between(rs, g * gsize, (g + 1) * gsize)
  }

  function Between(rs: seq<Rec>, lo: nat, hi: nat): seq<Rec> {
    if lo <= hi then rs[Min(lo, |rs|)..Min(hi, |rs|)] else []
  }

  /** The bloom admits every index key among the records. */
  ghost predicate Admits(h: Hashing, f: Filter, rs: seq<Rec>) {
    Probeable(f) && forall i | 0 <= i < |rs| :: MaybeContains(h, f, rs[i].index)
  }

  /** A part as sealed over `rs`: its bytes, range, marks, and blooms without false negatives.
      Blooms may be missing, as on a manifest from before they existed. */
  ghost predicate SealedOver(c: Layout, h: Hashing, p: PartMeta, rs: seq<Rec>, gsize: nat) {
    && gsize > 0 && rs != [] && AscendingKeys(rs) && (forall i | 0 <= i < |rs| :: Storable(c, rs[i]))
    && p.bytes == BytesOf(c, rs) && p.minKey == rs[0].key && p.maxKey == rs[|rs| - 1].key
    && p.marks == MarksOf(c, rs, gsize)
    && (p.bloom.Some? ==> Admits(h, p.bloom.value, rs))
    && (forall g | 0 <= g < |p.granuleBlooms| :: Admits(h, p.granuleBlooms[g], Granule(rs, gsize, g)))
  }

  // --- looking up -------------------------------------------------------------------------------------

  /** How many marks, from the first on, start at or below the target. */
  function Leading(marks: seq<GranuleMark>, target: nat): (n: nat)
    ensures n <= |marks|
  {
    if marks == [] || marks[0].first > target then 0 else 1 + Leading(marks[1..], target)
  }

  function Locate(marks: seq<GranuleMark>, target: nat): nat {
    var n := Leading(marks, target);
    if n == 0 then 0 else marks[n - 1].offset
  }

  ghost predicate AscendingMarks(marks: seq<GranuleMark>) {
    forall i, j | 0 <= i < j < |marks| :: marks[i].first < marks[j].first && marks[i].offset < marks[j].offset
  }

  lemma {:induction false} LeadingIs(marks: seq<GranuleMark>, target: nat, n: nat)
    requires n <= |marks|
    requires (forall i | 0 <= i < n :: marks[i].first <= target) && (n < |marks| ==> marks[n].first > target)
    ensures Leading(marks, target) == n
    decreases |marks|
  {
    if n > 0 { LeadingIs(marks[1..], target, n - 1); }
  }

  /** The binary search. */
  method LocateOffset(marks: seq<GranuleMark>, target: nat) returns (offset: nat)
    requires AscendingMarks(marks)
    ensures offset == Locate(marks, target)
  {
    if marks == [] { return 0; }
    var lo, hi := 0, |marks|;
    while lo < hi
      invariant 0 <= lo <= hi <= |marks|
      invariant forall i | 0 <= i < lo :: marks[i].first <= target
      invariant forall i | hi <= i < |marks| :: marks[i].first > target
    {
      var mid := lo + (hi - lo) / 2;
      if marks[mid].first <= target { lo := mid + 1; } else { hi := mid; }
    }
    LeadingIs(marks, target, lo);
    return if lo == 0 then 0 else marks[lo - 1].offset;
  }

  /** `partition_point` on the mark offsets. */
  function Before(marks: seq<GranuleMark>, offset: nat): (n: nat)
    ensures n <= |marks|
  {
    if marks == [] || marks[0].offset >= offset then 0 else 1 + Before(marks[1..], offset)
  }

  lemma {:induction false} BeforeIs(marks: seq<GranuleMark>, offset: nat, n: nat)
    requires n <= |marks|
    requires (forall i | 0 <= i < n :: marks[i].offset < offset) && (n < |marks| ==> marks[n].offset >= offset)
    ensures Before(marks, offset) == n
    decreases |marks|
  {
    if n > 0 { BeforeIs(marks[1..], offset, n - 1); }
  }

  /** First to last granule from `g` on whose bloom admits the key. */
  function Hits(h: Hashing, blooms: seq<Filter>, key: string, g: nat): (r: Option<(nat, nat)>)
    requires forall i | 0 <= i < |blooms| :: Probeable(blooms[i])
    ensures r.Some? ==> g <= r.value.0 < r.value.1 <= |blooms|
    decreases |blooms| - g
  {
    if g >= |blooms| then None
    else
      var rest := Hits(h, blooms, key, g + 1);
      if !MaybeContains(h, blooms[g], key) then rest
      else Some((g, if rest.Some? then rest.value.1 else g + 1))
  }

  function GranuleSpan(h: Hashing, p: PartMeta, key: string, from: nat): (r: Option<(nat, nat)>)
    requires forall i | 0 <= i < |p.granuleBlooms| :: Probeable(p.granuleBlooms[i])
    ensures r.Some? ==> from <= r.value.0 < r.value.1 <= |p.marks|
  {
    if from >= |p.marks| then None
    else if |p.granuleBlooms| != |p.marks| then Some((from, |p.marks|))
    else Hits(h, p.granuleBlooms, key, from)
  }

  ghost function Joined(lo: Option<nat>, hi: nat, rest: Option<(nat, nat)>): Option<(nat, nat)> {
    if lo.None? then rest else Some((lo.value, if rest.Some? then rest.value.1 else hi))
  }

  method GranuleSpanFor(h: Hashing, p: PartMeta, key: string, from: nat) returns (r: Option<(nat, nat)>)
    requires forall i | 0 <= i < |p.granuleBlooms| :: Probeable(p.granuleBlooms[i])
    ensures r == GranuleSpan(h, p, key, from)
  {
    var n := |p.marks|;
    if from >= n { return None; }
    if |p.granuleBlooms| != n { return Some((from, n)); }
    var lo: Option<nat> := None;
    var hi: nat := from;
    for g := from to n
      invariant Hits(h, p.granuleBlooms, key, from) == Joined(lo, hi, Hits(h, p.granuleBlooms, key, g))
    {
      if MaybeContains(h, p.granuleBlooms[g], key) {
        if lo.None? { lo := Some(g); }
        hi := g + 1;
      }
    }
    return if lo.Some? then Some((lo.value, hi)) else None;
  }

  // --- the pruned read of one part --------------------------------------------------------------------

  datatype ReadError = BadFrames(why: FrameError) | BadRecord | OutOfRange

  predicate Matches(r: Rec, key: string, after: nat) { r.key > after && r.index == key }

  function Matching(rs: seq<Rec>, key: string, after: nat): seq<Rec> {
    if rs == [] then []
    else Matching(rs[..|rs| - 1], key, after) +
         (if Matches(rs[|rs| - 1], key, after) then [rs[|rs| - 1]] else [])
  }

  predicate MaybePresent(h: Hashing, p: PartMeta, key: string)
    requires p.bloom.Some? ==> Probeable(p.bloom.value)
  {
    p.bloom.Some? ==> MaybeContains(h, p.bloom.value, key)
  }

  ghost predicate Keeps(h: Hashing, p: PartMeta, key: string, after: nat)
    requires p.bloom.Some? ==> Probeable(p.bloom.value)
  {
    p.maxKey > after && MaybePresent(h, p, key)
  }

  function DecodeAll(c: Layout, frames: seq<FrameLists.Decoded<seq<byte>>>): Result<seq<Rec>, ReadError> {
    if frames == [] then Ok([])
    else match c.decode(frames[0].body)
      case None => Err(BadRecord)
      case Some(r) =>
        match DecodeAll(c, frames[1..])
        case Err(e) => Err(e)
        case Ok(rest) => Ok([r] + rest)
  }

  /** Where the block to read starts and ends. */
  function Block(p: PartMeta, span: (nat, nat)): (nat, nat)
    requires span.0 < span.1 <= |p.marks|
  {
    (p.marks[span.0].offset, if span.1 < |p.marks| then p.marks[span.1].offset else |p.bytes|)
  }

  ghost function ReadBlock(c: Layout, p: PartMeta, from: nat, to: nat, key: string, after: nat): Result<seq<Rec>, ReadError>
    requires Lawful(c.framing) && from <= to <= |p.bytes|
  {
    match FramesExact(c.framing, p.bytes[from..to], 0)
    case Err(e) => Err(BadFrames(e))
    case Ok(frames) =>
      match DecodeAll(c, frames)
      case Err(e) => Err(e)
      case Ok(rs) => Ok(Matching(rs, key, after))
  }

  ghost function StartGranule(p: PartMeta, after: nat): nat { Before(p.marks, Locate(p.marks, after + 1)) }

  ghost predicate BloomsProbeable(p: PartMeta) {
    && (p.bloom.Some? ==> Probeable(p.bloom.value))
    && (forall i | 0 <= i < |p.granuleBlooms| :: Probeable(p.granuleBlooms[i]))
  }

  /** The block of admitted granules from the cursor's granule on, decoded and filtered. */
  ghost function ReadPart(c: Layout, h: Hashing, p: PartMeta, key: string, after: nat): Result<seq<Rec>, ReadError>
    requires Lawful(c.framing) && BloomsProbeable(p)
  {
    match GranuleSpan(h, p, key, StartGranule(p, after))
    case None => Ok([])
    case Some(span) =>
      var (from, to) := Block(p, span);
      if to <= from then Ok([])
      else if to > |p.bytes| then Err(OutOfRange)
      else ReadBlock(c, p, from, to, key, after)
  }

  // --- the marks in closed form ------------------------------------------------------------------------

  /** Mark `g` stands before record `g * gsize`, and the marks reach to the last record. */
  ghost predicate MarkStands(c: Layout, rs: seq<Rec>, gsize: nat, m: GranuleMark, g: nat) {
    && g * gsize < |rs| && m.first == rs[g * gsize].key && m.offset == |BytesOf(c, rs[..g * gsize])|
  }

  ghost predicate MarksReach(rs: seq<Rec>, gsize: nat, n: nat) {
    |rs| <= n * gsize && (n > 0 ==> (n - 1) * gsize < |rs|)
  }

  lemma {:induction false} MultipleBetween(n: nat, m: nat, gsize: nat)
    requires gsize > 0 && n % gsize == 0 && n <= m * gsize && (m > 0 ==> (m - 1) * gsize < n)
    ensures n == m * gsize
  {
    var q := n / gsize;
    if q < m { ScaleLe(q, m - 1, gsize); }
    if q > m { ScaleLe(m + 1, q, gsize); }
  }

  lemma {:induction false} ScaleLe(a: nat, b: nat, g: nat)
    requires a <= b
    ensures a * g <= b * g
  { }

  lemma {:induction false} ScaleLt(a: nat, b: nat, g: nat)
    requires a < b && g > 0
    ensures a * g < b * g && a * g + g <= b * g
  {
    ScaleLe(a + 1, b, g);
  }

  lemma {:induction false} NotMultipleBelow(n: nat, m: nat, gsize: nat)
    requires gsize > 0 && n % gsize != 0 && n <= m * gsize
    ensures n < m * gsize
  {
    if n == m * gsize { MultipleMod(m, gsize); }
  }

  lemma {:induction false} MultipleMod(m: nat, gsize: nat)
    requires gsize > 0
    ensures m * gsize % gsize == 0
  {
    var n := m * gsize;
    var q := n / gsize;
    if q < m { ScaleLt(q, m, gsize); }
    if m < q { ScaleLt(m, q, gsize); }
  }

  lemma {:induction false} StandsInFront(c: Layout, rs: seq<Rec>, gsize: nat, m: GranuleMark, g: nat)
    requires rs != [] && MarkStands(c, rs[..|rs| - 1], gsize, m, g)
    ensures MarkStands(c, rs, gsize, m, g)
  {
    assert rs[..|rs| - 1][..g * gsize] == rs[..g * gsize];
  }

  lemma {:induction false} MarksClosed(c: Layout, rs: seq<Rec>, gsize: nat)
    requires gsize > 0
    ensures MarksReach(rs, gsize, |MarksOf(c, rs, gsize)|)
    ensures forall g | 0 <= g < |MarksOf(c, rs, gsize)| :: MarkStands(c, rs, gsize, MarksOf(c, rs, gsize)[g], g)
    decreases |rs|
  {
    if rs != [] {
      var front := rs[..|rs| - 1];
      MarksClosed(c, front, gsize);
      var ms, all := MarksOf(c, front, gsize), MarksOf(c, rs, gsize);
      if |front| % gsize == 0 {
        MultipleBetween(|front|, |ms|, gsize);
        NextMultiple(|ms|, gsize);
      } else {
        NotMultipleBelow(|front|, |ms|, gsize);
      }
      forall g | 0 <= g < |all| ensures MarkStands(c, rs, gsize, all[g], g) {
        if g < |ms| {
          StandsInFront(c, rs, gsize, ms[g], g);
        }
      }
    }
  }

  lemma {:induction false} NextMultiple(m: nat, g: nat)
    ensures (m + 1) * g == m * g + g
  { }

  // --- slices of a part --------------------------------------------------------------------------------

  lemma {:induction false} ConcatSplit<B>(f: Framing<B>, a: seq<B>, b: seq<B>)
    ensures Concat(f, a + b) == Concat(f, a) + Concat(f, b)
    decreases |a|
  {
    if a == [] {
      assert a + b == b;
    } else {
      assert (a + b)[1..] == a[1..] + b;
      ConcatSplit(f, a[1..], b);
    }
  }

  lemma {:induction false} BytesSplit(c: Layout, a: seq<Rec>, b: seq<Rec>)
    ensures BytesOf(c, a + b) == BytesOf(c, a) + BytesOf(c, b)
  {
    ConcatSplit(c.framing, BodiesOf(c, a), BodiesOf(c, b));
    assert BodiesOf(c, a + b) == BodiesOf(c, a) + BodiesOf(c, b);
  }

  /** The bytes between two record boundaries are the frames of the records between them. */
  lemma {:induction false} BytesBetween(c: Layout, rs: seq<Rec>, a: nat, b: nat)
    requires a <= b <= |rs|
    ensures var x, y := |BytesOf(c, rs[..a])|, |BytesOf(c, rs[..b])|;
            x <= y <= |BytesOf(c, rs)| && BytesOf(c, rs)[x..y] == BytesOf(c, rs[a..b])
  {
    BytesSplit(c, rs[..a], rs[a..b]);
    BytesSplit(c, rs[..b], rs[b..]);
    assert rs[..a] + rs[a..b] == rs[..b] && rs[..b] + rs[b..] == rs;
  }

  lemma {:induction false} BytesGrow(c: Layout, rs: seq<Rec>, a: nat, b: nat)
    requires Lawful(c.framing) && a < b <= |rs|
    ensures |BytesOf(c, rs[..a])| < |BytesOf(c, rs[..b])|
  {
    BytesSplit(c, rs[..a], rs[a..b]);
    assert rs[..a] + rs[a..b] == rs[..b];
  }

  lemma {:induction false} MarksAscend(c: Layout, rs: seq<Rec>, gsize: nat)
    requires Lawful(c.framing) && gsize > 0 && AscendingKeys(rs)
    ensures AscendingMarks(MarksOf(c, rs, gsize))
  {
    MarksClosed(c, rs, gsize);
    var ms := MarksOf(c, rs, gsize);
    forall i, j | 0 <= i < j < |ms| ensures ms[i].first < ms[j].first && ms[i].offset < ms[j].offset {
      MarkPair(c, rs, gsize, ms[i], i, ms[j], j);
    }
  }

  lemma {:induction false} MarkPair(c: Layout, rs: seq<Rec>, gsize: nat, m: GranuleMark, i: nat, n: GranuleMark, j: nat)
    requires Lawful(c.framing) && gsize > 0 && AscendingKeys(rs) && i < j
    requires MarkStands(c, rs, gsize, m, i) && MarkStands(c, rs, gsize, n, j)
    ensures m.first < n.first && m.offset < n.offset
  {
    ScaleLt(i, j, gsize);
    BytesGrow(c, rs, i * gsize, j * gsize);
  }

  lemma {:induction false} DecodesPlaced(c: Layout, rs: seq<Rec>, offset: nat)
    requires forall i | 0 <= i < |rs| :: Storable(c, rs[i])
    ensures DecodeAll(c, Placed(c.framing, BodiesOf(c, rs), offset)) == Ok(rs)
    decreases |rs|
  {
    if rs != [] {
      var bodies := BodiesOf(c, rs);
      assert bodies[1..] == BodiesOf(c, rs[1..]) && bodies[0] == c.encode(rs[0]);
      DecodesPlaced(c, rs[1..], offset + |c.framing.frame(bodies[0])|);
      assert rs == [rs[0]] + rs[1..];
    }
  }

  lemma {:induction false} ReadsBlock(c: Layout, p: PartMeta, rs: seq<Rec>, a: nat, b: nat, key: string, after: nat)
    requires Lawful(c.framing) && (forall i | 0 <= i < |rs| :: Storable(c, rs[i])) && a <= b <= |rs|
    requires p.bytes == BytesOf(c, rs)
    ensures var x, y := |BytesOf(c, rs[..a])|, |BytesOf(c, rs[..b])|;
            x <= y <= |p.bytes| && ReadBlock(c, p, x, y, key, after) == Ok(Matching(rs[a..b], key, after))
  {
    BytesBetween(c, rs, a, b);
    var bodies := BodiesOf(c, rs[a..b]);
    forall i | 0 <= i < |bodies| ensures c.framing.fits(bodies[i]) { assert Storable(c, rs[a + i]); }
    ExactAcceptsFrames(c.framing, [], bodies);
    assert [] + Concat(c.framing, bodies) == Concat(c.framing, bodies);
    DecodesPlaced(c, rs[a..b], 0);
  }

  // --- matches lie inside the block -----------------------------------------------------------------

  lemma {:induction false} MatchingSplit(a: seq<Rec>, b: seq<Rec>, key: string, after: nat)
    ensures Matching(a + b, key, after) == Matching(a, key, after) + Matching(b, key, after)
    decreases |b|
  {
    if b == [] {
      assert a + b == a;
    } else {
      var front := b[..|b| - 1];
      MatchingSplit(a, front, key, after);
      assert (a + b)[..|a + b| - 1] == a + front && (a + b)[|a + b| - 1] == b[|b| - 1];
    }
  }

  lemma {:induction false} NoMatches(rs: seq<Rec>, key: string, after: nat)
    requires forall i | 0 <= i < |rs| :: !Matches(rs[i], key, after)
    ensures Matching(rs, key, after) == []
  {
    if rs != [] {
      NoMatches(rs[..|rs| - 1], key, after);
    }
  }

  lemma {:induction false} MatchesInWindow(rs: seq<Rec>, key: string, after: nat, a: nat, b: nat)
    requires a <= b <= |rs|
    requires forall i | 0 <= i < |rs| && Matches(rs[i], key, after) :: a <= i < b
    ensures Matching(rs, key, after) == Matching(rs[a..b], key, after)
  {
    assert rs == rs[..a] + rs[a..b] + rs[b..];
    MatchingSplit(rs[..a] + rs[a..b], rs[b..], key, after);
    MatchingSplit(rs[..a], rs[a..b], key, after);
    forall i | 0 <= i < a ensures !Matches(rs[..a][i], key, after) { }
    NoMatches(rs[..a], key, after);
    forall i | 0 <= i < |rs| - b ensures !Matches(rs[b..][i], key, after) { assert rs[b..][i] == rs[b + i]; }
    NoMatches(rs[b..], key, after);
  }

  /** The located granule is the cursor's: nothing before it is past the cursor. */
  lemma {:induction false} StartIsSafe(c: Layout, h: Hashing, p: PartMeta, rs: seq<Rec>, gsize: nat, after: nat)
    requires Lawful(c.framing) && SealedOver(c, h, p, rs, gsize)
    ensures StartGranule(p, after) < |p.marks| && StartGranule(p, after) * gsize < |rs|
    ensures forall i | 0 <= i < StartGranule(p, after) * gsize :: rs[i].key <= after
  {
    MarksClosed(c, rs, gsize);
    MarksAscend(c, rs, gsize);
    var n := Leading(p.marks, after + 1);
    var s := if n == 0 then 0 else n - 1;
    BeforeIs(p.marks, Locate(p.marks, after + 1), s);
    assert MarkStands(c, rs, gsize, p.marks[s], s);
    if n > 0 {
      LeadingMeans(p.marks, after + 1, n - 1);
      forall i | 0 <= i < s * gsize ensures rs[i].key <= after { assert rs[i].key < rs[s * gsize].key; }
    }
  }

  lemma {:induction false} LeadingMeans(marks: seq<GranuleMark>, target: nat, i: nat)
    requires i < Leading(marks, target)
    ensures marks[i].first <= target
    decreases |marks|
  {
    if i > 0 { LeadingMeans(marks[1..], target, i - 1); }
  }

  lemma {:induction false} HitsCover(h: Hashing, blooms: seq<Filter>, key: string, g: nat, k: nat)
    requires forall i | 0 <= i < |blooms| :: Probeable(blooms[i])
    requires g <= k < |blooms| && MaybeContains(h, blooms[k], key)
    ensures var r := Hits(h, blooms, key, g); r.Some? && r.value.0 <= k < r.value.1
    decreases |blooms| - g
  {
    if g < k { HitsCover(h, blooms, key, g + 1, k); }
  }

  lemma {:induction false} GranuleOf(i: nat, gsize: nat, n: nat) returns (g: nat)
    requires gsize > 0 && i < n * gsize
    ensures g < n && g * gsize <= i < (g + 1) * gsize
  {
    g := i / gsize;
    if g >= n { ScaleLe(n, g, gsize); }
  }

  /** The records of a span of granules, as an index range. */
  function Window(span: (nat, nat), gsize: nat, n: nat): (nat, nat) { (span.0 * gsize, Min(span.1 * gsize, n)) }

  /** The granule of a matching record is at or past the cursor's, and its bloom admits it. */
  lemma {:induction false} MatchGranule(c: Layout, h: Hashing, p: PartMeta, rs: seq<Rec>, gsize: nat, key: string, after: nat, i: nat)
    returns (g: nat)
    requires Lawful(c.framing) && SealedOver(c, h, p, rs, gsize) && i < |rs| && Matches(rs[i], key, after)
    ensures StartGranule(p, after) <= g < |p.marks| && g * gsize <= i < (g + 1) * gsize
    ensures g < |p.granuleBlooms| ==> Probeable(p.granuleBlooms[g]) && MaybeContains(h, p.granuleBlooms[g], key)
  {
    StartIsSafe(c, h, p, rs, gsize, after);
    g := LastGranule(c, rs, gsize, i);
    NotBefore(StartGranule(p, after), g, gsize, i);
    if g < |p.granuleBlooms| {
      AdmittedAt(h, p.granuleBlooms[g], rs, gsize, g, i);
    }
  }

  lemma {:induction false} LastGranule(c: Layout, rs: seq<Rec>, gsize: nat, i: nat) returns (g: nat)
    requires gsize > 0 && i < |rs|
    ensures g < |MarksOf(c, rs, gsize)| && g * gsize <= i < (g + 1) * gsize
  {
    MarksClosed(c, rs, gsize);
    var n := |MarksOf(c, rs, gsize)|;
    g := GranuleOf(i, gsize, n);
  }

  lemma {:induction false} NotBefore(from: nat, g: nat, gsize: nat, i: nat)
    requires from * gsize <= i < (g + 1) * gsize
    ensures from <= g
  { }

  lemma {:induction false} AdmittedAt(h: Hashing, f: Filter, rs: seq<Rec>, gsize: nat, g: nat, i: nat)
    requires Admits(h, f, Granule(rs, gsize, g)) && i < |rs| && g * gsize <= i < (g + 1) * gsize
    ensures MaybeContains(h, f, rs[i].index)
  {
    assert Granule(rs, gsize, g)[i - g * gsize] == rs[i];
  }

  lemma {:induction false} SealedProbeable(c: Layout, h: Hashing, p: PartMeta, rs: seq<Rec>, gsize: nat)
    requires SealedOver(c, h, p, rs, gsize)
    ensures BloomsProbeable(p)
  { }

  lemma {:induction false} SpanCovers(h: Hashing, p: PartMeta, key: string, from: nat, g: nat)
    requires BloomsProbeable(p) && from <= g < |p.marks|
    requires g < |p.granuleBlooms| ==> MaybeContains(h, p.granuleBlooms[g], key)
    ensures var r := GranuleSpan(h, p, key, from); r.Some? && r.value.0 <= g < r.value.1
  {
    if |p.granuleBlooms| == |p.marks| { HitsCover(h, p.granuleBlooms, key, from, g); }
  }

  lemma {:induction false} WindowHolds(span: (nat, nat), gsize: nat, n: nat, g: nat, i: nat)
    requires span.0 <= g < span.1 && g * gsize <= i < (g + 1) * gsize && i < n
    ensures Window(span, gsize, n).0 <= i < Window(span, gsize, n).1
  {
    ScaleLe(span.0, g, gsize);
  }

  lemma {:induction false} SpanHolds(c: Layout, h: Hashing, p: PartMeta, rs: seq<Rec>, gsize: nat, key: string, after: nat, i: nat)
    requires Lawful(c.framing) && SealedOver(c, h, p, rs, gsize) && i < |rs| && Matches(rs[i], key, after)
    requires BloomsProbeable(p)
    ensures var r := GranuleSpan(h, p, key, StartGranule(p, after));
            r.Some? && Window(r.value, gsize, |rs|).0 <= i < Window(r.value, gsize, |rs|).1
  {
    var g := MatchGranule(c, h, p, rs, gsize, key, after, i);
    SpanCovers(h, p, key, StartGranule(p, after), g);
    WindowHolds(GranuleSpan(h, p, key, StartGranule(p, after)).value, gsize, |rs|, g, i);
  }

  lemma {:induction false} WindowRange(c: Layout, rs: seq<Rec>, gsize: nat, span: (nat, nat))
    requires gsize > 0 && span.0 < span.1 <= |MarksOf(c, rs, gsize)|
    ensures Window(span, gsize, |rs|).0 < Window(span, gsize, |rs|).1 <= |rs|
  {
    MarksClosed(c, rs, gsize);
    assert MarkStands(c, rs, gsize, MarksOf(c, rs, gsize)[span.0], span.0);
    ScaleLt(span.0, span.1, gsize);
  }

  /** Block boundaries are record boundaries. */
  lemma {:induction false} BlockIs(c: Layout, p: PartMeta, rs: seq<Rec>, gsize: nat, span: (nat, nat))
    requires gsize > 0 && p.marks == MarksOf(c, rs, gsize) && p.bytes == BytesOf(c, rs)
    requires span.0 < span.1 <= |p.marks|
    ensures var w := Window(span, gsize, |rs|);
            w.0 < w.1 <= |rs| && Block(p, span) == (|BytesOf(c, rs[..w.0])|, |BytesOf(c, rs[..w.1])|)
  {
    MarksClosed(c, rs, gsize);
    WindowRange(c, rs, gsize, span);
    if span.1 < |p.marks| {
    } else {
      assert rs[..|rs|] == rs;
    }
  }

  lemma {:induction false} ReadsSpan(c: Layout, h: Hashing, p: PartMeta, rs: seq<Rec>, gsize: nat, span: (nat, nat),
                                     key: string, after: nat)
    requires Lawful(c.framing) && BloomsProbeable(p) && (forall i | 0 <= i < |rs| :: Storable(c, rs[i]))
    requires gsize > 0 && p.marks == MarksOf(c, rs, gsize) && p.bytes == BytesOf(c, rs)
    requires span.0 < span.1 <= |p.marks| && GranuleSpan(h, p, key, StartGranule(p, after)) == Some(span)
    ensures var w := Window(span, gsize, |rs|);
            w.0 < w.1 <= |rs| && ReadPart(c, h, p, key, after) == Ok(Matching(rs[w.0..w.1], key, after))
  {
    BlockIs(c, p, rs, gsize, span);
    var (a, b) := Window(span, gsize, |rs|);
    BytesGrow(c, rs, a, b);
    ReadsBlock(c, p, rs, a, b, key, after);
  }

  /** Narrowing to the cursor's granule and the admitted span loses nothing: the pruned read
      of a part is the filter of its records. */
  lemma {:induction false} PartReadsAsFilter(c: Layout, h: Hashing, p: PartMeta, rs: seq<Rec>, gsize: nat, key: string, after: nat)
    requires Lawful(c.framing) && SealedOver(c, h, p, rs, gsize)
    ensures BloomsProbeable(p) && ReadPart(c, h, p, key, after) == Ok(Matching(rs, key, after))
  {
    SealedProbeable(c, h, p, rs, gsize);
    var span := GranuleSpan(h, p, key, StartGranule(p, after));
    if span.None? {
      forall i | 0 <= i < |rs| ensures !Matches(rs[i], key, after) {
        if Matches(rs[i], key, after) { SpanHolds(c, h, p, rs, gsize, key, after, i); }
      }
      NoMatches(rs, key, after);
    } else {
      ReadsSpan(c, h, p, rs, gsize, span.value, key, after);
      AllInWindow(c, h, p, rs, gsize, key, after, span.value);
    }
  }

  lemma {:induction false} AllInWindow(c: Layout, h: Hashing, p: PartMeta, rs: seq<Rec>, gsize: nat, key: string, after: nat,
                                       span: (nat, nat))
    requires Lawful(c.framing) && SealedOver(c, h, p, rs, gsize) && BloomsProbeable(p)
    requires GranuleSpan(h, p, key, StartGranule(p, after)) == Some(span)
    requires Window(span, gsize, |rs|).0 <= Window(span, gsize, |rs|).1 <= |rs|
    ensures Matching(rs, key, after) == Matching(rs[Window(span, gsize, |rs|).0..Window(span, gsize, |rs|).1], key, after)
  {
    var (a, b) := Window(span, gsize, |rs|);
    forall i | 0 <= i < |rs| && Matches(rs[i], key, after) ensures a <= i < b {
      SpanHolds(c, h, p, rs, gsize, key, after, i);
    }
    MatchesInWindow(rs, key, after, a, b);
  }

  /** A part that pruning drops holds no match. */
  lemma {:induction false} DroppedHoldsNothing(c: Layout, h: Hashing, p: PartMeta, rs: seq<Rec>, gsize: nat, key: string, after: nat)
    requires SealedOver(c, h, p, rs, gsize) && !Keeps(h, p, key, after)
    ensures Matching(rs, key, after) == []
  {
    forall i | 0 <= i < |rs| ensures !Matches(rs[i], key, after) { }
    NoMatches(rs, key, after);
  }

  // --- building the blooms of a sealed part --------------------------------------------------------------

  function Keys(rs: seq<Rec>): seq<string> { seq(|rs|, i requires 0 <= i < |rs| => rs[i].index) }

  /** A bloom every record's key was inserted into admits those records. */
  lemma {:induction false} BuiltAdmits(h: Hashing, seed: Filter, rs: seq<Rec>)
    requires Probeable(seed)
    ensures Admits(h, InsertAll(h, seed, Keys(rs)), rs)
  {
    forall i | 0 <= i < |rs| ensures MaybeContains(h, InsertAll(h, seed, Keys(rs)), rs[i].index) {
      assert Keys(rs)[i] == rs[i].index;
      NoFalseNegatives(h, seed, Keys(rs), rs[i].index);
    }
  }

  lemma {:induction false} GranuleGrows(rs: seq<Rec>, gsize: nat, i: nat, g: nat, k: nat)
    requires gsize > 0 && i < |rs| && g * gsize <= i < (g + 1) * gsize
    ensures Granule(rs[..i + 1], gsize, k) == Granule(rs[..i], gsize, k) + (if k == g then [rs[i]] else [])
  {
    if k < g {
      ScaleLe(k + 1, g, gsize);
    }
    BetweenGrows(rs, i, k * gsize, (k + 1) * gsize);
  }

  lemma {:induction false} BetweenGrows(rs: seq<Rec>, i: nat, lo: nat, hi: nat)
    requires i < |rs| && lo <= hi
    ensures Between(rs[..i + 1], lo, hi) == Between(rs[..i], lo, hi) + (if lo <= i < hi then [rs[i]] else [])
  {
    var before, after := rs[..i], rs[..i + 1];
    if lo <= i < hi {
      SliceOfTake(rs, i + 1, lo, i + 1);
      SliceOfTake(rs, i, lo, i);
    } else if hi <= i {
      SliceOfTake(rs, i + 1, lo, hi);
      SliceOfTake(rs, i, lo, hi);
    }
  }

  lemma {:induction false} SliceOfTake(rs: seq<Rec>, n: nat, lo: nat, hi: nat)
    requires lo <= hi <= n <= |rs|
    ensures rs[..n][lo..hi] == rs[lo..hi]
  { }

  /** `f` is `seed` with the keys of `rs` inserted. */
  ghost predicate BuiltFrom(h: Hashing, f: Filter, seed: Filter, rs: seq<Rec>) {
    Probeable(seed) && f == InsertAll(h, seed, Keys(rs))
  }

  lemma {:induction false} BuiltOneMore(h: Hashing, f: Filter, seed: Filter, rs: seq<Rec>, r: Rec)
    requires BuiltFrom(h, f, seed, rs)
    ensures Probeable(f) && BuiltFrom(h, Bloom.Insert(h, f, r.index), seed, rs + [r])
  {
    assert Keys(rs + [r])[..|rs|] == Keys(rs);
  }

  ghost predicate GranulesBuilt(h: Hashing, granules: seq<Filter>, seeds: seq<Filter>, rs: seq<Rec>, gsize: nat) {
    && |granules| == |seeds|
    && forall g | 0 <= g < |seeds| :: BuiltFrom(h, granules[g], seeds[g], Granule(rs, gsize, g))
  }

  lemma {:induction false} GranulesOneMore(h: Hashing, granules: seq<Filter>, seeds: seq<Filter>, rs: seq<Rec>, gsize: nat,
                                           i: nat, g: nat, after: seq<Filter>)
    requires gsize > 0 && i < |rs| && g * gsize <= i < (g + 1) * gsize
    requires GranulesBuilt(h, granules, seeds, rs[..i], gsize)
    requires g < |granules| ==> Probeable(granules[g]) && after == granules[g := Bloom.Insert(h, granules[g], rs[i].index)]
    requires g >= |granules| ==> after == granules
    ensures GranulesBuilt(h, after, seeds, rs[..i + 1], gsize)
  {
    forall k | 0 <= k < |seeds| ensures BuiltFrom(h, after[k], seeds[k], Granule(rs[..i + 1], gsize, k)) {
      GranuleGrows(rs, gsize, i, g, k);
      if k == g {
        BuiltOneMore(h, granules[k], seeds[k], Granule(rs[..i], gsize, k), rs[i]);
      } else {
        assert Granule(rs[..i], gsize, k) + [] == Granule(rs[..i], gsize, k);
      }
    }
  }

  lemma {:induction false} GranulesNone(h: Hashing, seeds: seq<Filter>, rs: seq<Rec>, gsize: nat)
    requires forall g | 0 <= g < |seeds| :: Probeable(seeds[g])
    ensures GranulesBuilt(h, seeds, seeds, rs[..0], gsize)
  { }

  /** One pass: each record's key goes into the part bloom and into its granule's bloom. */
  method BuildIndexBlooms(h: Hashing, rs: seq<Rec>, granuleSize: nat, seed: Filter, seeds: seq<Filter>)
    returns (part: Filter, granules: seq<Filter>)
    requires Probeable(seed) && forall g | 0 <= g < |seeds| :: Probeable(seeds[g])
    ensures BuiltFrom(h, part, seed, rs)
    ensures GranulesBuilt(h, granules, seeds, rs, Max(granuleSize, 1))
  {
    var gsize := Max(granuleSize, 1);
    part, granules := seed, seeds;
    GranulesNone(h, seeds, rs, gsize);
    for i := 0 to |rs|
      invariant BuiltFrom(h, part, seed, rs[..i])
      invariant GranulesBuilt(h, granules, seeds, rs[..i], gsize)
    {
      assert rs[..i + 1] == rs[..i] + [rs[i]];
      BuiltOneMore(h, part, seed, rs[..i], rs[i]);
      part := Bloom.Insert(h, part, rs[i].index);
      granules := AddToGranule(h, granules, seeds, rs, gsize, i);
    }
    assert rs[..|rs|] == rs;
  }

  lemma {:induction false} GranuleProbeable(h: Hashing, granules: seq<Filter>, seeds: seq<Filter>, rs: seq<Rec>, gsize: nat, g: nat)
    requires GranulesBuilt(h, granules, seeds, rs, gsize) && g < |granules|
    ensures Probeable(granules[g])
  { }

  method AddToGranule(h: Hashing, granules: seq<Filter>, ghost seeds: seq<Filter>, rs: seq<Rec>, gsize: nat, i: nat)
    returns (after: seq<Filter>)
    requires gsize > 0 && i < |rs| && GranulesBuilt(h, granules, seeds, rs[..i], gsize)
    ensures GranulesBuilt(h, after, seeds, rs[..i + 1], gsize)
  {
    var g := i / gsize;
    PositionInGranule(i, gsize);
    after := granules;
    if g < |granules| {
      GranuleProbeable(h, granules, seeds, rs[..i], gsize, g);
      after := granules[g := Bloom.Insert(h, granules[g], rs[i].index)];
    }
    GranulesOneMore(h, granules, seeds, rs, gsize, i, g, after);
  }

  lemma {:induction false} PositionInGranule(i: nat, gsize: nat)
    requires gsize > 0
    ensures i / gsize * gsize <= i < (i / gsize + 1) * gsize
  { }

  /** A part sealed by the writer, with blooms built from its own records, is a sealed part. */
  lemma {:induction false} SealingIsSound(c: Layout, h: Hashing, rs: seq<Rec>, gsize: nat, partition: nat,
                                          bloom: Filter, seed: Filter, granules: seq<Filter>, seeds: seq<Filter>)
    requires gsize > 0 && rs != [] && AscendingKeys(rs) && (forall i | 0 <= i < |rs| :: Storable(c, rs[i]))
    requires BuiltFrom(h, bloom, seed, rs) && GranulesBuilt(h, granules, seeds, rs, gsize)
    ensures SealedOver(c, h, PartMeta(partition, rs[0].key, rs[|rs| - 1].key, BytesOf(c, rs), MarksOf(c, rs, gsize),
                                      Some(bloom), granules), rs, gsize)
  {
    BuiltAdmits(h, seed, rs);
    forall g | 0 <= g < |granules| ensures Admits(h, granules[g], Granule(rs, gsize, g)) {
      BuiltAdmits(h, seeds[g], Granule(rs, gsize, g));
    }
  }

  // --- the manifest -----------------------------------------------------------------------------------------

  function Select<T>(xs: seq<T>, f: T -> bool): seq<T> {
    if xs == [] then [] else (if f(xs[0]) then [xs[0]] else []) + Select(xs[1..], f)
  }

  predicate ByMinKey(a: PartMeta, b: PartMeta) { a.minKey <= b.minKey }

  predicate ByKey(a: Rec, b: Rec) { a.key <= b.key }

  /** `Manifest::prune`: the partition's parts that reach past the cursor, in key order. */
  function Prune(parts: seq<PartMeta>, partition: nat, after: nat): seq<PartMeta> {
    Sort(Select(parts, (p: PartMeta) => p.partition == partition && p.maxKey > after), ByMinKey)
  }

  ghost predicate AllSealed(c: Layout, h: Hashing, parts: seq<PartMeta>, recordsOf: PartMeta -> seq<Rec>,
                            gsizeOf: PartMeta -> nat) {
    forall i | 0 <= i < |parts| :: SealedOver(c, h, parts[i], recordsOf(parts[i]), gsizeOf(parts[i]))
  }

  /** Every candidate part read in turn; an error ends the read. */
  ghost function ReadParts(c: Layout, h: Hashing, parts: seq<PartMeta>, key: string, after: nat): Result<seq<Rec>, ReadError>
    requires Lawful(c.framing) && forall i | 0 <= i < |parts| :: BloomsProbeable(parts[i])
  {
    if parts == [] then Ok([])
    else
      assert BloomsProbeable(parts[0]);
      var first := if MaybePresent(h, parts[0], key) then ReadPart(c, h, parts[0], key, after) else Ok([]);
      match first
      case Err(e) => Err(e)
      case Ok(rs) =>
        match ReadParts(c, h, parts[1..], key, after)
        case Err(e) => Err(e)
        case Ok(more) => Ok(rs + more)
  }

  /** The indexed read: prune, bloom, narrow, read, add what is still unsealed, sort. */
  ghost function ReadIndexAfter(c: Layout, h: Hashing, parts: seq<PartMeta>, pending: seq<Rec>, partition: nat,
                                key: string, after: nat): Result<seq<Rec>, ReadError>
    requires Lawful(c.framing) && forall i | 0 <= i < |Prune(parts, partition, after)| :: BloomsProbeable(Prune(parts, partition, after)[i])
  {
    match ReadParts(c, h, Prune(parts, partition, after), key, after)
    case Err(e) => Err(e)
    case Ok(rs) => Ok(Sort(rs + Matching(pending, key, after), ByKey))
  }

  /** No index at all: every record of every part of the partition, filtered. */
  ghost function ScanParts(parts: seq<PartMeta>, recordsOf: PartMeta -> seq<Rec>, key: string, after: nat): seq<Rec> {
    if parts == [] then [] else Matching(recordsOf(parts[0]), key, after) + ScanParts(parts[1..], recordsOf, key, after)
  }

  function PartsOf(parts: seq<PartMeta>, partition: nat): seq<PartMeta> {
    Sort(Select(parts, (p: PartMeta) => p.partition == partition), ByMinKey)
  }

  ghost function FullScan(parts: seq<PartMeta>, pending: seq<Rec>, recordsOf: PartMeta -> seq<Rec>, partition: nat,
                          key: string, after: nat): seq<Rec>
  {
    Sort(ScanParts(PartsOf(parts, partition), recordsOf, key, after) + Matching(pending, key, after), ByKey)
  }

  lemma {:induction false} SelectMember<T>(xs: seq<T>, f: T -> bool, x: T)
    ensures x in Select(xs, f) <==> x in xs && f(x)
  {
    if xs != [] { SelectMember(xs[1..], f, x); }
  }

  /** Selecting from a sorted list and inserting commute, so selecting and sorting do. */
  lemma {:induction false} SelectInsert<T(!new)>(x: T, s: seq<T>, f: T -> bool, le: (T, T) -> bool)
    requires TotalPreorder(le) && SortedBy(s, le)
    ensures Select(Ordering.Insert(x, s, le), f) ==
            if f(x) then Ordering.Insert(x, Select(s, f), le) else Select(s, f)
    decreases |s|
  {
    if s == [] || le(x, s[0]) {
      if f(x) { InsertFirst(x, Select(s, f), le, s, f); }
    } else {
      SelectInsert(x, s[1..], f, le);
      var kept := Select(s, f);
      assert !f(s[0]) ==> kept == Select(s[1..], f);
    }
  }

  lemma {:induction false} InsertFirst<T(!new)>(x: T, kept: seq<T>, le: (T, T) -> bool, s: seq<T>, f: T -> bool)
    requires TotalPreorder(le) && SortedBy(s, le) && (s != [] ==> le(x, s[0])) && kept == Select(s, f)
    ensures Ordering.Insert(x, kept, le) == [x] + kept
  {
    if kept != [] {
      SelectMember(s, f, kept[0]);
      var i :| 0 <= i < |s| && s[i] == kept[0];
    }
  }

  lemma {:induction false} SelectSort<T(!new)>(xs: seq<T>, f: T -> bool, le: (T, T) -> bool)
    requires TotalPreorder(le)
    ensures Select(Sort(xs, le), f) == Sort(Select(xs, f), le)
    decreases |xs|
  {
    if xs != [] {
      SelectSort(xs[1..], f, le);
      SortSorts(xs[1..], le);
      SelectInsert(xs[0], Sort(xs[1..], le), f, le);
      var kept := Select(xs, f);
      assert !f(xs[0]) ==> kept == Select(xs[1..], f);
    }
  }

  lemma {:induction false} SelectTwice<T>(xs: seq<T>, f: T -> bool, g: T -> bool, both: T -> bool)
    requires forall i | 0 <= i < |xs| :: both(xs[i]) <==> f(xs[i]) && g(xs[i])
    ensures Select(xs, both) == Select(Select(xs, f), g)
    decreases |xs|
  {
    if xs != [] {
      SelectTwice(xs[1..], f, g, both);
      assert Select(xs, f) == if f(xs[0]) then [xs[0]] + Select(xs[1..], f) else Select(xs[1..], f);
    }
  }

  /** Reading the parts that reach past the cursor equals scanning them all. */
  lemma {:induction false} ReadsEqualScan(c: Layout, h: Hashing, all: seq<PartMeta>, recordsOf: PartMeta -> seq<Rec>,
                                          gsizeOf: PartMeta -> nat, key: string, after: nat)
    requires Lawful(c.framing) && AllSealed(c, h, all, recordsOf, gsizeOf)
    ensures var kept := Select(all, (p: PartMeta) => p.maxKey > after);
            && (forall i | 0 <= i < |kept| :: BloomsProbeable(kept[i]))
            && ReadParts(c, h, kept, key, after) == Ok(ScanParts(all, recordsOf, key, after))
    decreases |all|
  {
    if all != [] {
      ReadsEqualScan(c, h, all[1..], recordsOf, gsizeOf, key, after);
      ReadsOneMore(c, h, all[0], recordsOf(all[0]), gsizeOf(all[0]), Select(all[1..], (p: PartMeta) => p.maxKey > after),
                   ScanParts(all[1..], recordsOf, key, after), key, after);
    }
  }

  /** One more part in front: read, or dropped because it holds no match. */
  lemma {:induction false} ReadsOneMore(c: Layout, h: Hashing, p: PartMeta, rs: seq<Rec>, gsize: nat, kept: seq<PartMeta>,
                                        found: seq<Rec>, key: string, after: nat)
    requires Lawful(c.framing) && SealedOver(c, h, p, rs, gsize)
    requires (forall i | 0 <= i < |kept| :: BloomsProbeable(kept[i])) && ReadParts(c, h, kept, key, after) == Ok(found)
    ensures var kept' := (if p.maxKey > after then [p] else []) + kept;
            && (forall i | 0 <= i < |kept'| :: BloomsProbeable(kept'[i]))
            && ReadParts(c, h, kept', key, after) == Ok(Matching(rs, key, after) + found)
  {
    SealedProbeable(c, h, p, rs, gsize);
    if p.maxKey > after {
      PartReadsAsFilter(c, h, p, rs, gsize, key, after);
      if !MaybePresent(h, p, key) { DroppedHoldsNothing(c, h, p, rs, gsize, key, after); }
    } else {
      DroppedHoldsNothing(c, h, p, rs, gsize, key, after);
      assert [] + kept == kept && [] + found == found;
    }
  }

  /** Pruning and scanning everything find the same. */
  lemma {:induction false} ReadsAsFullScan(c: Layout, h: Hashing, parts: seq<PartMeta>, pending: seq<Rec>,
                                           recordsOf: PartMeta -> seq<Rec>, gsizeOf: PartMeta -> nat, partition: nat,
                                           key: string, after: nat)
    requires Lawful(c.framing) && AllSealed(c, h, parts, recordsOf, gsizeOf)
    ensures forall i | 0 <= i < |Prune(parts, partition, after)| :: BloomsProbeable(Prune(parts, partition, after)[i])
    ensures ReadIndexAfter(c, h, parts, pending, partition, key, after)
            == Ok(FullScan(parts, pending, recordsOf, partition, key, after))
  {
    var ours := (p: PartMeta) => p.partition == partition;
    var past := (p: PartMeta) => p.maxKey > after;
    var both := (p: PartMeta) => p.partition == partition && p.maxKey > after;
    var mine := PartsOf(parts, partition);
    SelectTwice(parts, ours, past, both);
    SelectSort(Select(parts, ours), past, ByMinKey);
    forall i | 0 <= i < |mine| ensures SealedOver(c, h, mine[i], recordsOf(mine[i]), gsizeOf(mine[i])) {
      SortMembers(Select(parts, ours), ByMinKey, mine[i]);
      SelectMember(parts, ours, mine[i]);
    }
    ReadsEqualScan(c, h, mine, recordsOf, gsizeOf, key, after);
  }

  // --- what the read returns, record by record ------------------------------------------------------------

  /** All records of the partition's parts, each as often as they hold it. */
  ghost function HeldIn(parts: seq<PartMeta>, recordsOf: PartMeta -> seq<Rec>, partition: nat): multiset<Rec> {
    if parts == [] then multiset{}
    else (if parts[0].partition == partition then multiset(recordsOf(parts[0])) else multiset{})
         + HeldIn(parts[1..], recordsOf, partition)
  }

  ghost function Wanted(n: nat, r: Rec, key: string, after: nat): nat {
    if r.index == key && r.key > after then n else 0
  }

  /** `got` ascends by sequence and has `r` as often as it is held, if it is asked for at all. */
  ghost predicate HoldsExactly(got: seq<Rec>, held: nat, key: string, after: nat, r: Rec) {
    && (forall i, j | 0 <= i < j < |got| :: got[i].key <= got[j].key)
    && multiset(got)[r] == Wanted(held, r, key, after)
  }

  lemma {:induction false} MatchingCounts(rs: seq<Rec>, key: string, after: nat, r: Rec)
    ensures multiset(Matching(rs, key, after))[r] == Wanted(multiset(rs)[r], r, key, after)
  {
    if rs != [] {
      MatchingCounts(rs[..|rs| - 1], key, after, r);
      assert rs == rs[..|rs| - 1] + [rs[|rs| - 1]];
    }
  }

  lemma {:induction false} ScanCounts(parts: seq<PartMeta>, recordsOf: PartMeta -> seq<Rec>, partition: nat,
                                      key: string, after: nat, r: Rec)
    requires forall i | 0 <= i < |parts| :: parts[i].partition == partition
    ensures multiset(ScanParts(parts, recordsOf, key, after))[r]
            == Wanted(HeldIn(parts, recordsOf, partition)[r], r, key, after)
    decreases |parts|
  {
    if parts != [] {
      ScanCounts(parts[1..], recordsOf, partition, key, after, r);
      MatchingCounts(recordsOf(parts[0]), key, after, r);
    }
  }

  lemma {:induction false} HeldInsert(p: PartMeta, parts: seq<PartMeta>, recordsOf: PartMeta -> seq<Rec>, partition: nat)
    ensures HeldIn(Ordering.Insert(p, parts, ByMinKey), recordsOf, partition) == HeldIn([p] + parts, recordsOf, partition)
    decreases |parts|
  {
    if parts != [] && !ByMinKey(p, parts[0]) {
      HeldInsert(p, parts[1..], recordsOf, partition);
      assert ([p] + parts)[1..] == parts && ([p] + parts[1..])[1..] == parts[1..];
    }
  }

  /** Neither the order of the parts nor those of other partitions matter. */
  lemma {:induction false} HeldSorted(parts: seq<PartMeta>, recordsOf: PartMeta -> seq<Rec>, partition: nat)
    ensures HeldIn(Sort(parts, ByMinKey), recordsOf, partition) == HeldIn(parts, recordsOf, partition)
    decreases |parts|
  {
    if parts != [] {
      HeldSorted(parts[1..], recordsOf, partition);
      var rest := Sort(parts[1..], ByMinKey);
      HeldInsert(parts[0], rest, recordsOf, partition);
      assert ([parts[0]] + rest)[1..] == rest;
    }
  }

  lemma {:induction false} HeldSelected(parts: seq<PartMeta>, recordsOf: PartMeta -> seq<Rec>, partition: nat,
                                        ours: PartMeta -> bool)
    requires forall i | 0 <= i < |parts| :: ours(parts[i]) <==> parts[i].partition == partition
    ensures HeldIn(Select(parts, ours), recordsOf, partition) == HeldIn(parts, recordsOf, partition)
    decreases |parts|
  {
    if parts != [] {
      HeldSelected(parts[1..], recordsOf, partition, ours);
      var rest := Select(parts[1..], ours);
      assert ([parts[0]] + rest)[1..] == rest && [] + rest == rest;
    }
  }

  /** For any manifest of sealed parts: the pruned indexed read succeeds as a full scan would, and
      it ascends by sequence and holds each record of the index past the cursor exactly as often
      as the partition's parts and unsealed records do, and no other. */
  lemma {:induction false} PruningLosesNothing(c: Layout, h: Hashing, parts: seq<PartMeta>, pending: seq<Rec>,
                                               recordsOf: PartMeta -> seq<Rec>, gsizeOf: PartMeta -> nat, partition: nat,
                                               key: string, after: nat, r: Rec)
    requires Lawful(c.framing) && AllSealed(c, h, parts, recordsOf, gsizeOf)
    ensures forall i | 0 <= i < |Prune(parts, partition, after)| :: BloomsProbeable(Prune(parts, partition, after)[i])
    ensures var got := ReadIndexAfter(c, h, parts, pending, partition, key, after);
            && got == Ok(FullScan(parts, pending, recordsOf, partition, key, after))
            && HoldsExactly(got.value, HeldIn(parts, recordsOf, partition)[r] + multiset(pending)[r], key, after, r)
  {
    ReadsAsFullScan(c, h, parts, pending, recordsOf, gsizeOf, partition, key, after);
    ScanHoldsExactly(parts, pending, recordsOf, partition, key, after, r);
  }

  lemma {:induction false} ScanHoldsExactly(parts: seq<PartMeta>, pending: seq<Rec>, recordsOf: PartMeta -> seq<Rec>,
                                            partition: nat, key: string, after: nat, r: Rec)
    ensures var got := FullScan(parts, pending, recordsOf, partition, key, after);
            HoldsExactly(got, HeldIn(parts, recordsOf, partition)[r] + multiset(pending)[r], key, after, r)
  {
    MineCounts(parts, recordsOf, partition, key, after, r);
    SortedCounts(ScanParts(PartsOf(parts, partition), recordsOf, key, after), HeldIn(parts, recordsOf, partition)[r], pending, key, after, r);
  }

  /** What the parts gave and what is pending, put together and sorted. */
  lemma {:induction false} SortedCounts(found: seq<Rec>, held: nat, pending: seq<Rec>, key: string, after: nat, r: Rec)
    requires multiset(found)[r] == Wanted(held, r, key, after)
    ensures var got := Sort(found + Matching(pending, key, after), ByKey);
            HoldsExactly(got, held + multiset(pending)[r], key, after, r)
  {
    MatchingCounts(pending, key, after, r);
    SortedByKey(found + Matching(pending, key, after));
  }

  lemma {:induction false} MineCounts(parts: seq<PartMeta>, recordsOf: PartMeta -> seq<Rec>, partition: nat,
                                      key: string, after: nat, r: Rec)
    ensures multiset(ScanParts(PartsOf(parts, partition), recordsOf, key, after))[r]
            == Wanted(HeldIn(parts, recordsOf, partition)[r], r, key, after)
  {
    var ours := (p: PartMeta) => p.partition == partition;
    var mine := Sort(Select(parts, ours), ByMinKey);
    forall i | 0 <= i < |mine| ensures mine[i].partition == partition {
      SortMembers(Select(parts, ours), ByMinKey, mine[i]);
      SelectMember(parts, ours, mine[i]);
    }
    ScanCounts(mine, recordsOf, partition, key, after, r);
    HeldSorted(Select(parts, ours), recordsOf, partition);
    HeldSelected(parts, recordsOf, partition, ours);
  }

  lemma {:induction false} SortedByKey(rs: seq<Rec>)
    ensures multiset(Sort(rs, ByKey)) == multiset(rs)
    ensures forall i, j | 0 <= i < j < |Sort(rs, ByKey)| :: Sort(rs, ByKey)[i].key <= Sort(rs, ByKey)[j].key
  {
    SortKeeps(rs, ByKey);
    SortSorts(rs, ByKey);
  }

  lemma {:induction false} MatchingAscends(rs: seq<Rec>, key: string, after: nat)
    requires AscendingKeys(rs)
    ensures AscendingKeys(Matching(rs, key, after))
    ensures forall i | 0 <= i < |Matching(rs, key, after)| :: Matching(rs, key, after)[i] in rs
  {
    if rs != [] {
      MatchingAscends(rs[..|rs| - 1], key, after);
    }
  }

  /** The same for one part. */
  lemma {:induction false} ReadPartIsScan(c: Layout, h: Hashing, p: PartMeta, rs: seq<Rec>, gsize: nat, key: string,
                                          after: nat, r: Rec)
    requires Lawful(c.framing) && SealedOver(c, h, p, rs, gsize)
    ensures BloomsProbeable(p)
    ensures var got := ReadPart(c, h, p, key, after);
            got == Ok(Matching(rs, key, after)) && HoldsExactly(got.value, multiset(rs)[r], key, after, r)
  {
    PartReadsAsFilter(c, h, p, rs, gsize, key, after);
    MatchingAscends(rs, key, after);
    MatchingCounts(rs, key, after, r);
  }

  // --- what the read does not touch -------------------------------------------------------------------------

  lemma {:induction false} SelectCounts<T>(xs: seq<T>, f: T -> bool, x: T)
    ensures multiset(Select(xs, f))[x] == if f(x) then multiset(xs)[x] else 0
    decreases |xs|
  {
    if xs != [] {
      SelectCounts(xs[1..], f, x);
      assert xs == [xs[0]] + xs[1..];
    }
  }

  /** The candidates are exactly the partition's parts that reach past the cursor, by first key. */
  lemma {:induction false} PruneIsExact(parts: seq<PartMeta>, partition: nat, after: nat, p: PartMeta)
    ensures var kept := Prune(parts, partition, after);
            && multiset(kept)[p] == (if p.partition == partition && p.maxKey > after then multiset(parts)[p] else 0)
            && (forall i, j | 0 <= i < j < |kept| :: kept[i].minKey <= kept[j].minKey)
  {
    var f := (p: PartMeta) => p.partition == partition && p.maxKey > after;
    SelectCounts(parts, f, p);
    SortKeeps(Select(parts, f), ByMinKey);
    SortSorts(Select(parts, f), ByMinKey);
  }

  /** Among those, one whose bloom lacks a probe of the key is not read at all, whatever it holds. */
  lemma {:induction false} RefusedIsNotRead(c: Layout, h: Hashing, parts: seq<PartMeta>, key: string, after: nat, i: nat)
    requires Lawful(c.framing) && parts != [] && forall j | 0 <= j < |parts| :: BloomsProbeable(parts[j])
    requires parts[0].bloom.Some? && Probeable(parts[0].bloom.value) && LacksProbe(h, parts[0].bloom.value, key, i)
    ensures ReadParts(c, h, parts, key, after) == ReadParts(c, h, parts[1..], key, after)
  {
    LackingRefuses(h, parts[0].bloom.value, key, i);
    var more := ReadParts(c, h, parts[1..], key, after);
    if more.Ok? { assert [] + more.value == more.value; }
  }

  lemma {:induction false} HitsTight(h: Hashing, blooms: seq<Filter>, key: string, g: nat)
    requires forall i | 0 <= i < |blooms| :: Probeable(blooms[i])
    ensures var r := Hits(h, blooms, key, g);
            r.Some? ==> MaybeContains(h, blooms[r.value.0], key) && MaybeContains(h, blooms[r.value.1 - 1], key)
    decreases |blooms| - g
  {
    if g < |blooms| { HitsTight(h, blooms, key, g + 1); }
  }

  /** Inside a part with a bloom for every granule, the span begins and ends with a granule that
      admits the key, and there is none exactly when no granule from the cursor's on does. */
  lemma {:induction false} SpanIsTight(h: Hashing, p: PartMeta, key: string, from: nat)
    requires BloomsProbeable(p) && |p.granuleBlooms| == |p.marks|
    ensures var r := GranuleSpan(h, p, key, from);
            && (r.Some? ==> && MaybeContains(h, p.granuleBlooms[r.value.0], key)
                            && MaybeContains(h, p.granuleBlooms[r.value.1 - 1], key))
            && (r.Some? <==> exists g: nat :: from <= g < |p.granuleBlooms| && MaybeContains(h, p.granuleBlooms[g], key))
  {
    HitsTight(h, p.granuleBlooms, key, from);
    if g: nat :| from <= g < |p.granuleBlooms| && MaybeContains(h, p.granuleBlooms[g], key) {
      HitsCover(h, p.granuleBlooms, key, from, g);
    }
  }

  lemma {:induction false} LeadingEnds(marks: seq<GranuleMark>, target: nat)
    requires Leading(marks, target) < |marks|
    ensures marks[Leading(marks, target)].first > target
    decreases |marks|
  {
    if marks != [] && marks[0].first <= target { LeadingEnds(marks[1..], target); }
  }

  /** And it is the last such granule: the next one begins past the first key that is wanted. */
  lemma {:induction false} StartIsTight(p: PartMeta, after: nat)
    requires AscendingMarks(p.marks) && StartGranule(p, after) + 1 < |p.marks|
    ensures p.marks[StartGranule(p, after) + 1].first > after + 1
  {
    var n := Leading(p.marks, after + 1);
    var s := if n == 0 then 0 else n - 1;
    BeforeIs(p.marks, Locate(p.marks, after + 1), s);
    if n < |p.marks| { LeadingEnds(p.marks, after + 1); }
  }

  /** Each mark counts the records of its granule. */
  lemma {:induction false} MarkCounts(c: Layout, rs: seq<Rec>, gsize: nat, g: nat)
    requires gsize > 0 && g < |MarksOf(c, rs, gsize)|
    ensures MarksOf(c, rs, gsize)[g].count == |Granule(rs, gsize, g)|
    decreases |rs|
  {
    var front := rs[..|rs| - 1];
    var ms := MarksOf(c, front, gsize);
    MarksClosed(c, front, gsize);
    if g < |ms| { MarkCounts(c, front, gsize, g); }
    if |front| % gsize == 0 {
      MultipleBetween(|front|, |ms|, gsize);
    } else {
      NotMultipleBelow(|front|, |ms|, gsize);
    }
    GranuleCountGrows(rs, gsize, g, |ms|);
  }

  lemma {:induction false} GranuleCountGrows(rs: seq<Rec>, gsize: nat, g: nat, n: nat)
    requires gsize > 0 && rs != []
    requires if (|rs| - 1) % gsize == 0 then |rs| - 1 == n * gsize && g <= n else (n > 0 && (n - 1) * gsize < |rs| - 1 < n * gsize && g < n)
    ensures var last := if (|rs| - 1) % gsize == 0 then n else n - 1;
            |Granule(rs, gsize, g)| == (if g == n then 0 else |Granule(rs[..|rs| - 1], gsize, g)|) + (if g == last then 1 else 0)
  {
    var i := |rs| - 1;
    var last := if i % gsize == 0 then n else n - 1;
    assert rs[..i + 1] == rs;
    NextMultiple(last, gsize);
    GranuleGrows(rs, gsize, i, last, g);
    if g == n { assert Granule(rs[..i], gsize, n) == []; }
  }
}
