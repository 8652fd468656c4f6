// The part frame codec: magic, length, CRC-32, body (crates/ehdb-l0/src/frame.rs).

/** Lists of self-delimiting frames, over any way of framing one body. */
module FrameLists {
  import opened Basics
  import opened Bytes

  datatype FrameError = BadMagic | OverCap | CrcMismatch | TrailingBytes

  type Reading<B> = Result<Option<B>, FrameError>

  /** `frame` lays a body out; `read` reads at an offset, `Ok(None)` being a torn tail. */
  datatype Framing<!B> = Framing(frame: B -> seq<byte>, read: (seq<byte>, nat) -> Reading<B>, fits: B -> bool)

  datatype Decoded<B> = Decoded(offset: nat, body: B)

  ghost predicate ReadsWhole<B>(c: Framing<B>, pre: seq<byte>, b: B, rest: seq<byte>) {
    c.read(pre + c.frame(b) + rest, |pre|) == Ok(Some(b))
  }

  ghost predicate ReadsCut<B>(c: Framing<B>, pre: seq<byte>, b: B, cut: nat)
    requires cut <= |c.frame(b)|
  {
    c.read(pre + c.frame(b)[..cut], |pre|) == Ok(None)
  }

  ghost predicate ReadsOnlyFrames<B>(c: Framing<B>, bytes: seq<byte>, offset: nat) {
    var r := c.read(bytes, offset);
    r.Ok? && r.value.Some? ==>
      && c.fits(r.value.value) && offset + |c.frame(r.value.value)| <= |bytes|
      && bytes[offset..offset + |c.frame(r.value.value)|] == c.frame(r.value.value)
  }

  /** Whole frames read back, cut ones read as torn, and nothing else reads as a frame. */
  ghost predicate Lawful<B(!new)>(c: Framing<B>) {
    && (forall b :: |c.frame(b)| > 0)
    && (forall pre, b, rest | c.fits(b) :: ReadsWhole(c, pre, b, rest))
    && (forall pre, b, cut: nat | c.fits(b) && cut < |c.frame(b)| :: ReadsCut(c, pre, b, cut))
    && (forall pre :: c.read(pre, |pre|) == Ok(None))
    && (forall bytes, offset: nat :: ReadsOnlyFrames(c, bytes, offset))
  }

  ghost function FramesFrom<B(!new)>(c: Framing<B>, bytes: seq<byte>, offset: nat): Result<seq<Decoded<B>>, FrameError>
    requires Lawful(c)
    decreases |bytes| - offset
  {
    assert ReadsOnlyFrames(c, bytes, offset);
    match c.read(bytes, offset)
    case Err(e) => Err(e)
    case Ok(None) => Ok([])
    case Ok(Some(b)) =>
      match FramesFrom(c, bytes, offset + |c.frame(b)|)
      case Err(e) => Err(e)
      case Ok(rest) => Ok([Decoded(offset, b)] + rest)
  }

  function EndOf<B>(c: Framing<B>, frames: seq<Decoded<B>>, start: nat): nat {
    if frames == [] then start
    else frames[|frames| - 1].offset + |c.frame(frames[|frames| - 1].body)|
  }

  ghost function FramesExact<B(!new)>(c: Framing<B>, bytes: seq<byte>, start: nat): Result<seq<Decoded<B>>, FrameError>
    requires Lawful(c)
  {
    match FramesFrom(c, bytes, start)
    case Err(e) => Err(e)
    case Ok(frames) => if EndOf(c, frames, start) != |bytes| then Err(TrailingBytes) else Ok(frames)
  }

  ghost function Prepended<B>(frames: seq<Decoded<B>>, rest: Result<seq<Decoded<B>>, FrameError>):
    Result<seq<Decoded<B>>, FrameError>
  {
    if rest.Ok? then Ok(frames + rest.value) else rest
  }

  lemma {:induction false} OneMoreFrame<B(!new)>(c: Framing<B>, bytes: seq<byte>, offset: nat, frames: seq<Decoded<B>>, b: B)
    requires Lawful(c) && c.read(bytes, offset) == Ok(Some(b))
    ensures offset + |c.frame(b)| <= |bytes|
    ensures Prepended(frames, FramesFrom(c, bytes, offset)) ==
            Prepended(frames + [Decoded(offset, b)], FramesFrom(c, bytes, offset + |c.frame(b)|))
  {
    assert ReadsOnlyFrames(c, bytes, offset);
    var rest := FramesFrom(c, bytes, offset + |c.frame(b)|);
    if rest.Ok? { assert frames + ([Decoded(offset, b)] + rest.value) == frames + [Decoded(offset, b)] + rest.value; }
  }

  /** Every intact frame from `start` on; stops at a torn tail, reports damage. */
  method IterFrom<B(!new)>(c: Framing<B>, bytes: seq<byte>, start: nat) returns (r: Result<seq<Decoded<B>>, FrameError>)
    requires Lawful(c)
    ensures r == FramesFrom(c, bytes, start)
  {
    var frames: seq<Decoded<B>> := [];
    var offset := start;
    assert FramesFrom(c, bytes, start).Ok? ==> [] + FramesFrom(c, bytes, start).value == FramesFrom(c, bytes, start).value;
    while true
      invariant FramesFrom(c, bytes, start) == Prepended(frames, FramesFrom(c, bytes, offset))
      decreases |bytes| - offset
    {
      var next := c.read(bytes, offset);
      if next.Err? { return Err(next.error); }
      if next.value.None? { break; }
      var body := next.value.value;
      OneMoreFrame(c, bytes, offset, frames, body);
      frames := frames + [Decoded(offset, body)];
      offset := offset + |c.frame(body)|;
    }
    assert frames + [] == frames;
    return Ok(frames);
  }

  /** The same for a buffer that must hold whole frames only. */
  method IterExact<B(!new)>(c: Framing<B>, bytes: seq<byte>, start: nat) returns (r: Result<seq<Decoded<B>>, FrameError>)
    requires Lawful(c)
    ensures r == FramesExact(c, bytes, start)
  {
    r := IterFrom(c, bytes, start);
    if r.Ok? {
      var end := EndOf(c, r.value, start);
      if end != |bytes| { r := Err(TrailingBytes); }
    }
  }

  function Concat<B>(c: Framing<B>, bodies: seq<B>): seq<byte> {
    if bodies == [] then [] else c.frame(bodies[0]) + Concat(c, bodies[1..])
  }

  ghost predicate AllFit<B>(c: Framing<B>, bodies: seq<B>) { forall i | 0 <= i < |bodies| :: c.fits(bodies[i]) }

  /** How many frames lie wholly before the cut. */
  function Whole<B>(c: Framing<B>, bodies: seq<B>, cut: nat): (n: nat)
    ensures n <= |bodies|
  {
    if bodies == [] || |c.frame(bodies[0])| > cut then 0
    else 1 + Whole(c, bodies[1..], cut - |c.frame(bodies[0])|)
  }

  /** `Whole` counts exactly: the frames it counts end by the cut, and no more do. */
  lemma {:induction false} WholeIsExact<B>(c: Framing<B>, bodies: seq<B>, cut: nat, k: nat)
    requires k <= |bodies|
    ensures |Concat(c, bodies[..k])| <= cut <==> k <= Whole(c, bodies, cut)
    decreases |bodies|
  {
    if bodies != [] && k > 0 {
      var first := |c.frame(bodies[0])|;
      assert bodies[..k][1..] == bodies[1..][..k - 1];
      if first <= cut { WholeIsExact(c, bodies[1..], cut - first, k - 1); }
    }
  }

  function Placed<B>(c: Framing<B>, bodies: seq<B>, offset: nat): seq<Decoded<B>>
    decreases |bodies|
  {
    if bodies == [] then []
    else [Decoded(offset, bodies[0])] + Placed(c, bodies[1..], offset + |c.frame(bodies[0])|)
  }

  lemma {:induction false} CutAfter(pre: seq<byte>, frame: seq<byte>, tail: seq<byte>, cut: nat)
    requires |frame| <= cut <= |frame| + |tail|
    ensures pre + (frame + tail)[..cut] == pre + frame + tail[..cut - |frame|]
  { }

  lemma {:induction false} CutWithin(pre: seq<byte>, frame: seq<byte>, tail: seq<byte>, cut: nat)
    requires cut <= |frame|
    ensures pre + (frame + tail)[..cut] == pre + frame[..cut]
  { }

  /** A whole frame read, the rest read on from its end. */
  lemma {:induction false} FramesStep<B(!new)>(c: Framing<B>, bytes: seq<byte>, offset: nat, b: B, rest: seq<Decoded<B>>)
    requires Lawful(c) && c.read(bytes, offset) == Ok(Some(b))
    requires FramesFrom(c, bytes, offset + |c.frame(b)|) == Ok(rest)
    ensures FramesFrom(c, bytes, offset) == Ok([Decoded(offset, b)] + rest)
  { }

  lemma {:induction false} CutOff<B(!new)>(c: Framing<B>, pre: seq<byte>, b: B, tail: seq<byte>, cut: nat)
    requires Lawful(c) && c.fits(b) && cut < |c.frame(b)|
    ensures FramesFrom(c, pre + (c.frame(b) + tail)[..cut], |pre|) == Ok([])
  {
    CutWithin(pre, c.frame(b), tail, cut);
    assert ReadsCut(c, pre, b, cut);
  }

  lemma {:induction false} CutPast<B(!new)>(c: Framing<B>, pre: seq<byte>, b: B, tail: seq<byte>, cut: nat,
                                            rest: seq<Decoded<B>>)
    requires Lawful(c) && c.fits(b) && |c.frame(b)| <= cut <= |c.frame(b)| + |tail|
    requires FramesFrom(c, pre + c.frame(b) + tail[..cut - |c.frame(b)|], |pre + c.frame(b)|) == Ok(rest)
    ensures FramesFrom(c, pre + (c.frame(b) + tail)[..cut], |pre|) == Ok([Decoded(|pre|, b)] + rest)
  {
    CutAfter(pre, c.frame(b), tail, cut);
    assert ReadsWhole(c, pre, b, tail[..cut - |c.frame(b)|]);
    FramesStep(c, pre + (c.frame(b) + tail)[..cut], |pre|, b, rest);
  }

  lemma {:induction false} PlacedStep<B>(c: Framing<B>, bodies: seq<B>, n: nat, offset: nat)
    requires 0 < n <= |bodies|
    ensures Placed(c, bodies[..n], offset) ==
            [Decoded(offset, bodies[0])] + Placed(c, bodies[1..][..n - 1], offset + |c.frame(bodies[0])|)
  {
    assert bodies[..n][1..] == bodies[1..][..n - 1];
  }

  /** Recovery: whatever the cut, exactly the frames wholly before it come back, in order and
      at their offsets, and never an error. */
  lemma {:induction false} CutKeepsWholeFrames<B(!new)>(c: Framing<B>, pre: seq<byte>, bodies: seq<B>, cut: nat)
    requires Lawful(c) && AllFit(c, bodies) && cut <= |Concat(c, bodies)|
    ensures FramesFrom(c, pre + Concat(c, bodies)[..cut], |pre|) == Ok(Placed(c, bodies[..Whole(c, bodies, cut)], |pre|))
    decreases |bodies|
  {
    if bodies == [] {
      assert pre + Concat(c, bodies)[..cut] == pre;
    } else if |c.frame(bodies[0])| > cut {
      CutOff(c, pre, bodies[0], Concat(c, bodies[1..]), cut);
    } else {
      CutKeepsWholeFrames(c, pre + c.frame(bodies[0]), bodies[1..], cut - |c.frame(bodies[0])|);
      CutStep(c, pre, bodies, cut, Whole(c, bodies[1..], cut - |c.frame(bodies[0])|));
    }
  }

  lemma {:induction false} CutStep<B(!new)>(c: Framing<B>, pre: seq<byte>, bodies: seq<B>, cut: nat, n: nat)
    requires Lawful(c) && bodies != [] && c.fits(bodies[0]) && n < |bodies|
    requires |c.frame(bodies[0])| <= cut <= |Concat(c, bodies)|
    requires var frame := c.frame(bodies[0]);
             FramesFrom(c, pre + frame + Concat(c, bodies[1..])[..cut - |frame|], |pre + frame|)
             == Ok(Placed(c, bodies[1..][..n], |pre + frame|))
    ensures FramesFrom(c, pre + Concat(c, bodies)[..cut], |pre|) == Ok(Placed(c, bodies[..n + 1], |pre|))
  {
    PlacedStep(c, bodies, n + 1, |pre|);
    CutPast(c, pre, bodies[0], Concat(c, bodies[1..]), cut, Placed(c, bodies[1..][..n], |pre + c.frame(bodies[0])|));
  }

  function Bodies<B>(frames: seq<Decoded<B>>): seq<B> {
    seq(|frames|, i requires 0 <= i < |frames| => frames[i].body)
  }

  ghost predicate ReadsBack<B>(c: Framing<B>, bytes: seq<byte>, start: nat, frames: seq<Decoded<B>>) {
    && start <= EndOf(c, frames, start) <= |bytes|
    && bytes[start..EndOf(c, frames, start)] == Concat(c, Bodies(frames))
    && AllFit(c, Bodies(frames))
  }

  lemma {:induction false} OneMoreBody<B>(c: Framing<B>, bytes: seq<byte>, start: nat, b: B, rest: seq<Decoded<B>>)
    requires start + |c.frame(b)| <= |bytes| && c.fits(b)
    requires bytes[start..start + |c.frame(b)|] == c.frame(b) && ReadsBack(c, bytes, start + |c.frame(b)|, rest)
    ensures ReadsBack(c, bytes, start, [Decoded(start, b)] + rest)
  {
    var frames := [Decoded(start, b)] + rest;
    assert Bodies(frames)[1..] == Bodies(rest) && Bodies(frames)[0] == b;
  }

  lemma {:induction false} ReadsBackStep<B(!new)>(c: Framing<B>, bytes: seq<byte>, start: nat, b: B)
    requires Lawful(c) && c.read(bytes, start) == Ok(Some(b))
    requires var rest := FramesFrom(c, bytes, start + |c.frame(b)|);
             rest.Ok? ==> ReadsBack(c, bytes, start + |c.frame(b)|, rest.value)
    ensures FramesFrom(c, bytes, start).Ok? ==> ReadsBack(c, bytes, start, FramesFrom(c, bytes, start).value)
  {
    assert ReadsOnlyFrames(c, bytes, start);
    var rest := FramesFrom(c, bytes, start + |c.frame(b)|);
    if rest.Ok? {
      OneMoreBody(c, bytes, start, b, rest.value);
    }
  }

  lemma {:induction false} ReadsBackBytes<B(!new)>(c: Framing<B>, bytes: seq<byte>, start: nat)
    requires Lawful(c) && start <= |bytes|
    ensures FramesFrom(c, bytes, start).Ok? ==> ReadsBack(c, bytes, start, FramesFrom(c, bytes, start).value)
    decreases |bytes| - start
  {
    var next := c.read(bytes, start);
    if next.Ok? && next.value.Some? {
      assert ReadsOnlyFrames(c, bytes, start);
      ReadsBackBytes(c, bytes, start + |c.frame(next.value.value)|);
      ReadsBackStep(c, bytes, start, next.value.value);
    } else {
      assert ReadsBack<B>(c, bytes, start, []);
    }
  }

  /** A sealed buffer is accepted only if re-encoding what was read gives the same bytes. */
  lemma {:induction false} ExactReencodes<B(!new)>(c: Framing<B>, bytes: seq<byte>, start: nat)
    requires Lawful(c) && start <= |bytes|
    ensures var r := FramesExact(c, bytes, start);
            r.Ok? ==> bytes[start..] == Concat(c, Bodies(r.value)) && AllFit(c, Bodies(r.value))
  {
    ReadsBackBytes(c, bytes, start);
  }

  lemma {:induction false} PlacedBodies<B>(c: Framing<B>, bodies: seq<B>, offset: nat)
    ensures Bodies(Placed(c, bodies, offset)) == bodies
    ensures EndOf(c, Placed(c, bodies, offset), offset) == offset + |Concat(c, bodies)|
    decreases |bodies|
  {
    if bodies != [] {
      var next := offset + |c.frame(bodies[0])|;
      PlacedBodies(c, bodies[1..], next);
      forall i | 0 < i < |bodies| ensures Bodies(Placed(c, bodies, offset))[i] == bodies[i] { }
    }
  }

  /** And every list of frames is accepted whole. */
  lemma {:induction false} ExactAcceptsFrames<B(!new)>(c: Framing<B>, pre: seq<byte>, bodies: seq<B>)
    requires Lawful(c) && AllFit(c, bodies)
    ensures FramesExact(c, pre + Concat(c, bodies), |pre|) == Ok(Placed(c, bodies, |pre|))
  {
    var all := Concat(c, bodies);
    CutKeepsWholeFrames(c, pre, bodies, |all|);
    assert bodies[..|bodies|] == bodies && all[..|all|] == all;
    WholeIsExact(c, bodies, |all|, |bodies|);
    PlacedBodies(c, bodies, |pre|);
  }
}

module Frame {
  import opened Basics
  import opened Bytes
  import opened Crc
  import opened FrameLists

  const FRAME_MAGIC: nat := 0xE5DB_0001
  const FRAME_HEADER_LEN: nat := 12
  const MAX_FRAME_BODY_BYTES: nat := 64 * 1024 * 1024

  function Sum(body: seq<byte>): nat { Checksum(body) as nat }

  function Header(length: nat, sum: nat): (h: seq<byte>)
    ensures |h| == FRAME_HEADER_LEN
  {
    LeBytes(FRAME_MAGIC, 4) + LeBytes(length, 4) + LeBytes(sum, 4)
  }

  function FrameOf(body: seq<byte>): (f: seq<byte>)
    ensures |f| == FRAME_HEADER_LEN + |body|
  {
    Header(|body|, Sum(body)) + body
  }

  function ReadAt(bytes: seq<byte>, offset: nat): Reading<seq<byte>> {
    if offset + FRAME_HEADER_LEN > |bytes| then Ok(None)
    else
      var magic := LeValue(bytes[offset..offset + 4]);
      var length := LeValue(bytes[offset + 4..offset + 8]);
      var sum := LeValue(bytes[offset + 8..offset + 12]);
      if magic != FRAME_MAGIC then Err(BadMagic)
      else if length > MAX_FRAME_BODY_BYTES then Err(OverCap)
      else if offset + FRAME_HEADER_LEN + length > |bytes| then Ok(None)
      else
        var body := bytes[offset + FRAME_HEADER_LEN..offset + FRAME_HEADER_LEN + length];
        if Sum(body) != sum then Err(CrcMismatch) else Ok(Some(body))
  }

  predicate Capped(body: seq<byte>) { |body| <= MAX_FRAME_BODY_BYTES }

  /** The part frames as a framing: every law of `FrameLists` applies to it. */
  const PART_FRAMES: Framing<seq<byte>> := Framing(FrameOf, ReadAt, Capped)

  // --- one frame -------------------------------------------------------------------------------

  lemma {:induction false} FieldsFit(length: nat, sum: nat)
    requires length <= MAX_FRAME_BODY_BYTES && sum < 0x1_0000_0000
    ensures LeValue(LeBytes(FRAME_MAGIC, 4)) == FRAME_MAGIC
    ensures LeValue(LeBytes(length, 4)) == length && LeValue(LeBytes(sum, 4)) == sum
  {
    LeRoundTrip(FRAME_MAGIC, 4);
    LeRoundTrip(length, 4);
    LeRoundTrip(sum, 4);
  }

  lemma {:induction false} SumFits(body: seq<byte>)
    ensures Sum(body) < 0x1_0000_0000
  { }

  lemma {:induction false} Fields(pre: seq<byte>, m: seq<byte>, l: seq<byte>, s: seq<byte>, rest: seq<byte>, n: nat)
    requires |m| == |l| == |s| == 4
    ensures var bytes := pre + (m + l + s) + rest; var off := |pre|;
            && bytes[off..off + 4] == m && bytes[off + 4..off + 8] == l && bytes[off + 8..off + 12] == s
            && (n <= |rest| ==> bytes[off + 12..off + 12 + n] == rest[..n])
  { }

  /** What the reader sees of a header: its three fields. */
  lemma {:induction false} ReadsHeader(pre: seq<byte>, length: nat, sum: nat, rest: seq<byte>)
    requires length <= MAX_FRAME_BODY_BYTES && sum < 0x1_0000_0000
    ensures var bytes := pre + Header(length, sum) + rest; var off := |pre|;
            ReadAt(bytes, off) ==
            if length > |rest| then Ok(None)
            else if Sum(rest[..length]) != sum then Err(CrcMismatch)
            else Ok(Some(rest[..length]))
  {
    FieldsFit(length, sum);
    Fields(pre, LeBytes(FRAME_MAGIC, 4), LeBytes(length, 4), LeBytes(sum, 4), rest, length);
  }

  lemma {:induction false} ReadsWholeFrame(pre: seq<byte>, body: seq<byte>, rest: seq<byte>)
    requires |body| <= MAX_FRAME_BODY_BYTES
    ensures ReadAt(pre + FrameOf(body) + rest, |pre|) == Ok(Some(body))
  {
    SumFits(body);
    ReadsHeader(pre, |body|, Sum(body), body + rest);
    assert (body + rest)[..|body|] == body;
    assert pre + FrameOf(body) + rest == pre + Header(|body|, Sum(body)) + (body + rest);
  }

  /** A frame cut anywhere reads as a torn tail. */
  lemma {:induction false} ReadsCutFrame(pre: seq<byte>, body: seq<byte>, cut: nat)
    requires |body| <= MAX_FRAME_BODY_BYTES && cut < |FrameOf(body)|
    ensures ReadAt(pre + FrameOf(body)[..cut], |pre|) == Ok(None)
  {
    if cut >= FRAME_HEADER_LEN {
      var part := body[..cut - FRAME_HEADER_LEN];
      ReadsHeader(pre, |body|, Sum(body), part);
      assert pre + FrameOf(body)[..cut] == pre + Header(|body|, Sum(body)) + part;
    }
  }

  lemma {:induction false} Reassembled(bytes: seq<byte>, offset: nat, n: nat)
    requires offset + 12 + n <= |bytes|
    ensures bytes[offset..offset + 4] + bytes[offset + 4..offset + 8] + bytes[offset + 8..offset + 12]
            + bytes[offset + 12..offset + 12 + n] == bytes[offset..offset + 12 + n]
  { }

  lemma {:induction false} HeaderOf(m: seq<byte>, l: seq<byte>, s: seq<byte>)
    requires |m| == |l| == |s| == 4 && LeValue(m) == FRAME_MAGIC
    ensures Header(LeValue(l), LeValue(s)) == m + l + s
  {
    LeBytesOfValue(m);
    LeBytesOfValue(l);
    LeBytesOfValue(s);
  }

  /** A whole frame is the only thing that reads as one. */
  lemma {:induction false} ReadIsAFrame(bytes: seq<byte>, offset: nat)
    ensures var r := ReadAt(bytes, offset);
            r.Ok? && r.value.Some? ==>
              var body := r.value.value;
              && Capped(body) && offset + |FrameOf(body)| <= |bytes|
              && bytes[offset..offset + |FrameOf(body)|] == FrameOf(body)
  {
    var r := ReadAt(bytes, offset);
    if r.Ok? && r.value.Some? {
      var body := r.value.value;
      HeaderOf(bytes[offset..offset + 4], bytes[offset + 4..offset + 8], bytes[offset + 8..offset + 12]);
      Reassembled(bytes, offset, |body|);
    }
  }

  lemma {:induction false} PartFramesLawful()
    ensures Lawful(PART_FRAMES)
  {
    forall pre, b, rest | PART_FRAMES.fits(b) ensures ReadsWhole(PART_FRAMES, pre, b, rest) {
      ReadsWholeFrame(pre, b, rest);
    }
    forall pre, b, cut: nat | PART_FRAMES.fits(b) && cut < |PART_FRAMES.frame(b)|
      ensures ReadsCut(PART_FRAMES, pre, b, cut)
    {
      ReadsCutFrame(pre, b, cut);
    }
    forall bytes, offset: nat ensures ReadsOnlyFrames(PART_FRAMES, bytes, offset) { ReadIsAFrame(bytes, offset); }
  }

  // --- the loops ------------------------------------------------------------------------------

  method EncodeFrame(body: seq<byte>) returns (r: Option<seq<byte>>)
    ensures r == if |body| > MAX_FRAME_BODY_BYTES then None else Some(FrameOf(body))
  {
    if |body| > MAX_FRAME_BODY_BYTES { return None; }
    var crc := Crc32(body);
    var out := LeBytes(FRAME_MAGIC, 4);
    out := out + LeBytes(|body|, 4);
    out := out + LeBytes(crc as nat, 4);
    out := out + body;
    return Some(out);
  }

  method IterFramesFrom(bytes: seq<byte>, start: nat) returns (r: Result<seq<Decoded<seq<byte>>>, FrameError>)
    ensures Lawful(PART_FRAMES) && r == FramesFrom(PART_FRAMES, bytes, start)
  {
    PartFramesLawful();
    r := IterFrom(PART_FRAMES, bytes, start);
  }

  method IterFramesExact(bytes: seq<byte>, start: nat) returns (r: Result<seq<Decoded<seq<byte>>>, FrameError>)
    ensures Lawful(PART_FRAMES) && r == FramesExact(PART_FRAMES, bytes, start)
  {
    PartFramesLawful();
    r := IterExact(PART_FRAMES, bytes, start);
  }

  /** The recovery theorem for parts: any bodies, any cut of their concatenated frames. */
  lemma {:induction false} PartsRecoverAtEveryCut(bodies: seq<seq<byte>>, cut: nat)
    requires (forall i | 0 <= i < |bodies| :: Capped(bodies[i])) && cut <= |Concat(PART_FRAMES, bodies)|
    ensures Lawful(PART_FRAMES)
    ensures FramesFrom(PART_FRAMES, Concat(PART_FRAMES, bodies)[..cut], 0)
            == Ok(Placed(PART_FRAMES, bodies[..Whole(PART_FRAMES, bodies, cut)], 0))
  {
    PartFramesLawful();
    CutKeepsWholeFrames(PART_FRAMES, [], bodies, cut);
    assert [] + Concat(PART_FRAMES, bodies)[..cut] == Concat(PART_FRAMES, bodies)[..cut];
  }

  // --- damage -----------------------------------------------------------------------------------

  lemma {:induction false} BackFromValue(a: bv32)
    ensures (a as nat) as bv32 == a
  { }

  lemma {:induction false} ValuesTellApart(a: bv32, b: bv32)
    requires a as nat == b as nat
    ensures a == b
  {
    calc {
      a;
      { BackFromValue(a); }
      (a as nat) as bv32;
      (b as nat) as bv32;
      { BackFromValue(b); }
      b;
    }
  }

  lemma {:induction false} SumTellsApart(a: seq<byte>, b: seq<byte>)
    requires Checksum(a) != Checksum(b)
    ensures Sum(a) != Sum(b)
  {
    if Sum(a) == Sum(b) { ValuesTellApart(Checksum(a), Checksum(b)); }
  }

  /** A stored frame whose body was altered within any four consecutive bytes is refused. */
  lemma {:induction false} BurstRefused(pre: seq<byte>, a: seq<byte>, v: seq<byte>, w: seq<byte>, b: seq<byte>,
                                        rest: seq<byte>)
    requires |v| == |w| <= 4 && v != w && |a + v + b| <= MAX_FRAME_BODY_BYTES
    ensures var was, now := a + v + b, a + w + b;
            ReadAt(pre + Header(|was|, Sum(was)) + now + rest, |pre|) == Err(CrcMismatch)
  {
    var was, now := a + v + b, a + w + b;
    BurstDetected(a, v, w, b);
    SumTellsApart(was, now);
    ReadsWrongSum(pre, Sum(was), now, rest);
  }

  lemma {:induction false} ReadsWrongSum(pre: seq<byte>, sum: nat, body: seq<byte>, rest: seq<byte>)
    requires Capped(body) && sum < 0x1_0000_0000 && sum != Sum(body)
    ensures ReadAt(pre + Header(|body|, sum) + body + rest, |pre|) == Err(CrcMismatch)
  {
    ReadsHeader(pre, |body|, sum, body + rest);
    assert pre + Header(|body|, sum) + body + rest == pre + Header(|body|, sum) + (body + rest);
  }
}
