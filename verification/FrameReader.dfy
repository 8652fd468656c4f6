// Length-prefixed frames on a feed connection, and the cancel-safe reader
// (crates/ehdb-feed/src/lib.rs).

module FeedFrames {
  import opened Basics
  import opened Bytes
  import opened FrameLists

  function Wire(body: seq<byte>): seq<byte> { BeBytes(|body|, 4) + body }

  /** `Ok(None)` waits for more; a length over the cap is refused before it is waited for. */
  function ReadWire(cap: nat, bytes: seq<byte>, offset: nat): Reading<seq<byte>> {
    if offset + 4 > |bytes| then Ok(None)
    else
      var n := BeValue(bytes[offset..offset + 4]);
      if n > cap then Err(OverCap)
      else if offset + 4 + n > |bytes| then Ok(None)
      else Ok(Some(bytes[offset + 4..offset + 4 + n]))
  }

  /** A writer refuses bodies whose length does not fit the prefix. */
  predicate Sendable(cap: nat, body: seq<byte>) { |body| <= cap && |body| < 0x1_0000_0000 }

  /** The longest body a four-byte prefix can announce. */
  const PREFIX_MAX: nat := 0xFFFF_FFFF

  function FeedFraming(cap: nat): Framing<seq<byte>> {
    Framing(Wire, (bytes, offset) => ReadWire(cap, bytes, offset), body => Sendable(cap, body))
  }

  lemma {:induction false} ReadsPrefix(cap: nat, pre: seq<byte>, n: nat, rest: seq<byte>)
    requires n < 0x1_0000_0000 && n <= cap
    ensures ReadWire(cap, pre + BeBytes(n, 4) + rest, |pre|) == if n > |rest| then Ok(None) else Ok(Some(rest[..n]))
  {
    var bytes := pre + BeBytes(n, 4) + rest;
    BeRoundTrip(n, 4);
    if n <= |rest| { assert bytes[|pre| + 4..|pre| + 4 + n] == rest[..n]; }
  }

  lemma {:induction false} ReadsWholeWire(cap: nat, pre: seq<byte>, body: seq<byte>, rest: seq<byte>)
    requires Sendable(cap, body)
    ensures ReadWire(cap, pre + Wire(body) + rest, |pre|) == Ok(Some(body))
  {
    ReadsPrefix(cap, pre, |body|, body + rest);
    assert pre + Wire(body) + rest == pre + BeBytes(|body|, 4) + (body + rest);
  }

  lemma {:induction false} ReadsCutWire(cap: nat, pre: seq<byte>, body: seq<byte>, cut: nat)
    requires Sendable(cap, body) && cut < |Wire(body)|
    ensures ReadWire(cap, pre + Wire(body)[..cut], |pre|) == Ok(None)
  {
    if cut >= 4 {
      ReadsPrefix(cap, pre, |body|, body[..cut - 4]);
      assert pre + Wire(body)[..cut] == pre + BeBytes(|body|, 4) + body[..cut - 4];
    }
  }

  lemma {:induction false} ReadIsAWire(cap: nat, bytes: seq<byte>, offset: nat)
    ensures var r := ReadWire(cap, bytes, offset);
            r.Ok? && r.value.Some? ==>
              var body := r.value.value;
              && Sendable(cap, body) && offset + |Wire(body)| <= |bytes|
              && bytes[offset..offset + |Wire(body)|] == Wire(body)
  {
    var r := ReadWire(cap, bytes, offset);
    if r.Ok? && r.value.Some? {
      var prefix := bytes[offset..offset + 4];
      FourBytes();
      BeBytesOfValue(prefix);
    }
  }

  lemma {:induction false} FeedFramingLawful(cap: nat)
    ensures Lawful(FeedFraming(cap))
  {
    var c := FeedFraming(cap);
    forall pre, b, rest | c.fits(b) ensures ReadsWhole(c, pre, b, rest) { ReadsWholeWire(cap, pre, b, rest); }
    forall pre, b, cut: nat | c.fits(b) && cut < |c.frame(b)| ensures ReadsCut(c, pre, b, cut) {
      ReadsCutWire(cap, pre, b, cut);
    }
    forall bytes, offset: nat ensures ReadsOnlyFrames(c, bytes, offset) { ReadIsAWire(cap, bytes, offset); }
  }

  // --- a stream received piecemeal -------------------------------------------------------------

  /** What the reader has handed out, re-framed, plus what it still holds is what it received. */
  ghost predicate Accounts<B>(c: Framing<B>, received: seq<byte>, returned: seq<B>, pending: seq<byte>) {
    AllFit(c, returned) && received == Concat(c, returned) + pending
  }

  lemma {:induction false} ConcatSnoc<B>(c: Framing<B>, bodies: seq<B>, b: B)
    ensures Concat(c, bodies + [b]) == Concat(c, bodies) + c.frame(b)
    decreases |bodies|
  {
    if bodies == [] {
    } else {
      assert (bodies + [b])[1..] == bodies[1..] + [b];
      ConcatSnoc(c, bodies[1..], b);
    }
  }

  /** If what was received so far is the start of some framed bodies, then what was returned
      is the start of those bodies; and once the reader has to wait, it has returned exactly
      the bodies whose frames arrived whole. */
  lemma {:induction false} ReturnsWhatWasFramed<B(!new)>(c: Framing<B>, bodies: seq<B>, cut: nat, returned: seq<B>,
                                                         pending: seq<byte>)
    requires Lawful(c) && AllFit(c, bodies) && cut <= |Concat(c, bodies)|
    requires Accounts(c, Concat(c, bodies)[..cut], returned, pending)
    ensures |returned| <= Whole(c, bodies, cut) && returned == bodies[..|returned|]
    ensures c.read(pending, 0) == Ok(None) ==> |returned| == Whole(c, bodies, cut)
    ensures c.read(pending, 0).Ok?
    decreases |bodies|
  {
    var received := Concat(c, bodies)[..cut];
    if returned == [] {
      assert received == pending;
      FirstOfStream(c, bodies, cut);
    } else {
      FirstReturned(c, bodies, cut, returned, pending);
      var first := |c.frame(bodies[0])|;
      ReturnsWhatWasFramed(c, bodies[1..], cut - first, returned[1..], pending);
    }
  }

  /** Reading at the start of a cut stream finds its first body if that frame is whole. */
  lemma {:induction false} FirstOfStream<B(!new)>(c: Framing<B>, bodies: seq<B>, cut: nat)
    requires Lawful(c) && AllFit(c, bodies) && cut <= |Concat(c, bodies)|
    ensures c.read(Concat(c, bodies)[..cut], 0) ==
            if bodies != [] && |c.frame(bodies[0])| <= cut then Ok(Some(bodies[0])) else Ok(None)
  {
    if bodies == [] {
      var none: seq<byte> := [];
    } else {
      var frame, tail := c.frame(bodies[0]), Concat(c, bodies[1..]);
      if |frame| <= cut {
        CutAfter([], frame, tail, cut);
        assert ReadsWhole(c, [], bodies[0], tail[..cut - |frame|]);
        assert [] + (frame + tail)[..cut] == (frame + tail)[..cut];
      } else {
        CutWithin([], frame, tail, cut);
        assert ReadsCut(c, [], bodies[0], cut);
        assert [] + (frame + tail)[..cut] == (frame + tail)[..cut];
      }
    }
  }

  lemma {:induction false} FirstReturned<B(!new)>(c: Framing<B>, bodies: seq<B>, cut: nat, returned: seq<B>, pending: seq<byte>)
    requires Lawful(c) && AllFit(c, bodies) && cut <= |Concat(c, bodies)| && returned != []
    requires Accounts(c, Concat(c, bodies)[..cut], returned, pending)
    ensures bodies != [] && returned[0] == bodies[0] && |c.frame(bodies[0])| <= cut
    ensures Accounts(c, Concat(c, bodies[1..])[..cut - |c.frame(bodies[0])|], returned[1..], pending)
  {
    var received := Concat(c, bodies)[..cut];
    var frame, more := c.frame(returned[0]), Concat(c, returned[1..]) + pending;
    assert received == [] + frame + more;
    assert ReadsWhole(c, [], returned[0], more);
    FirstOfStream(c, bodies, cut);
    assert received[|frame|..] == more;
  }

  // --- the reader --------------------------------------------------------------------------------

  /** What one awaited socket read can bring: bytes, end of stream, an error, or the caller
      dropping the read, in which case nothing was taken from the socket. */
  datatype Arrival = Chunk(bytes: seq<byte>) | Eof | Broken | Dropped

  datatype Outcome = Body(body: seq<byte>) | TooLong | Closed | Failed | Cancelled

  /** The bytes a run of arrivals brings. */
  ghost function Brought(arrivals: seq<Arrival>): seq<byte> {
    if arrivals == [] then []
    else
      var last := arrivals[|arrivals| - 1];
      Brought(arrivals[..|arrivals| - 1]) + (if last.Chunk? then last.bytes else [])
  }

  class Socket {
    var arrivals: seq<Arrival>

    constructor (arrivals: seq<Arrival>)
      ensures this.arrivals == arrivals
    {
      this.arrivals := arrivals;
    }

    /** With nothing left to arrive the read waits until its caller drops it. */
    method Read() returns (a: Arrival)
      modifies this
      ensures a == if old(arrivals) == [] then Dropped else old(arrivals)[0]
      ensures arrivals == if old(arrivals) == [] then [] else old(arrivals)[1..]
    {
      if arrivals == [] { return Dropped; }
      a := arrivals[0];
      arrivals := arrivals[1..];
    }
  }

  /** The reader does not know what cap the next call will bring, so its account is kept in
      frames of any length. */
  class FrameReader {
    var pending: seq<byte>
    ghost var received: seq<byte>
    ghost var returned: seq<seq<byte>>

    ghost predicate Valid() reads this { Accounts(FeedFraming(PREFIX_MAX), received, returned, pending) }

    constructor ()
      ensures Valid() && received == [] && returned == [] && pending == []
    {
      pending, received, returned := [], [], [];
    }

    /** Hand out the first frame in hand, if it is whole, or refuse it if it is too long. */
    method TakeFrame(cap: nat) returns (out: Option<Outcome>)
      requires Valid()
      modifies this
      ensures Valid() && received == old(received)
      ensures out.None? ==> returned == old(returned) && ReadWire(cap, pending, 0) == Ok(None)
      ensures out == Some(TooLong) ==> returned == old(returned) && ReadWire(cap, pending, 0) == Err(OverCap)
      ensures out.Some? && out != Some(TooLong) ==>
                out.value.Body? && |out.value.body| <= cap && returned == old(returned) + [out.value.body]
    {
      if |pending| < 4 { return None; }
      var n := BeValue(pending[..4]);
      if n > cap { return Some(TooLong); }
      if |pending| < 4 + n { return None; }
      var body := pending[4..4 + n];
      Returns(received, returned, pending, body);
      pending := pending[4 + n..];
      returned := returned + [body];
      return Some(Body(body));
    }

    /** Every call keeps the account; a call that does not return a body leaves the reader
        with no whole frame in hand (or refuses the next one as over the cap). */
    method ReadCapped(r: Socket, cap: nat) returns (out: Outcome, ghost taken: nat)
      requires Valid()
      modifies this, r
      ensures Valid()
      ensures taken <= |old(r.arrivals)| && r.arrivals == old(r.arrivals)[taken..]
      ensures received == old(received) + Brought(old(r.arrivals)[..taken])
      ensures returned == old(returned) + (if out.Body? then [out.body] else [])
      ensures out.TooLong? ==> ReadWire(cap, pending, 0) == Err(OverCap)
      ensures !out.Body? && !out.TooLong? ==> ReadWire(cap, pending, 0) == Ok(None)
    {
      taken := 0;
      ghost var coming := r.arrivals;
      while true
        invariant Valid() && returned == old(returned)
        invariant taken <= |coming| && r.arrivals == coming[taken..]
        invariant received == old(received) + Brought(coming[..taken])
        decreases |r.arrivals|
      {
        var ready := TakeFrame(cap);
        if ready.Some? { return ready.value, taken; }
        var a := r.Read();
        if taken < |coming| {
          BroughtNext(coming, taken);
          taken := taken + 1;
        }
        match a
        case Eof => return Closed, taken;
        case Broken => return Failed, taken;
        case Dropped => return Cancelled, taken;
        case Chunk(bytes) =>
          if bytes == [] { return Closed, taken; }
          Extend(bytes);
      }
    }

    method Extend(bytes: seq<byte>)
      requires Valid()
      modifies this
      ensures Valid() && returned == old(returned) && received == old(received) + bytes && pending == old(pending) + bytes
    {
      ReceivesMore(received, returned, pending, bytes);
      pending := pending + bytes;
      received := received + bytes;
    }
  }

  lemma {:induction false} BroughtNext(arrivals: seq<Arrival>, i: nat)
    requires i < |arrivals|
    ensures Brought(arrivals[..i + 1]) == Brought(arrivals[..i]) + (if arrivals[i].Chunk? then arrivals[i].bytes else [])
  {
    assert arrivals[..i + 1][..i] == arrivals[..i];
  }

  lemma {:induction false} ReceivesMore(received: seq<byte>, returned: seq<seq<byte>>, pending: seq<byte>, bytes: seq<byte>)
    requires Accounts(FeedFraming(PREFIX_MAX), received, returned, pending)
    ensures Accounts(FeedFraming(PREFIX_MAX), received + bytes, returned, pending + bytes)
  { }

  lemma {:induction false} Returns(received: seq<byte>, returned: seq<seq<byte>>, pending: seq<byte>, body: seq<byte>)
    requires Accounts(FeedFraming(PREFIX_MAX), received, returned, pending)
    requires |pending| >= 4 && 4 + BeValue(pending[..4]) <= |pending| && body == pending[4..4 + BeValue(pending[..4])]
    ensures |Wire(body)| <= |pending|
    ensures Accounts(FeedFraming(PREFIX_MAX), received, returned + [body], pending[|Wire(body)|..])
  {
    FourBytes();
    BeBytesOfValue(pending[..4]);
    ReadIsAWire(PREFIX_MAX, pending, 0);
    ConcatSnoc(FeedFraming(PREFIX_MAX), returned, body);
  }

  /** What is left of a stream behind the first `k` bodies. */
  lemma {:induction false} RestOfStream<B>(c: Framing<B>, bodies: seq<B>, k: nat)
    requires k <= |bodies|
    ensures Concat(c, bodies) == Concat(c, bodies[..k]) + Concat(c, bodies[k..])
    decreases |bodies|
  {
    if k > 0 {
      RestOfStream(c, bodies[1..], k - 1);
      assert bodies[..k][1..] == bodies[1..][..k - 1] && bodies[1..][k - 1..] == bodies[k..];
    }
  }

  /** The length that is refused is the next body's. */
  lemma {:induction false} RefusedIsNext(cap: nat, bodies: seq<seq<byte>>, cut: nat, returned: seq<seq<byte>>,
                                         pending: seq<byte>)
    requires (forall i | 0 <= i < |bodies| :: |bodies[i]| <= PREFIX_MAX) && returned <= bodies
    requires cut <= |Concat(FeedFraming(PREFIX_MAX), bodies)|
    requires Accounts(FeedFraming(PREFIX_MAX), Concat(FeedFraming(PREFIX_MAX), bodies)[..cut], returned, pending)
    requires ReadWire(cap, pending, 0) == Err(OverCap)
    ensures |returned| < |bodies| && |bodies[|returned|]| > cap
  {
    var c, k := FeedFraming(PREFIX_MAX), |returned|;
    RestOfStream(c, bodies, k);
    var left := Concat(c, bodies[k..]);
    assert bodies[..k] == returned;
    var all, done := Concat(c, bodies), Concat(c, returned);
    assert all[..cut][|done|..] == pending && all[|done|..] == left;
    assert pending == left[..|pending|];
    var next := bodies[k];
    FourBytes();
    BeRoundTrip(|next|, 4);
    assert left[..4] == BeBytes(|next|, 4);
    assert pending[0..4] == left[..4];
  }

  /** So for every split of a framed stream into reads, every cancellation between them and
      whatever caps the calls bring, the bodies come out as they went in; a call refuses only
      a body over its cap. */
  lemma {:induction false} ReaderYieldsBodies(cap: nat, bodies: seq<seq<byte>>, cut: nat, returned: seq<seq<byte>>,
                                              pending: seq<byte>)
    requires (forall i | 0 <= i < |bodies| :: |bodies[i]| <= PREFIX_MAX) && cut <= |Concat(FeedFraming(PREFIX_MAX), bodies)|
    requires Accounts(FeedFraming(PREFIX_MAX), Concat(FeedFraming(PREFIX_MAX), bodies)[..cut], returned, pending)
    ensures |returned| <= |bodies| && returned == bodies[..|returned|]
    ensures ReadWire(cap, pending, 0) == Ok(None) ==> |returned| == Whole(FeedFraming(PREFIX_MAX), bodies, cut)
    ensures ReadWire(cap, pending, 0).Err? ==> |returned| < |bodies| && |bodies[|returned|]| > cap
  {
    var c := FeedFraming(PREFIX_MAX);
    FeedFramingLawful(PREFIX_MAX);
    ReturnsWhatWasFramed(c, bodies, cut, returned, pending);
    if ReadWire(cap, pending, 0).Err? {
      RefusedIsNext(cap, bodies, cut, returned, pending);
    } else if ReadWire(cap, pending, 0) == Ok(None) {
      if |pending| >= 4 {
        FourBytes();
        BeBytesOfValue(pending[0..4]);
      }
      assert c.read(pending, 0) == Ok(None);
    }
  }
}
