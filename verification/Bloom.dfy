// The execution bloom filter, its in-place insert and its wire form
// (crates/ehdb-l0/src/bloom.rs).
//
// A 64-bit word is a number below 2^64 and its bits are its binary digits. The two base
// hashes and the mixing function are given; base64 is given with its round trip.

module Bloom {
  import opened Basics
  import opened Bytes
  import opened Powers

  // --- bits of a word -----------------------------------------------------------------------------

  predicate HasBit(w: nat, k: nat) { if k == 0 then w % 2 == 1 else HasBit(w / 2, k - 1) }

  /** `w | 1 << k`. */
  function SetBit(w: nat, k: nat): nat {
    if k == 0 then w - w % 2 + 1 else 2 * SetBit(w / 2, k - 1) + w % 2
  }

  lemma {:induction false} SetBitIs(w: nat, k: nat, j: nat)
    ensures HasBit(SetBit(w, k), j) <==> j == k || HasBit(w, j)
  {
    if k > 0 && j > 0 { SetBitIs(w / 2, k - 1, j - 1); }
  }

  lemma {:induction false} SetBitFits(w: nat, k: nat, n: nat)
    requires k < n && w < Pow2(n)
    ensures SetBit(w, k) < Pow2(n)
  {
    if k > 0 { SetBitFits(w / 2, k - 1, n - 1); }
  }

  // --- specification -------------------------------------------------------------------------------

  datatype Scheme = Legacy | Mixed

  /** What probes are derived from: two 64-bit hashes of the key, and the mixer. */
  datatype Hashing = Hashing(h1: string -> nat, h2: string -> nat, mix: (nat, nat, nat) -> nat)

  datatype Filter = Filter(words: seq<nat>, mBits: nat, k: nat, scheme: Scheme)

  /** Every probe falls on a bit of the words. */
  predicate Probeable(f: Filter) { 0 < f.mBits <= 64 * |f.words| }

  ghost predicate Valid(f: Filter) {
    && Probeable(f) && f.k > 0
    && (forall i | 0 <= i < |f.words| :: f.words[i] < U64_SPAN)
  }

  /** Probe `i`: 64-bit wrapping arithmetic, reduced to the filter's size. */
  function Probe(h: Hashing, f: Filter, key: string, i: nat): (bit: nat)
    requires f.mBits > 0
    ensures bit < f.mBits
  {
    var combined := match f.scheme
      case Legacy => (h.h1(key) + i * h.h2(key) % U64_SPAN) % U64_SPAN
      case Mixed => h.mix(h.h1(key), h.h2(key), i);
    combined % f.mBits
  }

  function Probes(h: Hashing, f: Filter, key: string, n: nat): (bits: seq<nat>)
    requires f.mBits > 0
    ensures |bits| == n && forall i | 0 <= i < n :: bits[i] < f.mBits
  {
    if n == 0 then [] else Probes(h, f, key, n - 1) + [Probe(h, f, key, n - 1)]
  }

  predicate HasAt(words: seq<nat>, bit: nat)
    requires bit < 64 * |words|
  {
    HasBit(words[bit / 64], bit % 64)
  }

  function SetAt(words: seq<nat>, bit: nat): (w: seq<nat>)
    requires bit < 64 * |words|
    ensures |w| == |words|
  {
    words[bit / 64 := SetBit(words[bit / 64], bit % 64)]
  }

  function SetAll(words: seq<nat>, bits: seq<nat>): (w: seq<nat>)
    requires forall i | 0 <= i < |bits| :: bits[i] < 64 * |words|
    ensures |w| == |words|
  {
    if bits == [] then words else SetAt(SetAll(words, bits[..|bits| - 1]), bits[|bits| - 1])
  }

  function Insert(h: Hashing, f: Filter, key: string): Filter
    requires Probeable(f)
  {
    f.(words := SetAll(f.words, Probes(h, f, key, f.k)))
  }

  predicate MaybeContains(h: Hashing, f: Filter, key: string)
    requires Probeable(f)
  {
    forall i | 0 <= i < f.k :: HasAt(f.words, Probes(h, f, key, f.k)[i])
  }

  function InsertAll(h: Hashing, f: Filter, keys: seq<string>): (r: Filter)
    requires Probeable(f)
    ensures |r.words| == |f.words| && r.mBits == f.mBits && r.k == f.k && r.scheme == f.scheme
  {
    if keys == [] then f else Insert(h, InsertAll(h, f, keys[..|keys| - 1]), keys[|keys| - 1])
  }

  // --- the loops ------------------------------------------------------------------------------------

  class BloomFilter {
    const words: array<nat>
    const mBits: nat
    const k: nat
    const scheme: Scheme

    ghost function View(): Filter reads words { Filter(words[..], mBits, k, scheme) }

    constructor (length: nat, mBits: nat, k: nat, scheme: Scheme)
      requires 0 < mBits <= 64 * length && k > 0
      ensures fresh(words) && View() == Filter(seq(length, _ => 0), mBits, k, scheme) && Valid(View())
    {
      words := new nat[length](_ => 0);
      this.mBits, this.k, this.scheme := mBits, k, scheme;
    }

    /** Set every probe's bit in place. */
    method Add(h: Hashing, key: string)
      requires Valid(View())
      modifies words
      ensures View() == Insert(h, old(View()), key) && Valid(View())
    {
      ghost var before := words[..];
      ghost var was := View();
      ghost var bits := Probes(h, was, key, k);
      for i := 0 to k
        invariant words[..] == SetAll(before, bits[..i])
      {
        var bit := Probe(h, Filter([], mBits, k, scheme), key, i);
        ProbesAre(h, was, key, k, i);
        assert bits[..i + 1][..i] == bits[..i];
        words[bit / 64] := SetBit(words[bit / 64], bit % 64);
      }
      assert bits[..k] == bits;
      InsertKeepsValid(h, was, key);
    }

    method Contains(h: Hashing, key: string) returns (r: bool)
      requires Valid(View())
      ensures r <==> MaybeContains(h, View(), key)
    {
      for i := 0 to k
        invariant forall j | 0 <= j < i :: HasAt(words[..], Probes(h, View(), key, k)[j])
      {
        var bit := Probe(h, Filter([], mBits, k, scheme), key, i);
        ProbesAre(h, View(), key, k, i);
        if !HasBit(words[bit / 64], bit % 64) { return false; }
      }
      return true;
    }
  }

  lemma {:induction false} ProbesAre(h: Hashing, f: Filter, key: string, n: nat, i: nat)
    requires f.mBits > 0 && i < n
    ensures Probes(h, f, key, n)[i] == Probe(h, f, key, i)
    ensures Probe(h, f, key, i) == Probe(h, Filter([], f.mBits, f.k, f.scheme), key, i)
  {
    if i < n - 1 { ProbesAre(h, f, key, n - 1, i); }
  }

  // --- what inserting does --------------------------------------------------------------------------

  lemma {:induction false} SetAtIs(words: seq<nat>, bit: nat, j: nat)
    requires bit < 64 * |words| && j < 64 * |words|
    ensures HasAt(SetAt(words, bit), j) <==> j == bit || HasAt(words, j)
  {
    SetBitIs(words[bit / 64], bit % 64, j % 64);
    if j / 64 == bit / 64 && j % 64 == bit % 64 { assert j == bit; }
  }

  /** Exactly the given bits are set in addition. */
  lemma {:induction false} SetAllIs(words: seq<nat>, bits: seq<nat>, j: nat)
    requires (forall i | 0 <= i < |bits| :: bits[i] < 64 * |words|) && j < 64 * |words|
    ensures HasAt(SetAll(words, bits), j) <==> j in bits || HasAt(words, j)
  {
    if bits != [] {
      var front, last := bits[..|bits| - 1], bits[|bits| - 1];
      SetAllIs(words, front, j);
      SetAtIs(SetAll(words, front), last, j);
    }
  }

  lemma {:induction false} SetAllFits(words: seq<nat>, bits: seq<nat>)
    requires forall i | 0 <= i < |bits| :: bits[i] < 64 * |words|
    requires forall i | 0 <= i < |words| :: words[i] < U64_SPAN
    ensures forall i | 0 <= i < |words| :: SetAll(words, bits)[i] < U64_SPAN
  {
    if bits != [] {
      var front, last := bits[..|bits| - 1], bits[|bits| - 1];
      SetAllFits(words, front);
      Pow2Facts();
      SetBitFits(SetAll(words, front)[last / 64], last % 64, 64);
    }
  }

  lemma {:induction false} InsertKeepsValid(h: Hashing, f: Filter, key: string)
    requires Valid(f)
    ensures Valid(Insert(h, f, key))
  {
    SetAllFits(f.words, Probes(h, f, key, f.k));
  }

  lemma {:induction false} SameProbes(h: Hashing, f: Filter, g: Filter, key: string, n: nat)
    requires f.mBits > 0 && g.mBits == f.mBits && g.scheme == f.scheme
    ensures Probes(h, g, key, n) == Probes(h, f, key, n)
  {
    if n > 0 { SameProbes(h, f, g, key, n - 1); }
  }

  /** The inserted key is found, and every key found before still is. */
  lemma {:induction false} InsertIsFound(h: Hashing, f: Filter, key: string, other: string)
    requires Probeable(f)
    ensures MaybeContains(h, Insert(h, f, key), key)
    ensures MaybeContains(h, f, other) ==> MaybeContains(h, Insert(h, f, key), other)
  {
    var g := Insert(h, f, key);
    SameProbes(h, f, g, key, f.k);
    SameProbes(h, f, g, other, f.k);
    forall i | 0 <= i < f.k ensures HasAt(g.words, Probes(h, g, key, f.k)[i]) {
      SetAllIs(f.words, Probes(h, f, key, f.k), Probes(h, f, key, f.k)[i]);
    }
    if MaybeContains(h, f, other) {
      forall i | 0 <= i < f.k ensures HasAt(g.words, Probes(h, g, other, f.k)[i]) {
        SetAllIs(f.words, Probes(h, f, key, f.k), Probes(h, f, other, f.k)[i]);
      }
    }
  }

  /** No sequence of inserts yields a false negative, in either scheme. */
  lemma {:induction false} NoFalseNegatives(h: Hashing, f: Filter, keys: seq<string>, key: string)
    requires Probeable(f) && key in keys
    ensures MaybeContains(h, InsertAll(h, f, keys), key)
    decreases |keys|
  {
    var front, last := keys[..|keys| - 1], keys[|keys| - 1];
    InsertIsFound(h, InsertAll(h, f, front), last, key);
    if key in front { NoFalseNegatives(h, f, front, key); }
  }

  // --- the wire form --------------------------------------------------------------------------------

  datatype BloomWire = BloomWire(words: seq<nat>, mBits: nat, k: nat, scheme: nat, b64: Option<string>)

  datatype Base64 = Base64(encode: seq<byte> -> string, decode: string -> Option<seq<byte>>)

  datatype WireError = NoBits | BadBase64 | RaggedWords | UnknownScheme | EmptyFilter | TooFewWords

  function WordBytes(words: seq<nat>): seq<byte> {
    if words == [] then [] else LeBytes(words[0], 8) + WordBytes(words[1..])
  }

  function BytesWords(bytes: seq<byte>): seq<nat>
    requires |bytes| % 8 == 0
    decreases |bytes|
  {
    if bytes == [] then [] else [LeValue(bytes[..8])] + BytesWords(bytes[8..])
  }

  function ToWire(b: Base64, f: Filter): BloomWire {
    match f.scheme
    case Legacy => BloomWire(f.words, f.mBits, f.k, 0, None)
    case Mixed => BloomWire([], f.mBits, f.k, 2, Some(b.encode(WordBytes(f.words))))
  }

  function WireWords(b: Base64, w: BloomWire): Result<(Scheme, seq<nat>), WireError> {
    if w.scheme == 0 then Ok((Legacy, w.words))
    else if w.scheme == 2 then
      if w.b64.None? then Err(NoBits)
      else match b.decode(w.b64.value)
        case None => Err(BadBase64)
        case Some(bytes) => if |bytes| % 8 != 0 then Err(RaggedWords) else Ok((Mixed, BytesWords(bytes)))
    else Err(UnknownScheme)
  }

  function FromWire(b: Base64, w: BloomWire): Result<Filter, WireError> {
    match WireWords(b, w)
    case Err(e) => Err(e)
    case Ok((scheme, words)) =>
      if w.mBits == 0 || w.k == 0 then Err(EmptyFilter)
      else if 64 * |words| < w.mBits then Err(TooFewWords)
      else Ok(Filter(words, w.mBits, w.k, scheme))
  }

  lemma {:induction false} WordsRoundTrip(words: seq<nat>)
    requires forall i | 0 <= i < |words| :: words[i] < U64_SPAN
    ensures |WordBytes(words)| == 8 * |words| && BytesWords(WordBytes(words)) == words
    decreases |words|
  {
    if words != [] {
      WordsRoundTrip(words[1..]);
      LeRoundTrip(words[0], 8);
    }
  }

  /** A filter comes back from the wire unchanged, in either scheme. */
  lemma {:induction false} WireRoundTrip(b: Base64, f: Filter)
    requires Valid(f) && b.decode(b.encode(WordBytes(f.words))) == Some(WordBytes(f.words))
    ensures FromWire(b, ToWire(b, f)) == Ok(f)
  {
    WordsRoundTrip(f.words);
  }

  /** So a key inserted before the trip is found after it. */
  lemma {:induction false} NoFalseNegativesOverTheWire(h: Hashing, b: Base64, f: Filter, keys: seq<string>, key: string)
    requires Valid(f) && key in keys
    requires var g := InsertAll(h, f, keys); b.decode(b.encode(WordBytes(g.words))) == Some(WordBytes(g.words))
    ensures var r := FromWire(b, ToWire(b, InsertAll(h, f, keys)));
            r.Ok? && Probeable(r.value) && MaybeContains(h, r.value, key)
  {
    InsertAllValid(h, f, keys);
    WireRoundTrip(b, InsertAll(h, f, keys));
    NoFalseNegatives(h, f, keys, key);
  }

  lemma {:induction false} InsertAllValid(h: Hashing, f: Filter, keys: seq<string>)
    requires Valid(f)
    ensures Valid(InsertAll(h, f, keys))
    decreases |keys|
  {
    if keys != [] {
      InsertAllValid(h, f, keys[..|keys| - 1]);
      InsertKeepsValid(h, InsertAll(h, f, keys[..|keys| - 1]), keys[|keys| - 1]);
    }
  }

  /** Whatever arrives, an accepted filter can be probed without leaving its words, has at least
      one probe, and is of the scheme it was sent as. */
  lemma {:induction false} AcceptedIsInRange(h: Hashing, b: Base64, w: BloomWire, key: string, i: nat)
    ensures var r := FromWire(b, w);
            r.Ok? ==> && r.value.mBits > 0 && Probe(h, r.value, key, i) / 64 < |r.value.words|
                      && r.value.k == w.k > 0 && r.value.mBits == w.mBits
                      && w.scheme == (match r.value.scheme case Legacy => 0 case Mixed => 2)
  { }

  // --- what a filter admits, exactly ------------------------------------------------------------------

  ghost predicate Probed(h: Hashing, f: Filter, keys: seq<string>, bit: nat)
    requires f.mBits > 0
  {
    exists j, i: nat :: 0 <= j < |keys| && i < f.k && Probe(h, f, keys[j], i) == bit
  }

  lemma {:induction false} ProbesHold(h: Hashing, f: Filter, key: string, bit: nat)
    requires f.mBits > 0
    ensures bit in Probes(h, f, key, f.k) <==> exists i: nat :: i < f.k && Probe(h, f, key, i) == bit
  {
    forall i: nat | i < f.k ensures Probes(h, f, key, f.k)[i] == Probe(h, f, key, i) { ProbesAre(h, f, key, f.k, i); }
  }

  /** After any inserts a bit is set if it was before, or if some inserted key probes it. */
  lemma {:induction false} InsertedBits(h: Hashing, f: Filter, keys: seq<string>, bit: nat)
    requires Probeable(f) && bit < 64 * |f.words|
    ensures HasAt(InsertAll(h, f, keys).words, bit) <==> HasAt(f.words, bit) || Probed(h, f, keys, bit)
    decreases |keys|
  {
    if keys != [] {
      var front, last := keys[..|keys| - 1], keys[|keys| - 1];
      InsertedBits(h, f, front, bit);
      InsertSets(h, f, InsertAll(h, f, front), last, bit);
      ProbedSplits(h, f, front, last, bit);
      assert keys == front + [last];
    }
  }

  /** One insert, with the probes taken from any filter of the same shape. */
  lemma {:induction false} InsertSets(h: Hashing, f: Filter, g: Filter, key: string, bit: nat)
    requires Probeable(g) && g.mBits == f.mBits && g.scheme == f.scheme && g.k == f.k && bit < 64 * |g.words|
    ensures HasAt(Insert(h, g, key).words, bit) <==>
            HasAt(g.words, bit) || exists i: nat :: i < f.k && Probe(h, f, key, i) == bit
  {
    SameProbes(h, f, g, key, f.k);
    SetAllIs(g.words, Probes(h, g, key, f.k), bit);
    ProbesHold(h, f, key, bit);
  }

  lemma {:induction false} ProbedSplits(h: Hashing, f: Filter, front: seq<string>, last: string, bit: nat)
    requires f.mBits > 0
    ensures Probed(h, f, front + [last], bit) <==>
            Probed(h, f, front, bit) || exists i: nat :: i < f.k && Probe(h, f, last, i) == bit
  {
    var keys := front + [last];
    if j, i: nat :| 0 <= j < |front| && i < f.k && Probe(h, f, front[j], i) == bit {
      assert Probe(h, f, keys[j], i) == bit;
    }
    if i: nat :| i < f.k && Probe(h, f, last, i) == bit { assert Probe(h, f, keys[|front|], i) == bit; }
  }

  /** Probe `i` of the key falls on a bit that is not set. */
  ghost predicate LacksProbe(h: Hashing, f: Filter, key: string, i: nat)
    requires Probeable(f)
  {
    i < f.k && !HasAt(f.words, Probe(h, f, key, i))
  }

  lemma {:induction false} LackingRefuses(h: Hashing, f: Filter, key: string, i: nat)
    requires Probeable(f) && LacksProbe(h, f, key, i)
    ensures !MaybeContains(h, f, key)
  {
    ProbesAre(h, f, key, f.k, i);
  }

  ghost predicate AllClear(f: Filter)
    requires Probeable(f)
  {
    forall bit: nat | bit < f.mBits :: !HasAt(f.words, bit)
  }

  /** A filter that started clear admits a key if and only if each of its probes is also a probe
      of some inserted key; so it admits nothing before the first insert. */
  lemma {:induction false} AdmitsIff(h: Hashing, f: Filter, keys: seq<string>, key: string)
    requires Probeable(f) && f.k > 0 && AllClear(f)
    ensures MaybeContains(h, InsertAll(h, f, keys), key) <==>
            forall i: nat | i < f.k :: Probed(h, f, keys, Probe(h, f, key, i))
    ensures keys == [] ==> !MaybeContains(h, InsertAll(h, f, keys), key)
  {
    var g := InsertAll(h, f, keys);
    SameProbes(h, f, g, key, f.k);
    forall i: nat | i < f.k
      ensures HasAt(g.words, Probes(h, g, key, f.k)[i]) <==> Probed(h, f, keys, Probe(h, f, key, i))
    {
      ProbesAre(h, f, key, f.k, i);
      InsertedBits(h, f, keys, Probe(h, f, key, i));
    }
    if keys == [] { assert !Probed(h, f, keys, Probe(h, f, key, 0)); }
  }

  lemma {:induction false} ZeroHasNoBit(k: nat)
    ensures !HasBit(0, k)
  {
    if k > 0 { ZeroHasNoBit(k - 1); }
  }

  /** The filter the constructor makes is clear. */
  lemma {:induction false} NewIsClear(length: nat, mBits: nat, k: nat, scheme: Scheme)
    requires 0 < mBits <= 64 * length
    ensures AllClear(Filter(seq(length, _ => 0), mBits, k, scheme))
  {
    forall bit: nat | bit < mBits ensures !HasBit(0, bit % 64) { ZeroHasNoBit(bit % 64); }
  }

  /** Legacy probes step through the filter's range by the second hash, wrapping at 64 bits only
      once, at the end. */
  lemma {:induction false} LegacyProbes(h: Hashing, f: Filter, key: string, i: nat)
    requires f.mBits > 0 && f.scheme == Legacy
    ensures Probe(h, f, key, i) == (h.h1(key) + i * h.h2(key)) % U64_SPAN % f.mBits
  {
    WrapOnce(h.h1(key), i * h.h2(key));
  }

  lemma {:induction false} WrapOnce(a: nat, b: nat)
    ensures (a + b % U64_SPAN) % U64_SPAN == (a + b) % U64_SPAN
  { }
}
