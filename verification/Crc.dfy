// CRC-32 as the frame codec computes it (crates/ehdb-l0/src/frame.rs; section 8 of RFC 1952).

/** A shift register fed byte by byte, over any word type with an exclusive-or. */
module ShiftRegisters {
  import opened Bytes

  /** `load` places a byte in the low end, `lift` moves a word up by one byte, `run` shifts one
      byte out; `room(n, p)` says that `p` takes up no more than the `n` lowest bytes. */
  datatype Register<!R> = Register(
    xor: (R, R) -> R,
    load: byte -> R,
    lift: R -> R,
    run: R -> R,
    zero: R,
    room: (nat, R) -> bool)

  function Iterate<R>(f: R -> R, c: R, n: nat): R
    decreases n
  {
    if n == 0 then c else Iterate(f, f(c), n - 1)
  }

  function Feed<R>(r: Register<R>, c: R, data: seq<byte>): R
    decreases |data|
  {
    if data == [] then c else Feed(r, r.run(r.xor(c, r.load(data[0]))), data[1..])
  }

  /** A few bytes as one word, the first lowest. */
  function Pack<R>(r: Register<R>, w: seq<byte>): R {
    if w == [] then r.zero else r.xor(r.load(w[0]), r.lift(Pack(r, w[1..])))
  }

  ghost predicate Injective<R(!new)>(f: R -> R) { forall x, y :: f(x) == f(y) ==> x == y }

  ghost predicate Associates<R>(r: Register<R>, a: R, b: R, c: R) {
    r.xor(r.xor(a, b), c) == r.xor(a, r.xor(b, c))
  }

  ghost predicate Cancels<R>(r: Register<R>, a: R, b: R, c: R) {
    && (r.xor(c, a) == r.xor(c, b) ==> a == b)
    && (r.xor(a, c) == r.xor(b, c) ==> a == b)
  }

  /** Exclusive-or is a group operation and shifting out is reversible. */
  ghost predicate Linear<R(!new)>(r: Register<R>) {
    && (forall a, b, c :: Associates(r, a, b, c))
    && (forall a, b, c :: Cancels(r, a, b, c))
    && (forall a :: r.xor(a, r.zero) == a)
    && Injective(r.run)
  }

  /** A word above the low end passes a shift unchanged. */
  ghost predicate Rides<R>(r: Register<R>, x: R, p: R) { r.run(r.xor(x, r.lift(p))) == r.xor(r.run(x), p) }

  ghost predicate Stacks<R>(r: Register<R>, b: byte, p: R, k: nat) {
    r.room(k, p) ==> r.room(k + 1, r.xor(r.load(b), r.lift(p)))
  }

  ghost predicate Splits<R>(r: Register<R>, b: byte, c: byte, p: R, q: R) {
    r.xor(r.load(b), r.lift(p)) == r.xor(r.load(c), r.lift(q)) ==> b == c && p == q
  }

  /** Words of `n` bytes ride and stack: one more byte below them is told from any other. */
  ghost predicate Carries<R(!new)>(r: Register<R>, n: nat) {
    && r.room(0, r.zero)
    && (forall b: byte, p, k: nat | k < n :: Stacks(r, b, p, k))
    && (forall x, p, k: nat | k <= n && r.room(k, p) :: Rides(r, x, p))
    && (forall b: byte, c: byte, p, q, k: nat | k <= n && r.room(k, p) && r.room(k, q) :: Splits(r, b, c, p, q))
  }

  lemma {:induction false} FeedNext<R>(r: Register<R>, c: R, data: seq<byte>, i: nat)
    requires i < |data|
    ensures Feed(r, c, data[i..]) == Feed(r, r.run(r.xor(c, r.load(data[i]))), data[i + 1..])
  { }

  lemma {:induction false} FeedSplit<R>(r: Register<R>, c: R, a: seq<byte>, b: seq<byte>)
    ensures Feed(r, c, a + b) == Feed(r, Feed(r, c, a), b)
    decreases |a|
  {
    if a == [] {
      assert a + b == b;
    } else {
      assert (a + b)[1..] == a[1..] + b;
      FeedSplit(r, r.run(r.xor(c, r.load(a[0]))), a[1..], b);
    }
  }

  lemma {:induction false} IterateInjective<R(!new)>(f: R -> R, a: R, b: R, n: nat)
    requires Injective(f) && Iterate(f, a, n) == Iterate(f, b, n)
    ensures a == b
    decreases n
  {
    if n > 0 { IterateInjective(f, f(a), f(b), n - 1); }
  }

  lemma {:induction false} IterateLast<R>(f: R -> R, c: R, n: nat)
    requires n > 0
    ensures Iterate(f, c, n) == f(Iterate(f, c, n - 1))
    decreases n
  {
    if n > 1 { IterateLast(f, f(c), n - 1); }
  }

  /** Equal input from different states never meets again. */
  lemma {:induction false} FeedInjective<R(!new)>(r: Register<R>, a: R, b: R, data: seq<byte>)
    requires Linear(r) && Feed(r, a, data) == Feed(r, b, data)
    ensures a == b
    decreases |data|
  {
    if data != [] {
      var d := r.load(data[0]);
      FeedInjective(r, r.run(r.xor(a, d)), r.run(r.xor(b, d)), data[1..]);
      assert Cancels(r, a, b, d);
    }
  }

  lemma {:induction false} PackRoom<R(!new)>(r: Register<R>, w: seq<byte>, n: nat)
    requires Carries(r, n) && |w| <= n
    ensures r.room(|w|, Pack(r, w))
    decreases |w|
  {
    if w != [] {
      PackRoom(r, w[1..], n);
      assert Stacks(r, w[0], Pack(r, w[1..]), |w| - 1);
    }
  }

  lemma {:induction false} PackInjective<R(!new)>(r: Register<R>, v: seq<byte>, w: seq<byte>, n: nat)
    requires Carries(r, n) && |v| == |w| <= n + 1 && Pack(r, v) == Pack(r, w)
    ensures v == w
    decreases |v|
  {
    if v != [] {
      PackRoom(r, v[1..], n);
      PackRoom(r, w[1..], n);
      assert Splits(r, v[0], w[0], Pack(r, v[1..]), Pack(r, w[1..]));
      PackInjective(r, v[1..], w[1..], n);
    }
  }

  /** Feeding a short word is one exclusive-or of its packed form, then shifting it out. */
  lemma {:induction false} FeedPacked<R(!new)>(r: Register<R>, c: R, w: seq<byte>, n: nat)
    requires Linear(r) && Carries(r, n) && |w| <= n + 1
    ensures Feed(r, c, w) == Iterate(r.run, r.xor(c, Pack(r, w)), |w|)
    decreases |w|
  {
    if w != [] {
      var head, rest := r.load(w[0]), Pack(r, w[1..]);
      FeedPacked(r, r.run(r.xor(c, head)), w[1..], n);
      PackRoom(r, w[1..], n);
      assert Rides(r, r.xor(c, head), rest);
      assert Associates(r, c, head, r.lift(rest));
    }
  }

  /** Inputs that differ only in a window one byte wider than the words the register carries
      end in different states. */
  lemma {:induction false} WindowTold<R(!new)>(r: Register<R>, c: R, a: seq<byte>, v: seq<byte>, w: seq<byte>,
                                               b: seq<byte>, n: nat)
    requires Linear(r) && Carries(r, n) && |v| == |w| <= n + 1 && v != w
    ensures Feed(r, c, a + v + b) != Feed(r, c, a + w + b)
  {
    var s := Feed(r, c, a);
    FeedSplit(r, c, a + v, b);
    FeedSplit(r, c, a, v);
    FeedSplit(r, c, a + w, b);
    FeedSplit(r, c, a, w);
    FeedPacked(r, s, v, n);
    FeedPacked(r, s, w, n);
    assert Cancels(r, Pack(r, v), Pack(r, w), s);
    if Feed(r, c, a + v + b) == Feed(r, c, a + w + b) {
      FeedInjective(r, Feed(r, s, v), Feed(r, s, w), b);
      IterateInjective(r.run, r.xor(s, Pack(r, v)), r.xor(s, Pack(r, w)), |v|);
      PackInjective(r, v, w, n);
    }
  }

  // --- a byte-wide shift made of single bits ------------------------------------------------------

  /** `y` doubled passes one single-bit shift as `y`. */
  ghost predicate BitRiding<R>(xor: (R, R) -> R, bit: R -> R, twice: R -> R, x: R, y: R) {
    bit(xor(x, twice(y))) == xor(bit(x), y)
  }

  /** `free(n, y)` says `y` can be doubled `n` times. */
  ghost predicate Frees<R>(free: (nat, R) -> bool, twice: R -> R, y: R, n: nat) {
    n > 0 && free(n, y) ==> free(n - 1, twice(y))
  }

  lemma {:induction false} BitsRide<R(!new)>(xor: (R, R) -> R, bit: R -> R, twice: R -> R, free: (nat, R) -> bool,
                                             x: R, y: R, n: nat)
    requires forall k: nat, u | k <= n :: Frees(free, twice, u, k)
    requires forall k: nat, u, z | 0 < k <= n && free(k, u) :: BitRiding(xor, bit, twice, z, u)
    requires free(n, y)
    ensures Iterate(bit, xor(x, Iterate(twice, y, n)), n) == xor(Iterate(bit, x, n), y)
    decreases n
  {
    if n > 0 {
      assert Frees(free, twice, y, n);
      BitsRide(xor, bit, twice, free, x, twice(y), n - 1);
      IterateLast(bit, xor(x, Iterate(twice, y, n)), n);
      IterateLast(bit, x, n);
      assert BitRiding(xor, bit, twice, Iterate(bit, x, n - 1), y);
    }
  }
}

/** The 32-bit register one bit at a time. */
module CrcBits {
  import opened Powers
  import opened ShiftRegisters

  const POLYNOMIAL: bv32 := 0xEDB8_8320

  /** One bit shifted out of the register. */
  function Bit(c: bv32): bv32 { (c >> 1) ^ (if c & 1 == 1 then POLYNOMIAL else 0) }

  function Xor(a: bv32, b: bv32): bv32 { a ^ b }

  /** The `k` low binary digits of a number, as a word. */
  function Binary(n: nat, k: nat): bv32 {
    if k == 0 then 0 else (Binary(n / 2, k - 1) << 1) | (if n % 2 == 1 then 1 else 0)
  }

  /** At most `k` low bits are set, for the widths a byte needs. */
  predicate Narrow(k: nat, a: bv32) {
    if k == 0 then a == 0 else if k == 1 then a < 0x2 else if k == 2 then a < 0x4 else if k == 3 then a < 0x8
    else if k == 4 then a < 0x10 else if k == 5 then a < 0x20 else if k == 6 then a < 0x40
    else if k == 7 then a < 0x80 else a < 0x100
  }

  lemma {:induction false} BinaryNarrow(n: nat, k: nat)
    requires k <= 8
    ensures Narrow(k, Binary(n, k))
  {
    if k > 0 {
      BinaryNarrow(n / 2, k - 1);
    }
  }

  lemma {:induction false} NarrowBelow(k: nat, a: bv32)
    requires k <= 7 && Narrow(k, a)
    ensures a < 0x80
  { }

  lemma {:induction false} DigitsTold(a: bv32, b: bv32, d: bv32, e: bv32)
    requires a < 0x80 && b < 0x80 && d < 2 && e < 2 && (a << 1) | d == (b << 1) | e
    ensures a == b && d == e
  { }

  lemma {:induction false} BinaryInjective(m: nat, n: nat, k: nat)
    requires k <= 8 && m < Pow2(k) && n < Pow2(k) && Binary(m, k) == Binary(n, k)
    ensures m == n
  {
    if k > 0 {
      var a, b := Binary(m / 2, k - 1), Binary(n / 2, k - 1);
      BinaryNarrow(m / 2, k - 1);
      BinaryNarrow(n / 2, k - 1);
      NarrowBelow(k - 1, a);
      NarrowBelow(k - 1, b);
      DigitsTold(a, b, if m % 2 == 1 then 1 else 0, if n % 2 == 1 then 1 else 0);
      BinaryInjective(m / 2, n / 2, k - 1);
    }
  }

  /** The branch-free form: the low bit subtracted from zero is all ones or all zeros. */
  lemma {:induction false} MaskedIsBit(c: bv32)
    ensures (c >> 1) ^ (POLYNOMIAL & (0 - (c & 1))) == Bit(c)
  {
    if c & 1 == 0 {
      assert POLYNOMIAL & (0 - (c & 1)) == 0;
    } else {
      assert c & 1 == 1;
      assert POLYNOMIAL & (0 - (c & 1)) == POLYNOMIAL;
    }
  }

  method ShiftByte(c: bv32) returns (r: bv32)
    ensures r == Iterate(Bit, c, 8)
  {
    r := c;
    for j := 0 to 8
      invariant Iterate(Bit, c, 8) == Iterate(Bit, r, 8 - j)
    {
      var mask := 0 - (r & 1);
      MaskedIsBit(r);
      r := (r >> 1) ^ (POLYNOMIAL & mask);
    }
  }

  lemma {:induction false} BitInjective(a: bv32, b: bv32)
    ensures Bit(a) == Bit(b) ==> a == b
  { }

  function Twice(y: bv32): bv32 { y << 1 }

  predicate Free(n: nat, y: bv32) {
    if n == 0 then true
    else if n == 1 then y < 0x8000_0000 else if n == 2 then y < 0x4000_0000
    else if n == 3 then y < 0x2000_0000 else if n == 4 then y < 0x1000_0000
    else if n == 5 then y < 0x800_0000 else if n == 6 then y < 0x400_0000
    else if n == 7 then y < 0x200_0000 else y < 0x100_0000
  }

  lemma {:induction false} FreeTwice(y: bv32, n: nat)
    requires n <= 8
    ensures Frees(Free, Twice, y, n)
  { }

  lemma {:induction false} BitRides(x: bv32, y: bv32)
    requires y < 0x8000_0000
    ensures Bit(x ^ (y << 1)) == Bit(x) ^ y
  { }

  lemma {:induction false} XorIs(a: bv32, b: bv32)
    ensures Xor(a, b) == a ^ b
  { }

  lemma {:induction false} TwiceIs(y: bv32)
    ensures Twice(y) == y << 1
  { }

  lemma {:induction false} BitRidesNamed(x: bv32, y: bv32)
    requires y < 0x8000_0000
    ensures Bit(Xor(x, Twice(y))) == Xor(Bit(x), y)
  {
    calc {
      Bit(Xor(x, Twice(y)));
      { TwiceIs(y); }
      Bit(Xor(x, y << 1));
      { XorIs(x, y << 1); }
      { BitRides(x, y); }
      Bit(x) ^ y;
      { XorIs(Bit(x), y); }
    }
  }

  lemma {:induction false} CrcBitRides(x: bv32, y: bv32)
    requires y < 0x8000_0000
    ensures BitRiding(Xor, Bit, Twice, x, y)
  {
    BitRidesNamed(x, y);
  }
}

module Crc {
  import opened Bytes
  import opened ShiftRegisters
  import opened CrcBits
  import opened Powers

  const ONES: bv32 := 0xFFFF_FFFF

  /** A byte as the low eight bits of the register. */
  function Word(b: byte): bv32 { Binary(b as nat, 8) }

  function UpByte(y: bv32): bv32 { y << 8 }

  function OutByte(c: bv32): bv32 { Iterate(Bit, c, 8) }

  predicate Room(n: nat, p: bv32) {
    if n == 0 then p == 0 else if n == 1 then p < 0x100 else if n == 2 then p < 0x1_0000
    else if n == 3 then p < 0x100_0000 else true
  }

  const CRC32: Register<bv32> := Register(Xor, Word, UpByte, OutByte, 0, Room)

  function Checksum(data: seq<byte>): bv32 { !Feed(CRC32, ONES, data) }

  // --- the loops ----------------------------------------------------------------------------------

  method NextByte(c: bv32, b: byte) returns (r: bv32)
    ensures r == CRC32.run(CRC32.xor(c, CRC32.load(b)))
  {
    r := ShiftByte(c ^ Word(b));
    assert CRC32.xor(c, CRC32.load(b)) == c ^ Word(b);
  }

  method Crc32(data: seq<byte>) returns (r: bv32)
    ensures r == Checksum(data)
  {
    var crc := ONES;
    for i := 0 to |data|
      invariant Feed(CRC32, ONES, data) == Feed(CRC32, crc, data[i..])
    {
      FeedNext(CRC32, crc, data, i);
      crc := NextByte(crc, data[i]);
    }
    return !crc;
  }

  // --- the register is linear -------------------------------------------------------------------

  lemma {:induction false} RunInjective()
    ensures Injective(CRC32.run)
  {
    forall a, b ensures Bit(a) == Bit(b) ==> a == b { BitInjective(a, b); }
    forall a, b | CRC32.run(a) == CRC32.run(b) ensures a == b { IterateInjective(Bit, a, b, 8); }
  }

  lemma {:induction false} CrcXorIs(a: bv32, b: bv32)
    ensures CRC32.xor(a, b) == a ^ b
  { }

  lemma {:induction false} CrcAssociates(a: bv32, b: bv32, c: bv32)
    ensures Associates(CRC32, a, b, c)
  {
    CrcXorIs(a, b);
    CrcXorIs(b, c);
  }

  lemma {:induction false} CrcCancels(a: bv32, b: bv32, c: bv32)
    ensures Cancels(CRC32, a, b, c)
  { }

  lemma {:induction false} CrcZero(a: bv32)
    ensures CRC32.xor(a, CRC32.zero) == a
  { }

  lemma {:induction false} CrcIsLinear()
    ensures Linear(CRC32)
  {
    RunInjective();
    forall a, b, c ensures Associates(CRC32, a, b, c) { CrcAssociates(a, b, c); }
    forall a, b, c ensures Cancels(CRC32, a, b, c) { CrcCancels(a, b, c); }
    forall a ensures CRC32.xor(a, CRC32.zero) == a { CrcZero(a); }
  }

  // --- and carries three bytes, so a fourth is told apart -----------------------------------------

  /** A word of three bytes, lifted by one, passes a byte-wide shift unchanged. */
  lemma {:induction false} ByteRides(x: bv32, y: bv32)
    requires y < 0x100_0000
    ensures OutByte(Xor(x, UpByte(y))) == Xor(OutByte(x), y)
  {
    forall k: nat, u | k <= 8 ensures Frees(Free, Twice, u, k) { FreeTwice(u, k); }
    forall k: nat, u, z | 0 < k <= 8 && Free(k, u) ensures BitRiding(Xor, Bit, Twice, z, u) {
      CrcBitRides(z, u);
    }
    BitsRide(Xor, Bit, Twice, Free, x, y, 8);
  }

  lemma {:induction false} RoomBelow(n: nat, p: bv32)
    requires n <= 3 && Room(n, p)
    ensures p < 0x100_0000
  { }

  lemma {:induction false} CrcRides(x: bv32, p: bv32, k: nat)
    requires k <= 3 && Room(k, p)
    ensures Rides(CRC32, x, p)
  {
    RoomBelow(k, p);
    ByteRides(x, p);
  }

  lemma {:induction false} WordFits(b: byte)
    ensures Word(b) < 0x100
  {
    BinaryNarrow(b as nat, 8);
  }

  lemma {:induction false} WordInjective(a: byte, b: byte)
    requires Word(a) == Word(b)
    ensures a == b
  {
    assert Pow2(8) == 256 by { assert Pow2(4) == 16; }
    BinaryInjective(a as nat, b as nat, 8);
  }

  lemma {:induction false} CrcStacks(b: byte, p: bv32, k: nat)
    requires k < 3
    ensures Stacks(CRC32, b, p, k)
  {
    if Room(k, p) {
      WordFits(b);
    }
  }

  lemma {:induction false} CrcSplits(b: byte, c: byte, p: bv32, q: bv32, k: nat)
    requires k <= 3 && Room(k, p) && Room(k, q)
    ensures Splits(CRC32, b, c, p, q)
  {
    if CRC32.xor(CRC32.load(b), CRC32.lift(p)) == CRC32.xor(CRC32.load(c), CRC32.lift(q)) {
      WordFits(b);
      WordFits(c);
      WordInjective(b, c);
    }
  }

  lemma {:induction false} CrcCarriesThree()
    ensures Carries(CRC32, 3)
  {
    forall b: byte, p, k: nat | k < 3 ensures Stacks(CRC32, b, p, k) { CrcStacks(b, p, k); }
    forall x, p, k: nat | k <= 3 && CRC32.room(k, p) ensures Rides(CRC32, x, p) { CrcRides(x, p, k); }
    forall b: byte, c: byte, p, q, k: nat | k <= 3 && CRC32.room(k, p) && CRC32.room(k, q)
      ensures Splits(CRC32, b, c, p, q)
    {
      CrcSplits(b, c, p, q, k);
    }
  }

  /** Two inputs of equal length that differ, but only within four consecutive bytes, never
      have the same checksum. */
  lemma {:induction false} BurstDetected(a: seq<byte>, v: seq<byte>, w: seq<byte>, b: seq<byte>)
    requires |v| == |w| <= 4 && v != w
    ensures Checksum(a + v + b) != Checksum(a + w + b)
  {
    CrcIsLinear();
    CrcCarriesThree();
    WindowTold(CRC32, ONES, a, v, w, b, 3);
  }

  // --- a known answer -----------------------------------------------------------------------------

  const DIGITS: seq<byte> := [0x31, 0x32, 0x33, 0x34, 0x35, 0x36, 0x37, 0x38, 0x39]

  lemma {:induction false} FedOne(c: bv32, i: nat, w: bv32, m: bv32, r: bv32)
    requires i < 9 && Word(DIGITS[i]) == w && c ^ w == m && Iterate(Bit, m, 8) == r
    ensures Feed(CRC32, c, DIGITS[i..]) == Feed(CRC32, r, DIGITS[i + 1..])
  { }

  lemma {:induction false} Known0()
    ensures Feed(CRC32, 0xFFFF_FFFF, DIGITS[0..]) == Feed(CRC32, 0x7C23_1048, DIGITS[1..])
  {
    FedOne(0xFFFF_FFFF, 0, 0x31, 0xFFFF_FFCE, 0x7C23_1048);
  }

  lemma {:induction false} Known1()
    ensures Feed(CRC32, 0x7C23_1048, DIGITS[1..]) == Feed(CRC32, 0xB0AC_BB32, DIGITS[2..])
  {
    FedOne(0x7C23_1048, 1, 0x32, 0x7C23_107A, 0xB0AC_BB32);
  }

  lemma {:induction false} Known2()
    ensures Feed(CRC32, 0xB0AC_BB32, DIGITS[2..]) == Feed(CRC32, 0x77B7_9C2D, DIGITS[3..])
  {
    FedOne(0xB0AC_BB32, 2, 0x33, 0xB0AC_BB01, 0x77B7_9C2D);
  }

  lemma {:induction false} Known3()
    ensures Feed(CRC32, 0x77B7_9C2D, DIGITS[3..]) == Feed(CRC32, 0x641C_1F5C, DIGITS[4..])
  {
    FedOne(0x77B7_9C2D, 3, 0x34, 0x77B7_9C19, 0x641C_1F5C);
  }

  lemma {:induction false} Known4()
    ensures Feed(CRC32, 0x641C_1F5C, DIGITS[4..]) == Feed(CRC32, 0x340A_C5E3, DIGITS[5..])
  {
    FedOne(0x641C_1F5C, 4, 0x35, 0x641C_1F69, 0x340A_C5E3);
  }

  lemma {:induction false} Known5()
    ensures Feed(CRC32, 0x340A_C5E3, DIGITS[5..]) == Feed(CRC32, 0xF68D_2C9E, DIGITS[6..])
  {
    FedOne(0x340A_C5E3, 5, 0x36, 0x340A_C5D5, 0xF68D_2C9E);
  }

  lemma {:induction false} Known6()
    ensures Feed(CRC32, 0xF68D_2C9E, DIGITS[6..]) == Feed(CRC32, 0xAFFC_9660, DIGITS[7..])
  {
    FedOne(0xF68D_2C9E, 6, 0x37, 0xF68D_2CA9, 0xAFFC_9660);
  }

  lemma {:induction false} Known7()
    ensures Feed(CRC32, 0xAFFC_9660, DIGITS[7..]) == Feed(CRC32, 0x651F_2550, DIGITS[8..])
  {
    FedOne(0xAFFC_9660, 7, 0x38, 0xAFFC_9658, 0x651F_2550);
  }

  lemma {:induction false} Known8()
    ensures Feed(CRC32, 0x651F_2550, DIGITS[8..]) == Feed(CRC32, 0x340B_C6D9, DIGITS[9..])
  {
    FedOne(0x651F_2550, 8, 0x39, 0x651F_2569, 0x340B_C6D9);
  }

  /** The check value of the standard parameters: the digits 1 to 9. */
  lemma {:induction false} KnownAnswer()
    ensures Checksum(DIGITS) == 0xCBF4_3926
  {
    assert DIGITS[0..] == DIGITS && DIGITS[9..] == [];
    Known0();
    Known1();
    Known2();
    Known3();
    Known4();
    Known5();
    Known6();
    Known7();
    Known8();
  }
}
