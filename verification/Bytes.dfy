// Powers of two, bytes, and fixed-width integers in both byte orders.

module Powers {
  function Pow2(k: nat): (p: nat)
    ensures p > 0
  {
    if k == 0 then 1 else 2 * Pow2(k - 1)
  }

  lemma {:induction false} Pow2Add(a: nat, b: nat)
    ensures Pow2(a + b) == Pow2(a) * Pow2(b)
  {
    if a > 0 { Pow2Add(a - 1, b); }
  }

  lemma {:induction false} Pow2Monotone(a: nat, b: nat)
    requires a <= b
    ensures Pow2(a) <= Pow2(b)
  {
    if a < b { Pow2Monotone(a, b - 1); }
  }

  lemma {:induction false} Pow2Facts()
    ensures Pow2(7) == 128 && Pow2(64) == 0x1_0000_0000_0000_0000
  {
    assert Pow2(4) == 16;
    assert Pow2(8) == 256;
    Pow2Add(8, 8);
    Pow2Add(16, 16);
    Pow2Add(32, 32);
  }
}

module Bytes {
  newtype byte = x: int | 0 <= x < 256

  function Pow256(k: nat): nat { if k == 0 then 1 else 256 * Pow256(k - 1) }

  /** The `k` least significant bytes of `n`, lowest first. */
  function LeBytes(n: nat, k: nat): (b: seq<byte>)
    ensures |b| == k
  {
    if k == 0 then [] else [(n % 256) as byte] + LeBytes(n / 256, k - 1)
  }

  function LeValue(b: seq<byte>): nat {
    if b == [] then 0 else b[0] as nat + 256 * LeValue(b[1..])
  }

  lemma {:induction false} LeRoundTrip(n: nat, k: nat)
    requires n < Pow256(k)
    ensures LeValue(LeBytes(n, k)) == n
  {
    if k > 0 {
      LeRoundTrip(n / 256, k - 1);
    }
  }

  lemma {:induction false} LeBytesOfValue(b: seq<byte>)
    ensures LeValue(b) < Pow256(|b|)
    ensures LeBytes(LeValue(b), |b|) == b
  {
    if b != [] {
      LeBytesOfValue(b[1..]);
    }
  }

  /** The same number, highest byte first. */
  function BeBytes(n: nat, k: nat): (b: seq<byte>)
    ensures |b| == k
  {
    if k == 0 then [] else BeBytes(n / 256, k - 1) + [(n % 256) as byte]
  }

  function BeValue(b: seq<byte>): nat {
    if b == [] then 0 else 256 * BeValue(b[..|b| - 1]) + b[|b| - 1] as nat
  }

  lemma {:induction false} BeRoundTrip(n: nat, k: nat)
    requires n < Pow256(k)
    ensures BeValue(BeBytes(n, k)) == n
  {
    if k > 0 {
      BeRoundTrip(n / 256, k - 1);
    }
  }

  lemma {:induction false} BeBytesOfValue(b: seq<byte>)
    ensures BeValue(b) < Pow256(|b|)
    ensures BeBytes(BeValue(b), |b|) == b
  {
    if b != [] {
      BeBytesOfValue(b[..|b| - 1]);
    }
  }

  lemma {:induction false} FourBytes()
    ensures Pow256(4) == 0x1_0000_0000
  { }
}
