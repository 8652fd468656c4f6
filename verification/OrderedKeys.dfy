// Finite sets of sequence numbers, least and greatest members, and ascending order.

/** What a `BTreeMap<u64, _>` offers over a finite key set: its last key and its
    keys in ascending order. */
module OrderedKeys {
  import opened Basics

  ghost predicate IsMax(s: set<nat>, k: nat) {
    k in s && forall j | j in s :: j <= k
  }

  ghost function MaxKey(s: set<nat>): (r: nat)
    requires s != {}
    ensures IsMax(s, r)
  {
    var x :| x in s;
    if s == {x} then x
    else
      var m := MaxKey(s - {x});
      assert forall j | j in s :: j == x || j in s - {x};
      Max(x, m)
  }

  /** The highest key, 0 when there is none: sequences start at 1. */
  ghost function Top(s: set<nat>): nat {
    if s == {} then 0 else MaxKey(s)
  }

  lemma {:induction false} TopIs(s: set<nat>, k: nat)
    requires IsMax(s, k)
    ensures s != {} && Top(s) == MaxKey(s) == k
  { }

  ghost predicate IsMin(s: set<nat>, k: nat) {
    k in s && forall j | j in s :: k <= j
  }

  ghost function MinKey(s: set<nat>): (r: nat)
    requires s != {}
    ensures IsMin(s, r)
  {
    var x :| x in s;
    if s == {x} then x
    else
      var m := MinKey(s - {x});
      assert forall j | j in s :: j == x || j in s - {x};
      Min(x, m)
  }

  lemma {:induction false} MinIs(s: set<nat>, k: nat)
    requires IsMin(s, k)
    ensures s != {} && MinKey(s) == k
  { }

  method LastKey(s: set<nat>) returns (r: Option<nat>)
    ensures r.None? <==> s == {}
    ensures r.Some? ==> IsMax(s, r.value) && r.value == Top(s)
  {
    r := None;
    var left := s;
    while left != {}
      invariant left <= s
      invariant r.None? <==> left == s
      invariant r.Some? ==> r.value in s && forall j | j in s && j !in left :: j <= r.value
      decreases |left|
    {
      var k :| k in left;
      if r.None? || r.value < k { r := Some(k); }
      left := left - {k};
    }
    if r.Some? { TopIs(s, r.value); }
  }

  method FirstKey(s: set<nat>) returns (r: Option<nat>)
    ensures r == if s == {} then None else Some(MinKey(s))
  {
    r := None;
    var left := s;
    while left != {}
      invariant left <= s
      invariant r.None? <==> left == s
      invariant r.Some? ==> r.value in s && forall j | j in s && j !in left :: r.value <= j
      decreases |left|
    {
      var k :| k in left;
      if r.None? || k < r.value { r := Some(k); }
      left := left - {k};
    }
    if r.Some? { MinIs(s, r.value); }
  }

  ghost predicate Ascends(ks: seq<nat>, s: set<nat>) {
    && (forall i, j | 0 <= i < j < |ks| :: ks[i] < ks[j])
    && (forall k :: k in ks <==> k in s)
  }

  ghost function Ascending(s: set<nat>): (ks: seq<nat>)
    ensures Ascends(ks, s)
  {
    if s == {} then []
    else
      var m := MaxKey(s);
      var front := Ascending(s - {m});
      assert forall i | 0 <= i < |front| :: front[i] in s - {m};
      front + [m]
  }

  lemma {:induction false} AscendsUnique(a: seq<nat>, b: seq<nat>, s: set<nat>)
    requires Ascends(a, s) && Ascends(b, s)
    ensures a == b
  {
    assert a != [] ==> a[|a| - 1] in b;
    assert b != [] ==> b[|b| - 1] in a;
    if a != [] && b != [] {
      var la, lb := a[|a| - 1], b[|b| - 1];
      forall k ensures k in a[..|a| - 1] <==> k in s - {la} { }
      forall k ensures k in b[..|b| - 1] <==> k in s - {lb} { }
      AscendsUnique(a[..|a| - 1], b[..|b| - 1], s - {la});
    }
  }

  lemma {:induction false} AscendsFrom(m: nat, rest: seq<nat>, s: set<nat>)
    requires Ascends(rest, s) && forall k | k in s :: m < k
    ensures Ascends([m] + rest, s + {m})
  {
    var ks := [m] + rest;
    forall i, j | 0 <= i < j < |ks| ensures ks[i] < ks[j] {
      assert ks[j] in rest;
    }
    forall k ensures k in ks <==> k in s + {m} { }
  }

  /** Ascending order starts at the least key. */
  lemma {:induction false} AscendingHead(s: set<nat>)
    requires s != {}
    ensures Ascending(s) == [MinKey(s)] + Ascending(s - {MinKey(s)})
  {
    var m := MinKey(s);
    AscendsFrom(m, Ascending(s - {m}), s - {m});
    AscendsUnique([m] + Ascending(s - {m}), Ascending(s), s);
  }

  method KeysInOrder(s: set<nat>) returns (ks: seq<nat>)
    ensures ks == Ascending(s)
  {
    ks := [];
    var left := s;
    while left != {}
      invariant left <= s
      invariant Ascends(ks, s - left)
      invariant forall i, k | 0 <= i < |ks| && k in left :: k < ks[i]
      decreases |left|
    {
      var last := LastKey(left);
      ghost var old_ks := ks;
      ks := [last.value] + ks;
      left := left - {last.value};
    }
    AscendsUnique(ks, Ascending(s), s);
  }
}
