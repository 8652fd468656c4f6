// A loop that may stop early, and what it keeps.

module Loops {
  /** Turns `i` to `m` of a loop, up to the first that fails. */
  ghost function From<S>(turn: (S, nat) -> (S, bool), s: S, i: nat, m: nat): (S, bool)
    requires i <= m
    decreases m - i
  {
    if i == m then (s, true)
    else
      var (s', ok) := turn(s, i);
      if ok then From(turn, s', i + 1, m) else (s', false)
  }

  /** Every turn from a good state succeeds into a good one, or leaves the state behind. */
  ghost predicate Keeps<S(!new)>(turn: (S, nat) -> (S, bool), good: (S, nat) -> bool, left: S -> bool, m: nat) {
    forall s, i: nat | i < m && good(s, i) :: TurnKeeps(turn, good, left, s, i)
  }

  ghost predicate TurnKeeps<S>(turn: (S, nat) -> (S, bool), good: (S, nat) -> bool, left: S -> bool, s: S, i: nat) {
    var (s', ok) := turn(s, i);
    if ok then good(s', i + 1) else left(s')
  }

  lemma {:induction false} LoopKeeps<S(!new)>(turn: (S, nat) -> (S, bool), good: (S, nat) -> bool, left: S -> bool, s: S, i: nat, m: nat)
    requires i <= m && Keeps(turn, good, left, m) && good(s, i)
    ensures var (s', ok) := From(turn, s, i, m); if ok then good(s', m) else left(s')
    decreases m - i
  {
    if i < m {
      assert TurnKeeps(turn, good, left, s, i);
      var (s', ok) := turn(s, i);
      if ok { LoopKeeps(turn, good, left, s', i + 1, m); }
    }
  }

  /** Turns that are known to succeed can be skipped. */
  lemma {:induction false} LoopFollows<S>(turn: (S, nat) -> (S, bool), at: nat -> S, i: nat, q: nat, m: nat)
    requires i <= q <= m && forall j: nat | i <= j < q :: turn(at(j), j) == (at(j + 1), true)
    ensures From(turn, at(i), i, m) == From(turn, at(q), q, m)
    decreases q - i
  {
    if i < q { LoopFollows(turn, at, i + 1, q, m); }
  }
}
