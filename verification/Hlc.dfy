// The hybrid logical clock (crates/ehdb-core/src/hlc.rs).

module Hlc {
  import opened Basics

  const LOGICAL_SPAN: nat := 0x1_0000
  const PHYSICAL_SPAN: nat := 0x1_0000_0000_0000

  type Stamp = n: nat | n <= U64_MAX

  /** Milliseconds in the high 48 bits, counter in the low 16; what does not fit is cut off. */
  function FromParts(millis: nat, logical: nat): Stamp {
    millis % PHYSICAL_SPAN * LOGICAL_SPAN + logical % LOGICAL_SPAN
  }

  function Physical(s: Stamp): nat { s / LOGICAL_SPAN }

  function Logical(s: Stamp): nat { s % LOGICAL_SPAN }

  function Next(last: Stamp, wall: nat): Stamp {
    if wall > Physical(last) then FromParts(wall, 0)
    else
      var logical := Logical(last) + 1;
      if logical > LOGICAL_SPAN - 1 then FromParts(Physical(last) + 1, 0) else FromParts(Physical(last), logical)
  }

  class HlcClock {
    var last: Stamp

    constructor (seed: Stamp)
      ensures last == seed
    {
      last := seed;
    }

    method Now(wall: nat) returns (next: Stamp)
      modifies this
      ensures next == Next(old(last), wall) && last == next
    {
      if wall > Physical(last) {
        next := FromParts(wall, 0);
      } else {
        var logical := Logical(last) + 1;
        if logical > LOGICAL_SPAN - 1 {
          next := FromParts(Physical(last) + 1, 0);
        } else {
          next := FromParts(Physical(last), logical);
        }
      }
      last := next;
    }

    method Observe(remote: Stamp)
      modifies this
      ensures last == Max(old(last), remote)
    {
      if remote > last { last := remote; }
    }
  }

  // --- one call -------------------------------------------------------------------------------

  lemma {:induction false} Parts(s: Stamp)
    ensures s == Physical(s) * LOGICAL_SPAN + Logical(s) && Physical(s) < PHYSICAL_SPAN
  { }

  /** Below the 48-bit limit a reading is the larger of the last value plus one and the wall
      clock shifted up, the carry out of the counter included. */
  lemma {:induction false} NextIsMax(last: Stamp, wall: nat)
    requires last < U64_MAX && wall < PHYSICAL_SPAN
    ensures Next(last, wall) == Max(last + 1, wall * LOGICAL_SPAN)
  {
    Parts(last);
  }

  /** A reading exceeds the last one exactly when neither limit is hit: an advancing wall clock
      must still be ahead once cut to 48 bits, and a lagging one must find room to count up. */
  lemma {:induction false} AdvancesIff(last: Stamp, wall: nat)
    ensures Next(last, wall) > last <==>
            if wall > Physical(last) then wall % PHYSICAL_SPAN > Physical(last) else last < U64_MAX
  { }

  /** Both limits can be met: at the largest stamp a reading wraps to zero, and so does one
      whose wall clock has just left the 48 bits. */
  lemma {:induction false} LimitsAreMet()
    ensures Next(U64_MAX, 5) == 0 && Next(0x10000, PHYSICAL_SPAN) == 0
    ensures After(0, Observe(U64_MAX)) == U64_MAX
  { }

  // --- any mix of calls ------------------------------------------------------------------------

  datatype Op = Now(wall: nat) | Observe(remote: Stamp)

  function After(last: Stamp, op: Op): Stamp {
    match op
    case Now(wall) => Next(last, wall)
    case Observe(remote) => Max(last, remote)
  }

  function State(last: Stamp, ops: seq<Op>): Stamp
    decreases |ops|
  {
    if ops == [] then last else After(State(last, ops[..|ops| - 1]), ops[|ops| - 1])
  }

  function Calls(ops: seq<Op>): nat {
    if ops == [] then 0 else Calls(ops[..|ops| - 1]) + (if ops[|ops| - 1].Now? then 1 else 0)
  }

  /** The largest of the start, every observed value and every wall reading, in raw units. */
  function Ceiling(last: nat, ops: seq<Op>): nat {
    if ops == [] then last
    else
      var op := ops[|ops| - 1];
      Max(Ceiling(last, ops[..|ops| - 1]), if op.Now? then op.wall * LOGICAL_SPAN else op.remote)
  }

  ghost predicate Readable(ops: seq<Op>) { forall i | 0 <= i < |ops| && ops[i].Now? :: ops[i].wall < PHYSICAL_SPAN }

  /** Readings run at most one raw unit per call past everything they were given. */
  lemma {:induction false} BoundedDrift(last: Stamp, ops: seq<Op>)
    requires Readable(ops) && Ceiling(last, ops) + Calls(ops) <= U64_MAX
    ensures State(last, ops) <= Ceiling(last, ops) + Calls(ops)
    decreases |ops|
  {
    if ops != [] {
      var front, op := ops[..|ops| - 1], ops[|ops| - 1];
      BoundedDrift(last, front);
      if op.Now? { NextIsMax(State(last, front), op.wall); }
    }
  }

  /** No call moves the clock back, and a reading moves it strictly forward. */
  lemma {:induction false} Monotone(last: Stamp, ops: seq<Op>, i: nat)
    requires i <= |ops| && Readable(ops) && Ceiling(last, ops) + Calls(ops) <= U64_MAX
    ensures State(last, ops[..i]) <= State(last, ops)
    ensures i < |ops| && ops[i].Now? ==> State(last, ops[..i]) < State(last, ops[..i + 1]) <= State(last, ops)
    ensures i < |ops| && ops[i].Observe? ==> ops[i].remote <= State(last, ops)
    decreases |ops| - i
  {
    if i == |ops| {
      assert ops[..i] == ops;
    } else {
      Monotone(last, ops, i + 1);
      var front := ops[..i];
      assert ops[..i + 1][..i] == front && ops[..i + 1][i] == ops[i];
      CeilingOfPrefix(last, ops, i);
      BoundedDrift(last, front);
      if ops[i].Now? {
        NextIsMax(State(last, front), ops[i].wall);
      }
    }
  }

  lemma {:induction false} CeilingOfPrefix(last: Stamp, ops: seq<Op>, i: nat)
    requires i <= |ops|
    ensures Ceiling(last, ops[..i]) <= Ceiling(last, ops) && Calls(ops[..i]) <= Calls(ops)
    ensures i < |ops| && ops[i].Now? ==> Calls(ops[..i]) < Calls(ops)
    decreases |ops|
  {
    if i < |ops| {
      var front := ops[..|ops| - 1];
      assert front[..i] == ops[..i];
      CeilingOfPrefix(last, front, i);
    } else {
      assert ops[..i] == ops;
    }
  }

  /** Two readings, whatever was observed and whatever the wall clock did in between, and an
      observation before a reading, are ordered. */
  lemma {:induction false} ReadingsStrictlyIncrease(last: Stamp, ops: seq<Op>, i: nat, j: nat)
    requires i < j < |ops| && ops[j].Now? && Readable(ops) && Ceiling(last, ops) + Calls(ops) <= U64_MAX
    ensures ops[i].Now? ==> State(last, ops[..i + 1]) < State(last, ops[..j + 1])
    ensures ops[i].Observe? ==> ops[i].remote < State(last, ops[..j + 1])
  {
    var upto := ops[..j];
    CeilingOfPrefix(last, ops, j);
    Monotone(last, ops, j);
    Monotone(last, upto, i);
    assert upto[..i + 1] == ops[..i + 1] && upto[i] == ops[i];
  }
}
