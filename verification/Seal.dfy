// Sealing a feed writer against concurrent appenders (crates/ehdb-feed/src/lib.rs).
//
// Appenders look at the closed flag, take the engine lock, look again, append their batch
// record by record, release, and wait for the fsync. A sealer sets the flag, takes the lock,
// flushes, and releases.

module Seal {
  import opened Basics

  datatype Pc =
    | Idle
    | Passed(todo: nat)                  // saw the writer open, wants to append `todo` records
    | Locked(todo: nat)                  // holds the engine lock
    | Appending(first: nat, todo: nat)   // past the second look; appended from `first` on
    | Syncing(first: nat, end: nat)      // lock released; log[first..end] awaits its fsync
    | Flagged                            // a sealer: flag set
    | Sealing                            // a sealer: holds the engine lock
    | Flushed                            // a sealer: flushed, still holds the lock

  /** `second` says whether appenders look at the flag again under the lock. */
  datatype State = State(
    second: bool,
    closed: bool,
    log: seq<nat>,
    actors: seq<Pc>,
    acked: set<nat>,           // log positions whose append returned Ok
    sealedAt: Option<nat>)     // log length at the latest completed flush

  datatype Step =
    | LookOpen(i: nat, todo: nat)
    | Lock(i: nat)
    | LookAgain(i: nat)
    | FindSealed(i: nat)
    | AppendOne(i: nat, key: nat)
    | AppendFails(i: nat)
    | Release(i: nat)
    | SyncOk(i: nat)
    | SyncFails(i: nat)
    | SetFlag(i: nat)
    | LockToSeal(i: nat)
    | Flush(i: nat)
    | FlushFails(i: nat)
    | ReleaseSealed(i: nat)

  predicate Holds(pc: Pc) { pc.Locked? || pc.Appending? || pc.Sealing? || pc.Flushed? }

  ghost predicate Free(s: State) { forall j | 0 <= j < |s.actors| :: !Holds(s.actors[j]) }

  ghost predicate Enabled(s: State, step: Step) {
    && step.i < |s.actors|
    && var pc := s.actors[step.i];
       match step
       case LookOpen(_, todo) => pc.Idle? && !s.closed && todo > 0
       case Lock(_) => pc.Passed? && Free(s)
       case LookAgain(_) => pc.Locked? && (s.second ==> !s.closed)
       case FindSealed(_) => pc.Locked? && s.second && s.closed
       case AppendOne(_, _) => pc.Appending? && pc.todo > 0
       case AppendFails(_) => pc.Appending? && pc.todo > 0
       case Release(_) => pc.Appending? && pc.todo == 0
       case SyncOk(_) => pc.Syncing?
       case SyncFails(_) => pc.Syncing?
       case SetFlag(_) => pc.Idle?
       case LockToSeal(_) => pc.Flagged? && Free(s)
       case Flush(_) => pc.Sealing?
       case FlushFails(_) => pc.Sealing?
       case ReleaseSealed(_) => pc.Flushed?
  }

  function At(s: State, i: nat, pc: Pc): State
    requires i < |s.actors|
  {
    s.(actors := s.actors[i := pc])
  }

  ghost function Positions(first: nat, end: nat): (r: set<nat>)
    ensures forall p: nat :: p in r <==> first <= p < end
  {
    if end <= first then {} else Positions(first, end - 1) + {end - 1}
  }

  ghost function Next(s: State, step: Step): State
    requires Enabled(s, step)
  {
    var pc := s.actors[step.i];
    match step
    case LookOpen(i, todo) => At(s, i, Passed(todo))
    case Lock(i) => At(s, i, Locked(pc.todo))
    case LookAgain(i) => At(s, i, Appending(|s.log|, pc.todo))
    case FindSealed(i) => At(s, i, Idle)
    case AppendOne(i, k) => At(s, i, Appending(pc.first, pc.todo - 1)).(log := s.log + [k])
    case AppendFails(i) => At(s, i, Idle)
    case Release(i) => At(s, i, Syncing(pc.first, |s.log|))
    case SyncOk(i) => At(s, i, Idle).(acked := s.acked + Positions(pc.first, pc.end))
    case SyncFails(i) => At(s, i, Idle)
    case SetFlag(i) => At(s, i, Flagged).(closed := true)
    case LockToSeal(i) => At(s, i, Sealing)
    case Flush(i) => At(s, i, Flushed).(sealedAt := Some(|s.log|))
    case FlushFails(i) => At(s, i, Idle)
    case ReleaseSealed(i) => At(s, i, Idle)
  }

  ghost predicate ActorOk(s: State, i: nat)
    requires i < |s.actors|
  {
    match s.actors[i]
    case Appending(first, _) => first <= |s.log| && s.sealedAt.None?
    case Syncing(first, end) => first <= end <= |s.log|
    case Flagged => s.closed
    case Sealing => s.closed
    case Flushed => s.closed
    case _ => true
  }

  ghost predicate Inv(s: State) {
    && s.second
    && (s.sealedAt.Some? ==> s.closed && s.sealedAt.value == |s.log|)
    && (forall p | p in s.acked :: p < |s.log|)
    && (forall i, j | 0 <= i < j < |s.actors| :: !(Holds(s.actors[i]) && Holds(s.actors[j])))
    && (forall i | 0 <= i < |s.actors| :: ActorOk(s, i))
  }

  ghost predicate Start(s: State) {
    && !s.closed && s.log == [] && s.acked == {} && s.sealedAt.None?
    && forall i | 0 <= i < |s.actors| :: s.actors[i].Idle?
  }

  lemma {:induction false} Alone(s: State, i: nat, j: nat)
    requires Inv(s) && i < |s.actors| && j < |s.actors| && i != j && Holds(s.actors[i])
    ensures !Holds(s.actors[j])
  { }

  lemma {:induction false} StepActors(s: State, step: Step, j: nat)
    requires Inv(s) && Enabled(s, step) && j < |s.actors|
    ensures ActorOk(Next(s, step), j)
  {
    assert ActorOk(s, j) && ActorOk(s, step.i);
    if j != step.i && Holds(s.actors[step.i]) { Alone(s, step.i, j); }
  }

  lemma {:induction false} StepInv(s: State, step: Step)
    requires Inv(s) && Enabled(s, step)
    ensures Inv(Next(s, step))
  {
    var s' := Next(s, step);
    assert ActorOk(s, step.i);
    forall j | 0 <= j < |s'.actors| ensures ActorOk(s', j) { StepActors(s, step, j); }
    forall i, j | 0 <= i < j < |s'.actors| ensures !(Holds(s'.actors[i]) && Holds(s'.actors[j])) { }
  }

  ghost predicate Runs(s: State, steps: seq<Step>)
    decreases |steps|
  {
    steps != [] ==> Enabled(s, steps[0]) && Runs(Next(s, steps[0]), steps[1..])
  }

  ghost function Run(s: State, steps: seq<Step>): State
    requires Runs(s, steps)
    decreases |steps|
  {
    if steps == [] then s else Run(Next(s, steps[0]), steps[1..])
  }

  /** In every interleaving: once a seal's flush has completed the log never grows again,
      and every append that returned Ok, before or after, lies in the flushed log. */
  lemma {:induction false} NothingAfterTheSeal(s: State, steps: seq<Step>)
    requires Inv(s) && Runs(s, steps)
    ensures var s' := Run(s, steps);
            && Inv(s')
            && (s.sealedAt.Some? ==> s'.log == s.log && s'.sealedAt == s.sealedAt)
            && (s'.sealedAt.Some? ==> forall p | p in s'.acked :: p < s'.sealedAt.value)
    decreases |steps|
  {
    if steps != [] {
      StepInv(s, steps[0]);
      NothingAfterTheSeal(Next(s, steps[0]), steps[1..]);
    }
  }

  lemma {:induction false} StartInv(s: State)
    requires Start(s) && s.second
    ensures Inv(s)
  { }

  lemma {:induction false} Snoc(s: State, steps: seq<Step>, step: Step)
    requires Runs(s, steps) && Enabled(Run(s, steps), step)
    ensures Runs(s, steps + [step]) && Run(s, steps + [step]) == Next(Run(s, steps), step)
    decreases |steps|
  {
    if steps == [] {
      assert steps + [step] == [step] && [step][1..] == [];
    } else {
      assert (steps + [step])[1..] == steps[1..] + [step];
      Snoc(Next(s, steps[0]), steps[1..], step);
    }
  }

  lemma {:induction false} Do(start: State, steps: seq<Step>, s: State, step: Step) returns (steps': seq<Step>, s': State)
    requires Runs(start, steps) && Run(start, steps) == s && Enabled(s, step)
    ensures Runs(start, steps') && Run(start, steps') == s' == Next(s, step)
  {
    Snoc(start, steps, step);
    steps', s' := steps + [step], Next(s, step);
  }

  /** A sealer from its flag to its release, while nobody holds the lock. */
  lemma {:induction false} SealsUndisturbed(start: State, steps: seq<Step>, s: State, i: nat) returns (steps': seq<Step>, s': State)
    requires Runs(start, steps) && Run(start, steps) == s && i < |s.actors| && s.actors[i].Idle? && Free(s)
    ensures Runs(start, steps') && Run(start, steps') == s' == s.(closed := true, sealedAt := Some(|s.log|))
  {
    var flagged := At(s, i, Flagged).(closed := true);
    var flushed := At(s, i, Flushed).(closed := true, sealedAt := Some(|s.log|));
    steps', s' := Do(start, steps, s, SetFlag(i));
    assert s' == flagged;
    steps', s' := SealsFrom(start, steps', flagged, i);
    assert s' == flushed;
    steps', s' := Do(start, steps', s', ReleaseSealed(i));
    assert s.actors[i := Idle] == s.actors;
  }

  lemma {:induction false} SealsFrom(start: State, steps: seq<Step>, s: State, i: nat) returns (steps': seq<Step>, s': State)
    requires Runs(start, steps) && Run(start, steps) == s && i < |s.actors| && s.actors[i].Flagged? && Free(s)
    ensures Runs(start, steps') && Run(start, steps') == s' == At(s, i, Flushed).(sealedAt := Some(|s.log|))
  {
    steps', s' := Do(start, steps, s, LockToSeal(i));
    steps', s' := Do(start, steps', s', Flush(i));
  }

  /** An appender that has passed its first look, to its ack: the writer is open, or there is no
      second look. */
  lemma {:induction false} Appends(start: State, steps: seq<Step>, s: State, i: nat) returns (steps': seq<Step>, s': State)
    requires Runs(start, steps) && Run(start, steps) == s && i < |s.actors| && s.actors[i] == Passed(1) && Free(s)
    requires s.second ==> !s.closed
    ensures Runs(start, steps') && Run(start, steps') == s'
    ensures s'.sealedAt == s.sealedAt && |s'.log| == |s.log| + 1 && |s.log| in s'.acked
  {
    steps', s' := Do(start, steps, s, Lock(i));
    steps', s' := Do(start, steps', s', LookAgain(i));
    steps', s' := Do(start, steps', s', AppendOne(i, 7));
    steps', s' := Do(start, steps', s', Release(i));
    steps', s' := Do(start, steps', s', SyncOk(i));
  }

  /** The second look is what carries this: without it a record is acked that no flush holds. */
  lemma {:induction false} OneLookLosesARecord(s: State) returns (steps: seq<Step>, s': State)
    requires Start(s) && !s.second && |s.actors| >= 2
    ensures Runs(s, steps) && Run(s, steps) == s'
    ensures s'.sealedAt == Some(0) && 0 in s'.acked
  {
    steps, s' := Do(s, [], s, LookOpen(0, 1));
    steps, s' := SealsUndisturbed(s, steps, s', 1);
    steps, s' := Appends(s, steps, s', 0);
  }

  /** A writer nobody seals takes an append and acks it. */
  lemma {:induction false} OpenWriterAppends(s: State) returns (steps: seq<Step>, s': State)
    requires Start(s) && |s.actors| >= 1
    ensures Runs(s, steps) && Run(s, steps) == s'
    ensures |s'.log| == 1 && 0 in s'.acked && s'.sealedAt.None?
  {
    steps, s' := Do(s, [], s, LookOpen(0, 1));
    steps, s' := Appends(s, steps, s', 0);
  }
}
