// Epoch fencing: the marker ledger, and the check / lock / confirm / mutate protocol
// (crates/ehdb-core/src/fence.rs, crates/ehdb-feed/src/fenced_engine.rs).

module Fence {
  import opened Basics

  // --- the ledger, called by one writer at a time --------------------------------------------

  datatype MarkerFile = Missing | Number(epoch: nat) | Garbage

  datatype Decision = Accepted(epoch: nat, advanced: bool) | Stale(observed: nat, highest: nat)

  datatype StorageError = UnreadableMarker | WriteFailed

  /** A marker write fails before its rename, or after it when the directory sync fails. */
  datatype WriteOutcome = Lost | Renamed | Synced

  /** The epoch the marker stands for; a marker that is not a number is an error, not 0. */
  function MarkerEpoch(m: MarkerFile): Option<nat> {
    match m
    case Missing => Some(0)
    case Number(e) => Some(e)
    case Garbage => None
  }

  /** Marker, high-water mark and answer after a check. */
  function CheckSpec(marker: MarkerFile, highest: nat, epoch: nat, outcome: WriteOutcome):
    (MarkerFile, nat, Result<Decision, StorageError>)
  {
    match MarkerEpoch(marker)
    case None => (marker, highest, Err(UnreadableMarker))
    case Some(before) =>
      var noted := Max(highest, before);
      if epoch < before then (marker, noted, Ok(Stale(epoch, before)))
      else if epoch == before then (marker, noted, Ok(Accepted(epoch, false)))
      else if outcome == Synced then (Number(epoch), Max(noted, epoch), Ok(Accepted(epoch, true)))
      else (if outcome == Renamed then Number(epoch) else marker, noted, Err(WriteFailed))
  }

  class FenceLedger {
    var marker: MarkerFile
    /** Highest epoch this process has read or written on the marker. */
    var highest: nat

    /** `outcome` is how the marker write goes, if it comes to one. */
    method CheckAndAdvance(epoch: nat, outcome: WriteOutcome) returns (r: Result<Decision, StorageError>)
      modifies this
      ensures (marker, highest, r) == CheckSpec(old(marker), old(highest), epoch, outcome)
      ensures r == Err(UnreadableMarker) <==> old(marker) == Garbage
      ensures r == Err(UnreadableMarker) ==> marker == old(marker) && highest == old(highest)
      ensures old(marker) != Garbage ==>
                var before := MarkerEpoch(old(marker)).value;
                && (r == Err(WriteFailed) <==> epoch > before && outcome != Synced)
                && (r == Err(WriteFailed) ==>
                      && marker == (if outcome == Renamed then Number(epoch) else old(marker))
                      && highest == Max(old(highest), before))
                && (r.Ok? ==>
                      && MarkerEpoch(marker) == Some(Max(before, epoch))
                      && (marker != old(marker) ==> epoch > before)
                      && highest == Max(old(highest), Max(before, epoch))
                      && r.value == if epoch < before then Stale(epoch, before) else Accepted(epoch, epoch > before))
    {
      var read := MarkerEpoch(marker);
      if read.None? { return Err(UnreadableMarker); }
      var h := read.value;
      highest := Max(highest, h);
      if epoch < h { return Ok(Stale(epoch, h)); }
      var advanced := epoch > h;
      if advanced {
        if outcome != Lost { marker := Number(epoch); }
        if outcome != Synced { return Err(WriteFailed); }
        highest := Max(highest, epoch);
      }
      return Ok(Accepted(epoch, advanced));
    }
  }

  // --- the protocol, step by step ---------------------------------------------------------------

  /** Where a writer stands between two shared-memory or file accesses. `c` is the epoch the
      check read from the writer's token, `h` what it read from the marker. */
  datatype Pc =
    | Idle
    | InMarker(c: nat)
    | HaveRead(c: nat, h: nat)
    | Noted(c: nat, h: nat)
    | Wrote(c: nat)
    | Checked(c: nat)
    | InEngine(c: nat)
    | Confirmed(epoch: nat)

  datatype Writer = Writer(token: nat, pc: Pc)

  /** A confirmation and what had been accepted before it. */
  datatype Confirmation = Confirmation(epoch: nat, accepted: set<nat>, highest: nat)

  datatype State = State(
    marker: nat,
    highest: nat,
    writers: seq<Writer>,
    accepted: set<nat>,
    confirmed: seq<Confirmation>,
    mutations: seq<nat>)

  datatype Act =
    | Enter(i: nat)
    | ReadMarker(i: nat)
    | Unreadable(i: nat)
    | NoteRead(i: nat)
    | Refuse(i: nat)
    | AcceptEqual(i: nat)
    | WriteMarker(i: nat)
    | WriteFails(i: nat, landed: bool)
    | NoteWritten(i: nat)
    | LockEngine(i: nat)
    | GiveUp(i: nat)
    | Confirm(i: nat)
    | ConfirmFails(i: nat)
    | Mutate(i: nat)
    | Unlock(i: nat)
    | SetToken(i: nat, token: nat)

  predicate HoldsMarker(pc: Pc) { pc.InMarker? || pc.HaveRead? || pc.Noted? || pc.Wrote? }

  predicate HoldsEngine(pc: Pc) { pc.InEngine? || pc.Confirmed? }

  ghost predicate NoneHoldsMarker(s: State) {
    forall j | 0 <= j < |s.writers| :: !HoldsMarker(s.writers[j].pc)
  }

  ghost predicate NoneHoldsEngine(s: State) {
    forall j | 0 <= j < |s.writers| :: !HoldsEngine(s.writers[j].pc)
  }

  /** Guards only; a token may change while its writer is between writes. */
  ghost predicate Enabled(s: State, a: Act) {
    && a.i < |s.writers|
    && var w := s.writers[a.i];
       match a
       case Enter(_) => w.pc.Idle? && NoneHoldsMarker(s)
       case ReadMarker(_) => w.pc.InMarker?
       case Unreadable(_) => w.pc.InMarker?
       case NoteRead(_) => w.pc.HaveRead?
       case Refuse(_) => w.pc.Noted? && w.pc.c < w.pc.h
       case AcceptEqual(_) => w.pc.Noted? && w.pc.c == w.pc.h
       case WriteMarker(_) => w.pc.Noted? && w.pc.c > w.pc.h
       case WriteFails(_, _) => w.pc.Noted? && w.pc.c > w.pc.h
       case NoteWritten(_) => w.pc.Wrote?
       case LockEngine(_) => w.pc.Checked? && NoneHoldsEngine(s)
       case GiveUp(_) => w.pc.Checked?
       case Confirm(_) => w.pc.InEngine? && w.token >= s.highest
       case ConfirmFails(_) => w.pc.InEngine? && w.token < s.highest
       case Mutate(_) => w.pc.Confirmed?
       case Unlock(_) => w.pc.Confirmed?
       case SetToken(_, _) => w.pc.Idle?
  }

  function At(s: State, i: nat, pc: Pc): State
    requires i < |s.writers|
  {
    s.(writers := s.writers[i := s.writers[i].(pc := pc)])
  }

  function Next(s: State, a: Act): State
    requires a.i < |s.writers|
  {
    var w := s.writers[a.i];
    match a
    case Enter(i) => At(s, i, InMarker(w.token))
    case ReadMarker(i) => if w.pc.InMarker? then At(s, i, HaveRead(w.pc.c, s.marker)) else s
    case Unreadable(i) => At(s, i, Idle)
    case NoteRead(i) => if w.pc.HaveRead? then At(s, i, Noted(w.pc.c, w.pc.h)).(highest := Max(s.highest, w.pc.h)) else s
    case Refuse(i) => At(s, i, Idle)
    case AcceptEqual(i) =>
      if w.pc.Noted? then At(s, i, Checked(w.pc.c)).(accepted := s.accepted + {w.pc.c}) else s
    case WriteMarker(i) => if w.pc.Noted? then At(s, i, Wrote(w.pc.c)).(marker := w.pc.c) else s
    case WriteFails(i, landed) =>
      if w.pc.Noted? then At(s, i, Idle).(marker := if landed then w.pc.c else s.marker) else s
    case NoteWritten(i) =>
      if w.pc.Wrote? then
        At(s, i, Checked(w.pc.c)).(highest := Max(s.highest, w.pc.c), accepted := s.accepted + {w.pc.c})
      else s
    case LockEngine(i) => if w.pc.Checked? then At(s, i, InEngine(w.pc.c)) else s
    case GiveUp(i) => At(s, i, Idle)
    case Confirm(i) =>
      At(s, i, Confirmed(w.token)).(confirmed := s.confirmed + [Confirmation(w.token, s.accepted, s.highest)])
    case ConfirmFails(i) => At(s, i, Idle)
    case Mutate(i) => if w.pc.Confirmed? then s.(mutations := s.mutations + [w.pc.epoch]) else s
    case Unlock(i) => At(s, i, Idle)
    case SetToken(i, t) => s.(writers := s.writers[i := w.(token := t)])
  }

  // --- what every step keeps ---------------------------------------------------------------------

  ghost predicate WriterOk(s: State, i: nat)
    requires i < |s.writers|
  {
    var w := s.writers[i];
    match w.pc
    case Idle => true
    case InMarker(c) => c == w.token
    case HaveRead(c, h) => c == w.token && h == s.marker
    case Noted(c, h) => c == w.token && h == s.marker && h <= s.highest
    case Wrote(c) => c == w.token && c == s.marker
    case Checked(c) => c == w.token && c in s.accepted
    case InEngine(c) => c == w.token && c in s.accepted
    case Confirmed(e) => s.confirmed != [] && e == s.confirmed[|s.confirmed| - 1].epoch
  }

  ghost predicate Exclusive(s: State) {
    && (forall i, j | 0 <= i < j < |s.writers| :: !(HoldsMarker(s.writers[i].pc) && HoldsMarker(s.writers[j].pc)))
    && (forall i, j | 0 <= i < j < |s.writers| :: !(HoldsEngine(s.writers[i].pc) && HoldsEngine(s.writers[j].pc)))
  }

  /** The confirmed epoch was accepted, is at least everything accepted before it, and is
      the process's high-water mark. */
  ghost predicate ConfirmationOk(c: Confirmation) {
    c.epoch in c.accepted && c.epoch == c.highest && forall a | a in c.accepted :: a <= c.epoch
  }

  ghost predicate Rising(xs: seq<nat>) { forall i, j | 0 <= i < j < |xs| :: xs[i] <= xs[j] }

  ghost predicate HistoryOk(s: State) {
    && (forall k | 0 <= k < |s.confirmed| :: ConfirmationOk(s.confirmed[k]) && s.confirmed[k].epoch <= s.highest)
    && (forall k, l | 0 <= k < l < |s.confirmed| :: s.confirmed[k].epoch <= s.confirmed[l].epoch)
    && Rising(s.mutations)
    && (s.mutations != [] ==>
          s.confirmed != [] && s.mutations[|s.mutations| - 1] <= s.confirmed[|s.confirmed| - 1].epoch)
  }

  ghost predicate Inv(s: State) {
    && s.highest <= s.marker
    && (forall a | a in s.accepted :: a <= s.highest)
    && Exclusive(s)
    && (forall i | 0 <= i < |s.writers| :: WriterOk(s, i))
    && HistoryOk(s)
  }

  /** All writers idle, whatever an earlier process left in the marker. */
  ghost predicate Start(s: State) {
    && s.highest == 0 && s.accepted == {} && s.confirmed == [] && s.mutations == []
    && forall i | 0 <= i < |s.writers| :: s.writers[i].pc.Idle?
  }

  lemma {:induction false} StartInv(s: State)
    requires Start(s)
    ensures Inv(s)
  { }

  lemma {:induction false} StepMonotone(s: State, a: Act)
    requires Inv(s) && Enabled(s, a)
    ensures Next(s, a).marker >= s.marker && Next(s, a).highest >= s.highest
    ensures Next(s, a).accepted >= s.accepted
    ensures s.confirmed <= Next(s, a).confirmed && s.mutations <= Next(s, a).mutations
  {
    assert WriterOk(s, a.i);
  }

  lemma {:induction false} StepWriters(s: State, a: Act, j: nat)
    requires Inv(s) && Enabled(s, a) && j < |s.writers|
    ensures |Next(s, a).writers| == |s.writers| && WriterOk(Next(s, a), j)
  {
    assert WriterOk(s, a.i) && WriterOk(s, j);
    StepMonotone(s, a);
    if j < a.i { ExclusivePair(s, j, a.i); } else if a.i < j { ExclusivePair(s, a.i, j); }
  }

  lemma {:induction false} ExclusivePair(s: State, i: nat, j: nat)
    requires Exclusive(s) && i < j < |s.writers|
    ensures !(HoldsMarker(s.writers[i].pc) && HoldsMarker(s.writers[j].pc))
    ensures !(HoldsEngine(s.writers[i].pc) && HoldsEngine(s.writers[j].pc))
  { }

  lemma {:induction false} StepExclusive(s: State, a: Act)
    requires Inv(s) && Enabled(s, a)
    ensures Exclusive(Next(s, a))
  {
    var s' := Next(s, a);
    forall i, j | 0 <= i < j < |s'.writers|
      ensures !(HoldsMarker(s'.writers[i].pc) && HoldsMarker(s'.writers[j].pc))
      ensures !(HoldsEngine(s'.writers[i].pc) && HoldsEngine(s'.writers[j].pc))
    {
    }
  }

  lemma {:induction false} StepHistory(s: State, a: Act)
    requires Inv(s) && Enabled(s, a)
    ensures HistoryOk(Next(s, a))
  {
    assert WriterOk(s, a.i);
  }

  lemma {:induction false} StepInv(s: State, a: Act)
    requires Inv(s) && Enabled(s, a)
    ensures Inv(Next(s, a))
  {
    var s' := Next(s, a);
    assert WriterOk(s, a.i);
    forall j | 0 <= j < |s'.writers| ensures WriterOk(s', j) { StepWriters(s, a, j); }
    StepExclusive(s, a);
    StepHistory(s, a);
  }

  // --- every interleaving ----------------------------------------------------------------------

  ghost predicate Runs(s: State, acts: seq<Act>)
    decreases |acts|
  {
    acts != [] ==> Enabled(s, acts[0]) && Runs(Next(s, acts[0]), acts[1..])
  }

  function Run(s: State, acts: seq<Act>): State
    requires Runs(s, acts)
    decreases |acts|
  {
    if acts == [] then s else Run(Next(s, acts[0]), acts[1..])
  }

  /** Over any interleaving of any number of writers: the marker and the high-water mark
      never fall; every confirmed epoch equals the highest accepted one at that moment;
      confirmed epochs, and the mutations made under them, never go back. */
  lemma {:induction false} FencingHolds(s: State, acts: seq<Act>)
    requires Inv(s) && Runs(s, acts)
    ensures var s' := Run(s, acts);
            && Inv(s')
            && s'.marker >= s.marker && s'.highest >= s.highest
            && (forall k | 0 <= k < |s'.confirmed| :: ConfirmationOk(s'.confirmed[k]))
            && (forall k, l | 0 <= k < l < |s'.confirmed| :: s'.confirmed[k].epoch <= s'.confirmed[l].epoch)
            && Rising(s'.mutations)
    decreases |acts|
  {
    if acts != [] {
      StepInv(s, acts[0]);
      StepMonotone(s, acts[0]);
      FencingHolds(Next(s, acts[0]), acts[1..]);
    }
  }

  // --- a token changed under a write in progress ------------------------------------------------

  /** `set_epoch` does not wait for writes in progress. */
  function ChangeToken(s: State, i: nat, token: nat): State
    requires i < |s.writers|
  {
    s.(writers := s.writers[i := s.writers[i].(token := token)])
  }

  /** A token changed between check and confirm leads to no wrong confirmation exactly when it
      is below the high-water mark, and so refused, or is at the mark and was itself accepted. */
  lemma {:induction false} ChangedTokenIff(s: State, i: nat, token: nat)
    requires Inv(s) && i < |s.writers| && s.writers[i].pc.InEngine?
    ensures var s1 := ChangeToken(s, i, token);
            (Enabled(s1, Confirm(i)) ==> ConfirmationOk(Next(s1, Confirm(i)).confirmed[|s.confirmed|]))
              <==> token < s.highest || (token == s.highest && token in s.accepted)
  { }

  lemma {:induction false} Then(s: State, acts: seq<Act>, a: Act)
    requires Runs(s, acts) && Enabled(Run(s, acts), a)
    ensures Runs(s, acts + [a]) && Run(s, acts + [a]) == Next(Run(s, acts), a)
    decreases |acts|
  {
    if acts == [] {
      assert acts + [a] == [a] && [a][1..] == [];
    } else {
      assert (acts + [a])[1..] == acts[1..] + [a];
      Then(Next(s, acts[0]), acts[1..], a);
    }
  }

  /** Being at the mark is not enough: a failed write whose rename landed raises the marker
      and, once another writer reads it, the mark, while nothing was accepted there. */
  lemma {:induction false} MarkWithoutAcceptance(low: nat, mid: nat, high: nat) returns (acts: seq<Act>, s: State)
    requires low < high && mid < high
    ensures var start := State(mid, 0, [Writer(mid, Idle), Writer(high, Idle), Writer(low, Idle)], {}, [], []);
            Start(start) && Runs(start, acts) && Run(start, acts) == s
    ensures |s.writers| == 3 && s.writers[0].pc == InEngine(mid) && s.highest == high && high !in s.accepted
    ensures Enabled(ChangeToken(s, 0, high), Confirm(0))
    ensures !ConfirmationOk(Next(ChangeToken(s, 0, high), Confirm(0)).confirmed[|s.confirmed|])
  {
    acts, s := RaisesMark(low, mid, high);
  }

  lemma {:induction false} RaisesMark(low: nat, mid: nat, high: nat) returns (acts: seq<Act>, s: State)
    requires low < high && mid < high
    ensures var start := State(mid, 0, [Writer(mid, Idle), Writer(high, Idle), Writer(low, Idle)], {}, [], []);
            Runs(start, acts) && Run(start, acts) == s
    ensures s == State(high, high, [Writer(mid, InEngine(mid)), Writer(high, Idle), Writer(low, Idle)], {mid}, [], [])
  {
    var idle1, idle2 := Writer(high, Idle), Writer(low, Idle);
    var in0 := Writer(mid, InEngine(mid));
    var start := State(mid, 0, [Writer(mid, Idle), idle1, idle2], {}, [], []);
    acts, s := AcceptedAtMark(start, [], start, 0);
    assert s == State(mid, mid, [in0, idle1, idle2], {mid}, [], []);
    acts, s := FailsToWrite(start, acts, s, 1, true);
    acts, s := Refused(start, acts, s, 2);
  }

  lemma {:induction false} AcceptsEqual(start: State, acts: seq<Act>, s: State, i: nat) returns (acts': seq<Act>, s': State)
    requires Runs(start, acts) && Run(start, acts) == s
    requires i < |s.writers| && s.writers[i].pc.Idle? && NoneHoldsMarker(s) && s.writers[i].token == s.marker
    ensures Runs(start, acts') && Run(start, acts') == s'
    ensures s' == At(s, i, Checked(s.marker)).(highest := Max(s.highest, s.marker), accepted := s.accepted + {s.marker})
  {
    acts', s' := NotesMarker(start, acts, s, i);
    acts', s' := Do(start, acts', s', AcceptEqual(i));
  }

  lemma {:induction false} AcceptedAtMark(start: State, acts: seq<Act>, s: State, i: nat) returns (acts': seq<Act>, s': State)
    requires Runs(start, acts) && Run(start, acts) == s
    requires i < |s.writers| && s.writers[i].pc.Idle? && NoneHoldsMarker(s) && s.writers[i].token == s.marker && NoneHoldsEngine(s)
    ensures Runs(start, acts') && Run(start, acts') == s'
    ensures s' == At(s, i, InEngine(s.marker)).(highest := Max(s.highest, s.marker), accepted := s.accepted + {s.marker})
  {
    acts', s' := AcceptsEqual(start, acts, s, i);
    acts', s' := Do(start, acts', s', LockEngine(i));
  }

  lemma {:induction false} Advances(start: State, acts: seq<Act>, s: State, i: nat) returns (acts': seq<Act>, s': State)
    requires Runs(start, acts) && Run(start, acts) == s
    requires i < |s.writers| && s.writers[i].pc.Idle? && NoneHoldsMarker(s) && s.writers[i].token > s.marker
    ensures Runs(start, acts') && Run(start, acts') == s'
    ensures s' == var token := s.writers[i].token;
                  At(s, i, Checked(token)).(marker := token, highest := Max(Max(s.highest, s.marker), token),
                                            accepted := s.accepted + {token})
  {
    acts', s' := NotesMarker(start, acts, s, i);
    acts', s' := Do(start, acts', s', WriteMarker(i));
    acts', s' := Do(start, acts', s', NoteWritten(i));
  }

  lemma {:induction false} FailsToWrite(start: State, acts: seq<Act>, s: State, i: nat, landed: bool) returns (acts': seq<Act>, s': State)
    requires Runs(start, acts) && Run(start, acts) == s
    requires i < |s.writers| && s.writers[i].pc.Idle? && NoneHoldsMarker(s) && s.writers[i].token > s.marker
    ensures Runs(start, acts') && Run(start, acts') == s'
    ensures s' == s.(marker := if landed then s.writers[i].token else s.marker, highest := Max(s.highest, s.marker))
  {
    acts', s' := NotesMarker(start, acts, s, i);
    acts', s' := Do(start, acts', s', WriteFails(i, landed));
    assert s'.writers == s.writers;
  }

  lemma {:induction false} Refused(start: State, acts: seq<Act>, s: State, i: nat) returns (acts': seq<Act>, s': State)
    requires Runs(start, acts) && Run(start, acts) == s
    requires i < |s.writers| && s.writers[i].pc.Idle? && NoneHoldsMarker(s) && s.writers[i].token < s.marker
    ensures Runs(start, acts') && Run(start, acts') == s'
    ensures s' == s.(highest := Max(s.highest, s.marker))
  {
    acts', s' := NotesMarker(start, acts, s, i);
    acts', s' := Do(start, acts', s', Refuse(i));
    assert s'.writers == s.writers;
  }

  lemma {:induction false} FailsToRead(start: State, acts: seq<Act>, s: State, i: nat) returns (acts': seq<Act>, s': State)
    requires Runs(start, acts) && Run(start, acts) == s
    requires i < |s.writers| && s.writers[i].pc.Idle? && NoneHoldsMarker(s)
    ensures Runs(start, acts') && Run(start, acts') == s'
    ensures s' == s
  {
    acts', s' := Do(start, acts, s, Enter(i));
    acts', s' := Do(start, acts', s', Unreadable(i));
    assert s'.writers == s.writers;
  }

  /** An idle writer takes the marker lock and reads. */
  lemma {:induction false} NotesMarker(start: State, acts: seq<Act>, s: State, i: nat) returns (acts': seq<Act>, s': State)
    requires Runs(start, acts) && Run(start, acts) == s
    requires i < |s.writers| && s.writers[i].pc.Idle? && NoneHoldsMarker(s)
    ensures Runs(start, acts') && Run(start, acts') == s'
    ensures s' == At(s, i, Noted(s.writers[i].token, s.marker)).(highest := Max(s.highest, s.marker))
  {
    acts', s' := Do(start, acts, s, Enter(i));
    acts', s' := Do(start, acts', s', ReadMarker(i));
    acts', s' := Do(start, acts', s', NoteRead(i));
  }

  lemma {:induction false} Do(start: State, acts: seq<Act>, s: State, a: Act) returns (acts': seq<Act>, s': State)
    requires Runs(start, acts) && Run(start, acts) == s && Enabled(s, a)
    ensures Runs(start, acts') && Run(start, acts') == s' == Next(s, a)
  {
    Then(start, acts, a);
    acts', s' := acts + [a], Next(s, a);
  }

  /** What a check by writer `i` leaves behind, as the ledger says it. */
  ghost predicate CheckedAs(s: State, s': State, i: nat, file: MarkerFile, outcome: WriteOutcome)
    requires i < |s.writers|
  {
    var token := s.writers[i].token;
    var (file', highest, r) := CheckSpec(file, s.highest, token, outcome);
    var accepted := r.Ok? && r.value.Accepted?;
    && (file == Garbage || MarkerEpoch(file') == Some(s'.marker))
    && s' == At(s, i, if accepted then Checked(token) else Idle)
             .(marker := s'.marker, highest := highest, accepted := s.accepted + if accepted then {token} else {})
    && (file == Garbage ==> s'.marker == s.marker)
  }

  /** The ledger called by one writer at a time is a run of the protocol: for every marker and
      every way its write can go, the steps of that writer end where the call does. */
  lemma {:induction false} LedgerIsProtocol(s: State, i: nat, file: MarkerFile, outcome: WriteOutcome)
    returns (acts: seq<Act>, s': State)
    requires i < |s.writers| && s.writers[i].pc.Idle? && NoneHoldsMarker(s)
    requires file == Garbage || MarkerEpoch(file) == Some(s.marker)
    ensures Runs(s, acts) && Run(s, acts) == s' && CheckedAs(s, s', i, file, outcome)
  {
    var token := s.writers[i].token;
    assert s.writers[i := s.writers[i].(pc := Idle)] == s.writers;
    if file == Garbage {
      acts, s' := FailsToRead(s, [], s, i);
    } else if token < s.marker {
      acts, s' := Refused(s, [], s, i);
    } else if token == s.marker {
      acts, s' := AcceptsEqual(s, [], s, i);
    } else if outcome == Synced {
      acts, s' := Advances(s, [], s, i);
    } else {
      acts, s' := FailsToWrite(s, [], s, i, outcome == Renamed);
    }
  }

  /** A writer alone in the protocol with an epoch above the marker gets through. */
  lemma {:induction false} NewerWriterGetsIn(s: State, i: nat) returns (acts: seq<Act>, s': State)
    requires s.highest <= s.marker && i < |s.writers| && s.writers[i].pc.Idle? && s.writers[i].token > s.marker
    requires NoneHoldsMarker(s) && NoneHoldsEngine(s)
    ensures Runs(s, acts) && Run(s, acts) == s'
    ensures |s'.confirmed| == |s.confirmed| + 1 && s.confirmed <= s'.confirmed
    ensures s'.confirmed[|s.confirmed|].epoch == s.writers[i].token
    ensures s'.mutations == s.mutations + [s.writers[i].token]
  {
    acts, s' := Advances(s, [], s, i);
    acts, s' := Do(s, acts, s', LockEngine(i));
    acts, s' := Do(s, acts, s', Confirm(i));
    acts, s' := Do(s, acts, s', Mutate(i));
  }

  /** And then confirmed epochs can go back: a writer raised past the mark mid-write is
      confirmed at its new token, and any idle writer at an epoch in between is accepted
      and confirmed after it. */
  lemma {:induction false} ChangedTokenGoesBack(s: State, i: nat, j: nat, token: nat) returns (acts: seq<Act>, s': State)
    requires Inv(s) && i < |s.writers| && j < |s.writers| && i != j
    requires s.writers[i].pc.InEngine? && NoneHoldsMarker(s)
    requires s.writers[j].pc.Idle? && s.marker < s.writers[j].token < token
    ensures Runs(ChangeToken(s, i, token), acts) && Run(ChangeToken(s, i, token), acts) == s'
    ensures |s'.confirmed| == |s.confirmed| + 2
    ensures s'.confirmed[|s.confirmed|].epoch == token
    ensures s'.confirmed[|s.confirmed| + 1].epoch == s.writers[j].token < token
  {
    var s1 := ChangeToken(s, i, token);
    var s2 := Next(s1, Confirm(i));
    var s3 := Next(s2, Unlock(i));
    assert NoneHoldsEngine(s3) by {
      forall k | 0 <= k < |s.writers| ensures !HoldsEngine(s3.writers[k].pc) {
        if k < i { ExclusivePair(s, k, i); } else if i < k { ExclusivePair(s, i, k); }
      }
    }
    acts, s' := NewerWriterGetsIn(s3, j);
    acts := [Unlock(i)] + acts;
    acts := [Confirm(i)] + acts;
  }
}
