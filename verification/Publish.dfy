// The pipelined publish connection and the group-committing server behind it
// (crates/ehdb-feed/src/publish.rs).
//
// Requests are numbered in submission order. The client's writer and reader tasks, the two
// socket directions, the server's decode queue and its committer are interleaved step by step.

module Publish {
  import opened Basics

  datatype WriterPc = Receiving | Queueing(n: nat) | Sending(n: nat) | Failing | Ended

  datatype ReaderPc = Reading | Aborting | Done

  datatype Outcome = Got(key: nat) | Closed

  /** A record in the log, under the key the writer gave it. */
  datatype Entry = Entry(key: nat, record: nat)

  /** What the writer answers for one record: a fresh key, or for a duplicate the key it has. */
  datatype Answer = Answer(key: nat, isNew: bool)

  datatype State = State(
    count: nat,                  // requests submitted so far
    channel: seq<nat>,           // accepted, not yet taken by the writer task
    writer: WriterPc,
    queued: seq<nat>,            // history: requests whose waiter was queued, in order
    waiters: seq<nat>,
    cleared: bool,               // some task has cleared the waiter queue
    answered: nat,               // acks read so far
    reader: ReaderPc,
    wire: seq<nat>,              // frames on the socket, toward the server
    inbox: seq<nat>,             // decoded, waiting for the committer
    batch: seq<nat>,             // taken by the committer
    served: seq<nat>,            // history: requests appended to the log, in order
    keys: seq<nat>,              // history: the key each of them was assigned
    toAck: seq<nat>,             // acks the committer still has to write
    serving: bool,
    acks: seq<nat>,              // acks on the socket, toward the client
    log: seq<Entry>,
    outcomes: map<nat, Outcome>,
    record: nat -> nat)          // the record each request publishes; duplicates share one

  datatype Step =
    | Submit
    | Take
    | Queue
    | SendFrame
    | SendFails(landed: bool)
    | WriterClears
    | ReadAck
    | ReadFails
    | AbortWriter(landed: bool)
    | ReaderClears
    | DropQueue
    | Decode
    | TakeBatch(n: nat)
    | Commit(answers: seq<Answer>)
    | CommitFails(answers: seq<Answer>)
    | SendAck
    | ServerStops
    | OtherAppend(key: nat, record: nat)

  const MAX_COMMIT_BATCH: nat := 512

  function Tip(log: seq<Entry>): nat { if log == [] then 0 else log[|log| - 1].key }

  /** The log once the first requests of a batch have been answered. */
  function Grown(s: State, batch: seq<nat>, answers: seq<Answer>): seq<Entry>
    requires |answers| <= |batch|
    decreases |answers|
  {
    if answers == [] then s.log
    else
      var i := |answers| - 1;
      var before := Grown(s, batch, answers[..i]);
      if answers[i].isNew then before + [Entry(answers[i].key, s.record(batch[i]))] else before
  }

  /** A fresh key is above every key before it; any other is one the record already has. */
  ghost predicate Answerable(s: State, batch: seq<nat>, answers: seq<Answer>)
    decreases |answers|
  {
    && |answers| <= |batch|
    && (answers != [] ==>
          var i := |answers| - 1;
          && Answerable(s, batch, answers[..i])
          && var before := Grown(s, batch, answers[..i]);
             if answers[i].isNew then answers[i].key > Tip(before)
             else Entry(answers[i].key, s.record(batch[i])) in before)
  }

  function KeysOf(answers: seq<Answer>): seq<nat> { seq(|answers|, i requires 0 <= i < |answers| => answers[i].key) }

  ghost predicate Enabled(s: State, step: Step) {
    match step
    case Submit => true
    case Take => s.writer.Receiving? && s.channel != []
    case Queue => s.writer.Queueing?
    case SendFrame => s.writer.Sending?
    case SendFails(_) => s.writer.Sending?
    case WriterClears => s.writer.Failing?
    case ReadAck => s.reader.Reading? && s.acks != []
    case ReadFails => s.reader.Reading?
    case AbortWriter(_) => !s.reader.Reading? && (s.writer.Receiving? || s.writer.Sending?)
    case ReaderClears => s.reader.Aborting?
    case DropQueue => s.writer.Ended? && s.reader.Done?
    case Decode => s.serving && s.wire != []
    case TakeBatch(n) => s.serving && s.batch == [] && s.toAck == [] && 1 <= n <= |s.inbox| && n <= MAX_COMMIT_BATCH
    case Commit(answers) => s.serving && s.batch != [] && |answers| == |s.batch| && Answerable(s, s.batch, answers)
    case CommitFails(answers) => s.serving && Answerable(s, s.batch, answers)
    case SendAck => s.serving && s.toAck != []
    case ServerStops => s.serving
    case OtherAppend(k, _) => k > Tip(s.log)
  }

  /** Requests whose sender is dropped learn that the connection closed. */
  function CloseAll(outcomes: map<nat, Outcome>, ns: seq<nat>): map<nat, Outcome> {
    if ns == [] then outcomes else CloseAll(outcomes, ns[..|ns| - 1])[ns[|ns| - 1] := Closed]
  }

  ghost function Next(s: State, step: Step): State
    requires Enabled(s, step)
  {
    match step
    case Submit =>
      if s.writer.Ended? then s.(count := s.count + 1, outcomes := s.outcomes[s.count := Closed])
      else s.(count := s.count + 1, channel := s.channel + [s.count])
    case Take => s.(channel := s.channel[1..], writer := Queueing(s.channel[0]))
    case Queue =>
      s.(waiters := s.waiters + [s.writer.n], queued := s.queued + [s.writer.n], writer := Sending(s.writer.n))
    case SendFrame => s.(wire := s.wire + [s.writer.n], writer := Receiving)
    case SendFails(landed) =>
      s.(wire := if landed then s.wire + [s.writer.n] else s.wire, writer := Failing)
    case WriterClears =>
      s.(outcomes := CloseAll(s.outcomes, s.waiters + s.channel), waiters := [], channel := [],
         cleared := true, writer := Ended)
    case ReadAck =>
      var s' := s.(acks := s.acks[1..], answered := s.answered + 1);
      if s.waiters == [] then s'.(reader := Aborting)
      else s'.(waiters := s.waiters[1..], outcomes := s.outcomes[s.waiters[0] := Got(s.acks[0])])
    case ReadFails => s.(reader := Aborting)
    case AbortWriter(landed) =>
      s.(wire := if landed && s.writer.Sending? then s.wire + [s.writer.n] else s.wire,
         outcomes := CloseAll(s.outcomes, s.channel), channel := [], writer := Ended)
    case ReaderClears =>
      s.(outcomes := CloseAll(s.outcomes, s.waiters), waiters := [], cleared := true, reader := Done)
    case DropQueue => s.(outcomes := CloseAll(s.outcomes, s.waiters), waiters := [])
    case Decode => s.(inbox := s.inbox + [s.wire[0]], wire := s.wire[1..])
    case TakeBatch(n) => s.(batch := s.inbox[..n], inbox := s.inbox[n..])
    case Commit(answers) =>
      s.(log := Grown(s, s.batch, answers), served := s.served + s.batch, keys := s.keys + KeysOf(answers),
         toAck := KeysOf(answers), batch := [])
    case CommitFails(answers) =>
      var done := |answers|;
      s.(log := Grown(s, s.batch, answers), served := s.served + s.batch[..done], keys := s.keys + KeysOf(answers),
         batch := s.batch[done..], serving := false)
    case SendAck => s.(acks := s.acks + [s.toAck[0]], toAck := s.toAck[1..])
    case ServerStops => s.(serving := false)
    case OtherAppend(k, r) => s.(log := s.log + [Entry(k, r)])
  }

  // --- what every step keeps --------------------------------------------------------------------

  /** Every frame that reached the socket, in the order it did. */
  function Landed(s: State): seq<nat> { s.served + s.batch + s.inbox + s.wire }

  /** Frames go out in waiter order, one behind at most while the writer task lives. */
  ghost predicate FramesFollowWaiters(s: State) {
    match s.writer
    case Receiving => Landed(s) == s.queued
    case Queueing(_) => Landed(s) == s.queued
    case Sending(n) => s.queued == Landed(s) + [n]
    case _ => Landed(s) <= s.queued
  }

  /** The waiter queue is the queued-but-unanswered requests until a task clears it. */
  ghost predicate WaitersAreUnanswered(s: State) {
    if !s.cleared then !s.reader.Done? && s.answered <= |s.queued| && s.waiters == s.queued[s.answered..]
    else s.reader.Reading? ==> s.waiters == [] && s.writer.Ended?
  }

  /** Acks on the way are the keys of the served requests not yet answered. */
  ghost predicate AcksFollowKeys(s: State) {
    && |s.keys| == |s.served| && s.answered <= |s.keys|
    && s.acks + s.toAck <= s.keys[s.answered..]
    && (s.serving ==> s.acks + s.toAck == s.keys[s.answered..])
  }

  ghost predicate Logged(s: State, i: nat)
    requires i < |s.served| && i < |s.keys|
  {
    Entry(s.keys[i], s.record(s.served[i])) in s.log
  }

  ghost predicate AnsweredRightly(s: State, n: nat) {
    n in s.outcomes && s.outcomes[n].Got? ==>
      exists i: nat :: i < |s.served| && i < |s.keys| && s.served[i] == n && s.outcomes[n].key == s.keys[i]
  }

  ghost predicate Inv(s: State) {
    && FramesFollowWaiters(s)
    && WaitersAreUnanswered(s)
    && AcksFollowKeys(s)
    && (s.batch != [] ==> s.toAck == [])
    && (forall i | 0 <= i < |s.served| :: Logged(s, i))
    && (forall n | n in s.outcomes :: AnsweredRightly(s, n))
    && RisingKeys(s.log)
  }

  ghost predicate RisingKeys(log: seq<Entry>) { forall i, j | 0 <= i < j < |log| :: log[i].key < log[j].key }

  function Start(record: nat -> nat): State {
    State(0, [], Receiving, [], [], false, 0, Reading, [], [], [], [], [], [], true, [], [], map[], record)
  }

  lemma {:induction false} StartInv(record: nat -> nat)
    ensures Inv(Start(record))
  { }

  /** An ack never finds the queue empty before it has been cleared. */
  lemma {:induction false} AckHasItsWaiter(s: State)
    requires Inv(s) && s.acks != [] && !s.cleared
    ensures s.waiters != [] && s.answered < |s.served|
    ensures s.waiters[0] == s.served[s.answered] && s.acks[0] == s.keys[s.answered]
  { }

  lemma {:induction false} CloseAllIs(outcomes: map<nat, Outcome>, ns: seq<nat>, n: nat)
    ensures n in CloseAll(outcomes, ns) <==> n in outcomes || n in ns
    ensures n in ns ==> CloseAll(outcomes, ns)[n] == Closed
    ensures n !in ns && n in outcomes ==> CloseAll(outcomes, ns)[n] == outcomes[n]
  {
    if ns != [] {
      var front := ns[..|ns| - 1];
      CloseAllIs(outcomes, front, n);
    }
  }

  /** Closing waiters answers nobody wrongly. */
  lemma {:induction false} ClosingKeeps(s: State, s': State, ns: seq<nat>)
    requires forall n | n in s.outcomes :: AnsweredRightly(s, n)
    requires s'.served == s.served && s'.keys == s.keys && s'.outcomes == CloseAll(s.outcomes, ns)
    ensures forall n | n in s'.outcomes :: AnsweredRightly(s', n)
  {
    forall n | n in s'.outcomes ensures AnsweredRightly(s', n) {
      CloseAllIs(s.outcomes, ns, n);
      if n !in ns { assert AnsweredRightly(s, n); }
    }
  }

  lemma {:induction false} SubmitInv(s: State)
    requires Inv(s)
    ensures Inv(Next(s, Submit))
  {
    var s' := Next(s, Submit);
    forall i | 0 <= i < |s'.served| ensures Logged(s', i) { assert Logged(s, i); }
    forall n | n in s'.outcomes ensures AnsweredRightly(s', n) {
      if n in s.outcomes { assert AnsweredRightly(s, n); }
    }
  }

  /** Steps of the client's writer task before it ends. */
  lemma {:induction false} WriterInv(s: State, step: Step)
    requires Inv(s) && Enabled(s, step) && (step.Take? || step.Queue? || step.SendFrame? || step.SendFails?)
    ensures Inv(Next(s, step))
  {
    var s' := Next(s, step);
    forall i | 0 <= i < |s'.served| ensures Logged(s', i) { assert Logged(s, i); }
    forall n | n in s'.outcomes ensures AnsweredRightly(s', n) { assert AnsweredRightly(s, n); }
  }

  lemma {:induction false} ClearInv(s: State, step: Step)
    requires Inv(s) && Enabled(s, step)
    requires step.WriterClears? || step.AbortWriter? || step.ReaderClears? || step.DropQueue?
    ensures Inv(Next(s, step))
  {
    var s' := Next(s, step);
    forall i | 0 <= i < |s'.served| ensures Logged(s', i) { assert Logged(s, i); }
    ClosingKeeps(s, s', match step
                        case WriterClears => s.waiters + s.channel
                        case AbortWriter(_) => s.channel
                        case _ => s.waiters);
  }

  lemma {:induction false} AckKeepsKeys(s: State)
    requires Inv(s) && Enabled(s, ReadAck)
    ensures AcksFollowKeys(Next(s, ReadAck)) && WaitersAreUnanswered(Next(s, ReadAck))
  {
    if !s.cleared { AckHasItsWaiter(s); }
    var rest := s.keys[s.answered..];
    assert (s.acks + s.toAck)[0] == s.acks[0] && rest[0] == s.acks[0];
    assert s.acks[1..] + s.toAck == (s.acks + s.toAck)[1..] && rest[1..] == s.keys[s.answered + 1..];
  }

  lemma {:induction false} AckAnswersRightly(s: State, n: nat)
    requires Inv(s) && Enabled(s, ReadAck) && n in Next(s, ReadAck).outcomes
    ensures AnsweredRightly(Next(s, ReadAck), n)
  {
    var s' := Next(s, ReadAck);
    if n in s.outcomes && s'.outcomes[n] == s.outcomes[n] {
      assert AnsweredRightly(s, n);
    } else {
      AckHasItsWaiter(s);
      assert s.served[s.answered] == n && s.keys[s.answered] == s.acks[0];
    }
  }

  lemma {:induction false} ReadInv(s: State, step: Step)
    requires Inv(s) && Enabled(s, step) && (step.ReadAck? || step.ReadFails?)
    ensures Inv(Next(s, step))
  {
    var s' := Next(s, step);
    forall i | 0 <= i < |s'.served| ensures Logged(s', i) { assert Logged(s, i); }
    if step.ReadAck? { AckKeepsKeys(s); }
    forall n | n in s'.outcomes ensures AnsweredRightly(s', n) {
      if step.ReadAck? { AckAnswersRightly(s, n); } else { assert AnsweredRightly(s, n); }
    }
  }

  lemma {:induction false} LandedMoves(s: State, step: Step)
    requires Enabled(s, step) && (step.Decode? || step.TakeBatch? || step.SendAck? || step.ServerStops?)
    ensures Landed(Next(s, step)) == Landed(s)
  {
    if step.Decode? {
      Regroup(s.served + s.batch, s.inbox, [s.wire[0]], s.wire[1..]);
      assert s.wire == [s.wire[0]] + s.wire[1..];
    } else if step.TakeBatch? {
      Regroup(s.served, s.inbox[..step.n], s.inbox[step.n..], s.wire);
      assert s.inbox == s.inbox[..step.n] + s.inbox[step.n..] && s.served + [] == s.served;
    }
  }

  lemma {:induction false} Regroup(a: seq<nat>, b: seq<nat>, c: seq<nat>, d: seq<nat>)
    ensures a + b + (c + d) == a + (b + c) + d == a + b + c + d
  { }

  lemma {:induction false} ServerInv(s: State, step: Step)
    requires Inv(s) && Enabled(s, step)
    requires step.Decode? || step.TakeBatch? || step.SendAck? || step.ServerStops?
    ensures Inv(Next(s, step))
  {
    var s' := Next(s, step);
    LandedMoves(s, step);
    if step.SendAck? { assert s.acks + [s.toAck[0]] + s.toAck[1..] == s.acks + s.toAck; }
    forall i | 0 <= i < |s'.served| ensures Logged(s', i) { assert Logged(s, i); }
    forall n | n in s'.outcomes ensures AnsweredRightly(s', n) { assert AnsweredRightly(s, n); }
  }

  /** Answering a batch keeps what the log holds, its order, and puts each answered record
      under the key it was answered with. */
  lemma {:induction false} GrownHolds(s: State, batch: seq<nat>, answers: seq<Answer>)
    requires RisingKeys(s.log) && Answerable(s, batch, answers)
    ensures s.log <= Grown(s, batch, answers) && RisingKeys(Grown(s, batch, answers))
    ensures forall i | 0 <= i < |answers| :: Entry(answers[i].key, s.record(batch[i])) in Grown(s, batch, answers)
    decreases |answers|
  {
    if answers != [] {
      var i := |answers| - 1;
      var before, after := Grown(s, batch, answers[..i]), Grown(s, batch, answers);
      GrownHolds(s, batch, answers[..i]);
      forall j | 0 <= j < |answers| ensures Entry(answers[j].key, s.record(batch[j])) in after {
        if j < i { assert answers[..i][j] == answers[j]; }
      }
      forall j, k | 0 <= j < k < |after| ensures after[j].key < after[k].key {
        if k == |before| { assert before[j].key <= Tip(before); }
      }
    }
  }

  /** The first requests of the batch answered. */
  lemma {:induction false} CommitLog(s: State, s': State, answers: seq<Answer>)
    requires Inv(s) && Answerable(s, s.batch, answers) && s'.record == s.record
    requires s'.log == Grown(s, s.batch, answers) && s'.outcomes == s.outcomes
    requires s'.served == s.served + s.batch[..|answers|] && s'.keys == s.keys + KeysOf(answers)
    ensures RisingKeys(s'.log) && |s'.keys| == |s'.served| && forall i | 0 <= i < |s'.served| :: Logged(s', i)
    ensures forall n | n in s'.outcomes :: AnsweredRightly(s', n)
  {
    GrownHolds(s, s.batch, answers);
    forall i | 0 <= i < |s'.served| ensures Logged(s', i) {
      if i < |s.served| { assert Logged(s, i); }
    }
    forall n | n in s'.outcomes ensures AnsweredRightly(s', n) {
      if s.outcomes[n].Got? {
        assert AnsweredRightly(s, n);
        var i: nat :| i < |s.served| && i < |s.keys| && s.served[i] == n && s.outcomes[n].key == s.keys[i];
        assert s'.served[i] == n && s'.keys[i] == s.keys[i];
      }
    }
  }

  lemma {:induction false} LandedCommitted(s: State, s': State, done: seq<nat>)
    requires s.batch == done + s'.batch && s'.served == s.served + done && s'.inbox == s.inbox && s'.wire == s.wire
    ensures Landed(s') == Landed(s)
  { }

  lemma {:induction false} CommitInv(s: State, answers: seq<Answer>)
    requires Inv(s) && Enabled(s, Commit(answers))
    ensures Inv(Next(s, Commit(answers)))
  {
    var s' := Next(s, Commit(answers));
    assert s.batch[..|answers|] == s.batch;
    CommitLog(s, s', answers);
    LandedCommitted(s, s', s.batch);
  }

  lemma {:induction false} CommitFailsInv(s: State, answers: seq<Answer>)
    requires Inv(s) && Enabled(s, CommitFails(answers))
    ensures Inv(Next(s, CommitFails(answers)))
  {
    var s' := Next(s, CommitFails(answers));
    CommitLog(s, s', answers);
    CommitFailsQueues(s, answers);
  }

  lemma {:induction false} CommitFailsQueues(s: State, answers: seq<Answer>)
    requires Inv(s) && Enabled(s, CommitFails(answers))
    ensures var s' := Next(s, CommitFails(answers));
            FramesFollowWaiters(s') && WaitersAreUnanswered(s') && AcksFollowKeys(s') && (s'.batch != [] ==> s'.toAck == [])
  {
    LandedCommitted(s, Next(s, CommitFails(answers)), s.batch[..|answers|]);
  }

  lemma {:induction false} OtherInv(s: State, k: nat, r: nat)
    requires Inv(s) && Enabled(s, OtherAppend(k, r))
    ensures Inv(Next(s, OtherAppend(k, r)))
  {
    var s' := Next(s, OtherAppend(k, r));
    forall i, j | 0 <= i < j < |s'.log| ensures s'.log[i].key < s'.log[j].key {
      if i < |s.log| <= j { assert s.log[i].key <= Tip(s.log); }
    }
    forall i | 0 <= i < |s'.served| ensures Logged(s', i) { assert Logged(s, i); }
    forall n | n in s'.outcomes ensures AnsweredRightly(s', n) { assert AnsweredRightly(s, n); }
  }

  lemma {:induction false} StepInv(s: State, step: Step)
    requires Inv(s) && Enabled(s, step)
    ensures Inv(Next(s, step))
  {
    match step
    case Submit => SubmitInv(s);
    case Take => WriterInv(s, step);
    case Queue => WriterInv(s, step);
    case SendFrame => WriterInv(s, step);
    case SendFails(_) => WriterInv(s, step);
    case WriterClears => ClearInv(s, step);
    case AbortWriter(_) => ClearInv(s, step);
    case ReaderClears => ClearInv(s, step);
    case DropQueue => ClearInv(s, step);
    case ReadAck => ReadInv(s, step);
    case ReadFails => ReadInv(s, step);
    case Decode => ServerInv(s, step);
    case TakeBatch(_) => ServerInv(s, step);
    case SendAck => ServerInv(s, step);
    case ServerStops => ServerInv(s, step);
    case Commit(answers) => CommitInv(s, answers);
    case CommitFails(answers) => CommitFailsInv(s, answers);
    case OtherAppend(k, r) => OtherInv(s, k, r);
  }

  // --- no request is left waiting -----------------------------------------------------------------

  /** Where an unanswered request still is. */
  ghost predicate Held(s: State, n: nat) {
    n in s.channel || s.writer == Queueing(n) || n in s.waiters
  }

  ghost predicate Accounted(s: State) {
    && (forall n: nat | n < s.count :: n in s.outcomes || Held(s, n))
    && (s.writer.Ended? ==> s.channel == [])
  }

  lemma {:induction false} StepAccounted(s: State, step: Step, n: nat)
    requires Accounted(s) && Enabled(s, step) && n < Next(s, step).count
    ensures n in Next(s, step).outcomes || Held(Next(s, step), n)
  {
    if n < s.count { assert n in s.outcomes || Held(s, n); }
    match step
    case WriterClears => CloseAllIs(s.outcomes, s.waiters + s.channel, n);
    case AbortWriter(_) => CloseAllIs(s.outcomes, s.channel, n);
    case ReaderClears => CloseAllIs(s.outcomes, s.waiters, n);
    case DropQueue => CloseAllIs(s.outcomes, s.waiters, n);
    case Take => assert n in s.channel ==> n == s.channel[0] || n in s.channel[1..];
    case ReadAck => assert n in s.waiters ==> n == s.waiters[0] || n in s.waiters[1..];
    case Submit => assert n == s.count && !s.writer.Ended? ==> n in s.channel + [s.count];
    case Queue => assert n == s.writer.n ==> n in s.waiters + [n];
    case _ =>
  }

  lemma {:induction false} StepAllAccounted(s: State, step: Step)
    requires Accounted(s) && Enabled(s, step)
    ensures Accounted(Next(s, step))
  {
    var s' := Next(s, step);
    forall n: nat | n < s'.count ensures n in s'.outcomes || Held(s', n) { StepAccounted(s, step, n); }
  }

  // --- none is answered twice ---------------------------------------------------------------------

  /** The unanswered requests, oldest first. */
  function InHand(s: State): seq<nat> {
    s.waiters + (if s.writer.Queueing? then [s.writer.n] else []) + s.channel
  }

  /** Each is held once and has no outcome yet. */
  ghost predicate HeldOnce(s: State) {
    var h := InHand(s);
    && (forall i, j | 0 <= i < j < |h| :: h[i] != h[j])
    && (forall i | 0 <= i < |h| :: h[i] < s.count && h[i] !in s.outcomes)
    && (forall n | n in s.outcomes :: n < s.count)
  }

  /** No outcome is taken back or replaced. */
  ghost predicate Stand(before: map<nat, Outcome>, after: map<nat, Outcome>) {
    forall n | n in before :: n in after && after[n] == before[n]
  }

  /** A step that answers the first `a` requests in hand and those from `b` on. */
  lemma {:induction false} Answering(s: State, s': State, a: nat, b: nat)
    requires HeldOnce(s) && a <= b <= |InHand(s)| && s'.count == s.count && InHand(s') == InHand(s)[a..b]
    requires forall n :: n in s'.outcomes <==> n in s.outcomes || n in InHand(s)[..a] || n in InHand(s)[b..]
    requires forall n | n in s.outcomes && n !in InHand(s) :: s'.outcomes[n] == s.outcomes[n]
    ensures HeldOnce(s') && Stand(s.outcomes, s'.outcomes)
  {
    var h := InHand(s);
    forall i | 0 <= i < b - a ensures h[a..b][i] !in s'.outcomes {
      var n := h[a..b][i];
      assert n == h[a + i];
    }
  }

  lemma {:induction false} ClosingIsAnswering(s: State, s': State, a: nat, b: nat, ns: seq<nat>)
    requires HeldOnce(s) && a <= b <= |InHand(s)| && s'.count == s.count && InHand(s') == InHand(s)[a..b]
    requires s'.outcomes == CloseAll(s.outcomes, ns) && forall n :: n in ns <==> n in InHand(s)[..a] || n in InHand(s)[b..]
    ensures HeldOnce(s') && Stand(s.outcomes, s'.outcomes)
  {
    forall n ensures n in s'.outcomes <==> n in s.outcomes || n in InHand(s)[..a] || n in InHand(s)[b..] {
      CloseAllIs(s.outcomes, ns, n);
    }
    forall n | n in s.outcomes && n !in InHand(s) ensures s'.outcomes[n] == s.outcomes[n] {
      CloseAllIs(s.outcomes, ns, n);
    }
    Answering(s, s', a, b);
  }

  lemma {:induction false} SubmitHeldOnce(s: State)
    requires HeldOnce(s)
    ensures HeldOnce(Next(s, Submit)) && Stand(s.outcomes, Next(s, Submit).outcomes)
  {
    if !s.writer.Ended? { assert InHand(Next(s, Submit)) == InHand(s) + [s.count]; }
  }

  lemma {:induction false} AckHeldOnce(s: State)
    requires HeldOnce(s) && Enabled(s, ReadAck)
    ensures HeldOnce(Next(s, ReadAck)) && Stand(s.outcomes, Next(s, ReadAck).outcomes)
  {
    var s', h := Next(s, ReadAck), InHand(s);
    if s.waiters == [] {
      assert InHand(s') == h;
    } else {
      assert InHand(s') == h[1..|h|] && h[..1] == [s.waiters[0]] && h[|h|..] == [];
      Answering(s, s', 1, |h|);
    }
  }

  lemma {:induction false} WriterHeldOnce(s: State, step: Step)
    requires HeldOnce(s) && Enabled(s, step) && (step.WriterClears? || step.AbortWriter?)
    ensures HeldOnce(Next(s, step)) && Stand(s.outcomes, Next(s, step).outcomes)
  {
    var s', h := Next(s, step), InHand(s);
    assert h == s.waiters + s.channel;
    if step.WriterClears? {
      assert h[..|h|] == h;
      ClosingIsAnswering(s, s', |h|, |h|, s.waiters + s.channel);
    } else {
      assert h[|s.waiters|..] == s.channel && h[..0] == [] && InHand(s') == h[0..|s.waiters|];
      ClosingIsAnswering(s, s', 0, |s.waiters|, s.channel);
    }
  }

  lemma {:induction false} WaitersLead(s: State, s': State)
    requires s'.waiters == [] && s'.writer == s.writer && s'.channel == s.channel
    ensures var h := InHand(s);
            h[..|s.waiters|] == s.waiters && h[|h|..] == [] && InHand(s') == h[|s.waiters|..|h|]
  { }

  lemma {:induction false} WaitersHeldOnce(s: State, step: Step)
    requires HeldOnce(s) && Enabled(s, step) && (step.ReaderClears? || step.DropQueue?)
    ensures HeldOnce(Next(s, step)) && Stand(s.outcomes, Next(s, step).outcomes)
  {
    var s' := Next(s, step);
    WaitersLead(s, s');
    ClosingIsAnswering(s, s', |s.waiters|, |InHand(s)|, s.waiters);
  }

  lemma {:induction false} SameInHand(s: State, s': State)
    requires HeldOnce(s) && InHand(s') == InHand(s) && s'.count == s.count && s'.outcomes == s.outcomes
    ensures HeldOnce(s') && Stand(s.outcomes, s'.outcomes)
  { }

  lemma {:induction false} StepHeldOnce(s: State, step: Step)
    requires HeldOnce(s) && Enabled(s, step)
    ensures HeldOnce(Next(s, step)) && Stand(s.outcomes, Next(s, step).outcomes)
  {
    match step
    case Submit => SubmitHeldOnce(s);
    case ReadAck => AckHeldOnce(s);
    case WriterClears => WriterHeldOnce(s, step);
    case AbortWriter(_) => WriterHeldOnce(s, step);
    case ReaderClears => WaitersHeldOnce(s, step);
    case DropQueue => WaitersHeldOnce(s, step);
    case _ =>
      assert InHand(Next(s, step)) == InHand(s);
      SameInHand(s, Next(s, step));
  }

  // --- every interleaving -------------------------------------------------------------------------

  ghost predicate Runs(s: State, steps: seq<Step>)
    decreases |steps|
  {
    steps != [] ==> Enabled(s, steps[0]) && Runs(Next(s, steps[0]), steps[1..])
  }

  ghost function Run(s: State, steps: seq<Step>): State
    requires Runs(s, steps)
    decreases |steps|
  {
    if steps == [] then s else Run(Next(s, steps[0]), steps[1..])
  }

  lemma {:induction false} RunInv(s: State, steps: seq<Step>)
    requires Inv(s) && Accounted(s) && Runs(s, steps)
    ensures Inv(Run(s, steps)) && Accounted(Run(s, steps))
    decreases |steps|
  {
    if steps != [] {
      StepInv(s, steps[0]);
      StepAllAccounted(s, steps[0]);
      RunInv(Next(s, steps[0]), steps[1..]);
    }
  }

  lemma {:induction false} RunKeepsRecords(s: State, steps: seq<Step>)
    requires Runs(s, steps)
    ensures Run(s, steps).record == s.record
    decreases |steps|
  {
    if steps != [] { RunKeepsRecords(Next(s, steps[0]), steps[1..]); }
  }

  /** Once both tasks have ended and the queue is dropped, every publish has returned. */
  lemma {:induction false} NoPublishHangs(record: nat -> nat, steps: seq<Step>, n: nat)
    requires Runs(Start(record), steps)
    requires var s := Run(Start(record), steps); s.writer.Ended? && s.reader.Done? && n < s.count
    ensures n in Next(Run(Start(record), steps), DropQueue).outcomes
  {
    RunInv(Start(record), steps);
    StepAccounted(Run(Start(record), steps), DropQueue, n);
  }

  /** A publish that has returned keeps its outcome whatever happens after: no publish is
      answered twice. */
  lemma {:induction false} NoneAnsweredTwice(s: State, steps: seq<Step>)
    requires HeldOnce(s) && Runs(s, steps)
    ensures HeldOnce(Run(s, steps)) && Stand(s.outcomes, Run(s, steps).outcomes)
    decreases |steps|
  {
    if steps != [] {
      StepHeldOnce(s, steps[0]);
      NoneAnsweredTwice(Next(s, steps[0]), steps[1..]);
    }
  }

  lemma {:induction false} StartHeldOnce(record: nat -> nat)
    ensures HeldOnce(Start(record))
  { }

  // --- every ack read is a publish that returned -------------------------------------------------

  /** Every request taken so far or still to be taken, oldest first. */
  function Line(s: State): seq<nat> {
    s.queued + (if s.writer.Queueing? then [s.writer.n] else []) + s.channel
  }

  ghost predicate Counts(ns: seq<nat>) { forall i | 0 <= i < |ns| :: ns[i] == i }

  /** Requests are queued in the order they were submitted. */
  ghost predicate InSubmissionOrder(s: State) {
    Counts(s.queued) && (!s.writer.Ended? ==> Counts(Line(s)) && |Line(s)| == s.count)
  }

  lemma {:induction false} StepInOrder(s: State, step: Step)
    requires InSubmissionOrder(s) && Enabled(s, step)
    ensures InSubmissionOrder(Next(s, step))
  {
    var s' := Next(s, step);
    match step
    case Submit => if !s.writer.Ended? { assert Line(s') == Line(s) + [s.count]; }
    case Take => assert Line(s') == Line(s);
    case Queue =>
      assert Line(s') == Line(s);
      assert forall i | 0 <= i < |s'.queued| :: s'.queued[i] == Line(s)[i];
    case _ => assert s'.queued == s.queued && (!s'.writer.Ended? ==> Line(s') == Line(s));
  }

  ghost predicate Returned(s: State, i: nat) {
    && i < |s.queued| && i < |s.keys|
    && s.queued[i] in s.outcomes && s.outcomes[s.queued[i]] == Got(s.keys[i])
  }

  /** Until the queue is cleared, and after that while the reader goes on, each ack read has
      returned its key to its request. */
  ghost predicate AckedReturned(s: State) { !s.cleared || s.reader.Reading? ==> forall i: nat | i < s.answered :: Returned(s, i) }

  /** The ack about to be read goes to the first request not yet answered. */
  lemma {:induction false} ReadAckReturns(s: State)
    requires Inv(s) && HeldOnce(s) && AckedReturned(s) && Enabled(s, ReadAck) && !s.cleared
    ensures var s' := Next(s, ReadAck);
            s'.answered == s.answered + 1 && !s'.cleared && s'.reader.Reading? && forall i: nat | i < s'.answered :: Returned(s', i)
  {
    var s' := Next(s, ReadAck);
    AckHasItsWaiter(s);
    assert s.waiters[0] == s.queued[s.answered] && InHand(s)[0] == s.waiters[0];
    forall i: nat | i < s'.answered ensures Returned(s', i) {
      if i < s.answered { assert Returned(s, i); }
    }
  }

  /** No other step takes a returned key back. */
  lemma {:induction false} StaysReturned(s: State, step: Step, i: nat)
    requires HeldOnce(s) && Enabled(s, step) && Returned(s, i)
    ensures Returned(Next(s, step), i)
  {
    StepHeldOnce(s, step);
    assert s.queued <= Next(s, step).queued && s.keys <= Next(s, step).keys;
  }

  lemma {:induction false} StepAckedReturned(s: State, step: Step)
    requires Inv(s) && HeldOnce(s) && AckedReturned(s) && Enabled(s, step)
    ensures AckedReturned(Next(s, step))
  {
    var s' := Next(s, step);
    if !s'.cleared || s'.reader.Reading? {
      if step.ReadAck? {
        ReadAckReturns(s);
      } else {
        forall i: nat | i < s'.answered ensures Returned(s', i) {
          assert Returned(s, i);
          StaysReturned(s, step, i);
        }
      }
    }
  }

  ghost predicate Answers(s: State) {
    Inv(s) && Accounted(s) && HeldOnce(s) && InSubmissionOrder(s) && AckedReturned(s)
  }

  lemma {:induction false} RunAnswers(s: State, steps: seq<Step>)
    requires Answers(s) && Runs(s, steps)
    ensures Answers(Run(s, steps))
    decreases |steps|
  {
    if steps != [] {
      StepInv(s, steps[0]);
      StepAllAccounted(s, steps[0]);
      StepHeldOnce(s, steps[0]);
      StepInOrder(s, steps[0]);
      StepAckedReturned(s, steps[0]);
      RunAnswers(Next(s, steps[0]), steps[1..]);
    }
  }

  lemma {:induction false} StartAnswers(record: nat -> nat)
    ensures Answers(Start(record))
  { }

  /** However submits, frame writes, group commits, duplicates, acks and failures interleave: a
      publish that returns a key returns one under which its own record is in the log. Until the
      waiter queue is cleared, and after that while the reader goes on, the requests whose acks
      were read are the first ones submitted, committed in that order, and each has returned the
      key it was committed under; before it is cleared the queue holds exactly the others. */
  lemma {:induction false} PublishReturnsOwnKey(record: nat -> nat, steps: seq<Step>, n: nat)
    requires Runs(Start(record), steps)
    ensures var s := Run(Start(record), steps);
            && (n in s.outcomes && s.outcomes[n].Got? ==> Entry(s.outcomes[n].key, record(n)) in s.log)
            && (!s.cleared ==> s.answered <= |s.queued| && s.waiters == s.queued[s.answered..])
            && ((!s.cleared || s.reader.Reading?) && n < s.answered ==>
                && n < |s.served| && n < |s.keys| && s.served[n] == n
                && n in s.outcomes && s.outcomes[n] == Got(s.keys[n]))
  {
    StartAnswers(record);
    RunAnswers(Start(record), steps);
    RunKeepsRecords(Start(record), steps);
    var s := Run(Start(record), steps);
    if n in s.outcomes && s.outcomes[n].Got? {
      assert AnsweredRightly(s, n);
      var i: nat :| i < |s.served| && i < |s.keys| && s.served[i] == n && s.outcomes[n].key == s.keys[i];
      assert Logged(s, i);
    }
    if (!s.cleared || s.reader.Reading?) && n < s.answered { ServedInOrder(s, n); }
  }

  lemma {:induction false} ServedInOrder(s: State, n: nat)
    requires Answers(s) && (!s.cleared || s.reader.Reading?) && n < s.answered
    ensures n < |s.served| && n < |s.keys| && s.served[n] == n && n in s.outcomes && s.outcomes[n] == Got(s.keys[n])
  {
    assert Returned(s, n) && Landed(s)[n] == s.served[n];
  }

  /** A connection that breaks, on either side. */
  predicate Failure(step: Step) {
    || step.SendFails? || step.WriterClears? || step.ReadFails? || step.AbortWriter?
    || step.ReaderClears? || step.DropQueue? || step.CommitFails? || step.ServerStops?
  }

  ghost predicate Smooth(s: State) {
    && !s.cleared && s.reader.Reading? && s.serving && !s.writer.Failing? && !s.writer.Ended?
    && forall n | n in s.outcomes :: s.outcomes[n].Got?
  }

  lemma {:induction false} StepSmooth(s: State, step: Step)
    requires Answers(s) && Smooth(s) && Enabled(s, step) && !Failure(step)
    ensures Smooth(Next(s, step))
  {
    if step.ReadAck? { ReadAckReturns(s); }
  }

  lemma {:induction false} RunSmooth(s: State, steps: seq<Step>)
    requires Answers(s) && Smooth(s) && Runs(s, steps) && forall step | step in steps :: !Failure(step)
    ensures Answers(Run(s, steps)) && Smooth(Run(s, steps))
    decreases |steps|
  {
    if steps != [] {
      RunAnswers(s, [steps[0]]);
      assert Run(s, [steps[0]]) == Run(Next(s, steps[0]), []);
      StepSmooth(s, steps[0]);
      RunSmooth(Next(s, steps[0]), steps[1..]);
    }
  }

  /** Nothing is on its way in either direction. */
  predicate Quiet(s: State) {
    s.channel == [] && s.writer.Receiving? && s.wire == [] && s.inbox == [] && s.batch == [] && s.toAck == [] && s.acks == []
  }

  /** Without a failure, once nothing is on its way every publish has returned the key its own
      record is in the log under. */
  lemma {:induction false} EveryPublishReturns(record: nat -> nat, steps: seq<Step>, n: nat)
    requires Runs(Start(record), steps) && (forall step | step in steps :: !Failure(step))
    requires var s := Run(Start(record), steps); Quiet(s) && n < s.count
    ensures var s := Run(Start(record), steps);
            n in s.outcomes && s.outcomes[n].Got? && Entry(s.outcomes[n].key, record(n)) in s.log
  {
    StartAnswers(record);
    RunSmooth(Start(record), steps);
    var s := Run(Start(record), steps);
    assert Line(s) == s.queued == Landed(s) == s.served;
    assert s.keys[s.answered..] == [];
    PublishReturnsOwnKey(record, steps, n);
  }
}
