/** The drop-oldest policy: exactly when claiming the oldest message can make the ring go wrong. */
module SpscDrops {
  import opened Bits
  import opened Payload
  import opened Spsc
  import opened SpscInvariant
  import opened SpscTheorems

  // ----- Going wrong -----

  /** A message that was published and not dropped, that the consumer has not passed, and whose slot is retired. */
  ghost predicate Lost(capacity: nat, s: State, q: nat) {
    && 0 < capacity == |s.slots| && s.producer.Idle? && s.consumer.Resting?
    && s.consumed <= q < s.produced == |s.fates| && s.produced <= s.consumed + capacity
    && s.fates[q].Some? && s.slots[At(capacity, q)].state == Retired
  }

  /** With the consumer at rest, a message is lost, or the acknowledged messages are not, in order, those published
      before the cursor and not dropped: one was passed over, repeated, out of order, or acknowledged though dropped. */
  ghost predicate Wrong(capacity: nat, s: State) {
    && s.consumer.Resting? && s.consumed <= |s.fates|
    && ((exists q :: Lost(capacity, s, q)) || s.delivered != Entries(s.fates, 0, s.consumed))
  }

  lemma InvIsRight(capacity: nat, s: State)
    requires Inv(capacity, s)
    ensures !Wrong(capacity, s)
  {
    hide At, Entries;
    forall q | s.consumed <= q < s.produced
      ensures !Lost(capacity, s, q)
    {
      assert SlotAt(capacity, s, q);
    }
  }

  /** A run that starts by claiming the oldest message, drops only harmlessly from then on, and goes wrong. */
  ghost predicate FatalDrop(capacity: nat, s: State, actions: seq<Action>, t: State)
    requires 0 < capacity == |s.slots|
  {
    && actions != [] && actions[0] == Drop && Run(capacity, s, actions, t) && Wrong(capacity, t)
    && Step(capacity, s, Drop).Some? && HarmlessDrops(capacity, Step(capacity, s, Drop).value, actions[1..])
  }

  // ----- A lost message stays lost -----

  /** What lasts from the loss of the message at `q` on, as long as nothing is dropped. */
  ghost predicate Doomed(capacity: nat, s: State, q: nat) {
    && ValidCapacity(capacity) && 0 < capacity == |s.slots|
    && s.consumed <= q < s.produced <= s.consumed + capacity && s.slots[At(capacity, q)].state == Retired
    && DoomedProducer(capacity, s) && DoomedConsumer(capacity, s, q)
  }

  ghost predicate DoomedProducer(capacity: nat, s: State) {
    match s.producer
    case Idle => true
    case Checked(c) => c <= s.consumed && s.produced <= c + capacity
    case Dropping(_) => false
    case _ => s.produced < s.consumed + capacity
  }

  ghost predicate DoomedConsumer(capacity: nat, s: State, q: nat)
    requires 0 < capacity == |s.slots|
  {
    match s.consumer
    case Resting => true
    case Loaded(c) => c == s.consumed
    case Polling(c, _) => c == s.consumed
    case Looked(c, state) => c == s.consumed && (c == q ==> state == Retired)
    case Matched(c) => c == s.consumed < q && Word(s.slots[At(capacity, c)].stamp) == Word(c)
    case Borrowed(copy) => s.consumed < q && Word(copy.position) == Word(s.consumed)
    case Acking(c, copy) => c == s.consumed < q && Word(copy.position) == Word(c)
    case Corrupted(c) => c == s.consumed < q
    case Leaving(c, acked) =>
      c == s.consumed < q && (acked.Some? ==> Word(acked.value.position) == Word(c))
  }

  lemma DoomedProducerStep(capacity: nat, s: State, q: nat, a: Action)
    requires Doomed(capacity, s, q) && ProducerStep(capacity, s, a).Some? && !a.Drop?
    ensures Doomed(capacity, ProducerStep(capacity, s, a).value, q)
    ensures ProducerStep(capacity, s, a).value.delivered == s.delivered
  {
    hide At, Word, Full;
    if s.producer.Checked? {
      FullIsExact(capacity, s.produced, s.producer.cons);
    }
    if s.produced < s.consumed + capacity {
      SlotsDiffer(capacity, q, s.produced);
      SlotsDiffer(capacity, s.consumed, s.produced);
    }
  }

  lemma DoomedConsumerStep(capacity: nat, s: State, q: nat, a: Action)
    requires Doomed(capacity, s, q) && ConsumerStep(capacity, s, a).Some?
    ensures Doomed(capacity, ConsumerStep(capacity, s, a).value, q)
    ensures ConsumerStep(capacity, s, a).value.delivered
            == s.delivered + if a.Leave? && s.consumer.acked.Some? then [s.consumer.acked.value] else []
  {
    hide At, Word;
    if s.consumed < q {
      SlotsDiffer(capacity, s.consumed, q);
    }
  }

  lemma DoomedStep(capacity: nat, s: State, q: nat, a: Action)
    requires Doomed(capacity, s, q) && Step(capacity, s, a).Some? && !a.Drop?
    ensures var t := Step(capacity, s, a).value;
            && Doomed(capacity, t, q) && s.delivered <= t.delivered
            && forall i :: |s.delivered| <= i < |t.delivered| ==> t.delivered[i].position != q
  {
    hide At, Full, DoomedProducer;
    if ProducerStep(capacity, s, a).Some? {
      DoomedProducerStep(capacity, s, q, a);
    } else {
      DoomedConsumerStep(capacity, s, q, a);
      CapacityFacts(capacity);
      if s.consumed < q {
        WordsDiffer(s.consumed, q);
      }
    }
  }

  lemma {:induction false} DoomedRun(capacity: nat, s: State, q: nat, actions: seq<Action>, t: State)
    requires Doomed(capacity, s, q) && Run(capacity, s, actions, t) && Drop !in actions
    ensures Doomed(capacity, t, q) && s.delivered <= t.delivered
    ensures forall i :: |s.delivered| <= i < |t.delivered| ==> t.delivered[i].position != q
    decreases |actions|
  {
    hide Step, DoomedProducer, DoomedConsumer;
    if actions != [] {
      DoomedStep(capacity, s, q, actions[0]);
      DoomedRun(capacity, Step(capacity, s, actions[0]).value, q, actions[1..], t);
    }
  }

  /** Without another drop the consumer never gets past a lost message and never acknowledges it, whatever producer
      and consumer do. */
  lemma StaysLost(capacity: nat, s: State, q: nat, actions: seq<Action>, t: State)
    requires ValidCapacity(capacity) && Lost(capacity, s, q) && Run(capacity, s, actions, t) && Drop !in actions
    ensures t.consumed <= q && s.delivered <= t.delivered
    ensures forall i :: |s.delivered| <= i < |t.delivered| ==> t.delivered[i].position != q
  {
    DoomedRun(capacity, s, q, actions, t);
  }

  // ----- Publishing into the slot of the claimed message -----

  /** The accesses that fill and commit an admitted slot. */
  lemma Publishes(capacity: nat, s: State, x: Message) returns (t: State)
    requires 0 < capacity == |s.slots| && s.producer.Stamped? && s.slots[At(capacity, s.produced)].stamp == s.produced
    ensures |t.slots| == capacity && Run(capacity, s, [Open, Fill(x), Seal] + [Publish, Advance], t)
    ensures t == Put(capacity, s, s.produced, Slot(s.produced, Ready, x, (Word(s.produced), x)))
                 .(producer := Idle, produced := s.produced + 1, fates := s.fates + [Some(x)])
  {
    hide At, Word;
    var a := Step(capacity, s, Open).value;
    var b := Step(capacity, a, Fill(x)).value;
    var c := Step(capacity, b, Seal).value;
    Chain2(capacity, a, Fill(x), b, Seal, c);
    Chain1(capacity, s, Open, a, [Fill(x), Seal], c);
    assert [Open] + [Fill(x), Seal] == [Open, Fill(x), Seal];
    t := Commits(capacity, c);
    RunConcat(capacity, s, [Open, Fill(x), Seal], c, [Publish, Advance], t);
  }

  lemma Commits(capacity: nat, s: State) returns (t: State)
    requires 0 < capacity == |s.slots| && s.producer.Sealed?
    ensures |t.slots| == capacity && Run(capacity, s, [Publish, Advance], t)
    ensures var slot := s.slots[At(capacity, s.produced)];
            t == Put(capacity, s, s.produced, slot.(state := Ready))
                 .(producer := Idle, produced := s.produced + 1, fates := s.fates + [Some(slot.payload)])
  {
    hide At;
    var a := Step(capacity, s, Publish).value;
    t := Step(capacity, a, Advance).value;
    Chain2(capacity, s, Publish, a, Advance, t);
  }

  /** Claiming the oldest message, retiring its slot and stamping it for the next one. */
  lemma DropsAndStamps(capacity: nat, s: State) returns (t: State)
    requires 0 < capacity == |s.slots| && s.producer == Checked(s.consumed) && Full(capacity, s.produced, s.consumed)
    requires At(capacity, s.produced) == At(capacity, s.consumed)
    ensures |t.slots| == capacity && Run(capacity, s, [Drop, RetireOldest, Stamp], t)
    ensures var slot := s.slots[At(capacity, s.consumed)];
            t == Put(capacity, s, s.produced, slot.(stamp := s.produced, state := Retired))
                 .(producer := Stamped, consumed := s.consumed + 1, fates := Forget(s.fates, s.consumed))
  {
    hide At, Word, Full;
    var a := Step(capacity, s, Drop).value;
    var b := Step(capacity, a, RetireOldest).value;
    t := Step(capacity, b, Stamp).value;
    Chain2(capacity, a, RetireOldest, b, Stamp, t);
    Chain1(capacity, s, Drop, a, [RetireOldest, Stamp], t);
    assert [Drop] + [RetireOldest, Stamp] == [Drop, RetireOldest, Stamp];
  }

  function DropAndPublish(x: Message): seq<Action> {
    [Drop, RetireOldest, Stamp] + ([Open, Fill(x), Seal] + [Publish, Advance])
  }

  /** A full ring about to drop: the claimed message and the next one share a slot. */
  ghost predicate AboutToDrop(capacity: nat, s: State) {
    && ValidCapacity(capacity) && capacity > 0 && |s.slots| == capacity && |s.fates| == s.produced
    && s.producer == Checked(s.consumed) && s.produced == s.consumed + capacity
  }

  lemma SharedSlot(capacity: nat, s: State)
    requires AboutToDrop(capacity, s)
    ensures Full(capacity, s.produced, s.consumed) && At(capacity, s.produced) == At(capacity, s.consumed)
    ensures Word(s.produced) != Word(s.consumed) && Word(s.produced + 1) != Word(s.consumed)
    ensures s.consumed < s.produced
  {
    FullIsExact(capacity, s.produced, s.consumed);
    SameSlot(capacity, s.consumed);
    CapacityFacts(capacity);
    CapacityIsSmall(capacity);
    WordsDiffer(s.consumed, s.produced);
    WordsDiffer(s.consumed, s.produced + 1);
  }

  lemma CapacityIsSmall(capacity: nat)
    requires ValidCapacity(capacity)
    ensures capacity + 1 < U64
  {
    var k: nat :| 1 <= k <= 32 && capacity == Pow2(k);
    Pow64();
    Pow2Grows(k, 64);
  }

  /** The ring after dropping the oldest message and publishing `x` in its slot, with the consumer where it was. */
  ghost function Republished(capacity: nat, s: State, x: Message): State
    requires 0 < capacity == |s.slots|
  {
    Put(capacity, s, s.produced, Slot(s.produced, Ready, x, (Word(s.produced), x)))
    .(producer := Idle, produced := s.produced + 1, consumed := s.consumed + 1,
      fates := Forget(s.fates, s.consumed) + [Some(x)])
  }

  lemma Republishes(capacity: nat, s: State, x: Message)
    requires AboutToDrop(capacity, s)
    ensures Run(capacity, s, DropAndPublish(x), Republished(capacity, s, x))
  {
    SharedSlot(capacity, s);
    hide At, Word, Full, Run;
    var a := DropsAndStamps(capacity, s);
    var b := Publishes(capacity, a, x);
    RunConcat(capacity, s, [Drop, RetireOldest, Stamp], a, [Open, Fill(x), Seal] + [Publish, Advance], b);
    assert b.slots == Republished(capacity, s, x).slots;
  }

  // ----- A consumer that goes on to destroy the new message -----

  /** The state in which the slot at position `c` has been retired and the cursor stored behind it. */
  function Passed(capacity: nat, s: State, c: nat): State
    requires 0 < capacity == |s.slots|
  {
    Put(capacity, s, c, s.slots[At(capacity, c)].(state := Retired)).(consumer := Resting, consumed := c + 1)
  }

  /** However the consumer gets past the republished slot, the new message is lost. */
  lemma PassedIsLost(capacity: nat, s: State, x: Message, t: State, d: seq<Entry>)
    requires AboutToDrop(capacity, s)
    requires t == Passed(capacity, Republished(capacity, s, x), s.consumed).(delivered := d)
    ensures Lost(capacity, t, s.produced)
  {
    SharedSlot(capacity, s);
    hide At, Word;
  }

  /** A slot seen ready whose stamp is another position's. */
  lemma MismatchPasses(capacity: nat, s: State)
    requires 0 < capacity == |s.slots| && s.consumer.Looked? && s.consumer.state == Ready
    requires Word(s.slots[At(capacity, s.consumer.cons)].stamp) != Word(s.consumer.cons)
    ensures Run(capacity, s, [Mismatch, RetireCorrupted, Leave], Passed(capacity, s, s.consumer.cons))
  {
    hide At, Word;
    var a := Step(capacity, s, Mismatch).value;
    CorruptedPasses(capacity, a);
    var t := Passed(capacity, s, s.consumer.cons);
    Chain1(capacity, s, Mismatch, a, [RetireCorrupted, Leave], t);
    assert [Mismatch] + [RetireCorrupted, Leave] == [Mismatch, RetireCorrupted, Leave];
  }

  lemma CorruptedPasses(capacity: nat, s: State)
    requires 0 < capacity == |s.slots| && s.consumer.Corrupted?
    ensures Run(capacity, s, [RetireCorrupted, Leave], Passed(capacity, s, s.consumer.cons))
  {
    hide At;
    var a := Step(capacity, s, RetireCorrupted).value;
    var t := Step(capacity, a, Leave).value;
    Chain2(capacity, s, RetireCorrupted, a, Leave, t);
    assert t.delivered == s.delivered;
  }

  lemma TombstonePasses(capacity: nat, s: State)
    requires 0 < capacity == |s.slots| && s.consumer.Looked? && s.consumer.state == Aborted
    ensures Run(capacity, s, [SkipTombstone, Leave], Passed(capacity, s, s.consumer.cons))
  {
    hide At;
    var a := Step(capacity, s, SkipTombstone).value;
    var t := Step(capacity, a, Leave).value;
    Chain2(capacity, s, SkipTombstone, a, Leave, t);
    assert t.delivered == s.delivered;
  }

  lemma PollingPasses(capacity: nat, s: State)
    requires 0 < capacity == |s.slots| && s.consumer.Polling? && Word(s.consumer.cons) != Word(s.consumer.prod)
    requires var slot := s.slots[At(capacity, s.consumer.cons)];
             slot.state == Ready && Word(slot.stamp) != Word(s.consumer.cons)
    ensures Run(capacity, s, [Look] + [Mismatch, RetireCorrupted, Leave], Passed(capacity, s, s.consumer.cons))
  {
    hide At, Word;
    var a := Step(capacity, s, Look).value;
    MismatchPasses(capacity, a);
    Chain1(capacity, s, Look, a, [Mismatch, RetireCorrupted, Leave], Passed(capacity, s, s.consumer.cons));
  }

  lemma LoadedPasses(capacity: nat, s: State)
    requires 0 < capacity == |s.slots| && s.consumer.Loaded? && Word(s.consumer.cons) != Word(s.produced)
    requires var slot := s.slots[At(capacity, s.consumer.cons)];
             slot.state == Ready && Word(slot.stamp) != Word(s.consumer.cons)
    ensures var c := s.consumer.cons;
            Run(capacity, s, [LoadProducer] + ([Look] + [Mismatch, RetireCorrupted, Leave]), Passed(capacity, s, c))
  {
    hide At, Word;
    var a := Step(capacity, s, LoadProducer).value;
    PollingPasses(capacity, a);
    Chain1(capacity, s, LoadProducer, a, [Look] + [Mismatch, RetireCorrupted, Leave],
           Passed(capacity, s, s.consumer.cons));
  }

  // ----- The losing run behind each moment of the consumer -----

  /** A run of the two halves: drop and publish, then the consumer on its own. */
  lemma LostInTwo(capacity: nat, s: State, x: Message, rest: seq<Action>, t: State, d: seq<Entry>)
    requires AboutToDrop(capacity, s) && Run(capacity, Republished(capacity, s, x), rest, t)
    requires t == Passed(capacity, Republished(capacity, s, x), s.consumed).(delivered := d)
    ensures Run(capacity, s, DropAndPublish(x) + rest, t) && Lost(capacity, t, s.produced)
  {
    hide At, Word, Run, Lost;
    Republishes(capacity, s, x);
    RunConcat(capacity, s, DropAndPublish(x), Republished(capacity, s, x), rest, t);
    PassedIsLost(capacity, s, x, t, d);
  }

  /** Inside Poll, after the load of its own cursor. */
  lemma LoadedLoses(capacity: nat, s: State, x: Message) returns (rest: seq<Action>, t: State)
    requires AboutToDrop(capacity, s) && s.consumer == Loaded(s.consumed)
    ensures Drop !in rest && Run(capacity, s, DropAndPublish(x) + rest, t) && Lost(capacity, t, s.produced)
  {
    SharedSlot(capacity, s);
    hide At, Word, Run, Lost, Full;
    var p := Republished(capacity, s, x);
    t := Passed(capacity, p, s.consumed);
    LoadedPasses(capacity, p);
    rest := [LoadProducer] + ([Look] + [Mismatch, RetireCorrupted, Leave]);
    LostInTwo(capacity, s, x, rest, t, s.delivered);
  }

  /** Inside Poll, having found the ring not empty. */
  lemma PollingLoses(capacity: nat, s: State, x: Message) returns (rest: seq<Action>, t: State)
    requires AboutToDrop(capacity, s) && s.consumer.Polling? && s.consumer.cons == s.consumed
    requires Word(s.consumer.cons) != Word(s.consumer.prod)
    ensures Drop !in rest && Run(capacity, s, DropAndPublish(x) + rest, t) && Lost(capacity, t, s.produced)
  {
    SharedSlot(capacity, s);
    hide At, Word, Run, Lost, Full;
    var p := Republished(capacity, s, x);
    t := Passed(capacity, p, s.consumed);
    PollingPasses(capacity, p);
    rest := [Look] + [Mismatch, RetireCorrupted, Leave];
    LostInTwo(capacity, s, x, rest, t, s.delivered);
  }

  /** Inside Poll, having seen the oldest slot ready or a tombstone. */
  lemma LookedLoses(capacity: nat, s: State, x: Message) returns (rest: seq<Action>, t: State)
    requires AboutToDrop(capacity, s) && s.consumer.Looked? && s.consumer.cons == s.consumed
    requires s.consumer.state == Ready || s.consumer.state == Aborted
    ensures Drop !in rest && Run(capacity, s, DropAndPublish(x) + rest, t) && Lost(capacity, t, s.produced)
  {
    SharedSlot(capacity, s);
    hide At, Word, Run, Lost, Full;
    var p := Republished(capacity, s, x);
    t := Passed(capacity, p, s.consumed);
    if s.consumer.state == Ready {
      MismatchPasses(capacity, p);
      rest := [Mismatch, RetireCorrupted, Leave];
    } else {
      TombstonePasses(capacity, p);
      rest := [SkipTombstone, Leave];
    }
    LostInTwo(capacity, s, x, rest, t, s.delivered);
  }

  /** Inside Ack, after the comparison. */
  lemma AckLoses(capacity: nat, s: State, x: Message) returns (rest: seq<Action>, t: State)
    requires AboutToDrop(capacity, s) && s.consumer.Acking? && s.consumer.cons == s.consumed
    ensures Drop !in rest && Run(capacity, s, DropAndPublish(x) + rest, t) && Lost(capacity, t, s.produced)
  {
    hide At, Word, Run, Lost;
    var p := Republished(capacity, s, x);
    t := RetireAndLeave(capacity, p);
    rest := [Retire, Leave];
    LostInTwo(capacity, s, x, rest, t, s.delivered + [s.consumer.copy]);
  }

  /** Inside Poll, between the sequence check and the copy: the copy takes the new stamp with the old checksum. */
  lemma MatchedLoses(capacity: nat, s: State, x: Message) returns (rest: seq<Action>, t: State)
    requires Inv(capacity, s) && AboutToDrop(capacity, s) && s.consumer.Matched?
    ensures Drop !in rest && Run(capacity, s, [Drop, RetireOldest, Stamp] + rest, t) && Lost(capacity, t, s.produced)
  {
    assert SlotAt(capacity, s, s.consumed);
    SharedSlot(capacity, s);
    hide At, Word, Run, Lost, Full, Entries, LiveSlots;
    var a := DropsAndStamps(capacity, s);
    var b := Step(capacity, a, Borrow).value;
    assert b == a.(consumer := Corrupted(s.consumed));
    var p := Publishes(capacity, b, x);
    CorruptedPasses(capacity, p);
    t := Passed(capacity, p, s.consumed);
    var publishing := [Open, Fill(x), Seal] + [Publish, Advance];
    RunConcat(capacity, b, publishing, p, [RetireCorrupted, Leave], t);
    Chain1(capacity, a, Borrow, b, publishing + [RetireCorrupted, Leave], t);
    rest := [Borrow] + (publishing + [RetireCorrupted, Leave]);
    RunConcat(capacity, s, [Drop, RetireOldest, Stamp], a, rest, t);
    assert t.slots == Passed(capacity, Republished(capacity, s, x), s.consumed).slots;
    assert t == Passed(capacity, Republished(capacity, s, x), s.consumed).(delivered := s.delivered);
    PassedIsLost(capacity, s, x, t, s.delivered);
  }

  /** About to store a cursor that a drop has passed: the store puts the cursor back before a dropped position, and the
      next Poll destroys the message that took its slot. */
  lemma BehindLeavingLoses(capacity: nat, s: State, x: Message) returns (rest: seq<Action>, t: State)
    requires AboutToDrop(capacity, s) && s.consumer.Leaving? && s.consumer.cons + 1 == s.consumed
    ensures Drop !in rest && Run(capacity, s, DropAndPublish(x) + rest, t) && Lost(capacity, t, s.produced)
  {
    SharedSlot(capacity, s);
    hide At, Word, Run, Lost, Full;
    var p := Republished(capacity, s, x);
    var a := Step(capacity, p, Leave).value;
    var b := Step(capacity, a, Spsc.Poll).value;
    LoadedPasses(capacity, b);
    t := Passed(capacity, b, s.consumed);
    var passing := [LoadProducer] + ([Look] + [Mismatch, RetireCorrupted, Leave]);
    Chain1(capacity, a, Spsc.Poll, b, passing, t);
    Chain1(capacity, p, Leave, a, [Spsc.Poll] + passing, t);
    rest := [Leave] + ([Spsc.Poll] + passing);
    LostInTwo(capacity, s, x, rest, t, a.delivered);
  }

  /** About to store the cursor: two drops before the store lose a message. */
  lemma LeavingLoses(capacity: nat, s: State, x: Message, y: Message) returns (rest: seq<Action>, t: State)
    requires AboutToDrop(capacity, s) && s.consumer.Leaving? && s.consumer.cons == s.consumed
    ensures Run(capacity, s, DropAndPublish(x) + ([Check] + (DropAndPublish(y) + rest)), t) && Drop !in rest
    ensures Lost(capacity, t, s.produced + 1)
  {
    hide At, Word, Run, Lost, Full;
    var p := Republished(capacity, s, x);
    Republishes(capacity, s, x);
    var a := Step(capacity, p, Check).value;
    rest, t := BehindLeavingLoses(capacity, a, y);
    Chain1(capacity, p, Check, a, DropAndPublish(y) + rest, t);
    RunConcat(capacity, s, DropAndPublish(x), p, [Check] + (DropAndPublish(y) + rest), t);
  }

  /** About to store the cursor behind an acknowledged message: one drop and the message is dropped and acknowledged. */
  lemma LeavingGoesWrong(capacity: nat, s: State) returns (t: State)
    requires Inv(capacity, s) && AboutToDrop(capacity, s)
    requires s.consumer.Leaving? && s.consumer.cons == s.consumed && s.consumer.acked.Some?
    ensures Run(capacity, s, [Drop, Leave], t) && Wrong(capacity, t)
  {
    SharedSlot(capacity, s);
    hide At, Word, Lost, Full, Entries, LiveSlots;
    var a := Step(capacity, s, Drop).value;
    t := Step(capacity, a, Leave).value;
    Chain2(capacity, s, Drop, a, Leave, t);
    EntriesSame(s.fates, t.fates, 0, s.consumed);
    EntriesSnoc(t.fates, 0, s.consumed);
  }

  lemma WholeTurn(q: nat)
    ensures Word(q + U64) == Word(q)
  {
  }

  /** A copy a whole turn of the words behind: its late Ack passes for the oldest message's. */
  lemma TurnBehindRuns(capacity: nat, s: State) returns (t: State)
    requires AboutToDrop(capacity, s)
    requires s.consumer.Borrowed? && s.consumed + 1 == s.consumer.copy.position + U64
    ensures Run(capacity, s, [Drop] + ([Ack] + [Retire, Leave]), t) && t.consumer.Resting?
    ensures t.consumed == s.consumed + 2 && t.fates == Forget(s.fates, s.consumed)
    ensures t.delivered == s.delivered + [s.consumer.copy]
  {
    SharedSlot(capacity, s);
    WholeTurn(s.consumer.copy.position);
    hide At, Word, Full, Run;
    var a := Step(capacity, s, Drop).value;
    var b := Step(capacity, a, Ack).value;
    t := RetireAndLeave(capacity, b);
    Chain1(capacity, a, Ack, b, [Retire, Leave], t);
    Chain1(capacity, s, Drop, a, [Ack] + [Retire, Leave], t);
  }

  lemma TurnBehindGoesWrong(capacity: nat, s: State) returns (t: State)
    requires Inv(capacity, s) && AboutToDrop(capacity, s)
    requires s.consumer.Borrowed? && s.consumed + 1 == s.consumer.copy.position + U64
    ensures Run(capacity, s, [Drop] + ([Ack] + [Retire, Leave]), t) && Wrong(capacity, t)
  {
    hide At, Word, Lost, Full, Entries, LiveSlots, Run, Step, ProducerOk, ConsumerOk;
    CapacityFacts(capacity);
    t := TurnBehindRuns(capacity, s);
    EntriesSame(s.fates, t.fates, 0, s.consumed);
    EntriesSnoc(t.fates, 0, s.consumed);
    EntriesSnoc(t.fates, 0, s.consumed + 1);
    assert t.delivered[|t.delivered| - 1] == s.consumer.copy;
  }

  // ----- The exact condition -----

  lemma ClaimIsAboutToDrop(capacity: nat, s: State)
    requires Inv(capacity, s) && Claims(s) && Full(capacity, s.produced, s.producer.cons)
    ensures AboutToDrop(capacity, s)
  {
    hide At, Word, Full, Entries, LiveSlots, ConsumerOk;
    var c := s.producer.cons;
    CapacityFacts(capacity);
    if c < s.consumed {
      WordsDiffer(c, s.consumed);
    }
    FullIsExact(capacity, s.produced, c);
  }

  lemma IsFatal(capacity: nat, s: State, actions: seq<Action>, t: State)
    requires 0 < capacity == |s.slots| && Run(capacity, s, actions, t) && Wrong(capacity, t)
    requires actions != [] && actions[0] == Drop && Drop !in actions[1..]
    ensures FatalDrop(capacity, s, actions, t)
  {
    hide Wrong, Step;
    NoDrops(capacity, Step(capacity, s, Drop).value, actions[1..]);
  }

  lemma LossIsFatal(capacity: nat, s: State, first: seq<Action>, rest: seq<Action>, t: State, q: nat)
    requires 0 < capacity == |s.slots| && Run(capacity, s, first + rest, t) && Lost(capacity, t, q)
    requires first != [] && first[0] == Drop && Drop !in first[1..] && Drop !in rest
    ensures FatalDrop(capacity, s, first + rest, t)
  {
    hide Run, Entries;
    assert (first + rest)[1..] == first[1..] + rest;
    IsFatal(capacity, s, first + rest, t);
  }

  lemma HarmfulIsFatal(capacity: nat, s: State) returns (actions: seq<Action>, t: State)
    requires Inv(capacity, s) && AboutToDrop(capacity, s) && !Harmless(s)
    ensures FatalDrop(capacity, s, actions, t)
  {
    hide At, Word, Run, Lost, Full, Entries, LiveSlots, FatalDrop, ProducerOk;
    var rest;
    if s.consumer.Borrowed? {
      t := TurnBehindGoesWrong(capacity, s);
      actions := [Drop] + ([Ack] + [Retire, Leave]);
      IsFatal(capacity, s, actions, t);
    } else if s.consumer.Leaving? && s.consumer.cons == s.consumed {
      t := LeavingGoesWrong(capacity, s);
      actions := [Drop, Leave];
      IsFatal(capacity, s, actions, t);
    } else if s.consumer.Matched? {
      rest, t := MatchedLoses(capacity, s, 0);
      actions := [Drop, RetireOldest, Stamp] + rest;
      LossIsFatal(capacity, s, [Drop, RetireOldest, Stamp], rest, t, s.produced);
    } else {
      if s.consumer.Leaving? {
        rest, t := BehindLeavingLoses(capacity, s, 0);
      } else if s.consumer.Acking? {
        rest, t := AckLoses(capacity, s, 0);
      } else if s.consumer.Loaded? {
        rest, t := LoadedLoses(capacity, s, 0);
      } else if s.consumer.Polling? {
        rest, t := PollingLoses(capacity, s, 0);
      } else {
        rest, t := LookedLoses(capacity, s, 0);
      }
      actions := DropAndPublish(0) + rest;
      LossIsFatal(capacity, s, DropAndPublish(0), rest, t, s.produced);
    }
  }

  /** After a harmless drop nothing goes wrong while later drops are harmless. */
  lemma HarmlessIsNotFatal(capacity: nat, s: State, actions: seq<Action>, t: State)
    requires Inv(capacity, s) && Harmless(s) && actions != [] && actions[0] == Drop && Run(capacity, s, actions, t)
    requires HarmlessDrops(capacity, Step(capacity, s, Drop).value, actions[1..])
    ensures Inv(capacity, t) && !Wrong(capacity, t)
  {
    hide Wrong, LiveSlots, ProducerOk, ConsumerOk, Entries;
    RunKeeps(capacity, s, actions, t);
    InvIsRight(capacity, t);
  }

  /** A claim of the oldest message can make the ring go wrong, with every later drop harmless, if and only if it is
      not harmless itself. */
  lemma DropGoesWrongIff(capacity: nat, s: State)
    requires Inv(capacity, s) && Claims(s) && Full(capacity, s.produced, s.producer.cons)
    ensures !Harmless(s) <==> exists actions, t :: FatalDrop(capacity, s, actions, t)
  {
    hide Harmless, LiveSlots, ProducerOk, ConsumerOk, Entries, Run, HarmlessDrops, Wrong;
    ClaimIsAboutToDrop(capacity, s);
    if !Harmless(s) {
      var actions, t := HarmfulIsFatal(capacity, s);
    } else if actions, t :| FatalDrop(capacity, s, actions, t) {
      HarmlessIsNotFatal(capacity, s, actions, t);
    }
  }

  // ----- Such a drop is reached -----

  /** Publishing alone, from an idle producer and into a ring that is not full. */
  lemma PublishesNext(capacity: nat, s: State) returns (actions: seq<Action>, t: State)
    requires ValidCapacity(capacity) && 0 < capacity == |s.slots| && s.producer.Idle?
    requires s.consumed <= s.produced < s.consumed + capacity
    ensures |t.slots| == capacity && Run(capacity, s, actions, t) && Drop !in actions && t.producer.Idle?
    ensures t.consumer == s.consumer && t.consumed == s.consumed && t.produced == s.produced + 1
    ensures t.fates == s.fates + [Some(0)]
  {
    FullIsExact(capacity, s.produced, s.consumed);
    hide At, Word, Full, Run;
    var a := Step(capacity, s, Check).value;
    var b := Step(capacity, a, Admit).value;
    var c := Step(capacity, b, Stamp).value;
    Chain2(capacity, a, Admit, b, Stamp, c);
    t := Publishes(capacity, c, 0);
    RunConcat(capacity, a, [Admit, Stamp], c, [Open, Fill(0), Seal] + [Publish, Advance], t);
    actions := [Check] + ([Admit, Stamp] + ([Open, Fill(0), Seal] + [Publish, Advance]));
    Chain1(capacity, s, Check, a, [Admit, Stamp] + ([Open, Fill(0), Seal] + [Publish, Advance]), t);
  }

  /** Publishing `n` messages into a new ring. */
  lemma {:induction false} Fills(capacity: nat, n: nat) returns (actions: seq<Action>, t: State)
    requires ValidCapacity(capacity) && capacity > 0 && |Init(capacity).slots| == capacity && n <= capacity
    ensures |t.slots| == capacity && Run(capacity, Init(capacity), actions, t) && Drop !in actions
    ensures t.producer.Idle? && t.consumer.Resting? && t.consumed == 0 && t.produced == |t.fates| == n
    ensures forall i :: 0 <= i < n ==> t.fates[i].Some?
  {
    if n == 0 {
      actions, t := [], Init(capacity);
    } else {
      hide Run;
      var filled, s := Fills(capacity, n - 1);
      var more;
      more, t := PublishesNext(capacity, s);
      actions := filled + more;
      RunConcat(capacity, Init(capacity), filled, s, more, t);
    }
  }

  /** To a consumer that has compared the cursor for its Ack and a producer that has loaded both cursors. */
  lemma AckMeetsCheck(capacity: nat, s: State) returns (actions: seq<Action>, t: State)
    requires Inv(capacity, s) && s.producer.Idle? && s.consumer.Resting?
    requires s.consumed < s.produced && s.fates[s.consumed].Some?
    ensures |t.slots| == capacity && Run(capacity, s, actions, t) && Drop !in actions
    ensures t.producer == Checked(t.consumed) && t.consumer.Acking?
    ensures t.consumed == s.consumed && t.produced == s.produced
  {
    hide Run, LiveSlots, ProducerOk, ConsumerOk, Entries;
    var looked := PollLooks(capacity, s);
    var borrowed := ReadyBorrowed(capacity, looked);
    var acking := Step(capacity, borrowed, Ack).value;
    t := Step(capacity, acking, Check).value;
    Chain2(capacity, borrowed, Ack, acking, Check, t);
    RunConcat(capacity, looked, [Match, Borrow], borrowed, [Ack, Check], t);
    RunConcat(capacity, s, [Poll, LoadProducer, Look], looked, [Match, Borrow] + [Ack, Check], t);
    actions := [Poll, LoadProducer, Look] + ([Match, Borrow] + [Ack, Check]);
  }

  /** In a ring of any capacity a run without a drop reaches a claim of the oldest message that is not harmless, and a
      run that goes on with that claim goes wrong. */
  lemma HarmfulDropHappens(capacity: nat) returns (before: seq<Action>, s: State, actions: seq<Action>, t: State)
    requires ValidCapacity(capacity) && capacity > 0 && |Init(capacity).slots| == capacity
    ensures |s.slots| == capacity && Run(capacity, Init(capacity), before, s) && Drop !in before
    ensures Claims(s) && Full(capacity, s.produced, s.producer.cons) && s.consumer.Acking? && !Harmless(s)
    ensures FatalDrop(capacity, s, actions, t) && Run(capacity, Init(capacity), before + actions, t)
  {
    hide Run, LiveSlots, ProducerOk, ConsumerOk, Entries, Wrong, HarmlessDrops, Step;
    InitOk(capacity);
    var filled, full := Fills(capacity, capacity);
    NoDrops(capacity, Init(capacity), filled);
    RunKeeps(capacity, Init(capacity), filled, full);
    var more;
    more, s := AckMeetsCheck(capacity, full);
    NoDrops(capacity, full, more);
    RunKeeps(capacity, full, more, s);
    before := filled + more;
    RunConcat(capacity, Init(capacity), filled, full, more, s);
    FullIsExact(capacity, s.produced, s.consumed);
    ClaimIsAboutToDrop(capacity, s);
    actions, t := HarmfulIsFatal(capacity, s);
    RunConcat(capacity, Init(capacity), before, s, actions, t);
  }
}
