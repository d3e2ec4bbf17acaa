/** What every access keeps while no message is dropped behind a consumer that is not ready for it. */
module SpscInvariant {
  import opened Bits
  import opened Payload
  import opened Spsc

  // ----- Positions, words and slots -----

  lemma CapacityFacts(capacity: nat)
    requires ValidCapacity(capacity)
    ensures 2 <= capacity < U64 && U64 % capacity == 0
  {
    var k: nat :| 1 <= k <= 32 && capacity == Pow2(k);
    Pow64();
    Pow2Add(64 - k, k);
    DivModUnique(U64, capacity, Pow2(64 - k), 0);
    Pow2Grows(k, 64);
    Pow2Grows(1, k);
    assert Pow2(1) == 2;
  }

  lemma SlotOfPosition(capacity: nat, q: nat)
    requires capacity > 0 && U64 % capacity == 0
    ensures At(capacity, q) == q % capacity
  {
    var n := U64 / capacity;
    Divides(U64, capacity);
    Divides(q, U64);
    var turns, w := q / U64, Word(q);
    Divides(w, capacity);
    Regroups(turns, n, capacity);
    Distributes(turns * n, w / capacity, capacity);
    DivModUnique(q, capacity, turns * n + w / capacity, w % capacity);
  }

  /** Positions less than a capacity apart use different slots. */
  lemma SlotsDiffer(capacity: nat, q: nat, r: nat)
    requires ValidCapacity(capacity) && q < r < q + capacity
    ensures At(capacity, q) != At(capacity, r)
  {
    CapacityFacts(capacity);
    SlotOfPosition(capacity, q);
    SlotOfPosition(capacity, r);
    ModShift(q, r - q, capacity);
  }

  /** Positions less than 2^64 apart have different words. */
  lemma WordsDiffer(q: nat, r: nat)
    requires q < r < q + U64
    ensures Word(q) != Word(r)
  {
    ModShift(q, r - q, U64);
  }

  lemma FullIsExact(capacity: nat, produced: nat, cons: nat)
    requires ValidCapacity(capacity) && cons <= produced <= cons + capacity
    ensures Full(capacity, produced, cons) <==> produced == cons + capacity
  {
    CapacityFacts(capacity);
    var d := produced - cons;
    ModShift(cons, d, U64);
    CircleDistance(Word(produced), Word(cons), d);
  }

  lemma CircleDistance(a: nat, b: nat, d: nat)
    requires d < U64 && (a == b + d || a == b + d - U64)
    ensures (a - b) % U64 == d
  {}

  // ----- The invariant -----

  /** The slot holds what was published at a position. */
  predicate Holds(slot: Slot, position: nat, fate: Option<Message>) {
    && slot.stamp == position
    && match fate
       case Some(m) => slot.state == Ready && slot.payload == m && slot.seal == (Word(position), m)
       case None => slot.state == Aborted
  }

  /** The one position whose slot is already retired though the cursor has not passed it. */
  predicate BeingLeft(s: State, q: nat) {
    s.consumer.Leaving? && s.consumer.cons == q
  }

  ghost predicate SlotAt(capacity: nat, s: State, q: nat)
    requires 0 < capacity == |s.slots| && q < |s.fates|
  {
    BeingLeft(s, q) || Holds(s.slots[At(capacity, q)], q, s.fates[q])
  }

  ghost predicate LiveSlots(capacity: nat, s: State)
    requires 0 < capacity == |s.slots| && |s.fates| == s.produced
  {
    forall q :: s.consumed <= q < s.produced ==> SlotAt(capacity, s, q)
  }

  ghost predicate ProducerOk(capacity: nat, s: State)
    requires 0 < capacity == |s.slots|
  {
    var slot := s.slots[At(capacity, s.produced)];
    var room := s.produced < s.consumed + capacity;
    match s.producer
    case Idle => true
    case Checked(c) => c <= s.consumed && s.produced <= c + capacity
    case Dropping(c) => room && c < s.consumed && s.produced == c + capacity
    case Admitted => room
    case Stamped => room && slot.stamp == s.produced
    case Filling => room && slot.stamp == s.produced && slot.state == Writing
    case Sealed =>
      room && slot.stamp == s.produced && slot.state == Writing && slot.seal == (Word(s.produced), slot.payload)
    case Marked(aborted) => room && Holds(slot, s.produced, if aborted then None else Some(slot.payload))
  }

  ghost predicate ConsumerOk(capacity: nat, s: State)
    requires 0 < capacity == |s.slots| && |s.fates| == s.produced
  {
    match s.consumer
    case Resting => true
    case Loaded(c) => c == s.consumed
    case Polling(c, p) => c == p || (c == s.consumed && c < p <= s.produced)
    case Looked(c, state) =>
      c == s.consumed < s.produced && state == if s.fates[c].Some? then Ready else Aborted
    case Matched(c) => c == s.consumed < s.produced && s.fates[c].Some?
    case Borrowed(Entry(c, m)) =>
      c <= s.consumed < c + U64 && (c == s.consumed ==> c < s.produced && s.fates[c] == Some(m))
    case Acking(c, copy) => c == s.consumed < s.produced && s.fates[c] == Some(copy.message) && copy.position == c
    case Corrupted(_) => false
    case Leaving(c, acked) =>
      || (acked.None? && c + 1 == s.consumed)   // a tombstone that was dropped meanwhile
      || (c == s.consumed < s.produced && EntryOf(s.fates, c) == acked && s.slots[At(capacity, c)].state == Retired)
  }

  function EntryOf(fates: seq<Option<Message>>, q: nat): Option<Entry>
    requires q < |fates|
  {
    if fates[q].Some? then Some(Entry(q, fates[q].value)) else None
  }

  /** The messages published from one position up to another and not dropped, oldest first. */
  function Entries(fates: seq<Option<Message>>, from: nat, end: nat): seq<Entry>
    requires end <= |fates|
  {
    if end <= from then []
    else
      var last := EntryOf(fates, end - 1);
      Entries(fates, from, end - 1) + if last.Some? then [last.value] else []
  }

  ghost predicate Bounds(capacity: nat, s: State) {
    |s.slots| == capacity && |s.fates| == s.produced && s.consumed <= s.produced <= s.consumed + capacity
  }

  ghost predicate Inv(capacity: nat, s: State) {
    && ValidCapacity(capacity) && capacity > 0 && Bounds(capacity, s)
    && LiveSlots(capacity, s) && ProducerOk(capacity, s) && ConsumerOk(capacity, s)
    && s.delivered == Entries(s.fates, 0, s.consumed)
  }

  lemma InitOk(capacity: nat)
    requires ValidCapacity(capacity)
    ensures capacity > 0 && |Init(capacity).slots| == capacity && Inv(capacity, Init(capacity))
  {
    CapacityFacts(capacity);
  }

  /** Whether claiming the oldest message is harmless. The consumer must be outside Poll and Ack and not a whole turn of
      the words behind, or inside Poll with nothing left to do to the oldest slot: it has found the ring empty, or
      it has retired a tombstone that was not claimed before. */
  predicate Harmless(s: State) {
    match s.consumer
    case Resting => true
    case Borrowed(copy) => s.consumed + 1 < copy.position + U64
    case Polling(c, p) => Word(c) == Word(p)
    case Leaving(c, acked) => acked.None? && c == s.consumed
    case _ => false
  }

  /** The producer's compare-and-swap is about to succeed. */
  predicate Claims(s: State) {
    s.producer.Checked? && Word(s.producer.cons) == Word(s.consumed)
  }

  predicate Allowed(s: State, a: Action) {
    a.Drop? && Claims(s) ==> Harmless(s)
  }

  // ----- The producer's accesses -----

  /** Writing the slot at the producer cursor touches no live slot and nothing the consumer relies on. */
  lemma ProducerPut(capacity: nat, s: State, slot: Slot, producer: Producer)
    requires Inv(capacity, s) && s.produced < s.consumed + capacity
    ensures var t := Put(capacity, s, s.produced, slot).(producer := producer);
            && LiveSlots(capacity, t) && ConsumerOk(capacity, t) && t.slots[At(capacity, t.produced)] == slot
  {
    hide Holds, At;
    var t := Put(capacity, s, s.produced, slot).(producer := producer);
    forall q | s.consumed <= q < s.produced
      ensures SlotAt(capacity, t, q) && t.slots[At(capacity, q)] == s.slots[At(capacity, q)]
    {
      SlotsDiffer(capacity, q, s.produced);
      assert SlotAt(capacity, s, q);
    }
  }

  lemma CheckKeeps(capacity: nat, s: State, a: Action)
    requires Inv(capacity, s) && (a.Check? || a.Refuse? || a.Admit?) && ProducerStep(capacity, s, a).Some?
    ensures Inv(capacity, ProducerStep(capacity, s, a).value)
  {
    hide At, Holds, Full, Entries;
    var t := ProducerStep(capacity, s, a).value;
    SameLive(capacity, s, t);
    if a.Admit? {
      FullIsExact(capacity, s.produced, s.producer.cons);
    }
  }

  /** Live slots depend on the slots, the cursors, the fates and the consumer alone. */
  lemma SameLive(capacity: nat, s: State, t: State)
    requires 0 < capacity == |s.slots| && |s.fates| == s.produced && LiveSlots(capacity, s)
    requires t.slots == s.slots && t.fates == s.fates && t.produced == s.produced && t.consumed == s.consumed
    requires s.consumer.Leaving? ==> t.consumer == s.consumer
    ensures LiveSlots(capacity, t)
  {
    hide Holds, At;
    forall q | t.consumed <= q < t.produced
      ensures SlotAt(capacity, t, q)
    {
      assert SlotAt(capacity, s, q);
    }
  }

  lemma WriteKeeps(capacity: nat, s: State, a: Action)
    requires Inv(capacity, s) && ProducerStep(capacity, s, a).Some?
    requires a.Stamp? || a.Open? || a.Fill? || a.Seal? || a.Publish? || a.Abort?
    ensures Inv(capacity, ProducerStep(capacity, s, a).value)
  {
    hide At, LiveSlots, ConsumerOk, Entries;
    var t := ProducerStep(capacity, s, a).value;
    ProducerPut(capacity, s, t.slots[At(capacity, s.produced)], t.producer);
  }

  lemma AdvanceKeeps(capacity: nat, s: State)
    requires Inv(capacity, s) && s.producer.Marked?
    ensures Inv(capacity, ProducerStep(capacity, s, Advance).value)
  {
    hide At, Entries, Holds;
    var t := ProducerStep(capacity, s, Advance).value;
    forall q | t.consumed <= q < t.produced
      ensures SlotAt(capacity, t, q)
    {
      if q < s.produced {
        assert SlotAt(capacity, s, q);
      }
    }
    EntriesSame(s.fates, t.fates, 0, s.consumed);
  }

  lemma RetireOldestKeeps(capacity: nat, s: State, a: Action)
    requires Inv(capacity, s) && s.producer.Dropping? && (a.RetireOldest? || a.RetireAndFail?)
    ensures Inv(capacity, ProducerStep(capacity, s, a).value)
  {
    hide At, Entries, Holds, LiveSlots, ConsumerOk;
    var c := s.producer.cons;
    SameSlot(capacity, c);
    ProducerPut(capacity, s, s.slots[At(capacity, c)].(state := Retired), if a.RetireOldest? then Admitted else Idle);
  }

  lemma SameSlot(capacity: nat, q: nat)
    requires ValidCapacity(capacity) && capacity > 0
    ensures At(capacity, q + capacity) == At(capacity, q)
  {
    hide At;
    CapacityFacts(capacity);
    SlotOfPosition(capacity, q);
    SlotOfPosition(capacity, q + capacity);
    Divides(q, capacity);
    Distributes(q / capacity, 1, capacity);
    DivModUnique(q + capacity, capacity, q / capacity + 1, q % capacity);
  }

  lemma DropKeeps(capacity: nat, s: State)
    requires Inv(capacity, s) && ProducerStep(capacity, s, Drop).Some? && (Claims(s) ==> Harmless(s))
    ensures Inv(capacity, ProducerStep(capacity, s, Drop).value)
  {
    hide At, Entries, Holds, Word, Full;
    var c := s.producer.cons;
    var t := ProducerStep(capacity, s, Drop).value;
    FullIsExact(capacity, s.produced, c);
    CapacityFacts(capacity);
    if c < s.consumed {
      WordsDiffer(c, s.consumed);
      SameLive(capacity, s, t);
    } else {
      ClaimKeepsSlots(capacity, s, t);
      ClaimKeepsConsumer(capacity, s, t);
      EntriesSnoc(t.fates, 0, c);
      EntriesSame(s.fates, t.fates, 0, c);
    }
  }

  lemma ClaimKeepsSlots(capacity: nat, s: State, t: State)
    requires Inv(capacity, s) && s.consumed < s.produced
    requires t == s.(producer := t.producer, consumed := s.consumed + 1, fates := Forget(s.fates, s.consumed))
    ensures LiveSlots(capacity, t)
  {
    hide At, Holds;
    forall q | t.consumed <= q < t.produced
      ensures SlotAt(capacity, t, q)
    {
      assert SlotAt(capacity, s, q);
    }
  }

  lemma ClaimKeepsConsumer(capacity: nat, s: State, t: State)
    requires Inv(capacity, s) && s.consumed < s.produced && Harmless(s)
    requires t == s.(producer := t.producer, consumed := s.consumed + 1, fates := Forget(s.fates, s.consumed))
    ensures ConsumerOk(capacity, t)
  {
    hide At, Holds, LiveSlots, ProducerOk;
    CapacityFacts(capacity);
    match s.consumer
    case Polling(c, p) =>
      if c < p {
        WordsDiffer(c, p);
      }
    case _ =>
  }

  lemma EntriesSnoc(fates: seq<Option<Message>>, from: nat, q: nat)
    requires from <= q < |fates|
    ensures Entries(fates, from, q + 1)
            == Entries(fates, from, q) + if fates[q].Some? then [Entry(q, fates[q].value)] else []
  {
  }

  lemma {:induction false} EntriesSame(f: seq<Option<Message>>, g: seq<Option<Message>>, from: nat, end: nat)
    requires end <= |f| && end <= |g| && forall q :: from <= q < end ==> f[q] == g[q]
    ensures Entries(f, from, end) == Entries(g, from, end)
    decreases end
  {
    if from < end {
      EntriesSame(f, g, from, end - 1);
    }
  }

  // ----- The consumer's accesses -----

  lemma ReadKeeps(capacity: nat, s: State, a: Action)
    requires Inv(capacity, s) && ConsumerStep(capacity, s, a).Some?
    requires !a.SkipTombstone? && !a.Retire? && !a.RetireCorrupted? && !a.Leave? && !a.Ack?
    ensures Inv(capacity, ConsumerStep(capacity, s, a).value)
    ensures !a.NotReady? && !a.Mismatch?
  {
    hide At, Entries, Word;
    var t := ConsumerStep(capacity, s, a).value;
    SameLive(capacity, s, t);
    if a.Look? || a.Match? || a.Borrow? || a.Mismatch? || a.NotReady? {
      if s.consumed < s.produced {
        assert SlotAt(capacity, s, s.consumed);
      }
    }
    CapacityFacts(capacity);
  }

  lemma AckKeeps(capacity: nat, s: State)
    requires Inv(capacity, s) && ConsumerStep(capacity, s, Ack).Some?
    ensures Inv(capacity, ConsumerStep(capacity, s, Ack).value)
  {
    hide At, Entries, Word;
    var t := ConsumerStep(capacity, s, Ack).value;
    SameLive(capacity, s, t);
    if s.consumer.copy.position < s.consumed {
      WordsDiffer(s.consumer.copy.position, s.consumed);
    }
  }

  /** Retiring the slot at the consumer cursor touches no other live slot and nothing the producer relies on. */
  lemma RetireKeeps(capacity: nat, s: State, a: Action)
    requires Inv(capacity, s) && (a.SkipTombstone? || a.Retire? || a.RetireCorrupted?)
    requires ConsumerStep(capacity, s, a).Some?
    ensures Inv(capacity, ConsumerStep(capacity, s, a).value)
  {
    hide At, Entries, Holds;
    var t := ConsumerStep(capacity, s, a).value;
    var c := s.consumed;
    forall q | c <= q < s.produced
      ensures SlotAt(capacity, t, q)
    {
      if q > c {
        SlotsDiffer(capacity, c, q);
        assert SlotAt(capacity, s, q);
      }
    }
    if s.produced < c + capacity {
      SlotsDiffer(capacity, c, s.produced);
    }
  }

  lemma LeaveKeeps(capacity: nat, s: State)
    requires Inv(capacity, s) && s.consumer.Leaving?
    ensures Inv(capacity, ConsumerStep(capacity, s, Leave).value)
  {
    hide At, Entries, Holds;
    var t := ConsumerStep(capacity, s, Leave).value;
    forall q | t.consumed <= q < t.produced
      ensures SlotAt(capacity, t, q)
    {
      assert SlotAt(capacity, s, q);
    }
    if s.consumer.cons == s.consumed {
      EntriesSnoc(s.fates, 0, s.consumed);
    }
  }

  // ----- Whole runs -----

  /** Every access keeps the invariant, a drop only where it is harmless. The consumer never
      sees a slot that is not ready or not its own. */
  lemma StepKeeps(capacity: nat, s: State, a: Action)
    requires Inv(capacity, s) && Step(capacity, s, a).Some? && Allowed(s, a)
    ensures Inv(capacity, Step(capacity, s, a).value)
    ensures !a.NotReady? && !a.Mismatch? && !a.RetireCorrupted?
  {
    hide At, Entries, Holds, LiveSlots;
    if ProducerStep(capacity, s, a).Some? {
      match a
      case Drop => DropKeeps(capacity, s);
      case RetireOldest => RetireOldestKeeps(capacity, s, a);
      case RetireAndFail => RetireOldestKeeps(capacity, s, a);
      case Advance => AdvanceKeeps(capacity, s);
      case Check => CheckKeeps(capacity, s, a);
      case Refuse => CheckKeeps(capacity, s, a);
      case Admit => CheckKeeps(capacity, s, a);
      case _ => WriteKeeps(capacity, s, a);
    } else {
      match a
      case Ack => AckKeeps(capacity, s);
      case SkipTombstone => RetireKeeps(capacity, s, a);
      case Retire => RetireKeeps(capacity, s, a);
      case RetireCorrupted => RetireKeeps(capacity, s, a);
      case Leave => LeaveKeeps(capacity, s);
      case _ => ReadKeeps(capacity, s, a);
    }
  }

  /** Every drop of a run is harmless. */
  ghost predicate HarmlessDrops(capacity: nat, s: State, actions: seq<Action>)
    requires 0 < capacity == |s.slots|
    decreases |actions|
  {
    actions == [] || (Allowed(s, actions[0])
      && (Step(capacity, s, actions[0]).Some? ==>
            HarmlessDrops(capacity, Step(capacity, s, actions[0]).value, actions[1..])))
  }

  lemma {:induction false} RunKeeps(capacity: nat, s: State, actions: seq<Action>, t: State)
    requires Inv(capacity, s) && Run(capacity, s, actions, t) && HarmlessDrops(capacity, s, actions)
    ensures Inv(capacity, t)
    decreases |actions|
  {
    hide Step, LiveSlots, ProducerOk, ConsumerOk, Entries;
    if actions != [] {
      StepOk(capacity, s, actions[0]);
      RunKeeps(capacity, Step(capacity, s, actions[0]).value, actions[1..], t);
    }
  }

  lemma StepOk(capacity: nat, s: State, a: Action)
    requires Inv(capacity, s) && Step(capacity, s, a).Some? && Allowed(s, a)
    ensures Inv(capacity, Step(capacity, s, a).value)
  {
    StepKeeps(capacity, s, a);
  }
}
