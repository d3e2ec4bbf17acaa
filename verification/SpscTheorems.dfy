/** The ring is a bounded first-in first-out queue. */
module SpscTheorems {
  import opened Payload
  import opened Spsc
  import opened SpscInvariant

  // ----- The queue -----

  /** The messages in the ring, oldest first. */
  ghost function Queue(s: State): seq<Entry>
    requires |s.fates| == s.produced
  {
    Entries(s.fates, s.consumed, s.produced)
  }

  lemma {:induction false} EntriesJoin(fates: seq<Option<Message>>, a: nat, b: nat, c: nat)
    requires a <= b <= c <= |fates|
    ensures Entries(fates, a, b) + Entries(fates, b, c) == Entries(fates, a, c)
    decreases c
  {
    if b < c {
      EntriesJoin(fates, a, b, c - 1);
    }
  }

  lemma {:induction false} EntriesCount(fates: seq<Option<Message>>, a: nat, b: nat)
    requires a <= b <= |fates|
    ensures |Entries(fates, a, b)| <= b - a
    decreases b
  {
    if a < b {
      EntriesCount(fates, a, b - 1);
    }
  }

  lemma FirstEntry(fates: seq<Option<Message>>, c: nat, end: nat)
    requires c < end <= |fates|
    ensures Entries(fates, c, end)
            == (if fates[c].Some? then [Entry(c, fates[c].value)] else []) + Entries(fates, c + 1, end)
  {
    EntriesJoin(fates, c, c + 1, end);
    EntriesSnoc(fates, c, c);
  }

  /** In every run whose drops are harmless, what was acknowledged followed by what is queued is what was published and
      not dropped: each position once, in order, and never more than the capacity. */
  lemma Fifo(capacity: nat, actions: seq<Action>, t: State)
    requires ValidCapacity(capacity) && capacity > 0 && |Init(capacity).slots| == capacity
    requires Run(capacity, Init(capacity), actions, t) && HarmlessDrops(capacity, Init(capacity), actions)
    ensures t.consumed <= |t.fates| == t.produced <= t.consumed + capacity && |Queue(t)| <= capacity
    ensures t.delivered + Queue(t) == Entries(t.fates, 0, t.produced)
  {
    hide LiveSlots, ProducerOk, ConsumerOk, Run, HarmlessDrops, Entries;
    InitOk(capacity);
    RunKeeps(capacity, Init(capacity), actions, t);
    EntriesJoin(t.fates, 0, t.consumed, t.produced);
    EntriesCount(t.fates, t.consumed, t.produced);
  }

  // ----- Each access on the queue -----

  /** What an access does to a bounded first-in first-out queue. */
  datatype Operation = Nothing | Enqueue(entry: Entry) | Dequeue(entry: Entry) | Discard(entry: Entry)

  ghost predicate Performs(capacity: nat, before: seq<Entry>, op: Operation, after: seq<Entry>) {
    match op
    case Nothing => after == before
    case Enqueue(e) => |before| < capacity && after == before + [e]
    case Dequeue(e) => before == [e] + after
    case Discard(e) => before == [e] + after
  }

  /** Only three accesses touch the queue: advancing the producer cursor behind a committed message, storing the
      consumer cursor behind an acknowledged one, and claiming the oldest message. */
  ghost function OperationOf(capacity: nat, s: State, a: Action): Operation
    requires Inv(capacity, s)
  {
    match a
    case Advance =>
      if s.producer == Marked(false) then Enqueue(Entry(s.produced, s.slots[At(capacity, s.produced)].payload))
      else Nothing
    case Leave => if s.consumer.Leaving? && s.consumer.acked.Some? then Dequeue(s.consumer.acked.value) else Nothing
    case Drop =>
      if Claims(s) && s.consumed < s.produced && s.fates[s.consumed].Some? then
        Discard(Entry(s.consumed, s.fates[s.consumed].value))
      else Nothing
    case _ => Nothing
  }

  /** Every access is one operation of the queue, and a message is delivered exactly when it is taken off. */
  lemma StepRefines(capacity: nat, s: State, a: Action)
    requires Inv(capacity, s) && Step(capacity, s, a).Some? && Allowed(s, a)
    ensures var t, op := Step(capacity, s, a).value, OperationOf(capacity, s, a);
            && Inv(capacity, t) && Performs(capacity, Queue(s), op, Queue(t))
            && t.delivered == s.delivered + if op.Dequeue? then [op.entry] else []
  {
    hide At, Entries, Holds, LiveSlots, Word, Full;
    StepOk(capacity, s, a);
    var t := Step(capacity, s, a).value;
    if a.Advance? {
      AdvanceEnqueues(capacity, s, t);
    } else if a.Leave? {
      LeaveDequeues(capacity, s, t);
    } else if a.Drop? {
      DropTakesHead(capacity, s, t);
    } else {
      OthersLeaveQueue(capacity, s, a, t);
    }
  }

  lemma OthersLeaveQueue(capacity: nat, s: State, a: Action, t: State)
    requires 0 < capacity == |s.slots| && |s.fates| == s.produced
    requires Step(capacity, s, a) == Some(t) && !a.Advance? && !a.Leave? && !a.Drop?
    ensures t.fates == s.fates && t.produced == s.produced && t.consumed == s.consumed && t.delivered == s.delivered
  {
    hide At, Word, Full;
  }

  lemma AdvanceEnqueues(capacity: nat, s: State, t: State)
    requires Inv(capacity, s) && Step(capacity, s, Advance) == Some(t)
    ensures |t.fates| == t.produced
    ensures Performs(capacity, Queue(s), OperationOf(capacity, s, Advance), Queue(t)) && t.delivered == s.delivered
  {
    hide At, Entries, Holds, LiveSlots, Word, ConsumerOk;
    EntriesSame(s.fates, t.fates, s.consumed, s.produced);
    EntriesSnoc(t.fates, s.consumed, s.produced);
    EntriesCount(s.fates, s.consumed, s.produced);
  }

  lemma LeaveDequeues(capacity: nat, s: State, t: State)
    requires Inv(capacity, s) && Step(capacity, s, Leave) == Some(t)
    ensures |t.fates| == t.produced
    ensures var op := OperationOf(capacity, s, Leave);
            && Performs(capacity, Queue(s), op, Queue(t))
            && t.delivered == s.delivered + if op.Dequeue? then [op.entry] else []
  {
    hide At, Entries, Holds, LiveSlots, Word, ProducerOk;
    if s.consumer.cons == s.consumed {
      FirstEntry(s.fates, s.consumed, s.produced);
    }
  }

  lemma DropTakesHead(capacity: nat, s: State, t: State)
    requires Inv(capacity, s) && Step(capacity, s, Drop) == Some(t)
    ensures |t.fates| == t.produced
    ensures Performs(capacity, Queue(s), OperationOf(capacity, s, Drop), Queue(t)) && t.delivered == s.delivered
  {
    hide At, Entries, Holds, LiveSlots, Word, Full;
    var c := s.producer.cons;
    CapacityFacts(capacity);
    FullIsExact(capacity, s.produced, c);
    if c < s.consumed {
      WordsDiffer(c, s.consumed);
    } else {
      FirstEntry(s.fates, c, s.produced);
      EntriesSame(s.fates, t.fates, c + 1, s.produced);
    }
  }

  /** A reservation can be refused exactly when the ring was full at its check. */
  lemma RefusedWhenFull(capacity: nat, s: State)
    requires Inv(capacity, s) && s.producer.Idle?
    ensures Step(capacity, s, Check) == Some(s.(producer := Checked(s.consumed)))
    ensures Step(capacity, s.(producer := Checked(s.consumed)), Refuse).Some? <==> s.produced == s.consumed + capacity
  {
    hide At, Word, Full;
    FullIsExact(capacity, s.produced, s.consumed);
  }

  /** A poll can report an empty ring exactly when there was nothing in it at its load of the producer cursor. */
  lemma EmptyWhenEmpty(capacity: nat, s: State)
    requires Inv(capacity, s) && s.consumer.Loaded?
    ensures var t := s.(consumer := Polling(s.consumed, s.produced));
            && Step(capacity, s, LoadProducer) == Some(t)
            && (Step(capacity, t, Empty).Some? <==> s.consumed == s.produced)
            && (Step(capacity, t, Empty).Some? ==> Queue(s) == [])
  {
    hide At, Word;
    CapacityFacts(capacity);
    if s.consumed < s.produced {
      WordsDiffer(s.consumed, s.produced);
    }
  }

  // ----- The consumer finds the next message -----

  lemma {:induction false} RunConcat(capacity: nat, s: State, a: seq<Action>, t: State, b: seq<Action>, u: State)
    requires 0 < capacity == |s.slots| == |t.slots| && Run(capacity, s, a, t) && Run(capacity, t, b, u)
    ensures Run(capacity, s, a + b, u)
    decreases |a|
  {
    hide Step;
    if a == [] {
      assert a + b == b;
    } else {
      assert (a + b)[1..] == a[1..] + b;
      RunConcat(capacity, Step(capacity, s, a[0]).value, a[1..], t, b, u);
    }
  }

  lemma Chain1(capacity: nat, s: State, a: Action, t: State, rest: seq<Action>, u: State)
    requires 0 < capacity == |s.slots| == |t.slots| && Step(capacity, s, a) == Some(t) && Run(capacity, t, rest, u)
    ensures Run(capacity, s, [a] + rest, u)
  {
    hide Step;
    assert ([a] + rest)[1..] == rest;
  }

  /** Three accesses bring a resting consumer of a non-empty ring to the state of the oldest slot. */
  lemma PollLooks(capacity: nat, s: State) returns (t: State)
    requires Inv(capacity, s) && s.consumer.Resting? && s.consumed < s.produced
    ensures Inv(capacity, t) && Run(capacity, s, [Poll, LoadProducer, Look], t)
    ensures t == s.(consumer := Looked(s.consumed, if s.fates[s.consumed].Some? then Ready else Aborted))
  {
    hide At, Entries, Holds, Word;
    CapacityFacts(capacity);
    WordsDiffer(s.consumed, s.produced);
    assert SlotAt(capacity, s, s.consumed);
    LiveState(capacity, s);
    var a := Step(capacity, s, Poll).value;
    var b := Step(capacity, a, LoadProducer).value;
    t := Step(capacity, b, Look).value;
    Chain1(capacity, b, Look, t, [], t);
    Chain1(capacity, a, LoadProducer, b, [Look], t);
    Chain1(capacity, s, Poll, a, [LoadProducer] + [Look], t);
    assert [Poll] + ([LoadProducer] + [Look]) == [Poll, LoadProducer, Look];
    RunKeeps(capacity, s, [Poll, LoadProducer, Look], t);
  }

  lemma LiveState(capacity: nat, s: State)
    requires Inv(capacity, s) && s.consumer.Resting? && s.consumed < s.produced
    ensures s.slots[At(capacity, s.consumed)].state == if s.fates[s.consumed].Some? then Ready else Aborted
  {
    hide At;
    assert SlotAt(capacity, s, s.consumed);
  }

  lemma Chain2(capacity: nat, s: State, a: Action, t: State, b: Action, u: State)
    requires 0 < capacity == |s.slots| == |t.slots| == |u.slots|
    requires Step(capacity, s, a) == Some(t) && Step(capacity, t, b) == Some(u)
    ensures Run(capacity, s, [a, b], u)
  {
    hide Step;
    Chain1(capacity, t, b, u, [], u);
    Chain1(capacity, s, a, t, [b], u);
    assert [a] + [b] == [a, b];
  }

  /** Past a tombstone in two accesses. */
  lemma TombstoneSkipped(capacity: nat, s: State) returns (t: State)
    requires Inv(capacity, s) && s.consumer.Looked? && s.fates[s.consumed].None?
    ensures Inv(capacity, t) && Run(capacity, s, [SkipTombstone, Leave], t)
    ensures t.consumer.Resting? && t.consumed == s.consumed + 1 && t.produced == s.produced
    ensures t.fates == s.fates && t.delivered == s.delivered && t.producer == s.producer
  {
    hide At, Entries, Holds;
    var a := Step(capacity, s, SkipTombstone).value;
    StepOk(capacity, s, SkipTombstone);
    t := Step(capacity, a, Leave).value;
    StepOk(capacity, a, Leave);
    Chain2(capacity, s, SkipTombstone, a, Leave, t);
  }

  /** A ready slot is borrowed in two accesses: its sequence number and its checksum match. */
  lemma ReadyBorrowed(capacity: nat, s: State) returns (t: State)
    requires Inv(capacity, s) && s.consumer.Looked? && s.fates[s.consumed].Some?
    ensures Inv(capacity, t) && Run(capacity, s, [Match, Borrow], t)
    ensures t == s.(consumer := Borrowed(Entry(s.consumed, s.fates[s.consumed].value)))
  {
    hide At, Entries;
    assert SlotAt(capacity, s, s.consumed);
    var a := Step(capacity, s, Match).value;
    StepOk(capacity, s, Match);
    t := Step(capacity, a, Borrow).value;
    StepOk(capacity, a, Borrow);
    Chain2(capacity, s, Match, a, Borrow, t);
  }

  /** Whatever the producer is doing, a consumer that polls alone borrows the oldest queued message, past any
      tombstones, without an error. */
  lemma {:induction false} PollFinds(capacity: nat, s: State) returns (actions: seq<Action>, t: State)
    requires Inv(capacity, s) && s.consumer.Resting? && Queue(s) != []
    ensures Inv(capacity, t) && Run(capacity, s, actions, t) && t.producer == s.producer && t.produced == s.produced
    ensures t.fates == s.fates && t.delivered == s.delivered && Queue(t) == Queue(s)
    ensures t.consumer == Borrowed(Queue(s)[0]) && Queue(s)[0].position == t.consumed
    decreases s.produced - s.consumed
  {
    hide Run, Entries, LiveSlots, ProducerOk;
    EntriesCount(s.fates, s.consumed, s.produced);
    var looked := PollLooks(capacity, s);
    FirstEntry(s.fates, s.consumed, s.produced);
    if s.fates[s.consumed].Some? {
      t := ReadyBorrowed(capacity, looked);
      actions := [Poll, LoadProducer, Look] + [Match, Borrow];
      RunConcat(capacity, s, [Poll, LoadProducer, Look], looked, [Match, Borrow], t);
    } else {
      var past := TombstoneSkipped(capacity, looked);
      var more;
      more, t := PollFinds(capacity, past);
      RunConcat(capacity, looked, [SkipTombstone, Leave], past, more, t);
      RunConcat(capacity, s, [Poll, LoadProducer, Look], looked, [SkipTombstone, Leave] + more, t);
      actions := [Poll, LoadProducer, Look] + ([SkipTombstone, Leave] + more);
    }
  }

  /** The two accesses of an Ack after its comparison, whatever the ring looks like by then. */
  lemma RetireAndLeave(capacity: nat, s: State) returns (t: State)
    requires 0 < capacity == |s.slots| && s.consumer.Acking?
    ensures |t.slots| == capacity && Run(capacity, s, [Retire, Leave], t)
    ensures var c := s.consumer.cons;
            t == Put(capacity, s, c, s.slots[At(capacity, c)].(state := Retired))
                 .(consumer := Resting, consumed := c + 1, delivered := s.delivered + [s.consumer.copy])
  {
    hide At;
    var b := Step(capacity, s, Retire).value;
    t := Step(capacity, b, Leave).value;
    Chain2(capacity, s, Retire, b, Leave, t);
  }

  /** Acknowledging the borrowed head delivers it and takes it off the queue. */
  lemma AckDelivers(capacity: nat, s: State) returns (t: State)
    requires Inv(capacity, s) && s.consumer.Borrowed? && s.consumer.copy.position == s.consumed
    ensures Inv(capacity, t) && Run(capacity, s, [Ack] + [Retire, Leave], t)
    ensures t.delivered == s.delivered + [s.consumer.copy] && [s.consumer.copy] + Queue(t) == Queue(s)
    ensures t.consumer.Resting? && t.producer == s.producer && t.fates == s.fates
  {
    hide At, Entries, LiveSlots, ProducerOk, Run;
    var a := s.(consumer := Acking(s.consumed, s.consumer.copy));
    assert Step(capacity, s, Ack) == Some(a);
    t := RetireAndLeave(capacity, a);
    Chain1(capacity, s, Ack, a, [Retire, Leave], t);
    FirstEntry(s.fates, s.consumed, s.produced);
    NoDrops(capacity, s, [Ack] + [Retire, Leave]);
    RunKeeps(capacity, s, [Ack] + [Retire, Leave], t);
  }

  lemma {:induction false} NoDrops(capacity: nat, s: State, actions: seq<Action>)
    requires 0 < capacity == |s.slots| && Drop !in actions
    ensures HarmlessDrops(capacity, s, actions)
    decreases |actions|
  {
    hide Step;
    if actions != [] && Step(capacity, s, actions[0]).Some? {
      NoDrops(capacity, Step(capacity, s, actions[0]).value, actions[1..]);
    }
  }

  /** A borrow whose message was dropped is acknowledged late: the queue stays as it is. */
  lemma LateAck(capacity: nat, s: State)
    requires Inv(capacity, s) && s.consumer.Borrowed? && s.consumer.copy.position < s.consumed
    ensures Step(capacity, s, Ack).None? && Step(capacity, s, Late) == Some(s.(consumer := Resting))
  {
    hide At, Word;
    WordsDiffer(s.consumer.copy.position, s.consumed);
  }
}
