/** The single-producer single-consumer ring in shared memory, one access at a time to the cursors and to the fields of
    a slot. A payload counts as one field: filling a slot, sealing it and borrowing its contents are single steps.

    Positions count messages from the start and never repeat. Cursors and stamps are positions here, but
    the code sees a position only as a 64-bit word (`Word`), which wraps around: it compares words and
    finds a slot from a word. Accesses interleave in any order and take effect one after the other. */
module Spsc {
  import opened Bits
  import opened Arithmetic
  import opened Payload

  type Message = nat

  datatype SlotState = Free | Writing | Ready | Aborted | Retired

  /** `stamp` is the position whose word is the slot's sequence number; `seal` is what the checksum was computed
      over when the slot was last sealed. */
  datatype Slot = Slot(stamp: nat, state: SlotState, payload: Message, seal: (word, Message))

  /** A message and the position it was published at. */
  datatype Entry = Entry(position: nat, message: Message)

  datatype Producer =
    | Idle
    | Checked(cons: nat)      // both cursors are loaded
    | Dropping(cons: nat)     // the oldest message is claimed, its slot not yet retired
    | Admitted                // the slot at the producer cursor may be written
    | Stamped
    | Filling
    | Sealed
    | Marked(aborted: bool)   // the final state is stored, the cursor not yet advanced

  datatype Consumer =
    | Resting
    | Loaded(cons: nat)
    | Polling(cons: nat, prod: nat)
    | Looked(cons: nat, state: SlotState)
    | Matched(cons: nat)
    | Borrowed(copy: Entry)
    | Acking(cons: nat, copy: Entry)
    | Corrupted(cons: nat)
    | Leaving(cons: nat, acked: Option<Entry>)   // the slot is retired, the cursor not yet stored

  /** `fates[q]` is the message published at position `q`, or None when it was aborted or dropped;
      `delivered` lists the acknowledged messages. */
  datatype State = State(slots: seq<Slot>, produced: nat, consumed: nat, producer: Producer, consumer: Consumer,
                         fates: seq<Option<Message>>, delivered: seq<Entry>)

  function Word(position: nat): word {
    position % U64
  }

  ghost predicate ValidCapacity(capacity: nat) {
    exists k: nat :: 1 <= k <= 32 && capacity == Pow2(k)
  }

  /** The slot of a position, computed from its word. */
  function At(capacity: nat, position: nat): (i: nat)
    requires capacity > 0
    ensures i < capacity
  {
    Word(position) % capacity
  }

  predicate Full(capacity: nat, produced: nat, cons: nat) {
    (Word(produced) - Word(cons)) % U64 >= capacity
  }

  function Init(capacity: nat): State {
    State(seq(capacity, _ => Slot(0, Free, 0, (0, 0))), 0, 0, Idle, Resting, [], [])
  }

  datatype Action =
    | Check | Refuse | Admit | Drop | RetireOldest | RetireAndFail | Stamp | Open | Fill(message: Message) | Seal
    | Publish | Abort | Advance
    | Poll | LoadProducer | Empty | Look | NotReady | SkipTombstone | Match | Mismatch | Borrow | Release | Ack | Late
    | Retire | RetireCorrupted | Leave

  function Put(capacity: nat, s: State, position: nat, slot: Slot): State
    requires 0 < capacity == |s.slots|
  {
    s.(slots := s.slots[At(capacity, position) := slot])
  }

  function Forget(fates: seq<Option<Message>>, position: nat): seq<Option<Message>> {
    if position < |fates| then fates[position := None] else fates
  }

  /** What an access of the producer does; None when the producer is not about to make it. */
  function ProducerStep(capacity: nat, s: State, a: Action): Option<State>
    requires 0 < capacity == |s.slots|
  {
    var slot := s.slots[At(capacity, s.produced)];
    match (s.producer, a)
    case (Idle, Check) => Some(s.(producer := Checked(s.consumed)))
    case (Checked(cons), Refuse) => if Full(capacity, s.produced, cons) then Some(s.(producer := Idle)) else None
    case (Checked(cons), Admit) => if !Full(capacity, s.produced, cons) then Some(s.(producer := Admitted)) else None
    case (Checked(cons), Drop) =>
      if !Full(capacity, s.produced, cons) then None
      else if Word(s.consumed) != Word(cons) then Some(s.(producer := Admitted))
      else Some(s.(producer := Dropping(cons), consumed := s.consumed + 1, fates := Forget(s.fates, cons)))
    case (Dropping(cons), RetireOldest) =>
      Some(Put(capacity, s, cons, s.slots[At(capacity, cons)].(state := Retired)).(producer := Admitted))
    case (Dropping(cons), RetireAndFail) =>
      Some(Put(capacity, s, cons, s.slots[At(capacity, cons)].(state := Retired)).(producer := Idle))
    case (Admitted, Stamp) => Some(Put(capacity, s, s.produced, slot.(stamp := s.produced)).(producer := Stamped))
    case (Stamped, Open) => Some(Put(capacity, s, s.produced, slot.(state := Writing)).(producer := Filling))
    case (Filling, Fill(m)) => Some(Put(capacity, s, s.produced, slot.(payload := m)))
    case (Filling, Seal) =>
      Some(Put(capacity, s, s.produced, slot.(seal := (Word(slot.stamp), slot.payload))).(producer := Sealed))
    case (Filling, Abort) => Some(Put(capacity, s, s.produced, slot.(state := Aborted)).(producer := Marked(true)))
    case (Sealed, Publish) => Some(Put(capacity, s, s.produced, slot.(state := Ready)).(producer := Marked(false)))
    case (Marked(aborted), Advance) =>
      Some(s.(producer := Idle, produced := s.produced + 1,
              fates := s.fates + [if aborted then None else Some(slot.payload)]))
    case _ => None
  }

  function ConsumerStep(capacity: nat, s: State, a: Action): Option<State>
    requires 0 < capacity == |s.slots|
  {
    match (s.consumer, a)
    case (Resting, Poll) => Some(s.(consumer := Loaded(s.consumed)))
    case (Loaded(c), LoadProducer) => Some(s.(consumer := Polling(c, s.produced)))
    case (Polling(c, p), Empty) => if Word(c) == Word(p) then Some(s.(consumer := Resting)) else None
    case (Polling(c, p), Look) =>
      if Word(c) != Word(p) then Some(s.(consumer := Looked(c, s.slots[At(capacity, c)].state))) else None
    case (Looked(c, state), NotReady) =>
      if state != Ready && state != Aborted then Some(s.(consumer := Resting)) else None
    case (Looked(c, state), SkipTombstone) =>
      if state == Aborted then
        Some(Put(capacity, s, c, s.slots[At(capacity, c)].(state := Retired)).(consumer := Leaving(c, None)))
      else None
    case (Looked(c, state), Match) =>
      if state == Ready && Word(s.slots[At(capacity, c)].stamp) == Word(c) then Some(s.(consumer := Matched(c)))
      else None
    case (Looked(c, state), Mismatch) =>
      if state == Ready && Word(s.slots[At(capacity, c)].stamp) != Word(c) then Some(s.(consumer := Corrupted(c)))
      else None
    case (Matched(c), Borrow) =>
      var slot := s.slots[At(capacity, c)];
      if slot.seal == (Word(slot.stamp), slot.payload) then
        Some(s.(consumer := Borrowed(Entry(slot.stamp, slot.payload))))
      else Some(s.(consumer := Corrupted(c)))
    case (Borrowed(_), Release) => Some(s.(consumer := Resting))
    case (Borrowed(copy), Ack) =>
      if Word(copy.position) == Word(s.consumed) then Some(s.(consumer := Acking(s.consumed, copy))) else None
    case (Borrowed(copy), Late) =>
      if Word(copy.position) != Word(s.consumed) then Some(s.(consumer := Resting)) else None
    case (Acking(c, copy), Retire) =>
      Some(Put(capacity, s, c, s.slots[At(capacity, c)].(state := Retired)).(consumer := Leaving(c, Some(copy))))
    case (Corrupted(c), RetireCorrupted) =>
      Some(Put(capacity, s, c, s.slots[At(capacity, c)].(state := Retired)).(consumer := Leaving(c, None)))
    case (Leaving(c, acked), Leave) =>
      Some(s.(consumer := Resting, consumed := c + 1,
              delivered := s.delivered + if acked.Some? then [acked.value] else []))
    case _ => None
  }

  function Step(capacity: nat, s: State, a: Action): (r: Option<State>)
    requires 0 < capacity == |s.slots|
    ensures r.Some? ==> |r.value.slots| == capacity
  {
    var r := ProducerStep(capacity, s, a);
    if r.Some? then r else ConsumerStep(capacity, s, a)
  }

  /** A run of accesses from `s` to `t`. */
  ghost predicate Run(capacity: nat, s: State, actions: seq<Action>, t: State)
    requires 0 < capacity == |s.slots|
    decreases |actions|
  {
    if actions == [] then t == s
    else
      var next := Step(capacity, s, actions[0]);
      next.Some? && Run(capacity, next.value, actions[1..], t)
  }
}
