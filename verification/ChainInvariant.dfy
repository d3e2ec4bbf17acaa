/** What every step of every process keeps. */
module ChainInvariant {
  import opened Bits
  import opened Payload
  import opened Frames
  import opened Completion
  import opened Chain

  // ----- The invariant, node by node and lane by lane -----

  /** A frame the stage at position `k` accepts as sample `id`, with no timestamp in the future. */
  ghost predicate Good(c: Config, k: nat, f: SemanticFrame, id: nat, now: nat) {
    && k <= STAGES && WellShaped(f) && PhaseOk(c, f, id)
    && Acceptable(ROLES[k], c.mode, f, f.payload)
    && (c.mode == SameHost ==> f.origin <= now && forall i :: 0 <= i < STAGES ==> f.stamps[i] <= now)
  }

  ghost predicate GoodMsg(c: Config, i: nat, m: Msg, id: nat, now: nat)
    requires i < |c.kinds| && |c.links| == |c.kinds| + 1
  {
    HeaderOk(c, c.kinds[i], c.links[i], m, id) && Good(c, StageIn(c.kinds[i]), m.frame, id, now)
  }

  ghost predicate Counting(log: seq<nat>) {
    forall k :: 0 <= k < |log| ==> log[k] == k
  }

  ghost predicate HeldOk(c: Config, i: nat, n: Node, now: nat)
    requires i < |c.kinds| && |c.links| == |c.kinds| + 1
  {
    match n.held
    case Nothing => if c.links[i + 1].NoLink? then n.sent == 0 else n.sent == |n.log|
    case Loose(f) =>
      && n.sent + 1 == |n.log| && Good(c, StageOut(c.kinds[i]), f, n.sent, now)
      && !c.links[i + 1].NoLink? && !(c.links[i].Shm? && c.links[i + 1].Shm?)
    case Owned(f, _, _) =>
      && n.sent + 1 == |n.log| && Good(c, StageOut(c.kinds[i]), f, n.sent, now)
      && c.links[i + 1].Shm?
  }

  ghost predicate NodeOk(c: Config, i: nat, n: Node, now: nat)
    requires i < |c.kinds| && |c.links| == |c.kinds| + 1
  {
    && |n.log| <= c.total && Counting(n.log) && HeldOk(c, i, n, now)
    && (n.borrowing ==> c.links[i].Shm? && !c.links[i + 1].Shm? && n.log != [])
    && (n.looped ==> |n.log| == c.total && n.held.Nothing? && !n.borrowing)
    && (n.ackTaken ==> n.looped && Acked(c.links[i + 1]))
    && (n.ackSent ==> n.looped && Acked(c.links[i]) && (Acked(c.links[i + 1]) ==> n.ackTaken))
    && (n.status.Closed? ==>
          n.looped && (Acked(c.links[i + 1]) ==> n.ackTaken) && (Acked(c.links[i]) ==> n.ackSent))
    && n.status != Failed(false)
  }

  /** The frames of a lane in the order they will leave it. */
  function Pipe(lane: Lane): seq<Msg> {
    lane.retiring + lane.cache + lane.ready + lane.queue
  }

  function AckPipe(lane: Lane): seq<seq<byte>> {
    lane.ackCache + lane.ackReady + lane.ackQueue
  }

  /** The id of the first frame in the lane feeding `b`. */
  function Base(b: Node): int {
    |b.log| - if b.borrowing then 1 else 0
  }

  ghost predicate DataOk(c: Config, i: nat, lane: Lane, a: Node, b: Node, now: nat)
    requires i < |c.kinds| && |c.links| == |c.kinds| + 1
  {
    && Base(b) >= 0 && Base(b) + |Pipe(lane)| == a.sent
    && (forall k :: 0 <= k < |Pipe(lane)| ==> GoodMsg(c, i, Pipe(lane)[k], Base(b) + k, now))
    && (b.borrowing ==> Pipe(lane) != []) && (lane.retiring != [] ==> b.borrowing)
  }

  ghost predicate RoomOk(batch: nat, l: Link, lane: Lane) {
    match l
    case NoLink => lane == EMPTY_LANE
    case Tcp(_, sendCapacity, readyCapacity) =>
      && |lane.queue| <= sendCapacity && |lane.ready| <= readyCapacity && |lane.cache| <= batch && lane.retiring == []
      && |lane.ackQueue| <= sendCapacity && |lane.ackReady| <= readyCapacity && |lane.ackCache| <= batch
    case Shm(_, _, capacity) =>
      |lane.retiring| <= 1 && |lane.queue| <= capacity && lane.ready == [] && lane.cache == []
  }

  ghost predicate AckOk(c: Config, i: nat, lane: Lane, a: Node, b: Node)
    requires i < |c.kinds| && |c.links| == |c.kinds| + 1
  {
    if Acked(c.links[i]) then
      && |AckPipe(lane)| + (if a.ackTaken then 1 else 0) == (if b.ackSent then 1 else 0)
      && (forall k :: 0 <= k < |AckPipe(lane)| ==> AckPipe(lane)[k] == Encode(AckFields(c, i)))
      && (b.status.Closed? ==> lane.ackQueue == [])
    else lane.ackQueue == [] && lane.ackReady == [] && lane.ackCache == []
  }

  ghost predicate LaneOk(c: Config, i: nat, lane: Lane, a: Node, b: Node, now: nat)
    requires i < |c.kinds| && |c.links| == |c.kinds| + 1
  {
    DataOk(c, i, lane, a, b, now) && RoomOk(c.batch, c.links[i], lane) && AckOk(c, i, lane, a, b)
  }

  /** A node with its two lanes, given its neighbours; the neighbour of an end node is not looked at. */
  ghost predicate LocalOk(c: Config, i: nat, before: Node, l: Local, after: Node, now: nat)
    requires i < |c.kinds| && |c.links| == |c.kinds| + 1
  {
    && NodeOk(c, i, l.node, now)
    && (if i == 0 then l.up == EMPTY_LANE else LaneOk(c, i, l.up, before, l.node, now))
    && (if i + 1 == |c.kinds| then l.down == EMPTY_LANE
        else LaneOk(c, i + 1, l.down, l.node, after, now))
  }

  // ----- Frames -----

  lemma GoodLater(c: Config, k: nat, f: SemanticFrame, id: nat, now: nat, later: nat)
    requires Good(c, k, f, id, now) && now <= later
    ensures Good(c, k, f, id, later)
  {}

  /** A stage accepts a good frame at any reading it can take, and hands on a good frame. */
  lemma StageAccepts(c: Config, r: Role, f: SemanticFrame, id: nat, now: nat, t: nat)
    requires Good(c, Index(r), f, id, now) && Reading(c, now, t) && now >= 1
    ensures Accept(c, Stage(r), f, id, t).Some?
    ensures r != Canbus ==> Good(c, Index(r) + 1, Accept(c, Stage(r), f, id, t).value, id, now)
  {
    var k := Index(r);
    assert StampAllowed(r, c.mode, f, t) by {
      if c.mode == SameHost && k > 0 { assert f.stamps[k - 1] <= now; }
    }
    if r != Canbus {
      StageHandsOver(r, c.mode, f, f.payload, t);
      var g := Stamped(r, f, t);
      assert forall i :: 0 <= i < STAGES ==> g.stamps[i] == if i == k then t else f.stamps[i];
    }
  }

  /** A bridge passes a good frame unchanged. */
  lemma BridgePasses(c: Config, e: nat, f: SemanticFrame, id: nat, now: nat, t: nat)
    requires e < STAGES && Good(c, e + 1, f, id, now)
    requires c.validation == Structural || c.mode == SameHost
    ensures Accept(c, Bridge(e), f, id, t) == Some(f)
  {
    var role := ROLES[e + 1];
    assert Index(role) == e + 1;
    assert ProfileFromWire(f.profile) == Some(c.profile);
  }

  lemma SourceIsGood(c: Config, id: nat, origin: nat, now: nat)
    requires OriginOk(c, now, id, origin)
    ensures Good(c, 0, SourceFrame(id, c.profile, origin), id, now)
  {
    SourceFrameAcceptable(id, c.profile, origin, c.mode);
    assert ROLES[0] == Perception;
  }

  // ----- Each step keeps the invariant of its node and lanes -----

  lemma ProduceKeeps(c: Config, before: Node, l: Local, after: Node, now: nat, origin: nat, t: nat)
    requires Valid(c) && LocalOk(c, 0, before, l, after, now) && now >= 1
    requires OriginOk(c, now, |l.node.log|, origin) && Reading(c, now, t)
    requires Produce(c, l, origin, t).Some?
    ensures LocalOk(c, 0, before, Produce(c, l, origin, t).value, after, now)
  {
    hide Good, SourceFrame, ApplyStage;
    var id := |l.node.log|;
    var f := SourceFrame(id, c.profile, origin);
    SourceIsGood(c, id, origin, now);
    assert Index(Perception) == 0;
    StageAccepts(c, Perception, f, id, now, t);
    assert Accept(c, Stage(Perception), f, id, t) == ApplyStage(Perception, c.mode, f, f.payload, t);
  }

  lemma NodeAccepts(c: Config, i: nat, f: SemanticFrame, id: nat, now: nat, t: nat)
    requires Valid(c) && 0 < i < |c.kinds| && now >= 1
    requires Good(c, StageIn(c.kinds[i]), f, id, now) && Reading(c, now, t)
    ensures Accept(c, c.kinds[i], f, id, t).Some?
    ensures i + 1 < |c.kinds| ==> Good(c, StageOut(c.kinds[i]), Accept(c, c.kinds[i], f, id, t).value, id, now)
  {
    hide Good, Accept;
    match c.kinds[i]
    case Stage(r) =>
      StageAccepts(c, r, f, id, now, t);
      if i + 1 < |c.kinds| {
        assert StageOut(c.kinds[i]) == StageIn(c.kinds[i + 1]) <= STAGES;
        assert Index(Canbus) == STAGES;
      }
    case Bridge(e) => BridgePasses(c, e, f, id, now, t);
  }

  /** The next message a waiting node can take is the one it expects. */
  lemma HeadIsExpected(c: Config, i: nat, lane: Lane, a: Node, b: Node, now: nat)
    requires Valid(c) && 0 < i < |c.kinds| && LaneOk(c, i, lane, a, b, now)
    requires Incoming(c.links[i], lane) != [] && !b.borrowing
    ensures Pipe(lane)[0] == Incoming(c.links[i], lane)[0]
    ensures GoodMsg(c, i, Incoming(c.links[i], lane)[0], |b.log|, now)
  {
    assert GoodMsg(c, i, Pipe(lane)[0], Base(b) + 0, now);
  }

  lemma CountingGrows(log: seq<nat>, id: nat)
    requires Counting(log) && id == |log|
    ensures Counting(log + [id])
  {}

  /** Taking the first frame out of a lane while the receiver's count goes up by one. */
  lemma HeadLeaves(c: Config, i: nat, lane: Lane, lane': Lane, a: Node, b: Node, b': Node, now: nat)
    requires Valid(c) && 0 < i < |c.kinds| && DataOk(c, i, lane, a, b, now)
    requires Pipe(lane) != [] && Pipe(lane') == Pipe(lane)[1..] && Base(b') == Base(b) + 1
    requires !b'.borrowing && lane'.retiring == []
    ensures DataOk(c, i, lane', a, b', now)
  {
    hide Good;
    forall k | 0 <= k < |Pipe(lane')| ensures GoodMsg(c, i, Pipe(lane')[k], Base(b') + k, now) {
      assert GoodMsg(c, i, Pipe(lane)[k + 1], Base(b) + (k + 1), now);
    }
  }

  /** The receiver's node after it accepted the head. */
  lemma ReceiverOk(c: Config, i: nat, n: Node, m: Msg, n': Node, now: nat, t: nat)
    requires Valid(c) && 0 < i < |c.kinds| && now >= 1 && NodeOk(c, i, n, now) && Looping(c, n)
    requires GoodMsg(c, i, m, |n.log|, now) && Reading(c, now, t)
    requires Accept(c, c.kinds[i], m.frame, |n.log|, t).Some?
    requires var g := Accept(c, c.kinds[i], m.frame, |n.log|, t).value;
             var to := c.links[i + 1];
             || (to.NoLink? && n' == n.(log := n.log + [m.frame.sampleId], borrowing := n'.borrowing))
             || (!to.NoLink? && !(c.links[i].Shm? && to.Shm?)
                 && n' == n.(log := n.log + [m.frame.sampleId], held := Loose(g), borrowing := n'.borrowing))
             || (to.Shm? && m.Graph?
                 && n' == n.(log := n.log + [m.frame.sampleId], held := Owned(g, m.root, m.child),
                             borrowing := n'.borrowing))
    requires n'.borrowing ==> c.links[i].Shm? && !c.links[i + 1].Shm?
    ensures NodeOk(c, i, n', now)
  {
    NodeAccepts(c, i, m.frame, |n.log|, now, t);
    CountingGrows(n.log, m.frame.sampleId);
    assert c.links[i + 1].NoLink? <==> i + 1 == |c.kinds|;
  }

  /** A node's output lane only looks at how much it has sent and at its acknowledgement flags. */
  lemma SenderFrame(c: Config, i: nat, lane: Lane, a: Node, a': Node, b: Node, now: nat)
    requires i < |c.kinds| && |c.links| == |c.kinds| + 1
    requires LaneOk(c, i, lane, a, b, now) && a'.sent == a.sent && a'.ackTaken == a.ackTaken
    ensures LaneOk(c, i, lane, a', b, now)
  {}

  lemma ReceiveKeeps(c: Config, i: nat, before: Node, l: Local, after: Node, now: nat, t: nat)
    requires Valid(c) && i < |c.kinds| && LocalOk(c, i, before, l, after, now) && now >= 1
    requires Reading(c, now, t) && Receive(c, i, l, t).Some?
    ensures LocalOk(c, i, before, Receive(c, i, l, t).value, after, now)
  {
    hide Good, Accept;
    var q := Incoming(c.links[i], l.up);
    assert i > 0;
    HeadIsExpected(c, i, l.up, before, l.node, now);
    var m := q[0];
    NodeAccepts(c, i, m.frame, |l.node.log|, now, t);
    var r := Receive(c, i, l, t).value;
    ReceiverOk(c, i, l.node, m, r.node, now, t);
    if c.links[i].Tcp? {
      assert Pipe(r.up) == Pipe(l.up)[1..];
      HeadLeaves(c, i, l.up, r.up, before, l.node, r.node, now);
    } else if c.links[i + 1].Shm? {
      assert Pipe(r.up) == Pipe(l.up)[1..];
      HeadLeaves(c, i, l.up, r.up, before, l.node, r.node, now);
    } else {
      assert Base(r.node) == Base(l.node);
    }
    if i + 1 < |c.kinds| {
      SenderFrame(c, i + 1, l.down, l.node, r.node, after, now);
    }
  }

  lemma AllocateKeeps(c: Config, i: nat, before: Node, l: Local, after: Node, now: nat, root: nat, child: nat)
    requires Valid(c) && i < |c.kinds| && LocalOk(c, i, before, l, after, now)
    requires Allocate(c, i, l, root, child).Some?
    ensures LocalOk(c, i, before, Allocate(c, i, l, root, child).value, after, now)
  {
    hide Good;
    if i + 1 < |c.kinds| {
      SenderFrame(c, i + 1, l.down, l.node, Allocate(c, i, l, root, child).value.node, after, now);
    }
  }

  /** Appending the held frame to the output lane. */
  lemma TailJoins(c: Config, i: nat, lane: Lane, m: Msg, a: Node, a': Node, b: Node, now: nat)
    requires Valid(c) && 0 < i < |c.kinds| && DataOk(c, i, lane, a, b, now)
    requires a'.sent == a.sent + 1 && GoodMsg(c, i, m, a.sent, now)
    ensures DataOk(c, i, lane.(queue := lane.queue + [m]), a', b, now)
  {
    hide Good;
    var lane' := lane.(queue := lane.queue + [m]);
    assert Pipe(lane') == Pipe(lane) + [m];
    forall k | 0 <= k < |Pipe(lane')| ensures GoodMsg(c, i, Pipe(lane')[k], Base(b) + k, now) {
      if k < |Pipe(lane)| {
        assert GoodMsg(c, i, Pipe(lane)[k], Base(b) + k, now);
      }
    }
  }

  lemma GoodHasId(c: Config, k: nat, f: SemanticFrame, id: nat, now: nat)
    requires Good(c, k, f, id, now)
    ensures f.sampleId == id
  {}

  lemma SentIsGood(c: Config, i: nat, n: Node, m: Msg, now: nat)
    requires Valid(c) && i + 1 < |c.kinds| && NodeOk(c, i, n, now) && !n.held.Nothing?
    requires m.frame == n.held.frame
    requires var to := c.links[i + 1];
             || (to.Tcp? && m.Wire? && m.edge == to.edge && m.run == c.run && m.sequence == m.frame.sampleId + 1
                 && m.timestamp == m.frame.origin)
             || (to.Shm? && m.Graph?)
    ensures GoodMsg(c, i + 1, m, n.sent, now)
  {
    hide Good;
    GoodHasId(c, StageOut(c.kinds[i]), n.held.frame, n.sent, now);
    assert StageOut(c.kinds[i]) == StageIn(c.kinds[i + 1]);
  }

  lemma SendKeeps(c: Config, i: nat, before: Node, l: Local, after: Node, now: nat)
    requires Valid(c) && i < |c.kinds| && LocalOk(c, i, before, l, after, now)
    requires Send(c, i, l).Some?
    ensures LocalOk(c, i, before, Send(c, i, l).value, after, now)
  {
    hide Good, GoodMsg;
    var r := Send(c, i, l).value;
    assert i + 1 < |c.kinds|;
    var m := r.down.queue[|r.down.queue| - 1];
    SentIsGood(c, i, l.node, m, now);
    assert r.down == l.down.(queue := l.down.queue + [m]);
    TailJoins(c, i + 1, l.down, m, l.node, r.node, after, now);
  }

  lemma AcknowledgeKeeps(c: Config, i: nat, before: Node, l: Local, after: Node, now: nat)
    requires Valid(c) && i < |c.kinds| && LocalOk(c, i, before, l, after, now)
    requires Acknowledge(l).Some?
    ensures LocalOk(c, i, before, Acknowledge(l).value, after, now)
  {
    hide Good, GoodMsg;
    assert i > 0;
    assert Pipe(Acknowledge(l).value.up) == Pipe(l.up);
  }

  lemma ReclaimKeeps(c: Config, i: nat, before: Node, l: Local, after: Node, now: nat)
    requires Valid(c) && i < |c.kinds| && LocalOk(c, i, before, l, after, now)
    requires Reclaim(l).Some?
    ensures LocalOk(c, i, before, Reclaim(l).value, after, now)
  {
    hide Good;
    var r := Reclaim(l).value;
    assert i > 0;
    assert Pipe(r.up) == Pipe(l.up)[1..];
    HeadLeaves(c, i, l.up, r.up, before, l.node, r.node, now);
    if i + 1 < |c.kinds| {
      SenderFrame(c, i + 1, l.down, l.node, r.node, after, now);
    }
  }

  /** Moving frames or completions along a TCP lane leaves their order alone. */
  lemma SamePipe(c: Config, i: nat, before: Node, l: Local, lane: Lane, after: Node, now: nat)
    requires Valid(c) && i < |c.kinds| && LocalOk(c, i, before, l, after, now)
    requires c.links[i].Tcp? && RoomOk(c.batch, c.links[i], lane)
    requires Pipe(lane) == Pipe(l.up) && AckPipe(lane) == AckPipe(l.up)
    requires l.up.ackQueue == [] ==> lane.ackQueue == []
    ensures LocalOk(c, i, before, l.(up := lane), after, now)
  {
    hide Good;
    assert i > 0;
  }

  lemma CarryKeeps(c: Config, i: nat, before: Node, l: Local, after: Node, now: nat)
    requires Valid(c) && i < |c.kinds| && LocalOk(c, i, before, l, after, now)
    ensures Carry(c, i, l).Some? ==> LocalOk(c, i, before, Carry(c, i, l).value, after, now)
    ensures CarryAck(c, i, l).Some? ==> LocalOk(c, i, before, CarryAck(c, i, l).value, after, now)
  {
    hide Good;
    if Carry(c, i, l).Some? {
      var lane := Carry(c, i, l).value.up;
      assert Pipe(lane) == Pipe(l.up);
      SamePipe(c, i, before, l, lane, after, now);
    }
    if CarryAck(c, i, l).Some? {
      var lane := CarryAck(c, i, l).value.up;
      assert AckPipe(lane) == AckPipe(l.up);
      SamePipe(c, i, before, l, lane, after, now);
    }
  }

  lemma PollKeeps(c: Config, i: nat, before: Node, l: Local, after: Node, now: nat, k: nat)
    requires Valid(c) && i < |c.kinds| && LocalOk(c, i, before, l, after, now)
    ensures Poll(c, i, l, k).Some? ==> LocalOk(c, i, before, Poll(c, i, l, k).value, after, now)
    ensures PollAck(c, i, l, k).Some? ==> LocalOk(c, i, before, PollAck(c, i, l, k).value, after, now)
  {
    hide Good;
    if Poll(c, i, l, k).Some? {
      var lane := Poll(c, i, l, k).value.up;
      assert Pipe(lane) == Pipe(l.up);
      SamePipe(c, i, before, l, lane, after, now);
    }
    if PollAck(c, i, l, k).Some? {
      var lane := PollAck(c, i, l, k).value.up;
      assert AckPipe(lane) == AckPipe(l.up);
      SamePipe(c, i, before, l, lane, after, now);
    }
  }

  lemma {:induction false} MeasuredCount(log: seq<nat>, warmup: nat)
    requires Counting(log)
    ensures Measured(log, warmup) == if |log| <= warmup then 0 else |log| - warmup
  {
    if log != [] {
      MeasuredCount(log[..|log| - 1], warmup);
    }
  }

  lemma FinishKeeps(c: Config, i: nat, before: Node, l: Local, after: Node, now: nat)
    requires Valid(c) && i < |c.kinds| && LocalOk(c, i, before, l, after, now)
    requires Finish(c, i, l).Some?
    ensures LocalOk(c, i, before, Finish(c, i, l).value, after, now)
  {
    hide Good, Measured;
    MeasuredCount(l.node.log, c.warmup);
    if i + 1 < |c.kinds| {
      SenderFrame(c, i + 1, l.down, l.node, Finish(c, i, l).value.node, after, now);
    }
  }

  lemma AckFieldsFit(c: Config, i: nat)
    requires Valid(c) && i < |c.kinds| && Acked(c.links[i])
    ensures forall k :: 0 <= k < |AckFields(c, i)| ==> AckFields(c, i)[k] < U64
  {}

  lemma TakeAckKeeps(c: Config, i: nat, before: Node, l: Local, after: Node, now: nat)
    requires Valid(c) && i + 1 < |c.kinds| && LocalOk(c, i, before, l, after, now)
    requires TakeAck(c, i, l).Some?
    ensures LocalOk(c, i, before, TakeAck(c, i, l).value, after, now)
  {
    hide Good, Accepts, Encode, AckFields;
    assert AckPipe(l.down)[0] == l.down.ackCache[0];
    AckFieldsFit(c, i + 1);
    AcceptsExactlyItsRecord(AckFields(c, i + 1), l.down.ackCache[0]);
    var r := TakeAck(c, i, l).value;
    assert AckPipe(r.down) == AckPipe(l.down)[1..];
    assert Pipe(r.down) == Pipe(l.down);
  }

  lemma SendAckKeeps(c: Config, i: nat, before: Node, l: Local, after: Node, now: nat)
    requires Valid(c) && i < |c.kinds| && LocalOk(c, i, before, l, after, now)
    requires SendAck(c, i, l).Some?
    ensures LocalOk(c, i, before, SendAck(c, i, l).value, after, now)
  {
    hide Good;
    var r := SendAck(c, i, l).value;
    assert i > 0;
    assert AckPipe(r.up) == AckPipe(l.up) + [Encode(AckFields(c, i))];
    if i + 1 < |c.kinds| {
      SenderFrame(c, i + 1, l.down, l.node, r.node, after, now);
    }
  }

  lemma LeaveKeeps(c: Config, i: nat, before: Node, l: Local, after: Node, now: nat)
    requires Valid(c) && i < |c.kinds| && LocalOk(c, i, before, l, after, now)
    ensures Close(c, i, l).Some? ==> LocalOk(c, i, before, Close(c, i, l).value, after, now)
    ensures Expire(l).Some? ==> LocalOk(c, i, before, Expire(l).value, after, now)
  {
    hide Good;
    if i + 1 < |c.kinds| && Close(c, i, l).Some? {
      SenderFrame(c, i + 1, l.down, l.node, Close(c, i, l).value.node, after, now);
    }
    if i + 1 < |c.kinds| && Expire(l).Some? {
      SenderFrame(c, i + 1, l.down, l.node, Expire(l).value.node, after, now);
    }
  }

  lemma LocalStepKeeps(c: Config, a: Action, before: Node, l: Local, after: Node, now: nat)
    requires Valid(c) && Actor(a) < |c.kinds| && now >= 1
    requires LocalOk(c, Actor(a), before, l, after, now) && LocalStep(c, a, l, now).Some?
    ensures LocalOk(c, Actor(a), before, LocalStep(c, a, l, now).value, after, now)
  {
    hide LocalOk, Produce, Receive, Allocate, Send, Acknowledge, Reclaim, Carry, CarryAck, Poll, PollAck, Finish;
    hide TakeAck, SendAck, Close, Expire;
    match a
    case Tick(_) =>
    case DoProduce(origin, t) => ProduceKeeps(c, before, l, after, now, origin, t);
    case DoReceive(i, t) => ReceiveKeeps(c, i, before, l, after, now, t);
    case DoAllocate(i, root, child) => AllocateKeeps(c, i, before, l, after, now, root, child);
    case DoSend(i) => SendKeeps(c, i, before, l, after, now);
    case DoAcknowledge(i) => AcknowledgeKeeps(c, i, before, l, after, now);
    case DoReclaim(i) => ReclaimKeeps(c, i, before, l, after, now);
    case DoCarry(i) => CarryKeeps(c, i, before, l, after, now);
    case DoCarryAck(i) => CarryKeeps(c, i, before, l, after, now);
    case DoPoll(i, k) => PollKeeps(c, i, before, l, after, now, k);
    case DoPollAck(i, k) => PollKeeps(c, i, before, l, after, now, k);
    case DoFinish(i) => FinishKeeps(c, i, before, l, after, now);
    case DoTakeAck(i) => TakeAckKeeps(c, i, before, l, after, now);
    case DoSendAck(i) => SendAckKeeps(c, i, before, l, after, now);
    case DoClose(i) => LeaveKeeps(c, i, before, l, after, now);
    case DoExpire(i) => LeaveKeeps(c, i, before, l, after, now);
  }
}
