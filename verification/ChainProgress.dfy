/** Without expired deadlines every run ends, and ends with every process done and every slot free. */
module ChainProgress {
  import opened Bits
  import opened Payload
  import opened Frames
  import opened Completion
  import opened Chain
  import opened ChainInvariant
  import opened ChainRuns
  import opened ChainTheorems

  // ----- A measure that every step but the clock's lowers -----

  function HeldWork(h: Held): nat {
    match h case Nothing => 0 case Owned(_, _, _) => 1 case Loose(_) => 2
  }

  function NodeWork(c: Config, n: Node): int {
    4 * (c.total - |n.log|) + 2 * (c.total - n.sent) + HeldWork(n.held)
    + (if n.borrowing then 1 else 0) + (if n.looped then 0 else 1) + (if n.ackTaken then 0 else 1)
    + (if n.ackSent then 0 else 3) + (if n.status.Alive? then 1 else 0)
  }

  function LaneWork(lane: Lane): nat {
    |lane.retiring| + 2 * |lane.queue| + |lane.ready| + 2 * |lane.ackQueue| + |lane.ackReady|
  }

  function LocalWork(c: Config, l: Local): int {
    NodeWork(c, l.node) + LaneWork(l.up) + LaneWork(l.down)
  }

  function Work(c: Config, s: State, m: nat): int
    requires Shaped(c, s) && m <= |c.kinds|
  {
    if m == 0 then 0 else Work(c, s, m - 1) + NodeWork(c, s.nodes[m - 1]) + LaneWork(s.lanes[m])
  }

  lemma ReceiveLowers(c: Config, i: nat, l: Local, t: nat)
    requires i < |c.kinds| && |c.links| == |c.kinds| + 1 && Receive(c, i, l, t).Some?
    ensures LocalWork(c, Receive(c, i, l, t).value) < LocalWork(c, l)
  {
    hide Accept, HeaderOk;
  }

  lemma DriverLowers(c: Config, i: nat, l: Local, k: nat)
    requires i < |c.links|
    ensures Carry(c, i, l).Some? ==> LocalWork(c, Carry(c, i, l).value) < LocalWork(c, l)
    ensures CarryAck(c, i, l).Some? ==> LocalWork(c, CarryAck(c, i, l).value) < LocalWork(c, l)
    ensures Poll(c, i, l, k).Some? ==> LocalWork(c, Poll(c, i, l, k).value) < LocalWork(c, l)
    ensures PollAck(c, i, l, k).Some? ==> LocalWork(c, PollAck(c, i, l, k).value) < LocalWork(c, l)
  {}

  lemma LoopLowers(c: Config, i: nat, l: Local, origin: nat, t: nat, root: nat, child: nat)
    requires i < |c.kinds| && |c.links| == |c.kinds| + 1
    ensures Produce(c, l, origin, t).Some? ==> LocalWork(c, Produce(c, l, origin, t).value) < LocalWork(c, l)
    ensures Allocate(c, i, l, root, child).Some? ==>
              LocalWork(c, Allocate(c, i, l, root, child).value) < LocalWork(c, l)
    ensures Send(c, i, l).Some? ==> LocalWork(c, Send(c, i, l).value) < LocalWork(c, l)
    ensures Acknowledge(l).Some? ==> LocalWork(c, Acknowledge(l).value) < LocalWork(c, l)
    ensures Reclaim(l).Some? ==> LocalWork(c, Reclaim(l).value) < LocalWork(c, l)
  {
    hide ApplyStage, SourceFrame;
  }

  lemma BarrierLowers(c: Config, i: nat, l: Local)
    requires i < |c.kinds| && |c.links| == |c.kinds| + 1
    ensures Finish(c, i, l).Some? ==> LocalWork(c, Finish(c, i, l).value) < LocalWork(c, l)
    ensures i + 1 < |c.kinds| && TakeAck(c, i, l).Some? ==> LocalWork(c, TakeAck(c, i, l).value) < LocalWork(c, l)
    ensures SendAck(c, i, l).Some? ==> LocalWork(c, SendAck(c, i, l).value) < LocalWork(c, l)
    ensures Close(c, i, l).Some? ==> LocalWork(c, Close(c, i, l).value) < LocalWork(c, l)
    ensures Expire(l).Some? ==> LocalWork(c, Expire(l).value) < LocalWork(c, l)
  {
    hide Accepts, Encode, Measured, AckFields;
  }

  lemma LocalStepLowers(c: Config, a: Action, l: Local, now: nat)
    requires !a.Tick? && Actor(a) < |c.kinds| && |c.links| == |c.kinds| + 1
    requires LocalStep(c, a, l, now).Some?
    ensures LocalWork(c, LocalStep(c, a, l, now).value) < LocalWork(c, l)
  {
    hide LocalWork, Produce, Receive, Allocate, Send, Acknowledge, Reclaim, Carry, CarryAck, Poll, PollAck, Finish;
    hide TakeAck, SendAck, Close, Expire;
    match a
    case DoProduce(origin, t) => LoopLowers(c, 0, l, origin, t, 0, 0);
    case DoReceive(i, t) => ReceiveLowers(c, i, l, t);
    case DoAllocate(i, root, child) => LoopLowers(c, i, l, 0, 0, root, child);
    case DoSend(i) => LoopLowers(c, i, l, 0, 0, 0, 0);
    case DoAcknowledge(i) => LoopLowers(c, i, l, 0, 0, 0, 0);
    case DoReclaim(i) => LoopLowers(c, i, l, 0, 0, 0, 0);
    case DoCarry(i) => DriverLowers(c, i, l, 0);
    case DoCarryAck(i) => DriverLowers(c, i, l, 0);
    case DoPoll(i, k) => DriverLowers(c, i, l, k);
    case DoPollAck(i, k) => DriverLowers(c, i, l, k);
    case _ => BarrierLowers(c, Actor(a), l);
  }

  lemma {:induction false} WorkPut(c: Config, s: State, i: nat, l: Local, m: nat)
    requires Shaped(c, s) && i < |c.kinds| && m <= |c.kinds|
    requires i == 0 ==> l.up == s.lanes[0]
    ensures m > i ==> Work(c, Put(s, i, l), m) - Work(c, s, m) == LocalWork(c, l) - LocalWork(c, At(s, i))
    ensures m < i ==> Work(c, Put(s, i, l), m) == Work(c, s, m)
    ensures m == i && i > 0 ==> Work(c, Put(s, i, l), m) - Work(c, s, m) == LaneWork(l.up) - LaneWork(s.lanes[i])
    ensures m == 0 ==> Work(c, Put(s, i, l), m) == Work(c, s, m)
    decreases m
  {
    hide NodeWork, LaneWork;
    if m > 0 { WorkPut(c, s, i, l, m - 1); }
  }

  lemma {:induction false} WorkFrame(c: Config, s: State, t: State, m: nat)
    requires Shaped(c, s) && Shaped(c, t) && t.nodes == s.nodes && t.lanes == s.lanes && m <= |c.kinds|
    ensures Work(c, t, m) == Work(c, s, m)
    decreases m
  {
    if m > 0 { WorkFrame(c, s, t, m - 1); }
  }

  lemma StepLowers(c: Config, s: State, a: Action)
    requires Valid(c) && AllOk(c, s) && Step(c, s, a).Some? && Shaped(c, Step(c, s, a).value)
    ensures if a.Tick? then Work(c, Step(c, s, a).value, |c.kinds|) == Work(c, s, |c.kinds|)
            else Work(c, Step(c, s, a).value, |c.kinds|) < Work(c, s, |c.kinds|)
  {
    hide NodeOk, LaneOk, LocalOk, LocalStep, NodeWork, LaneWork, Work;
    var s' := Step(c, s, a).value;
    if a.Tick? {
      WorkFrame(c, s, s', |c.kinds|);
    } else {
      var i := Actor(a);
      var r := LocalStep(c, a, At(s, i), s.now).value;
      LocalStepLowers(c, a, At(s, i), s.now);
      assert i == 0 ==> r.up == s.lanes[0] by {
        if i == 0 {
          Extract(c, s, i);
          LocalStepKeeps(c, a, Before(s, i), At(s, i), After(s, i), s.now);
          FirstLaneIsEmpty(c, Before(s, i), r, After(s, i), s.now);
        }
      }
      WorkPut(c, s, i, r, |c.kinds|);
      WorkFrame(c, Put(s, i, r), s', |c.kinds|);
    }
  }

  lemma {:induction false} WorkIsNatural(c: Config, s: State, m: nat)
    requires Valid(c) && AllOk(c, s) && m <= |c.kinds|
    ensures Work(c, s, m) >= 0
    decreases m
  {
    hide Good, LaneOk;
    if m > 0 {
      WorkIsNatural(c, s, m - 1);
      assert NodeOk(c, m - 1, s.nodes[m - 1], s.now);
    }
  }

  lemma {:induction false} InitialWork(c: Config, m: nat)
    requires |c.links| == |c.kinds| + 1 && m <= |c.kinds|
    ensures Work(c, Init(c), m) == m * (6 * c.total + 6)
    decreases m
  {
    if m > 0 {
      InitialWork(c, m - 1);
      Distributes(m - 1, 1, 6 * c.total + 6);
    }
  }

  /** Steps of processes and of the driver, clock ticks left out. */
  function Steps(acts: seq<Action>): nat {
    if acts == [] then 0 else Steps(acts[..|acts| - 1]) + if acts[|acts| - 1].Tick? then 0 else 1
  }

  lemma {:induction false} StepsUseWork(c: Config, acts: seq<Action>)
    requires Valid(c) && Run(c, acts).Some?
    ensures Steps(acts) + Work(c, Run(c, acts).value, |c.kinds|) <= Work(c, Init(c), |c.kinds|)
    decreases |acts|
  {
    hide AllOk, SlotsOk, Step, Work;
    if acts != [] {
      var before := acts[..|acts| - 1];
      StepsUseWork(c, before);
      RunKeepsInv(c, before);
      StepLowers(c, Run(c, before).value, acts[|acts| - 1]);
    }
  }

  /** Every run is finite: it has at most this many steps, whatever the interleaving, the batch sizes,
      the queue capacities and the number of refused sends in between. */
  lemma RunsAreBounded(c: Config, acts: seq<Action>)
    requires Valid(c) && Run(c, acts).Some?
    ensures Steps(acts) <= |c.kinds| * (6 * c.total + 6)
  {
    hide AllOk, SlotsOk, Step, Work;
    StepsUseWork(c, acts);
    RunKeepsInv(c, acts);
    WorkIsNatural(c, Run(c, acts).value, |c.kinds|) by { InvGivesAllOk(c, Run(c, acts).value); }
    InitialWork(c, |c.kinds|);
  }

  lemma InvGivesAllOk(c: Config, s: State)
    requires Valid(c) && Inv(c, s)
    ensures AllOk(c, s)
  {
    hide AllOk;
  }

  // ----- Some process or the driver can always move -----

  ghost predicate Possible(c: Config, s: State, a: Action)
    requires Valid(c) && Shaped(c, s)
  {
    !a.Tick? && !a.DoExpire? && Step(c, s, a).Some?
  }

  /** Still has a frame to pass on: in its hands or in the lane it writes to. */
  predicate Busy(s: State, i: nat)
    requires i < |s.nodes| && |s.lanes| == |s.nodes| + 1
  {
    !s.nodes[i].held.Nothing? || s.nodes[i].borrowing || Pipe(s.lanes[i + 1]) != []
  }

  ghost predicate NoneFailed(s: State) {
    forall i :: 0 <= i < |s.nodes| ==> !s.nodes[i].status.Failed?
  }

  /** Frames waiting in front of a node that is ready for them. */
  lemma LaneCanMove(c: Config, s: State, i: nat) returns (a: Action)
    requires Valid(c) && AllOk(c, s) && 0 < i < |c.kinds|
    requires Looping(c, s.nodes[i]) && Pipe(s.lanes[i]) != []
    ensures Possible(c, s, a)
  {
    hide NodeOk, DataOk, AckOk, Accept, HeaderOk;
    var lane := s.lanes[i];
    assert LaneOk(c, i, lane, s.nodes[i - 1], s.nodes[i], s.now);
    NothingRetiring(c, i, lane, s.nodes[i - 1], s.nodes[i], s.now);
    assert ValidLink(c, c.links[i]);
    if Incoming(c.links[i], lane) != [] {
      a := DoReceive(i, if c.mode == SameHost then s.now else 1);
    } else if lane.ready != [] {
      a := DoPoll(i, 1);
    } else {
      a := DoCarry(i);
    }
  }

  lemma NothingRetiring(c: Config, i: nat, lane: Lane, a: Node, b: Node, now: nat)
    requires i < |c.kinds| && |c.links| == |c.kinds| + 1 && LaneOk(c, i, lane, a, b, now) && !b.borrowing
    ensures lane.retiring == []
  {
    hide GoodMsg, AckOk;
  }

  /** A node with something in its hands and an empty output lane. */
  lemma HolderCanMove(c: Config, s: State, i: nat) returns (a: Action)
    requires Valid(c) && Inv(c, s) && i < |c.kinds|
    requires s.nodes[i].status.Alive? && !s.nodes[i].held.Nothing? && Pipe(s.lanes[i + 1]) == []
    ensures Possible(c, s, a)
  {
    hide Good, LaneOk, SlotsOk;
    assert NodeOk(c, i, s.nodes[i], s.now);
    assert ValidLink(c, c.links[i + 1]);
    if s.nodes[i].held.Loose? && c.links[i + 1].Shm? {
      var root, child := AllocationNeverExhausted(c, s, i);
      a := DoAllocate(i, root, child);
    } else {
      a := DoSend(i);
    }
  }

  lemma BorrowerCanMove(c: Config, s: State, i: nat) returns (a: Action)
    requires Valid(c) && AllOk(c, s) && i < |c.kinds|
    requires s.nodes[i].status.Alive? && s.nodes[i].held.Nothing? && s.nodes[i].borrowing
    ensures Possible(c, s, a)
  {
    hide Good, GoodMsg;
    assert NodeOk(c, i, s.nodes[i], s.now);
    assert i > 0;
    assert LaneOk(c, i, s.lanes[i], s.nodes[i - 1], s.nodes[i], s.now);
    a := if s.lanes[i].retiring == [] then DoAcknowledge(i) else DoReclaim(i);
  }

  lemma NotLoopedIsAlive(c: Config, s: State, i: nat)
    requires Valid(c) && AllOk(c, s) && NoneFailed(s) && i < |c.kinds|
    ensures !s.nodes[i].looped ==> s.nodes[i].status.Alive?
    ensures !s.nodes[i].held.Nothing? || s.nodes[i].borrowing || |s.nodes[i].log| < c.total ==> !s.nodes[i].looped
  {
    hide Good, LaneOk;
    assert NodeOk(c, i, s.nodes[i], s.now);
  }

  /** Frames in a lane are frames its receiver still waits for. */
  lemma ReceiverWaits(c: Config, s: State, i: nat)
    requires Valid(c) && AllOk(c, s) && NoneFailed(s) && i + 1 < |c.kinds|
    requires Pipe(s.lanes[i + 1]) != [] && s.nodes[i + 1].held.Nothing? && !s.nodes[i + 1].borrowing
    ensures Looping(c, s.nodes[i + 1])
  {
    hide Good, GoodMsg;
    assert NodeOk(c, i, s.nodes[i], s.now);
    assert LaneOk(c, i + 1, s.lanes[i + 1], s.nodes[i], s.nodes[i + 1], s.now);
    NotLoopedIsAlive(c, s, i + 1);
  }

  /** The last busy node, or the node after it, can move. */
  lemma LastBusyCanMove(c: Config, s: State, i: nat) returns (a: Action)
    requires Valid(c) && Inv(c, s) && NoneFailed(s) && i < |c.kinds| && Busy(s, i)
    requires forall j :: i < j < |c.kinds| ==> !Busy(s, j)
    ensures Possible(c, s, a)
  {
    hide NodeOk, LaneOk, Step, SlotsOk, Possible;
    NotLoopedIsAlive(c, s, i);
    if Pipe(s.lanes[i + 1]) != [] {
      assert i + 1 < |c.kinds|;
      assert !Busy(s, i + 1);
      ReceiverWaits(c, s, i);
      a := LaneCanMove(c, s, i + 1);
    } else if !s.nodes[i].held.Nothing? {
      a := HolderCanMove(c, s, i);
    } else {
      a := BorrowerCanMove(c, s, i);
    }
  }

  lemma {:induction false} IdleAgree(c: Config, s: State, i: nat)
    requires Valid(c) && AllOk(c, s) && i < |c.kinds|
    requires forall j :: 0 <= j < |c.kinds| ==> !Busy(s, j)
    ensures |s.nodes[i].log| == |s.nodes[0].log|
    decreases i
  {
    hide Good, GoodMsg;
    if i > 0 {
      IdleAgree(c, s, i - 1);
      assert !Busy(s, i - 1) && !Busy(s, i);
      assert NodeOk(c, i - 1, s.nodes[i - 1], s.now);
      assert LaneOk(c, i, s.lanes[i], s.nodes[i - 1], s.nodes[i], s.now);
    }
  }

  lemma SourceCanMove(c: Config, s: State) returns (a: Action)
    requires Valid(c) && AllOk(c, s) && Looping(c, s.nodes[0])
    ensures Possible(c, s, a)
  {
    hide NodeOk, LaneOk, ApplyStage, SourceFrame;
    var id := |s.nodes[0].log|;
    a := DoProduce(if id < c.warmup then 0 else 1, if c.mode == SameHost then s.now else 1);
    assert OriginOk(c, s.now, id, a.origin) && Reading(c, s.now, a.t);
  }

  /** Everything delivered, nothing in flight: somebody can leave its loop. */
  lemma FinisherCanMove(c: Config, s: State, i: nat) returns (a: Action)
    requires Valid(c) && AllOk(c, s) && NoneFailed(s) && i < |c.kinds|
    requires !s.nodes[i].looped && |s.nodes[i].log| == c.total
    requires s.nodes[i].held.Nothing? && !s.nodes[i].borrowing
    ensures Possible(c, s, a)
  {
    hide NodeOk, LaneOk, Measured;
    NotLoopedIsAlive(c, s, i);
    a := DoFinish(i);
  }

  lemma AckCanMove(c: Config, s: State, j: nat) returns (a: Action)
    requires Valid(c) && AllOk(c, s) && 0 < j < |c.kinds| && Acked(c.links[j])
    requires AckPipe(s.lanes[j]) != [] && s.nodes[j - 1].status.Alive? && s.nodes[j - 1].looped
    ensures Possible(c, s, a)
  {
    hide Good, DataOk, HeldOk, Accepts, Encode;
    var lane := s.lanes[j];
    assert LaneOk(c, j, lane, s.nodes[j - 1], s.nodes[j], s.now);
    assert ValidLink(c, c.links[j]);
    if lane.ackCache != [] {
      a := DoTakeAck(j - 1);
    } else if lane.ackReady != [] {
      a := DoPollAck(j, 1);
    } else {
      a := DoCarryAck(j);
    }
  }

  /** The last open node, all loops over: it can take its part in the barrier or leave. */
  lemma LastOpenCanMove(c: Config, s: State, j: nat) returns (a: Action)
    requires Valid(c) && AllOk(c, s) && j < |c.kinds| && s.nodes[j].status.Alive? && s.nodes[j].looped
    requires j + 1 < |c.kinds| ==> s.nodes[j + 1].status.Closed?
    requires Pipe(s.lanes[j + 1]) == []
    ensures Possible(c, s, a)
  {
    hide Good, DataOk, HeldOk, Encode, Possible, Step, NodeOk, LaneOk;
    if Acked(c.links[j + 1]) && !s.nodes[j].ackTaken {
      NextHasAcked(c, s, j);
      a := AckCanMove(c, s, j + 1);
    } else if Acked(c.links[j]) && (!s.nodes[j].ackSent || s.lanes[j].ackQueue != []) {
      a := AckerCanMove(c, s, j);
    } else {
      a := CloserCanMove(c, s, j);
    }
  }

  lemma NextHasAcked(c: Config, s: State, j: nat)
    requires Valid(c) && AllOk(c, s) && j < |c.kinds| && Acked(c.links[j + 1]) && !s.nodes[j].ackTaken
    requires j + 1 < |c.kinds| ==> s.nodes[j + 1].status.Closed?
    ensures j + 1 < |c.kinds| && AckPipe(s.lanes[j + 1]) != []
  {
    hide Good, DataOk, HeldOk;
    assert NodeOk(c, j + 1, s.nodes[j + 1], s.now);
    assert LaneOk(c, j + 1, s.lanes[j + 1], s.nodes[j], s.nodes[j + 1], s.now);
  }

  lemma AckerCanMove(c: Config, s: State, j: nat) returns (a: Action)
    requires Valid(c) && AllOk(c, s) && j < |c.kinds| && s.nodes[j].status.Alive? && s.nodes[j].looped
    requires Acked(c.links[j]) && (Acked(c.links[j + 1]) ==> s.nodes[j].ackTaken)
    requires !s.nodes[j].ackSent || s.lanes[j].ackQueue != []
    ensures Possible(c, s, a)
  {
    hide Good, DataOk, HeldOk, Encode, NodeOk;
    assert j > 0;
    assert LaneOk(c, j, s.lanes[j], s.nodes[j - 1], s.nodes[j], s.now);
    assert ValidLink(c, c.links[j]);
    if !s.nodes[j].ackSent {
      a := DoSendAck(j);
    } else {
      a := DoCarryAck(j);
    }
  }

  lemma CloserCanMove(c: Config, s: State, j: nat) returns (a: Action)
    requires Valid(c) && AllOk(c, s) && j < |c.kinds| && s.nodes[j].status.Alive? && s.nodes[j].looped
    requires Acked(c.links[j + 1]) ==> s.nodes[j].ackTaken
    requires Acked(c.links[j]) ==> s.nodes[j].ackSent && s.lanes[j].ackQueue == []
    requires Pipe(s.lanes[j + 1]) == []
    ensures Possible(c, s, a)
  {
    hide NodeOk, LaneOk;
    a := DoClose(j);
  }

  lemma {:induction false} LastBusy(s: State, m: nat) returns (found: bool, i: nat)
    requires m <= |s.nodes| && |s.lanes| == |s.nodes| + 1
    ensures found ==> i < m && Busy(s, i) && forall j :: i < j < m ==> !Busy(s, j)
    ensures !found ==> forall j :: 0 <= j < m ==> !Busy(s, j)
    decreases m
  {
    if m == 0 {
      found, i := false, 0;
    } else if Busy(s, m - 1) {
      found, i := true, m - 1;
    } else {
      found, i := LastBusy(s, m - 1);
    }
  }

  lemma {:induction false} LastOpen(s: State, m: nat) returns (i: nat)
    requires m <= |s.nodes| && exists j :: 0 <= j < m && !s.nodes[j].status.Closed?
    ensures i < m && !s.nodes[i].status.Closed? && forall j :: i < j < m ==> s.nodes[j].status.Closed?
    decreases m
  {
    if s.nodes[m - 1].status.Closed? { i := LastOpen(s, m - 1); } else { i := m - 1; }
  }

  lemma IdleCanMove(c: Config, s: State) returns (a: Action)
    requires Valid(c) && AllOk(c, s) && NoneFailed(s)
    requires forall j :: 0 <= j < |c.kinds| ==> !Busy(s, j)
    requires exists j :: 0 <= j < |c.kinds| && !s.nodes[j].status.Closed?
    ensures Possible(c, s, a)
  {
    hide NodeOk, LaneOk, Possible, Step;
    assert !Busy(s, 0);
    if |s.nodes[0].log| < c.total {
      NotLoopedIsAlive(c, s, 0);
      a := SourceCanMove(c, s);
    } else if i :| 0 <= i < |c.kinds| && !s.nodes[i].looped {
      IdleAgree(c, s, i);
      assert !Busy(s, i);
      LogWithinTotal(c, s, i);
      a := FinisherCanMove(c, s, i);
    } else {
      var j := LastOpen(s, |c.kinds|);
      assert !Busy(s, j);
      a := LastOpenCanMove(c, s, j);
    }
  }

  lemma LogWithinTotal(c: Config, s: State, i: nat)
    requires Valid(c) && AllOk(c, s) && i < |c.kinds|
    ensures |s.nodes[i].log| <= c.total
  {
    hide HeldOk, LaneOk;
    assert NodeOk(c, i, s.nodes[i], s.now);
  }

  /** No reachable unfinished state is stuck: unless a deadline expired, some process or the driver has
      a step to take. */
  lemma NoDeadlock(c: Config, acts: seq<Action>) returns (a: Action)
    requires Valid(c) && Run(c, acts).Some? && NoneFailed(Run(c, acts).value)
    requires exists j :: 0 <= j < |c.kinds| && !Run(c, acts).value.nodes[j].status.Closed?
    ensures Possible(c, Run(c, acts).value, a)
  {
    hide NodeOk, LaneOk, Possible, Step, SlotsOk;
    RunKeepsInv(c, acts);
    var s := Run(c, acts).value;
    var found, i := LastBusy(s, |c.kinds|);
    if found { a := LastBusyCanMove(c, s, i); } else { a := IdleCanMove(c, s); }
  }

  // ----- How runs end -----

  ghost predicate Complete(c: Config, s: State)
    requires Valid(c) && Shaped(c, s)
  {
    && (forall i :: 0 <= i < |c.kinds| ==>
          s.nodes[i].status.Closed? && s.nodes[i].log == seq(c.total, k => k)
          && (i + 1 < |c.kinds| ==> s.nodes[i].sent == c.total))
    && (forall i :: 0 <= i <= |c.kinds| ==> s.lanes[i] == EMPTY_LANE)
    && (forall g :: 0 <= g < c.segments ==> s.roots[g] == {} && s.children[g] == {})
  }

  lemma ClosedNode(c: Config, s: State, i: nat)
    requires Valid(c) && AllOk(c, s) && i < |c.kinds| && s.nodes[i].status.Closed?
    ensures s.nodes[i].log == seq(c.total, k => k) && s.nodes[i].held.Nothing?
    ensures i + 1 < |c.kinds| ==> s.nodes[i].sent == c.total
  {
    hide Good, LaneOk;
    assert NodeOk(c, i, s.nodes[i], s.now);
  }

  lemma ClosedLane(c: Config, s: State, i: nat)
    requires Valid(c) && AllOk(c, s) && 0 < i < |c.kinds|
    requires s.nodes[i - 1].status.Closed? && s.nodes[i].status.Closed?
    ensures s.lanes[i] == EMPTY_LANE
  {
    hide Good, GoodMsg;
    assert NodeOk(c, i - 1, s.nodes[i - 1], s.now) && NodeOk(c, i, s.nodes[i], s.now);
    assert LaneOk(c, i, s.lanes[i], s.nodes[i - 1], s.nodes[i], s.now);
    assert Pipe(s.lanes[i]) == [] && AckPipe(s.lanes[i]) == [];
  }

  lemma {:induction false} NothingLiveAtEnd(c: Config, s: State, g: nat, k: Class, m: nat)
    requires Shaped(c, s) && |c.links| == |c.kinds| + 1 && m <= |c.kinds|
    requires forall i :: 0 <= i < |c.kinds| ==> s.nodes[i].held.Nothing?
    requires forall i :: 0 <= i <= |c.kinds| ==> s.lanes[i] == EMPTY_LANE
    ensures Live(c, s, g, k, m) == multiset{}
    decreases m
  {
    if m > 0 { NothingLiveAtEnd(c, s, g, k, m - 1); }
  }

  lemma AllClosedIsComplete(c: Config, s: State)
    requires Valid(c) && Inv(c, s) && forall i :: 0 <= i < |c.kinds| ==> s.nodes[i].status.Closed?
    ensures Complete(c, s)
  {
    hide NodeOk, LaneOk, Live;
    forall i | 0 <= i < |c.kinds|
      ensures s.nodes[i].log == seq(c.total, k => k) && s.nodes[i].held.Nothing?
      ensures i + 1 < |c.kinds| ==> s.nodes[i].sent == c.total
    {
      ClosedNode(c, s, i);
    }
    forall i | 0 <= i <= |c.kinds| ensures s.lanes[i] == EMPTY_LANE {
      if 0 < i < |c.kinds| { ClosedLane(c, s, i); }
    }
    forall g | 0 <= g < c.segments ensures s.roots[g] == {} && s.children[g] == {} {
      NothingLiveAtEnd(c, s, g, Roots, |c.kinds|);
      NothingLiveAtEnd(c, s, g, Children, |c.kinds|);
      NoneUsed(s.roots[g]);
      NoneUsed(s.children[g]);
      assert Live(c, s, g, Roots, |c.kinds|) == multiset(Used(s, g, Roots));
      assert Live(c, s, g, Children, |c.kinds|) == multiset(Used(s, g, Children));
    }
  }

  lemma NoneUsed(u: set<nat>)
    ensures multiset(u) == multiset{} ==> u == {}
  {
    if u != {} {
      var x :| x in u;
      assert x in multiset(u);
    }
  }

  /** A run without expired deadlines that cannot go on is complete: every process accepted samples
      0 .. total - 1 in order, passed each on exactly once and left; no frame or completion is in flight,
      and no slot is still allocated. */
  lemma MaximalRunsComplete(c: Config, acts: seq<Action>)
    requires Valid(c) && Run(c, acts).Some?
    requires forall a :: a in acts ==> !a.DoExpire?
    requires forall a :: !Possible(c, Run(c, acts).value, a)
    ensures Complete(c, Run(c, acts).value)
  {
    hide NodeOk, LaneOk, Possible, Step, SlotsOk, Complete;
    RunKeepsInv(c, acts);
    var s := Run(c, acts).value;
    forall i | 0 <= i < |s.nodes| ensures !s.nodes[i].status.Failed? {
      NoValidationFailure(c, acts, i);
    }
    if exists j :: 0 <= j < |c.kinds| && !s.nodes[j].status.Closed? {
      var a := NoDeadlock(c, acts);
      assert false;
    }
    AllClosedIsComplete(c, s);
  }

  lemma StepFailsNobody(c: Config, acts: seq<Action>, a: Action)
    requires Valid(c) && Run(c, acts).Some? && NoneFailed(Run(c, acts).value)
    requires Possible(c, Run(c, acts).value, a)
    ensures Run(c, acts + [a]) == Step(c, Run(c, acts).value, a)
    ensures NoneFailed(Run(c, acts + [a]).value)
  {
    hide Step, AllOk;
    var s := Run(c, acts).value;
    assert (acts + [a])[..|acts|] == acts;
    var s' := Run(c, acts + [a]).value;
    forall i | 0 <= i < |s'.nodes| ensures !s'.nodes[i].status.Failed? {
      NoValidationFailure(c, acts + [a], i);
      assert !s.nodes[i].status.Failed?;
      ExpiryOnlyByExpire(c, s, a, i);
    }
  }

  /** Any run in which no deadline has expired can be carried on to completion. */
  lemma {:induction false} CanComplete(c: Config, acts: seq<Action>) returns (all: seq<Action>)
    requires Valid(c) && Run(c, acts).Some? && NoneFailed(Run(c, acts).value)
    ensures acts <= all && Run(c, all).Some? && Complete(c, Run(c, all).value)
    decreases Work(c, Run(c, acts).value, |c.kinds|)
  {
    hide NodeOk, LaneOk, Step, SlotsOk, Complete, Work;
    RunKeepsInv(c, acts);
    var s := Run(c, acts).value;
    if exists j :: 0 <= j < |c.kinds| && !s.nodes[j].status.Closed? {
      var a := NoDeadlock(c, acts);
      StepFailsNobody(c, acts, a);
      StepLowers(c, s, a);
      WorkIsNatural(c, s, |c.kinds|);
      all := CanComplete(c, acts + [a]);
    } else {
      AllClosedIsComplete(c, s);
      all := acts;
    }
  }
}
