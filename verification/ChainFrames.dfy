/** What becomes of each frame: the readings it carries at the end are those the roles took on its way. */
module ChainFrames {
  import opened Payload
  import opened Frames
  import opened Completion
  import opened Chain
  import opened ChainInvariant
  import opened ChainRuns

  // ----- The history of a run -----

  /** A node accepted `frame` at reading `t` and made `made` of it. */
  datatype Visit = Visit(frame: SemanticFrame, t: nat, made: SemanticFrame)

  /** The visit that an action of a node brings, if any, told from the node before and after it. */
  ghost function Seen(c: Config, a: Action, l: Local, r: Local): seq<Visit>
    requires Actor(a) < |c.kinds| && |c.links| == |c.kinds| + 1
  {
    if |r.node.log| <= |l.node.log| then []
    else
      match a
      case DoProduce(origin, t) =>
        if r.node.held.Nothing? then []
        else [Visit(SourceFrame(|l.node.log|, c.profile, origin), t, r.node.held.frame)]
      case DoReceive(i, t) =>
        var q := Incoming(c.links[i], l.up);
        if q == [] then []
        else [Visit(q[0].frame, t, if r.node.held.Nothing? then q[0].frame else r.node.held.frame)]
      case _ => []
  }

  /** The visits at each node during a run, in order. */
  ghost function Visits(c: Config, acts: seq<Action>): (h: seq<seq<Visit>>)
    requires |c.links| == |c.kinds| + 1 && Run(c, acts).Some?
    ensures |h| == |c.kinds|
    decreases |acts|
  {
    if acts == [] then seq(|c.kinds|, _ => [])
    else
      var a, h := acts[|acts| - 1], Visits(c, acts[..|acts| - 1]);
      var s, s' := Run(c, acts[..|acts| - 1]).value, Run(c, acts).value;
      var i := Actor(a);
      if i < |c.kinds| then h[i := h[i] + Seen(c, a, At(s, i), At(s', i))] else h
  }

  // ----- What the history says about the state -----

  /** A role other than canbus writes its reading into its stamp; bridges and canbus change nothing. */
  ghost predicate MadeFrom(k: Kind, v: Visit) {
    WellShaped(v.frame) && if k.Stage? && k.role != Canbus then StampWritten(k.role, v.frame, v.t, v.made)
                           else v.made == v.frame
  }

  ghost predicate NodeTraced(c: Config, i: nat, n: Node, v: seq<Visit>)
    requires i < |c.kinds|
  {
    && |v| == |n.log| && (forall j :: 0 <= j < |v| ==> MadeFrom(c.kinds[i], v[j]))
    && (!n.held.Nothing? ==> n.sent < |v| && n.held.frame == v[n.sent].made)
    && (i == 0 ==> forall j :: 0 <= j < |v| ==> v[j].frame == SourceFrame(j, c.profile, v[j].frame.origin))
  }

  /** A lane carries what the node before it made, in order. */
  ghost predicate LaneTraced(lane: Lane, b: Node, before: seq<Visit>) {
    && Base(b) >= 0 && Base(b) + |Pipe(lane)| <= |before|
    && forall k :: 0 <= k < |Pipe(lane)| ==> Pipe(lane)[k].frame == before[Base(b) + k].made
  }

  /** A node accepted what the node before it made. */
  ghost predicate Handed(before: seq<Visit>, v: seq<Visit>) {
    |v| <= |before| && forall j :: 0 <= j < |v| ==> v[j].frame == before[j].made
  }

  ghost predicate LocalTraced(c: Config, i: nat, l: Local, after: Node, before: seq<Visit>, v: seq<Visit>)
    requires i < |c.kinds|
  {
    && NodeTraced(c, i, l.node, v)
    && (i > 0 ==> LaneTraced(l.up, l.node, before) && Handed(before, v))
    && (i + 1 < |c.kinds| ==> LaneTraced(l.down, after, v))
  }

  // ----- Each step keeps it -----

  lemma LaneGrows(lane: Lane, b: Node, v: seq<Visit>, more: seq<Visit>)
    requires LaneTraced(lane, b, v)
    ensures LaneTraced(lane, b, v + more)
  {}

  /** Only stages with a successor stamp. */
  lemma AcceptedIsMade(c: Config, i: nat, f: SemanticFrame, id: nat, t: nat)
    requires Valid(c) && i < |c.kinds| && Accept(c, c.kinds[i], f, id, t).Some?
    ensures MadeFrom(c.kinds[i], Visit(f, t, Accept(c, c.kinds[i], f, id, t).value))
  {
    hide StampWritten, Acceptable, StampAllowed, TransitOk, PhaseOk;
    match c.kinds[i]
    case Stage(r) => if r != Canbus { StampIsWritten(r, f, t); }
    case Bridge(_) =>
  }

  lemma ProduceTraced(c: Config, before: Node, l: Local, after: Node, now: nat, origin: nat, t: nat, v: seq<Visit>)
    requires Valid(c) && LocalOk(c, 0, before, l, after, now) && now >= 1
    requires OriginOk(c, now, |l.node.log|, origin) && Reading(c, now, t) && Produce(c, l, origin, t).Some?
    requires LocalTraced(c, 0, l, after, [], v)
    ensures var r := Produce(c, l, origin, t).value;
            LocalTraced(c, 0, r, after, [], v + Seen(c, DoProduce(origin, t), l, r))
  {
    hide Good, SourceFrame, ApplyStage, MadeFrom, LaneTraced, LaneOk;
    var id, r := |l.node.log|, Produce(c, l, origin, t).value;
    var f := SourceFrame(id, c.profile, origin);
    SourceIsGood(c, id, origin, now);
    assert Index(Perception) == 0;
    StageAccepts(c, Perception, f, id, now, t);
    assert Accept(c, Stage(Perception), f, id, t) == ApplyStage(Perception, c.mode, f, f.payload, t);
    AcceptedIsMade(c, 0, f, id, t);
    SourceOrigin(id, c.profile, origin);
    var visit := Visit(f, t, r.node.held.frame);
    assert Seen(c, DoProduce(origin, t), l, r) == [visit];
    LaneGrows(l.down, after, v, [visit]);
  }

  /** What a waiting node takes is what the node before made as its next sample. */
  lemma HeadIsTraced(c: Config, i: nat, lane: Lane, a: Node, b: Node, now: nat, before: seq<Visit>)
    requires Valid(c) && 0 < i < |c.kinds| && LaneOk(c, i, lane, a, b, now) && LaneTraced(lane, b, before)
    requires Incoming(c.links[i], lane) != [] && !b.borrowing
    ensures |b.log| < |before| && Incoming(c.links[i], lane)[0].frame == before[|b.log|].made
  {
    hide GoodMsg, AckOk;
    HeadIsExpected(c, i, lane, a, b, now);
    assert Pipe(lane)[0].frame == before[Base(b) + 0].made;
  }

  lemma ReceivedLaneTraced(c: Config, i: nat, before: Node, l: Local, r: Local, after: Node, now: nat, t: nat,
                           h: seq<Visit>)
    requires Valid(c) && 0 < i < |c.kinds| && LocalOk(c, i, before, l, after, now)
    requires Receive(c, i, l, t) == Some(r) && |r.node.log| == |l.node.log| + 1 && LaneTraced(l.up, l.node, h)
    ensures LaneTraced(r.up, r.node, h) && r.down == l.down
  {
    hide Good, GoodMsg, Accept, AckOk, HeldOk;
    if r.node.borrowing {
      assert Pipe(r.up) == Pipe(l.up) && Base(r.node) == Base(l.node);
    } else {
      assert Pipe(r.up) == Pipe(l.up)[1..] && Base(r.node) == Base(l.node) + 1;
    }
  }

  /** The receiver's node after the step, and the visit the step brings. */
  lemma ReceivedNode(c: Config, i: nat, before: Node, l: Local, after: Node, now: nat, t: nat)
    requires Valid(c) && 0 < i < |c.kinds| && LocalOk(c, i, before, l, after, now) && now >= 1
    requires Reading(c, now, t) && Receive(c, i, l, t).Some?
    ensures var r, q := Receive(c, i, l, t).value, Incoming(c.links[i], l.up);
            && q != [] && !l.node.borrowing && |r.node.log| == |l.node.log| + 1 && r.node.sent == l.node.sent
            && l.node.held.Nothing? && (i + 1 < |c.kinds| ==> l.node.sent == |l.node.log| && !r.node.held.Nothing?)
            && (i + 1 == |c.kinds| ==> r.node.held.Nothing?)
            && MadeFrom(c.kinds[i], Visit(q[0].frame, t,
                                          if r.node.held.Nothing? then q[0].frame else r.node.held.frame))
  {
    hide Good, Accept, MadeFrom, AckOk;
    var q := Incoming(c.links[i], l.up);
    HeadIsExpected(c, i, l.up, before, l.node, now);
    NodeAccepts(c, i, q[0].frame, |l.node.log|, now, t);
    AcceptedIsMade(c, i, q[0].frame, |l.node.log|, t);
    if i + 1 == |c.kinds| { CanbusMakesNothing(c, q[0].frame, |l.node.log|, t); }
  }

  lemma CanbusMakesNothing(c: Config, f: SemanticFrame, id: nat, t: nat)
    requires Valid(c) && Accept(c, Stage(Canbus), f, id, t).Some?
    ensures MadeFrom(Stage(Canbus), Visit(f, t, f))
  {}

  lemma ReceiveTraced(c: Config, i: nat, before: Node, l: Local, after: Node, now: nat, t: nat, h: seq<Visit>,
                      v: seq<Visit>)
    requires Valid(c) && 0 < i < |c.kinds| && LocalOk(c, i, before, l, after, now) && now >= 1
    requires Reading(c, now, t) && Receive(c, i, l, t).Some? && LocalTraced(c, i, l, after, h, v)
    ensures var r := Receive(c, i, l, t).value;
            LocalTraced(c, i, r, after, h, v + Seen(c, DoReceive(i, t), l, r))
  {
    hide LaneTraced, MadeFrom, Receive, LaneOk, NodeOk;
    var r, q := Receive(c, i, l, t).value, Incoming(c.links[i], l.up);
    ReceivedNode(c, i, before, l, after, now, t);
    HeadIsTraced(c, i, l.up, before, l.node, now, h);
    ReceivedLaneTraced(c, i, before, l, r, after, now, t, h);
    var visit := Visit(q[0].frame, t, if r.node.held.Nothing? then q[0].frame else r.node.held.frame);
    assert Seen(c, DoReceive(i, t), l, r) == [visit];
    if i + 1 < |c.kinds| { LaneGrows(l.down, after, v, [visit]); }
  }

  lemma SendTraced(c: Config, i: nat, before: Node, l: Local, after: Node, now: nat, h: seq<Visit>, v: seq<Visit>)
    requires Valid(c) && i < |c.kinds| && LocalOk(c, i, before, l, after, now)
    requires Send(c, i, l).Some? && LocalTraced(c, i, l, after, h, v)
    ensures LocalTraced(c, i, Send(c, i, l).value, after, h, v)
  {
    hide Good, GoodMsg, MadeFrom, AckOk, LaneTraced;
    var r := Send(c, i, l).value;
    assert i + 1 < |c.kinds|;
    TailTraced(l.down, r.down.queue[|r.down.queue| - 1], after, v);
    if i > 0 { SameLane(l.up, l.node, r.node, h); }
  }

  lemma SameLane(lane: Lane, b: Node, b': Node, v: seq<Visit>)
    requires LaneTraced(lane, b, v) && Base(b') == Base(b)
    ensures LaneTraced(lane, b', v)
  {}

  lemma TailTraced(lane: Lane, m: Msg, b: Node, v: seq<Visit>)
    requires LaneTraced(lane, b, v) && Base(b) + |Pipe(lane)| < |v|
    requires m.frame == v[Base(b) + |Pipe(lane)|].made
    ensures LaneTraced(lane.(queue := lane.queue + [m]), b, v)
  {
    assert Pipe(lane.(queue := lane.queue + [m])) == Pipe(lane) + [m];
  }

  /** A step that leaves logs, frames in hand and the order of the frames in the lanes alone. */
  lemma StillTraced(c: Config, i: nat, l: Local, r: Local, after: Node, h: seq<Visit>, v: seq<Visit>)
    requires i < |c.kinds| && LocalTraced(c, i, l, after, h, v)
    requires r.node.log == l.node.log && Pipe(r.down) == Pipe(l.down)
    requires r.node.held.Nothing?
             || (!l.node.held.Nothing? && r.node.held.frame == l.node.held.frame && r.node.sent == l.node.sent)
    requires i > 0 ==>
               || (Pipe(r.up) == Pipe(l.up) && Base(r.node) == Base(l.node))
               || (Pipe(l.up) != [] && Pipe(r.up) == Pipe(l.up)[1..] && Base(r.node) == Base(l.node) + 1)
    ensures LocalTraced(c, i, r, after, h, v)
  {
    hide MadeFrom;
  }

  lemma ReclaimTraced(c: Config, i: nat, before: Node, l: Local, after: Node, now: nat, h: seq<Visit>, v: seq<Visit>)
    requires Valid(c) && i < |c.kinds| && LocalOk(c, i, before, l, after, now) && LocalTraced(c, i, l, after, h, v)
    ensures Acknowledge(l).Some? ==> LocalTraced(c, i, Acknowledge(l).value, after, h, v)
    ensures Reclaim(l).Some? ==> LocalTraced(c, i, Reclaim(l).value, after, h, v)
  {
    hide LocalTraced, Good, GoodMsg, HeldOk, AckOk;
    if Acknowledge(l).Some? {
      assert Pipe(Acknowledge(l).value.up) == Pipe(l.up);
      StillTraced(c, i, l, Acknowledge(l).value, after, h, v);
    }
    if Reclaim(l).Some? {
      assert Pipe(Reclaim(l).value.up) == Pipe(l.up)[1..];
      StillTraced(c, i, l, Reclaim(l).value, after, h, v);
    }
  }

  lemma TransportTraced(c: Config, i: nat, l: Local, after: Node, k: nat, h: seq<Visit>, v: seq<Visit>)
    requires i < |c.kinds| && |c.links| == |c.kinds| + 1 && LocalTraced(c, i, l, after, h, v)
    ensures Carry(c, i, l).Some? ==> LocalTraced(c, i, Carry(c, i, l).value, after, h, v)
    ensures Poll(c, i, l, k).Some? ==> LocalTraced(c, i, Poll(c, i, l, k).value, after, h, v)
  {
    hide LocalTraced;
    if Carry(c, i, l).Some? {
      assert Pipe(Carry(c, i, l).value.up) == Pipe(l.up);
      StillTraced(c, i, l, Carry(c, i, l).value, after, h, v);
    }
    if Poll(c, i, l, k).Some? {
      assert Pipe(Poll(c, i, l, k).value.up) == Pipe(l.up);
      StillTraced(c, i, l, Poll(c, i, l, k).value, after, h, v);
    }
  }

  /** The steps that do not touch frames. */
  lemma OthersTraced(c: Config, a: Action, l: Local, after: Node, now: nat, h: seq<Visit>, v: seq<Visit>)
    requires Actor(a) < |c.kinds| && |c.links| == |c.kinds| + 1 && LocalStep(c, a, l, now).Some?
    requires !a.DoProduce? && !a.DoReceive? && !a.DoSend? && !a.DoAcknowledge? && !a.DoReclaim?
    requires !a.DoCarry? && !a.DoPoll? && LocalTraced(c, Actor(a), l, after, h, v)
    ensures LocalTraced(c, Actor(a), LocalStep(c, a, l, now).value, after, h, v)
  {
    hide LocalTraced, Measured, Accepts, Encode, Base;
    SameBase(l.node, LocalStep(c, a, l, now).value.node);
    StillTraced(c, Actor(a), l, LocalStep(c, a, l, now).value, after, h, v);
  }

  lemma SameBase(n: Node, m: Node)
    requires m.log == n.log && m.borrowing == n.borrowing
    ensures Base(m) == Base(n)
  {}

  lemma StepTraced(c: Config, a: Action, before: Node, l: Local, after: Node, now: nat, h: seq<Visit>, v: seq<Visit>)
    requires Valid(c) && Actor(a) < |c.kinds| && LocalOk(c, Actor(a), before, l, after, now) && now >= 1
    requires LocalStep(c, a, l, now).Some? && LocalTraced(c, Actor(a), l, after, h, v)
    ensures var r := LocalStep(c, a, l, now).value;
            LocalTraced(c, Actor(a), r, after, h, v + Seen(c, a, l, r))
  {
    hide LocalTraced, LocalOk, Produce, Receive, Send, Acknowledge, Reclaim, Carry, Poll, Seen;
    var r := LocalStep(c, a, l, now).value;
    if a.DoProduce? {
      WithoutInput(c, l, after, h, v);
      ProduceTraced(c, before, l, after, now, a.origin, a.t, v);
      WithInput(c, r, after, h, v + Seen(c, a, l, r));
    } else if a.DoReceive? {
      ReceiverHasInput(c, a.i, l, a.t);
      ReceiveTraced(c, a.i, before, l, after, now, a.t, h, v);
    } else {
      SeenNothing(c, a, l, r);
      assert v + [] == v;
      match a
      case DoSend(i) => SendTraced(c, i, before, l, after, now, h, v);
      case DoAcknowledge(i) => ReclaimTraced(c, i, before, l, after, now, h, v);
      case DoReclaim(i) => ReclaimTraced(c, i, before, l, after, now, h, v);
      case DoCarry(i) => TransportTraced(c, i, l, after, 0, h, v);
      case DoPoll(i, k) => TransportTraced(c, i, l, after, k, h, v);
      case _ => OthersTraced(c, a, l, after, now, h, v);
    }
  }

  lemma WithoutInput(c: Config, l: Local, after: Node, h: seq<Visit>, v: seq<Visit>)
    requires |c.kinds| > 0 && LocalTraced(c, 0, l, after, h, v)
    ensures LocalTraced(c, 0, l, after, [], v)
  {}

  lemma WithInput(c: Config, l: Local, after: Node, h: seq<Visit>, v: seq<Visit>)
    requires |c.kinds| > 0 && LocalTraced(c, 0, l, after, [], v)
    ensures LocalTraced(c, 0, l, after, h, v)
  {}

  lemma ReceiverHasInput(c: Config, i: nat, l: Local, t: nat)
    requires Valid(c) && i < |c.kinds| && Receive(c, i, l, t).Some?
    ensures i > 0
  {}

  lemma SeenNothing(c: Config, a: Action, l: Local, r: Local)
    requires Actor(a) < |c.kinds| && |c.links| == |c.kinds| + 1 && !a.DoProduce? && !a.DoReceive?
    ensures Seen(c, a, l, r) == []
  {}

  // ----- The whole chain -----

  ghost predicate AllTraced(c: Config, s: State, h: seq<seq<Visit>>)
    requires Shaped(c, s)
  {
    && |h| == |c.kinds|
    && (forall i :: 0 <= i < |c.kinds| ==> NodeTraced(c, i, s.nodes[i], h[i]))
    && (forall i :: 1 <= i < |c.kinds| ==> LaneTraced(s.lanes[i], s.nodes[i], h[i - 1]) && Handed(h[i - 1], h[i]))
  }

  lemma HandedGrows(v: seq<Visit>, more: seq<Visit>, next: seq<Visit>)
    requires Handed(v, next)
    ensures Handed(v + more, next)
  {}

  lemma AssembleTraced(c: Config, s: State, i: nat, l: Local, h: seq<seq<Visit>>, more: seq<Visit>)
    requires Shaped(c, s) && AllTraced(c, s, h) && i < |c.kinds|
    requires LocalTraced(c, i, l, After(s, i), if i == 0 then [] else h[i - 1], h[i] + more)
    ensures AllTraced(c, Put(s, i, l), h[i := h[i] + more])
  {
    hide NodeTraced, LaneTraced, Handed;
    var s', h' := Put(s, i, l), h[i := h[i] + more];
    forall j | 1 <= j < |c.kinds|
      ensures LaneTraced(s'.lanes[j], s'.nodes[j], h'[j - 1]) && Handed(h'[j - 1], h'[j])
    {
      if j == i + 1 { HandedGrows(h[i], more, h[j]); }
    }
  }

  lemma RunStepTraced(c: Config, s: State, a: Action, h: seq<seq<Visit>>)
    requires Valid(c) && AllOk(c, s) && AllTraced(c, s, h) && Step(c, s, a).Some?
    ensures var s', i := Step(c, s, a).value, Actor(a);
            && Shaped(c, s') && i < |c.kinds|
            && AllTraced(c, s', h[i := h[i] + Seen(c, a, At(s, i), At(s', i))])
  {
    hide NodeOk, LaneOk, LocalOk, LocalStep, AllOk, LocalTraced, Seen, NodeTraced, LaneTraced, Handed;
    NowIsPositive(c, s);
    var s', i := Step(c, s, a).value, Actor(a);
    if a.Tick? {
      SeenNothing(c, a, At(s, i), At(s', i));
      assert h[i] + [] == h[i] && h[i := h[i]] == h;
    } else {
      var l := At(s, i);
      var r := LocalStep(c, a, l, s.now).value;
      Extract(c, s, i);
      ExtractTraced(c, s, i, h);
      StepTraced(c, a, Before(s, i), l, After(s, i), s.now, if i == 0 then [] else h[i - 1], h[i]);
      AssembleTraced(c, s, i, r, h, Seen(c, a, l, r));
      assert At(s', i) == r;
      assert s'.nodes == Put(s, i, r).nodes && s'.lanes == Put(s, i, r).lanes;
    }
  }

  lemma ExtractTraced(c: Config, s: State, i: nat, h: seq<seq<Visit>>)
    requires Shaped(c, s) && AllTraced(c, s, h) && i < |c.kinds|
    ensures LocalTraced(c, i, At(s, i), After(s, i), if i == 0 then [] else h[i - 1], h[i])
  {
    hide NodeTraced, LaneTraced, Handed;
    if i + 1 < |c.kinds| {
      assert LaneTraced(s.lanes[i + 1], s.nodes[i + 1], h[i + 1 - 1]);
    }
  }

  /** In every state of every run, nodes and lanes hold exactly what the nodes before them made. */
  lemma {:induction false} RunTraced(c: Config, acts: seq<Action>)
    requires Valid(c) && Run(c, acts).Some?
    ensures AllTraced(c, Run(c, acts).value, Visits(c, acts))
    decreases |acts|
  {
    hide Step, AllTraced;
    if acts == [] {
      StartTraced(c);
    } else {
      var n := |acts| - 1;
      RunTraced(c, acts[..n]);
      RunKeepsInv(c, acts[..n]);
      RunStepTraced(c, Run(c, acts[..n]).value, acts[n], Visits(c, acts[..n]));
    }
  }

  lemma StartTraced(c: Config)
    requires Valid(c)
    ensures Shaped(c, Init(c)) && AllTraced(c, Init(c), seq(|c.kinds|, _ => []))
  {}

  // ----- Where the stamps come from -----

  /** For every stage in front of a node, the reading it took for sample `j`; for those to come, zero. */
  ghost predicate Stamps(c: Config, h: seq<seq<Visit>>, i: nat, j: nat, f: SemanticFrame)
    requires i < |c.kinds| == |h|
  {
    && WellShaped(f) && (forall r :: StageIn(c.kinds[i]) <= r < STAGES ==> f.stamps[r] == 0)
    && forall m :: 0 <= m < i && c.kinds[m].Stage? && c.kinds[m].role != Canbus ==>
         j < |h[m]| && f.stamps[Index(c.kinds[m].role)] == h[m][j].t
  }

  /** The frame a node accepts as sample `j` is the source frame of that sample with, for every stage before the node,
      the reading that stage took when it accepted sample `j`, and no other stamp. */
  lemma {:induction false} Provenance(c: Config, acts: seq<Action>, i: nat, j: nat)
    requires Valid(c) && Run(c, acts).Some? && i < |c.kinds| && j < |Run(c, acts).value.nodes[i].log|
    ensures var h := Visits(c, acts);
            && j < |h[i]| && j < |h[0]| && |h[i]| == |Run(c, acts).value.nodes[i].log|
            && var f := h[i][j].frame;
               && Stamps(c, h, i, j, f)
               && f == SourceFrame(j, c.profile, h[0][j].frame.origin).(stamps := f.stamps, mask := f.mask)
               && f.mask == ExpectedMask(ROLES[StageIn(c.kinds[i])])
    decreases i
  {
    hide Run, Visits;
    RunTraced(c, acts);
    var h := Visits(c, acts);
    assert NodeTraced(c, i, Run(c, acts).value.nodes[i], h[i]);
    if i == 0 {
      hide Valid;
      SourceStamps(j, c.profile, h[0][j].frame.origin);
    } else {
      assert Handed(h[i - 1], h[i]);
      assert NodeTraced(c, i - 1, Run(c, acts).value.nodes[i - 1], h[i - 1]);
      Provenance(c, acts, i - 1, j);
      assert MadeFrom(c.kinds[i - 1], h[i - 1][j]);
      MaskPassesOn(c, i, h[i - 1][j]);
      StampsPassOn(c, h, i, j);
    }
  }

  lemma SourceStamps(id: nat, profile: Profile, origin: nat)
    ensures var f := SourceFrame(id, profile, origin);
            f.stamps == [0, 0, 0, 0, 0] && f.mask == ExpectedMask(Perception) == ExpectedMask(ROLES[0])
  {}

  lemma MaskPassesOn(c: Config, i: nat, v: Visit)
    requires Valid(c) && 0 < i < |c.kinds| && MadeFrom(c.kinds[i - 1], v)
    requires v.frame.mask == ExpectedMask(ROLES[StageIn(c.kinds[i - 1])])
    ensures v.made.mask == ExpectedMask(ROLES[StageIn(c.kinds[i])])
  {
    hide ExpectedMask, RoleBit;
    var k := c.kinds[i - 1];
    assert StageOut(k) == StageIn(c.kinds[i]);
    if k.Stage? {
      assert k.role != Canbus;
      MaskAdvances(k.role);
    }
  }

  /** From one node to the next. */
  lemma StampsPassOn(c: Config, h: seq<seq<Visit>>, i: nat, j: nat)
    requires Valid(c) && |h| == |c.kinds| && 0 < i < |c.kinds| && j < |h[i - 1]| && j < |h[i]|
    requires h[i][j].frame == h[i - 1][j].made && MadeFrom(c.kinds[i - 1], h[i - 1][j])
    requires Stamps(c, h, i - 1, j, h[i - 1][j].frame)
    ensures Stamps(c, h, i, j, h[i][j].frame)
  {
    hide ExpectedMask, RoleBit;
    var k, f, g := c.kinds[i - 1], h[i - 1][j].frame, h[i][j].frame;
    assert StageOut(k) == StageIn(c.kinds[i]);
    if k.Stage? {
      assert k.role != Canbus;
      assert ROLES[Index(k.role)] == k.role && g.stamps[Index(k.role)] == h[i - 1][j].t;
    }
    forall m | 0 <= m < i && c.kinds[m].Stage? && c.kinds[m].role != Canbus
      ensures j < |h[m]| && g.stamps[Index(c.kinds[m].role)] == h[m][j].t
    {
      if m < i - 1 { StagesAdvance(c, m, i - 1); }
    }
  }

  lemma {:induction false} StagesAdvance(c: Config, m: nat, i: nat)
    requires Valid(c) && m < i < |c.kinds|
    ensures StageOut(c.kinds[m]) <= StageIn(c.kinds[i])
    decreases i
  {
    assert StageOut(c.kinds[i - 1]) == StageIn(c.kinds[i]);
    if m < i - 1 { StagesAdvance(c, m, i - 1); }
  }

  /** No stage is left out on the way to a node. */
  lemma {:induction false} StageNode(c: Config, i: nat, r: nat) returns (m: nat)
    requires Valid(c) && i < |c.kinds| && r < StageIn(c.kinds[i])
    ensures m < i && c.kinds[m] == Stage(ROLES[r])
    decreases i
  {
    assert i > 0 && StageOut(c.kinds[i - 1]) == StageIn(c.kinds[i]);
    if r < StageIn(c.kinds[i - 1]) {
      m := StageNode(c, i - 1, r);
    } else {
      m := i - 1;
    }
  }

  /** What canbus accepts as sample `j` is the source frame of that sample, complete, with in the stamp of each role the
      clock reading that role's process took when it accepted sample `j`. */
  lemma CanbusSeesReadings(c: Config, acts: seq<Action>, j: nat, r: nat) returns (m: nat)
    requires Valid(c) && Run(c, acts).Some? && j < |Run(c, acts).value.nodes[|c.kinds| - 1].log| && r < STAGES
    ensures var h := Visits(c, acts);
            && m < |c.kinds| - 1 && c.kinds[m] == Stage(ROLES[r]) && j < |h[m]| && j < |h[|c.kinds| - 1]| && j < |h[0]|
            && var f := h[|c.kinds| - 1][j].frame;
               && WellShaped(f) && f.stamps[r] == h[m][j].t && f.mask == FINAL_STAGE_MASK
               && f == SourceFrame(j, c.profile, h[0][j].frame.origin).(stamps := f.stamps, mask := f.mask)
  {
    hide Run, Visits, SourceFrame;
    var last := |c.kinds| - 1;
    Provenance(c, acts, last, j);
    m := StageNode(c, last, r);
    assert Index(ROLES[r]) == r && ROLES[r] != Canbus;
  }
}
