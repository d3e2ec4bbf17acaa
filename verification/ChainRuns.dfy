/** Every reachable state: the invariant of the whole chain and slot ownership. */
module ChainRuns {
  import opened Payload
  import opened Frames
  import opened Completion
  import opened Chain
  import opened ChainInvariant

  // ----- The whole chain -----

  ghost predicate AllOk(c: Config, s: State)
    requires Valid(c)
  {
    && Shaped(c, s) && s.now >= 1
    && s.lanes[0] == EMPTY_LANE && s.lanes[|c.kinds|] == EMPTY_LANE
    && (forall i :: 0 <= i < |c.kinds| ==> NodeOk(c, i, s.nodes[i], s.now))
    && (forall i :: 1 <= i < |c.kinds| ==> LaneOk(c, i, s.lanes[i], s.nodes[i - 1], s.nodes[i], s.now))
  }

  function Before(s: State, i: nat): Node
    requires i < |s.nodes|
  {
    if i == 0 then s.nodes[0] else s.nodes[i - 1]
  }

  function After(s: State, i: nat): Node
    requires i < |s.nodes|
  {
    if i + 1 == |s.nodes| then s.nodes[i] else s.nodes[i + 1]
  }

  lemma Extract(c: Config, s: State, i: nat)
    requires Valid(c) && AllOk(c, s) && i < |c.kinds|
    ensures LocalOk(c, i, Before(s, i), At(s, i), After(s, i), s.now)
  {
    hide NodeOk, LaneOk;
  }

  lemma Assemble(c: Config, s: State, i: nat, l: Local)
    requires Valid(c) && AllOk(c, s) && i < |c.kinds|
    requires LocalOk(c, i, Before(s, i), l, After(s, i), s.now)
    ensures AllOk(c, Put(s, i, l))
  {
    hide NodeOk, LaneOk;
    var s' := Put(s, i, l);
    forall j | 1 <= j < |c.kinds|
      ensures LaneOk(c, j, s'.lanes[j], s'.nodes[j - 1], s'.nodes[j], s'.now)
    {
      if j != i && j != i + 1 {
        assert LaneOk(c, j, s.lanes[j], s.nodes[j - 1], s.nodes[j], s.now);
      }
    }
  }

  lemma InitOk(c: Config)
    requires Valid(c)
    ensures AllOk(c, Init(c))
  {
    hide Good;
  }

  lemma TickKeeps(c: Config, s: State, d: nat)
    requires Valid(c) && AllOk(c, s)
    ensures AllOk(c, s.(now := s.now + d))
  {
    hide NodeOk, LaneOk;
    var later := s.now + d;
    forall i | 0 <= i < |c.kinds| ensures NodeOk(c, i, s.nodes[i], later) {
      NodeOkLater(c, i, s.nodes[i], s.now, later);
    }
    forall i | 1 <= i < |c.kinds| ensures LaneOk(c, i, s.lanes[i], s.nodes[i - 1], s.nodes[i], later) {
      LaneOkLater(c, i, s.lanes[i], s.nodes[i - 1], s.nodes[i], s.now, later);
    }
  }

  lemma NodeOkLater(c: Config, i: nat, n: Node, now: nat, later: nat)
    requires Valid(c) && i < |c.kinds| && NodeOk(c, i, n, now) && now <= later
    ensures NodeOk(c, i, n, later)
  {
    hide Good;
    if !n.held.Nothing? {
      GoodLater(c, StageOut(c.kinds[i]), n.held.frame, n.sent, now, later);
    }
  }

  lemma LaneOkLater(c: Config, i: nat, lane: Lane, a: Node, b: Node, now: nat, later: nat)
    requires Valid(c) && i < |c.kinds| && LaneOk(c, i, lane, a, b, now) && now <= later
    ensures LaneOk(c, i, lane, a, b, later)
  {
    hide Good;
    forall k | 0 <= k < |Pipe(lane)| ensures GoodMsg(c, i, Pipe(lane)[k], Base(b) + k, later) {
      GoodLater(c, StageIn(c.kinds[i]), Pipe(lane)[k].frame, Base(b) + k, now, later);
    }
  }

  lemma SlotsDoNotMatter(c: Config, s: State, t: State)
    requires Valid(c) && AllOk(c, s)
    requires t.nodes == s.nodes && t.lanes == s.lanes && t.now == s.now
    requires |t.roots| == |s.roots| && |t.children| == |s.children|
    ensures AllOk(c, t)
  {
    hide NodeOk, LaneOk;
  }

  /** What every step of every process keeps. */
  lemma StepKeepsAllOk(c: Config, s: State, a: Action)
    requires Valid(c) && AllOk(c, s) && Step(c, s, a).Some?
    ensures AllOk(c, Step(c, s, a).value)
  {
    hide NodeOk, LaneOk, LocalOk, LocalStep, AllOk;
    NowIsPositive(c, s);
    if a.Tick? {
      TickKeeps(c, s, a.d);
    } else {
      var i := Actor(a);
      Extract(c, s, i);
      var r := LocalStep(c, a, At(s, i), s.now);
      LocalStepKeeps(c, a, Before(s, i), At(s, i), After(s, i), s.now);
      Assemble(c, s, i, r.value);
      SlotsDoNotMatter(c, Put(s, i, r.value), Step(c, s, a).value);
    }
  }

  lemma NowIsPositive(c: Config, s: State)
    requires Valid(c) && AllOk(c, s)
    ensures Shaped(c, s) && s.now >= 1
  {}

  // ----- Who owns which slot -----

  datatype Class = Roots | Children

  function SlotOf(m: Msg, k: Class): multiset<nat> {
    match m
    case Wire(_, _, _, _, _) => multiset{}
    case Graph(_, root, child) => if k == Roots then multiset{root} else multiset{child}
  }

  function QueueSlots(q: seq<Msg>, k: Class): multiset<nat> {
    if q == [] then multiset{} else SlotOf(q[0], k) + QueueSlots(q[1..], k)
  }

  function HeldSlots(h: Held, k: Class): multiset<nat> {
    match h
    case Owned(_, root, child) => if k == Roots then multiset{root} else multiset{child}
    case _ => multiset{}
  }

  /** The graphs of a channel that are not reclaimed: one its reader has acknowledged, and those queued. */
  function Graphs(lane: Lane): seq<Msg> {
    lane.retiring + lane.queue
  }

  /** The slots of segment `g` held by a node, queued in the channel it writes to, or acknowledged by the reader of
      that channel and not yet reclaimed. */
  function Own(g: nat, k: Class, to: Link, n: Node, lane: Lane): multiset<nat> {
    if to.Shm? && to.segment == g then HeldSlots(n.held, k) + QueueSlots(Graphs(lane), k) else multiset{}
  }

  function Live(c: Config, s: State, g: nat, k: Class, m: nat): multiset<nat>
    requires Shaped(c, s) && |c.links| == |c.kinds| + 1 && m <= |c.kinds|
  {
    if m == 0 then multiset{}
    else Live(c, s, g, k, m - 1) + Own(g, k, c.links[m], s.nodes[m - 1], s.lanes[m])
  }

  function Used(s: State, g: nat, k: Class): set<nat>
    requires g < |s.roots| == |s.children|
  {
    if k == Roots then s.roots[g] else s.children[g]
  }

  /** Every allocated slot has exactly one owner and every owned slot is allocated. */
  ghost predicate SlotsOk(c: Config, s: State)
    requires Valid(c) && Shaped(c, s)
  {
    forall g, k :: 0 <= g < c.segments ==> Live(c, s, g, k, |c.kinds|) == multiset(Used(s, g, k))
  }

  /** The slots around one node: those of the channel it reads and those of the one it writes. */
  function Around(c: Config, g: nat, k: Class, i: nat, before: Node, l: Local): multiset<nat>
    requires i < |c.kinds| && |c.links| == |c.kinds| + 1
  {
    (if i == 0 then multiset{} else Own(g, k, c.links[i], before, l.up))
    + Own(g, k, c.links[i + 1], l.node, l.down)
  }

  lemma {:induction false} LivePut(c: Config, s: State, i: nat, l: Local, g: nat, k: Class, m: nat)
    requires Shaped(c, s) && |c.links| == |c.kinds| + 1 && i < m <= |c.kinds|
    requires i == 0 ==> l.up == s.lanes[0]
    ensures Live(c, Put(s, i, l), g, k, m) + Around(c, g, k, i, Before(s, i), At(s, i))
         == Live(c, s, g, k, m) + Around(c, g, k, i, Before(s, i), l)
    decreases m
  {
    hide Own;
    var s' := Put(s, i, l);
    if m == i + 1 {
      if i > 0 { LiveBelow(c, s, i, l, g, k, i - 1); }
    } else {
      LivePut(c, s, i, l, g, k, m - 1);
      var rest := Own(g, k, c.links[m], s.nodes[m - 1], s.lanes[m]);
      var old', new' := Around(c, g, k, i, Before(s, i), At(s, i)), Around(c, g, k, i, Before(s, i), l);
      assert Live(c, s', g, k, m) == Live(c, s', g, k, m - 1) + rest;
      MoveLast(Live(c, s', g, k, m - 1), old', Live(c, s, g, k, m - 1), new', rest);
    }
  }

  lemma MoveLast(a: multiset<nat>, x: multiset<nat>, b: multiset<nat>, y: multiset<nat>, r: multiset<nat>)
    requires a + x == b + y
    ensures (a + r) + x == (b + r) + y
  {
    assert (a + r) + x == (a + x) + r;
    assert (b + r) + y == (b + y) + r;
  }

  lemma {:induction false} LiveBelow(c: Config, s: State, i: nat, l: Local, g: nat, k: Class, m: nat)
    requires Shaped(c, s) && |c.links| == |c.kinds| + 1 && m < i < |c.kinds|
    ensures Live(c, Put(s, i, l), g, k, m) == Live(c, s, g, k, m)
    decreases m
  {
    hide Own;
    if m > 0 { LiveBelow(c, s, i, l, g, k, m - 1); }
  }

  lemma {:induction false} QueueSlotsAppend(q: seq<Msg>, m: Msg, k: Class)
    ensures QueueSlots(q + [m], k) == QueueSlots(q, k) + SlotOf(m, k)
  {
    hide SlotOf;
    if q == [] {
      assert q + [m] == [m] && [m][1..] == q;
    } else {
      QueueSlotsAppend(q[1..], m, k);
      assert (q + [m])[1..] == q[1..] + [m];
    }
  }

  /** What an action adds to and removes from the slots of a segment. */
  function Gained(c: Config, a: Action, g: nat, k: Class): multiset<nat>
    requires |c.links| == |c.kinds| + 1
  {
    if a.DoAllocate? && a.i < |c.kinds| && c.links[a.i + 1].Shm? && c.links[a.i + 1].segment == g
    then if k == Roots then multiset{a.root} else multiset{a.child}
    else multiset{}
  }

  function Lost(c: Config, a: Action, l: Local, g: nat, k: Class): multiset<nat>
    requires |c.links| == |c.kinds| + 1
  {
    if a.DoReclaim? && a.i < |c.kinds| && c.links[a.i].Shm? && c.links[a.i].segment == g && l.up.retiring != []
    then SlotOf(l.up.retiring[0], k)
    else multiset{}
  }

  /** A step that leaves channels and owned graphs alone leaves the slots alone. */
  lemma SlotsStay(c: Config, i: nat, before: Node, l: Local, r: Local, g: nat, k: Class)
    requires i < |c.kinds| && |c.links| == |c.kinds| + 1
    requires c.links[i].Shm? ==> Graphs(r.up) == Graphs(l.up)
    requires c.links[i + 1].Shm? ==>
               Graphs(r.down) == Graphs(l.down)
               && (r.node.held == l.node.held || (!r.node.held.Owned? && !l.node.held.Owned?))
    ensures Around(c, g, k, i, before, r) == Around(c, g, k, i, before, l)
  {
    hide QueueSlots;
  }

  lemma SendMovesSlots(c: Config, i: nat, before: Node, l: Local, g: nat, k: Class)
    requires i < |c.kinds| && |c.links| == |c.kinds| + 1 && Send(c, i, l).Some?
    ensures Around(c, g, k, i, before, Send(c, i, l).value) == Around(c, g, k, i, before, l)
  {
    hide QueueSlots;
    var r := Send(c, i, l).value;
    if c.links[i + 1].Shm? {
      var m := Graph(l.node.held.frame, l.node.held.root, l.node.held.child);
      QueueSlotsAppend(Graphs(l.down), m, k);
      assert Graphs(r.down) == Graphs(l.down) + [m];
      assert SlotOf(m, k) == HeldSlots(l.node.held, k);
    }
  }

  lemma ReceiveMovesSlots(c: Config, i: nat, before: Node, l: Local, t: nat, g: nat, k: Class)
    requires i < |c.kinds| && |c.links| == |c.kinds| + 1 && Receive(c, i, l, t).Some?
    requires i == 0 ==> c.links[0] == NoLink
    requires l.up.retiring == []
    requires c.links[i].Shm? && c.links[i + 1].Shm? ==> c.links[i].segment == c.links[i + 1].segment
    ensures Around(c, g, k, i, before, Receive(c, i, l, t).value) == Around(c, g, k, i, before, l)
  {
    hide Accept, HeaderOk;
    var r := Receive(c, i, l, t).value;
    var q := l.up.queue;
    if c.links[i].Shm? && c.links[i + 1].Shm? && r.up != l.up {
      assert Graphs(l.up) == q && Graphs(r.up) == q[1..];
      assert QueueSlots(q, k) == SlotOf(q[0], k) + QueueSlots(q[1..], k);
      assert HeldSlots(r.node.held, k) == SlotOf(q[0], k);
    } else {
      SlotsStay(c, i, before, l, r, g, k);
    }
  }

  lemma ReclaimFreesSlots(c: Config, i: nat, before: Node, l: Local, g: nat, k: Class)
    requires 0 < i < |c.kinds| && |c.links| == |c.kinds| + 1 && Reclaim(l).Some?
    ensures Around(c, g, k, i, before, Reclaim(l).value) + Lost(c, DoReclaim(i), l, g, k)
         == Around(c, g, k, i, before, l)
  {
    var q := Graphs(l.up);
    assert Graphs(Reclaim(l).value.up) == q[1..];
    assert QueueSlots(q, k) == SlotOf(q[0], k) + QueueSlots(q[1..], k);
  }

  /** A reader takes its next graph only after it has reclaimed the one it acknowledged. */
  lemma NoneRetiring(c: Config, i: nat, before: Node, l: Local, after: Node, now: nat, t: nat)
    requires i < |c.kinds| && |c.links| == |c.kinds| + 1 && LocalOk(c, i, before, l, after, now)
    requires Receive(c, i, l, t).Some?
    ensures l.up.retiring == []
  {
    hide Good, GoodMsg, HeldOk, AckOk;
  }

  lemma AcknowledgeKeepsSlots(c: Config, i: nat, before: Node, l: Local, g: nat, k: Class)
    requires i < |c.kinds| && |c.links| == |c.kinds| + 1 && Acknowledge(l).Some?
    ensures Around(c, g, k, i, before, Acknowledge(l).value) == Around(c, g, k, i, before, l)
  {
    var r := Acknowledge(l).value;
    assert Graphs(r.up) == Graphs(l.up);
    SlotsStay(c, i, before, l, r, g, k);
  }

  /** The steps that touch neither graphs nor who owns them. */
  lemma OthersKeepSlots(c: Config, a: Action, before: Node, l: Local, now: nat, g: nat, k: Class)
    requires Valid(c) && Actor(a) < |c.kinds| && LocalStep(c, a, l, now).Some?
    requires !a.DoReceive? && !a.DoSend? && !a.DoAcknowledge? && !a.DoReclaim? && !a.DoAllocate?
    ensures Around(c, g, k, Actor(a), before, LocalStep(c, a, l, now).value) == Around(c, g, k, Actor(a), before, l)
  {
    hide ApplyStage, SourceFrame, Measured, Accepts, Encode, QueueSlots, Around;
    SlotsStay(c, Actor(a), before, l, LocalStep(c, a, l, now).value, g, k);
  }

  /** Only allocation and reclaiming change the slots around a node, each by exactly one graph. */
  lemma LocalStepSlots(c: Config, a: Action, before: Node, l: Local, after: Node, now: nat, g: nat, k: Class)
    requires Valid(c) && Actor(a) < |c.kinds| && LocalOk(c, Actor(a), before, l, after, now)
    requires LocalStep(c, a, l, now).Some?
    ensures Around(c, g, k, Actor(a), before, LocalStep(c, a, l, now).value) + Lost(c, a, l, g, k)
         == Around(c, g, k, Actor(a), before, l) + Gained(c, a, g, k)
  {
    hide LocalOk, Receive, Send, Allocate, Acknowledge, Around, SlotOf;
    match a
    case DoReceive(i, t) =>
      NoneRetiring(c, i, before, l, after, now, t);
      ReceiveMovesSlots(c, i, before, l, t, g, k);
    case DoSend(i) => SendMovesSlots(c, i, before, l, g, k);
    case DoAcknowledge(i) => AcknowledgeKeepsSlots(c, i, before, l, g, k);
    case DoReclaim(i) =>
      ReclaimHasInput(c, i, before, l, after, now);
      ReclaimFreesSlots(c, i, before, l, g, k);
    case DoAllocate(i, root, child) => AllocateAddsSlots(c, i, before, l, root, child, g, k);
    case _ => OthersKeepSlots(c, a, before, l, now, g, k);
  }

  lemma ReclaimHasInput(c: Config, i: nat, before: Node, l: Local, after: Node, now: nat)
    requires i < |c.kinds| && |c.links| == |c.kinds| + 1 && LocalOk(c, i, before, l, after, now) && Reclaim(l).Some?
    ensures i > 0
  {}

  lemma AllocateAddsSlots(c: Config, i: nat, before: Node, l: Local, root: nat, child: nat, g: nat, k: Class)
    requires i < |c.kinds| && |c.links| == |c.kinds| + 1 && Allocate(c, i, l, root, child).Some?
    ensures Around(c, g, k, i, before, Allocate(c, i, l, root, child).value)
         == Around(c, g, k, i, before, l) + Gained(c, DoAllocate(i, root, child), g, k)
  {
    hide QueueSlots, Graphs;
    var r := Allocate(c, i, l, root, child).value;
    assert HeldSlots(l.node.held, k) == multiset{};
    assert HeldSlots(r.node.held, k) == if k == Roots then multiset{root} else multiset{child};
  }

  lemma {:induction false} LiveFrame(c: Config, s: State, t: State, g: nat, k: Class, m: nat)
    requires Shaped(c, s) && Shaped(c, t) && |c.links| == |c.kinds| + 1 && m <= |c.kinds|
    requires t.nodes == s.nodes && t.lanes == s.lanes
    ensures Live(c, t, g, k, m) == Live(c, s, g, k, m)
    decreases m
  {
    hide Own;
    if m > 0 { LiveFrame(c, s, t, g, k, m - 1); }
  }

  lemma Balance(live': multiset<nat>, live: multiset<nat>, around: multiset<nat>, around': multiset<nat>,
                gained: multiset<nat>, lost: multiset<nat>)
    requires live' + around == live + around' && around' + lost == around + gained
    ensures live' + lost == live + gained
  {
    forall x ensures (live' + lost)[x] == (live + gained)[x] {
      assert (live' + around)[x] == (live + around')[x];
      assert (around' + lost)[x] == (around + gained)[x];
    }
    assert live' + lost == live + gained;
  }

  /** Live slots change by exactly what the action allocates or reclaims. */
  lemma LiveChanges(c: Config, s: State, a: Action, g: nat, k: Class)
    requires Valid(c) && AllOk(c, s) && Step(c, s, a).Some? && !a.Tick?
    ensures Live(c, Step(c, s, a).value, g, k, |c.kinds|) + Lost(c, a, At(s, Actor(a)), g, k)
         == Live(c, s, g, k, |c.kinds|) + Gained(c, a, g, k)
  {
    hide NodeOk, LaneOk, LocalOk, LocalStep, Around, Live, Lost, Gained;
    var i := Actor(a);
    Extract(c, s, i);
    var before, l := Before(s, i), At(s, i);
    var r := LocalStep(c, a, l, s.now).value;
    LocalStepSlots(c, a, before, l, After(s, i), s.now, g, k);
    assert i == 0 ==> r.up == s.lanes[0] by {
      if i == 0 {
        LocalStepKeeps(c, a, before, l, After(s, i), s.now);
        FirstLaneIsEmpty(c, before, r, After(s, i), s.now);
      }
    }
    LivePut(c, s, i, r, g, k, |c.kinds|);
    LiveFrame(c, Put(s, i, r), Step(c, s, a).value, g, k, |c.kinds|);
    Balance(Live(c, Put(s, i, r), g, k, |c.kinds|), Live(c, s, g, k, |c.kinds|),
            Around(c, g, k, i, before, l), Around(c, g, k, i, before, r), Gained(c, a, g, k), Lost(c, a, l, g, k));
  }

  lemma FirstLaneIsEmpty(c: Config, before: Node, l: Local, after: Node, now: nat)
    requires Valid(c) && LocalOk(c, 0, before, l, after, now)
    ensures l.up == EMPTY_LANE
  {}

  lemma UsedChanges(c: Config, s: State, a: Action, g: nat, k: Class)
    requires Valid(c) && AllOk(c, s) && Step(c, s, a).Some? && !a.Tick? && g < c.segments
    requires Lost(c, a, At(s, Actor(a)), g, k) <= multiset(Used(s, g, k))
    ensures multiset(Used(Step(c, s, a).value, g, k)) + Lost(c, a, At(s, Actor(a)), g, k)
         == multiset(Used(s, g, k)) + Gained(c, a, g, k)
  {
    hide NodeOk, LaneOk, LocalStep;
    var s' := Step(c, s, a).value;
    if Allocates(c, s, a) && c.links[a.i + 1].segment == g {
      var x := if k == Roots then a.root else a.child;
      assert Used(s', g, k) == Used(s, g, k) + {x};
    } else if Frees(c, s, a) && c.links[a.i].segment == g {
      var m := s.lanes[a.i].retiring[0];
      var x := if k == Roots then m.root else m.child;
      assert Used(s', g, k) == Used(s, g, k) - {x};
      assert x in Lost(c, a, At(s, Actor(a)), g, k);
    } else {
      assert Used(s', g, k) == Used(s, g, k);
    }
  }

  lemma StepKeepsSlots(c: Config, s: State, a: Action)
    requires Valid(c) && AllOk(c, s) && SlotsOk(c, s) && Step(c, s, a).Some?
    ensures Shaped(c, Step(c, s, a).value) && SlotsOk(c, Step(c, s, a).value)
  {
    hide NodeOk, LaneOk, LocalStep, Live, Lost, Gained, Used;
    StepKeepsAllOk(c, s, a);
    var s' := Step(c, s, a).value;
    forall g, k | 0 <= g < c.segments
      ensures Live(c, s', g, k, |c.kinds|) == multiset(Used(s', g, k))
    {
      SegmentStays(c, s, a, g, k);
    }
  }

  lemma SegmentStays(c: Config, s: State, a: Action, g: nat, k: Class)
    requires Valid(c) && AllOk(c, s) && Step(c, s, a).Some? && AllOk(c, Step(c, s, a).value) && g < c.segments
    requires Live(c, s, g, k, |c.kinds|) == multiset(Used(s, g, k))
    ensures Live(c, Step(c, s, a).value, g, k, |c.kinds|) == multiset(Used(Step(c, s, a).value, g, k))
  {
    hide NodeOk, LaneOk, LocalStep, Live, Lost, Gained;
    var s' := Step(c, s, a).value;
    if a.Tick? {
      LiveFrame(c, s, s', g, k, |c.kinds|);
    } else {
      LiveChanges(c, s, a, g, k);
      var lost, gained := Lost(c, a, At(s, Actor(a)), g, k), Gained(c, a, g, k);
      LostIsLive(c, s, a, g, k);
      UsedChanges(c, s, a, g, k);
      SameRest(Live(c, s', g, k, |c.kinds|), multiset(Used(s', g, k)), lost);
    }
  }

  lemma SameRest(x: multiset<nat>, y: multiset<nat>, r: multiset<nat>)
    requires x + r == y + r
    ensures x == y
  {
    forall e ensures x[e] == y[e] { assert (x + r)[e] == (y + r)[e]; }
    assert x == y;
  }

  lemma LostIsLive(c: Config, s: State, a: Action, g: nat, k: Class)
    requires Valid(c) && AllOk(c, s) && Step(c, s, a).Some? && !a.Tick?
    ensures Lost(c, a, At(s, Actor(a)), g, k) <= Live(c, s, g, k, |c.kinds|)
  {
    hide NodeOk, LaneOk, LocalStep, Live, Gained;
    LiveChanges(c, s, a, g, k);
    if a.DoReclaim? {
      NothingGained(c, a, g, k);
      var live', lost := Live(c, Step(c, s, a).value, g, k, |c.kinds|), Lost(c, a, At(s, Actor(a)), g, k);
      assert live' + lost == Live(c, s, g, k, |c.kinds|);
    }
  }

  lemma NothingGained(c: Config, a: Action, g: nat, k: Class)
    requires |c.links| == |c.kinds| + 1 && !a.DoAllocate?
    ensures Gained(c, a, g, k) == multiset{}
  {}

  // ----- Reachable states -----

  ghost predicate Inv(c: Config, s: State)
    requires Valid(c)
  {
    AllOk(c, s) && SlotsOk(c, s)
  }

  lemma StepInRange(c: Config, s: State, a: Action, g: nat, k: Class)
    requires Shaped(c, s) && |c.links| == |c.kinds| + 1 && Step(c, s, a).Some? && g < c.segments
    requires forall x :: x in Used(s, g, k) ==> x < c.slots
    ensures Shaped(c, Step(c, s, a).value) && forall x :: x in Used(Step(c, s, a).value, g, k) ==> x < c.slots
  {
    hide LocalStep;
    var s' := Step(c, s, a).value;
    forall x | x in Used(s', g, k) ensures x < c.slots {
      if x !in Used(s, g, k) {
        assert a.DoAllocate? && x == if k == Roots then a.root else a.child;
      }
    }
  }

  /** Every allocated slot is one the class has. */
  lemma {:induction false} UsedInRange(c: Config, acts: seq<Action>, g: nat, k: Class)
    requires |c.links| == |c.kinds| + 1 && Run(c, acts).Some? && g < c.segments
    ensures forall x :: x in Used(Run(c, acts).value, g, k) ==> x < c.slots
    decreases |acts|
  {
    hide Step;
    if acts != [] {
      UsedInRange(c, acts[..|acts| - 1], g, k);
      StepInRange(c, Run(c, acts[..|acts| - 1]).value, acts[|acts| - 1], g, k);
    }
  }

  lemma {:induction false} NothingLiveAtStart(c: Config, g: nat, k: Class, m: nat)
    requires |c.links| == |c.kinds| + 1 && m <= |c.kinds|
    ensures Live(c, Init(c), g, k, m) == multiset{}
    decreases m
  {
    if m > 0 { NothingLiveAtStart(c, g, k, m - 1); }
  }

  lemma InitInv(c: Config)
    requires Valid(c)
    ensures Inv(c, Init(c))
  {
    hide NodeOk, LaneOk;
    InitOk(c);
    forall g, k | 0 <= g < c.segments
      ensures Live(c, Init(c), g, k, |c.kinds|) == multiset(Used(Init(c), g, k))
    {
      NothingLiveAtStart(c, g, k, |c.kinds|);
    }
  }

  /** Every state of every interleaving satisfies the invariant. */
  lemma {:induction false} RunKeepsInv(c: Config, acts: seq<Action>)
    requires Valid(c) && Run(c, acts).Some?
    ensures Inv(c, Run(c, acts).value)
    decreases |acts|
  {
    hide AllOk, SlotsOk, Step;
    if acts == [] {
      InitInv(c);
    } else {
      RunKeepsInv(c, acts[..|acts| - 1]);
      var s := Run(c, acts[..|acts| - 1]).value;
      StepKeepsAllOk(c, s, acts[|acts| - 1]);
      StepKeepsSlots(c, s, acts[|acts| - 1]);
    }
  }
}
