/** The two deployments of the chain: six roles joined by TCP, and any placement of the roles on hosts
    with a bridge pair on every edge that crosses hosts (mino_hybrid_runner.py). */
module Topology {
  import opened Bits
  import opened Payload
  import opened Frames
  import opened Chain
  import opened ChainInvariant
  import opened ChainRuns
  import opened ChainTheorems

  datatype Params = Params(
    total: nat, warmup: nat, profile: Profile, mode: ClockMode, validation: Validation, run: nat,
    batch: nat, sendCapacity: nat, readyCapacity: nat, channelCapacity: nat, slots: nat)

  ghost predicate Sound(p: Params) {
    && p.warmup <= p.total < U64 && p.run < U64 && p.batch >= 1
    && p.sendCapacity >= 1 && p.readyCapacity >= 1 && p.channelCapacity >= 1
    && (p.validation == Structural || p.mode == SameHost)
  }

  // ----- Six roles over TCP -----

  function TcpLinks(p: Params): seq<Link> {
    [NoLink] + seq(STAGES, e requires e >= 0 => Tcp(e, p.sendCapacity, p.readyCapacity)) + [NoLink]
  }

  function TcpPipeline(p: Params): Config {
    Config(seq(|ROLES|, i requires 0 <= i < |ROLES| => Stage(ROLES[i])), TcpLinks(p), 0, p.slots, p.total,
           p.warmup, p.profile, p.mode, p.validation, p.run, p.batch)
  }

  lemma TcpPipelineValid(p: Params)
    requires Sound(p)
    ensures Valid(TcpPipeline(p))
  {
    var c := TcpPipeline(p);
    assert |c.links| == 7;
    assert forall i :: 1 <= i < 6 ==> c.links[i] == Tcp(i - 1, p.sendCapacity, p.readyCapacity);
    assert forall i :: 0 <= i < 6 ==> c.kinds[i] == Stage(ROLES[i]) && Index(ROLES[i]) == i;
  }

  /** If perception's completion wait has returned, canbus has accepted exactly samples 0 .. total - 1 in
      order, every role in between has accepted and forwarded all of them, and nothing is in flight. */
  lemma TcpCompletionIsEndToEnd(p: Params, acts: seq<Action>, j: nat)
    requires Sound(p) && Run(TcpPipeline(p), acts).Some? && 0 < j < |ROLES|
    requires Run(TcpPipeline(p), acts).value.nodes[0].ackTaken
    ensures var s := Run(TcpPipeline(p), acts).value;
            && s.nodes[j].log == seq(p.total, k => k)
            && (j < STAGES ==> s.nodes[j].sent == p.total)
            && s.nodes[0].sent == p.total && Pipe(s.lanes[j]) == []
  {
    hide Run, Valid;
    var c := TcpPipeline(p);
    TcpPipelineValid(p);
    assert forall m :: 0 < m <= j ==> Acked(c.links[m]);
    CompletionBarrier(c, acts, 0, j);
  }

  // ----- Any placement on hosts -----

  predicate Crosses(hosts: seq<nat>, e: nat)
    requires |hosts| == |ROLES| && e < STAGES
  {
    hosts[e] != hosts[e + 1]
  }

  /** Nodes and links up to and including role `e`. */
  function HybridKinds(hosts: seq<nat>, e: nat): seq<Kind>
    requires |hosts| == |ROLES| && e <= STAGES
  {
    if e == 0 then [Stage(Perception)]
    else
      HybridKinds(hosts, e - 1)
      + (if Crosses(hosts, e - 1) then [Bridge(e - 1), Bridge(e - 1)] else [])
      + [Stage(ROLES[e])]
  }

  function HybridLinks(p: Params, hosts: seq<nat>, e: nat): seq<Link>
    requires |hosts| == |ROLES| && e <= STAGES
  {
    if e == 0 then [NoLink]
    else
      var up, down := Shm(hosts[e - 1], e - 1, p.channelCapacity), Shm(hosts[e], e - 1, p.channelCapacity);
      HybridLinks(p, hosts, e - 1)
      + if Crosses(hosts, e - 1) then [up, Tcp(e - 1, p.sendCapacity, p.readyCapacity), down] else [up]
  }

  function HybridPipeline(p: Params, hosts: seq<nat>, segments: nat): Config
    requires |hosts| == |ROLES|
  {
    Config(HybridKinds(hosts, STAGES), HybridLinks(p, hosts, STAGES) + [NoLink], segments, p.slots, p.total,
           p.warmup, p.profile, p.mode, p.validation, p.run, p.batch)
  }

  ghost predicate Placed(hosts: seq<nat>, segments: nat) {
    |hosts| == |ROLES| && forall i :: 0 <= i < |hosts| ==> hosts[i] < segments
  }

  ghost predicate FairLink(l: Link, segments: nat) {
    match l
    case NoLink => false
    case Tcp(_, sendCapacity, readyCapacity) => sendCapacity >= 1 && readyCapacity >= 1
    case Shm(segment, _, capacity) => capacity >= 1 && segment < segments
  }

  /** What holds of the part of the chain up to role `e`. */
  ghost predicate PartOk(kinds: seq<Kind>, links: seq<Link>, hosts: seq<nat>, segments: nat, e: nat)
    requires |hosts| == |ROLES| && e <= STAGES
  {
    && |links| == |kinds| >= 1 && links[0] == NoLink && kinds[0] == Stage(Perception)
    && (e > 0 ==> |kinds| >= 2)
    && kinds[|kinds| - 1] == Stage(ROLES[e])
    && (links[|links| - 1].Shm? ==> links[|links| - 1].segment == hosts[e])
    && (forall i :: 1 <= i < |links| ==> FairLink(links[i], segments))
    && (forall i :: 1 <= i < |kinds| ==> 1 <= StageIn(kinds[i]) <= e)
    && (forall i :: 0 <= i < |kinds| - 1 ==> StageOut(kinds[i]) == StageIn(kinds[i + 1]))
    && (forall i :: 0 <= i < |links| - 1 && links[i].Shm? && links[i + 1].Shm? ==>
          links[i].segment == links[i + 1].segment)
  }

  /** Appending one node and the link that feeds it. */
  lemma PartGrows(kinds: seq<Kind>, links: seq<Link>, k: Kind, l: Link, segments: nat, e: nat)
    requires |links| == |kinds| >= 1
    requires forall i :: 1 <= i < |links| ==> FairLink(links[i], segments)
    requires forall i :: 1 <= i < |kinds| ==> 1 <= StageIn(kinds[i]) <= e
    requires forall i :: 0 <= i < |kinds| - 1 ==> StageOut(kinds[i]) == StageIn(kinds[i + 1])
    requires forall i :: 0 <= i < |links| - 1 && links[i].Shm? && links[i + 1].Shm? ==>
                           links[i].segment == links[i + 1].segment
    requires FairLink(l, segments) && 1 <= StageIn(k) <= e && StageOut(kinds[|kinds| - 1]) == StageIn(k)
    requires links[|links| - 1].Shm? && l.Shm? ==> links[|links| - 1].segment == l.segment
    ensures var kinds', links' := kinds + [k], links + [l];
            && (forall i :: 1 <= i < |links'| ==> FairLink(links'[i], segments))
            && (forall i :: 1 <= i < |kinds'| ==> 1 <= StageIn(kinds'[i]) <= e)
            && (forall i :: 0 <= i < |kinds'| - 1 ==> StageOut(kinds'[i]) == StageIn(kinds'[i + 1]))
            && (forall i :: 0 <= i < |links'| - 1 && links'[i].Shm? && links'[i + 1].Shm? ==>
                  links'[i].segment == links'[i + 1].segment)
  {
    hide FairLink, StageIn, StageOut;
  }

  /** An edge between two roles of one host: the next role on the same segment. */
  lemma LocalEdge(kinds: seq<Kind>, links: seq<Link>, p: Params, hosts: seq<nat>, segments: nat, e: nat)
    requires Sound(p) && Placed(hosts, segments) && 0 < e <= STAGES && !Crosses(hosts, e - 1)
    requires PartOk(kinds, links, hosts, segments, e - 1)
    ensures PartOk(kinds + [Stage(ROLES[e])], links + [Shm(hosts[e - 1], e - 1, p.channelCapacity)],
                   hosts, segments, e)
  {
    assert Index(ROLES[e - 1]) == e - 1 && Index(ROLES[e]) == e;
    PartGrows(kinds, links, Stage(ROLES[e]), Shm(hosts[e - 1], e - 1, p.channelCapacity), segments, e);
  }

  /** An edge that leaves the host: channel, source bridge, connection, sink bridge, channel. */
  lemma RemoteEdge(kinds: seq<Kind>, links: seq<Link>, p: Params, hosts: seq<nat>, segments: nat, e: nat)
    requires Sound(p) && Placed(hosts, segments) && 0 < e <= STAGES
    requires PartOk(kinds, links, hosts, segments, e - 1)
    ensures PartOk(kinds + [Bridge(e - 1)] + [Bridge(e - 1)] + [Stage(ROLES[e])],
                   links + [Shm(hosts[e - 1], e - 1, p.channelCapacity)]
                   + [Tcp(e - 1, p.sendCapacity, p.readyCapacity)]
                   + [Shm(hosts[e], e - 1, p.channelCapacity)],
                   hosts, segments, e)
  {
    var up, down := Shm(hosts[e - 1], e - 1, p.channelCapacity), Shm(hosts[e], e - 1, p.channelCapacity);
    var wire := Tcp(e - 1, p.sendCapacity, p.readyCapacity);
    assert Index(ROLES[e - 1]) == e - 1 && Index(ROLES[e]) == e;
    var k1, l1 := kinds + [Bridge(e - 1)], links + [up];
    PartGrows(kinds, links, Bridge(e - 1), up, segments, e);
    var k2, l2 := k1 + [Bridge(e - 1)], l1 + [wire];
    PartGrows(k1, l1, Bridge(e - 1), wire, segments, e);
    PartGrows(k2, l2, Stage(ROLES[e]), down, segments, e);
  }

  lemma {:induction false} PartIsOk(p: Params, hosts: seq<nat>, segments: nat, e: nat)
    requires Sound(p) && Placed(hosts, segments) && e <= STAGES
    ensures PartOk(HybridKinds(hosts, e), HybridLinks(p, hosts, e), hosts, segments, e)
  {
    if e > 0 {
      hide PartOk;
      PartIsOk(p, hosts, segments, e - 1);
      var kinds, links := HybridKinds(hosts, e - 1), HybridLinks(p, hosts, e - 1);
      if Crosses(hosts, e - 1) {
        RemoteEdge(kinds, links, p, hosts, segments, e);
        var up, down := Shm(hosts[e - 1], e - 1, p.channelCapacity), Shm(hosts[e], e - 1, p.channelCapacity);
        var wire := Tcp(e - 1, p.sendCapacity, p.readyCapacity);
        assert HybridKinds(hosts, e) == kinds + [Bridge(e - 1)] + [Bridge(e - 1)] + [Stage(ROLES[e])];
        assert HybridLinks(p, hosts, e) == links + [up] + [wire] + [down];
      } else {
        LocalEdge(kinds, links, p, hosts, segments, e);
        assert HybridKinds(hosts, e) == kinds + [Stage(ROLES[e])];
      }
    }
  }

  /** The links of edge `e` in the closed chain, and where they stand. */
  lemma EdgeLinks(p: Params, hosts: seq<nat>, e: nat)
    requires |hosts| == |ROLES| && e < STAGES
    ensures var links, m := HybridLinks(p, hosts, STAGES) + [NoLink], |HybridLinks(p, hosts, e)|;
            && m + (if Crosses(hosts, e) then 3 else 1) == |HybridLinks(p, hosts, e + 1)| < |links|
            && links[m] == Shm(hosts[e], e, p.channelCapacity)
            && (Crosses(hosts, e) ==>
                  && links[m + 1] == Tcp(e, p.sendCapacity, p.readyCapacity)
                  && links[m + 2] == Shm(hosts[e + 1], e, p.channelCapacity))
  {
    var links, m, edge := HybridLinks(p, hosts, STAGES) + [NoLink], |HybridLinks(p, hosts, e)|,
                          HybridLinks(p, hosts, e + 1);
    KindsPrefix(p, hosts, e + 1, STAGES);
    assert forall i :: 0 <= i < |edge| ==> links[i] == edge[i];
  }

  /** The source bridges that read from segment `g` on the first `e` edges. */
  function Leaves(hosts: seq<nat>, g: nat, e: nat): nat
    requires |hosts| == |ROLES| && e <= STAGES
  {
    if e == 0 then 0
    else Leaves(hosts, g, e - 1) + if Crosses(hosts, e - 1) && hosts[e - 1] == g then 1 else 0
  }

  /** The readers that borrow graphs of segment `g`: its source bridges, and canbus on its host. */
  function Borrowers(hosts: seq<nat>, g: nat): nat
    requires |hosts| == |ROLES|
  {
    Leaves(hosts, g, STAGES) + if hosts[STAGES] == g then 1 else 0
  }

  /** The chain leaves a host at most every other edge, and does not leave it again where it ends. */
  lemma AtMostThreeBorrow(hosts: seq<nat>, g: nat)
    requires |hosts| == |ROLES|
    ensures Borrowers(hosts, g) <= 3
    ensures (forall i :: 0 <= i < |hosts| ==> hosts[i] == g) ==> Borrowers(hosts, g) == 1
  {
    assert Leaves(hosts, g, 1) <= 1 && (hosts[1] == g ==> Leaves(hosts, g, 1) == 0);
    assert Leaves(hosts, g, 2) <= 1;
    assert Leaves(hosts, g, 3) <= 2 && (hosts[3] == g ==> Leaves(hosts, g, 3) <= 1);
    assert Leaves(hosts, g, 4) <= 2;
    assert Leaves(hosts, g, 5) <= 3 && (hosts[5] == g ==> Leaves(hosts, g, 5) <= 2);
  }

  /** Each edge puts at most one channel into a segment, and its reader borrows only if it is a source bridge or
      canbus. */
  lemma EdgeReserves(p: Params, hosts: seq<nat>, g: nat, e: nat)
    requires |hosts| == |ROLES| && e < STAGES
    ensures var links := HybridLinks(p, hosts, STAGES) + [NoLink];
            var m, n := |HybridLinks(p, hosts, e)|, |HybridLinks(p, hosts, e + 1)|;
            && m <= n <= |links|
            && Reserved(links, g, n) <= Reserved(links, g, m) + p.channelCapacity + 1
                 + (if Crosses(hosts, e) && hosts[e] == g then 1 else 0)
                 + (if e + 1 == STAGES && hosts[STAGES] == g then 1 else 0)
  {
    hide HybridLinks;
    var links, m := HybridLinks(p, hosts, STAGES) + [NoLink], |HybridLinks(p, hosts, e)|;
    EdgeLinks(p, hosts, e);
    if e + 1 < STAGES { EdgeLinks(p, hosts, e + 1); }
    if Crosses(hosts, e) {
      assert Reserved(links, g, m + 3)
          == Reserved(links, g, m) + Cost(links, g, m) + Cost(links, g, m + 1) + Cost(links, g, m + 2);
    } else {
      assert Reserved(links, g, m + 1) == Reserved(links, g, m) + Cost(links, g, m);
    }
  }

  lemma {:induction false} ReservedByPlacement(p: Params, hosts: seq<nat>, g: nat, e: nat)
    requires |hosts| == |ROLES| && e <= STAGES
    ensures var links := HybridLinks(p, hosts, STAGES) + [NoLink];
            && |HybridLinks(p, hosts, e)| <= |links|
            && Reserved(links, g, |HybridLinks(p, hosts, e)|)
                 <= e * (p.channelCapacity + 1) + if e < STAGES then Leaves(hosts, g, e) else Borrowers(hosts, g)
  {
    if e > 0 {
      hide HybridLinks, Crosses, Reserved;
      ReservedByPlacement(p, hosts, g, e - 1);
      EdgeReserves(p, hosts, g, e - 1);
      Distributes(e - 1, 1, p.channelCapacity + 1);
    } else {
      var links := HybridLinks(p, hosts, STAGES) + [NoLink];
      KindsPrefix(p, hosts, 0, STAGES);
      assert links[0] == NoLink && Reserved(links, g, 1) == Reserved(links, g, 0) + Cost(links, g, 0);
    }
  }

  /** What the channels of one segment need under a placement. */
  lemma HybridReserves(p: Params, hosts: seq<nat>, segments: nat, g: nat)
    requires |hosts| == |ROLES|
    ensures var links := HybridPipeline(p, hosts, segments).links;
            Reserved(links, g, |links|) <= STAGES * (p.channelCapacity + 1) + Borrowers(hosts, g)
                                        <= STAGES * p.channelCapacity + 8
  {
    hide HybridLinks;
    ReservedByPlacement(p, hosts, g, STAGES);
    AtMostThreeBorrow(hosts, g);
  }

  /** Closing a well-formed part with the last role gives a chain. */
  lemma PartIsChain(c: Config, links: seq<Link>, hosts: seq<nat>)
    requires Placed(hosts, c.segments) && PartOk(c.kinds, links, hosts, c.segments, STAGES)
    requires c.links == links + [NoLink]
    requires c.warmup <= c.total < U64 && c.run < U64 && c.batch >= 1
    requires c.validation == Structural || c.mode == SameHost
    requires forall g :: 0 <= g < c.segments ==> Reserved(c.links, g, |c.links|) <= c.slots
    ensures Valid(c)
  {
    hide Reserved;
    assert forall i :: 0 <= i < |links| ==> c.links[i] == links[i];
    assert ROLES[STAGES] == Canbus;
    forall i | 0 <= i < |c.links| ensures ValidLink(c, c.links[i]) {
      if 1 <= i < |links| { assert FairLink(links[i], c.segments); }
    }
    forall i | 1 <= i < |c.kinds| ensures c.links[i] != NoLink { assert FairLink(links[i], c.segments); }
    EdgesAreSmall(c);
  }

  /** Five channels, their producers and the readers that borrow fit into what the layout sets aside per class. */
  lemma HybridPipelineValid(p: Params, hosts: seq<nat>, segments: nat)
    requires Sound(p) && Placed(hosts, segments) && STAGES * p.channelCapacity + 16 <= p.slots
    ensures Valid(HybridPipeline(p, hosts, segments))
  {
    hide PartOk, Reserved, Valid, HybridKinds, HybridLinks;
    var c := HybridPipeline(p, hosts, segments);
    var links := HybridLinks(p, hosts, STAGES);
    PartIsOk(p, hosts, segments, STAGES);
    forall g | 0 <= g < c.segments ensures Reserved(c.links, g, |c.links|) <= c.slots {
      HybridReserves(p, hosts, segments, g);
    }
    PartIsChain(c, links, hosts);
  }

  lemma EdgesAreSmall(c: Config)
    requires |c.links| == |c.kinds| + 1 && c.links[0] == NoLink
    requires forall i :: 1 <= i < |c.kinds| ==> 1 <= StageIn(c.kinds[i]) <= STAGES
    ensures forall i :: 0 <= i < |c.kinds| && Acked(c.links[i]) && c.kinds[i].Bridge? ==> c.kinds[i].edge < U64
  {
    forall i | 0 <= i < |c.kinds| && Acked(c.links[i]) && c.kinds[i].Bridge? ensures c.kinds[i].edge < U64 {
      assert 1 <= StageIn(c.kinds[i]) <= STAGES;
    }
  }

  // ----- Bridge pairs -----

  /** The node of role `e` in the chain. */
  function Position(hosts: seq<nat>, e: nat): (i: nat)
    requires |hosts| == |ROLES| && e <= STAGES
    ensures i + 1 == |HybridKinds(hosts, e)|
  {
    if e == 0 then 0 else Position(hosts, e - 1) + if Crosses(hosts, e - 1) then 3 else 1
  }

  lemma {:induction false} KindsPrefix(p: Params, hosts: seq<nat>, e: nat, f: nat)
    requires |hosts| == |ROLES| && e <= f <= STAGES
    ensures HybridKinds(hosts, e) <= HybridKinds(hosts, f)
    ensures HybridLinks(p, hosts, e) <= HybridLinks(p, hosts, f)
    ensures |HybridLinks(p, hosts, e)| == |HybridKinds(hosts, e)|
    decreases f
  {
    if e < f {
      KindsPrefix(p, hosts, e, f - 1);
    } else if e > 0 {
      KindsPrefix(p, hosts, e - 1, f - 1);
    }
  }

  lemma EdgeKinds(p: Params, hosts: seq<nat>, e: nat)
    requires |hosts| == |ROLES| && e < STAGES && Crosses(hosts, e)
    ensures var kinds, i := HybridKinds(hosts, STAGES), Position(hosts, e);
            && i + 3 < |kinds| && kinds[i] == Stage(ROLES[e]) && kinds[i + 1] == Bridge(e) && kinds[i + 2] == Bridge(e)
            && kinds[i + 3] == Stage(ROLES[e + 1])
  {
    var kinds, edge, i := HybridKinds(hosts, STAGES), HybridKinds(hosts, e + 1), Position(hosts, e);
    KindsPrefix(p, hosts, e + 1, STAGES);
    LastKind(hosts, e);
    assert edge[i] == HybridKinds(hosts, e)[i];
    assert forall j :: 0 <= j < |edge| ==> kinds[j] == edge[j];
  }

  /** A cross-host edge is one source bridge and one sink bridge between the two roles, joined by an
      acknowledged connection, each on its own host's channel of that edge. */
  lemma BridgePair(p: Params, hosts: seq<nat>, segments: nat, e: nat)
    requires |hosts| == |ROLES| && e < STAGES && Crosses(hosts, e)
    ensures var c, i := HybridPipeline(p, hosts, segments), Position(hosts, e);
            && i + 3 < |c.kinds| && |c.links| == |c.kinds| + 1
            && c.kinds[i..i + 4] == [Stage(ROLES[e]), Bridge(e), Bridge(e), Stage(ROLES[e + 1])]
            && c.links[i + 1..i + 4] == [Shm(hosts[e], e, p.channelCapacity),
                                         Tcp(e, p.sendCapacity, p.readyCapacity),
                                         Shm(hosts[e + 1], e, p.channelCapacity)]
  {
    hide HybridLinks, HybridKinds;
    EdgeLinks(p, hosts, e);
    EdgeKinds(p, hosts, e);
    KindsPrefix(p, hosts, e, STAGES);
    KindsPrefix(p, hosts, STAGES, STAGES);
  }

  lemma LastKind(hosts: seq<nat>, e: nat)
    requires |hosts| == |ROLES| && e <= STAGES
    ensures HybridKinds(hosts, e)[Position(hosts, e)] == Stage(ROLES[e])
  {}

  /** Whatever the placement, canbus has at every moment accepted 0, 1, 2, ... in order, a prefix of what
      perception published. */
  lemma HybridDeliversPrefix(p: Params, hosts: seq<nat>, segments: nat, acts: seq<Action>)
    requires Sound(p) && Placed(hosts, segments) && STAGES * p.channelCapacity + 16 <= p.slots
    requires var c := HybridPipeline(p, hosts, segments);
             |c.links| == |c.kinds| + 1 && Run(c, acts).Some?
    ensures var c := HybridPipeline(p, hosts, segments);
            var s := Run(c, acts).value;
            && |c.kinds| >= 2
            && var log := s.nodes[|c.kinds| - 1].log;
               log == seq(|log|, k => k) && log <= s.nodes[0].log && |log| <= s.nodes[0].sent
  {
    hide Run;
    var c := HybridPipeline(p, hosts, segments);
    HybridPipelineValid(p, hosts, segments);
    DeliversPrefix(c, acts, |c.kinds| - 1);
  }

  /** A source bridge that has received its completion knows that its sink bridge has accepted and
      published every frame. */
  lemma BridgeCompletion(p: Params, hosts: seq<nat>, segments: nat, e: nat, acts: seq<Action>)
    requires Sound(p) && Placed(hosts, segments) && STAGES * p.channelCapacity + 16 <= p.slots
    requires e < STAGES && Crosses(hosts, e)
    requires var c := HybridPipeline(p, hosts, segments);
             |c.links| == |c.kinds| + 1 && Run(c, acts).Some?
             && Position(hosts, e) + 2 < |c.kinds| && Run(c, acts).value.nodes[Position(hosts, e) + 1].ackTaken
    ensures var s := Run(HybridPipeline(p, hosts, segments), acts).value;
            var sink := s.nodes[Position(hosts, e) + 2];
            sink.log == seq(p.total, k => k) && sink.sent == p.total
  {
    hide Run, Valid;
    var c, i := HybridPipeline(p, hosts, segments), Position(hosts, e);
    HybridPipelineValid(p, hosts, segments);
    BridgePair(p, hosts, segments, e);
    assert c.links[i + 2] == c.links[i + 1..i + 4][1];
    CompletionBarrier(c, acts, i + 1, i + 2);
  }

  /** Live message graphs, counting those acknowledged and not yet reclaimed, stay within 5 * capacity + 5 slots per
      class of a segment plus one for each reader that borrows from it: 5 * capacity + 6 on a single host and at most
      5 * capacity + 8 on any placement, of the 5 * capacity + 16 set aside. */
  lemma HybridSlotsSuffice(p: Params, hosts: seq<nat>, segments: nat, acts: seq<Action>, g: nat, k: Class)
    requires Sound(p) && Placed(hosts, segments) && STAGES * p.channelCapacity + 16 <= p.slots && g < segments
    requires var c := HybridPipeline(p, hosts, segments);
             |c.links| == |c.kinds| + 1 && Run(c, acts).Some?
    ensures var used := |Used(Run(HybridPipeline(p, hosts, segments), acts).value, g, k)|;
            && used <= STAGES * (p.channelCapacity + 1) + Borrowers(hosts, g) <= STAGES * p.channelCapacity + 8
            && ((forall i :: 0 <= i < |hosts| ==> hosts[i] == g) ==> used <= STAGES * p.channelCapacity + 6)
  {
    hide Run, Valid, Reserved, HybridLinks, HybridKinds;
    HybridPipelineValid(p, hosts, segments);
    SlotsSuffice(HybridPipeline(p, hosts, segments), acts, g, k);
    HybridReserves(p, hosts, segments, g);
    AtMostThreeBorrow(hosts, g);
  }

  // ----- Launching -----

  datatype Process = Worker(role: Role) | SinkBridge(edge: nat) | SourceBridge(edge: nat)

  /** Listeners start before connectors, connectors before workers. */
  function LaunchRank(p: Process): nat {
    match p case SinkBridge(_) => 0 case SourceBridge(_) => 1 case Worker(_) => 2
  }

  function Count(ps: seq<Process>, p: Process): nat {
    multiset(ps)[p]
  }

  /** The stable sort of the bridge list by sink first. */
  function SinksFirst(bridges: seq<Process>): seq<Process> {
    OfRank(bridges, 0) + OfRank(bridges, 1)
  }

  function OfRank(ps: seq<Process>, rank: nat): (r: seq<Process>)
    ensures forall i :: 0 <= i < |r| ==> LaunchRank(r[i]) == rank
  {
    if ps == [] then []
    else OfRank(ps[..|ps| - 1], rank)
         + if LaunchRank(ps[|ps| - 1]) == rank then [ps[|ps| - 1]] else []
  }

  lemma {:induction false} OfRankCounts(ps: seq<Process>, rank: nat, p: Process)
    ensures Count(OfRank(ps, rank), p) == if LaunchRank(p) == rank then Count(ps, p) else 0
  {
    if ps != [] {
      OfRankCounts(ps[..|ps| - 1], rank, p);
      assert ps == ps[..|ps| - 1] + [ps[|ps| - 1]];
    }
  }

  ghost predicate BridgesFor(hosts: seq<nat>, bridges: seq<Process>, edges: nat)
    requires |hosts| == |ROLES| && edges <= STAGES
  {
    && (forall r :: Count(bridges, Worker(r)) == 0)
    && forall e: nat :: Count(bridges, SinkBridge(e)) == Count(bridges, SourceBridge(e))
                     == if e < edges && Crosses(hosts, e) then 1 else 0
  }

  lemma PairJoins(hosts: seq<nat>, bridges: seq<Process>, e: nat)
    requires |hosts| == |ROLES| && e < STAGES && BridgesFor(hosts, bridges, e)
    ensures BridgesFor(hosts, if Crosses(hosts, e) then bridges + [SinkBridge(e), SourceBridge(e)] else bridges,
                       e + 1)
  {
    var pair := [SinkBridge(e), SourceBridge(e)];
    assert multiset(bridges + pair) == multiset(bridges) + multiset(pair);
    assert multiset(pair) == multiset{SinkBridge(e), SourceBridge(e)};
  }

  method CreateBridges(hosts: seq<nat>) returns (bridges: seq<Process>, edges: seq<bool>)
    requires |hosts| == |ROLES|
    ensures |edges| == STAGES && forall e :: 0 <= e < STAGES ==> edges[e] == Crosses(hosts, e)
    ensures BridgesFor(hosts, bridges, STAGES)
  {
    bridges, edges := [], [];
    var edge := 0;
    while edge < STAGES
      invariant 0 <= edge <= STAGES && |edges| == edge
      invariant forall e :: 0 <= e < edge ==> edges[e] == Crosses(hosts, e)
      invariant BridgesFor(hosts, bridges, edge)
    {
      PairJoins(hosts, bridges, edge);
      edges := edges + [hosts[edge] != hosts[edge + 1]];
      if hosts[edge] != hosts[edge + 1] {
        bridges := bridges + [SinkBridge(edge), SourceBridge(edge)];
      }
      edge := edge + 1;
    }
  }

  method CreateWorkers() returns (workers: seq<Process>)
    ensures |workers| == |ROLES| && forall k :: 0 <= k < |ROLES| ==> workers[k] == Worker(ROLES[k])
  {
    workers := [];
    var i := 0;
    while i < |ROLES|
      invariant 0 <= i <= |ROLES| && |workers| == i
      invariant forall k :: 0 <= k < i ==> workers[k] == Worker(ROLES[k])
    {
      workers := workers + [Worker(ROLES[i])];
      i := i + 1;
    }
  }

  /** create_processes: the launch list and, per edge, whether it is carried by TCP. Every cross-host edge
      gets one sink and one source bridge, every listener precedes every connector, and perception is last. */
  method CreateProcesses(hosts: seq<nat>) returns (processes: seq<Process>, edges: seq<bool>)
    requires |hosts| == |ROLES|
    ensures |edges| == STAGES && forall e :: 0 <= e < STAGES ==> edges[e] == Crosses(hosts, e)
    ensures forall e: nat :: Count(processes, SinkBridge(e)) == Count(processes, SourceBridge(e))
                          == if e < STAGES && Crosses(hosts, e) then 1 else 0
    ensures forall r :: Count(processes, Worker(r)) == 1
    ensures forall i, j :: 0 <= i < j < |processes| ==> LaunchRank(processes[i]) <= LaunchRank(processes[j])
    ensures processes != [] && processes[|processes| - 1] == Worker(Perception)
  {
    var workers := CreateWorkers();
    var bridges: seq<Process>;
    bridges, edges := CreateBridges(hosts);
    processes := SinksFirst(bridges) + Reversed(workers);
    LaunchCounts(hosts, bridges, workers);
    LaunchOrder(bridges, workers);
  }

  function Reversed(ps: seq<Process>): (r: seq<Process>)
    ensures |r| == |ps| && forall k :: 0 <= k < |r| ==> r[k] == ps[|ps| - 1 - k]
  {
    seq(|ps|, k requires 0 <= k < |ps| => ps[|ps| - 1 - k])
  }

  lemma LaunchOrder(bridges: seq<Process>, workers: seq<Process>)
    requires |workers| == |ROLES| && forall k :: 0 <= k < |ROLES| ==> workers[k] == Worker(ROLES[k])
    ensures var ps := SinksFirst(bridges) + Reversed(workers);
            && (forall i, j :: 0 <= i < j < |ps| ==> LaunchRank(ps[i]) <= LaunchRank(ps[j]))
            && ps[|ps| - 1] == Worker(Perception)
  {
    hide OfRank;
    var a, b, w := OfRank(bridges, 0), OfRank(bridges, 1), Reversed(workers);
    var ps := SinksFirst(bridges) + w;
    assert forall i :: 0 <= i < |w| ==> LaunchRank(w[i]) == 2;
    forall i | 0 <= i < |ps| ensures LaunchRank(ps[i]) == if i < |a| then 0 else if i < |a| + |b| then 1 else 2 {
      if |a| <= i < |a| + |b| { assert ps[i] == b[i - |a|]; }
      else if i >= |a| + |b| { assert ps[i] == w[i - |a| - |b|]; }
    }
    assert w[5] == Worker(ROLES[0]) == Worker(Perception);
  }

  lemma LaunchCounts(hosts: seq<nat>, bridges: seq<Process>, workers: seq<Process>)
    requires |hosts| == |ROLES| && BridgesFor(hosts, bridges, STAGES)
    requires |workers| == |ROLES| && forall k :: 0 <= k < |ROLES| ==> workers[k] == Worker(ROLES[k])
    ensures var ps := SinksFirst(bridges) + Reversed(workers);
            && (forall e: nat :: Count(ps, SinkBridge(e)) == Count(ps, SourceBridge(e))
                              == if e < STAGES && Crosses(hosts, e) then 1 else 0)
            && (forall r :: Count(ps, Worker(r)) == 1)
  {
    hide SinksFirst, Count;
    var w := Reversed(workers);
    assert w == [Worker(Canbus), Worker(Guardian), Worker(Control), Worker(Planning), Worker(Prediction),
                 Worker(Perception)];
    forall q ensures Count(SinksFirst(bridges) + w, q) == Count(bridges, q) + if q.Worker? then 1 else 0 {
      SortedCounts(bridges, w, q);
    }
  }

  lemma EachRoleOnce(reversed: seq<Process>, q: Process)
    requires reversed == [Worker(Canbus), Worker(Guardian), Worker(Control), Worker(Planning), Worker(Prediction),
                          Worker(Perception)]
    ensures Count(reversed, q) == if q.Worker? then 1 else 0
  {
    if q.Worker? {
      match q.role
      case Perception =>
      case Prediction =>
      case Planning =>
      case Control =>
      case Guardian =>
      case Canbus =>
    } else {
      assert q !in reversed;
    }
  }

  lemma CountConcat(a: seq<Process>, b: seq<Process>, q: Process)
    ensures Count(a + b, q) == Count(a, q) + Count(b, q)
  {
    assert multiset(a + b) == multiset(a) + multiset(b);
  }

  lemma SortedCounts(bridges: seq<Process>, reversed: seq<Process>, q: Process)
    requires forall r :: Count(bridges, Worker(r)) == 0
    requires reversed == [Worker(Canbus), Worker(Guardian), Worker(Control), Worker(Planning), Worker(Prediction),
                          Worker(Perception)]
    ensures Count(SinksFirst(bridges) + reversed, q) == Count(bridges, q) + if q.Worker? then 1 else 0
  {
    hide OfRank;
    EachRoleOnce(reversed, q);
    hide Count;
    OfRankCounts(bridges, 0, q);
    OfRankCounts(bridges, 1, q);
    CountConcat(OfRank(bridges, 0), OfRank(bridges, 1), q);
    CountConcat(SinksFirst(bridges), reversed, q);
  }
}
