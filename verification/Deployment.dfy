/** The segment layout and the running pipeline together: the slots the layout reserves are enough for
    every placement and every run. */
module Deployment {
  import opened Payload
  import opened Layout
  import opened Manifest
  import opened Chain
  import opened ChainRuns
  import opened ChainTheorems
  import opened ChainProgress
  import opened Topology

  /** The run parameters of a deployment whose segments carry the manifest `h`. */
  ghost predicate Deployed(env: Env, h: Header, p: Params, hosts: seq<nat>, segments: nat) {
    && Sound(p) && Placed(hosts, segments)
    && Canonical(env, h, p.profile, p.channelCapacity) && p.slots == h.rootSlotCount == h.childSlotCount
  }

  /** A manifest the pipeline accepts gives every placement a valid chain. */
  lemma DeployedIsValid(env: Env, h: Header, p: Params, hosts: seq<nat>, segments: nat)
    requires Deployed(env, h, p, hosts, segments)
    ensures Valid(HybridPipeline(p, hosts, segments))
  {
    hide Canonical, Valid;
    CanonicalSlots(env, h, p.profile, p.channelCapacity);
    HybridPipelineValid(p, hosts, segments);
  }

  /** A slot of a class in the allocator of the segment: frames come first, payloads behind them. */
  function Slot(capacity: nat, k: Class, x: nat): nat {
    if k == Roots then x else SlotsPerClass(capacity) + x
  }

  function ObjectBytes(env: Env, profile: Profile, k: Class): nat {
    if k == Roots then env.frameSize else PayloadBytes(profile)
  }

  /** A slot a publisher may write to: it takes the object, and has no byte in common with any slot in use. */
  ghost predicate FreeRoom(env: Env, p: Params, s: State, g: nat, k: Class, x: nat)
    requires g < |s.roots| == |s.children|
  {
    && Takes(env, p.profile, p.channelCapacity, Slot(p.channelCapacity, k, x), ObjectBytes(env, p.profile, k))
    && forall other: Class, y: nat :: y in Used(s, g, other) ==>
         Apart(env, p.profile, p.channelCapacity, Slot(p.channelCapacity, k, x), Slot(p.channelCapacity, other, y))
  }

  lemma UnusedIsFreeRoom(env: Env, p: Params, s: State, g: nat, k: Class, x: nat)
    requires g < |s.roots| == |s.children| && p.slots == SlotsPerClass(p.channelCapacity)
    requires x < p.slots && x !in Used(s, g, k)
    requires forall other: Class, y: nat :: y in Used(s, g, other) ==> y < p.slots
    ensures FreeRoom(env, p, s, g, k, x)
  {
    hide SlotsPerClass, Takes, Apart, Used;
    var capacity := p.channelCapacity;
    assert ObjectBytes(env, p.profile, k) in Classes(env, p.profile);
    SlotsTakeObjects(env, p.profile, capacity, Slot(capacity, k, x), 0, ObjectBytes(env, p.profile, k));
    forall other: Class, y: nat | y in Used(s, g, other)
      ensures Apart(env, p.profile, capacity, Slot(capacity, k, x), Slot(capacity, other, y))
    {
      SlotsTakeObjects(env, p.profile, capacity, Slot(capacity, k, x), Slot(capacity, other, y),
                       ObjectBytes(env, p.profile, k));
    }
  }

  /** With segments laid out as computed, no publisher of any run of any placement finds a size class exhausted: there
      is a free slot for the frame and one for its payload, each large enough and apart from all slots in use. */
  lemma NoPublisherStarves(env: Env, h: Header, p: Params, hosts: seq<nat>, segments: nat, acts: seq<Action>, i: nat)
    returns (root: nat, child: nat)
    requires Deployed(env, h, p, hosts, segments)
    requires var c := HybridPipeline(p, hosts, segments);
             && |c.links| == |c.kinds| + 1 && Run(c, acts).Some? && i < |c.kinds|
             && var s := Run(c, acts).value;
                s.nodes[i].status.Alive? && s.nodes[i].held.Loose? && c.links[i + 1].Shm?
    ensures var c := HybridPipeline(p, hosts, segments);
            var s := Run(c, acts).value;
            var g := c.links[i + 1].segment;
            && Step(c, s, DoAllocate(i, root, child)).Some? && g < segments
            && FreeRoom(env, p, s, g, Roots, root) && FreeRoom(env, p, s, g, Children, child)
  {
    hide Run, Step, Valid, Inv, FreeRoom, SlotsPerClass, Canonical;
    var c := HybridPipeline(p, hosts, segments);
    var s := Run(c, acts).value;
    DeployedIsValid(env, h, p, hosts, segments);
    RunKeepsInv(c, acts);
    root, child := AllocationNeverExhausted(c, s, i);
    CanonicalSlots(env, h, p.profile, p.channelCapacity);
    AllocationIsNew(c, s, i, root, child);
    var g := c.links[i + 1].segment;
    UsedInRange(c, acts, g, Roots);
    UsedInRange(c, acts, g, Children);
    UnusedIsFreeRoom(env, p, s, g, Roots, root);
    UnusedIsFreeRoom(env, p, s, g, Children, child);
  }

  lemma AllocationIsNew(c: Config, s: State, i: nat, root: nat, child: nat)
    requires Valid(c) && Shaped(c, s) && i < |c.kinds| && c.links[i + 1].Shm?
    requires Step(c, s, DoAllocate(i, root, child)).Some?
    ensures var g := c.links[i + 1].segment;
            && g < c.segments && root < c.slots && child < c.slots
            && root !in Used(s, g, Roots) && child !in Used(s, g, Children)
  {
    hide LocalStep;
    assert ValidLink(c, c.links[i + 1]);
  }

  /** Every run of every placement in which no deadline expires ends with all frames delivered in order by
      every process, nothing in flight and all slots free; and it ends within a fixed number of steps. */
  lemma DeploymentCompletes(env: Env, h: Header, p: Params, hosts: seq<nat>, segments: nat, acts: seq<Action>)
    requires Deployed(env, h, p, hosts, segments)
    requires var c := HybridPipeline(p, hosts, segments);
             |c.links| == |c.kinds| + 1 && Run(c, acts).Some?
    requires forall a :: a in acts ==> !a.DoExpire?
    ensures var c := HybridPipeline(p, hosts, segments);
            && Valid(c) && Steps(acts) <= |c.kinds| * (6 * p.total + 6)
            && ((forall a :: !Possible(c, Run(c, acts).value, a)) ==> Complete(c, Run(c, acts).value))
  {
    hide Run, Valid, Possible, Complete;
    var c := HybridPipeline(p, hosts, segments);
    DeployedIsValid(env, h, p, hosts, segments);
    RunsAreBounded(c, acts);
    if forall a :: !Possible(c, Run(c, acts).value, a) {
      MaximalRunsComplete(c, acts);
    }
  }
}
