/** What the invariant means: delivery, the completion barrier and slot capacity. */
module ChainTheorems {
  import opened Payload
  import opened Frames
  import opened Completion
  import opened Chain
  import opened ChainInvariant
  import opened ChainRuns

  // ----- Delivery -----

  /** A node has accepted a prefix of what the node before it accepted. */
  lemma NeighbourPrefix(c: Config, s: State, i: nat)
    requires Valid(c) && AllOk(c, s) && i + 1 < |c.kinds|
    ensures s.nodes[i + 1].log <= s.nodes[i].log
    ensures |s.nodes[i + 1].log| <= s.nodes[i].sent <= |s.nodes[i].log|
  {
    hide Good, GoodMsg;
    assert NodeOk(c, i, s.nodes[i], s.now) && NodeOk(c, i + 1, s.nodes[i + 1], s.now);
    assert LaneOk(c, i + 1, s.lanes[i + 1], s.nodes[i], s.nodes[i + 1], s.now);
  }

  lemma {:induction false} PrefixOfEarlier(c: Config, s: State, i: nat, j: nat)
    requires Valid(c) && AllOk(c, s) && i <= j < |c.kinds|
    ensures s.nodes[j].log <= s.nodes[i].log
    decreases j
  {
    hide NodeOk, LaneOk;
    if i < j {
      PrefixOfEarlier(c, s, i, j - 1);
      NeighbourPrefix(c, s, j - 1);
    }
  }

  lemma LogCounts(c: Config, i: nat, n: Node, now: nat)
    requires i < |c.kinds| && |c.links| == |c.kinds| + 1 && NodeOk(c, i, n, now)
    ensures forall k :: 0 <= k < |n.log| ==> n.log[k] == k
  {}

  /** In every state of every run, what canbus has accepted is 0, 1, 2, ... in order without loss or
      duplicate, and a prefix of what every earlier process accepted and perception published. */
  lemma DeliversPrefix(c: Config, acts: seq<Action>, i: nat)
    requires Valid(c) && Run(c, acts).Some? && i < |c.kinds|
    ensures var s := Run(c, acts).value;
            && (forall k :: 0 <= k < |s.nodes[i].log| ==> s.nodes[i].log[k] == k)
            && s.nodes[|c.kinds| - 1].log <= s.nodes[i].log <= s.nodes[0].log
            && (i > 0 ==> |s.nodes[i].log| <= s.nodes[0].sent)
  {
    hide NodeOk, LaneOk, Step, SlotsOk;
    RunKeepsInv(c, acts);
    var s := Run(c, acts).value;
    LogCounts(c, i, s.nodes[i], s.now);
    PrefixOfEarlier(c, s, 0, i);
    PrefixOfEarlier(c, s, i, |c.kinds| - 1);
    if i > 0 {
      NeighbourPrefix(c, s, 0);
      PrefixOfEarlier(c, s, 1, i);
    }
  }

  /** No process ever fails a check: only an expired deadline ends one early. */
  lemma NoValidationFailure(c: Config, acts: seq<Action>, i: nat)
    requires Valid(c) && Run(c, acts).Some? && i < |c.kinds|
    ensures Run(c, acts).value.nodes[i].status != Failed(false)
    ensures (forall a :: a in acts ==> !a.DoExpire?) ==> !Run(c, acts).value.nodes[i].status.Failed?
  {
    hide HeldOk, LaneOk;
    RunKeepsInv(c, acts);
    var s := Run(c, acts).value;
    assert NodeOk(c, i, s.nodes[i], s.now);
    if forall a :: a in acts ==> !a.DoExpire? {
      OnlyExpiryFails(c, acts, i);
    }
  }

  lemma ExpiryOnlyByExpire(c: Config, s: State, a: Action, i: nat)
    requires Valid(c) && Shaped(c, s) && Step(c, s, a).Some? && !a.DoExpire? && i < |c.kinds|
    requires s.nodes[i].status != Failed(true)
    ensures Shaped(c, Step(c, s, a).value) && Step(c, s, a).value.nodes[i].status != Failed(true)
  {
    hide Valid, Accept, ApplyStage, Accepts, Encode, Measured, SourceFrame, HeaderOk;
  }

  lemma {:induction false} OnlyExpiryFails(c: Config, acts: seq<Action>, i: nat)
    requires Valid(c) && Run(c, acts).Some? && i < |c.kinds|
    requires forall a :: a in acts ==> !a.DoExpire?
    ensures Run(c, acts).value.nodes[i].status != Failed(true)
    decreases |acts|
  {
    hide Step;
    if acts != [] {
      var before := acts[..|acts| - 1];
      assert forall a :: a in before ==> a in acts;
      OnlyExpiryFails(c, before, i);
      ExpiryOnlyByExpire(c, Run(c, before).value, acts[|acts| - 1], i);
    }
  }

  // ----- The completion barrier -----

  /** An accepted completion travelled through every acknowledged link from the last of them. */
  lemma {:induction false} AckChain(c: Config, s: State, i: nat, j: nat)
    requires Valid(c) && AllOk(c, s) && i < j < |c.kinds| && s.nodes[i].ackTaken
    requires forall m :: i < m <= j ==> Acked(c.links[m])
    ensures s.nodes[j].looped && s.nodes[j].ackSent
    decreases j
  {
    hide Good, DataOk, HeldOk;
    if j > i + 1 {
      AckChain(c, s, i, j - 1);
      assert NodeOk(c, j - 1, s.nodes[j - 1], s.now);
      assert Acked(c.links[j - 1 + 1]);
    }
    assert LaneOk(c, j, s.lanes[j], s.nodes[j - 1], s.nodes[j], s.now);
    assert NodeOk(c, j, s.nodes[j], s.now);
  }

  /** A node that has received a completion has behind it, over every further acknowledged link, only
      nodes that accepted all frames in order and sent all of them on. */
  lemma CompletionBarrier(c: Config, acts: seq<Action>, i: nat, j: nat)
    requires Valid(c) && Run(c, acts).Some? && i < j < |c.kinds|
    requires Run(c, acts).value.nodes[i].ackTaken
    requires forall m :: i < m <= j ==> Acked(c.links[m])
    ensures var s := Run(c, acts).value;
            && s.nodes[j].log == seq(c.total, k => k)
            && (j + 1 < |c.kinds| ==> s.nodes[j].sent == c.total)
            && s.nodes[i].sent == c.total && Pipe(s.lanes[j]) == []
  {
    hide Good, GoodMsg;
    RunKeepsInv(c, acts);
    var s := Run(c, acts).value;
    AckChain(c, s, i, j);
    if j > i + 1 { AckChain(c, s, i, j - 1); }
    assert NodeOk(c, i, s.nodes[i], s.now) && NodeOk(c, j, s.nodes[j], s.now);
    assert NodeOk(c, j - 1, s.nodes[j - 1], s.now);
    assert LaneOk(c, j, s.lanes[j], s.nodes[j - 1], s.nodes[j], s.now);
    NeighbourPrefix(c, s, j - 1);
  }

  /** A process leaves nothing behind in its driver: once it is closed, its completion has left the send queue, what it
      sent has been taken by the next process, and its driver has nothing left to do. */
  lemma LeavesNothingQueued(c: Config, acts: seq<Action>, i: nat)
    requires Valid(c) && Run(c, acts).Some? && i < |c.kinds| && Run(c, acts).value.nodes[i].status.Closed?
    ensures var s := Run(c, acts).value;
            && s.lanes[i].ackQueue == [] && (c.links[i].Tcp? ==> s.nodes[i].ackSent)
            && (c.links[i + 1].Tcp? ==> Pipe(s.lanes[i + 1]) == [] && s.nodes[i].sent == c.total)
            && Step(c, s, DoCarryAck(i)).None?
            && (c.links[i + 1].Tcp? ==> Step(c, s, DoCarry(i + 1)).None?)
  {
    hide NodeOk, LaneOk, Run;
    RunKeepsInv(c, acts);
    var s := Run(c, acts).value;
    ClosedOwnSide(c, s, i);
    if c.links[i + 1].Tcp? {
      CompletionBarrier(c, acts, i, i + 1);
      assert s.lanes[i + 1].queue == [];
    }
  }

  lemma ClosedOwnSide(c: Config, s: State, i: nat)
    requires Valid(c) && AllOk(c, s) && i < |c.kinds| && s.nodes[i].status.Closed?
    ensures s.lanes[i].ackQueue == [] && (c.links[i].Tcp? ==> s.nodes[i].ackSent)
    ensures c.links[i + 1].Tcp? ==> i + 1 < |c.kinds| && s.nodes[i].ackTaken
  {
    hide Good, GoodMsg, HeldOk, Encode, DataOk;
    assert NodeOk(c, i, s.nodes[i], s.now);
    if i > 0 { assert LaneOk(c, i, s.lanes[i], s.nodes[i - 1], s.nodes[i], s.now); }
  }

  // ----- Bounds -----

  /** No queue, cache or channel ever holds more than it was configured for. */
  lemma NothingOverflows(c: Config, acts: seq<Action>, i: nat)
    requires Valid(c) && Run(c, acts).Some? && 0 < i < |c.kinds|
    ensures var lane := Run(c, acts).value.lanes[i];
            match c.links[i]
            case NoLink => false
            case Tcp(_, sendCapacity, readyCapacity) =>
              && |lane.queue| <= sendCapacity && |lane.ready| <= readyCapacity && |lane.cache| <= c.batch
              && |lane.ackQueue| <= sendCapacity && |lane.ackReady| <= readyCapacity && |lane.ackCache| <= c.batch
            case Shm(_, _, capacity) => |lane.queue| <= capacity && lane.ready == [] && lane.cache == []
  {
    hide DataOk, AckOk, NodeOk, SlotsOk;
    RunKeepsInv(c, acts);
    var s := Run(c, acts).value;
    assert LaneOk(c, i, s.lanes[i], s.nodes[i - 1], s.nodes[i], s.now);
  }

  // ----- What a process lets in -----

  /** Each of the first `n` stamps is not before the one in front of it, the first not before the origin. */
  predicate InOrder(origin: nat, stamps: seq<nat>, n: nat)
    requires n <= |stamps|
  {
    (n > 0 ==> origin <= stamps[0]) && forall k :: 0 < k < n ==> stamps[k - 1] <= stamps[k]
  }

  lemma InOrderIsOrdered(origin: nat, stamps: seq<nat>, n: nat)
    requires |stamps| == STAGES && n <= STAGES && forall k :: 0 <= k < n ==> stamps[k] != 0
    ensures InOrder(origin, stamps, n) <==> Ordered(origin, stamps, n)
  {
    if Ordered(origin, stamps, n) {
      if n > 0 { assert Previous(origin, stamps, 0) == origin; }
      forall k | 0 < k < n ensures stamps[k - 1] <= stamps[k] {
        assert Previous(origin, stamps, k) == stamps[k - 1];
      }
    }
  }

  /** The sample `id` of the run as role `r` may receive it, bit for bit but for the clock readings. */
  ghost predicate Genuine(c: Config, r: Role, f: SemanticFrame, id: nat) {
    && |f.stamps| == STAGES && f.sampleId == id && (f.origin == 0 <==> id < c.warmup)
    && f == SourceFrame(id, c.profile, f.origin).(stamps := f.stamps, mask := ExpectedMask(r))
    && (forall k :: 0 <= k < STAGES ==> (f.stamps[k] != 0 <==> k < Index(r)))
    && (c.mode == SameHost ==> InOrder(f.origin, f.stamps, Index(r)))
  }

  /** The wire header names the edge, the run and the next sequence number. */
  ghost predicate Addressed(c: Config, l: Link, m: Msg, id: nat) {
    if l.Tcp? then m.Wire? && m.edge == l.edge && m.run == c.run && m.sequence == id + 1 else m.Graph?
  }

  lemma GenuineIsAcceptable(c: Config, r: Role, f: SemanticFrame, id: nat)
    ensures Genuine(c, r, f, id) <==>
            WellShaped(f) && PhaseOk(c, f, id) && Acceptable(r, c.mode, f, f.payload)
  {
    hide ExpectedMask, Ordered, InOrder;
    if f.sampleId == id && f.profile == ProfileToWire(c.profile) { GenuineContent(c, f, id); }
    if WellShaped(f) && Present(f.stamps, Index(r)) { InOrderIsOrdered(f.origin, f.stamps, Index(r)); }
  }

  lemma GenuineContent(c: Config, f: SemanticFrame, id: nat)
    requires f.sampleId == id && f.profile == ProfileToWire(c.profile)
    ensures f == SourceFrame(id, c.profile, f.origin).(stamps := f.stamps, mask := f.mask)
            <==> GoodContent(f, f.payload)
  {
    hide Expected, Fnv, BusinessOf;
    assert ProfileFromWire(ProfileToWire(c.profile)) == Some(c.profile);
  }

  /** Whatever arrives, in whatever state: a role takes exactly the genuine frame of the next sample that is addressed
      to it, at a reading that may stamp it; everything else ends the process and leaves its log as it was. */
  lemma AcceptsExactlyGenuine(c: Config, i: nat, l: Local, t: nat)
    requires Valid(c) && 0 < i < |c.kinds| && c.kinds[i].Stage? && Looping(c, l.node)
    requires Incoming(c.links[i], l.up) != []
    ensures var m, id, r := Incoming(c.links[i], l.up)[0], |l.node.log|, c.kinds[i].role;
            var next := Receive(c, i, l, t);
            && next.Some?
            && (next.value.node.log == l.node.log + [id] <==>
                && Addressed(c, c.links[i], m, id) && Genuine(c, r, m.frame, id)
                && (if r == Canbus then c.mode == SameHost && id >= c.warmup ==> m.frame.origin <= t
                    else t != 0 && (c.mode == SameHost ==> Previous(m.frame.origin, m.frame.stamps, Index(r)) <= t)))
            && (next.value.node.log != l.node.log + [id] ==> next.value == Fail(l))
  {
    hide Genuine, Acceptable;
    var m, id, r := Incoming(c.links[i], l.up)[0], |l.node.log|, c.kinds[i].role;
    GenuineIsAcceptable(c, r, m.frame, id);
  }

  // ----- Slots -----

  lemma {:induction false} QueueSlotsSize(q: seq<Msg>, k: Class)
    ensures |QueueSlots(q, k)| <= |q|
  {
    if q != [] { QueueSlotsSize(q[1..], k); }
  }

  lemma OwnSize(c: Config, s: State, g: nat, k: Class, m: nat)
    requires Valid(c) && AllOk(c, s) && 0 < m <= |c.kinds|
    ensures |Own(g, k, c.links[m], s.nodes[m - 1], s.lanes[m])| <= Cost(c.links, g, m)
    ensures c.links[m].Shm? && c.links[m].segment == g && s.nodes[m - 1].held.Loose? ==>
              |Own(g, k, c.links[m], s.nodes[m - 1], s.lanes[m])| < Cost(c.links, g, m)
  {
    hide HeldOk, AckOk, QueueSlots, GoodMsg;
    QueueSlotsSize(Graphs(s.lanes[m]), k);
    if m < |c.kinds| {
      assert NodeOk(c, m, s.nodes[m], s.now);
      assert LaneOk(c, m, s.lanes[m], s.nodes[m - 1], s.nodes[m], s.now);
    }
  }

  /** The slots in use never exceed one per channel position, one per producer and one per borrowing reader; while some
      producer still has to allocate, they are fewer. */
  lemma {:induction false} LiveSize(c: Config, s: State, g: nat, k: Class, m: nat)
    requires Valid(c) && AllOk(c, s) && m <= |c.kinds|
    ensures |Live(c, s, g, k, m)| <= Reserved(c.links, g, m + 1)
    ensures (exists i :: 0 <= i < m && s.nodes[i].held.Loose? && c.links[i + 1].Shm? && c.links[i + 1].segment == g)
            ==> |Live(c, s, g, k, m)| < Reserved(c.links, g, m + 1)
    decreases m
  {
    hide NodeOk, LaneOk, Own;
    if m > 0 {
      LiveSize(c, s, g, k, m - 1);
      OwnSize(c, s, g, k, m);
      assert Reserved(c.links, g, m + 1) == Reserved(c.links, g, m) + Cost(c.links, g, m);
    }
  }

  lemma {:induction false} FreshBelow(used: set<nat>, n: nat) returns (x: nat)
    requires |used| < n
    ensures x < n && x !in used
    decreases n
  {
    if n - 1 in used {
      x := FreshBelow(used - {n - 1}, n - 1);
    } else {
      x := n - 1;
    }
  }

  lemma UsedSize(c: Config, s: State, g: nat, k: Class)
    requires Valid(c) && Inv(c, s) && g < c.segments
    ensures |Used(s, g, k)| == |Live(c, s, g, k, |c.kinds|)|
  {
    hide NodeOk, LaneOk, Live;
    assert Live(c, s, g, k, |c.kinds|) == multiset(Used(s, g, k));
  }

  /** Live message graphs never exceed the slots the layout reserves for a class. */
  lemma SlotsSuffice(c: Config, acts: seq<Action>, g: nat, k: Class)
    requires Valid(c) && Run(c, acts).Some? && g < c.segments
    ensures |Used(Run(c, acts).value, g, k)| <= Reserved(c.links, g, |c.links|) <= c.slots
  {
    hide NodeOk, LaneOk, SlotsOk, Live;
    RunKeepsInv(c, acts);
    var s := Run(c, acts).value;
    UsedSize(c, s, g, k);
    LiveSize(c, s, g, k, |c.kinds|);
  }

  /** Two processes never own the same slot. */
  lemma OwnersAreDistinct(c: Config, acts: seq<Action>, g: nat, k: Class, x: nat)
    requires Valid(c) && Run(c, acts).Some? && g < c.segments
    ensures Live(c, Run(c, acts).value, g, k, |c.kinds|)[x] <= 1
    ensures x in Live(c, Run(c, acts).value, g, k, |c.kinds|) <==> x in Used(Run(c, acts).value, g, k)
  {
    hide AllOk, Live;
    RunKeepsInv(c, acts);
    var s := Run(c, acts).value;
    assert Live(c, s, g, k, |c.kinds|) == multiset(Used(s, g, k));
  }

  /** A publisher that needs a graph always finds a free root slot and a free payload slot. */
  lemma AllocationNeverExhausted(c: Config, s: State, i: nat) returns (root: nat, child: nat)
    requires Valid(c) && Inv(c, s) && i < |c.kinds|
    requires s.nodes[i].status.Alive? && s.nodes[i].held.Loose? && c.links[i + 1].Shm?
    ensures Step(c, s, DoAllocate(i, root, child)).Some?
  {
    hide NodeOk, LaneOk, SlotsOk, Live;
    var g := c.links[i + 1].segment;
    assert ValidLink(c, c.links[i + 1]);
    UsedSize(c, s, g, Roots);
    UsedSize(c, s, g, Children);
    LiveSize(c, s, g, Roots, |c.kinds|);
    LiveSize(c, s, g, Children, |c.kinds|);
    root := FreshBelow(s.roots[g], c.slots);
    child := FreshBelow(s.children[g], c.slots);
  }
}
