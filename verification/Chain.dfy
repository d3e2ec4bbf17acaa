/** One pipeline run as a chain of processes joined by bounded first-in first-out links.

    A node is a stage worker or one end of a bridge; a link is a TCP connection of the
    driver or a shared-memory channel. The six-role TCP pipeline and every hybrid
    placement are instances (see Topology). Each action below is one atomic step of one
    process or of the TCP driver, so a run is any interleaving of them. */
module Chain {
  import opened Bits
  import opened Payload
  import opened Frames
  import opened Completion

  // ----- Configuration -----

  datatype Kind = Stage(role: Role) | Bridge(edge: nat)

  datatype Link =
    | NoLink
    | Tcp(edge: nat, sendCapacity: nat, readyCapacity: nat)
    | Shm(segment: nat, channel: nat, capacity: nat)

  datatype Validation = Full | Structural

  /** `links[i]` feeds node `i` and `links[i + 1]` is what node `i` writes to. */
  datatype Config = Config(
    kinds: seq<Kind>, links: seq<Link>, segments: nat, slots: nat, total: nat, warmup: nat,
    profile: Profile, mode: ClockMode, validation: Validation, run: nat, batch: nat)

  function StageIn(k: Kind): nat {
    match k case Stage(r) => Index(r) case Bridge(e) => e + 1
  }

  function StageOut(k: Kind): nat {
    match k case Stage(r) => Index(r) + 1 case Bridge(e) => e + 1
  }

  /** Over every TCP connection the receiver sends a completion back. */
  predicate Acked(l: Link) {
    l.Tcp?
  }

  /** Slots a channel needs: one per position, one for its producer, and one for a reader that borrows, since such a
      reader frees the position of a graph before the graph itself. A reader that writes to a channel takes graphs
      over instead. */
  function Cost(links: seq<Link>, g: nat, j: nat): nat
    requires j < |links|
  {
    var l := links[j];
    if l.Shm? && l.segment == g then l.capacity + if j + 1 < |links| && links[j + 1].Shm? then 1 else 2 else 0
  }

  /** Slots a segment needs for the first `m` links. */
  function Reserved(links: seq<Link>, g: nat, m: nat): nat
    requires m <= |links|
  {
    if m == 0 then 0 else Reserved(links, g, m - 1) + Cost(links, g, m - 1)
  }

  ghost predicate ValidLink(c: Config, l: Link) {
    match l
    case NoLink => true
    case Tcp(_, sendCapacity, readyCapacity) => sendCapacity >= 1 && readyCapacity >= 1
    case Shm(segment, _, capacity) => capacity >= 1 && segment < c.segments
  }

  ghost predicate Valid(c: Config) {
    && |c.kinds| >= 2 && |c.links| == |c.kinds| + 1
    && c.links[0] == NoLink && c.links[|c.kinds|] == NoLink
    && (forall i :: 1 <= i < |c.kinds| ==> c.links[i] != NoLink)
    && (forall i :: 0 <= i < |c.links| ==> ValidLink(c, c.links[i]))
    && c.kinds[0] == Stage(Perception) && c.kinds[|c.kinds| - 1] == Stage(Canbus)
    && (forall i :: 1 <= i < |c.kinds| ==> 1 <= StageIn(c.kinds[i]) <= STAGES)
    && (forall i :: 0 <= i < |c.kinds| - 1 ==> StageOut(c.kinds[i]) == StageIn(c.kinds[i + 1]))
    && (forall i :: 0 <= i < |c.kinds| && c.links[i].Shm? && c.links[i + 1].Shm? ==>
          c.links[i].segment == c.links[i + 1].segment)
    && (forall i :: 0 <= i < |c.kinds| && Acked(c.links[i]) && c.kinds[i].Bridge? ==> c.kinds[i].edge < U64)
    && (forall g :: 0 <= g < c.segments ==> Reserved(c.links, g, |c.links|) <= c.slots)
    && c.warmup <= c.total < U64 && c.run < U64 && c.batch >= 1
    && (c.validation == Structural || c.mode == SameHost)
  }

  // ----- State -----

  /** What a node has received and not yet sent: a frame in private memory, or a message graph
      (root and payload child slots) it owns in a segment. */
  datatype Held = Nothing | Loose(frame: SemanticFrame) | Owned(frame: SemanticFrame, root: nat, child: nat)

  datatype Status = Alive | Closed | Failed(expired: bool)

  /** `log` lists the sample ids accepted so far; `looped` says the frame loop is over. */
  datatype Node = Node(log: seq<nat>, sent: nat, held: Held, borrowing: bool, looped: bool,
                       ackTaken: bool, ackSent: bool, status: Status)

  datatype Msg =
    | Wire(edge: nat, run: nat, sequence: nat, timestamp: nat, frame: SemanticFrame)
    | Graph(frame: SemanticFrame, root: nat, child: nat)

  /** A TCP link keeps frames in the sender's queue, the receiver's ready queue and the receiver's
      cache, and completions the other way round. A channel uses `queue` and, for a graph whose position
      is free and whose slots are not, `retiring`. */
  datatype Lane = Lane(retiring: seq<Msg>, queue: seq<Msg>, ready: seq<Msg>, cache: seq<Msg>,
                       ackQueue: seq<seq<byte>>, ackReady: seq<seq<byte>>, ackCache: seq<seq<byte>>)

  /** `roots[g]` and `children[g]` are the allocated slots of segment `g`; `now` is the shared clock
      of a same-host run. */
  datatype State = State(nodes: seq<Node>, lanes: seq<Lane>, roots: seq<set<nat>>,
                         children: seq<set<nat>>, now: nat)

  const EMPTY_LANE := Lane([], [], [], [], [], [], [])
  const FRESH_NODE := Node([], 0, Nothing, false, false, false, false, Alive)

  function Init(c: Config): State {
    State(seq(|c.kinds|, _ => FRESH_NODE), seq(|c.kinds| + 1, _ => EMPTY_LANE),
          seq(c.segments, _ => {}), seq(c.segments, _ => {}), 1)
  }

  ghost predicate Shaped(c: Config, s: State) {
    |s.nodes| == |c.kinds| && |s.lanes| == |c.kinds| + 1 && |s.roots| == |s.children| == c.segments
  }

  // ----- Steps of one node, on its own state and its two lanes -----

  datatype Local = Local(node: Node, up: Lane, down: Lane)

  function Fail(l: Local): Local {
    l.(node := l.node.(status := Failed(false)))
  }

  ghost predicate PhaseOk(c: Config, f: SemanticFrame, id: nat) {
    f.sampleId == id && (f.origin == 0 <==> id < c.warmup) && f.profile == ProfileToWire(c.profile)
  }

  ghost predicate TransitOk(c: Config, e: nat, f: SemanticFrame, id: nat)
    requires e < STAGES && WellShaped(f)
  {
    match c.validation
    case Structural =>
      StructurallyValid(f, |f.payload|, id, c.warmup, c.profile, ROLES[e + 1], c.mode)
    case Full => FullyValid(f, f.payload, id, c.warmup, c.profile, ROLES[e + 1])
  }

  /** On one host the sink's own reading must not be before the origin of a measured frame. */
  predicate CompletionOk(c: Config, r: Role, f: SemanticFrame, id: nat, t: nat) {
    r == Canbus && c.mode == SameHost && id >= c.warmup ==> f.origin <= t
  }

  /** What a node makes of the frame with the expected id; None is a thrown error. */
  ghost function Accept(c: Config, k: Kind, f: SemanticFrame, id: nat, t: nat): Option<SemanticFrame> {
    if !WellShaped(f) then None
    else match k
      case Stage(r) =>
        if PhaseOk(c, f, id) && CompletionOk(c, r, f, id, t) then ApplyStage(r, c.mode, f, f.payload, t) else None
      case Bridge(e) => if e < STAGES && TransitOk(c, e, f, id) then Some(f) else None
  }

  /** A bridge also compares the timestamp of the header with the origin of the frame. */
  predicate HeaderOk(c: Config, k: Kind, l: Link, m: Msg, id: nat) {
    match l
    case NoLink => false
    case Tcp(edge, _, _) =>
      && m.Wire? && m.edge == edge && m.run == c.run && m.sequence == id + 1
      && (k.Bridge? ==> m.timestamp == m.frame.origin)
    case Shm(_, _, _) => m.Graph?
  }

  function Incoming(l: Link, lane: Lane): seq<Msg> {
    if l.Tcp? then lane.cache else lane.queue
  }

  predicate Looping(c: Config, n: Node) {
    n.status.Alive? && !n.looped && n.held.Nothing? && !n.borrowing && |n.log| < c.total
  }

  /** Perception makes and stamps the next source frame. */
  ghost function Produce(c: Config, l: Local, origin: nat, t: nat): Option<Local> {
    if !Looping(c, l.node) then None
    else
      var id := |l.node.log|;
      var f := SourceFrame(id, c.profile, origin);
      var r := ApplyStage(Perception, c.mode, f, f.payload, t);
      if r.None? then Some(Fail(l))
      else Some(l.(node := l.node.(log := l.node.log + [id], held := Loose(r.value))))
  }

  /** A node polls its input, checks the frame and applies its stage. Between two channels the graph
      is taken exclusively and its slot in the channel is freed; otherwise a channel's head is only
      borrowed and stays where it is. */
  ghost function Receive(c: Config, i: nat, l: Local, t: nat): Option<Local>
    requires i < |c.kinds| && |c.links| == |c.kinds| + 1
  {
    var from, to := c.links[i], c.links[i + 1];
    var q := Incoming(from, l.up);
    if !Looping(c, l.node) || from.NoLink? || q == [] then None
    else
      var m, id := q[0], |l.node.log|;
      var r := Accept(c, c.kinds[i], m.frame, id, t);
      if !HeaderOk(c, c.kinds[i], from, m, id) || r.None? then Some(Fail(l))
      else
        var node := l.node.(log := l.node.log + [m.frame.sampleId],
                            held := if to.NoLink? then Nothing else Loose(r.value));
        if from.Tcp? then Some(l.(node := node, up := l.up.(cache := q[1..])))
        else if to.Shm? && m.Graph? then
          Some(l.(node := node.(held := Owned(r.value, m.root, m.child)), up := l.up.(queue := q[1..])))
        else Some(l.(node := node.(borrowing := true)))
  }

  function Allocate(c: Config, i: nat, l: Local, root: nat, child: nat): Option<Local>
    requires i < |c.kinds| && |c.links| == |c.kinds| + 1
  {
    if l.node.status.Alive? && l.node.held.Loose? && c.links[i + 1].Shm?
    then Some(l.(node := l.node.(held := Owned(l.node.held.frame, root, child))))
    else None
  }

  /** Admission to the output; None also stands for a refused admission, after which the sender keeps
      its frame and tries again. */
  function Send(c: Config, i: nat, l: Local): Option<Local>
    requires i < |c.kinds| && |c.links| == |c.kinds| + 1
  {
    var to, h := c.links[i + 1], l.node.held;
    var node := l.node.(held := Nothing, sent := l.node.sent + 1);
    if !l.node.status.Alive? then None
    else if to.Tcp? && h.Loose? && |l.down.queue| < to.sendCapacity then
      var m := Wire(to.edge, c.run, h.frame.sampleId + 1, h.frame.origin, h.frame);
      Some(Local(node, l.up, l.down.(queue := l.down.queue + [m])))
    else if to.Shm? && h.Owned? && |l.down.queue| < to.capacity then
      Some(Local(node, l.up, l.down.(queue := l.down.queue + [Graph(h.frame, h.root, h.child)])))
    else None
  }

  /** The borrower acknowledges the head of its channel, which frees the position and not yet the graph. */
  function Acknowledge(l: Local): Option<Local> {
    if l.node.status.Alive? && l.node.borrowing && l.node.held.Nothing? && l.up.retiring == [] && l.up.queue != []
    then Some(l.(up := l.up.(retiring := [l.up.queue[0]], queue := l.up.queue[1..])))
    else None
  }

  /** The borrower gives the acknowledged graph back to its segment. */
  function Reclaim(l: Local): Option<Local> {
    if l.node.status.Alive? && l.node.borrowing && l.node.held.Nothing? && l.up.retiring != []
    then Some(l.(node := l.node.(borrowing := false), up := l.up.(retiring := l.up.retiring[1..])))
    else None
  }

  /** The driver carries one frame, or one completion, to the other side of the connection. */
  function Carry(c: Config, i: nat, l: Local): Option<Local>
    requires i < |c.links|
  {
    if c.links[i].Tcp? && l.up.queue != [] && |l.up.ready| < c.links[i].readyCapacity
    then Some(l.(up := l.up.(queue := l.up.queue[1..], ready := l.up.ready + [l.up.queue[0]])))
    else None
  }

  function CarryAck(c: Config, i: nat, l: Local): Option<Local>
    requires i < |c.links|
  {
    if c.links[i].Tcp? && l.up.ackQueue != [] && |l.up.ackReady| < c.links[i].readyCapacity
    then Some(l.(up := l.up.(ackQueue := l.up.ackQueue[1..], ackReady := l.up.ackReady + [l.up.ackQueue[0]])))
    else None
  }

  /** A poll returns any non-empty batch within the configured size; it only happens when the cache of
      that connection is empty. */
  function Poll(c: Config, i: nat, l: Local, k: nat): Option<Local>
    requires i < |c.links|
  {
    if c.links[i].Tcp? && l.up.cache == [] && 1 <= k <= c.batch && k <= |l.up.ready|
    then Some(l.(up := l.up.(cache := l.up.ready[..k], ready := l.up.ready[k..])))
    else None
  }

  function PollAck(c: Config, i: nat, l: Local, k: nat): Option<Local>
    requires i < |c.links|
  {
    if c.links[i].Tcp? && l.up.ackCache == [] && 1 <= k <= c.batch && k <= |l.up.ackReady|
    then Some(l.(up := l.up.(ackCache := l.up.ackReady[..k], ackReady := l.up.ackReady[k..])))
    else None
  }

  /** How many of the accepted ids are past the warmup. */
  function Measured(log: seq<nat>, warmup: nat): nat {
    if log == [] then 0
    else Measured(log[..|log| - 1], warmup) + if log[|log| - 1] >= warmup then 1 else 0
  }

  /** The frame loop is over; a stage worker checks its measured count. */
  function Finish(c: Config, i: nat, l: Local): Option<Local>
    requires i < |c.kinds| && |c.links| == |c.kinds| + 1
  {
    var n := l.node;
    if n.status.Alive? && !n.looped && n.held.Nothing? && !n.borrowing && |n.log| == c.total
    then
      if c.kinds[i].Stage? && Measured(n.log, c.warmup) + c.warmup != c.total then Some(Fail(l))
      else Some(l.(node := n.(looped := true)))
    else None
  }

  /** The fields of the completion record sent by node `i` to the node before it. */
  function AckFields(c: Config, i: nat): seq<nat>
    requires i < |c.kinds|
  {
    match c.kinds[i]
    case Stage(_) => [c.run, c.total]
    case Bridge(e) => [COMPLETION_MAGIC, c.run, c.total, e, ProfileToWire(c.profile)]
  }

  ghost function TakeAck(c: Config, i: nat, l: Local): Option<Local>
    requires i + 1 < |c.kinds| && |c.links| == |c.kinds| + 1
  {
    if l.node.status.Alive? && l.node.looped && Acked(c.links[i + 1]) && !l.node.ackTaken && l.down.ackCache != []
    then
      if !Accepts(AckFields(c, i + 1), l.down.ackCache[0]) then Some(Fail(l))
      else Some(l.(node := l.node.(ackTaken := true), down := l.down.(ackCache := l.down.ackCache[1..])))
    else None
  }

  function SendAck(c: Config, i: nat, l: Local): Option<Local>
    requires i < |c.kinds| && |c.links| == |c.kinds| + 1
  {
    var n := l.node;
    if n.status.Alive? && n.looped && Acked(c.links[i]) && !n.ackSent
       && (Acked(c.links[i + 1]) ==> n.ackTaken) && |l.up.ackQueue| < c.links[i].sendCapacity
    then Some(l.(node := n.(ackSent := true),
                 up := l.up.(ackQueue := l.up.ackQueue + [Encode(AckFields(c, i))])))
    else None
  }

  /** The process leaves once its part of the completion barrier is done; a node that sent a completion
      first waits until its driver has nothing queued. */
  function Close(c: Config, i: nat, l: Local): Option<Local>
    requires i < |c.kinds| && |c.links| == |c.kinds| + 1
  {
    var n := l.node;
    if n.status.Alive? && n.looped
       && (Acked(c.links[i + 1]) ==> n.ackTaken)
       && (Acked(c.links[i]) ==> n.ackSent && l.up.ackQueue == [] && (c.links[i + 1].Tcp? ==> l.down.queue == []))
    then Some(l.(node := n.(status := Closed)))
    else None
  }

  function Expire(l: Local): Option<Local> {
    if l.node.status.Alive? then Some(l.(node := l.node.(status := Failed(true)))) else None
  }

  // ----- The whole system -----

  datatype Action =
    | Tick(d: nat)
    | DoProduce(origin: nat, t: nat)
    | DoReceive(i: nat, t: nat)
    | DoAllocate(i: nat, root: nat, child: nat)
    | DoSend(i: nat)
    | DoAcknowledge(i: nat)
    | DoReclaim(i: nat)
    | DoCarry(i: nat)
    | DoCarryAck(i: nat)
    | DoPoll(i: nat, k: nat)
    | DoPollAck(i: nat, k: nat)
    | DoFinish(i: nat)
    | DoTakeAck(i: nat)
    | DoSendAck(i: nat)
    | DoClose(i: nat)
    | DoExpire(i: nat)

  /** On one host every process reads the same clock; independent hosts read anything but zero. */
  predicate Reading(c: Config, now: nat, t: nat) {
    if c.mode == SameHost then t == now else t != 0
  }

  predicate OriginOk(c: Config, now: nat, id: nat, origin: nat) {
    if id < c.warmup then origin == 0 else origin != 0 && (c.mode == SameHost ==> origin <= now)
  }

  function At(s: State, i: nat): Local
    requires i < |s.nodes| && |s.lanes| == |s.nodes| + 1
  {
    Local(s.nodes[i], s.lanes[i], s.lanes[i + 1])
  }

  function Put(s: State, i: nat, l: Local): State
    requires i < |s.nodes| && |s.lanes| == |s.nodes| + 1
  {
    s.(nodes := s.nodes[i := l.node], lanes := s.lanes[i := l.up][i + 1 := l.down])
  }

  /** Which node an action belongs to. */
  function Actor(a: Action): nat {
    match a
    case Tick(_) => 0
    case DoProduce(_, _) => 0
    case DoReceive(i, _) => i
    case DoAllocate(i, _, _) => i
    case DoSend(i) => i
    case DoAcknowledge(i) => i
    case DoReclaim(i) => i
    case DoCarry(i) => i
    case DoCarryAck(i) => i
    case DoPoll(i, _) => i
    case DoPollAck(i, _) => i
    case DoFinish(i) => i
    case DoTakeAck(i) => i
    case DoSendAck(i) => i
    case DoClose(i) => i
    case DoExpire(i) => i
  }

  /** The actor's part of a step. */
  ghost function LocalStep(c: Config, a: Action, l: Local, now: nat): Option<Local>
    requires Actor(a) < |c.kinds| && |c.links| == |c.kinds| + 1
  {
    match a
    case Tick(_) => Some(l)
    case DoProduce(origin, t) =>
      if OriginOk(c, now, |l.node.log|, origin) && Reading(c, now, t) then Produce(c, l, origin, t) else None
    case DoReceive(i, t) => if Reading(c, now, t) then Receive(c, i, l, t) else None
    case DoAllocate(i, root, child) => Allocate(c, i, l, root, child)
    case DoSend(i) => Send(c, i, l)
    case DoAcknowledge(i) => Acknowledge(l)
    case DoReclaim(i) => Reclaim(l)
    case DoCarry(i) => Carry(c, i, l)
    case DoCarryAck(i) => CarryAck(c, i, l)
    case DoPoll(i, k) => Poll(c, i, l, k)
    case DoPollAck(i, k) => PollAck(c, i, l, k)
    case DoFinish(i) => Finish(c, i, l)
    case DoTakeAck(i) => if i + 1 < |c.kinds| then TakeAck(c, i, l) else None
    case DoSendAck(i) => SendAck(c, i, l)
    case DoClose(i) => Close(c, i, l)
    case DoExpire(i) => Expire(l)
  }

  /** The segment in which an action allocates or frees, if any. */
  predicate Allocates(c: Config, s: State, a: Action)
    requires |s.roots| == |s.children| == c.segments
  {
    a.DoAllocate? && a.i + 1 < |c.links| && c.links[a.i + 1].Shm? && c.links[a.i + 1].segment < c.segments
  }

  predicate Frees(c: Config, s: State, a: Action)
    requires |s.roots| == |s.children| == c.segments
  {
    && a.DoReclaim? && a.i < |c.links| && c.links[a.i].Shm? && c.links[a.i].segment < c.segments
    && a.i < |s.lanes| && s.lanes[a.i].retiring != [] && s.lanes[a.i].retiring[0].Graph?
  }

  ghost function Step(c: Config, s: State, a: Action): Option<State>
    requires Shaped(c, s) && |c.links| == |c.kinds| + 1
  {
    if a.Tick? then Some(s.(now := s.now + a.d))
    else if Actor(a) >= |c.kinds| then None
    else
      var r := LocalStep(c, a, At(s, Actor(a)), s.now);
      if r.None? then None
      else
        var next := Put(s, Actor(a), r.value);
        if Allocates(c, s, a) then
          var g := c.links[a.i + 1].segment;
          if a.root in s.roots[g] || a.child in s.children[g] || a.root >= c.slots || a.child >= c.slots then None
          else Some(next.(roots := s.roots[g := s.roots[g] + {a.root}],
                          children := s.children[g := s.children[g] + {a.child}]))
        else if Frees(c, s, a) then
          var g, m := c.links[a.i].segment, s.lanes[a.i].retiring[0];
          Some(next.(roots := s.roots[g := s.roots[g] - {m.root}],
                     children := s.children[g := s.children[g] - {m.child}]))
        else Some(next)
  }

  /** The state after a list of actions, None if one of them was not possible. */
  ghost function Run(c: Config, acts: seq<Action>): (r: Option<State>)
    requires |c.links| == |c.kinds| + 1
    ensures r.Some? ==> Shaped(c, r.value)
    decreases |acts|
  {
    if acts == [] then Some(Init(c))
    else
      var r := Run(c, acts[..|acts| - 1]);
      if r.None? then None else Step(c, r.value, acts[|acts| - 1])
  }
}
