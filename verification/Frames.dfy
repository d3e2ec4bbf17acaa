/** The frame every backend transports, the stage state machine it walks through, and the
    validators that decide whether a frame may enter a stage or cross a bridge
    (pipeline_common.cc, mino_tcp_pipeline.cc, mino_shm_tcp_bridge.cc). */
module Frames {
  import opened Payload

  datatype Role = Perception | Prediction | Planning | Control | Guardian | Canbus

  datatype ClockMode = SameHost | IndependentHosts

  /** Fields that are a function of the sample id alone. */
  datatype Business = Business(
    objectCount: nat, trajectoryPointCount: nat, egoSpeedMps: real, steeringAngleRad: real,
    accelerationMps2: real, brakePercentage: real, emergencyStop: bool)

  datatype SemanticFrame = SemanticFrame(
    sampleId: nat, origin: nat, stamps: seq<nat>, mask: bv32, profile: nat,
    business: Business, checksum: nat, payload: seq<byte>)

  const STAGES: nat := 5
  const FINAL_STAGE_MASK: bv32 := 0x1F
  const ROLES: seq<Role> := [Perception, Prediction, Planning, Control, Guardian, Canbus]

  /** How many forwarding stages precede a role. */
  function Index(role: Role): (i: nat)
    ensures i <= STAGES && ROLES[i] == role
  {
    match role
    case Perception => 0
    case Prediction => 1
    case Planning => 2
    case Control => 3
    case Guardian => 4
    case Canbus => 5
  }

  function NextRole(role: Role): Option<Role> {
    match role
    case Perception => Some(Prediction)
    case Prediction => Some(Planning)
    case Planning => Some(Control)
    case Control => Some(Guardian)
    case Guardian => Some(Canbus)
    case Canbus => None
  }

  function RoleBit(role: Role): bv32 {
    match role
    case Perception => 1
    case Prediction => 2
    case Planning => 4
    case Control => 8
    case Guardian => 16
    case Canbus => 0
  }

  /** The completed-stage mask required on entry to a role. */
  function ExpectedMask(role: Role): bv32 {
    match role
    case Perception => 0
    case Prediction => 1
    case Planning => 1 | 2
    case Control => 1 | 2 | 4
    case Guardian => 1 | 2 | 4 | 8
    case Canbus => FINAL_STAGE_MASK
  }

  function BusinessOf(id: nat): Business {
    Business(
      8 + id % 97,
      16 + id % 241,
      (id % 701) as real * 0.05,
      (id % 401 - 200) as real * 0.001,
      (id % 121 - 60) as real * 0.05,
      (id % 101) as real,
      id % 257 == 0)
  }

  /** InitializeSourceFrameAt; an origin of zero denotes warmup. */
  function SourceFrame(sampleId: nat, profile: Profile, origin: nat): SemanticFrame {
    var payload := Expected(sampleId, profile);
    SemanticFrame(sampleId, origin, [0, 0, 0, 0, 0], 0, ProfileToWire(profile),
                  BusinessOf(sampleId), Fnv(payload), payload)
  }

  // ----- What a legal frame is -----

  ghost predicate WellShaped(f: SemanticFrame) {
    |f.stamps| == STAGES
  }

  /** The payload is the deterministic one of the sample and the checksum is its checksum. */
  ghost predicate GoodContent(f: SemanticFrame, payload: seq<byte>) {
    && ProfileFromWire(f.profile).Some?
    && f.business == BusinessOf(f.sampleId)
    && payload == Expected(f.sampleId, ProfileFromWire(f.profile).value)
    && f.checksum == Fnv(payload)
  }

  ghost predicate SemanticallyValid(f: SemanticFrame, payload: seq<byte>) {
    GoodContent(f, payload) && f.mask & !FINAL_STAGE_MASK == 0
  }

  /** Exactly the first `completed` stages carry a timestamp. */
  ghost predicate Present(stamps: seq<nat>, completed: nat)
    requires |stamps| == STAGES
  {
    forall i :: 0 <= i < STAGES ==> (stamps[i] != 0 <==> i < completed)
  }

  function Previous(origin: nat, stamps: seq<nat>, i: nat): nat
    requires |stamps| == STAGES && i <= STAGES
  {
    if i == 0 then origin else stamps[i - 1]
  }

  /** Completed timestamps never go backwards; a zero origin constrains nothing. */
  ghost predicate Ordered(origin: nat, stamps: seq<nat>, completed: nat)
    requires |stamps| == STAGES && completed <= STAGES
  {
    forall i :: 0 <= i < completed ==>
      Previous(origin, stamps, i) != 0 ==> Previous(origin, stamps, i) <= stamps[i]
  }

  /** What a role demands of the frame it receives. */
  ghost predicate Acceptable(role: Role, mode: ClockMode, f: SemanticFrame, payload: seq<byte>)
    requires WellShaped(f)
  {
    && GoodContent(f, payload)
    && f.mask == ExpectedMask(role)
    && Present(f.stamps, Index(role))
    && (mode == SameHost ==> Ordered(f.origin, f.stamps, Index(role)))
  }

  /** Whether `t` may stamp the stage of `role` on a frame that role accepts. */
  ghost predicate StampAllowed(role: Role, mode: ClockMode, f: SemanticFrame, t: nat)
    requires WellShaped(f)
  {
    role == Canbus
    || (t != 0 && (mode == SameHost ==> Previous(f.origin, f.stamps, Index(role)) <= t))
  }

  function Stamped(role: Role, f: SemanticFrame, t: nat): SemanticFrame
    requires WellShaped(f)
  {
    if role == Canbus then f
    else f.(stamps := f.stamps[Index(role) := t], mask := f.mask | RoleBit(role))
  }

  /** ApplyStageForClockMode with the clock reading as a parameter. */
  ghost function ApplyStage(role: Role, mode: ClockMode, f: SemanticFrame, payload: seq<byte>, t: nat)
    : (r: Option<SemanticFrame>)
    requires WellShaped(f)
    ensures r.Some? ==> WellShaped(r.value)
  {
    if Acceptable(role, mode, f, payload) && StampAllowed(role, mode, f, t)
    then Some(Stamped(role, f, t)) else None
  }

  // ----- The validators, as the source computes them -----

  method ValidateSemanticFrame(f: SemanticFrame, payload: seq<byte>) returns (ok: bool)
    ensures ok <==> SemanticallyValid(f, payload)
  {
    var profile := ProfileFromWire(f.profile);
    if profile.None? { return false; }
    if f.mask & !FINAL_STAGE_MASK != 0 { return false; }
    if f.business != BusinessOf(f.sampleId) { return false; }
    var checksum, firstMismatch := InspectDeterministicPayload(f.sampleId, profile.value, payload);
    if f.checksum != checksum { return false; }
    if |payload| != PayloadBytes(profile.value) {
      return false;
    }
    if firstMismatch.Some? {
      assert payload[firstMismatch.value] != Expected(f.sampleId, profile.value)[firstMismatch.value];
      return false;
    }
    assert payload == Expected(f.sampleId, profile.value);
    return true;
  }

  /** The timestamp walk shared by the stage and the bridge validators. */
  method ValidateTimestamps(origin: nat, stamps: seq<nat>, completed: nat, mode: ClockMode)
    returns (ok: bool)
    requires |stamps| == STAGES && completed <= STAGES
    ensures ok <==> Present(stamps, completed) && (mode == SameHost ==> Ordered(origin, stamps, completed))
  {
    var previous := origin;
    var index := 0;
    while index < STAGES
      invariant 0 <= index <= STAGES
      invariant index <= completed ==> previous == Previous(origin, stamps, index)
      invariant forall i :: 0 <= i < index ==> (stamps[i] != 0 <==> i < completed)
      invariant mode == SameHost ==>
                  forall i :: 0 <= i < index && i < completed ==>
                    Previous(origin, stamps, i) != 0 ==> Previous(origin, stamps, i) <= stamps[i]
    {
      if index < completed {
        if stamps[index] == 0 { return false; }
        if mode == SameHost && previous != 0 && stamps[index] < previous { return false; }
        previous := stamps[index];
      } else if stamps[index] != 0 {
        return false;
      }
      index := index + 1;
    }
    return true;
  }

  method ValidateFrameForStage(role: Role, f: SemanticFrame, payload: seq<byte>) returns (ok: bool)
    requires WellShaped(f)
    ensures ok <==> Acceptable(role, SameHost, f, payload)
  {
    ok := ValidateSemanticFrame(f, payload);
    if !ok { MaskIsKnown(role); return; }
    if f.mask != ExpectedMask(role) { return false; }
    ok := ValidateTimestamps(f.origin, f.stamps, Index(role), SameHost);
  }

  /** Structural acceptance by a bridge: sequencing, phase, profile, size, mask and timestamp
      shape, without the content of the sample. */
  ghost predicate StructurallyValid(f: SemanticFrame, payloadSize: nat, expected: nat, warmup: nat,
                                    profile: Profile, destination: Role, mode: ClockMode)
    requires WellShaped(f)
  {
    && f.sampleId == expected
    && (f.origin == 0 <==> expected < warmup)
    && f.profile == ProfileToWire(profile)
    && payloadSize == PayloadBytes(profile)
    && f.mask == ExpectedMask(destination)
    && Present(f.stamps, Index(destination))
    && (mode == SameHost ==> Ordered(f.origin, f.stamps, Index(destination)))
  }

  method ValidateBridgeTransitFrame(f: SemanticFrame, payloadSize: nat, expected: nat, warmup: nat,
                                    profile: Profile, destination: Role, mode: ClockMode)
    returns (ok: bool)
    requires WellShaped(f)
    ensures ok <==> StructurallyValid(f, payloadSize, expected, warmup, profile, destination, mode)
  {
    if f.sampleId != expected { return false; }
    var measured := expected >= warmup;
    if (measured && f.origin == 0) || (!measured && f.origin != 0) { return false; }
    if f.profile != ProfileToWire(profile) { return false; }
    if payloadSize != PayloadBytes(profile) { return false; }
    if f.mask != ExpectedMask(destination) { return false; }
    ok := ValidateTimestamps(f.origin, f.stamps, Index(destination), mode);
  }

  /** Full acceptance by a bridge (ValidateSampleAndPhase). It always demands ordered
      timestamps, whatever the clock mode of the run. */
  ghost predicate FullyValid(f: SemanticFrame, payload: seq<byte>, expected: nat, warmup: nat,
                             profile: Profile, destination: Role)
    requires WellShaped(f)
  {
    && f.sampleId == expected
    && (f.origin == 0 <==> expected < warmup)
    && f.profile == ProfileToWire(profile)
    && Acceptable(destination, SameHost, f, payload)
  }

  method ValidateSampleAndPhase(f: SemanticFrame, payload: seq<byte>, expected: nat, warmup: nat,
                                profile: Profile, destination: Role)
    returns (ok: bool)
    requires WellShaped(f)
    ensures ok <==> FullyValid(f, payload, expected, warmup, profile, destination)
  {
    if f.sampleId != expected { return false; }
    var measured := expected >= warmup;
    if (measured && f.origin == 0) || (!measured && f.origin != 0) { return false; }
    if f.profile != ProfileToWire(profile) { return false; }
    ok := ValidateFrameForStage(destination, f, payload);
  }

  /** The reading is in the stamp of the role, its bit is set, and nothing else is different. */
  ghost predicate StampWritten(role: Role, f: SemanticFrame, t: nat, g: SemanticFrame)
    requires WellShaped(f)
  {
    && WellShaped(g) && g == f.(stamps := g.stamps, mask := g.mask)
    && (forall i :: 0 <= i < STAGES ==> g.stamps[i] == if ROLES[i] == role then t else f.stamps[i])
    && g.mask == f.mask | RoleBit(role)
  }

  lemma StampIsWritten(role: Role, f: SemanticFrame, t: nat)
    requires role != Canbus && WellShaped(f)
    ensures StampWritten(role, f, t, Stamped(role, f, t))
  {
    hide RoleBit;
    StampsOf(role, f.stamps, t);
  }

  lemma StampsOf(role: Role, stamps: seq<nat>, t: nat)
    requires role != Canbus && |stamps| == STAGES
    ensures forall i :: 0 <= i < STAGES ==> stamps[Index(role) := t][i] == if ROLES[i] == role then t else stamps[i]
  {
    forall i | 0 <= i < STAGES
      ensures stamps[Index(role) := t][i] == if ROLES[i] == role then t else stamps[i]
    {
      assert Index(ROLES[i]) == i;
    }
  }

  /** A frame that stages rewrite in place. */
  class FrameCell {
    var frame: SemanticFrame

    constructor (f: SemanticFrame)
      ensures frame == f
    {
      frame := f;
    }

    /** The explicit-timestamp ApplyStage on one host. */
    method ApplyStageSameHost(role: Role, payload: seq<byte>, t: nat) returns (ok: bool)
      requires WellShaped(frame)
      modifies this
      ensures ok == ApplyStage(role, SameHost, old(frame), payload, t).Some?
      ensures ok ==> Some(frame) == ApplyStage(role, SameHost, old(frame), payload, t)
      ensures ok && role != Canbus ==> StampWritten(role, old(frame), t, frame)
      ensures !ok || role == Canbus ==> frame == old(frame)
    {
      hide StampWritten, ExpectedMask, GoodContent;
      ok := ValidateFrameForStage(role, frame, payload);
      if !ok { return; }
      if role == Canbus { return true; }
      if t == 0 { return false; }
      var completed := Index(role);
      var previous := if completed == 0 then frame.origin else frame.stamps[completed - 1];
      if previous != 0 && t < previous { return false; }
      StampIsWritten(role, frame, t);
      frame := frame.(stamps := frame.stamps[completed := t], mask := frame.mask | RoleBit(role));
    }

    /** The independent-host variant: timestamps must be present, but are never compared. */
    method ApplyStageIndependentHosts(role: Role, payload: seq<byte>, t: nat) returns (ok: bool)
      requires WellShaped(frame)
      modifies this
      ensures ok == ApplyStage(role, IndependentHosts, old(frame), payload, t).Some?
      ensures ok ==> Some(frame) == ApplyStage(role, IndependentHosts, old(frame), payload, t)
      ensures ok && role != Canbus ==> StampWritten(role, old(frame), t, frame)
      ensures !ok || role == Canbus ==> frame == old(frame)
    {
      hide StampWritten;
      ok := ValidateSemanticFrame(frame, payload);
      if !ok { MaskIsKnown(role); return; }
      if frame.mask != ExpectedMask(role) { return false; }
      var completed := Index(role);
      ok := ValidateTimestamps(frame.origin, frame.stamps, completed, IndependentHosts);
      if !ok { return; }
      if role == Canbus { return true; }
      if t == 0 { return false; }
      StampIsWritten(role, frame, t);
      frame := frame.(stamps := frame.stamps[completed := t], mask := frame.mask | RoleBit(role));
    }
  }

  // ----- Facts about the stage machine -----

  lemma MaskIsKnown(role: Role)
    ensures ExpectedMask(role) & !FINAL_STAGE_MASK == 0
  {}

  /** Applying a role's stage yields the mask the next role expects. */
  lemma MaskAdvances(role: Role)
    requires role != Canbus
    ensures NextRole(role) == Some(ROLES[Index(role) + 1])
    ensures ExpectedMask(role) | RoleBit(role) == ExpectedMask(ROLES[Index(role) + 1])
  {}

  /** A mask is expected by at most one role: no stage can be skipped, repeated or swapped. */
  lemma MaskDeterminesRole(r: Role, q: Role)
    requires ExpectedMask(r) == ExpectedMask(q)
    ensures r == q
  {}

  /** A source frame is what perception accepts, in either clock mode. */
  lemma SourceFrameAcceptable(sampleId: nat, profile: Profile, origin: nat, mode: ClockMode)
    ensures var f := SourceFrame(sampleId, profile, origin);
            WellShaped(f) && Acceptable(Perception, mode, f, f.payload)
  {
    var f := SourceFrame(sampleId, profile, origin);
    assert ProfileFromWire(f.profile) == Some(profile);
  }

  /** A stamped frame is exactly what the next role accepts. */
  lemma StageHandsOver(role: Role, mode: ClockMode, f: SemanticFrame, payload: seq<byte>, t: nat)
    requires role != Canbus && WellShaped(f)
    requires Acceptable(role, mode, f, payload) && StampAllowed(role, mode, f, t)
    ensures Acceptable(ROLES[Index(role) + 1], mode, Stamped(role, f, t), payload)
  {
    MaskAdvances(role);
    var g := Stamped(role, f, t);
    var k := Index(role);
    assert Index(ROLES[k + 1]) == k + 1;
    assert forall i :: 0 <= i < STAGES && i != k ==> g.stamps[i] == f.stamps[i];
    if mode == SameHost {
      forall i | 0 <= i < k + 1
        ensures Previous(g.origin, g.stamps, i) != 0 ==> Previous(g.origin, g.stamps, i) <= g.stamps[i]
      {
        assert Previous(g.origin, g.stamps, i) == Previous(f.origin, f.stamps, i);
        if i < k { assert g.stamps[i] == f.stamps[i]; }
      }
    }
  }

  datatype Call = Call(role: Role, t: nat)

  /** A series of stage attempts on one frame: refused attempts leave it unchanged. Returns which attempts of a
      forwarding role succeeded, in order, and the resulting frame. */
  ghost function Attempts(mode: ClockMode, f: SemanticFrame, calls: seq<Call>)
    : (r: (seq<nat>, SemanticFrame))
    requires WellShaped(f)
    ensures WellShaped(r.1)
    decreases |calls|
  {
    if calls == [] then ([], f)
    else
      var n := |calls| - 1;
      var (done, g) := Attempts(mode, f, calls[..n]);
      var applied := ApplyStage(calls[n].role, mode, g, g.payload, calls[n].t);
      if applied.None? then (done, g)
      else (if calls[n].role == Canbus then done else done + [n], applied.value)
  }

  predicate InLine(mode: ClockMode, last: nat, k: nat, c: Call)
    requires k < STAGES
  {
    c.role == ROLES[k] && c.t != 0 && (mode == SameHost ==> last <= c.t)
  }

  function Extended(mode: ClockMode, last: nat, due: seq<nat>, n: nat, c: Call): seq<nat> {
    if |due| < STAGES && InLine(mode, last, |due|, c) then due + [n] else due
  }

  /** The reading of the last success, or the origin. */
  function LastReading(origin: nat, calls: seq<Call>, due: seq<nat>): nat
    requires forall i :: 0 <= i < |due| ==> due[i] < |calls|
  {
    if due == [] then origin else calls[due[|due| - 1]].t
  }

  /** The attempts that ought to succeed, told from the calls alone: the next role in line, with a reading that is
      non-zero and, on one host, not before that of the last success or, for the first, not before the origin. */
  function Due(mode: ClockMode, origin: nat, calls: seq<Call>): (r: seq<nat>)
    ensures |r| <= STAGES && forall i :: 0 <= i < |r| ==> r[i] < |calls| && calls[r[i]].role == ROLES[i]
    decreases |calls|
  {
    if calls == [] then []
    else
      var n := |calls| - 1;
      var due := Due(mode, origin, calls[..n]);
      Extended(mode, LastReading(origin, calls, due), due, n, calls[n])
  }

  /** An attempt on a frame waiting for `ROLES[k]` succeeds exactly when that role makes it with a
      reading that is non-zero and, on one host, not before the previous timestamp. */
  lemma AttemptSucceedsIff(mode: ClockMode, g: SemanticFrame, k: nat, c: Call)
    requires k <= STAGES && WellShaped(g) && Acceptable(ROLES[k], mode, g, g.payload)
    ensures ApplyStage(c.role, mode, g, g.payload, c.t).Some? <==>
            && c.role == ROLES[k]
            && (c.role == Canbus
                || (c.t != 0 && (mode == SameHost ==> Previous(g.origin, g.stamps, k) <= c.t)))
  {
    assert Index(ROLES[k]) == k;
    if c.role != ROLES[k] && ExpectedMask(c.role) == ExpectedMask(ROLES[k]) {
      MaskDeterminesRole(c.role, ROLES[k]);
    }
  }

  /** A successful attempt writes the reading into the stamp of the role in line, sets that role's bit, and leaves
      everything else alone. */
  lemma AttemptAdvances(mode: ClockMode, g: SemanticFrame, k: nat, c: Call)
    requires k <= STAGES && WellShaped(g) && Acceptable(ROLES[k], mode, g, g.payload)
    requires ApplyStage(c.role, mode, g, g.payload, c.t).Some?
    ensures c.role == ROLES[k]
    ensures c.role == Canbus ==> ApplyStage(c.role, mode, g, g.payload, c.t).value == g
    ensures c.role != Canbus ==>
              var h := ApplyStage(c.role, mode, g, g.payload, c.t).value;
              && k < STAGES && h == g.(stamps := h.stamps, mask := h.mask)
              && (forall i :: 0 <= i < STAGES ==> h.stamps[i] == if i == k then c.t else g.stamps[i])
              && Acceptable(ROLES[k + 1], mode, h, h.payload)
  {
    AttemptSucceedsIff(mode, g, k, c);
    assert Index(ROLES[k]) == k;
    if c.role != Canbus {
      StageHandsOver(c.role, mode, g, g.payload, c.t);
    }
  }

  /** The frame after some attempts on `f`: each success left its reading, the rest is as it was. */
  ghost predicate Carries(mode: ClockMode, f: SemanticFrame, calls: seq<Call>, done: seq<nat>, g: SemanticFrame)
    requires WellShaped(f) && WellShaped(g)
  {
    && done == Due(mode, f.origin, calls)
    && g == f.(stamps := g.stamps, mask := g.mask)
    && (forall i :: 0 <= i < STAGES ==> g.stamps[i] == if i < |done| then calls[done[i]].t else 0)
    && Acceptable(ROLES[|done|], mode, g, g.payload)
  }

  lemma DueGrows(mode: ClockMode, origin: nat, calls: seq<Call>, c: Call)
    ensures var due := Due(mode, origin, calls);
            Due(mode, origin, calls + [c]) == Extended(mode, LastReading(origin, calls, due), due, |calls|, c)
  {
    hide Extended, LastReading;
    var more, due := calls + [c], Due(mode, origin, calls);
    assert more[..|calls|] == calls && more[|calls|] == c;
    SameLastReading(origin, calls, c, due);
  }

  lemma SameLastReading(origin: nat, calls: seq<Call>, c: Call, due: seq<nat>)
    requires forall i :: 0 <= i < |due| ==> due[i] < |calls|
    ensures LastReading(origin, calls + [c], due) == LastReading(origin, calls, due)
  {
  }

  lemma CarriesFacts(mode: ClockMode, f: SemanticFrame, calls: seq<Call>, done: seq<nat>, g: SemanticFrame)
    requires WellShaped(f) && WellShaped(g) && Carries(mode, f, calls, done, g)
    ensures done == Due(mode, f.origin, calls) && Acceptable(ROLES[|done|], mode, g, g.payload)
    ensures Previous(g.origin, g.stamps, |done|) == LastReading(f.origin, calls, done)
  {
    hide Acceptable, Due;
  }

  lemma RefusedCarries(mode: ClockMode, f: SemanticFrame, calls: seq<Call>, c: Call, done: seq<nat>, g: SemanticFrame)
    requires WellShaped(f) && WellShaped(g) && Carries(mode, f, calls, done, g)
    requires Due(mode, f.origin, calls + [c]) == done
    ensures Carries(mode, f, calls + [c], done, g)
  {
    hide Acceptable, Due;
  }

  lemma AttemptCarries(mode: ClockMode, f: SemanticFrame, calls: seq<Call>, c: Call, done: seq<nat>, g: SemanticFrame)
    requires WellShaped(f) && WellShaped(g) && Carries(mode, f, calls, done, g)
    ensures var r := ApplyStage(c.role, mode, g, g.payload, c.t);
            && (r.Some? && c.role != Canbus ==> Carries(mode, f, calls + [c], done + [|calls|], r.value))
            && (r.Some? && c.role == Canbus ==> Carries(mode, f, calls + [c], done, r.value))
            && (r.None? ==> Carries(mode, f, calls + [c], done, g))
  {
    hide Acceptable, ApplyStage, Due, Carries, Previous, LastReading;
    CarriesFacts(mode, f, calls, done, g);
    DueGrows(mode, f.origin, calls, c);
    AttemptSucceedsIff(mode, g, |done|, c);
    OnlyLastIsCanbus(|done|);
    var r := ApplyStage(c.role, mode, g, g.payload, c.t);
    if r.Some? {
      AttemptAdvances(mode, g, |done|, c);
    }
    if r.Some? && c.role != Canbus {
      ForwardCarries(mode, f, calls, c, done, g, r.value);
    } else {
      RefusedCarries(mode, f, calls, c, done, g);
    }
  }

  lemma OnlyLastIsCanbus(i: nat)
    requires i <= STAGES
    ensures ROLES[i] == Canbus <==> i == STAGES
  {}

  lemma ForwardCarries(mode: ClockMode, f: SemanticFrame, calls: seq<Call>, c: Call, done: seq<nat>, g: SemanticFrame,
                       h: SemanticFrame)
    requires WellShaped(f) && WellShaped(g) && WellShaped(h) && Carries(mode, f, calls, done, g) && |done| < STAGES
    requires Due(mode, f.origin, calls + [c]) == done + [|calls|] && h == g.(stamps := h.stamps, mask := h.mask)
    requires forall i :: 0 <= i < STAGES ==> h.stamps[i] == if i == |done| then c.t else g.stamps[i]
    requires Acceptable(ROLES[|done| + 1], mode, h, h.payload)
    ensures Carries(mode, f, calls + [c], done + [|calls|], h)
  {
    hide Acceptable;
  }

  lemma StartCarries(mode: ClockMode, f: SemanticFrame)
    requires WellShaped(f) && Acceptable(Perception, mode, f, f.payload)
    ensures Carries(mode, f, [], [], f)
  {
    hide GoodContent;
    assert f == f.(stamps := f.stamps, mask := f.mask);
  }

  lemma {:induction false} ChainFrom(mode: ClockMode, f: SemanticFrame, calls: seq<Call>)
    requires WellShaped(f) && Acceptable(Perception, mode, f, f.payload)
    ensures var (done, g) := Attempts(mode, f, calls);
            Carries(mode, f, calls, done, g)
    decreases |calls|
  {
    hide Carries, ApplyStage, Acceptable;
    if calls == [] {
      StartCarries(mode, f);
    } else {
      var n := |calls| - 1;
      ChainFrom(mode, f, calls[..n]);
      var (done, g) := Attempts(mode, f, calls[..n]);
      assert calls == calls[..n] + [calls[n]];
      AttemptCarries(mode, f, calls[..n], calls[n], done, g);
    }
  }

  /** Whatever stages are attempted on a source frame, in whatever order and with whatever clock readings: those succeed
      that are due, so the successful ones are perception, prediction, ... in order without a gap; the frame carries the
      reading of each of them, and zero for the roles still to come; its mask is the one the next role in line expects;
      everything else is as in the source frame. */
  lemma SuccessesFormTheChain(mode: ClockMode, sampleId: nat, profile: Profile, origin: nat,
                              calls: seq<Call>)
    ensures var f := SourceFrame(sampleId, profile, origin);
            var (done, g) := Attempts(mode, f, calls);
            && done == Due(mode, origin, calls)
            && (forall i :: 0 <= i < STAGES ==> g.stamps[i] == if i < |done| then calls[done[i]].t else 0)
            && g.mask == ExpectedMask(ROLES[|done|])
            && g == f.(stamps := g.stamps, mask := g.mask)
            && Acceptable(ROLES[|done|], mode, g, g.payload)
  {
    SourceFrameAcceptable(sampleId, profile, origin, mode);
    SourceOrigin(sampleId, profile, origin);
    hide SourceFrame, ExpectedMask, GoodContent, Present, Ordered, Due, Attempts, Index;
    ChainFrom(mode, SourceFrame(sampleId, profile, origin), calls);
  }

  lemma SourceOrigin(sampleId: nat, profile: Profile, origin: nat)
    ensures SourceFrame(sampleId, profile, origin).origin == origin
  {}

  // ----- Structural against full bridge validation -----

  /** On one host, full validation is structural validation plus semantic validation. */
  lemma FullIsStructuralPlusSemantic(f: SemanticFrame, payload: seq<byte>, expected: nat, warmup: nat,
                                     profile: Profile, destination: Role)
    requires WellShaped(f)
    ensures FullyValid(f, payload, expected, warmup, profile, destination) <==>
            && StructurallyValid(f, |payload|, expected, warmup, profile, destination, SameHost)
            && SemanticallyValid(f, payload)
  {
    MaskIsKnown(destination);
  }

  /** With independent host clocks, full validation is structural and semantic validation plus the
      timestamp order that mode is not supposed to demand. */
  lemma FullOnIndependentHosts(f: SemanticFrame, payload: seq<byte>, expected: nat, warmup: nat,
                               profile: Profile, destination: Role)
    requires WellShaped(f)
    ensures FullyValid(f, payload, expected, warmup, profile, destination) <==>
            && StructurallyValid(f, |payload|, expected, warmup, profile, destination, IndependentHosts)
            && SemanticallyValid(f, payload)
            && Ordered(f.origin, f.stamps, Index(destination))
  {
    MaskIsKnown(destination);
  }

  /** A frame that every stage of an independent-host run accepts and full validation refuses: the
      second host's clock is behind the first's. */
  lemma FullRefusesIndependentClocks(sampleId: nat, profile: Profile, origin: nat)
    requires origin > 2
    ensures var f := SourceFrame(sampleId, profile, origin);
            var g := Stamped(Perception, f, 1);
            && Acceptable(Prediction, IndependentHosts, g, g.payload)
            && StructurallyValid(g, |g.payload|, sampleId, 0, profile, Prediction, IndependentHosts)
            && !FullyValid(g, g.payload, sampleId, 0, profile, Prediction)
  {
    var f := SourceFrame(sampleId, profile, origin);
    SourceFrameAcceptable(sampleId, profile, origin, IndependentHosts);
    StageHandsOver(Perception, IndependentHosts, f, f.payload, 1);
    var g := Stamped(Perception, f, 1);
    assert Previous(g.origin, g.stamps, 0) == origin && g.stamps[0] == 1;
  }
}
