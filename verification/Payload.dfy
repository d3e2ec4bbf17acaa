/** Deterministic payloads and their FNV-1a checksum (pipeline_common.cc). */
module Payload {
  import opened Bits

  type byte = x: nat | x < 256

  datatype Option<+T> = None | Some(value: T) {
    predicate IsFailure() { None? }

    function PropagateFailure<U>(): Option<U> {
      None
    }

    function Extract(): T
      requires Some?
    {
      value
    }
  }

  const FNV_OFFSET_BASIS: nat := 14_695_981_039_346_656_037
  const FNV_PRIME: nat := 1_099_511_628_211
  /** The inverse of the odd prime modulo 2^64. */
  const FNV_PRIME_INVERSE: nat := 0xce965057aff6957b

  datatype Profile = Small | Medium | Large

  function ProfileToWire(p: Profile): nat {
    match p case Small => 0 case Medium => 1 case Large => 2
  }

  function ProfileFromWire(v: nat): (r: Option<Profile>)
    ensures r.Some? <==> exists p :: ProfileToWire(p) == v
    ensures r.Some? ==> ProfileToWire(r.value) == v
  {
    if v == 0 then assert ProfileToWire(Small) == v; Some(Small)
    else if v == 1 then assert ProfileToWire(Medium) == v; Some(Medium)
    else if v == 2 then assert ProfileToWire(Large) == v; Some(Large)
    else None
  }

  function PayloadBytes(p: Profile): nat {
    match p case Small => 256 case Medium => 65_536 case Large => 1_048_576
  }

  function Xor64(x: nat, y: nat): (r: nat)
    requires x < U64 && y < U64
    ensures r < U64
  {
    Pow64();
    XorBound(x, y, 64);
    Xor(x, y)
  }

  /** The pseudo-random byte a sample carries at `index`. Shifts are divisions and
      multiplications wrap at 2^64. */
  function DeterministicByte(sampleId: nat, profile: Profile, index: nat): byte {
    var seed := Xor64(Xor64(sampleId % U64, ProfileToWire(profile) * 0x2000_0000_0000_0000 % U64),
                      index * 0x9e3779b97f4a7c15 % U64);
    var v0 := (seed + 0x9e3779b97f4a7c15) % U64;
    var v1 := Xor64(v0, v0 / 0x4000_0000) * 0xbf58476d1ce4e5b9 % U64;
    var v2 := Xor64(v1, v1 / 0x800_0000) * 0x94d049bb133111eb % U64;
    var v3 := Xor64(v2, v2 / 0x8000_0000);
    v3 / 0x100_0000_0000_0000
  }

  /** The payload a source frame of this sample carries. */
  function Expected(sampleId: nat, profile: Profile): (r: seq<byte>)
    ensures |r| == PayloadBytes(profile)
    ensures forall i :: 0 <= i < |r| ==> r[i] == DeterministicByte(sampleId, profile, i)
  {
    seq(PayloadBytes(profile), i requires i >= 0 => DeterministicByte(sampleId, profile, i))
  }

  function FnvStep(hash: nat, b: byte): (r: nat)
    ensures r < U64
  {
    Xor(hash, b) * FNV_PRIME % U64
  }

  function Fnv(payload: seq<byte>): (r: nat)
    ensures r < U64
  {
    if payload == [] then FNV_OFFSET_BASIS
    else FnvStep(Fnv(payload[..|payload| - 1]), payload[|payload| - 1])
  }

  /** The hash of the letter a, as published with the algorithm. */
  lemma FnvOfA()
    ensures Fnv([0x61]) == 0xaf63_dc4c_8601_ec8c
  {
    assert Xor(0x32fca739210888c, 0x1) == 0x32fca739210888d;
    assert Xor(0x65f94e724211119, 0x3) == 0x65f94e72421111a;
    assert Xor(0xcbf29ce48422232, 0x6) == 0xcbf29ce48422234;
    assert Xor(0x197e539c90844464, 0xc) == 0x197e539c90844468;
    assert Xor(0x32fca739210888c9, 0x18) == 0x32fca739210888d1;
    assert Xor(0x65f94e7242111192, 0x30) == 0x65f94e72421111a2;
    assert Xor(0xcbf29ce484222325, 0x61) == 0xcbf29ce484222344;
    assert [0x61][..0] == [];
  }

  /** `i` is the first position whose byte is not the expected one. */
  ghost predicate IsFirstMismatch(sampleId: nat, profile: Profile, payload: seq<byte>, i: nat) {
    && i < |payload|
    && payload[i] != DeterministicByte(sampleId, profile, i)
    && forall j :: 0 <= j < i ==> payload[j] == DeterministicByte(sampleId, profile, j)
  }

  method FillDeterministicPayload(sampleId: nat, profile: Profile) returns (payload: seq<byte>)
    ensures payload == Expected(sampleId, profile)
  {
    payload := [];
    var index := 0;
    while index < PayloadBytes(profile)
      invariant 0 <= index == |payload| <= PayloadBytes(profile)
      invariant forall i :: 0 <= i < index ==> payload[i] == DeterministicByte(sampleId, profile, i)
    {
      payload := payload + [DeterministicByte(sampleId, profile, index)];
      index := index + 1;
    }
  }

  lemma FnvOfNothing(payload: seq<byte>)
    ensures Fnv(payload[..0]) == FNV_OFFSET_BASIS
  {}

  lemma FnvSnoc(payload: seq<byte>, i: nat)
    requires i < |payload|
    ensures Fnv(payload[..i + 1]) == Xor(Fnv(payload[..i]), payload[i]) * FNV_PRIME % U64
  {
    hide Xor;
    assert payload[..i + 1][..i] == payload[..i];
  }

  method StablePayloadChecksum(payload: seq<byte>) returns (checksum: nat)
    ensures checksum == Fnv(payload)
  {
    hide Fnv, Xor;
    checksum := FNV_OFFSET_BASIS;
    FnvOfNothing(payload);
    var index := 0;
    while index < |payload|
      invariant 0 <= index <= |payload|
      invariant checksum == Fnv(payload[..index])
    {
      FnvSnoc(payload, index);
      checksum := Xor(checksum, payload[index]);
      checksum := checksum * FNV_PRIME % U64;
      index := index + 1;
    }
    assert payload[..index] == payload;
  }

  /** One pass that computes what the checksum pass and the byte comparison compute apart. */
  method InspectDeterministicPayload(sampleId: nat, profile: Profile, payload: seq<byte>)
    returns (checksum: nat, firstMismatch: Option<nat>)
    ensures checksum == Fnv(payload)
    ensures firstMismatch.Some? ==> IsFirstMismatch(sampleId, profile, payload, firstMismatch.value)
    ensures firstMismatch.None? <==>
            forall i :: 0 <= i < |payload| ==> payload[i] == DeterministicByte(sampleId, profile, i)
  {
    hide Fnv, DeterministicByte, Xor;
    checksum, firstMismatch := FNV_OFFSET_BASIS, None;
    FnvOfNothing(payload);
    var index := 0;
    while index < |payload|
      invariant 0 <= index <= |payload|
      invariant checksum == Fnv(payload[..index])
      invariant firstMismatch.Some? ==> IsFirstMismatch(sampleId, profile, payload, firstMismatch.value)
      invariant firstMismatch.None? ==>
                  forall i :: 0 <= i < index ==> payload[i] == DeterministicByte(sampleId, profile, i)
    {
      FnvSnoc(payload, index);
      checksum := Xor(checksum, payload[index]);
      checksum := checksum * FNV_PRIME % U64;
      if firstMismatch.None? && payload[index] != DeterministicByte(sampleId, profile, index) {
        firstMismatch := Some(index);
      }
      index := index + 1;
    }
    assert payload[..index] == payload;
  }

  // ----- What the checksum detects -----

  /** Multiplying by the odd FNV prime loses nothing modulo 2^64: it has an inverse. */
  lemma PrimeInvertible(x: nat, y: nat)
    requires x < U64 && y < U64 && x * FNV_PRIME % U64 == y * FNV_PRIME % U64
    ensures x == y
  {
    var d, k := x - y, x * FNV_PRIME / U64 - y * FNV_PRIME / U64;
    assert d * FNV_PRIME == k * U64;
    assert FNV_PRIME * FNV_PRIME_INVERSE == 0xce9650590f * U64 + 1;
    assert d == U64 * (k * FNV_PRIME_INVERSE - d * 0xce9650590f);
  }

  lemma FnvStepInjective(h: nat, h': nat, b: byte, b': byte)
    requires h < U64 && h' < U64
    requires FnvStep(h, b) == FnvStep(h', b')
    ensures Xor(h, b) == Xor(h', b')
  {
    Pow64();
    assert Pow2(8) == 256;
    Pow2Add(8, 56);
    XorBound(h, b, 64);
    XorBound(h', b', 64);
    PrimeInvertible(Xor(h, b), Xor(h', b'));
  }

  lemma {:induction false} XorCommutes(x: nat, y: nat)
    ensures Xor(x, y) == Xor(y, x)
    decreases x + y
  {
    if x != 0 && y != 0 { XorCommutes(x / 2, y / 2); }
  }

  /** Two payloads that differ in exactly one byte have different checksums. */
  lemma {:induction false} FnvDetectsOneByte(p: seq<byte>, q: seq<byte>, at: nat)
    requires |p| == |q| && at < |p| && p[at] != q[at]
    requires forall i :: 0 <= i < |p| && i != at ==> p[i] == q[i]
    ensures Fnv(p) != Fnv(q)
  {
    var n := |p| - 1;
    var b, b' := p[n], q[n];
    if Fnv(p) == Fnv(q) {
      FnvStepInjective(Fnv(p[..n]), Fnv(q[..n]), b, b');
      if at == n {
        assert p[..n] == q[..n];
        var h := Fnv(p[..n]);
        XorCommutes(h, b);
        XorCommutes(h, b');
        XorCancels(b, h);
        XorCancels(b', h);
      } else {
        XorCancels(Fnv(p[..n]), b);
        XorCancels(Fnv(q[..n]), b);
        FnvDetectsOneByte(p[..n], q[..n], at);
      }
    }
  }
}
