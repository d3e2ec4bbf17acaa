/** The storage benchmark's CRC32C (section 12.1 of RFC 3720), a bit at a time, and the errors it detects. */
module Crc {
  const REFLECTED_POLYNOMIAL: bv32 := 0x82f63b78
  const ALL_ONES: bv32 := 0xffffffff
  const TOP_BIT: bv32 := 0x80000000

  function Xor(a: bv32, b: bv32): bv32 {
    a ^ b
  }

  function Half(s: bv32): bv32 {
    s >> 1
  }

  predicate Odd(s: bv32) {
    s & 1 != 0
  }

  function Step(s: bv32): bv32 {
    Xor(Half(s), if Odd(s) then REFLECTED_POLYNOMIAL else 0)
  }

  function Bit(b: bool): bv32 {
    if b then 1 else 0
  }

  /** The state after a message given as bits, first bit first. */
  function Run(s: bv32, bits: seq<bool>): bv32
    decreases |bits|
  {
    if bits == [] then s else Run(Step(Xor(s, Bit(bits[0]))), bits[1..])
  }

  /** The eight bits of a byte, lowest first. */
  function ByteBits(b: bv8): (r: seq<bool>)
    ensures |r| == 8
  {
    [b & 1 != 0, b & 2 != 0, b & 4 != 0, b & 8 != 0, b & 16 != 0, b & 32 != 0, b & 64 != 0, b & 128 != 0]
  }

  function Bits(bytes: seq<bv8>): (r: seq<bool>)
    ensures |r| == 8 * |bytes|
  {
    if bytes == [] then [] else ByteBits(bytes[0]) + Bits(bytes[1..])
  }

  function Checksum(bits: seq<bool>): bv32 {
    Xor(Run(ALL_ONES, bits), ALL_ONES)
  }

  // ----- One step -----

  lemma HalfLinear(a: bv32, b: bv32)
    ensures Half(Xor(a, b)) == Xor(Half(a), Half(b)) && (Odd(Xor(a, b)) <==> Odd(a) != Odd(b))
  {
  }

  lemma XorAssociates(a: bv32, b: bv32, c: bv32)
    ensures Xor(Xor(a, b), c) == Xor(a, Xor(b, c))
  {
  }

  lemma XorCommutes(a: bv32, b: bv32)
    ensures Xor(a, b) == Xor(b, a)
  {
  }

  lemma XorSelf(a: bv32)
    ensures Xor(a, a) == 0 && Xor(a, 0) == a
  {
  }

  lemma XorSwaps(a: bv32, b: bv32, c: bv32, d: bv32)
    ensures Xor(Xor(a, c), Xor(b, d)) == Xor(Xor(a, b), Xor(c, d))
  {
    hide Xor;
    XorAssociates(a, c, Xor(b, d));
    XorAssociates(c, b, d);
    XorCommutes(c, b);
    XorAssociates(b, c, d);
    XorAssociates(a, b, Xor(c, d));
  }

  lemma StepLinear(a: bv32, b: bv32)
    ensures Step(Xor(a, b)) == Xor(Step(a), Step(b))
  {
    hide Xor, Half, Odd;
    HalfLinear(a, b);
    var p := if Odd(a) then REFLECTED_POLYNOMIAL else 0;
    var q := if Odd(b) then REFLECTED_POLYNOMIAL else 0;
    XorSwaps(Half(a), Half(b), p, q);
    XorSelf(REFLECTED_POLYNOMIAL);
    XorSelf(0);
    XorCommutes(0, REFLECTED_POLYNOMIAL);
  }

  lemma StepInjective(a: bv32, b: bv32)
    requires Step(a) == Step(b)
    ensures a == b
  {
  }

  lemma ZeroSteps(s: bv32)
    ensures Xor(s, 0) == s && Step(0) == 0 && (Step(s) == 0 ==> s == 0)
  {
  }

  // ----- Two runs side by side -----

  function XorBits(a: seq<bool>, b: seq<bool>): (r: seq<bool>)
    requires |a| == |b|
    ensures |r| == |a|
  {
    seq(|a|, i requires 0 <= i < |a| => a[i] != b[i])
  }

  lemma XorBitsSplit(a: seq<bool>, b: seq<bool>)
    requires |a| == |b| > 0
    ensures XorBits(a, b)[0] == (a[0] != b[0]) && XorBits(a, b)[1..] == XorBits(a[1..], b[1..])
  {
  }

  lemma BitsLinear(a: bool, b: bool)
    ensures Xor(Bit(a), Bit(b)) == Bit(a != b)
  {
  }

  /** The difference of two runs is the run of the difference. */
  lemma {:induction false} RunLinear(s: bv32, t: bv32, a: seq<bool>, b: seq<bool>)
    requires |a| == |b|
    ensures Xor(Run(s, a), Run(t, b)) == Run(Xor(s, t), XorBits(a, b))
    decreases |a|
  {
    hide Xor, Step, Bit, XorBits;
    if a != [] {
      var x, y := Xor(s, Bit(a[0])), Xor(t, Bit(b[0]));
      RunLinear(Step(x), Step(y), a[1..], b[1..]);
      StepLinear(x, y);
      XorSwaps(s, t, Bit(a[0]), Bit(b[0]));
      BitsLinear(a[0], b[0]);
      XorBitsSplit(a, b);
    }
  }

  lemma {:induction false} RunConcat(s: bv32, a: seq<bool>, b: seq<bool>)
    ensures Run(s, a + b) == Run(Run(s, a), b)
    decreases |a|
  {
    hide Xor, Step, Bit;
    if a == [] {
      assert a + b == b;
    } else {
      assert (a + b)[1..] == a[1..] + b;
      RunConcat(Step(Xor(s, Bit(a[0]))), a[1..], b);
    }
  }

  predicate Zeros(bits: seq<bool>) {
    forall i :: 0 <= i < |bits| ==> !bits[i]
  }

  /** Equal bits neither create nor remove a difference. */
  lemma {:induction false} RunOfZeros(d: bv32, bits: seq<bool>)
    requires Zeros(bits)
    ensures Run(d, bits) == 0 <==> d == 0
    decreases |bits|
  {
    hide Xor, Step;
    if bits != [] {
      ZeroSteps(d);
      RunOfZeros(Step(d), bits[1..]);
    }
  }

  // ----- Bursts -----

  predicate AtLeast(d: bv32, power: bv32) {
    d >= power
  }

  /** `power` can be halved `n` times before it runs out. */
  predicate Halves(power: bv32, n: nat) {
    if n == 0 then power != 0 else !Odd(power) && AtLeast(TOP_BIT, power) && Halves(Half(power), n - 1)
  }

  lemma Doubles(power: bv32, n: nat)
    requires Halves(power, n) && AtLeast(0x40000000, power)
    ensures Halves(power << 1, n + 1)
  {
    hide Halves;
    assert Half(power << 1) == power && !Odd(power << 1) && AtLeast(TOP_BIT, power << 1);
    HalvesMore(power << 1, power, n);
  }

  lemma HalvesMore(whole: bv32, half: bv32, n: nat)
    requires Half(whole) == half && !Odd(whole) && AtLeast(TOP_BIT, whole) && Halves(half, n)
    ensures Halves(whole, n + 1)
  {
    hide Half, Odd, AtLeast;
  }

  lemma TopBitHalves()
    ensures Halves(TOP_BIT, 31)
  {
    Doubles(0x1, 0); Doubles(0x2, 1); Doubles(0x4, 2); Doubles(0x8, 3);
    Doubles(0x10, 4); Doubles(0x20, 5); Doubles(0x40, 6); Doubles(0x80, 7);
    Doubles(0x100, 8); Doubles(0x200, 9); Doubles(0x400, 10); Doubles(0x800, 11);
    Doubles(0x1000, 12); Doubles(0x2000, 13); Doubles(0x4000, 14); Doubles(0x8000, 15);
    Doubles(0x10000, 16); Doubles(0x20000, 17); Doubles(0x40000, 18); Doubles(0x80000, 19);
    Doubles(0x100000, 20); Doubles(0x200000, 21); Doubles(0x400000, 22); Doubles(0x800000, 23);
    Doubles(0x1000000, 24); Doubles(0x2000000, 25); Doubles(0x4000000, 26); Doubles(0x8000000, 27);
    Doubles(0x10000000, 28); Doubles(0x20000000, 29); Doubles(0x40000000, 30);
  }

  lemma BitKeeps(d: bv32, power: bv32, b: bool)
    requires AtLeast(d, power) && !Odd(power) && AtLeast(TOP_BIT, power)
    ensures AtLeast(Step(Xor(d, Bit(b))), Half(power))
  {
  }

  /** A difference that can be halved once per bit outlives the bits, whatever they are. */
  lemma {:induction false} RunKeeps(d: bv32, power: bv32, n: nat, bits: seq<bool>)
    requires |bits| <= n && AtLeast(d, power) && Halves(power, n)
    ensures Run(d, bits) != 0
    decreases n
  {
    hide Xor, Step, Bit, Half, Odd, AtLeast;
    if bits != [] {
      BitKeeps(d, power, bits[0]);
      RunKeeps(Step(Xor(d, Bit(bits[0]))), Half(power), n - 1, bits[1..]);
    } else {
      HalvesNotZero(power, n);
      AboveZero(d, power);
    }
  }

  lemma {:induction false} HalvesNotZero(power: bv32, n: nat)
    requires Halves(power, n)
    ensures power != 0
    decreases n
  {
    hide AtLeast, Odd, Half;
    if n > 0 {
      HalvesNotZero(Half(power), n - 1);
      HalfOfZero();
    }
  }

  lemma HalfOfZero()
    ensures Half(0) == 0
  {
  }

  lemma AboveZero(d: bv32, power: bv32)
    requires AtLeast(d, power) && power != 0
    ensures d != 0
  {
  }

  lemma FirstError()
    ensures AtLeast(Step(Xor(0, Bit(true))), TOP_BIT)
  {
  }

  /** From equal states, an error pattern that starts with an error and is at most 32 bits long leaves a difference. */
  lemma BurstLeavesDifference(bits: seq<bool>)
    requires 1 <= |bits| <= 32 && bits[0]
    ensures Run(0, bits) != 0
  {
    hide Xor, Step, Bit, AtLeast, Halves;
    FirstError();
    TopBitHalves();
    RunKeeps(Step(Xor(0, Bit(true))), TOP_BIT, 31, bits[1..]);
  }

  /** Two messages of equal length whose differing bits all lie within 32 consecutive bits. */
  ghost predicate BurstError(a: seq<bool>, b: seq<bool>, first: nat, end: nat) {
    && |a| == |b| && first < end <= |a| && end - first <= 32 && a[first] != b[first]
    && forall i :: 0 <= i < |a| && (i < first || end <= i) ==> a[i] == b[i]
  }

  lemma SplitError(e: seq<bool>, first: nat, end: nat)
    requires first < end <= |e|
    ensures e == e[..first] + (e[first..end] + e[end..])
  {
  }

  /** Every burst of at most 32 bits changes the checksum. */
  lemma BurstDetected(a: seq<bool>, b: seq<bool>, first: nat, end: nat)
    requires BurstError(a, b, first, end)
    ensures Checksum(a) != Checksum(b)
  {
    hide Run, Xor;
    var e := XorBits(a, b);
    SplitError(e, first, end);
    RunConcat(0, e[..first], e[first..end] + e[end..]);
    RunOfZeros(0, e[..first]);
    RunConcat(0, e[first..end], e[end..]);
    BurstLeavesDifference(e[first..end]);
    RunOfZeros(Run(0, e[first..end]), e[end..]);
    RunLinear(ALL_ONES, ALL_ONES, a, b);
    XorSelf(ALL_ONES);
    DifferentStates(Run(ALL_ONES, a), Run(ALL_ONES, b));
  }

  lemma DifferentStates(x: bv32, y: bv32)
    requires Xor(x, y) != 0
    ensures Xor(x, ALL_ONES) != Xor(y, ALL_ONES)
  {
  }

  // ----- Bytes -----

  /** A byte split into its lowest bit and the rest. */
  predicate Splits(whole: bv32, rest: bv32, b: bool) {
    whole == (rest << 1) | Bit(b) && rest <= 0x7fffffff
  }

  lemma SplitXor(whole: bv32, rest: bv32, b: bool)
    requires Splits(whole, rest, b)
    ensures whole == Xor(Bit(b), rest << 1) && Step(rest << 1) == rest
  {
  }

  /** Stepping past the lowest bit leaves the rest of the byte waiting in the state. */
  lemma WaitingBits(s: bv32, whole: bv32, rest: bv32, b: bool)
    requires Splits(whole, rest, b)
    ensures Step(Xor(s, whole)) == Xor(Step(Xor(s, Bit(b))), rest)
  {
    hide Xor, Step, Bit, Splits;
    SplitXor(whole, rest, b);
    XorAssociates(s, Bit(b), rest << 1);
    StepLinear(Xor(s, Bit(b)), rest << 1);
  }

  function Shifted(b: bv8, k: nat): bv32
    requires k <= 8
  {
    var w := b as bv32;
    match k
    case 0 => w
    case 1 => w >> 1
    case 2 => w >> 2
    case 3 => w >> 3
    case 4 => w >> 4
    case 5 => w >> 5
    case 6 => w >> 6
    case 7 => w >> 7
    case _ => 0
  }

  lemma LowSplits(b: bv8, k: nat)
    requires k < 4
    ensures Splits(Shifted(b, k), Shifted(b, k + 1), ByteBits(b)[k])
  {
  }

  lemma HighSplits(b: bv8, k: nat)
    requires 4 <= k < 8
    ensures Splits(Shifted(b, k), Shifted(b, k + 1), ByteBits(b)[k])
  {
  }

  lemma ByteSplits(b: bv8, k: nat)
    requires k < 8
    ensures Splits(Shifted(b, k), Shifted(b, k + 1), ByteBits(b)[k])
  {
    hide Splits, Shifted, ByteBits;
    if k < 4 {
      LowSplits(b, k);
    } else {
      HighSplits(b, k);
    }
  }

  /** The first `k` steps of a byte have read its first `k` bits. */
  function StepTimes(s: bv32, k: nat): bv32 {
    if k == 0 then s else Step(StepTimes(s, k - 1))
  }

  lemma {:induction false} BytePrefix(s: bv32, b: bv8, k: nat)
    requires k <= 8
    ensures StepTimes(Xor(s, Shifted(b, 0)), k) == Xor(Run(s, ByteBits(b)[..k]), Shifted(b, k))
    decreases k
  {
    hide Xor, Step, Bit, Shifted, ByteBits, Splits;
    var bits := ByteBits(b);
    if k > 0 {
      BytePrefix(s, b, k - 1);
      var before := Run(s, bits[..k - 1]);
      ByteSplits(b, k - 1);
      WaitingBits(before, Shifted(b, k - 1), Shifted(b, k), bits[k - 1]);
      RunSnoc(s, bits, k - 1);
    }
  }

  lemma RunSnoc(s: bv32, bits: seq<bool>, k: nat)
    requires k < |bits|
    ensures Run(s, bits[..k + 1]) == Step(Xor(Run(s, bits[..k]), Bit(bits[k])))
  {
    hide Xor, Step, Bit;
    assert bits[..k + 1] == bits[..k] + [bits[k]];
    RunConcat(s, bits[..k], [bits[k]]);
    var t := Run(s, bits[..k]);
    assert Run(Step(Xor(t, Bit(bits[k]))), []) == Step(Xor(t, Bit(bits[k])));
  }

  /** Adding a byte to the state and stepping eight times reads its bits one by one. */
  lemma ByteIsEightBits(s: bv32, b: bv8)
    ensures StepTimes(Xor(s, b as bv32), 8) == Run(s, ByteBits(b))
  {
    hide Xor, Step, Run, ByteBits, StepTimes;
    BytePrefix(s, b, 8);
    XorSelf(Run(s, ByteBits(b)));
    assert ByteBits(b)[..8] == ByteBits(b);
  }

  method Crc32c(bytes: seq<bv8>) returns (crc: bv32)
    ensures crc == Checksum(Bits(bytes))
  {
    hide Run, Xor, Half, Odd, ByteBits;
    var state := ALL_ONES;
    for i := 0 to |bytes|
      invariant Run(state, Bits(bytes[i..])) == Run(ALL_ONES, Bits(bytes))
    {
      ghost var before := state;
      state := Xor(state, bytes[i] as bv32);
      for bit := 0 to 8
        invariant state == StepTimes(Xor(before, bytes[i] as bv32), bit)
      {
        state := Xor(Half(state), if Odd(state) then REFLECTED_POLYNOMIAL else 0);
      }
      ByteIsEightBits(before, bytes[i]);
      assert bytes[i..][1..] == bytes[i + 1..];
      RunConcat(before, ByteBits(bytes[i]), Bits(bytes[i + 1..]));
    }
    RunNothing(state);
    crc := Xor(state, ALL_ONES);
  }

  lemma RunNothing(s: bv32)
    ensures Run(s, []) == s
  {
  }

  // ----- Messages of bytes -----

  lemma {:induction false} BitAt(bytes: seq<bv8>, i: nat)
    requires i < 8 * |bytes|
    ensures Bits(bytes)[i] == ByteBits(bytes[i / 8])[i % 8]
    decreases |bytes|
  {
    hide ByteBits;
    if i >= 8 {
      BitAt(bytes[1..], i - 8);
    }
  }

  lemma SameBits(a: bv8, b: bv8)
    requires (a & 1 != 0) == (b & 1 != 0) && (a & 2 != 0) == (b & 2 != 0)
    requires (a & 4 != 0) == (b & 4 != 0) && (a & 8 != 0) == (b & 8 != 0)
    requires (a & 16 != 0) == (b & 16 != 0) && (a & 32 != 0) == (b & 32 != 0)
    requires (a & 64 != 0) == (b & 64 != 0) && (a & 128 != 0) == (b & 128 != 0)
    ensures a == b
  {
  }

  lemma ByteBitsInjective(a: bv8, b: bv8)
    requires ByteBits(a) == ByteBits(b)
    ensures a == b
  {
    var x, y := ByteBits(a), ByteBits(b);
    assert x[0] == y[0] && x[1] == y[1] && x[2] == y[2] && x[3] == y[3];
    assert x[4] == y[4] && x[5] == y[5] && x[6] == y[6] && x[7] == y[7];
    SameBits(a, b);
  }

  lemma DifferentBytes(a: bv8, b: bv8) returns (k: nat)
    requires a != b
    ensures k < 8 && ByteBits(a)[k] != ByteBits(b)[k]
  {
    hide ByteBits;
    if ByteBits(a) == ByteBits(b) {
      ByteBitsInjective(a, b);
    }
    k :| k < 8 && ByteBits(a)[k] != ByteBits(b)[k];
  }

  /** Messages of equal length that differ, and only within four consecutive bytes, have different checksums. */
  lemma FourByteErrorDetected(a: seq<bv8>, b: seq<bv8>, start: nat)
    requires |a| == |b| && a != b
    requires forall i :: 0 <= i < |a| && (i < start || start + 4 <= i) ==> a[i] == b[i]
    ensures Checksum(Bits(a)) != Checksum(Bits(b))
  {
    hide Checksum, ByteBits, Bits;
    var x, y := Bits(a), Bits(b);
    var end := if start + 4 <= |a| then start + 4 else |a|;
    forall i | 0 <= i < |x| && (i < 8 * start || 8 * end <= i)
      ensures x[i] == y[i]
    {
      BitAt(a, i);
      BitAt(b, i);
    }
    var at :| 0 <= at < |a| && a[at] != b[at];
    var k := DifferentBytes(a[at], b[at]);
    BitAt(a, 8 * at + k);
    BitAt(b, 8 * at + k);
    var first := FirstDifference(x, y, 8 * at + k);
    BurstDetected(x, y, first, 8 * end);
  }

  lemma FirstDifference(x: seq<bool>, y: seq<bool>, known: nat) returns (first: nat)
    requires |x| == |y| && known < |x| && x[known] != y[known]
    ensures first <= known && x[first] != y[first] && forall i :: 0 <= i < first ==> x[i] == y[i]
  {
    first := 0;
    while x[first] == y[first]
      invariant first <= known && forall i :: 0 <= i < first ==> x[i] == y[i]
      decreases known - first
    {
      first := first + 1;
    }
  }

  // ----- The polynomial and the published check value -----

  /** The powers of x in the Castagnoli polynomial below x^32. */
  const EXPONENTS: set<nat> := {28, 27, 26, 25, 23, 22, 20, 19, 18, 14, 13, 11, 10, 9, 8, 6, 0}

  function Shift(s: bv32, k: nat): bv32 {
    if k == 0 then s else Shift(Half(s), k - 1)
  }

  /** The state as a polynomial: its lowest bit is the coefficient of x^31, its highest that of 1. */
  predicate Coefficient(s: bv32, e: nat)
    requires e < 32
  {
    Odd(Shift(s, 31 - e))
  }

  lemma NoShift(s: bv32)
    ensures Shift(s, 0) == s
  {}

  lemma {:induction false} ShiftMore(s: bv32, k: nat)
    ensures Shift(s, k + 1) == Half(Shift(s, k))
    decreases k
  {
    hide Half;
    if k > 0 { ShiftMore(Half(s), k - 1); }
  }

  lemma {:induction false} ShiftLinear(a: bv32, b: bv32, k: nat)
    ensures Shift(Xor(a, b), k) == Xor(Shift(a, k), Shift(b, k))
    decreases k
  {
    hide Half, Xor, Odd;
    if k > 0 {
      HalfLinear(a, b);
      ShiftLinear(Half(a), Half(b), k - 1);
    }
  }

  lemma {:induction false} ShiftOfZero(k: nat)
    ensures Shift(0, k) == 0
  {
    hide Half;
    if k > 0 {
      HalfOfZero();
      ShiftOfZero(k - 1);
    }
  }

  lemma {:induction false} ShiftAdd(s: bv32, a: nat, b: nat)
    ensures Shift(s, a + b) == Shift(Shift(s, a), b)
    decreases a
  {
    hide Half;
    if a > 0 { ShiftAdd(Half(s), a - 1, b); }
  }

  lemma ShiftBy7(s: bv32)
    ensures Shift(s, 7) == s >> 7
  {
    var a := Half(Half(s));
    var b := Half(Half(a));
    var c := Half(Half(b));
    assert Shift(s, 7) == Shift(a, 5) == Shift(b, 3) == Shift(c, 1);
    assert Shift(c, 1) == Shift(Half(c), 0) == Half(c);
    assert Half(c) == s >> 7;
  }

  lemma ShiftBy8(s: bv32)
    ensures Shift(s, 8) == s >> 8
  {
    ShiftBy7(Half(s));
  }

  /** A state without its highest bit is gone after 31 shifts. */
  lemma TopGone(s: bv32)
    requires !AtLeast(s, TOP_BIT)
    ensures Shift(s, 31) == 0
  {
    var a := s >> 8;
    var b := a >> 8;
    var c := b >> 8;
    ShiftBy8(s);
    ShiftBy8(a);
    ShiftBy8(b);
    ShiftBy7(c);
    ShiftAdd(s, 8, 23);
    ShiftAdd(a, 8, 15);
    ShiftAdd(b, 8, 7);
    assert c >> 7 == 0;
  }

  lemma HalfHasNoTop(s: bv32)
    ensures !AtLeast(Half(s), TOP_BIT)
  {}

  lemma PolynomialBit(k: nat, now: bv32, next: bv32)
    requires Shift(REFLECTED_POLYNOMIAL, k) == now && Half(now) == next
    ensures Shift(REFLECTED_POLYNOMIAL, k + 1) == next && (Odd(Shift(REFLECTED_POLYNOMIAL, k)) <==> Odd(now))
  {
    hide Half, Shift, Odd;
    ShiftMore(REFLECTED_POLYNOMIAL, k);
  }

  lemma FirstBits()
    ensures forall k :: 0 <= k < 8 ==> (Odd(Shift(REFLECTED_POLYNOMIAL, k)) <==> 31 - k in EXPONENTS)
    ensures Shift(REFLECTED_POLYNOMIAL, 8) == 0x82f63b
  {
    hide Shift;
    NoShift(REFLECTED_POLYNOMIAL);
    PolynomialBit(0, 0x82f63b78, 0x417b1dbc);
    PolynomialBit(1, 0x417b1dbc, 0x20bd8ede);
    PolynomialBit(2, 0x20bd8ede, 0x105ec76f);
    PolynomialBit(3, 0x105ec76f, 0x82f63b7);
    PolynomialBit(4, 0x82f63b7, 0x417b1db);
    PolynomialBit(5, 0x417b1db, 0x20bd8ed);
    PolynomialBit(6, 0x20bd8ed, 0x105ec76);
    PolynomialBit(7, 0x105ec76, 0x82f63b);
  }

  lemma SecondBits()
    requires Shift(REFLECTED_POLYNOMIAL, 8) == 0x82f63b
    ensures forall k :: 8 <= k < 16 ==> (Odd(Shift(REFLECTED_POLYNOMIAL, k)) <==> 31 - k in EXPONENTS)
    ensures Shift(REFLECTED_POLYNOMIAL, 16) == 0x82f6
  {
    hide Shift;
    PolynomialBit(8, 0x82f63b, 0x417b1d);
    PolynomialBit(9, 0x417b1d, 0x20bd8e);
    PolynomialBit(10, 0x20bd8e, 0x105ec7);
    PolynomialBit(11, 0x105ec7, 0x82f63);
    PolynomialBit(12, 0x82f63, 0x417b1);
    PolynomialBit(13, 0x417b1, 0x20bd8);
    PolynomialBit(14, 0x20bd8, 0x105ec);
    PolynomialBit(15, 0x105ec, 0x82f6);
  }

  lemma ThirdBits()
    requires Shift(REFLECTED_POLYNOMIAL, 16) == 0x82f6
    ensures forall k :: 16 <= k < 24 ==> (Odd(Shift(REFLECTED_POLYNOMIAL, k)) <==> 31 - k in EXPONENTS)
    ensures Shift(REFLECTED_POLYNOMIAL, 24) == 0x82
  {
    hide Shift;
    PolynomialBit(16, 0x82f6, 0x417b);
    PolynomialBit(17, 0x417b, 0x20bd);
    PolynomialBit(18, 0x20bd, 0x105e);
    PolynomialBit(19, 0x105e, 0x82f);
    PolynomialBit(20, 0x82f, 0x417);
    PolynomialBit(21, 0x417, 0x20b);
    PolynomialBit(22, 0x20b, 0x105);
    PolynomialBit(23, 0x105, 0x82);
  }

  lemma LastBits()
    requires Shift(REFLECTED_POLYNOMIAL, 24) == 0x82
    ensures forall k :: 24 <= k < 32 ==> (Odd(Shift(REFLECTED_POLYNOMIAL, k)) <==> 31 - k in EXPONENTS)
  {
    hide Shift;
    PolynomialBit(24, 0x82, 0x41);
    PolynomialBit(25, 0x41, 0x20);
    PolynomialBit(26, 0x20, 0x10);
    PolynomialBit(27, 0x10, 0x8);
    PolynomialBit(28, 0x8, 0x4);
    PolynomialBit(29, 0x4, 0x2);
    PolynomialBit(30, 0x2, 0x1);
    PolynomialBit(31, 0x1, 0x0);
  }

  lemma PolynomialAt(k: nat)
    requires k < 32
    ensures Odd(Shift(REFLECTED_POLYNOMIAL, k)) <==> 31 - k in EXPONENTS
  {
    hide Shift, Odd, EXPONENTS;
    FirstBits();
    SecondBits();
    ThirdBits();
    LastBits();
  }

  /** One step multiplies the state by x and reduces it by the polynomial with these exponents. */
  lemma StepTimesX(s: bv32, e: nat)
    requires e < 32
    ensures Coefficient(Step(s), e) <==> (e > 0 && Coefficient(s, e - 1)) != (Coefficient(s, 31) && e in EXPONENTS)
  {
    hide Xor, Half, Odd;
    var k := 31 - e;
    var p := if Odd(s) then REFLECTED_POLYNOMIAL else 0;
    ShiftLinear(Half(s), p, k);
    HalfLinear(Shift(Half(s), k), Shift(p, k));
    PolynomialAt(k);
    ShiftOfZero(k);
    ZeroIsEven();
    assert Shift(s, k + 1) == Shift(Half(s), k);
    if e == 0 {
      HalfHasNoTop(s);
      TopGone(Half(s));
    }
  }

  lemma ZeroIsEven()
    ensures !Odd(0)
  {}

  /** The digits 1 to 9 in ASCII. */
  const CHECK_INPUT: seq<bv8> := [0x31, 0x32, 0x33, 0x34, 0x35, 0x36, 0x37, 0x38, 0x39]

  function EightSteps(s: bv32): bv32 {
    Step(Step(Step(Step(Step(Step(Step(Step(s))))))))
  }

  lemma ReadsByte(s: bv32, b: bv8, t: bv32, bytes: seq<bv8>)
    requires bytes != [] && bytes[0] == b && EightSteps(Xor(s, b as bv32)) == t
    ensures Run(s, Bits(bytes)) == Run(t, Bits(bytes[1..]))
  {
    hide Run, Xor, Step, ByteBits;
    EightStepTimes(Xor(s, b as bv32));
    ByteIsEightBits(s, b);
    RunConcat(s, ByteBits(b), Bits(bytes[1..]));
  }

  lemma EightStepTimes(s: bv32)
    ensures StepTimes(s, 8) == EightSteps(s)
  {
    hide Step;
    assert StepTimes(s, 0) == s && StepTimes(s, 1) == Step(StepTimes(s, 0));
    assert StepTimes(s, 2) == Step(StepTimes(s, 1)) && StepTimes(s, 3) == Step(StepTimes(s, 2));
    assert StepTimes(s, 4) == Step(StepTimes(s, 3)) && StepTimes(s, 5) == Step(StepTimes(s, 4));
    assert StepTimes(s, 6) == Step(StepTimes(s, 5)) && StepTimes(s, 7) == Step(StepTimes(s, 6));
  }

  /** The check value that catalogues of checksums give for CRC-32C. */
  lemma CheckValue()
    ensures Checksum(Bits(CHECK_INPUT)) == 0xe3069283
  {
    hide Run, Bits;
    ReadsByte(0xffffffff, 0x31, 0x6f0a661c, CHECK_INPUT[0..]);
    ReadsByte(0x6f0a661c, 0x32, 0x8caa3b9f, CHECK_INPUT[1..]);
    ReadsByte(0x8caa3b9f, 0x33, 0xef84d04d, CHECK_INPUT[2..]);
    ReadsByte(0xef84d04d, 0x34, 0x9c50b11, CHECK_INPUT[3..]);
    ReadsByte(0x9c50b11, 0x35, 0xe72edcca, CHECK_INPUT[4..]);
    ReadsByte(0xe72edcca, 0x36, 0xbeca8e79, CHECK_INPUT[5..]);
    ReadsByte(0xbeca8e79, 0x37, 0xedbd6815, CHECK_INPUT[6..]);
    ReadsByte(0xedbd6815, 0x38, 0x9f787f65, CHECK_INPUT[7..]);
    ReadsByte(0x9f787f65, 0x39, 0x1cf96d7c, CHECK_INPUT[8..]);
    RunNothing(0x1cf96d7c);
    assert CHECK_INPUT[9..] == [] && CHECK_INPUT[0..] == CHECK_INPUT;
  }
}
