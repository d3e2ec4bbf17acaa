/** The overflow-checked 64-bit arithmetic of the segment layout (mino_shm_pipeline.cc,
    mino_shm_tcp_bridge.cc). */
module Arithmetic {
  import opened Bits
  import opened Payload

  type word = x: nat | x < 0x1_0000_0000_0000_0000

  const MAX32: nat := 0xFFFF_FFFF

  /** The least multiple of `a` that is not below `v`. */
  function Up(v: nat, a: nat): nat
    requires a > 0
  {
    if v % a == 0 then v else v - v % a + a
  }

  lemma UpIsLeast(v: nat, a: nat, m: nat)
    requires a > 0 && m % a == 0 && v <= m
    ensures v <= Up(v, a) <= m && Up(v, a) % a == 0 && Up(v, a) < v + a
  {
    Divides(v, a);
    Divides(m, a);
    var q, k := v / a, m / a;
    if v % a != 0 {
      MulAtLeast(k - q, a);
      Distributes(k - q, q, a);
      if k <= q { Distributes(q - k, k, a); }
      Distributes(q, 1, a);
      DivModUnique(v - v % a + a, a, q + 1, 0);
    }
  }

  lemma UpBounds(v: nat, a: nat)
    requires a > 0
    ensures v <= Up(v, a) < v + a && Up(v, a) % a == 0
  {
    Divides(v, a);
    if v % a != 0 {
      Distributes(v / a, 1, a);
      DivModUnique(v - v % a + a, a, v / a + 1, 0);
    }
  }

  function CheckedAdd(left: word, right: word): (r: Option<word>)
    ensures r == if left + right < U64 then Some(left + right) else None
  {
    if right > U64 - 1 - left then None else Some(left + right)
  }

  lemma ProductFits(left: nat, right: nat)
    requires left > 0
    ensures left * right < U64 <==> right <= (U64 - 1) / left
  {
    var q := (U64 - 1) / left;
    Divides(U64 - 1, left);
    Distributes(right - q, q, left);
    MulAtLeast(right - q, left);
    if right <= q { assert (right - q) * left <= 0; }
  }

  function CheckedMultiply(left: word, right: word): (r: Option<word>)
    ensures r == if left * right < U64 then Some(left * right) else None
  {
    if left != 0 then
      ProductFits(left, right);
      if right > (U64 - 1) / left then None else Some(left * right)
    else Some(0)
  }

  /** Adding `alignment - 1` and clearing the low bits is rounding up; it fails exactly when the alignment
      is not a power of two or the addition would wrap. */
  function CheckedAlignUp(value: word, alignment: word): (r: Option<word>)
    ensures r == if PowerOfTwo(alignment) && value + alignment - 1 < U64 then Some(Up(value, alignment)) else None
  {
    if alignment == 0 then
      NoZeroPower();
      None
    else
      PowerOfTwoTest(alignment);
      if And(alignment, alignment - 1) != 0 then None
      else
        var padded := CheckedAdd(value, alignment - 1);
        if padded.None? then None
        else
          RoundUp(value, alignment);
          Some(And(padded.value, U64 - alignment))
  }

  lemma NoZeroPower()
    ensures !PowerOfTwo(0)
  {}

  lemma PaddedDown(v: nat, a: nat)
    requires a > 0
    ensures v + a - 1 - (v + a - 1) % a == Up(v, a)
  {
    Divides(v, a);
    var q, r := v / a, v % a;
    if r == 0 {
      DivModUnique(v + a - 1, a, q, a - 1);
    } else {
      Distributes(q, 1, a);
      DivModUnique(v + a - 1, a, q + 1, r - 1);
    }
  }

  lemma RoundUp(v: nat, a: nat)
    requires PowerOfTwo(a) && 0 < a && v + a - 1 < U64
    ensures a <= U64 && And(v + a - 1, U64 - a) == Up(v, a) && Up(v, a) < U64
  {
    var k: nat :| a == Pow2(k);
    Pow64();
    if k > 64 { Pow2Grows(64, k); }
    MaskRoundsDown(v + a - 1, k, 64);
    PaddedDown(v, a);
  }

  /** Powers of two from 64 on are multiples of 64. */
  lemma CacheLineDivides(a: nat)
    requires PowerOfTwo(a) && a >= 64
    ensures a % 64 == 0
  {
    var k: nat :| a == Pow2(k);
    assert Pow2(6) == 64;
    if k < 6 {
      Pow2Grows(k, 6);
    } else {
      Pow2Add(6, k - 6);
      DivModUnique(a, 64, Pow2(k - 6), 0);
    }
  }

  lemma MultipleOfMultiple(x: nat, a: nat)
    requires a > 0 && a % 64 == 0 && x % a == 0
    ensures x % 64 == 0
  {
    Divides(x, a);
    Divides(a, 64);
    Regroups(x / a, a / 64, 64);
    DivModUnique(x, 64, x / a * (a / 64), 0);
  }

  /** When the padded value wraps, the rounded value does not fit either. */
  lemma AlignOverflows(v: nat, a: nat)
    requires PowerOfTwo(a) && 0 < a < U64 && v + a - 1 >= U64
    ensures Up(v, a) >= U64
  {
    var k: nat :| a == Pow2(k);
    Pow64();
    if k >= 64 {
      Pow2Grows(64, k);
    } else {
      var m := Pow2(64 - k);
      Pow2Add(64 - k, k);
      PaddedDown(v, a);
      var p := v + a - 1;
      Divides(p, a);
      Distributes(p / a - m, m, a);
      MulAtLeast(p / a - m, a);
      Distributes(m - p / a, p / a, a);
      MulAtLeast(m - p / a, a);
    }
  }

  /** Rounding up after two aligned parts changes nothing. */
  lemma UpOfSum(x: nat, y: nat)
    requires x % 64 == 0 && y % 64 == 0
    ensures Up(x + y, 64) == x + y && (x + y) % 64 == 0
  {}
}
