/** Unsigned 64-bit words as natural numbers below 2^64, with the bitwise operators
    the C++ code applies to them defined digit by digit. */
module Bits {

  const U64: nat := 0x1_0000_0000_0000_0000

  function Pow2(k: nat): (p: nat)
    ensures p >= 1
  {
    if k == 0 then 1 else 2 * Pow2(k - 1)
  }

  /** Bitwise and. */
  function And(x: nat, y: nat): nat {
    if x == 0 || y == 0 then 0 else (x % 2) * (y % 2) + 2 * And(x / 2, y / 2)
  }

  /** Bitwise exclusive or. */
  function Xor(x: nat, y: nat): nat
    decreases x + y
  {
    if x == 0 then y
    else if y == 0 then x
    else (x % 2 + y % 2) % 2 + 2 * Xor(x / 2, y / 2)
  }

  ghost predicate PowerOfTwo(a: nat) {
    exists k: nat :: a == Pow2(k)
  }

  lemma {:induction false} AndSelf(x: nat)
    ensures And(x, x) == x
  {
    if x != 0 {
      AndSelf(x / 2);
      assert (x % 2) * (x % 2) == x % 2 by {
        if x % 2 == 0 {} else { assert x % 2 == 1; }
      }
    }
  }

  lemma {:induction false} HalfOfPower(a: nat)
    requires a > 0 && a % 2 == 0
    ensures PowerOfTwo(a) <==> PowerOfTwo(a / 2)
  {
    if PowerOfTwo(a) {
      var k: nat :| a == Pow2(k);
      assert a / 2 == Pow2(k - 1);
    }
    if PowerOfTwo(a / 2) {
      var k: nat :| a / 2 == Pow2(k);
      assert a == Pow2(k + 1);
    }
  }

  /** The test `(a & (a - 1)) == 0` recognises exactly the powers of two. */
  lemma {:induction false} PowerOfTwoTest(a: nat)
    requires a > 0
    ensures And(a, a - 1) == 0 <==> PowerOfTwo(a)
  {
    if a == 1 {
      assert a == Pow2(0);
    } else if a % 2 == 0 {
      PowerOfTwoTest(a / 2);
      HalfOfPower(a);
      assert (a - 1) / 2 == a / 2 - 1;
    } else {
      AndSelf(a / 2);
      assert (a - 1) / 2 == a / 2;
      assert And(a, a - 1) == 2 * And(a / 2, a / 2);
      forall k: nat ensures a != Pow2(k) {}
    }
  }

  lemma {:induction false} ModHalves(x: nat, a: nat)
    requires a > 0
    ensures x % (2 * a) == x % 2 + 2 * ((x / 2) % a)
  {
    var q, r := (x / 2) / a, (x / 2) % a;
    assert x / 2 == q * a + r;
    assert x == q * (2 * a) + (2 * r + x % 2);
    DivModUnique(x, 2 * a, q, 2 * r + x % 2);
  }

  lemma Distributes(x: int, y: int, z: int)
    ensures (x + y) * z == x * z + y * z
  {}

  lemma MulMonotone(x: nat, y: nat, z: nat)
    requires x <= y
    ensures x * z <= y * z
  {
    Distributes(y - x, x, z);
    assert (y - x) * z >= 0;
  }

  lemma Regroups(x: int, y: int, z: int)
    ensures (x * y) * z == x * (y * z) && (x * y) * z == (x * z) * y
  {}

  lemma Divides(x: nat, d: nat)
    requires d > 0
    ensures x == (x / d) * d + x % d && 0 <= x % d < d
  {}

  lemma MulAtLeast(k: int, d: nat)
    ensures k >= 1 ==> k * d >= d
    ensures k <= -1 ==> k * d <= 0 - d
  {}

  lemma DivModUnique(x: nat, d: nat, q: nat, r: nat)
    requires d > 0 && r < d && x == q * d + r
    ensures x / d == q && x % d == r
  {
    Divides(x, d);
    var q', r' := x / d, x % d;
    Distributes(q - q', q', d);
    MulAtLeast(q - q', d);
  }

  /** Adding `d < k` to a number moves its remainder on by `d`, around the circle. */
  lemma ModShift(x: nat, d: nat, k: nat)
    requires d < k
    ensures (x + d) % k == if x % k + d < k then x % k + d else x % k + d - k
  {
    var q, m := x / k, x % k;
    if m + d < k {
      DivModUnique(x + d, k, q, m + d);
    } else {
      Distributes(q, 1, k);
      DivModUnique(x + d, k, q + 1, m + d - k);
    }
  }

  /** For a power of two `a`, masking with `~(a - 1)` in a `w`-bit word rounds down to a
      multiple of `a`. */
  lemma {:induction false} MaskRoundsDown(x: nat, k: nat, w: nat)
    requires k <= w && x < Pow2(w)
    ensures Pow2(k) <= Pow2(w)
    ensures And(x, Pow2(w) - Pow2(k)) == x - x % Pow2(k)
    decreases w
  {
    if k == 0 {
      AllOnes(x, w);
    } else {
      MaskRoundsDown(x / 2, k - 1, w - 1);
      ModHalves(x, Pow2(k - 1));
      var m := Pow2(w) - Pow2(k);
      assert m % 2 == 0 && m / 2 == Pow2(w - 1) - Pow2(k - 1);
      if x != 0 && m != 0 {
        assert (x % 2) * (m % 2) == 0;
      }
    }
  }

  lemma {:induction false} AllOnes(x: nat, w: nat)
    requires x < Pow2(w)
    ensures And(x, Pow2(w) - 1) == x
  {
    if x != 0 {
      AllOnes(x / 2, w - 1);
      var m := Pow2(w) - 1;
      assert m % 2 == 1 && m / 2 == Pow2(w - 1) - 1;
      assert (x % 2) * (m % 2) == x % 2;
    }
  }

  lemma {:induction false} XorDigits(x: nat, y: nat)
    ensures Xor(x, y) % 2 == (x % 2 + y % 2) % 2
    ensures Xor(x, y) / 2 == Xor(x / 2, y / 2)
  {
    if x != 0 && y != 0 {
      var bit, rest := (x % 2 + y % 2) % 2, Xor(x / 2, y / 2);
      assert Xor(x, y) == bit + 2 * rest;
      Halves(bit, rest);
    }
  }

  lemma Halves(bit: nat, rest: nat)
    requires bit < 2
    ensures (bit + 2 * rest) % 2 == bit && (bit + 2 * rest) / 2 == rest
  {}

  lemma {:induction false} XorCancels(x: nat, y: nat)
    ensures Xor(Xor(x, y), y) == x
    decreases x + y
  {
    if x == 0 {
      XorSelf(y);
    } else if y != 0 {
      XorCancels(x / 2, y / 2);
      var z := Xor(x, y);
      XorDigits(x, y);
      XorDigits(z, y);
      assert Xor(z, y) / 2 == x / 2;
      assert Xor(z, y) % 2 == x % 2;
    }
  }

  lemma {:induction false} XorSelf(x: nat)
    ensures Xor(x, x) == 0
  {
    if x != 0 { XorSelf(x / 2); }
  }

  lemma {:induction false} XorZero(x: nat, y: nat)
    requires Xor(x, y) == 0
    ensures x == y
    decreases x + y
  {
    if x != 0 && y != 0 { XorZero(x / 2, y / 2); }
  }

  lemma {:induction false} XorBound(x: nat, y: nat, w: nat)
    requires x < Pow2(w) && y < Pow2(w)
    ensures Xor(x, y) < Pow2(w)
    decreases w
  {
    if x != 0 && y != 0 { XorBound(x / 2, y / 2, w - 1); }
  }

  lemma Pow64()
    ensures Pow2(64) == U64
  {
    assert Pow2(4) == 16;
    Pow2Add(4, 4);
    Pow2Add(8, 8);
    Pow2Add(16, 16);
    Pow2Add(32, 32);
  }

  lemma {:induction false} Pow2Add(a: nat, b: nat)
    ensures Pow2(a + b) == Pow2(a) * Pow2(b)
  {
    if a != 0 {
      Pow2Add(a - 1, b);
      assert Pow2(a + b) == 2 * Pow2(a - 1 + b);
    }
  }

  lemma {:induction false} Pow2Grows(a: nat, b: nat)
    requires a <= b
    ensures a + Pow2(b) >= b + Pow2(a)
  {
    if a < b { Pow2Grows(a, b - 1); }
  }
}
