/**
 * `hash_combine` (src/matrix/hash_combine.hpp) over `uint64_t`. A value is
 * an integer below 2^64; multiplication wraps modulo 2^64, `>>` is division
 * by a power of two and `^` is the bitwise exclusive or, defined bit by bit.
 * Alongside the mixer sits its inverse in the second argument, so that two
 * different second arguments never give the same hash for one first argument.
 */
module Hashing {

  const Modulus: int := 0x1_0000_0000_0000_0000

  /** `std::uint64_t` */
  type U64 = x: int | 0 <= x < Modulus

  /** The multiplier of both mixing steps. */
  const Factor: U64 := 0x9ddf_ea08_eb38_2d69

  /** The multiplier that undoes `Factor` modulo 2^64. */
  const FactorInverse: U64 := 0xdc56_e6f5_090b_32d9

  function Pow2(n: nat): (r: nat)
    ensures r > 0
  {
    if n == 0 then 1 else 2 * Pow2(n - 1)
  }

  /** `a >> n`: the value halved `n` times, the low bits dropped. */
  function Shr(a: nat, n: nat): (r: nat)
    ensures r <= a
  {
    if n == 0 then a else Shr(a / 2, n - 1)
  }

  /** Bitwise exclusive or of two non-negative integers. */
  function Xor(a: nat, b: nat): nat
    decreases a + b
  {
    if a == 0 && b == 0 then 0 else 2 * Xor(a / 2, b / 2) + (if a % 2 == b % 2 then 0 else 1)
  }

  /** `a * b` on `uint64_t`: the product wraps modulo 2^64. */
  function Mul(a: U64, b: U64): U64 {
    (a * b) % Modulus
  }

  // --- powers of two -------------------------------------------------------

  lemma {:induction false} PowAdd(m: nat, n: nat)
    ensures Pow2(m + n) == Pow2(m) * Pow2(n)
    decreases m
  {
    if m > 0 {
      PowAdd(m - 1, n);
    }
  }

  lemma Pow16()
    ensures Pow2(16) == 0x1_0000
  {
    assert Pow2(2) == 4;
    PowAdd(2, 2);
    PowAdd(4, 4);
    PowAdd(8, 8);
  }

  lemma Pow64()
    ensures Pow2(64) == Modulus
  {
    Pow16();
    PowAdd(16, 16);
    assert Pow2(32) == 0x1_0000_0000;
    PowAdd(32, 32);
  }

  lemma {:induction false} ShrBelow(a: nat, n: nat)
    requires a < Pow2(n)
    ensures Shr(a, n) == 0
    decreases n
  {
    if n > 0 {
      ShrBelow(a / 2, n - 1);
    }
  }

  lemma {:induction false} ShrAdd(a: nat, m: nat, n: nat)
    ensures Shr(Shr(a, m), n) == Shr(a, m + n)
    decreases m
  {
    if m > 0 {
      ShrAdd(a / 2, m - 1, n);
    }
  }

  // --- exclusive or --------------------------------------------------------

  lemma XorUnfold(a: nat, b: nat)
    ensures Xor(a, b) == 2 * Xor(a / 2, b / 2) + (if a % 2 == b % 2 then 0 else 1)
  {
  }

  lemma {:induction false} XorBound(a: nat, b: nat, n: nat)
    requires a < Pow2(n) && b < Pow2(n)
    ensures Xor(a, b) < Pow2(n)
    decreases n
  {
    if n > 0 && !(a == 0 && b == 0) {
      XorBound(a / 2, b / 2, n - 1);
    }
  }

  lemma XorInRange(a: U64, b: U64)
    ensures Xor(a, b) < Modulus
  {
    Pow64();
    XorBound(a, b, 64);
  }

  lemma {:induction false} XorZero(a: nat)
    ensures Xor(a, 0) == a
    decreases a
  {
    if a != 0 {
      XorZero(a / 2);
    }
  }

  lemma {:induction false} XorSelf(a: nat)
    ensures Xor(a, a) == 0
    decreases a
  {
    if a != 0 {
      XorSelf(a / 2);
    }
  }

  lemma {:induction false} XorCommutes(a: nat, b: nat)
    ensures Xor(a, b) == Xor(b, a)
    decreases a + b
  {
    if !(a == 0 && b == 0) {
      XorCommutes(a / 2, b / 2);
    }
  }

  lemma {:induction false} XorAssociates(a: nat, b: nat, c: nat)
    ensures Xor(Xor(a, b), c) == Xor(a, Xor(b, c))
    decreases a + b + c
  {
    if !(a == 0 && b == 0 && c == 0) {
      var ab, bc := Xor(a, b), Xor(b, c);
      XorUnfold(a, b);
      XorUnfold(b, c);
      Halves(ab, Xor(a / 2, b / 2), if a % 2 == b % 2 then 0 else 1);
      Halves(bc, Xor(b / 2, c / 2), if b % 2 == c % 2 then 0 else 1);
      XorUnfold(ab, c);
      XorUnfold(a, bc);
      XorAssociates(a / 2, b / 2, c / 2);
    }
  }

  lemma Halves(n: int, q: int, bit: int)
    requires n == 2 * q + bit && 0 <= bit < 2
    ensures n / 2 == q && n % 2 == bit
  {
  }

  /** Xor-ing twice with the same value gives back the first. */
  lemma XorCancels(a: nat, b: nat)
    ensures Xor(Xor(a, b), b) == a
  {
    XorAssociates(a, b, b);
    XorSelf(b);
    XorZero(a);
  }

  /** Shifting distributes over exclusive or. */
  lemma {:induction false} XorShifts(a: nat, b: nat, n: nat)
    ensures Shr(Xor(a, b), n) == Xor(Shr(a, n), Shr(b, n))
    decreases n
  {
    if n > 0 {
      XorUnfold(a, b);
      assert Xor(a, b) / 2 == Xor(a / 2, b / 2);
      XorShifts(a / 2, b / 2, n - 1);
    }
  }

  // --- the mixing steps ----------------------------------------------------

  /** `a ^= a >> 47` */
  function Mix(a: U64): U64 {
    XorInRange(a, Shr(a, 47));
    Xor(a, Shr(a, 47))
  }

  /** The step is its own inverse: the bits it flips come from the top 17 bits, which it leaves alone. */
  lemma MixInvolution(a: U64)
    ensures Mix(Mix(a)) == a
  {
    var s := Shr(a, 47);
    XorShifts(a, s, 47);
    ShrAdd(a, 47, 47);
    Pow64();
    PowAdd(64, 30);
    ShrBelow(a, 94);
    XorZero(s);
    XorCancels(a, s);
  }

  lemma ModOfMultiple(t: int, s: int)
    ensures (t * Modulus + s) % Modulus == s % Modulus
  {
  }

  /** Multiplying by `FactorInverse` undoes multiplying by `Factor`. */
  lemma MulUndone(v: U64)
    ensures Mul(Mul(v, Factor), FactorInverse) == v
  {
    var x := v * Factor;
    var q, m := x / Modulus, x % Modulus;
    assert x == q * Modulus + m;
    var k := (Factor * FactorInverse) / Modulus;
    assert Factor * FactorInverse == k * Modulus + 1;
    calc {
      x * FactorInverse;
      v * (Factor * FactorInverse);
      v * (k * Modulus + 1);
      (v * k) * Modulus + v;
    }
    calc {
      m * FactorInverse;
      (x - q * Modulus) * FactorInverse;
      x * FactorInverse - (q * FactorInverse) * Modulus;
      (v * k - q * FactorInverse) * Modulus + v;
    }
    ModOfMultiple(v * k - q * FactorInverse, v);
  }

  // --- hash_combine --------------------------------------------------------

  /** `hash_combine(x, y)` */
  function HashCombine(x: U64, y: U64): U64 {
    XorInRange(y, x);
    var a := Mix(Mul(Xor(y, x), Factor));
    XorInRange(x, a);
    var b := Mix(Mul(Xor(x, a), Factor));
    Mul(b, Factor)
  }

  /** The second argument recovered from the first and the hash: the steps of `HashCombine` undone in reverse order. */
  function Unmix(x: U64, h: U64): U64 {
    var b := Mix(Mul(h, FactorInverse));
    XorInRange(Mul(b, FactorInverse), x);
    var a := Mix(Xor(Mul(b, FactorInverse), x));
    XorInRange(Mul(a, FactorInverse), x);
    Xor(Mul(a, FactorInverse), x)
  }

  /** For a fixed first argument every step can be undone, so the mixer can be run backwards. */
  lemma HashCombineInverse(x: U64, y: U64)
    ensures Unmix(x, HashCombine(x, y)) == y
  {
    XorInRange(y, x);
    var a0 := Mul(Xor(y, x), Factor);
    var a := Mix(a0);
    XorInRange(x, a);
    var b0 := Mul(Xor(x, a), Factor);
    var b := Mix(b0);
    assert HashCombine(x, y) == Mul(b, Factor);
    MulUndone(b);
    MixInvolution(b0);
    MulUndone(Xor(x, a));
    XorCommutes(x, a);
    XorCancels(a, x);
    MixInvolution(a0);
    MulUndone(Xor(y, x));
    XorCancels(y, x);
    assert Unmix(x, Mul(b, Factor)) == y;
  }

  /** Different second arguments never collide under the same first argument. */
  lemma HashCombineInjective(x: U64, y1: U64, y2: U64)
    requires y1 != y2
    ensures HashCombine(x, y1) != HashCombine(x, y2)
  {
    HashCombineInverse(x, y1);
    HashCombineInverse(x, y2);
  }
}
