/** The integer side of JavaScript numbers, as the noise kernel uses it.

    A `Uint32Array` or `Uint8Array` slot stores the value of a number reduced
    modulo 2^32 or 2^8, and the bitwise operators `&`, `|` and `<<` work on the
    32-bit two's complement form of their operands.  Every operand the kernel
    hands to `&` or `|` is reduced first (or is a small non-negative integer),
    so the operators are defined here bit by bit on natural numbers, which keeps
    every proof in integer arithmetic. */
module JsInt {

  const Two32: nat := 0x1_0000_0000

  /** The values a `Uint32Array` slot can hold. */
  type uint32 = x: int | 0 <= x < 0x1_0000_0000

  /** The values a `Uint8Array` slot can hold. */
  type uint8 = x: int | 0 <= x < 256

  function Pow2(k: nat): (r: nat)
    ensures r >= 1
  {
    if k == 0 then 1 else 2 * Pow2(k - 1)
  }

  /** The value that an integer `x` becomes when it is stored into a
      `Uint32Array` slot (ToUint32): the one representative of `x` modulo 2^32. */
  function ToUint32(x: int): (r: uint32)
    ensures (x - r) % Two32 == 0
  {
    x % Two32
  }

  /** Bitwise AND of two non-negative integers. */
  function And(a: nat, b: nat): (r: nat)
    ensures r <= a && r <= b
    decreases a
  {
    if a == 0 || b == 0 then 0
    else 2 * And(a / 2, b / 2) + (if a % 2 == 1 && b % 2 == 1 then 1 else 0)
  }

  /** Bitwise OR of two non-negative integers. */
  function Or(a: nat, b: nat): (r: nat)
    ensures a <= r <= a + b && b <= r
    decreases a
  {
    if a == 0 then b
    else if b == 0 then a
    else 2 * Or(a / 2, b / 2) + (if a % 2 == 1 || b % 2 == 1 then 1 else 0)
  }

  /** `x` with `k` zero bits appended: `x * 2^k`, written as `k` doublings
      so that every proof about it stays in linear arithmetic. */
  function Shifted(x: nat, k: nat): nat
  {
    if k == 0 then x else 2 * Shifted(x, k - 1)
  }

  /** `x << k` on a non-negative int32 operand whose shifted value still fits
      in 31 bits (the only shifts the kernel performs). */
  function Shl(x: nat, k: nat): (r: nat)
    requires Shifted(x, k) < 0x8000_0000
  {
    Shifted(x, k)
  }

  /** `x` with its `k` low bits dropped (`x >>> k`). */
  function ShiftRight(x: nat, k: nat): nat
  {
    if k == 0 then x else ShiftRight(x / 2, k - 1)
  }

  /** The `k` low bits of `x` (`x & (2^k - 1)`). */
  function LowBits(x: nat, k: nat): nat
  {
    if k == 0 then 0 else x % 2 + 2 * LowBits(x / 2, k - 1)
  }

  /** `x & 0xff` for an integer-valued number `x` of any sign: the low byte of
      its two's complement form, which is the low byte of ToUint32(x). */
  function Low8(x: int): (r: nat)
    ensures r < 256
    ensures r == x % 256
  {
    AndLowBits(ToUint32(x), 8);
    Mod2To32ThenMod256(x);
    And(ToUint32(x), 255)
  }

  /** OR-ing a value that fits below bit `k` with a value shifted left by `k`
      adds them: the two operands share no set bit. */
  lemma {:induction false} OrDisjoint(a: nat, b: nat, k: nat)
    requires a < Pow2(k)
    ensures Or(a, Shifted(b, k)) == a + Shifted(b, k)
    decreases k
  {
    if k > 0 && a > 0 {
      var hi := Shifted(b, k);
      assert hi % 2 == 0 && hi / 2 == Shifted(b, k - 1);
      OrDisjoint(a / 2, b, k - 1);
      if hi > 0 {
        assert Or(a, hi) == 2 * Or(a / 2, hi / 2) + a % 2;
      }
    }
  }

  lemma {:induction false} ShiftedOne(k: nat)
    ensures Shifted(1, k) == Pow2(k)
    decreases k
  {
    if k > 0 {
      ShiftedOne(k - 1);
    }
  }

  lemma {:induction false} ShiftedAdd(a: nat, b: nat, k: nat)
    ensures Shifted(a + b, k) == Shifted(a, k) + Shifted(b, k)
    decreases k
  {
    if k > 0 {
      ShiftedAdd(a, b, k - 1);
    }
  }

  lemma {:induction false} ShiftedTwice(x: nat, a: nat, b: nat)
    ensures Shifted(Shifted(x, a), b) == Shifted(x, a + b)
    decreases b
  {
    if b > 0 {
      ShiftedTwice(x, a, b - 1);
    }
  }

  lemma {:induction false} ShiftedMono(a: nat, b: nat, k: nat)
    requires a <= b
    ensures Shifted(a, k) <= Shifted(b, k)
    ensures a < b ==> Shifted(a, k) < Shifted(b, k)
    decreases k
  {
    if k > 0 {
      ShiftedMono(a, b, k - 1);
    }
  }

  /** Dropping `k` low bits from `low + (x << k)`, with `low` below bit `k`,
      leaves `x`. */
  lemma {:induction false} ShiftRightOf(low: nat, x: nat, k: nat)
    requires low < Pow2(k)
    ensures ShiftRight(low + Shifted(x, k), k) == x
    decreases k
  {
    if k > 0 {
      assert (low + Shifted(x, k)) / 2 == low / 2 + Shifted(x, k - 1);
      ShiftRightOf(low / 2, x, k - 1);
    }
  }

  /** The `k` low bits of `f + (y << k)`, with `f` below bit `k`, are `f`. */
  lemma {:induction false} LowBitsOf(f: nat, y: nat, k: nat)
    requires f < Pow2(k)
    ensures LowBits(f + Shifted(y, k), k) == f
    decreases k
  {
    if k > 0 {
      var v := f + Shifted(y, k);
      assert v % 2 == f % 2 && v / 2 == f / 2 + Shifted(y, k - 1);
      LowBitsOf(f / 2, y, k - 1);
    }
  }

  /** AND with a mask of the `k` low bits keeps the value modulo 2^k. */
  lemma AndLowBits(a: nat, k: nat)
    ensures And(a, Pow2(k) - 1) == a % Pow2(k)
  {
    AndMask(a, k);
    LowBitsMod(a, k);
  }

  /** AND with a mask of the `k` low bits keeps those bits. */
  lemma {:induction false} AndMask(a: nat, k: nat)
    ensures And(a, Pow2(k) - 1) == LowBits(a, k)
    decreases k
  {
    if k > 0 {
      var m := Pow2(k - 1);
      assert Pow2(k) - 1 == 2 * (m - 1) + 1;
      assert (Pow2(k) - 1) / 2 == m - 1 && (Pow2(k) - 1) % 2 == 1;
      AndMask(a / 2, k - 1);
      if a > 0 {
        assert And(a, Pow2(k) - 1) == 2 * And(a / 2, m - 1) + a % 2;
      }
    }
  }

  /** The `k` low bits of `a` are `a` modulo 2^k. */
  lemma {:induction false} LowBitsMod(a: nat, k: nat)
    ensures LowBits(a, k) == a % Pow2(k)
    decreases k
  {
    if k > 0 {
      LowBitsMod(a / 2, k - 1);
      HalfMod(a, Pow2(k - 1));
    }
  }

  /** A mask with a clear lowest bit clears that bit: AND-ing with it is
      AND-ing the halves and doubling. */
  lemma AndEvenMask(a: nat, b: nat)
    requires b % 2 == 0
    ensures And(a, b) == 2 * And(a / 2, b / 2)
  {
  }

  lemma HalfMod(a: nat, m: nat)
    requires m >= 1
    ensures 2 * ((a / 2) % m) + a % 2 == a % (2 * m)
  {
    var q := (a / 2) / m;
    var t := (a / 2) % m;
    assert a / 2 == q * m + t;
    assert a == (2 * m) * q + (2 * t + a % 2);
    assert 0 <= 2 * t + a % 2 < 2 * m;
    ModUnique(a, 2 * m, q, 2 * t + a % 2);
  }

  lemma ModUnique(a: int, d: nat, q: int, r: int)
    requires d >= 1 && 0 <= r < d && a == d * q + r
    ensures a % d == r
  {
    var q', r' := a / d, a % d;
    assert d * (q - q') == r' - r;
    MultipleOfD(d, q - q');
  }

  lemma DivUnique(a: int, d: nat, q: int, r: int)
    requires d >= 1 && 0 <= r < d && a == d * q + r
    ensures a / d == q
  {
    var q', r' := a / d, a % d;
    assert d * (q - q') == r' - r;
    MultipleOfD(d, q - q');
  }

  /** Taking one stride off a value at least one stride long takes one off
      its quotient. */
  lemma DivStep(x: int, d: nat)
    requires d >= 1 && x >= d
    ensures (x - d) / d == x / d - 1
  {
    DivUnique(x - d, d, x / d - 1, x % d);
  }

  /** A positive multiple of `d` is at least `d`, and one stride less is
      still a multiple. */
  lemma StrideStep(x: int, d: nat)
    requires d >= 1 && x > 0 && x % d == 0
    ensures x >= d && (x - d) % d == 0
  {
    var q := x / d;
    assert x == d * q;
    MultipleOfD(d, q);
    ModUnique(x - d, d, q - 1, 0);
  }

  lemma MultipleOfD(d: nat, x: int)
    requires d >= 1
    ensures x >= 1 ==> d * x >= d
    ensures x <= -1 ==> d * x <= 0 - d
  {
  }

  lemma Mod2To32ThenMod256(x: int)
    ensures (x % Two32) % 256 == x % 256
  {
    var q := x / Two32;
    var u := x % Two32;
    assert x == Two32 * q + u;
    var q2 := u / 256;
    assert u == 256 * q2 + u % 256;
    assert x == 256 * (0x100_0000 * q + q2) + u % 256;
    ModUnique(x, 256, 0x100_0000 * q + q2, u % 256);
  }
}
