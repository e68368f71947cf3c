/** The seed stream behind the permutation table: one step of a 32-bit linear
    congruential generator, `s * 1664525 + 1013904223` stored back into a
    `Uint32Array` slot. */
module Seed {
  import opened JsInt

  const Multiplier: nat := 1664525
  const Increment: nat := 1013904223

  /** The multiplicative inverse of Multiplier modulo 2^32. */
  const InverseMultiplier: nat := 0xFEE0_58C5

  /** One generator step. The product and sum are computed on doubles before
      the store; the first ensures says they are exact there (below 2^53), so
      the store's reduction modulo 2^32 is the only rounding that happens. */
  function ShuffleSeed(s: uint32): (r: uint32)
    ensures s * Multiplier + Increment < 0x20_0000_0000_0000
    ensures (s * Multiplier + Increment - r) % Two32 == 0
  {
    ToUint32(s * Multiplier + Increment)
  }

  /** The step undone: the state that ShuffleSeed maps to `r`. */
  function UnshuffleSeed(r: uint32): uint32
  {
    ToUint32((r - Increment) * InverseMultiplier)
  }

  /** Every state has exactly one predecessor, so the step is a bijection of
      the 32-bit states. */
  lemma UnshuffleShuffle(s: uint32)
    ensures UnshuffleSeed(ShuffleSeed(s)) == s
  {
    var k := (s * Multiplier + Increment) / Two32;
    var r := ShuffleSeed(s);
    assert r == s * Multiplier + Increment - Two32 * k;
    assert Multiplier * InverseMultiplier == 1 + Two32 * 1657219;
    assert (r - Increment) * InverseMultiplier == s + Two32 * (s * 1657219 - k * InverseMultiplier);
    ModUnique((r - Increment) * InverseMultiplier, Two32, s * 1657219 - k * InverseMultiplier, s);
  }

  /** Distinct states stay distinct after a step. */
  lemma ShuffleSeedInjective(s: uint32, t: uint32)
    requires ShuffleSeed(s) == ShuffleSeed(t)
    ensures s == t
  {
    UnshuffleShuffle(s);
    UnshuffleShuffle(t);
  }

  /** The step on a boxed state: reads slot 0 of `seed` and returns a fresh
      one-slot array holding the next state; `seed` is left as it was. An
      empty input reads `undefined`, whose arithmetic gives NaN, which a
      `Uint32Array` store turns into 0. */
  method ShuffleSeedArray(seed: array<uint32>) returns (newSeed: array<uint32>)
    ensures fresh(newSeed) && newSeed.Length == 1
    ensures newSeed[0] == if seed.Length == 0 then 0 else ShuffleSeed(seed[0])
  {
    newSeed := new uint32[1];
    newSeed[0] := if seed.Length == 0 then 0 else ShuffleSeed(seed[0]);
  }
}
