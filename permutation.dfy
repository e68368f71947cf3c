/** The seeded permutation generator shared by the three noise makers: a
    descending Fisher-Yates shuffle of 0..255 driven by the ShuffleSeed
    stream, plus the per-dimension index table derived entry by entry. */
module Permutation {
  import opened JsInt
  import opened Seed
  import opened Dims

  /** The derived table entry for a permutation entry `p`; the noise maker's
      dimension decides only this table: `p & 0x0e` in 2D,
      `(p % 24) * 3` in 3D and `p & 0xfc` in 4D. Each is a gradient-table
      offset: a multiple of the gradient width (2, 3 or 4) below the last
      gradient. */
  function Derive(d: Dim, p: uint8): (r: uint8)
    ensures d == D2 ==> r % 2 == 0 && r <= 14
    ensures d == D3 ==> r % 3 == 0 && r <= 69
    ensures d == D4 ==> r % 4 == 0 && r <= 252
  {
    match d
    case D2 =>
      MaskEven(p);
      And(p, 0x0E)
    case D3 => (p % 24) * 3
    case D4 =>
      MaskQuad(p);
      And(p, 0xFC)
  }

  lemma MaskEven(p: uint8)
    ensures And(p, 0x0E) % 2 == 0 && And(p, 0x0E) <= 14
  {
    AndEvenMask(p, 0x0E);
  }

  lemma MaskQuad(p: uint8)
    ensures And(p, 0xFC) % 4 == 0 && And(p, 0xFC) <= 252
  {
    var q := p / 2;
    AndEvenMask(p, 0xFC);
    AndEvenMask(q, 0x7E);
    var low := And(q / 2, 0x3F);
    assert And(p, 0xFC) == 4 * low && low <= 0x3F;
  }

  /** 0, 1, ..., n-1. */
  function Iota(n: nat): (s: seq<int>)
    ensures |s| == n && forall i :: 0 <= i < n ==> s[i] == i
  {
    seq(n, i => i)
  }

  /** What the shuffle loop carries from one step to the next: the generator
      state and the two byte arrays `source` and `perm`. */
  datatype ShuffleState = ShuffleState(seed: uint32, source: seq<uint8>, perm: seq<uint8>)

  ghost predicate Sized(st: ShuffleState)
  {
    |st.source| == 256 && |st.perm| == 256
  }

  /** The client seed stored into a `Uint32Array` slot, then advanced three
      times before the loop starts. */
  function InitialSeed(clientSeed: int): uint32
  {
    ShuffleSeed(ShuffleSeed(ShuffleSeed(ToUint32(clientSeed))))
  }

  function Initial(clientSeed: int): (st: ShuffleState)
    ensures Sized(st)
  {
    ShuffleState(InitialSeed(clientSeed), Iota(256), seq(256, i => 0))
  }

  /** The swap position for step `i`: `(seed + 31) % (i + 1)`, taken on the
      unreduced sum and stored into a `Uint32Array` slot, followed by the
      program's correction for a negative remainder, kept as written. The
      correction can never fire, since the slot holds no negative value, and
      the remainder already lies in 0..i. */
  function ShuffleIndex(seed: uint32, i: nat): (r: int)
    requires i < 256
    ensures 0 <= r <= i
    ensures r == (seed + 31) % (i + 1)
  {
    var sum := seed + 31;
    ModUnique(sum % (i + 1), Two32, 0, sum % (i + 1));
    var r0 := ToUint32(sum % (i + 1));
    if r0 < 0 then ToUint32(r0 + i + 1) else r0
  }

  /** One iteration of the descending loop at index `i`. */
  function Step(st: ShuffleState, i: int): (st': ShuffleState)
    requires Sized(st) && 0 <= i < 256
    ensures Sized(st')
  {
    var seed := ShuffleSeed(st.seed);
    var r := ShuffleIndex(seed, i);
    ShuffleState(seed, st.source[r := st.source[i]], st.perm[i := st.source[r]])
  }

  /** The iterations for indices i, i-1, ..., 0. */
  function Run(st: ShuffleState, i: int): (st': ShuffleState)
    requires Sized(st) && -1 <= i < 256
    ensures Sized(st')
    decreases i + 1
  {
    if i < 0 then st else Run(Step(st, i), i - 1)
  }

  /** The permutation table built for a client seed. */
  function PermOf(clientSeed: int): seq<uint8>
  {
    Run(Initial(clientSeed), 255).perm
  }

  /** What is still to be placed plus what has been placed: `source[0..i]`
      together with `perm[i+1..255]`. */
  ghost function Pool(st: ShuffleState, i: int): multiset<int>
    requires Sized(st) && -1 <= i < 256
  {
    multiset(st.source[..i + 1]) + multiset(st.perm[i + 1..])
  }

  /** Taking `s[r]` out of `s[..i+1]` and moving `s[i]` into its slot leaves
      `s[..i]` holding the rest. */
  lemma SwapOut(s: seq<uint8>, r: int, i: int)
    requires 0 <= r <= i < |s|
    ensures multiset(s[r := s[i]][..i]) + multiset{s[r]} == multiset(s[..i + 1])
  {
    if r < i {
      var a, b := s[..r], s[r + 1..i];
      assert s[r := s[i]][..i] == a + [s[i]] + b;
      assert s[..i + 1] == a + [s[r]] + b + [s[i]];
      calc {
        multiset(s[r := s[i]][..i]) + multiset{s[r]};
        multiset(a) + multiset{s[i]} + multiset(b) + multiset{s[r]};
        multiset(a) + multiset{s[r]} + multiset(b) + multiset{s[i]};
        multiset(s[..i + 1]);
      }
    } else {
      assert s[r := s[i]][..i] == s[..i];
      assert s[..i + 1] == s[..i] + [s[i]];
    }
  }

  /** Each step moves one value from the unplaced part of `source` to the placed part. */
  lemma StepKeepsPool(st: ShuffleState, i: int)
    requires Sized(st) && 0 <= i < 256
    ensures Pool(Step(st, i), i - 1) == Pool(st, i)
  {
    var r := ShuffleIndex(ShuffleSeed(st.seed), i);
    var s, p := st.source, st.perm;
    assert Step(st, i).perm[i..] == [s[r]] + p[i + 1..];
    SwapOut(s, r, i);
  }

  lemma {:induction false} RunKeepsPool(st: ShuffleState, i: int)
    requires Sized(st) && -1 <= i < 256
    ensures multiset(Run(st, i).perm) == Pool(st, i)
    decreases i + 1
  {
    if i < 0 {
      assert st.perm[0..] == st.perm;
    } else {
      StepKeepsPool(st, i);
      RunKeepsPool(Step(st, i), i - 1);
    }
  }

  /** The steps below `i` leave the entries above `i` alone. */
  lemma {:induction false} RunKeepsPlaced(st: ShuffleState, i: int, j: int)
    requires Sized(st) && -1 <= i < j < 256
    ensures Run(st, i).perm[j] == st.perm[j]
    decreases i + 1
  {
    if i >= 0 {
      RunKeepsPlaced(Step(st, i), i - 1, j);
    }
  }

  lemma IotaCount(n: nat, v: int)
    requires 0 <= v < n
    ensures multiset(Iota(n))[v] == 1
    decreases n
  {
    if n - 1 == v {
      assert Iota(n) == Iota(n - 1) + [v];
      assert v !in Iota(n - 1);
    } else {
      assert Iota(n) == Iota(n - 1) + [n - 1];
      IotaCount(n - 1, v);
    }
  }

  /** For every seed the table holds each of 0..255 exactly once. */
  lemma PermIsBijection(clientSeed: int)
    ensures |PermOf(clientSeed)| == 256
    ensures multiset(PermOf(clientSeed)) == multiset(Iota(256))
    ensures forall v :: 0 <= v < 256 ==> multiset(PermOf(clientSeed))[v] == 1
  {
    var st := Initial(clientSeed);
    RunKeepsPool(st, 255);
    assert st.source[..256] == Iota(256);
    assert st.perm[256..] == [];
    forall v | 0 <= v < 256
      ensures multiset(PermOf(clientSeed))[v] == 1
    {
      IotaCount(256, v);
    }
  }

  lemma RepeatCounts(p: seq<uint8>, i: int, j: int)
    requires 0 <= i < j < |p|
    ensures p[i] == p[j] ==> multiset(p)[p[i]] >= 2
  {
    assert p == p[..i] + [p[i]] + p[i + 1..j] + [p[j]] + p[j + 1..];
  }

  /** No two positions of the table hold the same value. */
  lemma PermDistinct(clientSeed: int, i: int, j: int)
    requires 0 <= i < j < 256
    ensures PermOf(clientSeed)[i] != PermOf(clientSeed)[j]
  {
    PermIsBijection(clientSeed);
    RepeatCounts(PermOf(clientSeed), i, j);
  }

  /** The client seed only matters modulo 2^32: it is stored into a
      `Uint32Array` slot first. */
  lemma SeedWraps(a: int, b: int)
    requires a % Two32 == b % Two32
    ensures PermOf(a) == PermOf(b)
  {
  }

  /** A fresh `source` array holding 0..255 in order. */
  method Identity() returns (source: array<uint8>)
    ensures fresh(source) && source[..] == Iota(256)
  {
    source := new uint8[256](_ => 0);
    for i := 0 to 256
      invariant forall j :: 0 <= j < i ==> source[j] == j
    {
      source[i] := i;
    }
  }

  /** One iteration of the descending loop on the arrays: advance the seed,
      pick the swap position, place `source[r]` at `perm[i]` and its derived
      entry at `permD[i]`, and move `source[i]` into the vacated slot. */
  method PlaceOne(d: Dim, seed: uint32, i: int, source: array<uint8>, perm: array<uint8>, permD: array<uint8>)
      returns (seed': uint32)
    requires source.Length == 256 && perm.Length == 256 && permD.Length == 256
    requires source != perm && source != permD && perm != permD
    requires 0 <= i < 256
    requires forall j :: i < j < 256 ==> permD[j] == Derive(d, perm[j])
    modifies source, perm, permD
    ensures ShuffleState(seed', source[..], perm[..]) == Step(ShuffleState(seed, old(source[..]), old(perm[..])), i)
    ensures forall j :: i <= j < 256 ==> permD[j] == Derive(d, perm[j])
    ensures forall j :: 0 <= j < i ==> permD[j] == old(permD[j])
  {
    seed' := ShuffleSeed(seed);
    var r := ShuffleIndex(seed', i);
    perm[i] := source[r];
    permD[i] := Derive(d, perm[i]);
    source[r] := source[i];
  }

  /** Builds the permutation table and the derived table of one noise maker:
      `source` is filled with 0..255, the seed is stored and advanced three
      times, and the descending loop places one value per index. The result
      does not depend on the maker, so the three makers build the same table
      for one seed. */
  method MakePermutation(clientSeed: int, d: Dim) returns (perm: array<uint8>, permD: array<uint8>)
    ensures fresh(perm) && fresh(permD)
    ensures perm.Length == 256 && permD.Length == 256
    ensures perm[..] == PermOf(clientSeed)
    ensures forall j :: 0 <= j < 256 ==> permD[j] == Derive(d, perm[j])
    ensures forall v :: 0 <= v < 256 ==> multiset(perm[..])[v] == 1
  {
    perm := new uint8[256](_ => 0);
    permD := new uint8[256](_ => 0);
    var source := Identity();
    assert perm[..] == seq(256, i => 0);
    var seed := ToUint32(clientSeed);
    seed := ShuffleSeed(ShuffleSeed(ShuffleSeed(seed)));
    var i := 255;
    ghost var st := Initial(clientSeed);
    while i >= 0
      invariant -1 <= i <= 255
      invariant st == ShuffleState(seed, source[..], perm[..])
      invariant Run(st, i) == Run(Initial(clientSeed), 255)
      invariant forall j :: i < j < 256 ==> permD[j] == Derive(d, perm[j])
    {
      seed := PlaceOne(d, seed, i, source, perm, permD);
      st := Step(st, i);
      i := i - 1;
    }
    PermIsBijection(clientSeed);
  }
}
