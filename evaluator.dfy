/** A noise maker and the evaluator it returns.

    The maker builds the contribution chains, the lookup table and the
    permutation tables; the evaluator skews the input point onto the
    simplectic lattice, hashes its in-cell position to pick one chain, and
    walks that chain, adding the attenuated gradient term of every record
    whose attenuation is positive. Numbers are real numbers here: the
    squish, stretch and normalisation constants are parameters, and no
    floating-point rounding is modelled. */
module Evaluator {
  import opened JsInt
  import opened Dims
  import opened Permutation
  import opened Contributions
  import opened Hash

  /** The constant tables of one dimension: base sets, gradient vectors,
      lookup pairs and the direction table. */
  datatype Tables = Tables(base: seq<seq<int>>, gradients: seq<int>, lookupPairs: seq<int>, p: seq<int>)

  /** What the evaluator closes over. */
  datatype Generator = Generator(
    d: Dim, squish: real, stretch: real, norm: real,
    arena: seq<Node>, lookup: map<int, nat>,
    perm: seq<uint8>, permD: seq<uint8>, gradients: seq<int>)

  /** How many gradient entries an evaluator may read: the largest derived
      table entry plus one per axis (14 + 2, 69 + 3 and 252 + 4). */
  function GradientReach(d: Dim): nat
  {
    match d
    case D2 => 16
    case D3 => 72
    case D4 => 256
  }

  /** The state every maker leaves behind: the derived table follows `perm`,
      every gradient read is in bounds, every link and every lookup entry
      stays in the arena, and every record has one entry per axis. */
  ghost predicate Valid(g: Generator)
  {
    |g.perm| == 256 && |g.permD| == 256
    && (forall j :: 0 <= j < 256 ==> g.permD[j] == Derive(g.d, g.perm[j]))
    && |g.gradients| >= GradientReach(g.d)
    && WellLinked(g.arena)
    && (forall key :: key in g.lookup ==> g.lookup[key] < |g.arena|)
    && forall i :: 0 <= i < |g.arena| ==> Shaped(g.d, g.arena[i].contribution)
  }

  /** The permutation entries chained through the lattice coordinates:
      `perm[px & 0xff]`, then `perm[(that + py) & 0xff]`, and so on. */
  function PermChain(perm: seq<uint8>, ps: seq<int>): (a: int)
    requires |perm| == 256
    ensures 0 <= a < 256
    decreases |ps|
  {
    if |ps| == 0 then 0 else perm[Low8(PermChain(perm, ps[..|ps| - 1]) + ps[|ps| - 1])]
  }

  /** The gradient offset of lattice point `ps`: all coordinates but the last
      chained through `perm`, the last one through the derived table. */
  function GradientIndex(perm: seq<uint8>, permD: seq<uint8>, ps: seq<int>): uint8
    requires |perm| == 256 && |permD| == 256 && |ps| >= 1
  {
    permD[Low8(PermChain(perm, ps[..|ps| - 1]) + ps[|ps| - 1])]
  }

  /** Every gradient the evaluator reads, `gradients[index + a]` for each
      axis `a`, is inside the table. */
  lemma GradientInBounds(g: Generator, ps: seq<int>)
    requires Valid(g) && |ps| >= 1
    ensures GradientIndex(g.perm, g.permD, ps) + Axes(g.d) <= |g.gradients|
  {
    var j := Low8(PermChain(g.perm, ps[..|ps| - 1]) + ps[|ps| - 1]);
    assert GradientIndex(g.perm, g.permD, ps) == Derive(g.d, g.perm[j]);
  }

  lemma Low8Period(x: int, m: int)
    ensures Low8(x + 256 * m) == Low8(x)
  {
    ModUnique(x + 256 * m, 256, x / 256 + m, x % 256);
  }

  /** Moving a lattice coordinate by a multiple of 256 leaves the permutation
      chain unchanged: `& 0xff` keeps only the coordinate modulo 256, for
      negative coordinates too. */
  lemma {:induction false} PermChainPeriodic(perm: seq<uint8>, ps: seq<int>, a: nat, m: int)
    requires |perm| == 256 && a < |ps|
    ensures PermChain(perm, ps[a := ps[a] + 256 * m]) == PermChain(perm, ps)
    decreases |ps|
  {
    var qs := ps[a := ps[a] + 256 * m];
    var n := |ps| - 1;
    if a == n {
      assert qs[..n] == ps[..n];
      Low8Period(PermChain(perm, ps[..n]) + ps[n], m);
    } else {
      assert qs[..n] == ps[..n][a := ps[a] + 256 * m];
      PermChainPeriodic(perm, ps[..n], a, m);
    }
  }

  /** The gradient chosen for a lattice point repeats every 256 cells along
      every axis. */
  lemma GradientPeriodic(perm: seq<uint8>, permD: seq<uint8>, ps: seq<int>, a: nat, m: int)
    requires |perm| == 256 && |permD| == 256 && a < |ps|
    ensures GradientIndex(perm, permD, ps[a := ps[a] + 256 * m]) == GradientIndex(perm, permD, ps)
  {
    var qs := ps[a := ps[a] + 256 * m];
    var n := |ps| - 1;
    if a == n {
      assert qs[..n] == ps[..n];
      Low8Period(PermChain(perm, ps[..n]) + ps[n], m);
    } else {
      assert qs[..n] == ps[..n][a := ps[a] + 256 * m];
      PermChainPeriodic(perm, ps[..n], a, m);
    }
  }

  function Sum(xs: seq<real>): real
  {
    if xs == [] then 0.0 else xs[0] + Sum(xs[1..])
  }

  function SumInt(xs: seq<int>): int
  {
    if xs == [] then 0 else xs[0] + SumInt(xs[1..])
  }

  function SumSquares(xs: seq<real>): (r: real)
    ensures r >= 0.0
  {
    if xs == [] then 0.0 else xs[0] * xs[0] + SumSquares(xs[1..])
  }

  /** Where the evaluation point sits: the lattice cell of its skewed
      coordinates, its displacement from the cell's origin, and its in-cell
      position. */
  datatype Frame = Frame(cell: seq<int>, d0: seq<real>, ins: seq<real>)

  predicate FrameFits(d: Dim, f: Frame)
  {
    |f.cell| == Axes(d) && |f.d0| == Axes(d) && |f.ins| == Axes(d) && InUnit(f.ins)
  }

  /** Skews the coordinates by `stretch` times their sum, takes the floor of
      each skewed coordinate as the cell, and measures the displacement from
      the cell's origin skewed back by `squish` times the cell's sum. */
  function Locate(d: Dim, stretch: real, squish: real, coords: seq<real>): (f: Frame)
    requires |coords| == Axes(d)
    ensures FrameFits(d, f)
  {
    var offset := Scale(Sum(coords), stretch);
    var s := seq(|coords|, a requires 0 <= a < |coords| => coords[a] + offset);
    var cell := seq(|s|, a requires 0 <= a < |s| => s[a].Floor);
    var squishOffset := Scale(SumInt(cell) as real, squish);
    Frame(cell,
          seq(|s|, a requires 0 <= a < |s| => coords[a] - (cell[a] as real + squishOffset)),
          seq(|s|, a requires 0 <= a < |s| => s[a] - cell[a] as real))
  }

  /** Each skewed coordinate splits into its cell and its in-cell part. */
  lemma LocateSplits(d: Dim, stretch: real, squish: real, coords: seq<real>)
    requires |coords| == Axes(d)
    ensures var f := Locate(d, stretch, squish, coords);
      forall a :: 0 <= a < Axes(d) ==> f.cell[a] as real + f.ins[a] == coords[a] + Sum(coords) * stretch
  {
  }

  /** The displacement from a record's lattice point. */
  function Displacement(f: Frame, c: Contribution): (dd: seq<real>)
    requires |c.delta| == |f.d0|
    ensures |dd| == |f.d0|
  {
    seq(|f.d0|, a requires 0 <= a < |f.d0| => f.d0[a] + c.delta[a])
  }

  /** The lattice point of a record: the cell plus the record's offset. */
  function Point(f: Frame, c: Contribution): (ps: seq<int>)
    requires |c.lattice| == |f.cell|
    ensures |ps| == |f.cell|
  {
    seq(|f.cell|, a requires 0 <= a < |f.cell| => f.cell[a] + c.lattice[a])
  }

  /** The attenuation `2 - dx*dx - dy*dy - ...`; never above 2. */
  function Attn(dd: seq<real>): (r: real)
    ensures r <= 2.0
  {
    2.0 - SumSquares(dd)
  }

  /** `gradients[index] * dx + gradients[index + 1] * dy + ...`. */
  function Dot(gradients: seq<int>, index: nat, dd: seq<real>): real
    requires index + |dd| <= |gradients|
    decreases |dd|
  {
    if dd == [] then 0.0 else gradients[index] as real * dd[0] + Dot(gradients, index + 1, dd[1..])
  }

  /** `x` multiplied by `a`, `n` times over. */
  function Attenuated(a: real, x: real, n: nat): real
  {
    if n == 0 then x else a * Attenuated(a, x, n - 1)
  }

  /** The program's `a * a * a * a * x` is `x` attenuated four times. */
  lemma FourTimes(a: real, x: real)
    ensures a * a * a * a * x == Attenuated(a, x, 4)
  {
    assert Attenuated(a, x, 1) == a * x;
    assert Attenuated(a, x, 2) == a * (a * x);
    assert Attenuated(a, x, 3) == a * (a * (a * x));
  }

  /** What one record adds to the value: its attenuation to the fourth
      power times its gradient term when the attenuation is positive, and
      nothing otherwise. */
  function Term(g: Generator, f: Frame, c: Contribution): real
    requires Valid(g) && FrameFits(g.d, f) && Shaped(g.d, c)
  {
    var dd := Displacement(f, c);
    var attn := Attn(dd);
    if attn > 0.0 then
      GradientInBounds(g, Point(f, c));
      Attenuated(attn, Dot(g.gradients, GradientIndex(g.perm, g.permD, Point(f, c)), dd), 4)
    else 0.0
  }

  /** The value a chain of records adds up to. */
  function ChainSum(g: Generator, f: Frame, cs: seq<Contribution>): real
    requires Valid(g) && FrameFits(g.d, f) && forall j :: 0 <= j < |cs| ==> Shaped(g.d, cs[j])
  {
    if cs == [] then 0.0 else Term(g, f, cs[0]) + ChainSum(g, f, cs[1..])
  }

  /** The value of the chain that starts at `head`; no chain adds nothing. */
  function WalkSum(g: Generator, f: Frame, head: Option<nat>): real
    requires Valid(g) && FrameFits(g.d, f) && (head.Some? ==> head.value < |g.arena|)
  {
    match head
    case None => 0.0
    case Some(h) => ChainSum(g, f, ChainAt(g.arena, h))
  }

  /** The nodes visited from `head`. */
  function VisitFrom(arena: seq<Node>, head: Option<nat>): seq<nat>
    requires WellLinked(arena) && (head.Some? ==> head.value < |arena|)
  {
    match head
    case None => []
    case Some(h) => Visit(arena, h)
  }

  /** The walk from node `i` adds that node's term to the walk from its
      `next`. */
  lemma WalkStep(g: Generator, f: Frame, i: nat)
    requires Valid(g) && FrameFits(g.d, f) && i < |g.arena|
    ensures WalkSum(g, f, Some(i)) == Term(g, f, g.arena[i].contribution) + WalkSum(g, f, g.arena[i].next)
    ensures VisitFrom(g.arena, Some(i)) == [i] + VisitFrom(g.arena, g.arena[i].next)
  {
    ChainAtStep(g.arena, i);
    var cs := ChainAt(g.arena, i);
    assert cs[0] == g.arena[i].contribution;
    match g.arena[i].next
    case None =>
      assert cs[1..] == [];
      assert ChainSum(g, f, cs[1..]) == 0.0;
    case Some(n) =>
      assert cs[1..] == ChainAt(g.arena, n);
  }

  /** What the walk adds for record `c`: its displacement, its attenuation,
      and when that is positive the fourth power of the attenuation times
      the dot product of the record's gradient with the displacement. */
  method Contribute(g: Generator, f: Frame, c: Contribution) returns (t: real)
    requires Valid(g) && FrameFits(g.d, f) && Shaped(g.d, c)
    ensures t == Term(g, f, c)
    ensures t != 0.0 ==> Attn(Displacement(f, c)) > 0.0
  {
    t := 0.0;
    var dd := Displacement(f, c);
    var attn := Attn(dd);
    if attn > 0.0 {
      var ps := Point(f, c);
      GradientInBounds(g, ps);
      var index := GradientIndex(g.perm, g.permD, ps);
      var dot := Dot(g.gradients, index, dd);
      t := attn * attn * attn * attn * dot;
      FourTimes(attn, dot);
    }
  }

  /** A chain's sum is the sum of its two parts. */
  lemma {:induction false} ChainSumAppend(g: Generator, f: Frame, a: seq<Contribution>, b: seq<Contribution>)
    requires Valid(g) && FrameFits(g.d, f)
    requires forall j :: 0 <= j < |a| ==> Shaped(g.d, a[j])
    requires forall j :: 0 <= j < |b| ==> Shaped(g.d, b[j])
    ensures ChainSum(g, f, a + b) == ChainSum(g, f, a) + ChainSum(g, f, b)
    decreases |a|
  {
    if a == [] {
      assert a + b == b;
    } else {
      assert (a + b)[0] == a[0];
      assert (a + b)[1..] == a[1..] + b;
      ChainSumAppend(g, f, a[1..], b);
    }
  }

  /** A record whose attenuation is not positive can be dropped from the
      chain without changing its sum, and the records after it still count. */
  lemma SkipNonPositive(g: Generator, f: Frame, cs: seq<Contribution>, j: nat)
    requires Valid(g) && FrameFits(g.d, f) && forall k :: 0 <= k < |cs| ==> Shaped(g.d, cs[k])
    requires j < |cs| && Shaped(g.d, cs[j]) && Attn(Displacement(f, cs[j])) <= 0.0
    ensures ChainSum(g, f, cs[..j] + cs[j + 1..]) == ChainSum(g, f, cs)
  {
    assert cs == cs[..j] + ([cs[j]] + cs[j + 1..]);
    ChainSumAppend(g, f, cs[..j], [cs[j]] + cs[j + 1..]);
    ChainSumAppend(g, f, cs[..j], cs[j + 1..]);
    assert ([cs[j]] + cs[j + 1..])[1..] == cs[j + 1..];
  }

  /** Walks the chain from `head` along the `next` links to its end, adding
      the term of every record whose attenuation is positive and skipping,
      not stopping at, the others. */
  method Walk(g: Generator, f: Frame, head: Option<nat>) returns (value: real, ghost visited: seq<nat>)
    requires Valid(g) && FrameFits(g.d, f) && (head.Some? ==> head.value < |g.arena|)
    ensures value == WalkSum(g, f, head)
    ensures visited == VisitFrom(g.arena, head)
  {
    value := 0.0;
    visited := [];
    var cur := head;
    while cur.Some?
      invariant cur.Some? ==> cur.value < |g.arena|
      invariant value + WalkSum(g, f, cur) == WalkSum(g, f, head)
      invariant visited + VisitFrom(g.arena, cur) == VisitFrom(g.arena, head)
      decreases if cur.Some? then |g.arena| - cur.value else 0
    {
      var i := cur.value;
      var t;
      t, cur := StepFrom(g, f, i);
      value := value + t;
      visited := visited + [i];
    }
  }

  /** One step of the walk: the term of node `i` and the link to follow. */
  method StepFrom(g: Generator, f: Frame, i: nat) returns (t: real, next: Option<nat>)
    requires Valid(g) && FrameFits(g.d, f) && i < |g.arena|
    ensures next == g.arena[i].next && (next.Some? ==> i < next.value < |g.arena|)
    ensures t + WalkSum(g, f, next) == WalkSum(g, f, Some(i))
    ensures VisitFrom(g.arena, Some(i)) == [i] + VisitFrom(g.arena, next)
  {
    WalkStep(g, f, i);
    t := Contribute(g, f, g.arena[i].contribution);
    next := g.arena[i].next;
  }

  /** The value the evaluator returns at `coords`: the normalised sum of the
      chain that the point's hash selects. */
  function NoiseAt(g: Generator, coords: seq<real>): real
    requires Valid(g) && |coords| == Axes(g.d)
  {
    NoiseIn(g, Locate(g.d, g.stretch, g.squish, coords))
  }

  /** The normalised sum of the chain that the hash of the in-cell position
      selects. */
  function NoiseIn(g: Generator, f: Frame): real
    requires Valid(g) && FrameFits(g.d, f)
  {
    var head := Get(g.lookup, HashOf(g.d, f.ins));
    Scale(WalkSum(g, f, head), g.norm)
  }

  /** A point whose hash has no lookup entry evaluates to 0. */
  lemma UnlistedHashIsZero(g: Generator, coords: seq<real>)
    requires Valid(g) && |coords| == Axes(g.d)
    requires HashOf(g.d, Locate(g.d, g.stretch, g.squish, coords).ins) !in g.lookup
    ensures NoiseAt(g, coords) == 0.0
  {
  }

  /** The evaluator closure: locate the point, then sum the chain its hash
      selects. */
  method Evaluate(g: Generator, coords: seq<real>) returns (value: real)
    requires Valid(g) && |coords| == Axes(g.d)
    ensures value == NoiseAt(g, coords)
  {
    var f := Locate(g.d, g.stretch, g.squish, coords);
    value := EvaluateIn(g, f);
  }

  /** Hash the in-cell position, walk the chain it selects and scale the
      sum by the normalisation constant. */
  method EvaluateIn(g: Generator, f: Frame) returns (value: real)
    requires Valid(g) && FrameFits(g.d, f)
    ensures value == NoiseIn(g, f)
  {
    var hash := HashOf(g.d, f.ins);
    var head := Get(g.lookup, hash);
    LookupInArena(g, hash);
    var sum, _ := Walk(g, f, head);
    value := Scale(sum, g.norm);
  }

  /** Every lookup entry names a node of the arena. */
  lemma LookupInArena(g: Generator, key: int)
    requires Valid(g)
    ensures Get(g.lookup, key).Some? ==> Get(g.lookup, key).value < |g.arena|
  {
  }

  /** Every key the lookup pairs list selects the chain its pair names:
      the walk from the key's entry yields that chain's records in order. */
  ghost predicate SelectsChains(arena: seq<Node>, lookup: map<int, nat>, pairs: seq<int>, chains: seq<seq<Contribution>>)
  {
    WellLinked(arena)
    && forall j :: 0 <= j < |pairs| / 2 ==>
      pairs[2 * j] in lookup && lookup[pairs[2 * j]] < |arena| && 0 <= pairs[2 * j + 1] < |chains|
      && ChainAt(arena, lookup[pairs[2 * j]]) == chains[pairs[2 * j + 1]]
  }

  /** With increasing keys and chain indices that name chains, every listed
      key selects the chain its pair names, and every key in the table is
      one a pair lists. */
  lemma LookupSelectsChains(squish: real, d: Dim, t: Tables, keyMax: int)
    requires WellFormed(d, t.base, t.p)
    requires |t.lookupPairs| % 2 == 0 && KeysIncreasing(t.lookupPairs)
    requires PairsInRange(t.lookupPairs, keyMax, |Chains(squish, d, t.base, t.p)|)
    ensures var chains := Chains(squish, d, t.base, t.p);
      var lookup := LookupAfter(t.lookupPairs, Heads(chains), PairCount(t.lookupPairs));
      SelectsChains(Layout(chains), lookup, t.lookupPairs, chains)
      && forall key :: key in lookup ==> 0 <= key <= keyMax
  {
    var pairs, chains := t.lookupPairs, Chains(squish, d, t.base, t.p);
    var lookup := LookupAfter(pairs, Heads(chains), PairCount(pairs));
    forall j, j' | 0 <= j < j' < |pairs| / 2
      ensures pairs[2 * j] != pairs[2 * j']
    {
      IncreasingKeysDistinct(pairs, j, j');
    }
    LookupOfDistinct(pairs, Heads(chains));
    LayoutChains(chains);
  }

  /** Builds a generator: the chains from the base sets and the direction
      table, the lookup table from the lookup pairs, then the permutation
      and derived tables from the seed. */
  method MakeNoise(d: Dim, t: Tables, squish: real, stretch: real, norm: real, clientSeed: int) returns (g: Generator)
    requires WellFormed(d, t.base, t.p) && |t.gradients| >= GradientReach(d)
    ensures Valid(g)
    ensures g == Generator(d, squish, stretch, norm,
      Layout(Chains(squish, d, t.base, t.p)),
      LookupAfter(t.lookupPairs, Heads(Chains(squish, d, t.base, t.p)), PairCount(t.lookupPairs)),
      PermOf(clientSeed), g.permD, t.gradients)
  {
    var arena, heads := BuildChains(squish, d, t.base, t.p);
    var lookup := FillLookup(t.lookupPairs, heads);
    var perm, permD := MakePermutation(clientSeed, d);
    g := Generator(d, squish, stretch, norm, arena, lookup, perm[..], permD[..], t.gradients);
    MadeValid(g, t);
  }

  /** A generator built from well-formed tables, with a derived table that
      follows its permutation, is valid. */
  lemma MadeValid(g: Generator, t: Tables)
    requires WellFormed(g.d, t.base, t.p) && |t.gradients| >= GradientReach(g.d)
    requires g.arena == Layout(Chains(g.squish, g.d, t.base, t.p))
    requires g.lookup == LookupAfter(t.lookupPairs, Heads(Chains(g.squish, g.d, t.base, t.p)), PairCount(t.lookupPairs))
    requires |g.perm| == 256 && |g.permD| == 256 && g.gradients == t.gradients
    requires forall j :: 0 <= j < 256 ==> g.permD[j] == Derive(g.d, g.perm[j])
    ensures Valid(g)
  {
    var chains := Chains(g.squish, g.d, t.base, t.p);
    var heads := Heads(chains);
    LayoutChains(chains);
    ChainsShaped(g.squish, g.d, t.base, t.p);
    LayoutShaped(g.d, chains);
    LookupHeads(t.lookupPairs, heads, PairCount(t.lookupPairs));
    forall key | key in g.lookup
      ensures g.lookup[key] < |g.arena|
    {
      var k :| 0 <= k < |heads| && g.lookup[key] == heads[k];
    }
  }
}
