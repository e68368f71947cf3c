/** The 2D noise maker: its constant tables, the facts the builder and the
    evaluator rely on about them, and the maker itself. */
module Noise2D {
  import opened Dims
  import opened Permutation
  import opened Contributions
  import opened Hash
  import opened Evaluator
  import opened Rows

  /** NORM_2D. The squish and stretch constants are square-root
      expressions, so the maker takes them as parameters. */
  const Norm2D: real := 1.0 / 47.0

  /** base2D: two base sets of three records each (multiplier, x, y). */
  const Base2D: seq<seq<int>> := [
    [1, 1, 0, 1, 0, 1, 0, 0, 0],
    [1, 1, 0, 1, 0, 1, 2, 1, 1]
  ]

  /** gradients2D: eight gradient vectors of two components. */
  const Gradients2D: seq<int> := [5, 2, 2, 5, -5, 2, -2, 5, 5, -2, 2, -5, -5, -2, -2, -5]

  /** lookupPairs2D: hash key, then chain index. */
  const LookupPairs2D: seq<int> := [
    0, 1, 1, 0, 4, 1, 17, 0, 20, 2, 21, 2,
    22, 5, 23, 5, 26, 4, 39, 3, 42, 4, 43, 3
  ]

  /** lookupPairs2D, four pairs to a row. */
  const LookupPairs2DRows: seq<seq<int>> := [
    [0, 1, 1, 0, 4, 1, 17, 0],
    [20, 2, 21, 2, 22, 5, 23, 5],
    [26, 4, 39, 3, 42, 4, 43, 3]
  ]

  /** p2D, one row per chain: the base-set selector, then the extra record. */
  const P2DRows: seq<seq<int>> := [
    [0, 0, 1, -1],
    [0, 0, -1, 1],
    [0, 2, 1, 1],
    [1, 2, 2, 0],
    [1, 2, 0, 2],
    [1, 0, 0, 0]
  ]

  /** p2D as the program lays it out. */
  const P2D: seq<int> := [0, 0, 1, -1, 0, 0, -1, 1, 0, 2, 1, 1, 1, 2, 2, 0, 1, 2, 0, 2, 1, 0, 0, 0]

  const Tables2D: Tables := Tables(Base2D, Gradients2D, LookupPairs2D, P2D)

  lemma P2DIsRows()
    ensures P2D == Flatten(P2DRows)
  {
    assert P2DRows == [P2DRows[0], P2DRows[1], P2DRows[2], P2DRows[3], P2DRows[4], P2DRows[5]];
    assert P2D == P2DRows[0] + P2DRows[1] + P2DRows[2] + P2DRows[3] + P2DRows[4] + P2DRows[5];
  }

  /** Every row of p2D selects one of the two base sets, and both hold
      three whole records. */
  lemma Rows2D()
    ensures forall k :: 0 <= k < |P2DRows| ==> RowOk(D2, Base2D, P2DRows[k]) && |Base2D[P2DRows[k][0]]| == 9
  {
  }

  /** The direction table is well formed and builds six chains, each made
      of the three records of its base set followed by one extra record. */
  lemma Chains2D(squish: real)
    ensures WellFormed(D2, Base2D, P2D)
    ensures |Chains(squish, D2, Base2D, P2D)| == 6
    ensures forall k :: 0 <= k < 6 ==> |Chains(squish, D2, Base2D, P2D)[k]| == 4
  {
    P2DIsRows();
    Rows2D();
    ChainsOfRows(squish, D2, Base2D, P2DRows);
    forall k | 0 <= k < 6
      ensures |ChainOf(squish, D2, Base2D, P2DRows[k])| == 4
    {
      ChainShape(squish, D2, Base2D, P2DRows[k]);
    }
  }

  lemma LookupPairs2DIsRows()
    ensures LookupPairs2D == Flatten(LookupPairs2DRows)
  {
    var r := LookupPairs2DRows;
    assert r == [r[0], r[1], r[2]];
    assert LookupPairs2D == r[0] + r[1] + r[2];
  }

  /** Row by row, lookupPairs2D holds whole pairs with increasing keys in
      range, and each row's last key is below the next row's first. */
  lemma LookupRows2D()
    ensures EvenRows(LookupPairs2DRows)
    ensures forall k :: 0 <= k < |LookupPairs2DRows| ==>
      |LookupPairs2DRows[k]| >= 2 && KeysIncreasing(LookupPairs2DRows[k])
      && PairsInRange(LookupPairs2DRows[k], HashMax(D2), 6)
    ensures forall k :: 0 <= k < |LookupPairs2DRows| - 1 ==>
      LookupPairs2DRows[k][|LookupPairs2DRows[k]| - 2] < LookupPairs2DRows[k + 1][0]
  {
  }

  /** lookupPairs2D holds whole pairs, and its keys increase, so no two
      pairs share a key. */
  lemma Lookup2DKeysIncrease()
    ensures |LookupPairs2D| == 24 && KeysIncreasing(LookupPairs2D)
  {
    LookupPairs2DIsRows();
    LookupRows2D();
    FlattenKeysIncreasing(LookupPairs2DRows);
  }

  /** Every key of lookupPairs2D lies in the range of the 2D hash, 0..43
      (not every value in that range is a hash of some point), and
      every chain index names one of the six chains. */
  lemma Lookup2DInRange()
    ensures PairsInRange(LookupPairs2D, HashMax(D2), 6)
  {
    LookupPairs2DIsRows();
    LookupRows2D();
    FlattenPairsInRange(LookupPairs2DRows, HashMax(D2), 6);
  }

  /** Every gradient read stays inside gradients2D. */
  lemma Gradients2DReach()
    ensures |Gradients2D| == GradientReach(D2)
  {
  }

  /** The six chains of the 2D maker. */
  function Chains2DOf(squish: real): seq<seq<Contribution>>
  {
    Chains2D(squish);
    Chains(squish, D2, Base2D, P2D)
  }

  /** The chains of the 2D maker laid out in its arena. */
  function Arena2D(squish: real): seq<Node>
  {
    Layout(Chains2DOf(squish))
  }

  /** The 2D maker's lookup table. */
  function Lookup2DTable(squish: real): map<int, nat>
  {
    LookupAfter(LookupPairs2D, Heads(Chains2DOf(squish)), PairCount(LookupPairs2D))
  }

  /** Every key lookupPairs2D lists selects the chain its pair names. */
  lemma Lookup2DSelects(squish: real)
    ensures SelectsChains(Arena2D(squish), Lookup2DTable(squish), LookupPairs2D, Chains2DOf(squish))
  {
    Lookup2DKeysIncrease();
    Lookup2DInRange();
    Chains2D(squish);
    LookupSelectsChains(squish, D2, Tables2D, HashMax(D2));
  }

  /** Every key in the 2D lookup table lies in the range of the 2D hash,
      0..43. */
  lemma Lookup2DKeys(squish: real)
    ensures forall key :: key in Lookup2DTable(squish) ==> 0 <= key <= HashMax(D2)
  {
    Lookup2DKeysIncrease();
    Lookup2DInRange();
    Chains2D(squish);
    LookupSelectsChains(squish, D2, Tables2D, HashMax(D2));
  }

  /** makeNoise2D: builds the six chains, the lookup table and the
      permutation tables for `clientSeed`. */
  method MakeNoise2D(clientSeed: int, squish: real, stretch: real) returns (g: Generator)
    ensures Valid(g)
    ensures g == Generator(D2, squish, stretch, Norm2D, Arena2D(squish), Lookup2DTable(squish),
      PermOf(clientSeed), g.permD, Gradients2D)
  {
    Chains2D(squish);
    Gradients2DReach();
    g := MakeNoise(D2, Tables2D, squish, stretch, Norm2D, clientSeed);
  }
}
