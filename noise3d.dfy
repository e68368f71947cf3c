/** The 3D noise maker: its constant tables, the facts the builder and the
    evaluator rely on about them, and the maker itself. */
module Noise3D {
  import opened Dims
  import opened Permutation
  import opened Contributions
  import opened Hash
  import opened Evaluator
  import opened Rows

  /** NORM_3D. The squish and stretch constants are square-root
      expressions, so the maker takes them as parameters. */
  const Norm3D: real := 1.0 / 103.0

  /** base3D: three base sets of records (multiplier, x, y, z); the first
      two hold four records, the third six. */
  const Base3D: seq<seq<int>> := [
    [0, 0, 0, 0, 1, 1, 0, 0, 1, 0, 1, 0, 1, 0, 0, 1],
    [2, 1, 1, 0, 2, 1, 0, 1, 2, 0, 1, 1, 3, 1, 1, 1],
    [1, 1, 0, 0, 1, 0, 1, 0, 1, 0, 0, 1, 2, 1, 1, 0, 2, 1, 0, 1, 2, 0, 1, 1]
  ]

  /** gradients3D: twenty-four gradient vectors of three components. */
  const Gradients3D: seq<int> := [
    -11, 4, 4, -4, 11, 4, -4, 4, 11, 11, 4, 4,
    4, 11, 4, 4, 4, 11, -11, -4, 4, -4, -11, 4,
    -4, -4, 11, 11, -4, 4, 4, -11, 4, 4, -4, 11,
    -11, 4, -4, -4, 11, -4, -4, 4, -11, 11, 4, -4,
    4, 11, -4, 4, 4, -11, -11, -4, -4, -4, -11, -4,
    -4, -4, -11, 11, -4, -4, 4, -11, -4, 4, -4, -11
  ]

  /** lookupPairs3D: hash key, then chain index, written six pairs to a
      row. */
  const LookupPairs3DRows: seq<seq<int>> := [
    [0, 2, 1, 1, 2, 2, 5, 1, 6, 0, 7, 0],
    [32, 2, 34, 2, 129, 1, 133, 1, 160, 5, 161, 5],
    [518, 0, 519, 0, 546, 4, 550, 4, 645, 3, 647, 3],
    [672, 5, 673, 5, 674, 4, 677, 3, 678, 4, 679, 3],
    [680, 13, 681, 13, 682, 12, 685, 14, 686, 12, 687, 14],
    [712, 20, 714, 18, 809, 21, 813, 23, 840, 20, 841, 21],
    [1198, 19, 1199, 22, 1226, 18, 1230, 19, 1325, 23, 1327, 22],
    [1352, 15, 1353, 17, 1354, 15, 1357, 17, 1358, 16, 1359, 16],
    [1360, 11, 1361, 10, 1362, 11, 1365, 10, 1366, 9, 1367, 9],
    [1392, 11, 1394, 11, 1489, 10, 1493, 10, 1520, 8, 1521, 8],
    [1878, 9, 1879, 9, 1906, 7, 1910, 7, 2005, 6, 2007, 6],
    [2032, 8, 2033, 8, 2034, 7, 2037, 6, 2038, 7, 2039, 6]
  ]

  /** p3D, one row per chain: the base-set selector, then the two extra
      records. */
  const P3DRows: seq<seq<int>> := [
    [0, 0, 1, -1, 0, 0, 1, 0, -1],
    [0, 0, -1, 1, 0, 0, 0, 1, -1],
    [0, 0, -1, 0, 1, 0, 0, -1, 1],
    [0, 2, 1, 1, 0, 1, 1, 1, -1],
    [0, 2, 1, 0, 1, 1, 1, -1, 1],
    [0, 2, 0, 1, 1, 1, -1, 1, 1],
    [1, 3, 2, 1, 0, 3, 1, 2, 0],
    [1, 3, 2, 0, 1, 3, 1, 0, 2],
    [1, 3, 0, 2, 1, 3, 0, 1, 2],
    [1, 1, 1, 0, 0, 2, 2, 0, 0],
    [1, 1, 0, 1, 0, 2, 0, 2, 0],
    [1, 1, 0, 0, 1, 2, 0, 0, 2],
    [2, 0, 0, 0, 0, 1, 1, -1, 1],
    [2, 0, 0, 0, 0, 1, -1, 1, 1],
    [2, 0, 0, 0, 0, 1, 1, 1, -1],
    [2, 3, 1, 1, 1, 2, 0, 0, 2],
    [2, 3, 1, 1, 1, 2, 2, 0, 0],
    [2, 3, 1, 1, 1, 2, 0, 2, 0],
    [2, 1, 1, -1, 1, 2, 0, 0, 2],
    [2, 1, 1, -1, 1, 2, 2, 0, 0],
    [2, 1, -1, 1, 1, 2, 0, 0, 2],
    [2, 1, -1, 1, 1, 2, 0, 2, 0],
    [2, 1, 1, 1, -1, 2, 2, 0, 0],
    [2, 1, 1, 1, -1, 2, 0, 2, 0]
  ]

  /** lookupPairs3D as the program lays it out: the rows end to end. */
  const LookupPairs3D: seq<int> := Flatten(LookupPairs3DRows)

  /** p3D as the program lays it out: the rows end to end. */
  const P3D: seq<int> := Flatten(P3DRows)

  const Tables3D: Tables := Tables(Base3D, Gradients3D, LookupPairs3D, P3D)

  /** Every row of p3D selects one of the three base sets; the first two
      hold four whole records and the third six. */
  lemma Rows3D()
    ensures forall k :: 0 <= k < |P3DRows| ==>
      RowOk(D3, Base3D, P3DRows[k]) && |Base3D[P3DRows[k][0]]| == (if P3DRows[k][0] == 2 then 24 else 16)
  {
  }

  /** Row `k` of p3D builds a chain of the four or six records of its base
      set and two extra records. */
  lemma RowChain3D(squish: real, k: nat)
    requires k < 24
    ensures RowOk(D3, Base3D, P3DRows[k])
    ensures |ChainOf(squish, D3, Base3D, P3DRows[k])| == if P3DRows[k][0] == 2 then 8 else 6
  {
    Rows3D();
    ChainShape(squish, D3, Base3D, P3DRows[k]);
  }

  /** The direction table is well formed and builds twenty-four chains. */
  lemma Chains3D(squish: real)
    ensures WellFormed(D3, Base3D, P3D)
    ensures |Chains(squish, D3, Base3D, P3D)| == 24
  {
    Rows3D();
    ChainsOfRows(squish, D3, Base3D, P3DRows);
  }

  /** A row of six pairs: keys increasing from at least 0 to at most
      `keyMax`, chain indices in 0..count-1. */
  predicate SixPairs(row: seq<int>, keyMax: int, count: int)
  {
    |row| == 12
    && 0 <= row[0] < row[2] < row[4] < row[6] < row[8] < row[10] <= keyMax
    && 0 <= row[1] < count && 0 <= row[3] < count && 0 <= row[5] < count
    && 0 <= row[7] < count && 0 <= row[9] < count && 0 <= row[11] < count
  }

  lemma SixPairsOk(row: seq<int>, keyMax: int, count: int)
    requires SixPairs(row, keyMax, count)
    ensures KeysIncreasing(row) && PairsInRange(row, keyMax, count)
  {
    forall j | 0 <= j < 6
      ensures 0 <= row[2 * j] <= keyMax && 0 <= row[2 * j + 1] < count
      ensures 2 * j + 2 < 12 ==> row[2 * j] < row[2 * j + 2]
    {
      if j == 0 {} else if j == 1 {} else if j == 2 {} else if j == 3 {} else if j == 4 {} else {}
    }
  }

  /** Row by row, lookupPairs3D holds whole pairs with increasing keys in
      range, and each row's last key is below the next row's first. */
  lemma LookupRows3D()
    ensures EvenRows(LookupPairs3DRows)
    ensures forall k :: 0 <= k < |LookupPairs3DRows| ==>
      |LookupPairs3DRows[k]| >= 2 && KeysIncreasing(LookupPairs3DRows[k])
      && PairsInRange(LookupPairs3DRows[k], HashMax(D3), 24)
    ensures forall k :: 0 <= k < |LookupPairs3DRows| - 1 ==>
      LookupPairs3DRows[k][|LookupPairs3DRows[k]| - 2] < LookupPairs3DRows[k + 1][0]
  {
    var r := LookupPairs3DRows;
    assert forall k :: 0 <= k < |r| ==> SixPairs(r[k], 2039, 24);
    forall k | 0 <= k < |r|
      ensures KeysIncreasing(r[k]) && PairsInRange(r[k], HashMax(D3), 24)
    {
      SixPairsOk(r[k], 2039, 24);
    }
  }

  /** lookupPairs3D holds whole pairs, and its keys increase, so no two
      pairs share a key. */
  lemma Lookup3DKeysIncrease()
    ensures |LookupPairs3D| == 144 && KeysIncreasing(LookupPairs3D)
  {
    LookupRows3D();
    FlattenKeysIncreasing(LookupPairs3DRows);
  }

  /** Every key of lookupPairs3D lies in the range of the 3D hash, 0..2039
      (not every value in that range is a hash of some point), and
      every chain index names one of the twenty-four chains. */
  lemma Lookup3DInRange()
    ensures PairsInRange(LookupPairs3D, HashMax(D3), 24)
  {
    LookupRows3D();
    FlattenPairsInRange(LookupPairs3DRows, HashMax(D3), 24);
  }

  /** Every gradient read stays inside gradients3D. */
  lemma Gradients3DReach()
    ensures |Gradients3D| == GradientReach(D3)
  {
  }

  /** The twenty-four chains of the 3D maker. */
  function Chains3DOf(squish: real): seq<seq<Contribution>>
  {
    Chains3D(squish);
    Chains(squish, D3, Base3D, P3D)
  }

  /** The chains of the 3D maker laid out in its arena. */
  function Arena3D(squish: real): seq<Node>
  {
    Layout(Chains3DOf(squish))
  }

  /** The 3D maker's lookup table. */
  function Lookup3DTable(squish: real): map<int, nat>
  {
    LookupAfter(LookupPairs3D, Heads(Chains3DOf(squish)), PairCount(LookupPairs3D))
  }

  /** Every key lookupPairs3D lists selects the chain its pair names. */
  lemma Lookup3DSelects(squish: real)
    ensures SelectsChains(Arena3D(squish), Lookup3DTable(squish), LookupPairs3D, Chains3DOf(squish))
  {
    Lookup3DKeysIncrease();
    Lookup3DInRange();
    Chains3D(squish);
    LookupSelectsChains(squish, D3, Tables3D, HashMax(D3));
  }

  /** Every key in the 3D lookup table lies in the range of the 3D hash,
      0..2039. */
  lemma Lookup3DKeys(squish: real)
    ensures forall key :: key in Lookup3DTable(squish) ==> 0 <= key <= HashMax(D3)
  {
    Lookup3DKeysIncrease();
    Lookup3DInRange();
    Chains3D(squish);
    LookupSelectsChains(squish, D3, Tables3D, HashMax(D3));
  }

  /** makeNoise3D: builds the twenty-four chains, the lookup table and the
      permutation tables for `clientSeed`. */
  method MakeNoise3D(clientSeed: int, squish: real, stretch: real) returns (g: Generator)
    ensures Valid(g)
    ensures g == Generator(D3, squish, stretch, Norm3D, Arena3D(squish), Lookup3DTable(squish),
      PermOf(clientSeed), g.permD, Gradients3D)
  {
    Chains3D(squish);
    Gradients3DReach();
    g := MakeNoise(D3, Tables3D, squish, stretch, Norm3D, clientSeed);
  }
}
