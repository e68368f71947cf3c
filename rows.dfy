/** Lookup tables written as rows of whole (key, chain) pairs and laid end
    to end: how facts proved row by row carry over to the flat table. */
module Rows {
  import opened Contributions

  /** Every row holds whole pairs. */
  predicate EvenRows(rows: seq<seq<int>>)
  {
    forall k :: 0 <= k < |rows| ==> |rows[k]| % 2 == 0
  }

  lemma {:induction false} FlattenEven(rows: seq<seq<int>>)
    requires EvenRows(rows)
    ensures |Flatten(rows)| % 2 == 0
    decreases |rows|
  {
    if rows != [] {
      FlattenEven(rows[1..]);
    }
  }

  /** Two tables of whole pairs, each in range, are in range end to end. */
  lemma PairsInRangeConcat(a: seq<int>, b: seq<int>, keyMax: int, count: int)
    requires |a| % 2 == 0 && PairsInRange(a, keyMax, count) && PairsInRange(b, keyMax, count)
    ensures PairsInRange(a + b, keyMax, count)
  {
    var p, h := a + b, |a| / 2;
    forall j | 0 <= j < |p| / 2
      ensures 0 <= p[2 * j] <= keyMax && 0 <= p[2 * j + 1] < count
    {
      if j >= h {
        var j' := j - h;
        assert p[2 * j] == b[2 * j'] && p[2 * j + 1] == b[2 * j' + 1];
      }
    }
  }

  /** Two tables of whole pairs with increasing keys, where the last key of
      the first is below the first key of the second, have increasing keys
      end to end. */
  lemma KeysIncreasingConcat(a: seq<int>, b: seq<int>)
    requires |a| % 2 == 0 && |b| % 2 == 0 && KeysIncreasing(a) && KeysIncreasing(b)
    requires |a| >= 2 && |b| >= 2 ==> a[|a| - 2] < b[0]
    ensures KeysIncreasing(a + b)
  {
    var p, h := a + b, |a| / 2;
    forall j | 0 <= j < |p| / 2 && 2 * j + 2 < |p|
      ensures p[2 * j] < p[2 * j + 2]
    {
      if j >= h {
        var j' := j - h;
        assert p[2 * j] == b[2 * j'] && p[2 * j + 2] == b[2 * j' + 2];
      } else if j + 1 == h {
        assert p[2 * j] == a[|a| - 2] && p[2 * j + 2] == b[0];
      }
    }
  }

  /** Keys and chain indices in range row by row are in range in the flat
      table. */
  lemma {:induction false} FlattenPairsInRange(rows: seq<seq<int>>, keyMax: int, count: int)
    requires EvenRows(rows)
    requires forall k :: 0 <= k < |rows| ==> PairsInRange(rows[k], keyMax, count)
    ensures PairsInRange(Flatten(rows), keyMax, count)
    decreases |rows|
  {
    if rows != [] {
      FlattenPairsInRange(rows[1..], keyMax, count);
      PairsInRangeConcat(rows[0], Flatten(rows[1..]), keyMax, count);
    }
  }

  /** Keys that increase inside every row and from each row's last key to
      the next row's first increase along the flat table. */
  lemma {:induction false} FlattenKeysIncreasing(rows: seq<seq<int>>)
    requires EvenRows(rows)
    requires forall k :: 0 <= k < |rows| ==> |rows[k]| >= 2 && KeysIncreasing(rows[k])
    requires forall k :: 0 <= k < |rows| - 1 ==> rows[k][|rows[k]| - 2] < rows[k + 1][0]
    ensures KeysIncreasing(Flatten(rows))
    decreases |rows|
  {
    if rows != [] {
      var rest := rows[1..];
      FlattenKeysIncreasing(rest);
      FlattenEven(rest);
      if |rows| > 1 {
        assert Flatten(rest)[0] == rows[1][0];
      }
      KeysIncreasingConcat(rows[0], Flatten(rest));
    }
  }
}
