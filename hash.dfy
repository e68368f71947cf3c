/** The bit-packed hash that selects a contribution chain.

    The evaluator splits each skewed coordinate into its lattice cell and its
    in-cell part `ins`, which lies in [0, 1). The hash truncates a fixed list
    of pairwise differences and running sums of the in-cell parts to int32
    (the `|` operator does this), shifts each to its own bit position and ORs
    them together. Each truncated value is small enough for its bit field, so
    the fields never overlap: the OR is a sum, and every field can be read
    back out of the hash. */
module Hash {
  import opened JsInt
  import opened Dims

  /** In-cell parts: each axis lies in [0, 1). */
  predicate InUnit(ins: seq<real>)
  {
    forall a :: 0 <= a < |ins| ==> 0.0 <= ins[a] < 1.0
  }

  /** ToInt32 of a non-negative number below 2^31: its integer part. */
  function Trunc(r: real): (n: nat)
    requires 0.0 <= r
    ensures n as real <= r < n as real + 1.0
  {
    r.Floor
  }

  /** The truncated hash operands, lowest bit field first. In 2D they are
      `xins - yins + 1`, `inSum`, `inSum + yins` and `inSum + xins`; in 3D and
      4D the one-bit differences come first, then `inSum` and the running sums
      with each in-cell part from the last axis to the first. */
  function Fields(d: Dim, ins: seq<real>): (fs: seq<nat>)
    requires |ins| == Axes(d) && InUnit(ins)
    ensures |fs| == |Shifts(d)| && Within(fs, FieldMax(d))
  {
    match d
    case D2 => Fields2(ins[0], ins[1])
    case D3 => Fields3(ins[0], ins[1], ins[2])
    case D4 => Fields4(ins[0], ins[1], ins[2], ins[3])
  }

  function Fields2(x: real, y: real): (fs: seq<nat>)
    requires 0.0 <= x < 1.0 && 0.0 <= y < 1.0
    ensures Within(fs, FieldMax(D2))
  {
    var s := x + y;
    [Trunc(x - y + 1.0), Trunc(s), Trunc(s + y), Trunc(s + x)]
  }

  function Fields3(x: real, y: real, z: real): (fs: seq<nat>)
    requires 0.0 <= x < 1.0 && 0.0 <= y < 1.0 && 0.0 <= z < 1.0
    ensures Within(fs, FieldMax(D3))
  {
    var s := x + y + z;
    [Trunc(y - z + 1.0), Trunc(x - y + 1.0), Trunc(x - z + 1.0),
     Trunc(s), Trunc(s + z), Trunc(s + y), Trunc(s + x)]
  }

  function Fields4(x: real, y: real, z: real, w: real): (fs: seq<nat>)
    requires 0.0 <= x < 1.0 && 0.0 <= y < 1.0 && 0.0 <= z < 1.0 && 0.0 <= w < 1.0
    ensures Within(fs, FieldMax(D4))
  {
    var s := x + y + z + w;
    [Trunc(z - w + 1.0), Trunc(y - z + 1.0), Trunc(y - w + 1.0),
     Trunc(x - y + 1.0), Trunc(x - z + 1.0), Trunc(x - w + 1.0),
     Trunc(s), Trunc(s + w), Trunc(s + z), Trunc(s + y), Trunc(s + x)]
  }

  /** The shift applied to each operand. */
  function Shifts(d: Dim): seq<nat>
  {
    match d
    case D2 => [0, 1, 2, 4]
    case D3 => [0, 1, 2, 3, 5, 7, 9]
    case D4 => [0, 1, 2, 3, 4, 5, 6, 8, 11, 14, 17]
  }

  /** The largest value each operand can take for in-cell parts in [0, 1). */
  function FieldMax(d: Dim): (m: seq<nat>)
    ensures |m| == |Shifts(d)|
  {
    match d
    case D2 => [1, 1, 2, 2]
    case D3 => [1, 1, 1, 2, 3, 3, 3]
    case D4 => [1, 1, 1, 1, 1, 1, 3, 4, 4, 4, 4]
  }

  /** The bits each field may use: it starts at its shift and ends where the
      next field starts. */
  function Widths(d: Dim): (w: seq<nat>)
    ensures |w| == |Shifts(d)|
  {
    match d
    case D2 => [1, 1, 2, 2]
    case D3 => [1, 1, 1, 2, 2, 2, 2]
    case D4 => [1, 1, 1, 1, 1, 1, 2, 3, 3, 3, 3]
  }

  /** The number of hash bits: 6, 11 and 20. */
  function HashBits(d: Dim): nat
  {
    match d
    case D2 => 6
    case D3 => 11
    case D4 => 20
  }

  /** The largest hash: every operand at its largest value. */
  function HashMax(d: Dim): nat
  {
    match d
    case D2 => 43
    case D3 => 2039
    case D4 => 599295
  }

  /** `fs[0] << sh[0] | ... | fs[n-1] << sh[n-1]`, ORed from the left. */
  function Pack(fs: seq<nat>, sh: seq<nat>, n: nat): nat
    requires n <= |fs| && n <= |sh|
    requires forall i :: 0 <= i < n ==> Shifted(fs[i], sh[i]) < 0x8000_0000
  {
    if n == 0 then 0 else Or(Pack(fs, sh, n - 1), Shl(fs[n - 1], sh[n - 1]))
  }

  /** The sum of the first `n` shifted operands. */
  function Weighted(fs: seq<nat>, sh: seq<nat>, n: nat): nat
    requires n <= |fs| && n <= |sh|
  {
    if n == 0 then 0 else Weighted(fs, sh, n - 1) + Shifted(fs[n - 1], sh[n - 1])
  }

  /** When each operand is shifted past everything ORed in before it, the OR
      of the shifted operands is their sum. */
  lemma {:induction false} PackIsSum(fs: seq<nat>, sh: seq<nat>, n: nat)
    requires n <= |fs| && n <= |sh|
    requires forall i :: 0 <= i < n ==> Shifted(fs[i], sh[i]) < 0x8000_0000
    requires forall i :: 0 < i < n ==> Weighted(fs, sh, i) < Pow2(sh[i])
    ensures Pack(fs, sh, n) == Weighted(fs, sh, n)
    decreases n
  {
    if n > 1 {
      PackIsSum(fs, sh, n - 1);
      OrDisjoint(Weighted(fs, sh, n - 1), fs[n - 1], sh[n - 1]);
    }
  }

  /** The fields tile the low bits: the first starts at bit 0, each next
      one starts where the one before it ends, and each operand's largest
      value fits its width. */
  predicate Tiles(sh: seq<nat>, ws: seq<nat>, mx: seq<nat>)
  {
    |sh| == |ws| == |mx| >= 1 && sh[0] == 0
    && (forall i {:trigger ws[i]} :: 0 <= i < |sh| - 1 ==> sh[i + 1] == sh[i] + ws[i])
    && forall i {:trigger mx[i]} :: 0 <= i < |mx| ==> mx[i] < Pow2(ws[i])
  }

  /** Each operand is within its largest value. */
  predicate Within(fs: seq<nat>, mx: seq<nat>)
  {
    |fs| == |mx| && forall i {:trigger fs[i]} :: 0 <= i < |fs| ==> fs[i] <= mx[i]
  }

  /** The shifts never decrease. */
  lemma ShiftsGrow(sh: seq<nat>, ws: seq<nat>, mx: seq<nat>, lo: nat)
    requires Tiles(sh, ws, mx) && lo < |sh|
    ensures forall j :: lo <= j < |sh| ==> sh[lo] <= sh[j]
  {
    forall j | lo <= j < |sh|
      ensures sh[lo] <= sh[j]
    {
      ShiftsGrowTo(sh, ws, mx, lo, j);
    }
  }

  lemma {:induction false} ShiftsGrowTo(sh: seq<nat>, ws: seq<nat>, mx: seq<nat>, i: nat, j: nat)
    requires Tiles(sh, ws, mx) && i <= j < |sh|
    ensures sh[i] <= sh[j]
    decreases j - i
  {
    if i < j {
      ShiftsGrowTo(sh, ws, mx, i, j - 1);
      assert sh[j] == sh[j - 1] + ws[j - 1];
    }
  }

  /** A value below `2^w` shifted by `s` stays below `2^(s + w)`. */
  lemma ShiftedBelow(f: nat, s: nat, w: nat)
    requires f < Pow2(w)
    ensures Pow2(s) + Shifted(f, s) <= Pow2(s + w)
  {
    ShiftedOne(s);
    ShiftedAdd(1, f, s);
    ShiftedMono(1 + f, Pow2(w), s);
    ShiftedOne(w);
    ShiftedTwice(1, w, s);
    ShiftedOne(w + s);
  }

  /** The first `i` fields stay below the bit where field `i` starts. */
  lemma {:induction false} WeightedBelow(fs: seq<nat>, sh: seq<nat>, ws: seq<nat>, mx: seq<nat>, i: nat)
    requires Tiles(sh, ws, mx) && Within(fs, mx) && 0 < i <= |sh|
    ensures Weighted(fs, sh, i) < Pow2(sh[i - 1] + ws[i - 1])
    ensures i < |sh| ==> Weighted(fs, sh, i) < Pow2(sh[i])
    decreases i
  {
    var s, w := sh[i - 1], ws[i - 1];
    if i > 1 {
      WeightedBelow(fs, sh, ws, mx, i - 1);
      assert s == sh[i - 2] + ws[i - 2];
    }
    assert Weighted(fs, sh, i - 1) < Pow2(s);
    ShiftedBelow(fs[i - 1], s, w);
    if i < |sh| {
      assert sh[i] == s + w;
    }
  }

  /** Adding more shifted operands never lowers the sum. */
  lemma {:induction false} WeightedGrows(fs: seq<nat>, sh: seq<nat>, i: nat, j: nat)
    requires i <= j <= |fs| && j <= |sh|
    ensures Weighted(fs, sh, i) <= Weighted(fs, sh, j)
    decreases j - i
  {
    if i < j {
      WeightedGrows(fs, sh, i, j - 1);
    }
  }

  /** The operands from field `lo` up to field `m`, each shifted relative to
      field `lo`. */
  ghost function Upper(fs: seq<nat>, sh: seq<nat>, lo: nat, m: nat): nat
    requires lo <= m <= |fs| && m <= |sh| && lo < |sh| && forall j :: lo <= j < m ==> sh[lo] <= sh[j]
    decreases m
  {
    if m == lo then 0 else Upper(fs, sh, lo, m - 1) + Shifted(fs[m - 1], sh[m - 1] - sh[lo])
  }

  /** The sum splits at field `lo`: the fields below it, plus the fields from
      it on shifted by `sh[lo]`. */
  lemma {:induction false} WeightedSplit(fs: seq<nat>, sh: seq<nat>, lo: nat, m: nat)
    requires lo <= m <= |fs| && m <= |sh| && lo < |sh| && forall j :: lo <= j < m ==> sh[lo] <= sh[j]
    ensures Weighted(fs, sh, m) == Weighted(fs, sh, lo) + Shifted(Upper(fs, sh, lo, m), sh[lo])
    decreases m
  {
    if m > lo {
      WeightedSplit(fs, sh, lo, m - 1);
      var t: nat := sh[m - 1] - sh[lo];
      ShiftedTwice(fs[m - 1], t, sh[lo]);
      ShiftedAdd(Upper(fs, sh, lo, m - 1), Shifted(fs[m - 1], t), sh[lo]);
    } else {
      assert Shifted(0, sh[lo]) == 0 by {
        ShiftedMono(0, 0, sh[lo]);
        ShiftedAdd(0, 0, sh[lo]);
      }
    }
  }

  /** Every field of a sum of tiled operands reads back as its operand. */
  lemma WeightedUnpacks(fs: seq<nat>, sh: seq<nat>, ws: seq<nat>, mx: seq<nat>, i: nat)
    requires Tiles(sh, ws, mx) && Within(fs, mx) && i < |sh|
    ensures FieldOf(Weighted(fs, sh, |sh|), sh[i], ws[i]) == fs[i]
  {
    var low := Weighted(fs, sh, i);
    if i > 0 {
      WeightedBelow(fs, sh, ws, mx, i);
    }
    assert low < Pow2(sh[i]);
    var high := WeightedAround(fs, sh, ws, mx, i);
    ShiftRightOf(low, fs[i] + Shifted(high, ws[i]), sh[i]);
    LowBitsOf(fs[i], high, ws[i]);
  }

  /** The sum of tiled operands is the operands below field `i`, plus field
      `i` and the operands above it shifted into place. */
  lemma WeightedAround(fs: seq<nat>, sh: seq<nat>, ws: seq<nat>, mx: seq<nat>, i: nat) returns (high: nat)
    requires Tiles(sh, ws, mx) && Within(fs, mx) && i < |sh|
    ensures Weighted(fs, sh, |sh|) == Weighted(fs, sh, i) + Shifted(fs[i] + Shifted(high, ws[i]), sh[i])
  {
    var n, s, w, f := |sh|, sh[i], ws[i], fs[i];
    high := 0;
    ShiftedAdd(0, 0, s + w);
    if i + 1 < n {
      ShiftsGrow(sh, ws, mx, i + 1);
      WeightedSplit(fs, sh, i + 1, n);
      high := Upper(fs, sh, i + 1, n);
      assert sh[i + 1] == s + w;
    }
    assert Weighted(fs, sh, n) == Weighted(fs, sh, i) + Shifted(f, s) + Shifted(high, s + w);
    ShiftedTwice(high, w, s);
    ShiftedAdd(f, Shifted(high, w), s);
  }

  /** The sum of the maxima of a tiled layout is below
      `2^(last shift + last width)`. */
  lemma MaxBelow(sh: seq<nat>, ws: seq<nat>, mx: seq<nat>, bits: nat)
    requires Tiles(sh, ws, mx) && sh[|sh| - 1] + ws[|sh| - 1] == bits
    ensures Weighted(mx, sh, |mx|) < Pow2(bits)
  {
    WeightedBelow(mx, sh, ws, mx, |mx|);
  }

  /** Tiled operands within their maxima fit in 31 bits once shifted, when
      the whole layout does. */
  lemma OperandsFit(fs: seq<nat>, sh: seq<nat>, ws: seq<nat>, mx: seq<nat>, bits: nat)
    requires Tiles(sh, ws, mx) && Within(fs, mx)
    requires sh[|sh| - 1] + ws[|sh| - 1] == bits && Pow2(bits) <= 0x8000_0000
    ensures forall i :: 0 <= i < |fs| ==> Shifted(fs[i], sh[i]) < 0x8000_0000
  {
    var n := |sh|;
    WeightedBelow(fs, sh, ws, mx, n);
    forall i | 0 <= i < n
      ensures Shifted(fs[i], sh[i]) < 0x8000_0000
    {
      WeightedGrows(fs, sh, i + 1, n);
    }
  }

  /** Each prefix of tiled operands stays below the bit where the next
      operand starts. */
  lemma PrefixesClear(fs: seq<nat>, sh: seq<nat>, ws: seq<nat>, mx: seq<nat>)
    requires Tiles(sh, ws, mx) && Within(fs, mx)
    ensures forall i :: 0 < i < |fs| ==> Weighted(fs, sh, i) < Pow2(sh[i])
  {
    forall i | 0 < i < |fs|
      ensures Weighted(fs, sh, i) < Pow2(sh[i])
    {
      WeightedBelow(fs, sh, ws, mx, i);
    }
  }

  lemma {:induction false} WeightedMono(fs: seq<nat>, mx: seq<nat>, sh: seq<nat>, n: nat)
    requires Within(fs, mx) && n <= |fs| && n <= |sh|
    ensures Weighted(fs, sh, n) <= Weighted(mx, sh, n)
    decreases n
  {
    if n > 0 {
      WeightedMono(fs, mx, sh, n - 1);
      ShiftedMono(fs[n - 1], mx[n - 1], sh[n - 1]);
    }
  }

  /** The layout of each dimension tiles its bits, and the largest operands
      sum to HashMax. */
  lemma LayoutTiles(d: Dim)
    ensures Tiles(Shifts(d), Widths(d), FieldMax(d))
    ensures Shifts(d)[|Shifts(d)| - 1] + Widths(d)[|Shifts(d)| - 1] == HashBits(d)
    ensures Weighted(FieldMax(d), Shifts(d), |Shifts(d)|) == HashMax(d)
    ensures Pow2(HashBits(d)) <= 0x8000_0000
  {
    match d
    case D2 => Layout2();
    case D3 => Layout3();
    case D4 => Layout4();
  }

  lemma Layout2()
    ensures Tiles(Shifts(D2), Widths(D2), FieldMax(D2))
    ensures Shifts(D2)[3] + Widths(D2)[3] == HashBits(D2)
    ensures Weighted(FieldMax(D2), Shifts(D2), 4) == HashMax(D2)
    ensures Pow2(HashBits(D2)) <= 0x8000_0000
  {
    Tiles2();
    Max2();
  }

  lemma Tiles2()
    ensures Tiles(Shifts(D2), Widths(D2), FieldMax(D2))
  {
    assert Tiles([0, 1, 2, 4], [1, 1, 2, 2], [1, 1, 2, 2]);
  }

  lemma Max2()
    ensures Shifts(D2)[3] + Widths(D2)[3] == HashBits(D2)
    ensures Weighted(FieldMax(D2), Shifts(D2), 4) == HashMax(D2)
    ensures Pow2(HashBits(D2)) <= 0x8000_0000
  {
    assert Weighted([1, 1, 2, 2], [0, 1, 2, 4], 4) == 43;
    assert Pow2(6) == 64;
  }

  lemma Layout3()
    ensures Tiles(Shifts(D3), Widths(D3), FieldMax(D3))
    ensures Shifts(D3)[6] + Widths(D3)[6] == HashBits(D3)
    ensures Weighted(FieldMax(D3), Shifts(D3), 7) == HashMax(D3)
    ensures Pow2(HashBits(D3)) <= 0x8000_0000
  {
    Tiles3();
    Max3();
  }

  lemma Tiles3()
    ensures Tiles(Shifts(D3), Widths(D3), FieldMax(D3))
  {
    assert Tiles([0, 1, 2, 3, 5, 7, 9], [1, 1, 1, 2, 2, 2, 2], [1, 1, 1, 2, 3, 3, 3]);
  }

  lemma Max3()
    ensures Shifts(D3)[6] + Widths(D3)[6] == HashBits(D3)
    ensures Weighted(FieldMax(D3), Shifts(D3), 7) == HashMax(D3)
    ensures Pow2(HashBits(D3)) <= 0x8000_0000
  {
    assert Weighted([1, 1, 1, 2, 3, 3, 3], [0, 1, 2, 3, 5, 7, 9], 7) == 2039;
    assert Pow2(11) == 2048;
  }

  lemma Layout4()
    ensures Tiles(Shifts(D4), Widths(D4), FieldMax(D4))
    ensures Shifts(D4)[10] + Widths(D4)[10] == HashBits(D4)
    ensures Weighted(FieldMax(D4), Shifts(D4), 11) == HashMax(D4)
    ensures Pow2(HashBits(D4)) <= 0x8000_0000
  {
    Tiles4();
    Max4();
  }

  lemma Tiles4()
    ensures Tiles(Shifts(D4), Widths(D4), FieldMax(D4))
  {
    assert Tiles([0, 1, 2, 3, 4, 5, 6, 8, 11, 14, 17], [1, 1, 1, 1, 1, 1, 2, 3, 3, 3, 3], [1, 1, 1, 1, 1, 1, 3, 4, 4, 4, 4]);
  }

  lemma Max4()
    ensures Shifts(D4)[10] + Widths(D4)[10] == HashBits(D4)
    ensures Weighted(FieldMax(D4), Shifts(D4), 11) == HashMax(D4)
    ensures Pow2(HashBits(D4)) <= 0x8000_0000
  {
    var mx, sh := FieldMax(D4), Shifts(D4);
    assert Weighted(mx, sh, 6) == 63;
    assert Shifted(3, 6) == 192 && Shifted(4, 8) == 1024 && Shifted(4, 11) == 8192;
    assert Shifted(4, 14) == 65536 && Shifted(4, 17) == 524288;
    assert Weighted(mx, sh, 8) == 1279;
    assert Weighted(mx, sh, 11) == 599295;
    assert Pow2(10) == 1024;
    assert Pow2(20) == 0x10_0000;
  }

  /** The hash of the in-cell parts. */
  function HashOf(d: Dim, ins: seq<real>): (h: nat)
    requires |ins| == Axes(d) && InUnit(ins)
  {
    var fs := Fields(d, ins);
    ShiftsFit(d, fs);
    Pack(fs, Shifts(d), |fs|)
  }

  /** The hash operands within their maxima fit the layout. */
  lemma ShiftsFit(d: Dim, fs: seq<nat>)
    requires Within(fs, FieldMax(d))
    ensures forall i :: 0 <= i < |fs| ==> Shifted(fs[i], Shifts(d)[i]) < 0x8000_0000
    ensures forall i :: 0 < i < |fs| ==> Weighted(fs, Shifts(d), i) < Pow2(Shifts(d)[i])
    ensures Weighted(fs, Shifts(d), |fs|) <= HashMax(d) < Pow2(HashBits(d))
  {
    LayoutTiles(d);
    LayoutFits(fs, Shifts(d), Widths(d), FieldMax(d), HashBits(d), HashMax(d));
  }

  /** Operands within the maxima of a tiled layout that fits in 31 bits fit
      it, and their sum is at most the sum of the maxima. */
  lemma LayoutFits(fs: seq<nat>, sh: seq<nat>, ws: seq<nat>, mx: seq<nat>, bits: nat, max: nat)
    requires Tiles(sh, ws, mx) && Within(fs, mx)
    requires sh[|sh| - 1] + ws[|sh| - 1] == bits && Weighted(mx, sh, |mx|) == max
    requires Pow2(bits) <= 0x8000_0000
    ensures forall i :: 0 <= i < |fs| ==> Shifted(fs[i], sh[i]) < 0x8000_0000
    ensures forall i :: 0 < i < |fs| ==> Weighted(fs, sh, i) < Pow2(sh[i])
    ensures Weighted(fs, sh, |fs|) <= max < Pow2(bits)
  {
    OperandsFit(fs, sh, ws, mx, bits);
    PrefixesClear(fs, sh, ws, mx);
    WeightedMono(fs, mx, sh, |sh|);
    MaxBelow(sh, ws, mx, bits);
  }

  /** The OR of the fields is their sum, at most the largest hash, and below
      2^6, 2^11 or 2^20. */
  lemma HashIsSum(d: Dim, ins: seq<real>)
    requires |ins| == Axes(d) && InUnit(ins)
    ensures HashOf(d, ins) == Weighted(Fields(d, ins), Shifts(d), |Shifts(d)|)
    ensures HashOf(d, ins) <= HashMax(d) < Pow2(HashBits(d))
  {
    var fs, sh := Fields(d, ins), Shifts(d);
    ShiftsFit(d, fs);
    assert HashOf(d, ins) == Pack(fs, sh, |fs|);
    PackIsSum(fs, sh, |fs|);
  }

  /** The bit field of `h` that starts at bit `s` and is `w` bits wide. */
  function FieldOf(h: nat, s: nat, w: nat): nat
  {
    LowBits(ShiftRight(h, s), w)
  }

  /** The fields do not overlap: each operand reads back from the hash. */
  lemma HashUnpacks(d: Dim, ins: seq<real>)
    requires |ins| == Axes(d) && InUnit(ins)
    ensures forall i :: 0 <= i < |Shifts(d)| ==>
      FieldOf(HashOf(d, ins), Shifts(d)[i], Widths(d)[i]) == Fields(d, ins)[i]
  {
    HashIsSum(d, ins);
    LayoutTiles(d);
    forall i | 0 <= i < |Shifts(d)|
      ensures FieldOf(HashOf(d, ins), Shifts(d)[i], Widths(d)[i]) == Fields(d, ins)[i]
    {
      WeightedUnpacks(Fields(d, ins), Shifts(d), Widths(d), FieldMax(d), i);
    }
  }
}
