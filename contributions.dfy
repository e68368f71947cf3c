/** The contribution chains of a noise maker and the lookup table that picks
    a chain by hash key.

    The original program builds every chain out of heap records joined by a `next`
    field. Here the records live in an arena, a sequence of nodes, and `next`
    holds the arena index of the following node. A chain is the records of
    one base set in table order, followed by the extra records of one
    direction-table row. */
module Contributions {
  import opened JsInt
  import opened Dims

  datatype Option<T> = None | Some(value: T)

  /** One lattice-point record: the displacement added to the evaluation
      point's own displacement, and the integer lattice offset. */
  datatype Contribution = Contribution(delta: seq<real>, lattice: seq<int>)

  /** An arena slot: a record and the index of the next record of its chain. */
  datatype Node = Node(contribution: Contribution, next: Option<nat>)

  /** `x * k`, as one term. */
  function Scale(x: real, k: real): real
  {
    x * k
  }

  /** The record for lattice offset `lattice` at squish multiplier
      `multiplier`. The offset is kept as given; on every axis the
      displacement is the negated offset moved back by `multiplier` times the
      squish constant, so offset plus displacement is the same on all axes.
      The squish constant is irrational and enters as a parameter. */
  function MakeContribution(squish: real, multiplier: int, lattice: seq<int>): (c: Contribution)
    ensures c.lattice == lattice && |c.delta| == |lattice|
  {
    Contribution(seq(|lattice|, a requires 0 <= a < |lattice| => -(lattice[a] as real) - Scale(multiplier as real, squish)), lattice)
  }

  /** Offset plus displacement is `-multiplier * squish` on every axis. */
  lemma ContributionShift(squish: real, multiplier: int, lattice: seq<int>)
    ensures forall a :: 0 <= a < |lattice| ==>
      MakeContribution(squish, multiplier, lattice).delta[a] + lattice[a] as real == -(multiplier as real) * squish
  {
    assert -(multiplier as real) * squish == -Scale(multiplier as real, squish);
  }

  /** A record of a `d`-dimensional noise maker: one displacement and one
      offset per axis. */
  predicate Shaped(d: Dim, c: Contribution)
  {
    |c.delta| == Axes(d) && |c.lattice| == Axes(d)
  }

  /** The records of a flat table slice: consecutive groups of `Stride(d)`
      entries, a multiplier followed by one offset per axis. */
  function Decode(squish: real, d: Dim, flat: seq<int>): (cs: seq<Contribution>)
    ensures forall j :: 0 <= j < |cs| ==> Shaped(d, cs[j])
    decreases |flat|
  {
    if |flat| < Stride(d) then []
    else [MakeContribution(squish, flat[0], flat[1..Stride(d)])] + Decode(squish, d, flat[Stride(d)..])
  }

  /** A slice holds one record per whole stride. */
  lemma {:induction false} DecodeLength(squish: real, d: Dim, flat: seq<int>)
    ensures |Decode(squish, d, flat)| == |flat| / Stride(d)
    decreases |flat|
  {
    if |flat| >= Stride(d) {
      DecodeLength(squish, d, flat[Stride(d)..]);
      DivStep(|flat|, Stride(d));
    }
  }

  /** The rows of a table laid end to end. */
  function Flatten(rows: seq<seq<int>>): (xs: seq<int>)
    decreases |rows|
  {
    if rows == [] then [] else rows[0] + Flatten(rows[1..])
  }

  /** What the builder needs of a direction-table row: a selector naming a
      base set that exists, is not empty and is a whole number of records.
      Otherwise the program dereferences `undefined` or `null`. */
  predicate RowOk(d: Dim, base: seq<seq<int>>, row: seq<int>)
  {
    |row| == RowStride(d) && 0 <= row[0] < |base|
    && |base[row[0]]| > 0 && |base[row[0]]| % Stride(d) == 0
  }

  /** A direction table made of whole rows, each well formed. */
  predicate WellFormed(d: Dim, base: seq<seq<int>>, p: seq<int>)
    decreases |p|
  {
    |p| == 0 || (|p| >= RowStride(d) && RowOk(d, base, p[..RowStride(d)]) && WellFormed(d, base, p[RowStride(d)..]))
  }

  /** The chain a row describes: the records of the selected base set, then
      the `Axes(d) - 1` extra records stored in the row after the selector. */
  function ChainOf(squish: real, d: Dim, base: seq<seq<int>>, row: seq<int>): seq<Contribution>
    requires RowOk(d, base, row)
  {
    Decode(squish, d, base[row[0]]) + Decode(squish, d, row[1..])
  }

  /** A chain holds one record per base-set stride plus `Axes(d) - 1` extras,
      base-set records first. */
  lemma ChainShape(squish: real, d: Dim, base: seq<seq<int>>, row: seq<int>)
    requires RowOk(d, base, row)
    ensures |ChainOf(squish, d, base, row)| == |base[row[0]]| / Stride(d) + (Axes(d) - 1)
    ensures ChainOf(squish, d, base, row)[..|base[row[0]]| / Stride(d)] == Decode(squish, d, base[row[0]])
    ensures ChainOf(squish, d, base, row)[|base[row[0]]| / Stride(d)..] == Decode(squish, d, row[1..])
  {
    DecodeLength(squish, d, base[row[0]]);
    DecodeLength(squish, d, row[1..]);
  }

  /** One chain per row of the direction table, in row order. */
  function Chains(squish: real, d: Dim, base: seq<seq<int>>, p: seq<int>): (cs: seq<seq<Contribution>>)
    requires WellFormed(d, base, p)
    ensures forall k :: 0 <= k < |cs| ==> |cs[k]| >= 1
    decreases |p|
  {
    if |p| == 0 then []
    else
      ChainShape(squish, d, base, p[..RowStride(d)]);
      [ChainOf(squish, d, base, p[..RowStride(d)])] + Chains(squish, d, base, p[RowStride(d)..])
  }

  /** The builder's outer loop steps by one row, so it builds `|p| / RowStride(d)`
      chains. */
  lemma {:induction false} ChainCount(squish: real, d: Dim, base: seq<seq<int>>, p: seq<int>)
    requires WellFormed(d, base, p)
    ensures |Chains(squish, d, base, p)| == |p| / RowStride(d)
    decreases |p|
  {
    if |p| > 0 {
      ChainCount(squish, d, base, p[RowStride(d)..]);
      DivStep(|p|, RowStride(d));
    }
  }

  /** A table given as rows is well formed when every row is, and it yields
      one chain per row. */
  lemma {:induction false} ChainsOfRows(squish: real, d: Dim, base: seq<seq<int>>, rows: seq<seq<int>>)
    requires forall k :: 0 <= k < |rows| ==> RowOk(d, base, rows[k])
    ensures WellFormed(d, base, Flatten(rows))
    ensures |Chains(squish, d, base, Flatten(rows))| == |rows|
    ensures forall k :: 0 <= k < |rows| ==> Chains(squish, d, base, Flatten(rows))[k] == ChainOf(squish, d, base, rows[k])
    decreases |rows|
  {
    if rows != [] {
      ChainsOfRows(squish, d, base, rows[1..]);
      var p := Flatten(rows);
      assert p[..RowStride(d)] == rows[0];
      assert p[RowStride(d)..] == Flatten(rows[1..]);
    }
  }

  /** A chain stored from arena index `start` on, each node pointing at the
      next slot and the last one at nothing. */
  function Link(start: nat, cs: seq<Contribution>): (ns: seq<Node>)
    ensures |ns| == |cs|
  {
    seq(|cs|, j requires 0 <= j < |cs| => Node(cs[j], if j + 1 < |cs| then Some(start + j + 1) else None))
  }

  /** The arena the builder produces: the chains stored one after another. */
  function Layout(chains: seq<seq<Contribution>>): (arena: seq<Node>)
    decreases |chains|
  {
    if chains == [] then []
    else
      var front := Layout(chains[..|chains| - 1]);
      front + Link(|front|, chains[|chains| - 1])
  }

  /** The arena index of each chain's first node. The chains occupy
      consecutive, non-overlapping slot ranges in chain order. */
  function Heads(chains: seq<seq<Contribution>>): (h: seq<nat>)
    ensures |h| == |chains|
    decreases |chains|
  {
    if chains == [] then []
    else
      var front := chains[..|chains| - 1];
      Heads(front) + [|Layout(front)|]
  }

  /** Every link points forward and stays inside the arena, so following
      links always ends. */
  predicate WellLinked(arena: seq<Node>)
  {
    forall i :: 0 <= i < |arena| && arena[i].next.Some? ==> i < arena[i].next.value < |arena|
  }

  /** The arena indices visited from node `i` until a node without `next`. */
  function Visit(arena: seq<Node>, i: nat): (path: seq<nat>)
    requires WellLinked(arena) && i < |arena|
    ensures |path| >= 1 && path[0] == i
    ensures forall j :: 0 <= j < |path| ==> i <= path[j] < |arena|
    decreases |arena| - i
  {
    match arena[i].next
    case None => [i]
    case Some(n) => [i] + Visit(arena, n)
  }

  /** The records of the chain that starts at node `i`. */
  function ChainAt(arena: seq<Node>, i: nat): (c: seq<Contribution>)
    requires WellLinked(arena) && i < |arena|
    ensures |c| == |Visit(arena, i)|
  {
    var path := Visit(arena, i);
    seq(|path|, j requires 0 <= j < |path| => arena[path[j]].contribution)
  }

  /** lo, lo + 1, ..., hi - 1. */
  function Range(lo: nat, hi: nat): (r: seq<nat>)
    requires lo <= hi
    ensures |r| == hi - lo && forall j :: 0 <= j < |r| ==> r[j] == lo + j
  {
    seq(hi - lo, j requires 0 <= j < hi - lo => lo + j)
  }

  lemma LinkTail(start: nat, cs: seq<Contribution>)
    requires |cs| >= 1
    ensures Link(start, cs)[1..] == Link(start + 1, cs[1..])
  {
  }

  /** Appending a record to a chain under construction points the former
      last node at the new slot. */
  lemma LinkAppend(start: nat, cs: seq<Contribution>, c: Contribution)
    ensures |cs| == 0 ==> Link(start, cs + [c]) == [Node(c, None)]
    ensures |cs| > 0 ==>
      Link(start, cs + [c]) == Link(start, cs)[|cs| - 1 := Node(cs[|cs| - 1], Some(start + |cs|))] + [Node(c, None)]
  {
  }

  /** A chain stored with `Link` is walked slot by slot to its end. */
  lemma {:induction false} VisitLink(arena: seq<Node>, s: nat, cs: seq<Contribution>)
    requires WellLinked(arena) && |cs| >= 1 && s + |cs| <= |arena|
    requires arena[s..s + |cs|] == Link(s, cs)
    ensures Visit(arena, s) == Range(s, s + |cs|)
    decreases |cs|
  {
    assert arena[s] == Link(s, cs)[0];
    if |cs| > 1 {
      LinkTail(s, cs);
      assert arena[s + 1..s + |cs|] == arena[s..s + |cs|][1..];
      VisitLink(arena, s + 1, cs[1..]);
      assert Range(s, s + |cs|) == [s] + Range(s + 1, s + |cs|);
    }
  }

  lemma {:induction false} LayoutWellLinked(chains: seq<seq<Contribution>>)
    ensures WellLinked(Layout(chains))
    decreases |chains|
  {
    if chains != [] {
      var front := Layout(chains[..|chains| - 1]);
      LayoutWellLinked(chains[..|chains| - 1]);
      var arena := Layout(chains);
      forall i | 0 <= i < |arena| && arena[i].next.Some?
        ensures i < arena[i].next.value < |arena|
      {
        if i < |front| {
          assert arena[i] == front[i];
        }
      }
    }
  }

  /** Each chain sits in the arena exactly as `Link` stores it, from its
      head on. */
  lemma {:induction false} LayoutSlice(chains: seq<seq<Contribution>>, k: nat)
    requires k < |chains|
    ensures Heads(chains)[k] + |chains[k]| <= |Layout(chains)|
    ensures Layout(chains)[Heads(chains)[k]..Heads(chains)[k] + |chains[k]|] == Link(Heads(chains)[k], chains[k])
    decreases |chains|
  {
    var front := chains[..|chains| - 1];
    var f := Layout(front);
    var h := Heads(chains)[k];
    if k < |chains| - 1 {
      LayoutSlice(front, k);
      assert Heads(chains)[k] == Heads(front)[k];
      assert Layout(chains)[h..h + |chains[k]|] == f[h..h + |chains[k]|];
    } else {
      assert Layout(chains)[h..h + |chains[k]|] == Link(|f|, chains[k]);
    }
  }

  /** A chain stored with `Link` reads back as its records. */
  lemma ChainAtLink(arena: seq<Node>, s: nat, cs: seq<Contribution>)
    requires WellLinked(arena) && |cs| >= 1 && s + |cs| <= |arena|
    requires arena[s..s + |cs|] == Link(s, cs)
    ensures ChainAt(arena, s) == cs
  {
    VisitLink(arena, s, cs);
    var c, path := ChainAt(arena, s), Visit(arena, s);
    forall j | 0 <= j < |cs|
      ensures c[j] == cs[j]
    {
      assert path[j] == s + j;
      assert arena[s + j] == arena[s..s + |cs|][j];
    }
  }

  /** Walking from chain `k`'s head visits exactly its slots. */
  lemma LayoutVisit(chains: seq<seq<Contribution>>, k: nat)
    requires k < |chains| && |chains[k]| >= 1
    ensures WellLinked(Layout(chains)) && Heads(chains)[k] < |Layout(chains)|
    ensures Visit(Layout(chains), Heads(chains)[k]) == Range(Heads(chains)[k], Heads(chains)[k] + |chains[k]|)
  {
    LayoutWellLinked(chains);
    LayoutSlice(chains, k);
    VisitLink(Layout(chains), Heads(chains)[k], chains[k]);
  }

  /** Walking from chain `k`'s head yields its records in order. */
  lemma LayoutChain(chains: seq<seq<Contribution>>, k: nat)
    requires k < |chains| && |chains[k]| >= 1
    ensures WellLinked(Layout(chains)) && Heads(chains)[k] < |Layout(chains)|
    ensures ChainAt(Layout(chains), Heads(chains)[k]) == chains[k]
  {
    LayoutWellLinked(chains);
    LayoutSlice(chains, k);
    ChainAtLink(Layout(chains), Heads(chains)[k], chains[k]);
  }

  /** Chain `k` ends at or before the head of every later chain. */
  lemma {:induction false} HeadsOrdered(chains: seq<seq<Contribution>>, k: nat, k': nat)
    requires k < k' < |chains|
    ensures Heads(chains)[k] + |chains[k]| <= Heads(chains)[k']
    decreases |chains|
  {
    var front := chains[..|chains| - 1];
    assert Heads(chains)[k] == Heads(front)[k];
    if k' < |chains| - 1 {
      HeadsOrdered(front, k, k');
    } else {
      assert front[k] == chains[k];
      LayoutSlice(front, k);
    }
  }

  lemma InRange(lo: nat, hi: nat, x: nat)
    requires lo <= hi
    ensures x in Range(lo, hi) <==> lo <= x < hi
  {
    if lo <= x < hi {
      assert Range(lo, hi)[x - lo] == x;
    }
  }

  /** Every chain of the arena reads back from its head. */
  lemma LayoutChains(chains: seq<seq<Contribution>>)
    requires forall k :: 0 <= k < |chains| ==> |chains[k]| >= 1
    ensures WellLinked(Layout(chains))
    ensures forall k :: 0 <= k < |chains| ==>
      Heads(chains)[k] < |Layout(chains)| && ChainAt(Layout(chains), Heads(chains)[k]) == chains[k]
  {
    LayoutWellLinked(chains);
    forall k | 0 <= k < |chains|
      ensures Heads(chains)[k] < |Layout(chains)| && ChainAt(Layout(chains), Heads(chains)[k]) == chains[k]
    {
      LayoutChain(chains, k);
    }
  }

  /** Two different chains share no arena node. */
  lemma ChainsDisjoint(chains: seq<seq<Contribution>>, k: nat, k': nat)
    requires k < |chains| && k' < |chains| && k != k'
    requires |chains[k]| >= 1 && |chains[k']| >= 1
    ensures WellLinked(Layout(chains))
    ensures Heads(chains)[k] < |Layout(chains)| && Heads(chains)[k'] < |Layout(chains)|
    ensures forall x :: x in Visit(Layout(chains), Heads(chains)[k]) ==> x !in Visit(Layout(chains), Heads(chains)[k'])
  {
    var h, h' := Heads(chains)[k], Heads(chains)[k'];
    LayoutVisit(chains, k);
    LayoutVisit(chains, k');
    if k < k' {
      HeadsOrdered(chains, k, k');
    } else {
      HeadsOrdered(chains, k', k);
    }
    RangesDisjoint(h, h + |chains[k]|, h', h' + |chains[k']|);
  }

  /** Ranges that do not overlap share no element. */
  lemma RangesDisjoint(lo: nat, hi: nat, lo': nat, hi': nat)
    requires lo <= hi && lo' <= hi' && (hi <= lo' || hi' <= lo)
    ensures forall x :: x in Range(lo, hi) ==> x !in Range(lo', hi')
  {
    forall x | x in Range(lo, hi)
      ensures x !in Range(lo', hi')
    {
      InRange(lo, hi, x);
      InRange(lo', hi', x);
    }
  }

  /** `xs` is a whole number of strides of width `w`. */
  predicate Strided(w: nat, xs: seq<int>)
    requires w >= 1
    decreases |xs|
  {
    |xs| == 0 || (|xs| >= w && Strided(w, xs[w..]))
  }

  lemma {:induction false} StridedOfMod(w: nat, xs: seq<int>)
    requires w >= 1 && |xs| % w == 0
    ensures Strided(w, xs)
    decreases |xs|
  {
    if |xs| > 0 {
      StrideStep(|xs|, w);
      StridedOfMod(w, xs[w..]);
    }
  }

  /** Linking the former last node of the chain at `start` to a new slot and
      storing the record there extends the chain by that record. */
  lemma Attach(arena: seq<Node>, linked: seq<Node>, start: nat, built: seq<Contribution>, c: Contribution)
    requires start + |built| == |arena| && arena[start..] == Link(start, built)
    requires linked == if |arena| > start then arena[|arena| - 1 := arena[|arena| - 1].(next := Some(|arena|))] else arena
    ensures (linked + [Node(c, None)])[..start] == arena[..start]
    ensures (linked + [Node(c, None)])[start..] == Link(start, built + [c])
  {
    LinkAppend(start, built, c);
    if |built| > 0 {
      assert arena[|arena| - 1] == Link(start, built)[|built| - 1];
      assert linked[start..] == Link(start, built)[|built| - 1 := Node(built[|built| - 1], Some(start + |built|))];
    }
    assert (linked + [Node(c, None)])[start..] == linked[start..] + [Node(c, None)];
  }

  /** Appends the records of `flat` to the chain that starts at arena slot
      `start`, each new node linked from the one before it. */
  method AppendRecords(squish: real, d: Dim, arena: seq<Node>, start: nat, ghost partial: seq<Contribution>, flat: seq<int>)
      returns (arena': seq<Node>)
    requires start + |partial| == |arena| && arena[start..] == Link(start, partial)
    requires |flat| % Stride(d) == 0
    ensures |arena'| >= start && arena'[..start] == arena[..start]
    ensures arena'[start..] == Link(start, partial + Decode(squish, d, flat))
  {
    var s := Stride(d);
    StridedOfMod(s, flat);
    arena' := arena;
    ghost var built := partial;
    var k := 0;
    while k < |flat|
      invariant 0 <= k <= |flat| && Strided(s, flat[k..])
      invariant start + |built| == |arena'|
      invariant arena'[..start] == arena[..start] && arena'[start..] == Link(start, built)
      invariant partial + Decode(squish, d, flat) == built + Decode(squish, d, flat[k..])
    {
      arena', built := StoreRecord(squish, d, flat, k, arena', start, built);
      k := k + s;
    }
    assert flat[k..] == [];
  }

  /** One round of the loop above: decodes the record at `flat[k..]` and
      appends it to the chain under construction. */
  method StoreRecord(squish: real, d: Dim, flat: seq<int>, k: nat, arena: seq<Node>, start: nat, ghost built: seq<Contribution>)
      returns (arena': seq<Node>, ghost built': seq<Contribution>)
    requires k < |flat| && Strided(Stride(d), flat[k..])
    requires start + |built| == |arena| && arena[start..] == Link(start, built)
    ensures k + Stride(d) <= |flat| && Strided(Stride(d), flat[k + Stride(d)..])
    ensures start + |built'| == |arena'| && arena'[..start] == arena[..start] && arena'[start..] == Link(start, built')
    ensures built + Decode(squish, d, flat[k..]) == built' + Decode(squish, d, flat[k + Stride(d)..])
  {
    var s := Stride(d);
    DecodeStep(squish, d, flat, k);
    var current := MakeContribution(squish, flat[k], flat[k + 1..k + s]);
    arena' := AppendRecord(arena, start, built, current);
    built' := built + [current];
  }

  /** A slice of whole strides decodes to its first record followed by the
      records of the rest. */
  lemma DecodeStep(squish: real, d: Dim, flat: seq<int>, k: nat)
    requires k < |flat| && Strided(Stride(d), flat[k..])
    ensures k + Stride(d) <= |flat| && Strided(Stride(d), flat[k + Stride(d)..])
    ensures Decode(squish, d, flat[k..])
      == [MakeContribution(squish, flat[k], flat[k + 1..k + Stride(d)])] + Decode(squish, d, flat[k + Stride(d)..])
  {
    assert flat[k..][Stride(d)..] == flat[k + Stride(d)..];
    assert flat[k..][1..Stride(d)] == flat[k + 1..k + Stride(d)];
  }

  /** Stores record `c` after the chain under construction at `start`: the
      former last node now links to the new slot. */
  method AppendRecord(arena: seq<Node>, start: nat, ghost built: seq<Contribution>, c: Contribution) returns (arena': seq<Node>)
    requires start + |built| == |arena| && arena[start..] == Link(start, built)
    ensures |arena'| == |arena| + 1
    ensures arena'[..start] == arena[..start] && arena'[start..] == Link(start, built + [c])
  {
    var linked := arena;
    if |arena| > start {
      var previous := |arena| - 1;
      linked := arena[previous := arena[previous].(next := Some(|arena|))];
    }
    Attach(arena, linked, start, built, c);
    arena' := linked + [Node(c, None)];
  }

  /** The next row of a well-formed table. */
  lemma ChainsNext(squish: real, d: Dim, base: seq<seq<int>>, p: seq<int>, i: nat)
    requires i < |p| && WellFormed(d, base, p[i..])
    ensures i + RowStride(d) <= |p| && RowOk(d, base, p[i..i + RowStride(d)])
    ensures WellFormed(d, base, p[i + RowStride(d)..])
    ensures Chains(squish, d, base, p[i..])
      == [ChainOf(squish, d, base, p[i..i + RowStride(d)])] + Chains(squish, d, base, p[i + RowStride(d)..])
  {
    assert p[i..][..RowStride(d)] == p[i..i + RowStride(d)];
    assert p[i..][RowStride(d)..] == p[i + RowStride(d)..];
  }

  /** Storing one more chain after the others. */
  lemma LayoutAppend(chains: seq<seq<Contribution>>, c: seq<Contribution>)
    ensures Layout(chains + [c]) == Layout(chains) + Link(|Layout(chains)|, c)
    ensures Heads(chains + [c]) == Heads(chains) + [|Layout(chains)|]
  {
    assert (chains + [c])[..|chains|] == chains;
  }

  /** Stores the chain of one direction-table row at the end of the arena:
      the records of the selected base set, each linked from the one before,
      then the row's extra records. */
  method AppendChain(squish: real, d: Dim, base: seq<seq<int>>, arena: seq<Node>, row: seq<int>) returns (arena': seq<Node>)
    requires RowOk(d, base, row)
    ensures arena' == arena + Link(|arena|, ChainOf(squish, d, base, row))
  {
    var start := |arena|;
    var baseSet := base[row[0]];
    arena' := AppendRecords(squish, d, arena, start, [], baseSet);
    arena' := AppendRecords(squish, d, arena', start, Decode(squish, d, baseSet), row[1..]);
    assert arena' == arena'[..start] + arena'[start..];
  }

  /** The bookkeeping of one round of the builder's outer loop: with the
      chains of the rows before `i` done, row `i`'s chain is the next one. */
  lemma BuildStep(squish: real, d: Dim, base: seq<seq<int>>, p: seq<int>, i: nat, done: seq<seq<Contribution>>)
    requires i < |p| && WellFormed(d, base, p) && WellFormed(d, base, p[i..])
    requires Chains(squish, d, base, p) == done + Chains(squish, d, base, p[i..])
    ensures i + RowStride(d) <= |p| && RowOk(d, base, p[i..i + RowStride(d)])
    ensures WellFormed(d, base, p[i + RowStride(d)..])
    ensures Chains(squish, d, base, p)
      == (done + [ChainOf(squish, d, base, p[i..i + RowStride(d)])]) + Chains(squish, d, base, p[i + RowStride(d)..])
  {
    var c := ChainOf(squish, d, base, p[i..i + RowStride(d)]);
    ChainsNext(squish, d, base, p, i);
    assert done + ([c] + Chains(squish, d, base, p[i + RowStride(d)..]))
      == (done + [c]) + Chains(squish, d, base, p[i + RowStride(d)..]);
  }

  /** Builds the arena and the chain heads from the base sets and the
      direction table: one chain per row, the base-set records first, then
      the row's extra records. The head of a chain is recorded before its
      first record is stored; a well-formed row's base set is never empty,
      so this is the slot of the chain's first record. */
  method BuildChains(squish: real, d: Dim, base: seq<seq<int>>, p: seq<int>) returns (arena: seq<Node>, heads: seq<nat>)
    requires WellFormed(d, base, p)
    ensures arena == Layout(Chains(squish, d, base, p)) && heads == Heads(Chains(squish, d, base, p))
  {
    var rs := RowStride(d);
    ghost var chains := Chains(squish, d, base, p);
    ghost var done: seq<seq<Contribution>> := [];
    arena, heads := [], [];
    var i := 0;
    while i < |p|
      invariant 0 <= i <= |p| && WellFormed(d, base, p[i..])
      invariant chains == done + Chains(squish, d, base, p[i..])
      invariant arena == Layout(done) && heads == Heads(done)
    {
      BuildStep(squish, d, base, p, i, done);
      ghost var c := ChainOf(squish, d, base, p[i..i + rs]);
      LayoutAppend(done, c);
      heads := heads + [|arena|];
      arena := AppendChain(squish, d, base, arena, p[i..i + rs]);
      done := done + [c];
      i := i + rs;
    }
    assert p[i..] == [];
    assert done == chains;
  }

  /** The chain head that lookup pair `j` names, or nothing when the pair's
      chain index is missing or names no chain: the program then stores
      `undefined`, which the walk reads as an absent entry. */
  function PairHead(pairs: seq<int>, heads: seq<nat>, j: nat): Option<nat>
  {
    if 2 * j + 1 < |pairs| && 0 <= pairs[2 * j + 1] < |heads| then Some(heads[pairs[2 * j + 1]]) else None
  }

  /** The entry a table holds for `key`, if any. */
  function Get(t: map<int, nat>, key: int): Option<nat>
  {
    if key in t then Some(t[key]) else None
  }

  /** Storing `h` under `key`; storing nothing removes the entry. */
  function Assign(t: map<int, nat>, key: int, h: Option<nat>): (t': map<int, nat>)
    ensures Get(t', key) == h
    ensures forall k :: k != key ==> Get(t', k) == Get(t, k)
  {
    match h
    case Some(v) => t[key := v]
    case None => t - {key}
  }

  /** The lookup table after its first `m` pairs have been stored, in list
      order. */
  function LookupAfter(pairs: seq<int>, heads: seq<nat>, m: nat): map<int, nat>
    requires 2 * m <= |pairs| + 1
  {
    if m == 0 then map[]
    else Assign(LookupAfter(pairs, heads, m - 1), pairs[2 * (m - 1)], PairHead(pairs, heads, m - 1))
  }

  /** The number of pairs the filling loop visits: it steps by two while the
      index is inside the list, so a dangling last key is visited too. */
  function PairCount(pairs: seq<int>): (m: nat)
    ensures 2 * m <= |pairs| + 1
  {
    (|pairs| + 1) / 2
  }

  /** Among the first `m` pairs, pair `j` is the last one listing `key`. */
  ghost predicate Decides(pairs: seq<int>, key: int, m: nat, j: int)
    requires 2 * m <= |pairs| + 1
  {
    0 <= j < m && pairs[2 * j] == key && forall j' :: j < j' < m ==> pairs[2 * j'] != key
  }

  /** The lookup table's entry for a key is the head named by the last pair
      listing that key, and a key no pair lists has no entry. */
  lemma {:induction false} LookupMeaning(pairs: seq<int>, heads: seq<nat>, m: nat, key: int)
    requires 2 * m <= |pairs| + 1
    ensures forall j :: Decides(pairs, key, m, j) ==> Get(LookupAfter(pairs, heads, m), key) == PairHead(pairs, heads, j)
    ensures (forall j :: 0 <= j < m ==> pairs[2 * j] != key) ==> key !in LookupAfter(pairs, heads, m)
    decreases m
  {
    if m > 0 {
      LookupMeaning(pairs, heads, m - 1, key);
      forall j | Decides(pairs, key, m, j)
        ensures Get(LookupAfter(pairs, heads, m), key) == PairHead(pairs, heads, j)
      {
        if j < m - 1 {
          assert Decides(pairs, key, m - 1, j);
        }
      }
    }
  }

  /** With distinct keys and chain indices that name chains, every listed
      key maps to the head of its chain, and nothing else is in the table. */
  lemma LookupOfDistinct(pairs: seq<int>, heads: seq<nat>)
    requires |pairs| % 2 == 0
    requires forall j, j' :: 0 <= j < j' < |pairs| / 2 ==> pairs[2 * j] != pairs[2 * j']
    requires forall j :: 0 <= j < |pairs| / 2 ==> 0 <= pairs[2 * j + 1] < |heads|
    ensures forall j :: 0 <= j < |pairs| / 2 ==>
      pairs[2 * j] in LookupAfter(pairs, heads, PairCount(pairs))
      && LookupAfter(pairs, heads, PairCount(pairs))[pairs[2 * j]] == heads[pairs[2 * j + 1]]
    ensures forall key :: key in LookupAfter(pairs, heads, PairCount(pairs)) ==>
      exists j :: 0 <= j < |pairs| / 2 && pairs[2 * j] == key
  {
    var m := PairCount(pairs);
    assert m == |pairs| / 2;
    forall j | 0 <= j < m
      ensures pairs[2 * j] in LookupAfter(pairs, heads, m)
      ensures LookupAfter(pairs, heads, m)[pairs[2 * j]] == heads[pairs[2 * j + 1]]
    {
      LookupMeaning(pairs, heads, m, pairs[2 * j]);
      assert Decides(pairs, pairs[2 * j], m, j);
    }
    forall key | key in LookupAfter(pairs, heads, m)
      ensures exists j :: 0 <= j < m && pairs[2 * j] == key
    {
      LookupMeaning(pairs, heads, m, key);
    }
  }

  /** Fills the lookup table: for each pair in list order, the key is bound
      to the head of the chain the pair names. */
  method FillLookup(pairs: seq<int>, heads: seq<nat>) returns (lookup: map<int, nat>)
    ensures lookup == LookupAfter(pairs, heads, PairCount(pairs))
  {
    lookup := map[];
    var i := 0;
    while i < |pairs|
      invariant 0 <= i <= |pairs| + 1 && i % 2 == 0
      invariant lookup == LookupAfter(pairs, heads, i / 2)
    {
      var chain := if i + 1 < |pairs| then pairs[i + 1] else -1;
      if 0 <= chain < |heads| {
        lookup := lookup[pairs[i] := heads[chain]];
      } else {
        lookup := lookup - {pairs[i]};
      }
      i := i + 2;
    }
  }

  /** Every record of every chain has one entry per axis. */
  lemma {:induction false} ChainsShaped(squish: real, d: Dim, base: seq<seq<int>>, p: seq<int>)
    requires WellFormed(d, base, p)
    ensures forall k, j :: 0 <= k < |Chains(squish, d, base, p)| && 0 <= j < |Chains(squish, d, base, p)[k]| ==>
      Shaped(d, Chains(squish, d, base, p)[k][j])
    decreases |p|
  {
    if |p| > 0 {
      ChainsShaped(squish, d, base, p[RowStride(d)..]);
    }
  }

  /** Every node of the arena holds a record of one of the chains. */
  lemma {:induction false} LayoutShaped(d: Dim, chains: seq<seq<Contribution>>)
    requires forall k, j :: 0 <= k < |chains| && 0 <= j < |chains[k]| ==> Shaped(d, chains[k][j])
    ensures forall i :: 0 <= i < |Layout(chains)| ==> Shaped(d, Layout(chains)[i].contribution)
    decreases |chains|
  {
    if chains != [] {
      var front := chains[..|chains| - 1];
      LayoutShaped(d, front);
      var f, arena := Layout(front), Layout(chains);
      forall i | 0 <= i < |arena|
        ensures Shaped(d, arena[i].contribution)
      {
        if i < |f| {
          assert arena[i] == f[i];
        } else {
          assert arena[i] == Link(|f|, chains[|chains| - 1])[i - |f|];
        }
      }
    }
  }

  /** The walk from node `i`: its record, then the walk from its `next`. */
  lemma ChainAtStep(arena: seq<Node>, i: nat)
    requires WellLinked(arena) && i < |arena|
    ensures arena[i].next.None? ==> ChainAt(arena, i) == [arena[i].contribution]
    ensures arena[i].next.Some? ==>
      ChainAt(arena, i) == [arena[i].contribution] + ChainAt(arena, arena[i].next.value)
  {
    if arena[i].next.Some? {
      var n := arena[i].next.value;
      assert Visit(arena, i) == [i] + Visit(arena, n);
      var c, rest := ChainAt(arena, i), ChainAt(arena, n);
      assert |c| == 1 + |rest|;
      forall j | 0 <= j < |c|
        ensures c[j] == ([arena[i].contribution] + rest)[j]
      {
        if j > 0 {
          assert Visit(arena, i)[j] == Visit(arena, n)[j - 1];
        }
      }
    }
  }

  /** The keys of `pairs`, read at even positions, in strictly increasing
      order. */
  predicate KeysIncreasing(pairs: seq<int>)
  {
    forall j :: 0 <= j < |pairs| / 2 && 2 * j + 2 < |pairs| ==> pairs[2 * j] < pairs[2 * j + 2]
  }

  /** Every key of `pairs` lies in 0..keyMax and every chain index in
      0..count-1. */
  predicate PairsInRange(pairs: seq<int>, keyMax: int, count: int)
  {
    forall j :: 0 <= j < |pairs| / 2 ==> 0 <= pairs[2 * j] <= keyMax && 0 <= pairs[2 * j + 1] < count
  }

  /** Increasing keys are distinct. */
  lemma {:induction false} IncreasingKeysDistinct(pairs: seq<int>, j: nat, j': nat)
    requires KeysIncreasing(pairs) && j < j' && 2 * j' < |pairs|
    ensures pairs[2 * j] < pairs[2 * j']
    decreases j' - j
  {
    assert pairs[2 * (j' - 1)] < pairs[2 * (j' - 1) + 2];
    if j + 1 < j' {
      IncreasingKeysDistinct(pairs, j, j' - 1);
    }
  }

  /** Every entry of the lookup table is the head of some chain. */
  lemma {:induction false} LookupHeads(pairs: seq<int>, heads: seq<nat>, m: nat)
    requires 2 * m <= |pairs| + 1
    ensures forall key :: key in LookupAfter(pairs, heads, m) ==>
      exists k :: 0 <= k < |heads| && LookupAfter(pairs, heads, m)[key] == heads[k]
    decreases m
  {
    if m > 0 {
      LookupHeads(pairs, heads, m - 1);
    }
  }
}
