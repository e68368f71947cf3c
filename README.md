# OpenSimplex noise kernel in Dafny

This project models the kernel of an OpenSimplex noise library for 2, 3 and 4
dimensions. The kernel has three parts:

- **Seeded permutation generator.** `shuffleSeed` is one step of a 32-bit
  linear congruential generator. Each maker runs a descending Fisher–Yates
  loop with it over a 256-byte `source` array, which fills `perm` and the
  derived table `perm2D`, `perm3D` or `perm4D`.
- **Contribution-chain and lookup-table builder.** Every row of a direction
  table (`p2D`, `p3D`, `p4D`) picks a base set. The builder turns the base
  set's records, then one, two or three extra records from the row, into a
  singly linked chain of contributions. The lookup table maps each listed
  hash key to the head of a chain.
- **Evaluator.** It skews a point onto the lattice and packs the truncated
  in-cell parts into a bit-field hash. It walks the chain the hash selects
  and adds the attenuated gradient term of each record whose attenuation is
  positive. The gradient offset comes from folding the lattice coordinates
  through `perm` and the derived table.

## Layout

| module | file | what it holds |
|---|---|---|
| `JsInt` | `js_int.dfy` | JavaScript's integer operators on naturals: `ToUint32` (a store into a `Uint32Array`), `&`, `\|`, `<<` and `& 0xff` |
| `Seed` | `shuffle_seed.dfy` | `shuffleSeed`, its inverse and the array-returning version |
| `Dims` | `dims.dfy` | the dimension: axis count, record stride, row stride |
| `Permutation` | `permutation.dfy` | the shuffle loop, as a function (`Run`) and as an array method (`MakePermutation`); the bijection proof; the derived tables |
| `Contributions` | `contributions.dfy` | `contribution2D/3D/4D`, chain building into an arena of nodes with next indices, and lookup filling |
| `Rows` | `rows.dfy` | carrying facts about a table written in rows over to the flat table |
| `Hash` | `hash.dfy` | the packed hash: its operands, OR as a sum, its bounds, fields that read back |
| `Evaluator` | `evaluator.dfy` | the generator state, the gradient-index fold, the chain walk and the generic maker |
| `Noise2D`, `Noise3D`, `Noise4D` | `noise2d.dfy`, `noise3d.dfy`, `noise4d.dfy` | the per-dimension tables, the facts about them, and the makers |

### Modelling choices

- **Nodes and links.** The original program links contribution objects by setting
  `previous.next` and `current.next.next`. Here the nodes sit in an arena
  (`seq<Node>`), and each node's `next` is an `Option<nat>` index.
  - `BuildChains` appends chain after chain, record by record.
  - Its result is proved equal to `Layout(Chains(...))`, a function of the
    tables that lays the chains out one after another.
- **Permutation tables.** `MakePermutation` fills `perm` and the derived
  table in place, in `array<uint8>`s, with the program's descending loop and
  swap. Its result is proved equal to `PermOf`, the same loop
  written as a recursive function.
- **What the evaluator closes over.** The returned closure captures
  `perm`, the derived table, the lookup table and the chains. Here that
  state is the datatype `Generator`. `Evaluate` is the closure body, and its
  chain walk is a loop (`Walk`) proved equal to the recursive
  function `WalkSum`.
- **Hash inputs.** The hash uses JavaScript's `|` and `<<` on non-negative
  reals, which truncate them to int32. Here they are `Trunc` (the integer
  part), `Or` and `Shl` on naturals, with the in-cell parts assumed to lie
  in [0, 1).
- **Dimension-generic code.** The 2D, 3D and 4D makers share one builder,
  one permutation loop and one evaluator, parameterised by the dimension
  `Dim`. The program repeats them per dimension with the same structure.
  - Only the hash layout (`Shifts`, `FieldMax`, `Widths`) and the derived
    table (`Derive`) differ by dimension.
- **Tables written in rows.** The 3D constant tables `p3D` and
  `lookupPairs3D` are written as rows, nine and twelve entries to a row,
  and the flat table is defined as the rows end to end (`Flatten`). The
  values and their order are the program's.
  - In 2D the flat table is a literal, and a lemma proves it equals its
    rows laid end to end.
- **The shuffle index correction.** `ShuffleIndex` keeps the shuffle
  loop's correction `if (r[0] < 0) r[0] += i + 1` as written. Its contract
  `0 <= r <= i` shows that the branch never fires: `r` is a `Uint32Array`,
  and `(seed + 31) % (i + 1)` of a non-negative sum is already in `0..i`.

## Model

| member | source | states |
|---|---|---|
| `JsInt.ToUint32` | src/index.ts:132-133 | storing a number into a `Uint32Array` keeps it modulo 2^32 |
| `JsInt.Low8` | src/index.ts:180 | `x & 0xff` of an int32 is `x mod 256` (never negative), also for negative `x` |
| `JsInt.Or` | src/index.ts:163-167 | bitwise OR of non-negative operands is at least each operand and at most their sum |
| `JsInt.OrDisjoint` | src/index.ts:163-167 | OR with an operand shifted past every bit of the other is their sum |
| `JsInt.AndLowBits` | src/index.ts:180-181 | AND with the mask `2^k - 1` keeps the value modulo `2^k` |
| `Seed.ShuffleSeed` | src/shuffle_seed.ts:3-6 | the product `s * 1664525 + 1013904223` stays below 2^53, so it is exact, and the stored result is that value modulo 2^32 |
| `Seed.UnshuffleShuffle` | src/shuffle_seed.ts:5 | the step is undone by multiplying by the inverse of 1664525 modulo 2^32, after subtracting the increment |
| `Seed.ShuffleSeedInjective` | src/shuffle_seed.ts:5 | different 32-bit states step to different states |
| `Seed.ShuffleSeedArray` | src/shuffle_seed.ts:3-6 | returns a fresh one-element array holding the next state and leaves the argument unchanged |
| `Dims.RowStride` | src/index.ts:307 | a direction-table row holds one selector and `N - 1` extra records of `N + 1` entries: 4, 9 and 16 entries |
| `Permutation.Derive` | src/index.ts:141 | `perm2D` is `p & 0x0e`: even and at most 14. `perm3D` is `(p % 24) * 3`: a multiple of 3, at most 69. `perm4D` is `p & 0xfc`: a multiple of 4, at most 252 |
| `Permutation.MaskEven` | deno_lib/2d.ts:64 | `p & 0x0e` is even and at most 14 |
| `Permutation.MaskQuad` | src/index.ts:363 | `p & 0xfc` is a multiple of 4 and at most 252 |
| `Permutation.Iota` | src/index.ts:131 | the initial `source` holds `i` at index `i` |
| `Permutation.ShuffleIndex` | src/index.ts:137-139 | the index is `(seed + 31) % (i + 1)` of the unwrapped sum and lies in `0..i`, so the negative correction never applies |
| `Permutation.SwapOut` | src/index.ts:140-142 | taking `source[r]` and moving `source[i]` into its place leaves the other candidates in `source[0..i-1]` |
| `Permutation.StepKeepsPool` | src/index.ts:135-143 | one iteration keeps the multiset of placed `perm` entries plus remaining `source` candidates |
| `Permutation.RunKeepsPool` | src/index.ts:135-143 | after the loop, `perm` holds exactly the values the pool held at the start |
| `Permutation.RunKeepsPlaced` | src/index.ts:140 | later iterations never overwrite a `perm` entry already placed |
| `Permutation.PermIsBijection` | src/index.ts:128-143 | `perm` has 256 entries and holds each of 0..255 exactly once |
| `Permutation.PermDistinct` | deno_lib/3d.ts:72-87 | two different positions of `perm` hold different values |
| `Permutation.SeedWraps` | src/index.ts:132-134 | client seeds equal modulo 2^32 give the same `perm` |
| `Permutation.Identity` | src/index.ts:130-131 | a fresh `source` array holding 0..255 in order |
| `Permutation.PlaceOne` | src/index.ts:136-142 | one loop iteration on the arrays performs `Step`, sets the derived entry at `i` from the new `perm` entry, and leaves the derived entries below `i` unchanged |
| `Permutation.MakePermutation` | deno_lib/2d.ts:51-66 | the arrays hold `PermOf(clientSeed)` whatever the dimension, so all three makers agree; the derived table is `Derive` of `perm` entry by entry; `perm` is a bijection of 0..255 |
| `Contributions.MakeContribution` | deno_lib/2d.ts:19-30 | a contribution keeps the lattice offsets verbatim and has one displacement per axis |
| `Contributions.ContributionShift` | deno_lib/3d.ts:21-35 | each displacement is `-offset - multiplier * squish`, the same multiplier on every axis |
| `Contributions.Decode` | src/index.ts:311-320 | decoding records of `N + 1` entries gives contributions with `N` axes |
| `Contributions.DecodeLength` | src/index.ts:311 | a base set of `n` entries gives `n / (N + 1)` records |
| `Contributions.ChainShape` | src/index.ts:195-222 | a chain is the base set's records in table order, then the row's extra records: `\|baseSet\|/(N+1) + (N-1)` of them |
| `Contributions.ChainCount` | src/index.ts:111 | the stride loop builds one chain per row: `\|p\| / rowStride` chains |
| `Contributions.ChainsOfRows` | deno_lib/3d.ts:39-66 | chain `k` is built from row `k` of the direction table |
| `Contributions.Visit` | src/index.ts:171 | following `next` from a node stays inside the arena and only moves forward, so every walk ends |
| `Contributions.LinkAppend` | src/index.ts:115-121 | appending a record links the previous last record to it and ends the chain at it |
| `Contributions.LayoutWellLinked` | src/index.ts:117-121 | every `next` of the laid-out chains points forward inside the arena |
| `Contributions.LayoutChain` | src/index.ts:110-122 | following `next` from the head of chain `k` reads exactly chain `k`, then stops |
| `Contributions.LayoutChains` | src/index.ts:307-344 | every chain's head is in the arena, and walking from it reads that chain |
| `Contributions.ChainsDisjoint` | src/index.ts:195-222 | two different chains share no node |
| `Contributions.HeadsOrdered` | src/index.ts:117 | chains are laid out in row order, each after the previous one ends |
| `Contributions.AppendRecords` | src/index.ts:115-120 | the record loop appends the records of a base set and links each to the one before |
| `Contributions.StoreRecord` | src/index.ts:116-119 | one record-loop iteration appends one decoded record and keeps the loop invariant |
| `Contributions.AppendRecord` | src/index.ts:117-118 | storing `current` and setting `previous.next` to it appends it to the chain |
| `Contributions.LayoutAppend` | src/index.ts:110-122 | adding a chain adds its linked records after the arena, with its head at the old arena size |
| `Contributions.AppendChain` | src/index.ts:112-121 | one row adds its chain, linked, at the end of the arena |
| `Contributions.BuildChains` | src/index.ts:109-122 | the arena and chain heads are exactly the layout of the chains the direction table specifies |
| `Contributions.Assign` | src/index.ts:125 | `lookup[key] = head` sets that key (removing it when the chain index names no chain) and leaves every other key as it was |
| `Contributions.LookupMeaning` | src/index.ts:123-126 | the last pair listing a key decides its entry; a key no pair lists stays absent |
| `Contributions.LookupOfDistinct` | deno_lib/2d.ts:46-49 | with distinct keys and chain indices in range, each listed key maps to the head of its chain, and only listed keys are present |
| `Contributions.LookupHeads` | src/index.ts:125 | every lookup entry is the head of some chain |
| `Contributions.FillLookup` | src/index.ts:123-126 | the fill loop produces the table `LookupAfter` describes: pair after pair, later pairs overriding earlier ones |
| `Contributions.ChainAtStep` | src/index.ts:171 | the chain read from a node is its contribution, then the chain read from its `next` |
| `Hash.Trunc` | src/index.ts:163-167 | `\|` truncates a non-negative operand to its integer part |
| `Hash.Fields` | deno_lib/2d.ts:85-89 | the hash operands of in-cell parts in [0, 1) stay within their maxima |
| `Hash.Fields3` | deno_lib/3d.ts:110-117 | the seven 3D operands stay within 1, 1, 1, 2, 3, 3, 3 |
| `Hash.Fields4` | src/index.ts:391-403 | the eleven 4D operands stay within 1 (six times), 3, 4, 4, 4, 4 |
| `Hash.PackIsSum` | src/index.ts:163-167 | when each operand is shifted past everything before it, ORing the shifted operands gives their sum |
| `Hash.Max2` | deno_lib/2d.ts:86-89 | the largest 2D hash is 43, below 2^6 |
| `Hash.Max3` | deno_lib/3d.ts:111-117 | the largest 3D hash is 2039, below 2^11 |
| `Hash.Max4` | src/index.ts:392-403 | the largest 4D hash is 599295, below 2^20 |
| `Hash.HashIsSum` | src/index.ts:267-274 | the hash is the sum of its shifted operands, at most the largest hash and below 2^6, 2^11 or 2^20 |
| `Hash.HashUnpacks` | src/index.ts:163-167 | the bit fields are disjoint: every operand reads back from its field of the hash |
| `Evaluator.PermChain` | src/index.ts:289-290 | the fold `perm[px & 0xff]`, `perm[(a + py) & 0xff]`, ... always reads `perm` inside 0..255 |
| `Evaluator.GradientInBounds` | src/index.ts:293-296 | every gradient read `gradients[index + a]` is inside the gradient table |
| `Evaluator.Low8Period` | deno_lib/3d.ts:136 | `& 0xff` has period 256 |
| `Evaluator.PermChainPeriodic` | deno_lib/3d.ts:136-137 | moving a lattice coordinate by a multiple of 256 leaves the fold unchanged |
| `Evaluator.GradientPeriodic` | deno_lib/3d.ts:136-138 | moving a lattice coordinate by a multiple of 256 leaves the gradient index unchanged, negative coordinates included |
| `Evaluator.Attn` | deno_lib/2d.ts:101 | `2 - dx * dx - dy * dy - ...` is at most 2 |
| `Evaluator.Locate` | src/index.ts:146-160 | the lattice cell, displacement and in-cell parts have one entry per axis, and the in-cell parts lie in [0, 1) |
| `Evaluator.LocateSplits` | deno_lib/3d.ts:90-108 | cell plus in-cell part is the stretched coordinate `x + (x + y + ...) * stretch` on every axis |
| `Evaluator.FourTimes` | src/index.ts:185 | `attn * attn * attn * attn * v` is `v` attenuated four times |
| `Evaluator.WalkStep` | src/index.ts:171 | the walk from a node adds that node's term, then walks from its `next` |
| `Evaluator.Contribute` | src/index.ts:172-186 | one node's term, `attn^4` times the gradient dot product when the attenuation is positive; it is non-zero only when the attenuation is positive |
| `Evaluator.ChainSumAppend` | src/index.ts:171-187 | the sum over two chain pieces is the sum of their sums |
| `Evaluator.SkipNonPositive` | src/index.ts:176 | a node whose attenuation is not positive adds nothing, and the nodes after it are still summed |
| `Evaluator.Walk` | src/index.ts:278-300 | the walk loop sums the terms of every node from the head to the end of the chain and visits exactly those nodes |
| `Evaluator.StepFrom` | src/index.ts:407-433 | one walk iteration adds the node's term and moves to its `next` |
| `Evaluator.UnlistedHashIsZero` | deno_lib/2d.ts:93-97 | a hash with no lookup entry gives 0 |
| `Evaluator.Evaluate` | deno_lib/2d.ts:68-116 | the evaluator returns the normalised sum over the chain the point's hash selects |
| `Evaluator.EvaluateIn` | src/index.ts:405-434 | for a located point, the walk from the selected head, scaled by the norm |
| `Evaluator.LookupInArena` | src/index.ts:171 | a lookup entry names a node of the arena |
| `Evaluator.LookupSelectsChains` | deno_lib/3d.ts:67-70 | with distinct keys and chain indices in range, each listed key selects exactly the chain its pair names, and every key is within the hash range |
| `Evaluator.MakeNoise` | src/index.ts:109-143 | the maker's state is the laid-out chains, the filled lookup table and the seed's permutation, and the evaluator's invariants hold for it |
| `Evaluator.MadeValid` | src/index.ts:193-243 | tables built this way satisfy everything the evaluator relies on: links in the arena, lookup entries in the arena, gradient reads in bounds |
| `Noise2D.P2DIsRows` | deno_lib/2d.ts:170-195 | `p2D` is six rows of four entries end to end |
| `Noise2D.Rows2D` | deno_lib/2d.ts:119-122 | every row of `p2D` selects one of the two base sets, and both hold three whole records |
| `Noise2D.Chains2D` | deno_lib/2d.ts:34-45 | `p2D` builds six chains, each of length 4 |
| `Noise2D.LookupRows2D` | deno_lib/2d.ts:143-168 | each row of the lookup pairs has whole pairs, increasing keys and indices in range |
| `Noise2D.Lookup2DKeysIncrease` | deno_lib/2d.ts:144-167 | `lookupPairs2D` holds 12 pairs with strictly increasing, hence distinct, keys |
| `Noise2D.Lookup2DInRange` | deno_lib/2d.ts:143-168 | every key is at most 43 and every chain index is below 6 |
| `Noise2D.Gradients2DReach` | deno_lib/2d.ts:124-141 | `gradients2D` has 16 entries, enough for `perm2D` at most 14 plus two axes |
| `Noise2D.Lookup2DSelects` | deno_lib/2d.ts:46-49 | every key listed selects the chain its pair names |
| `Noise2D.Lookup2DKeys` | deno_lib/2d.ts:86-94 | every key in the 2D lookup table lies in the 2D hash's range 0..43 (not every value there is the hash of some point) |
| `Noise2D.MakeNoise2D` | deno_lib/2d.ts:32-66 | the 2D maker's state, with its chains, lookup table, permutation and gradients, satisfies the evaluator's invariants |
| `Noise3D.Rows3D` | deno_lib/3d.ts:151-155 | every row of `p3D` selects one of the three base sets, of 16, 16 and 24 entries |
| `Noise3D.RowChain3D` | deno_lib/3d.ts:40-65 | row `k` builds a chain of 8 records when it selects the third base set, 6 otherwise |
| `Noise3D.Chains3D` | deno_lib/3d.ts:379-596 | `p3D` is well formed and builds 24 chains |
| `Noise3D.SixPairsOk` | deno_lib/3d.ts:232-377 | six pairs with keys in increasing order within the bounds are well ordered and in range |
| `Noise3D.LookupRows3D` | deno_lib/3d.ts:233-376 | each row of the lookup pairs has whole pairs, increasing keys and indices in range |
| `Noise3D.Lookup3DKeysIncrease` | deno_lib/3d.ts:232-377 | `lookupPairs3D` holds 72 pairs with strictly increasing, hence distinct, keys |
| `Noise3D.Lookup3DInRange` | deno_lib/3d.ts:234-376 | every key is at most 2039 and every chain index is below 24 |
| `Noise3D.Gradients3DReach` | deno_lib/3d.ts:157-230 | `gradients3D` has 72 entries, enough for `perm3D` at most 69 plus three axes |
| `Noise3D.Lookup3DSelects` | deno_lib/3d.ts:67-70 | every key listed selects the chain its pair names |
| `Noise3D.Lookup3DKeys` | deno_lib/3d.ts:111-122 | every key in the 3D lookup table lies in the 3D hash's range 0..2039 (not every value there is the hash of some point) |
| `Noise3D.MakeNoise3D` | deno_lib/3d.ts:37-87 | the 3D maker's state, with its chains, lookup table, permutation and gradients, satisfies the evaluator's invariants |
| `Noise4D.MakeNoise4D` | src/index.ts:305-365 | the 4D maker's state (chains of `p4D` rows, lookup table, permutation of the seed) satisfies the evaluator's invariants, and every `perm4D` entry is a multiple of 4, at most 252 |

## Left out

- Floating point. Coordinates and displacements are real numbers. Neither
  IEEE rounding nor `Math.floor` of a double is modelled.
  - The hash takes in-cell parts in [0, 1). A rounded difference `xs - xsb`
    can reach exactly 1 in floating point; that edge case is outside the
    model.
- The squish and stretch constants (`SQUISH_*`, `STRETCH_*`) are square-root
  expressions, so the makers take them as real parameters.
- `NORM_2D` (1/47) and `NORM_3D` (1/103) are constants of the model.
  `NORM_4D` lives in `src/constants`, which is not part of this model, so
  `MakeNoise4D` takes it as a parameter.
- The 4D tables `base4D`, `p4D`, `lookupPairs4D` and `gradients4D` are in
  `src/constants`, which is not part of this model.
- Noise4D.MakeNoise4D: takes the 4D tables as a parameter and requires that
  `p4D` is well formed against `base4D` and that `gradients4D` has at least
  256 entries; no fact about the 4D tables themselves is proved.
- Client seeds are integers. `ToUint32` of a fractional, infinite or NaN
  seed is not modelled.
- The evaluator's chain walk keeps a ghost record of the nodes it visits.
  The original program has no such record.
- The generator holds `perm` and the derived table as sequences: snapshots
  of the arrays the maker filled. Nothing writes to them after the maker
  returns, as in the original program.
- The closures and exported type aliases (`Noise2D = (x, y) => number` and
  so on) are packaging. A closure is the `Generator` value plus `Evaluate`.
- The duplicate `shuffleSeed` in `src/index.ts` (lines 438-442) is the same
  expression as in `src/shuffle_seed.ts`. It is modelled once, as
  `Seed.ShuffleSeed`.
- Build configuration (`rollup.config.js`) is not modelled.
