/** The 4D noise maker. Its constant tables and NORM_4D are defined outside
    the files this model covers, so the maker takes them as parameters,
    under the shape the builder needs. */
module Noise4D {
  import opened Dims
  import opened Permutation
  import opened Contributions
  import opened Evaluator

  /** makeNoise4D: builds one chain per sixteen-entry row of `t.p` (the
      records of the selected base set, then three extra records), the
      lookup table from `t.lookupPairs`, and the permutation tables for
      `clientSeed`, with `perm4D` masked to multiples of four. */
  method MakeNoise4D(clientSeed: int, t: Tables, squish: real, stretch: real, norm: real) returns (g: Generator)
    requires WellFormed(D4, t.base, t.p) && |t.gradients| >= GradientReach(D4)
    ensures Valid(g)
    ensures g == Generator(D4, squish, stretch, norm,
      Layout(Chains(squish, D4, t.base, t.p)),
      LookupAfter(t.lookupPairs, Heads(Chains(squish, D4, t.base, t.p)), PairCount(t.lookupPairs)),
      PermOf(clientSeed), g.permD, t.gradients)
    ensures forall j :: 0 <= j < 256 ==> g.permD[j] % 4 == 0 && g.permD[j] <= 252
  {
    g := MakeNoise(D4, t, squish, stretch, norm, clientSeed);
  }
}
