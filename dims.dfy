/** The three noise dimensions and the strides of their constant tables. */
module Dims {

  datatype Dim = D2 | D3 | D4

  /** Number of coordinate axes. */
  function Axes(d: Dim): (n: nat)
    ensures 2 <= n <= 4
  {
    match d
    case D2 => 2
    case D3 => 3
    case D4 => 4
  }

  /** Width of one contribution record in a table: a multiplier followed by
      one lattice offset per axis (3, 4 or 5). */
  function Stride(d: Dim): (s: nat)
    ensures s == Axes(d) + 1
  {
    match d
    case D2 => 3
    case D3 => 4
    case D4 => 5
  }

  /** Width of one direction-table row: a base-set selector followed by
      `Axes(d) - 1` extra contribution records (4, 9 or 16). */
  function RowStride(d: Dim): (w: nat)
    ensures w == 1 + (Axes(d) - 1) * Stride(d)
  {
    match d
    case D2 => 4
    case D3 => 9
    case D4 => 16
  }
}
