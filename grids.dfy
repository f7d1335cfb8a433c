/**
 * Images: a numpy 2-D array held in place is an `array2<int>`; its contents,
 * row-major, are a `Grid` (a sequence of rows), on which the specifications
 * are written.
 */
module Grids {
  import opened Numerics

  type Grid = seq<seq<int>>

  /** Row and column of a pixel (numpy's [row, column] order). */
  datatype Cell = Cell(row: int, col: int)

  predicate IsGrid(g: Grid, h: nat, w: nat)
  {
    |g| == h && forall i | 0 <= i < h :: |g[i]| == w
  }

  predicate InGrid(c: Cell, h: nat, w: nat)
  {
    0 <= c.row < h && 0 <= c.col < w
  }

  /** Every cell of a list lies inside an h x w image. */
  predicate AllInGrid(cells: seq<Cell>, h: nat, w: nat)
  {
    forall i | 0 <= i < |cells| :: InGrid(cells[i], h, w)
  }

  /** Every pixel is an unsigned 16-bit value. */
  predicate IsU16(g: Grid)
  {
    forall i, j | 0 <= i < |g| && 0 <= j < |g[i]| :: 0 <= g[i][j] <= 65535
  }

  /** The contents of an image array. */
  function Contents(a: array2<int>): (g: Grid)
    reads a
    ensures IsGrid(g, a.Length0, a.Length1)
    ensures forall i, j | 0 <= i < a.Length0 && 0 <= j < a.Length1 :: g[i][j] == a[i, j]
  {
    seq(a.Length0, i requires 0 <= i < a.Length0 reads a =>
      seq(a.Length1, j requires 0 <= j < a.Length1 reads a => a[i, j]))
  }

  /** The grid with pixel (i, j) replaced by v. */
  function Set(g: Grid, i: nat, j: nat, v: int): (r: Grid)
    requires i < |g| && j < |g[i]|
    ensures |r| == |g| && forall k | 0 <= k < |g| :: |r[k]| == |g[k]|
    ensures r[i][j] == v
    ensures forall k, l | 0 <= k < |g| && 0 <= l < |g[k]| && (k != i || l != j) :: r[k][l] == g[k][l]
  {
    g[i := g[i][j := v]]
  }

  /** Pixels as reals in numpy's row-major order (what np.std sees). */
  function Flatten(g: Grid): (r: seq<real>)
  {
    if g == [] then [] else Flatten(g[..|g| - 1]) + Reals(g[|g| - 1])
  }

  /** Two grids of one shape that agree on every pixel are equal. */
  lemma GridsEqual(g1: Grid, g2: Grid, h: nat, w: nat)
    requires IsGrid(g1, h, w) && IsGrid(g2, h, w)
    requires forall i, j | 0 <= i < h && 0 <= j < w :: g1[i][j] == g2[i][j]
    ensures g1 == g2
  {
    forall i | 0 <= i < h
      ensures g1[i] == g2[i]
    {
      assert |g1[i]| == |g2[i]| == w;
    }
  }

  /** Writes one pixel of an image array in place. */
  method Write(a: array2<int>, i: nat, j: nat, v: int)
    requires i < a.Length0 && j < a.Length1
    modifies a
    ensures Contents(a) == Set(old(Contents(a)), i, j, v)
  {
    ghost var before := Contents(a);
    a[i, j] := v;
    GridsEqual(Contents(a), Set(before, i, j, v), a.Length0, a.Length1);
  }
}
