/** The drivable mask and the cell lookup shared by the dynamics and the sensors.

    A mask is a grid of booleans stored row by row (`mask[row][column]`, row = y),
    `true` meaning drivable track surface. The mask built from the track image is
    rectangular, so the length of every row is the grid's width. */
module Grid {

  /** A grid whose rows all have the same length `width` and whose row count is `height`. */
  predicate IsGrid<T>(g: seq<seq<T>>, height: nat, width: nat)
  {
    |g| == height && forall i :: 0 <= i < |g| ==> |g[i]| == width
  }

  /** Python's `int()` applied to a float: truncation toward zero. */
  function Trunc(v: real): (n: int)
    ensures v >= 0.0 ==> n as real <= v < n as real + 1.0
    ensures v < 0.0 ==> n as real - 1.0 < v <= n as real
    ensures -1.0 < v < 1.0 ==> n == 0
  {
    if v >= 0.0 then v.Floor else -((-v).Floor)
  }

  /** The cell `(column, row)` lies inside the grid. */
  predicate InBounds(mask: seq<seq<bool>>, column: int, row: int)
  {
    0 <= row < |mask| && 0 <= column < |mask[row]|
  }

  /** The cell `(column, row)` lies inside the grid and is drivable surface. */
  predicate Drivable(mask: seq<seq<bool>>, column: int, row: int)
  {
    InBounds(mask, column, row) && mask[row][column]
  }

  /** On a rectangular grid, being in bounds is the check `0 <= row < alto and 0 <= column < ancho`. */
  lemma InBoundsOnGrid(mask: seq<seq<bool>>, height: nat, width: nat, column: int, row: int)
    requires IsGrid(mask, height, width)
    ensures InBounds(mask, column, row) <==> 0 <= row < height && 0 <= column < width
  {
  }

  /** The point `(px, py)` in continuous coordinates falls on a drivable cell once both
      coordinates are truncated toward zero, as the simulator does. */
  predicate PointDrivable(mask: seq<seq<bool>>, px: real, py: real)
  {
    Drivable(mask, Trunc(px), Trunc(py))
  }

  /** A point just left of (or just above) the grid's origin, with a coordinate in (-1, 0),
      truncates to cell 0 and so counts as inside the grid. */
  lemma PointNearOriginInBounds(mask: seq<seq<bool>>, px: real, py: real)
    requires -1.0 < px < 1.0 && -1.0 < py < 1.0
    requires |mask| > 0 && |mask[0]| > 0
    ensures InBounds(mask, Trunc(px), Trunc(py))
    ensures PointDrivable(mask, px, py) <==> mask[0][0]
  {
  }
}
