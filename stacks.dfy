/**
 * The data model shared by both reconstruction algorithms: a z-stack laid out
 * as numpy's (n_z, n_y, n_x) array, the z-column of one lateral pixel, and the
 * outcome of an operation that can raise.
 */
module Stacks {

  /** A three-dimensional array indexed [scan position][row][column]. */
  type Stack = seq<seq<seq<real>>>

  /** `s` has numpy shape (nz, ny, nx). */
  predicate Shaped(s: Stack, nz: nat, ny: nat, nx: nat)
  {
    |s| == nz &&
    forall k :: 0 <= k < nz ==>
      |s[k]| == ny && forall y :: 0 <= y < ny ==> |s[k][y]| == nx
  }

  /** Every entry of `s` is non-negative, as a magnitude stack is. */
  predicate NonNegativeStack(s: Stack, nz: nat, ny: nat, nx: nat)
    requires Shaped(s, nz, ny, nx)
  {
    forall k, y, x :: 0 <= k < nz && 0 <= y < ny && 0 <= x < nx ==> s[k][y][x] >= 0.0
  }

  /** The scan-axis sequence of pixel (y, x), i.e. `s[:, y, x]`. */
  function Column(s: Stack, nz: nat, ny: nat, nx: nat, y: nat, x: nat): (c: seq<real>)
    requires Shaped(s, nz, ny, nx) && y < ny && x < nx
    ensures |c| == nz
    ensures forall k :: 0 <= k < nz ==> c[k] == s[k][y][x]
  {
    seq(nz, k requires 0 <= k < nz => s[k][y][x])
  }

  /**
   * The errors the FFT-phase path raises: a scan axis too short for the
   * three-point fit, and a zero sample spacing, on which the frequency grid
   * 1 / (n * dz) divides by zero.
   */
  datatype ScanError = InsufficientSamples | ZeroSampleSpacing

  datatype Result<T> = Ok(value: T) | Err(error: ScanError)
}
