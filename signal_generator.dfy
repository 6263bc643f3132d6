/**
 * The synthetic test surface: a zero grid with one raised rectangular step,
 * its height given in nanometres and stored in metres.
 */
module SignalGenerator {

  /** Metres per nanometre. */
  const MetresPerNanometre: real := 0.000000001

  /** Along an axis of length n the step starts at n/4, rounded down (inclusive) ... */
  function StepStart(n: nat): (start: nat)
    ensures 4 * start <= n < 4 * start + 4
  {
    n / 4
  }

  /** ... and ends at 3n/4, rounded down (exclusive). */
  function StepEnd(n: nat): (end: nat)
    ensures 4 * end <= 3 * n < 4 * end + 4
  {
    n * 3 / 4
  }

  /** The half-open rectangle [sy/4, 3sy/4) x [sx/4, 3sx/4) that carries the step. */
  predicate InStep(sy: nat, sx: nat, y: nat, x: nat)
  {
    StepStart(sy) <= y < StepEnd(sy) && StepStart(sx) <= x < StepEnd(sx)
  }

  /** The height of cell (y, x), in metres. */
  function SurfaceAt(sy: nat, sx: nat, stepHeightNm: real, y: nat, x: nat): real
  {
    if InStep(sy, sx, y, x) then stepHeightNm * MetresPerNanometre else 0.0
  }

  /** The step occupies a (possibly empty) rectangle inside the grid. */
  lemma StepInsideGrid(n: nat)
    ensures StepStart(n) <= StepEnd(n) <= n
  {
  }

  /** Stores `value` in columns [x0, x1) of row y and leaves every other cell as it was. */
  method FillStepRow(surface: array2<real>, y: nat, x0: nat, x1: nat, value: real)
    requires y < surface.Length0 && x0 <= x1 <= surface.Length1
    modifies surface
    ensures forall i, j :: 0 <= i < surface.Length0 && 0 <= j < surface.Length1 ==>
              surface[i, j] == (if i == y && x0 <= j < x1 then value else old(surface[i, j]))
  {
    var x := x0;
    while x < x1
      invariant x0 <= x <= x1
      invariant forall i, j :: 0 <= i < surface.Length0 && 0 <= j < surface.Length1 ==>
                  surface[i, j] == (if i == y && x0 <= j < x then value else old(surface[i, j]))
    {
      surface[y, x] := value;
      x := x + 1;
    }
  }

  /**
   * A sy x sx grid of zeros whose rows sy/4 .. 3sy/4-1 and columns
   * sx/4 .. 3sx/4-1 are raised to the step height converted to metres.
   */
  method CreateSimulatedSurface(sy: nat, sx: nat, stepHeightNm: real) returns (surface: array2<real>)
    ensures fresh(surface)
    ensures surface.Length0 == sy && surface.Length1 == sx
    ensures forall y, x :: 0 <= y < sy && 0 <= x < sx ==> surface[y, x] == SurfaceAt(sy, sx, stepHeightNm, y, x)
  {
    surface := new real[sy, sx]((y, x) => 0.0);
    var stepStartY, stepStartX := sy / 4, sx / 4;
    var stepEndY, stepEndX := sy * 3 / 4, sx * 3 / 4;
    StepInsideGrid(sy);
    StepInsideGrid(sx);
    var value := stepHeightNm * MetresPerNanometre;
    var y := stepStartY;
    while y < stepEndY
      invariant stepStartY <= y <= stepEndY
      invariant forall i, j :: 0 <= i < sy && 0 <= j < sx ==>
                  surface[i, j] == (if stepStartY <= i < y && stepStartX <= j < stepEndX then value else 0.0)
    {
      FillStepRow(surface, y, stepStartX, stepEndX, value);
      y := y + 1;
    }
  }

  /** With a positive step height a cell is zero exactly when it lies outside the step. */
  lemma ZeroExactlyOutsideStep(sy: nat, sx: nat, stepHeightNm: real, y: nat, x: nat)
    requires stepHeightNm > 0.0
    ensures SurfaceAt(sy, sx, stepHeightNm, y, x) == 0.0 <==> !InStep(sy, sx, y, x)
  {
  }

  /** A non-negative step height gives a non-negative surface. */
  lemma SurfaceNonNegative(sy: nat, sx: nat, stepHeightNm: real, y: nat, x: nat)
    requires stepHeightNm >= 0.0
    ensures SurfaceAt(sy, sx, stepHeightNm, y, x) >= 0.0
  {
  }

  /** The default 128 x 128 grid carries its step on rows and columns 32 through 95. */
  lemma DefaultStepBounds()
    ensures StepStart(128) == 32 && StepEnd(128) == 96
    ensures forall y, x :: InStep(128, 128, y, x) <==> 32 <= y <= 95 && 32 <= x <= 95
  {
  }

  /** Number of raised cells among columns 0 .. n-1 of row y. */
  function RaisedInRow(sy: nat, sx: nat, y: nat, n: nat): nat
  {
    if n == 0 then 0
    else RaisedInRow(sy, sx, y, n - 1) + (if InStep(sy, sx, y, n - 1) then 1 else 0)
  }

  /** Number of raised cells among rows 0 .. m-1 of the whole grid. */
  function RaisedInRows(sy: nat, sx: nat, m: nat): nat
  {
    if m == 0 then 0
    else RaisedInRows(sy, sx, m - 1) + RaisedInRow(sy, sx, m - 1, sx)
  }

  /** How much of the half-open range [lo, hi) lies below n. */
  function Overlap(n: nat, lo: nat, hi: nat): nat
    requires lo <= hi
  {
    if n <= lo then 0 else if n >= hi then hi - lo else n - lo
  }

  lemma {:induction false} RaisedInRowCount(sy: nat, sx: nat, y: nat, n: nat)
    ensures StepStart(sx) <= StepEnd(sx)
    ensures RaisedInRow(sy, sx, y, n) ==
              if StepStart(sy) <= y < StepEnd(sy) then Overlap(n, StepStart(sx), StepEnd(sx)) else 0
  {
    StepInsideGrid(sx);
    if n > 0 {
      RaisedInRowCount(sy, sx, y, n - 1);
    }
  }

  lemma MulSucc(a: int, w: int)
    ensures (a + 1) * w == a * w + w
  {
  }

  lemma {:induction false} RaisedInRowsCount(sy: nat, sx: nat, m: nat)
    ensures StepStart(sy) <= StepEnd(sy) <= sy && StepStart(sx) <= StepEnd(sx) <= sx
    ensures RaisedInRows(sy, sx, m) ==
              Overlap(m, StepStart(sy), StepEnd(sy)) * (StepEnd(sx) - StepStart(sx))
  {
    StepInsideGrid(sy);
    StepInsideGrid(sx);
    if m > 0 {
      var lo, hi, w := StepStart(sy), StepEnd(sy), StepEnd(sx) - StepStart(sx);
      RaisedInRowsCount(sy, sx, m - 1);
      RaisedInRowCount(sy, sx, m - 1, sx);
      var before := Overlap(m - 1, lo, hi);
      assert RaisedInRows(sy, sx, m) == before * w + (if lo <= m - 1 < hi then w else 0);
      if lo <= m - 1 < hi {
        assert Overlap(m, lo, hi) == before + 1;
        MulSucc(before, w);
      } else {
        assert Overlap(m, lo, hi) == before;
      }
    }
  }

  /** The grid holds exactly (3sy/4 - sy/4) x (3sx/4 - sx/4) raised cells. */
  lemma RaisedCellCount(sy: nat, sx: nat)
    ensures RaisedInRows(sy, sx, sy) == (StepEnd(sy) - StepStart(sy)) * (StepEnd(sx) - StepStart(sx))
  {
    RaisedInRowsCount(sy, sx, sy);
  }

  /** The default 128 x 128 grid has 64 x 64 = 4096 raised cells. */
  lemma DefaultRaisedCellCount()
    ensures RaisedInRows(128, 128, 128) == 4096
  {
    RaisedCellCount(128, 128);
    DefaultStepBounds();
  }
}
