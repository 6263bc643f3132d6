/**
 * The stand-alone FFT-phase module, a second copy of the adaptive-bandpass
 * wrapped-phase algorithm with its own parabolic fit. Its guard, its own fit
 * and its pixel loop are modelled here and proved to compute exactly what the
 * FFT-phase specification of module Processing describes. Its filter design
 * computes the same filter as the one in src/processing.py (the zero band it
 * first allocates is overwritten by the window), so Processing.DesignFilter
 * is reused for it.
 */
module FftPhaseExtraction {
  import opened Stacks
  import opened Subpixel
  import opened Processing

  /** This module's own three-point parabolic fit; it agrees with the shared one on every input. */
  function ParabolicSubpixel(vm1: real, v0: real, vp1: real): (shift: real)
    ensures shift == ParabolicShift(vm1, v0, vp1)
  {
    var denom := vm1 - 2.0 * v0 + vp1;
    if Abs(denom) < 0.000000000001 then 0.0 else 0.5 * (vm1 - vp1) / denom
  }

  /** When the middle sample dominates its neighbours, this copy's fit also stays within half a sample. */
  lemma SubpixelWithinHalfAtPeak(vm1: real, v0: real, vp1: real)
    requires v0 >= vm1 && v0 >= vp1
    ensures -0.5 <= ParabolicSubpixel(vm1, v0, vp1) <= 0.5
  {
    ShiftWithinHalfAtPeak(vm1, v0, vp1);
  }

  /**
   * One pixel of the loop: clamp the integer peak into [1, nz-2] in place, fit
   * the parabola through the three smoothed samples around it and read the
   * analytic signal and the raw envelope at the fractional index.
   */
  method StackPixelStep(analyticRe: Stack, analyticIm: Stack, envelope: Stack, smooth: Stack,
                        nz: nat, ny: nat, nx: nat, yi: nat, xi: nat, angle: (real, real) -> real)
    returns (phase: real, coherence: real)
    requires nz >= 3
    requires Shaped(analyticRe, nz, ny, nx) && Shaped(analyticIm, nz, ny, nx)
    requires Shaped(envelope, nz, ny, nx) && Shaped(smooth, nz, ny, nx)
    requires yi < ny && xi < nx
    ensures PhasePixel(phase, coherence) == PhasePixelAt(analyticRe, analyticIm, envelope, smooth, nz, ny, nx, yi, xi, angle)
  {
    var i := FirstArgMax(Column(smooth, nz, ny, nx, yi, xi));
    if i <= 0 {
      i := 1;
    }
    if i >= nz - 1 {
      i := nz - 2;
    }
    var vm1 := smooth[i - 1][yi][xi];
    var v0 := smooth[i][yi][xi];
    var vp1 := smooth[i + 1][yi][xi];
    var shift := ParabolicSubpixel(vm1, v0, vp1);
    var floatIdx := i as real + shift;
    var realVal := Interp(floatIdx, Column(analyticRe, nz, ny, nx, yi, xi));
    var imagVal := Interp(floatIdx, Column(analyticIm, nz, ny, nx, yi, xi));
    phase := angle(realVal, imagVal);
    coherence := Interp(floatIdx, Column(envelope, nz, ny, nx, yi, xi));
  }

  /** The inner loop: fills row yi of both maps and leaves the other rows as they were. */
  method FillStackRow(wrappedPhaseMap: array2<real>, coherenceMap: array2<real>,
                      analyticRe: Stack, analyticIm: Stack, envelope: Stack, smooth: Stack,
                      nz: nat, ny: nat, nx: nat, yi: nat, angle: (real, real) -> real)
    requires nz >= 3
    requires Shaped(analyticRe, nz, ny, nx) && Shaped(analyticIm, nz, ny, nx)
    requires Shaped(envelope, nz, ny, nx) && Shaped(smooth, nz, ny, nx)
    requires wrappedPhaseMap != coherenceMap && yi < ny
    requires wrappedPhaseMap.Length0 == ny && wrappedPhaseMap.Length1 == nx
    requires coherenceMap.Length0 == ny && coherenceMap.Length1 == nx
    modifies wrappedPhaseMap, coherenceMap
    ensures forall x :: 0 <= x < nx ==>
              wrappedPhaseMap[yi, x] == PhasePixelAt(analyticRe, analyticIm, envelope, smooth, nz, ny, nx, yi, x, angle).wrappedPhase &&
              coherenceMap[yi, x] == PhasePixelAt(analyticRe, analyticIm, envelope, smooth, nz, ny, nx, yi, x, angle).coherence
    ensures forall y, x :: 0 <= y < ny && y != yi && 0 <= x < nx ==>
              wrappedPhaseMap[y, x] == old(wrappedPhaseMap[y, x]) && coherenceMap[y, x] == old(coherenceMap[y, x])
  {
    ghost var row: seq<PhasePixel> :=
      seq(nx, x requires 0 <= x < nx => PhasePixelAt(analyticRe, analyticIm, envelope, smooth, nz, ny, nx, yi, x, angle));
    var xi := 0;
    while xi < nx
      invariant 0 <= xi <= nx
      invariant forall x :: 0 <= x < xi ==>
                  wrappedPhaseMap[yi, x] == row[x].wrappedPhase && coherenceMap[yi, x] == row[x].coherence
      invariant forall y, x :: 0 <= y < ny && y != yi && 0 <= x < nx ==>
                  wrappedPhaseMap[y, x] == old(wrappedPhaseMap[y, x]) && coherenceMap[y, x] == old(coherenceMap[y, x])
    {
      var phase, coherence := StackPixelStep(analyticRe, analyticIm, envelope, smooth, nz, ny, nx, yi, xi, angle);
      assert row[xi] == PhasePixel(phase, coherence);
      WriteCell(wrappedPhaseMap, coherenceMap, yi, xi, phase, coherence);
      xi := xi + 1;
    }
  }

  /**
   * The whole stand-alone algorithm: InsufficientSamples below 3 scan
   * samples, ZeroSampleSpacing when the first two scan positions coincide;
   * otherwise the same filter and the same maps as the FFT-phase
   * algorithm of module Processing.
   */
  method ProcessStackFft(zScan: seq<real>, meanSpectrum: seq<real>,
                         analyticRe: Stack, analyticIm: Stack, envelope: Stack, smooth: Stack,
                         nz: nat, ny: nat, nx: nat, bandFrac: real,
                         exp: real -> real, angle: (real, real) -> real)
    returns (r: Result<PhaseMaps>)
    requires |zScan| == nz && |meanSpectrum| == nz
    requires Shaped(analyticRe, nz, ny, nx) && Shaped(analyticIm, nz, ny, nx)
    requires Shaped(envelope, nz, ny, nx) && Shaped(smooth, nz, ny, nx)
    ensures r.Err? <==> nz < 3 || zScan[1] == zScan[0]
    ensures nz < 3 ==> r == Err(InsufficientSamples)
    ensures nz >= 3 && zScan[1] == zScan[0] ==> r == Err(ZeroSampleSpacing)
    ensures r.Ok? ==> fresh(r.value.wrappedPhase) && fresh(r.value.coherence)
    ensures r.Ok? ==> r.value.wrappedPhase.Length0 == ny && r.value.wrappedPhase.Length1 == nx
    ensures r.Ok? ==> r.value.coherence.Length0 == ny && r.value.coherence.Length1 == nx
    ensures r.Ok? ==> r.value.filter == AdaptiveFilter(nz, zScan[1] - zScan[0], FirstArgMax(meanSpectrum), bandFrac, exp)
    ensures r.Ok? ==> forall y, x :: 0 <= y < ny && 0 <= x < nx ==>
              r.value.wrappedPhase[y, x] == PhasePixelAt(analyticRe, analyticIm, envelope, smooth, nz, ny, nx, y, x, angle).wrappedPhase &&
              r.value.coherence[y, x] == PhasePixelAt(analyticRe, analyticIm, envelope, smooth, nz, ny, nx, y, x, angle).coherence
  {
    if nz < 3 {
      return Err(InsufficientSamples);
    }
    if zScan[1] - zScan[0] == 0.0 {
      return Err(ZeroSampleSpacing);
    }
    var filter := DesignFilter(zScan, meanSpectrum, nz, bandFrac, exp);

    var wrappedPhaseMap := new real[ny, nx]((y, x) => 0.0);
    var coherenceMap := new real[ny, nx]((y, x) => 0.0);
    var yi := 0;
    while yi < ny
      invariant 0 <= yi <= ny
      invariant forall y, x :: 0 <= y < yi && 0 <= x < nx ==>
                  wrappedPhaseMap[y, x] == PhasePixelAt(analyticRe, analyticIm, envelope, smooth, nz, ny, nx, y, x, angle).wrappedPhase &&
                  coherenceMap[y, x] == PhasePixelAt(analyticRe, analyticIm, envelope, smooth, nz, ny, nx, y, x, angle).coherence
    {
      FillStackRow(wrappedPhaseMap, coherenceMap, analyticRe, analyticIm, envelope, smooth, nz, ny, nx, yi, angle);
      yi := yi + 1;
    }
    return Ok(PhaseMaps(wrappedPhaseMap, coherenceMap, filter));
  }
}
