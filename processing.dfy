/**
 * The two per-pixel reconstruction algorithms of the WSI core:
 *
 *  - coherence peak sensing (CPS): the height of a pixel is the scan position
 *    of the peak of its smoothed coherence envelope, refined by a parabolic fit;
 *  - adaptive-bandpass FFT phase: the wrapped phase of a pixel is the angle of
 *    its analytic signal interpolated at the refined envelope peak, after the
 *    peak index has been clamped one sample away from both ends.
 *
 * The library numerics (Hilbert transform, FFT and inverse FFT, magnitude,
 * Gaussian smoothing, the spectrum mean) are inputs: their outputs are given
 * as stacks. The transcendental `exp` of the band window and the complex
 * `angle` are function parameters.
 */
module Processing {
  import opened Stacks
  import opened Subpixel

  // ---------------------------------------------------------------------------
  // Shared refinement step
  // ---------------------------------------------------------------------------

  /**
   * The fractional peak index i + shift from the smoothed samples around index i:
   * i itself for a flat top, otherwise the index whose offset from i satisfies
   * the vertex condition of the parabola through the three samples.
   */
  function RefinedIndex(smooth: seq<real>, i: nat): (idx: real)
    requires 1 <= i < |smooth| - 1
    ensures Abs(Curvature(smooth[i - 1], smooth[i], smooth[i + 1])) < FlatTopThreshold ==> idx == i as real
    ensures Abs(Curvature(smooth[i - 1], smooth[i], smooth[i + 1])) >= FlatTopThreshold ==>
              (idx - i as real) * Curvature(smooth[i - 1], smooth[i], smooth[i + 1]) == (smooth[i - 1] - smooth[i + 1]) / 2.0
  {
    i as real + ParabolicShift(smooth[i - 1], smooth[i], smooth[i + 1])
  }

  /** At a local maximum of the smoothed samples the refined index stays within half a sample. */
  lemma RefinedIndexNearPeak(smooth: seq<real>, i: nat)
    requires 1 <= i < |smooth| - 1
    requires smooth[i] >= smooth[i - 1] && smooth[i] >= smooth[i + 1]
    ensures i as real - 0.5 <= RefinedIndex(smooth, i) <= i as real + 0.5
  {
    ShiftWithinHalfAtPeak(smooth[i - 1], smooth[i], smooth[i + 1]);
  }

  // ---------------------------------------------------------------------------
  // CPS: coherence peak sensing
  // ---------------------------------------------------------------------------

  datatype CpsPixel = CpsPixel(height: real, coherence: real)

  /**
   * The CPS result of one pixel from its scan positions, raw envelope and
   * smoothed envelope. A peak at either end of the scan is reported as is;
   * an interior peak is refined and both outputs interpolated there.
   */
  function CpsAt(zScan: seq<real>, envelope: seq<real>, smooth: seq<real>): CpsPixel
    requires |smooth| >= 1 && |zScan| == |smooth| && |envelope| == |smooth|
  {
    var i := FirstArgMax(smooth);
    if i <= 0 || i >= |smooth| - 1 then
      CpsPixel(zScan[i], smooth[i])
    else
      var fi := RefinedIndex(smooth, i);
      CpsPixel(Interp(fi, zScan), Interp(fi, envelope))
  }

  /** CPS of pixel (y, x) of the given stacks. */
  function CpsPixelAt(zScan: seq<real>, envelope: Stack, smooth: Stack, nz: nat, ny: nat, nx: nat, y: nat, x: nat): CpsPixel
    requires nz >= 1 && |zScan| == nz && Shaped(envelope, nz, ny, nx) && Shaped(smooth, nz, ny, nx)
    requires y < ny && x < nx
  {
    CpsAt(zScan, Column(envelope, nz, ny, nx, y, x), Column(smooth, nz, ny, nx, y, x))
  }

  /**
   * Boundary policy at the start of the scan: when the smoothed envelope is
   * largest at index 0, the height is the first scan position and the
   * coherence the smoothed envelope there, whatever the neighbours hold.
   */
  lemma CpsPeakAtScanStart(zScan: seq<real>, envelope: seq<real>, smooth: seq<real>)
    requires |smooth| >= 1 && |zScan| == |smooth| && |envelope| == |smooth|
    requires forall j :: 0 <= j < |smooth| ==> smooth[j] <= smooth[0]
    ensures CpsAt(zScan, envelope, smooth) == CpsPixel(zScan[0], smooth[0])
  {
    FirstArgMaxIsUnique(smooth, 0);
  }

  /**
   * Boundary policy at the end of the scan: when the smoothed envelope first
   * reaches its maximum at the last index, the height is the last scan position.
   */
  lemma CpsPeakAtScanEnd(zScan: seq<real>, envelope: seq<real>, smooth: seq<real>)
    requires |smooth| >= 1 && |zScan| == |smooth| && |envelope| == |smooth|
    requires forall j :: 0 <= j < |smooth| - 1 ==> smooth[j] < smooth[|smooth| - 1]
    ensures CpsAt(zScan, envelope, smooth) == CpsPixel(zScan[|smooth| - 1], smooth[|smooth| - 1])
  {
    FirstArgMaxIsUnique(smooth, |smooth| - 1);
  }

  /**
   * For an interior peak p of the smoothed envelope on a non-decreasing scan
   * axis, the CPS height lies between the neighbouring scan positions.
   */
  lemma CpsHeightBetweenNeighbours(zScan: seq<real>, envelope: seq<real>, smooth: seq<real>)
    requires |smooth| >= 1 && |zScan| == |smooth| && |envelope| == |smooth|
    requires NonDecreasing(zScan)
    requires 0 < FirstArgMax(smooth) < |smooth| - 1
    ensures var p := FirstArgMax(smooth);
            zScan[p - 1] <= CpsAt(zScan, envelope, smooth).height <= zScan[p + 1]
  {
    var p := FirstArgMax(smooth);
    RefinedIndexNearPeak(smooth, p);
    InterpBetween(RefinedIndex(smooth, p), zScan, p - 1, p + 1);
  }

  /** On a non-decreasing scan axis every CPS height lies within the scanned range. */
  lemma CpsHeightWithinScan(zScan: seq<real>, envelope: seq<real>, smooth: seq<real>)
    requires |smooth| >= 1 && |zScan| == |smooth| && |envelope| == |smooth|
    requires NonDecreasing(zScan)
    ensures zScan[0] <= CpsAt(zScan, envelope, smooth).height <= zScan[|zScan| - 1]
  {
    var p := FirstArgMax(smooth);
    if 0 < p < |smooth| - 1 {
      CpsHeightBetweenNeighbours(zScan, envelope, smooth);
    }
  }

  /**
   * A symmetric peak (equal smoothed neighbours) is not shifted: the height is
   * the scan position of the peak and the coherence the raw envelope there.
   */
  lemma CpsSymmetricPeakIsNotShifted(zScan: seq<real>, envelope: seq<real>, smooth: seq<real>)
    requires |smooth| >= 1 && |zScan| == |smooth| && |envelope| == |smooth|
    requires 0 < FirstArgMax(smooth) < |smooth| - 1
    requires smooth[FirstArgMax(smooth) - 1] == smooth[FirstArgMax(smooth) + 1]
    ensures var p := FirstArgMax(smooth);
            CpsAt(zScan, envelope, smooth) == CpsPixel(zScan[p], envelope[p])
  {
    var p := FirstArgMax(smooth);
    EqualNeighboursGiveZero(smooth[p - 1], smooth[p]);
    InterpAtSample(zScan, p);
    InterpAtSample(envelope, p);
  }

  /**
   * A smoothed envelope that is the parabola a t^2 + b t + c around an
   * interior peak p (t = k - p) is read at the parabola's vertex p - b / 2a:
   * both outputs are interpolated exactly there. (On a uniform axis this is
   * the vertex's own scan position, by InterpOfAffineIsExact.)
   */
  lemma CpsReadsAtParabolaVertex(zScan: seq<real>, envelope: seq<real>, smooth: seq<real>, a: real, b: real, c: real)
    requires |smooth| >= 1 && |zScan| == |smooth| && |envelope| == |smooth|
    requires 0 < FirstArgMax(smooth) < |smooth| - 1
    requires var p := FirstArgMax(smooth);
             smooth[p - 1] == a - b + c && smooth[p] == c && smooth[p + 1] == a + b + c
    requires Abs(2.0 * a) >= FlatTopThreshold
    ensures var vertex := FirstArgMax(smooth) as real - b / (2.0 * a);
            CpsAt(zScan, envelope, smooth) == CpsPixel(Interp(vertex, zScan), Interp(vertex, envelope))
  {
    var p := FirstArgMax(smooth);
    var shift := ParabolicShift(smooth[p - 1], smooth[p], smooth[p + 1]);
    assert shift == -b / (2.0 * a) by {
      assert shift == ParabolicShift(a - b + c, c, a + b + c);
      ParabolaVertexIsExact(a, b, c);
    }
    var vertex := p as real - b / (2.0 * a);
    assert RefinedIndex(smooth, p) == vertex;
    assert CpsAt(zScan, envelope, smooth) == CpsPixel(Interp(RefinedIndex(smooth, p), zScan), Interp(RefinedIndex(smooth, p), envelope));
  }

  /**
   * The body of the CPS pixel loop: the boundary test on the integer peak,
   * then the parabolic refinement and the two interpolations.
   */
  method CpsPixelStep(zScan: seq<real>, envelope: Stack, smooth: Stack, nz: nat, ny: nat, nx: nat, yi: nat, xi: nat)
    returns (height: real, coherence: real)
    requires nz >= 1 && |zScan| == nz && Shaped(envelope, nz, ny, nx) && Shaped(smooth, nz, ny, nx)
    requires yi < ny && xi < nx
    ensures CpsPixel(height, coherence) == CpsPixelAt(zScan, envelope, smooth, nz, ny, nx, yi, xi)
  {
    var i := FirstArgMax(Column(smooth, nz, ny, nx, yi, xi));
    if i <= 0 || i >= nz - 1 {
      height := zScan[i];
      coherence := smooth[i][yi][xi];
      return;
    }
    var vm1 := smooth[i - 1][yi][xi];
    var v0 := smooth[i][yi][xi];
    var vp1 := smooth[i + 1][yi][xi];
    var shift := ParabolicShift(vm1, v0, vp1);
    var floatIdx := i as real + shift;
    height := Interp(floatIdx, zScan);
    coherence := Interp(floatIdx, Column(envelope, nz, ny, nx, yi, xi));
  }

  /**
   * CPS over a whole stack: allocates zero height and coherence maps of size
   * ny x nx and fills them pixel by pixel, row-major.
   */
  method ProcessCpsSubpixel(zScan: seq<real>, envelope: Stack, smooth: Stack, nz: nat, ny: nat, nx: nat)
    returns (heightMap: array2<real>, coherenceMap: array2<real>)
    requires nz >= 1 && |zScan| == nz
    requires Shaped(envelope, nz, ny, nx) && Shaped(smooth, nz, ny, nx)
    ensures fresh(heightMap) && fresh(coherenceMap)
    ensures heightMap.Length0 == ny && heightMap.Length1 == nx
    ensures coherenceMap.Length0 == ny && coherenceMap.Length1 == nx
    ensures forall y, x :: 0 <= y < ny && 0 <= x < nx ==>
              heightMap[y, x] == CpsPixelAt(zScan, envelope, smooth, nz, ny, nx, y, x).height &&
              coherenceMap[y, x] == CpsPixelAt(zScan, envelope, smooth, nz, ny, nx, y, x).coherence
  {
    heightMap := new real[ny, nx]((y, x) => 0.0);
    coherenceMap := new real[ny, nx]((y, x) => 0.0);
    var yi := 0;
    while yi < ny
      invariant 0 <= yi <= ny
      invariant forall y, x :: 0 <= y < yi && 0 <= x < nx ==>
                  heightMap[y, x] == CpsPixelAt(zScan, envelope, smooth, nz, ny, nx, y, x).height &&
                  coherenceMap[y, x] == CpsPixelAt(zScan, envelope, smooth, nz, ny, nx, y, x).coherence
    {
      FillCpsRow(heightMap, coherenceMap, zScan, envelope, smooth, nz, ny, nx, yi);
      yi := yi + 1;
    }
  }

  /** The inner CPS loop: fills row yi of both maps and leaves the other rows as they were. */
  method FillCpsRow(heightMap: array2<real>, coherenceMap: array2<real>,
                    zScan: seq<real>, envelope: Stack, smooth: Stack, nz: nat, ny: nat, nx: nat, yi: nat)
    requires nz >= 1 && |zScan| == nz
    requires Shaped(envelope, nz, ny, nx) && Shaped(smooth, nz, ny, nx)
    requires heightMap != coherenceMap && yi < ny
    requires heightMap.Length0 == ny && heightMap.Length1 == nx
    requires coherenceMap.Length0 == ny && coherenceMap.Length1 == nx
    modifies heightMap, coherenceMap
    ensures forall x :: 0 <= x < nx ==>
              heightMap[yi, x] == CpsPixelAt(zScan, envelope, smooth, nz, ny, nx, yi, x).height &&
              coherenceMap[yi, x] == CpsPixelAt(zScan, envelope, smooth, nz, ny, nx, yi, x).coherence
    ensures forall y, x :: 0 <= y < ny && y != yi && 0 <= x < nx ==>
              heightMap[y, x] == old(heightMap[y, x]) && coherenceMap[y, x] == old(coherenceMap[y, x])
  {
    var xi := 0;
    while xi < nx
      invariant 0 <= xi <= nx
      invariant forall x :: 0 <= x < xi ==>
                  heightMap[yi, x] == CpsPixelAt(zScan, envelope, smooth, nz, ny, nx, yi, x).height &&
                  coherenceMap[yi, x] == CpsPixelAt(zScan, envelope, smooth, nz, ny, nx, yi, x).coherence
      invariant forall y, x :: 0 <= y < ny && y != yi && 0 <= x < nx ==>
                  heightMap[y, x] == old(heightMap[y, x]) && coherenceMap[y, x] == old(coherenceMap[y, x])
    {
      var height, coherence := CpsPixelStep(zScan, envelope, smooth, nz, ny, nx, yi, xi);
      heightMap[yi, xi] := height;
      coherenceMap[yi, xi] := coherence;
      xi := xi + 1;
    }
  }

  // ---------------------------------------------------------------------------
  // FFT phase: filter design
  // ---------------------------------------------------------------------------

  /** Python's `int()` on a float: truncation toward zero. */
  function TruncateToInt(v: real): (r: int)
    ensures v >= 0.0 ==> r as real <= v < r as real + 1.0
    ensures v < 0.0 ==> r as real - 1.0 < v <= r as real
  {
    if v >= 0.0 then v.Floor else -((-v).Floor)
  }

  /**
   * Half-width of the band window, `max(2, int(nz * bandFrac / 2))`: at least
   * 2, and otherwise the whole part of nz * bandFrac / 2.
   */
  function HalfBandwidth(nz: nat, bandFrac: real): (hb: int)
    ensures hb >= 2
    ensures hb == 2 || hb as real <= nz as real * bandFrac / 2.0
    ensures nz as real * bandFrac / 2.0 < hb as real + 1.0
  {
    var t := TruncateToInt(nz as real * bandFrac / 2.0);
    if t > 2 then t else 2
  }

  /** Standard deviation of the Gaussian band window, `max(1, hb / 2)`. */
  function BandSigma(hb: int): (sigma: real)
    ensures sigma >= 1.0 && sigma >= hb as real / 2.0
    ensures sigma == 1.0 || sigma == hb as real / 2.0
  {
    if 1.0 > hb as real / 2.0 then 1.0 else hb as real / 2.0
  }

  /** The window sigma is at least 1 and, the half-width being at least 2, exactly half of it. */
  lemma BandSigmaIsHalfWidth(nz: nat, bandFrac: real)
    ensures BandSigma(HalfBandwidth(nz, bandFrac)) >= 1.0
    ensures BandSigma(HalfBandwidth(nz, bandFrac)) == HalfBandwidth(nz, bandFrac) as real / 2.0
  {
  }

  /** The default design, 256 samples with band fraction 0.15: half-width 19, sigma 9.5. */
  lemma DefaultBandDesign()
    ensures HalfBandwidth(256, 0.15) == 19
    ensures BandSigma(HalfBandwidth(256, 0.15)) == 9.5
  {
    assert 256 as real * 0.15 / 2.0 == 19.2;
    assert (19.2 as real).Floor == 19;
  }

  /** Integer numerator of numpy `fftfreq(n, d)[k]`: k on the first half, k - n on the second. */
  function FftFreqNumerator(n: nat, k: nat): (m: int)
    requires k < n
    ensures m == k || m == k - n
    ensures -(n / 2) <= m <= (n - 1) / 2
    ensures m > 0 <==> 1 <= k <= (n - 1) / 2
  {
    if k < (n - 1) / 2 + 1 then k else k - n
  }

  /** numpy `fftfreq(n, d)[k]`: the frequency of FFT bin k for sample spacing d. */
  function FftFreq(n: nat, d: real, k: nat): real
    requires k < n && d != 0.0
  {
    FftFreqNumerator(n, k) as real / (n as real * d)
  }

  /** numpy `isclose(f, 0.0)` with its default tolerances: |f| <= 1e-8 + 1e-5 * |0|. */
  predicate IsCloseToZero(f: real)
  {
    Abs(f) <= 0.00000001
  }

  /**
   * The analytic-signal mask: 2 on bins of positive frequency, then 1 on the
   * bins whose frequency is close to 0, 0 elsewhere.
   */
  function AnalyticMask(n: nat, d: real): (mask: seq<real>)
    requires d != 0.0
    ensures |mask| == n
  {
    seq(n, k requires 0 <= k < n =>
      if IsCloseToZero(FftFreq(n, d, k)) then 1.0
      else if FftFreq(n, d, k) > 0.0 then 2.0
      else 0.0)
  }

  lemma ReciprocalExceedsTolerance(q: real)
    requires 0.0 < q < 100000000.0
    ensures 1.0 / q > 0.00000001
  {
    var r := 1.0 / q;
    assert r * q == 1.0;
  }

  lemma FreqMagnitude(num: int, q: real)
    requires q > 0.0 && num != 0
    ensures num > 0 ==> num as real / q >= 1.0 / q
    ensures num < 0 ==> num as real / q <= -(1.0 / q)
  {
    var r := 1.0 / q;
    assert num as real / q == num as real * r;
    assert r > 0.0;
    if num > 0 {
      assert num as real * r - r == (num as real - 1.0) * r;
    } else {
      assert num as real * r + r == (num as real + 1.0) * r;
    }
  }

  /**
   * A positive sample spacing d with n * d below 1e8: then every nonzero
   * frequency 1 / (n d) or more in magnitude lies outside isclose's 1e-8.
   */
  predicate ResolvableSpacing(n: nat, d: real)
  {
    d > 0.0 && n as real * d < 100000000.0
  }

  /**
   * With a positive sample spacing and n * d below 1e8 (so that no nonzero bin
   * is "close" to 0), the mask is 1 exactly at bin 0, 2 exactly on bins
   * 1 .. (n-1)/2 and 0 exactly on the remaining (negative-frequency) bins.
   */
  lemma AnalyticMaskByBin(n: nat, d: real, k: nat)
    requires ResolvableSpacing(n, d) && k < n
    ensures AnalyticMask(n, d)[k] == 1.0 <==> k == 0
    ensures AnalyticMask(n, d)[k] == 2.0 <==> 1 <= k <= (n - 1) / 2
    ensures AnalyticMask(n, d)[k] == 0.0 <==> k > (n - 1) / 2
  {
    var q := n as real * d;
    assert q > 0.0;
    var num := FftFreqNumerator(n, k);
    var f := FftFreq(n, d, k);
    if k == 0 {
      assert num == 0 && f == 0.0;
    } else {
      ReciprocalExceedsTolerance(q);
      FreqMagnitude(num, q);
      if k <= (n - 1) / 2 {
        assert num > 0 && f > 0.00000001;
      } else {
        assert num < 0 && f < -0.00000001;
      }
    }
  }

  /** The Gaussian band window exp(-((k - center) / sigma)^2 / 2) at every bin. */
  function BandWindow(n: nat, center: nat, sigma: real, exp: real -> real): (band: seq<real>)
    requires sigma != 0.0
    ensures |band| == n
  {
    seq(n, k => var u := (k - center) as real / sigma; exp(-0.5 * u * u))
  }

  /** The band window of the design: centred on the carrier bin, with the sigma of the band fraction. */
  function DesignBand(nz: nat, center: nat, bandFrac: real, exp: real -> real): (band: seq<real>)
    ensures |band| == nz
  {
    BandWindow(nz, center, BandSigma(HalfBandwidth(nz, bandFrac)), exp)
  }

  /** The filter applied to the spectrum: band window times analytic mask, bin by bin. */
  function AdaptiveFilter(nz: nat, dz: real, center: nat, bandFrac: real, exp: real -> real): (filter: seq<real>)
    requires dz != 0.0
    ensures |filter| == nz
  {
    var band := DesignBand(nz, center, bandFrac, exp);
    var mask := AnalyticMask(nz, dz);
    seq(nz, k requires 0 <= k < nz => band[k] * mask[k])
  }

  /**
   * Bin by bin, the filter passes the zero bin with the window value, doubles
   * the positive-frequency bins 1 .. (nz-1)/2 and removes all the others.
   */
  lemma AdaptiveFilterByBin(nz: nat, dz: real, center: nat, bandFrac: real, exp: real -> real, k: nat)
    requires ResolvableSpacing(nz, dz) && k < nz
    ensures AdaptiveFilter(nz, dz, center, bandFrac, exp)[k] ==
              if k == 0 then DesignBand(nz, center, bandFrac, exp)[0]
              else if k <= (nz - 1) / 2 then 2.0 * DesignBand(nz, center, bandFrac, exp)[k]
              else 0.0
  {
    AnalyticMaskByBin(nz, dz, k);
  }

  /**
   * The filter design steps of the FFT-phase algorithm: sample spacing from
   * the first two scan positions, carrier bin at the peak of the mean
   * spectrum, band width, window and analytic mask.
   */
  method DesignFilter(zScan: seq<real>, meanSpectrum: seq<real>, nz: nat, bandFrac: real, exp: real -> real)
    returns (filter: seq<real>)
    requires nz >= 3 && |zScan| == nz && |meanSpectrum| == nz && zScan[1] != zScan[0]
    ensures filter == AdaptiveFilter(nz, zScan[1] - zScan[0], FirstArgMax(meanSpectrum), bandFrac, exp)
    ensures ResolvableSpacing(nz, zScan[1] - zScan[0]) ==>
              forall k :: 0 <= k < nz ==>
                filter[k] == if k == 0 then DesignBand(nz, FirstArgMax(meanSpectrum), bandFrac, exp)[0]
                             else if k <= (nz - 1) / 2 then 2.0 * DesignBand(nz, FirstArgMax(meanSpectrum), bandFrac, exp)[k]
                             else 0.0
  {
    var dz := zScan[1] - zScan[0];
    var centerIdx := FirstArgMax(meanSpectrum);
    var halfBw := HalfBandwidth(nz, bandFrac);
    var sigma := BandSigma(halfBw);
    var band := BandWindow(nz, centerIdx, sigma, exp);
    var mask := AnalyticMask(nz, dz);
    filter := seq(nz, k requires 0 <= k < nz => band[k] * mask[k]);
    assert filter == AdaptiveFilter(nz, dz, centerIdx, bandFrac, exp);
    if ResolvableSpacing(nz, zScan[1] - zScan[0]) {
      forall k | 0 <= k < nz
        ensures filter[k] == if k == 0 then DesignBand(nz, centerIdx, bandFrac, exp)[0]
                             else if k <= (nz - 1) / 2 then 2.0 * DesignBand(nz, centerIdx, bandFrac, exp)[k]
                             else 0.0
      {
        AdaptiveFilterByBin(nz, zScan[1] - zScan[0], centerIdx, bandFrac, exp, k);
      }
    }
  }

  /** The filter suppresses every negative-frequency bin, whatever the window values. */
  lemma FilterVanishesOnNegativeBins(nz: nat, dz: real, center: nat, bandFrac: real, exp: real -> real, k: nat)
    requires ResolvableSpacing(nz, dz)
    requires (nz - 1) / 2 < k < nz
    ensures AdaptiveFilter(nz, dz, center, bandFrac, exp)[k] == 0.0
  {
    AnalyticMaskByBin(nz, dz, k);
  }

  // ---------------------------------------------------------------------------
  // FFT phase: per-pixel extraction
  // ---------------------------------------------------------------------------

  /** Moves a peak index at or beyond either end one sample inside: into [1, n-2]. */
  function ClampPeak(i: nat, n: nat): (c: nat)
    requires n >= 3
    ensures 1 <= c <= n - 2
    ensures 1 <= i <= n - 2 ==> c == i
    ensures i == 0 ==> c == 1
    ensures i >= n - 1 ==> c == n - 2
  {
    var c := if i <= 0 then 1 else i;
    if c >= n - 1 then n - 2 else c
  }

  datatype PhasePixel = PhasePixel(wrappedPhase: real, coherence: real)

  /** The fractional index at which the FFT path reads a pixel: the clamped, refined peak. */
  function PhaseIndex(smooth: seq<real>): real
    requires |smooth| >= 3
  {
    RefinedIndex(smooth, ClampPeak(FirstArgMax(smooth), |smooth|))
  }

  /**
   * The FFT-phase result of one pixel: the angle of the analytic signal whose
   * real and imaginary parts are interpolated separately at the phase index,
   * and the raw envelope interpolated at the same index.
   */
  function PhaseAt(re: seq<real>, im: seq<real>, envelope: seq<real>, smooth: seq<real>,
                   angle: (real, real) -> real): PhasePixel
    requires |smooth| >= 3 && |re| == |smooth| && |im| == |smooth| && |envelope| == |smooth|
  {
    var fi := PhaseIndex(smooth);
    PhasePixel(angle(Interp(fi, re), Interp(fi, im)), Interp(fi, envelope))
  }

  /** FFT phase of pixel (y, x) of the given stacks. */
  function PhasePixelAt(analyticRe: Stack, analyticIm: Stack, envelope: Stack, smooth: Stack,
                        nz: nat, ny: nat, nx: nat, y: nat, x: nat, angle: (real, real) -> real): PhasePixel
    requires nz >= 3
    requires Shaped(analyticRe, nz, ny, nx) && Shaped(analyticIm, nz, ny, nx)
    requires Shaped(envelope, nz, ny, nx) && Shaped(smooth, nz, ny, nx)
    requires y < ny && x < nx
  {
    PhaseAt(Column(analyticRe, nz, ny, nx, y, x), Column(analyticIm, nz, ny, nx, y, x),
            Column(envelope, nz, ny, nx, y, x), Column(smooth, nz, ny, nx, y, x), angle)
  }

  /**
   * For an interior envelope peak the clamp does nothing: the FFT path reads
   * within half a sample of the peak, at the very index at which CPS reads,
   * so both report the same coherence.
   */
  lemma PhaseIndexMatchesCpsAtInteriorPeak(zScan: seq<real>, re: seq<real>, im: seq<real>,
                                           envelope: seq<real>, smooth: seq<real>, angle: (real, real) -> real)
    requires |smooth| >= 3 && |zScan| == |smooth| && |re| == |smooth| && |im| == |smooth| && |envelope| == |smooth|
    requires 0 < FirstArgMax(smooth) < |smooth| - 1
    ensures var p := FirstArgMax(smooth);
            p as real - 0.5 <= PhaseIndex(smooth) <= p as real + 0.5
    ensures PhaseAt(re, im, envelope, smooth, angle).coherence == CpsAt(zScan, envelope, smooth).coherence
  {
    RefinedIndexNearPeak(smooth, FirstArgMax(smooth));
  }

  /**
   * After clamping, the middle sample need not be the largest of the three and
   * the fit can extrapolate: for smoothed samples 1, 0.5, 0.25 (peak at index 0)
   * the shift is 1.5, the index 2.5 lies past the end, and the pixel reads the
   * last samples, the far side from the peak.
   */
  lemma ClampedPeakCanReadFarEnd(re: seq<real>, im: seq<real>, envelope: seq<real>, angle: (real, real) -> real)
    requires |re| == 3 && |im| == 3 && |envelope| == 3
    ensures PhaseIndex([1.0, 0.5, 0.25]) == 2.5
    ensures PhaseAt(re, im, envelope, [1.0, 0.5, 0.25], angle) == PhasePixel(angle(re[2], im[2]), envelope[2])
  {
    var s := [1.0, 0.5, 0.25];
    assert FirstArgMax(s) == 0 by { FirstArgMaxIsUnique(s, 0); }
    assert ParabolicShift(1.0, 0.5, 0.25) == 1.5;
  }

  /**
   * Coherence is never negative: whenever the raw and smoothed envelopes are
   * non-negative (as magnitudes are), both the CPS coherence and the FFT-phase
   * coherence of the pixel are.
   */
  lemma CoherenceNonNegative(zScan: seq<real>, re: seq<real>, im: seq<real>, envelope: seq<real>, smooth: seq<real>,
                             angle: (real, real) -> real)
    requires |smooth| >= 1 && |zScan| == |smooth| && |re| == |smooth| && |im| == |smooth| && |envelope| == |smooth|
    requires forall k :: 0 <= k < |smooth| ==> envelope[k] >= 0.0 && smooth[k] >= 0.0
    ensures CpsAt(zScan, envelope, smooth).coherence >= 0.0
    ensures |smooth| >= 3 ==> PhaseAt(re, im, envelope, smooth, angle).coherence >= 0.0
  {
    var i := FirstArgMax(smooth);
    if 0 < i < |smooth| - 1 {
      InterpNonNegative(RefinedIndex(smooth, i), envelope);
    }
    if |smooth| >= 3 {
      InterpNonNegative(PhaseIndex(smooth), envelope);
    }
  }

  /** Every cell of both coherence maps is non-negative when the envelope stacks are. */
  lemma CoherenceMapsNonNegative(zScan: seq<real>, analyticRe: Stack, analyticIm: Stack, envelope: Stack, smooth: Stack,
                                 nz: nat, ny: nat, nx: nat, y: nat, x: nat, angle: (real, real) -> real)
    requires nz >= 1 && |zScan| == nz && y < ny && x < nx
    requires Shaped(analyticRe, nz, ny, nx) && Shaped(analyticIm, nz, ny, nx)
    requires Shaped(envelope, nz, ny, nx) && Shaped(smooth, nz, ny, nx)
    requires NonNegativeStack(envelope, nz, ny, nx) && NonNegativeStack(smooth, nz, ny, nx)
    ensures CpsPixelAt(zScan, envelope, smooth, nz, ny, nx, y, x).coherence >= 0.0
    ensures nz >= 3 ==> PhasePixelAt(analyticRe, analyticIm, envelope, smooth, nz, ny, nx, y, x, angle).coherence >= 0.0
  {
    CoherenceNonNegative(zScan, Column(analyticRe, nz, ny, nx, y, x), Column(analyticIm, nz, ny, nx, y, x),
                         Column(envelope, nz, ny, nx, y, x), Column(smooth, nz, ny, nx, y, x), angle);
  }

  /**
   * The body of the FFT-phase pixel loop: clamp the integer peak in place,
   * refine it, interpolate real and imaginary parts and the raw envelope.
   */
  method PhasePixelStep(analyticRe: Stack, analyticIm: Stack, envelope: Stack, smooth: Stack,
                        nz: nat, ny: nat, nx: nat, yi: nat, xi: nat, angle: (real, real) -> real)
    returns (phase: real, coherence: real)
    requires nz >= 3
    requires Shaped(analyticRe, nz, ny, nx) && Shaped(analyticIm, nz, ny, nx)
    requires Shaped(envelope, nz, ny, nx) && Shaped(smooth, nz, ny, nx)
    requires yi < ny && xi < nx
    ensures PhasePixel(phase, coherence) == PhasePixelAt(analyticRe, analyticIm, envelope, smooth, nz, ny, nx, yi, xi, angle)
  {
    var i := FirstArgMax(Column(smooth, nz, ny, nx, yi, xi));
    if i <= 0 {
      i := 1;
    }
    if i >= nz - 1 {
      i := nz - 2;
    }
    var vm1 := smooth[i - 1][yi][xi];
    var v0 := smooth[i][yi][xi];
    var vp1 := smooth[i + 1][yi][xi];
    var shift := ParabolicShift(vm1, v0, vp1);
    var floatIdx := i as real + shift;
    var realVal := Interp(floatIdx, Column(analyticRe, nz, ny, nx, yi, xi));
    var imagVal := Interp(floatIdx, Column(analyticIm, nz, ny, nx, yi, xi));
    phase := angle(realVal, imagVal);
    coherence := Interp(floatIdx, Column(envelope, nz, ny, nx, yi, xi));
  }

  /** Stores one pixel's pair of results; every other cell of both maps is left as it was. */
  method WriteCell(first: array2<real>, second: array2<real>, yi: nat, xi: nat, u: real, v: real)
    requires first != second
    requires yi < first.Length0 && xi < first.Length1 && yi < second.Length0 && xi < second.Length1
    modifies first, second
    ensures first[yi, xi] == u && second[yi, xi] == v
    ensures forall y, x :: 0 <= y < first.Length0 && 0 <= x < first.Length1 && (y != yi || x != xi) ==>
              first[y, x] == old(first[y, x])
    ensures forall y, x :: 0 <= y < second.Length0 && 0 <= x < second.Length1 && (y != yi || x != xi) ==>
              second[y, x] == old(second[y, x])
  {
    first[yi, xi] := u;
    second[yi, xi] := v;
  }

  /** The inner FFT-phase loop: fills row yi of both maps and leaves the other rows as they were. */
  method FillPhaseRow(wrappedPhaseMap: array2<real>, coherenceMap: array2<real>,
                      analyticRe: Stack, analyticIm: Stack, envelope: Stack, smooth: Stack,
                      nz: nat, ny: nat, nx: nat, yi: nat, angle: (real, real) -> real)
    requires nz >= 3
    requires Shaped(analyticRe, nz, ny, nx) && Shaped(analyticIm, nz, ny, nx)
    requires Shaped(envelope, nz, ny, nx) && Shaped(smooth, nz, ny, nx)
    requires wrappedPhaseMap != coherenceMap && yi < ny
    requires wrappedPhaseMap.Length0 == ny && wrappedPhaseMap.Length1 == nx
    requires coherenceMap.Length0 == ny && coherenceMap.Length1 == nx
    modifies wrappedPhaseMap, coherenceMap
    ensures forall x :: 0 <= x < nx ==>
              wrappedPhaseMap[yi, x] == PhasePixelAt(analyticRe, analyticIm, envelope, smooth, nz, ny, nx, yi, x, angle).wrappedPhase &&
              coherenceMap[yi, x] == PhasePixelAt(analyticRe, analyticIm, envelope, smooth, nz, ny, nx, yi, x, angle).coherence
    ensures forall y, x :: 0 <= y < ny && y != yi && 0 <= x < nx ==>
              wrappedPhaseMap[y, x] == old(wrappedPhaseMap[y, x]) && coherenceMap[y, x] == old(coherenceMap[y, x])
  {
    ghost var row: seq<PhasePixel> :=
      seq(nx, x requires 0 <= x < nx => PhasePixelAt(analyticRe, analyticIm, envelope, smooth, nz, ny, nx, yi, x, angle));
    var xi := 0;
    while xi < nx
      invariant 0 <= xi <= nx
      invariant forall x :: 0 <= x < xi ==>
                  wrappedPhaseMap[yi, x] == row[x].wrappedPhase && coherenceMap[yi, x] == row[x].coherence
      invariant forall y, x :: 0 <= y < ny && y != yi && 0 <= x < nx ==>
                  wrappedPhaseMap[y, x] == old(wrappedPhaseMap[y, x]) && coherenceMap[y, x] == old(coherenceMap[y, x])
    {
      var phase, coherence := PhasePixelStep(analyticRe, analyticIm, envelope, smooth, nz, ny, nx, yi, xi, angle);
      assert row[xi] == PhasePixel(phase, coherence);
      WriteCell(wrappedPhaseMap, coherenceMap, yi, xi, phase, coherence);
      xi := xi + 1;
    }
  }

  datatype PhaseMaps = PhaseMaps(wrappedPhase: array2<real>, coherence: array2<real>, filter: seq<real>)

  /**
   * FFT phase over a whole stack. Fails with InsufficientSamples when the scan
   * has fewer than 3 samples and with ZeroSampleSpacing when its first two
   * positions coincide; otherwise designs the filter for the spectrum's
   * carrier bin and fills the wrapped-phase and coherence maps pixel by pixel.
   */
  method ProcessFftPhase(zScan: seq<real>, meanSpectrum: seq<real>,
                         analyticRe: Stack, analyticIm: Stack, envelope: Stack, smooth: Stack,
                         nz: nat, ny: nat, nx: nat, bandFrac: real,
                         exp: real -> real, angle: (real, real) -> real)
    returns (r: Result<PhaseMaps>)
    requires |zScan| == nz && |meanSpectrum| == nz
    requires Shaped(analyticRe, nz, ny, nx) && Shaped(analyticIm, nz, ny, nx)
    requires Shaped(envelope, nz, ny, nx) && Shaped(smooth, nz, ny, nx)
    ensures r.Err? <==> nz < 3 || zScan[1] == zScan[0]
    ensures nz < 3 ==> r == Err(InsufficientSamples)
    ensures nz >= 3 && zScan[1] == zScan[0] ==> r == Err(ZeroSampleSpacing)
    ensures r.Ok? ==> fresh(r.value.wrappedPhase) && fresh(r.value.coherence)
    ensures r.Ok? ==> r.value.wrappedPhase.Length0 == ny && r.value.wrappedPhase.Length1 == nx
    ensures r.Ok? ==> r.value.coherence.Length0 == ny && r.value.coherence.Length1 == nx
    ensures r.Ok? ==> r.value.filter == AdaptiveFilter(nz, zScan[1] - zScan[0], FirstArgMax(meanSpectrum), bandFrac, exp)
    ensures r.Ok? ==> forall y, x :: 0 <= y < ny && 0 <= x < nx ==>
              r.value.wrappedPhase[y, x] == PhasePixelAt(analyticRe, analyticIm, envelope, smooth, nz, ny, nx, y, x, angle).wrappedPhase &&
              r.value.coherence[y, x] == PhasePixelAt(analyticRe, analyticIm, envelope, smooth, nz, ny, nx, y, x, angle).coherence
  {
    if nz < 3 {
      return Err(InsufficientSamples);
    }
    if zScan[1] - zScan[0] == 0.0 {
      return Err(ZeroSampleSpacing);
    }
    var filter := DesignFilter(zScan, meanSpectrum, nz, bandFrac, exp);

    var wrappedPhaseMap := new real[ny, nx]((y, x) => 0.0);
    var coherenceMap := new real[ny, nx]((y, x) => 0.0);
    var yi := 0;
    while yi < ny
      invariant 0 <= yi <= ny
      invariant forall y, x :: 0 <= y < yi && 0 <= x < nx ==>
                  wrappedPhaseMap[y, x] == PhasePixelAt(analyticRe, analyticIm, envelope, smooth, nz, ny, nx, y, x, angle).wrappedPhase &&
                  coherenceMap[y, x] == PhasePixelAt(analyticRe, analyticIm, envelope, smooth, nz, ny, nx, y, x, angle).coherence
    {
      FillPhaseRow(wrappedPhaseMap, coherenceMap, analyticRe, analyticIm, envelope, smooth, nz, ny, nx, yi, angle);
      yi := yi + 1;
    }
    return Ok(PhaseMaps(wrappedPhaseMap, coherenceMap, filter));
  }
}
