# WSI simulation core in Dafny

This project models the per-pixel reconstruction logic of a white-light
scanning interferometry (WSI) simulator and proves properties about it. A
z-stack is a three-dimensional array indexed `[scan position][row][column]`.
For every lateral pixel, its z-column is turned into a height or a wrapped
phase, together with a coherence value.

- **Coherence peak sensing (CPS)**, `process_cps_subpixel`:
  - The algorithm takes the first index of the maximum of the smoothed
    envelope.
  - A peak at either end of the scan axis reports the scan position there,
    together with the smoothed envelope value.
  - An interior peak is refined by a three-point parabolic fit. The scan
    positions and the raw envelope are then linearly interpolated at the
    fractional index.
- **Adaptive-bandpass FFT phase**, `process_fft_phase`:
  - The algorithm rejects scans shorter than 3 samples.
  - It designs a band filter from three parts: the carrier bin (the peak of
    the mean spectrum), the half-width `max(2, int(nz * bandFrac / 2))` and
    sigma `max(1, hb / 2)`.
  - The analytic mask is 2 on positive-frequency bins, 1 on the zero bin and
    0 on negative bins. It follows numpy's `fftfreq` bin order.
  - The peak index is clamped into `[1, nz-2]` and refined by the same
    parabolic fit.
  - The real part, the imaginary part and the raw envelope are interpolated
    at the refined index. The phase is the angle of the interpolated complex
    value.
  - `process_stack_fft` is a second copy of this algorithm with its own
    parabolic fit. It is modelled separately, and both copies are proved to
    meet the same per-pixel specification.
- **Synthetic surface**, `create_simulated_surface`: a zero grid whose
  half-open rectangle `[sy/4, 3sy/4) x [sx/4, 3sx/4)` holds the step height,
  converted from nanometres to metres.

The project has five modules:

- `Stacks` (`stacks.dfy`): the stack type, its shape and z-columns, and the
  error type.
- `Subpixel` (`subpixel.dfy`): the parabolic fit, numpy `interp` over
  `0..n-1`, and numpy `argmax` with ties going to the first index.
- `Processing` (`processing.dfy`): both algorithms of `src/processing.py`.
- `FftPhaseExtraction` (`fft_phase_extraction.dfy`): `src/fft_phase_extraction.py`.
- `SignalGenerator` (`signal_generator.dfy`): the step surface.

Each pixel has a specification function: `CpsAt`/`CpsPixelAt` for CPS and
`PhaseAt`/`PhasePixelAt` for the FFT path. The imperative methods are proved
against these functions. The methods allocate zero maps with `new real[ny, nx]`
and fill them in nested row and column loops. The lemmas state what the
specification functions guarantee.

Library numerics are inputs:

- the Hilbert or FFT analytic signal, split into real and imaginary stacks;
- its magnitude (the envelope);
- the Gaussian-smoothed envelope;
- the mean spectrum.

`exp` (the band window) and `angle` (complex argument) are function
parameters.

## Model

| member | source | states |
|---|---|---|
| Stacks.Column | src/processing.py:172-173 | the z-column of pixel (y, x), `stack[:, y, x]`: nz entries, entry k being stack[k][y][x] |
| Subpixel.ParabolicShift | src/processing.py:23-26 | returns exactly 0 when the curvature magnitude is below 1e-12; otherwise the shift times the curvature equals (vm1 - vp1) / 2, the vertex condition of the fitted parabola |
| Subpixel.Curvature | src/processing.py:23 | the fit's denominator vm1 - 2 v0 + vp1 is the second difference (vp1 - v0) - (v0 - vm1) of the three samples; with equal neighbours it is negative exactly when the middle sample is above them |
| Subpixel.ParabolaVertexIsExact | src/processing.py:13-26 | for samples of a t^2 + b t + c at t = -1, 0, 1 with non-flat curvature, the shift is the parabola's vertex -b / 2a |
| Subpixel.ShiftWithinHalfAtPeak | src/processing.py:21-26 | when the middle sample is at least both neighbours, the shift lies in [-0.5, 0.5], as the doc comment promises |
| Subpixel.MirrorNegatesShift | src/processing.py:23-26 | swapping the two neighbours negates the shift |
| Subpixel.EqualNeighboursGiveZero | src/processing.py:23-26 | equal neighbours give shift 0 |
| Subpixel.Interp | src/processing.py:81-82 | numpy `interp` over the grid 0..n-1: the first sample at or below 0, the last at or above n-1, and inside the straight line through the two bracketing samples |
| Subpixel.InterpAtSample | src/processing.py:81-82 | interpolation over 0..n-1 returns sample k at index k |
| Subpixel.InterpClampsToEnds | src/processing.py:81-82 | at or below index 0 interpolation returns the first sample; at or above n-1 it returns the last |
| Subpixel.InterpInSegment | src/processing.py:81-82 | between two consecutive indices with ordered samples, the interpolant lies between those samples |
| Subpixel.InterpBetweenNeighbours | src/processing.py:175-180 | strictly inside the grid the interpolant lies between the two bracketing samples, whichever of them is larger (rising or falling segment) |
| Subpixel.InterpNonNegative | src/processing.py:82 | interpolating non-negative samples gives a non-negative value |
| Subpixel.InterpBetween | src/processing.py:81 | on a non-decreasing sequence, interpolating between indices lo and hi gives a value between their samples |
| Subpixel.InterpWithinRange | src/processing.py:81 | on a non-decreasing sequence every interpolated value lies between the first and last samples |
| Subpixel.InterpOfAffineIsExact | src/processing.py:81 | on a uniform axis a + k d, interpolation at x in [0, n-1] gives exactly a + x d |
| Subpixel.FirstArgMax | src/processing.py:56 | the index is in range, no sample exceeds the one there, and every earlier sample is strictly smaller (numpy argmax with ties to the first) |
| Subpixel.FirstArgMaxIsUnique | src/processing.py:56 | any index with those two properties is FirstArgMax, so they define it |
| Processing.RefinedIndexNearPeak | src/processing.py:72-78 | at a local maximum of the smoothed samples, the refined index i + shift stays within half a sample of i |
| Processing.RefinedIndex | src/processing.py:72-78 | the fractional read index i + shift from the three smoothed samples around i: exactly i for a flat top (curvature magnitude below 1e-12), otherwise the index whose offset from i times the curvature equals (vm1 - vp1) / 2, the vertex of the fitted parabola |
| Processing.CpsAt | src/processing.py:63-82 | the CPS result of one z-column: a first peak at either end reports z_scan and the smoothed envelope there; an interior peak interpolates z_scan and the raw envelope at the refined index |
| Processing.CpsPixelAt | src/processing.py:61-82 | CpsAt applied to the z-columns of pixel (y, x) |
| Processing.CpsPeakAtScanStart | src/processing.py:66-69 | a smoothed envelope largest at index 0 gives height z_scan[0] and coherence smooth[0], whatever the other samples hold |
| Processing.CpsPeakAtScanEnd | src/processing.py:66-69 | an envelope first maximal at the last index gives the last scan position and the smoothed value there |
| Processing.CpsHeightBetweenNeighbours | src/processing.py:72-81 | for an interior peak p on a non-decreasing scan axis, the height lies in [z_scan[p-1], z_scan[p+1]] |
| Processing.CpsHeightWithinScan | src/processing.py:63-81 | on a non-decreasing scan axis every CPS height lies within [z_scan[0], z_scan[nz-1]] |
| Processing.CpsSymmetricPeakIsNotShifted | src/processing.py:72-82 | an interior peak with equal smoothed neighbours gives the peak's own scan position and the raw envelope there |
| Processing.CpsReadsAtParabolaVertex | src/processing.py:72-82 | a smoothed envelope that is a non-flat parabola around an interior peak has both outputs interpolated at the parabola's vertex |
| Processing.CoherenceNonNegative | src/processing.py:66-180 | with non-negative raw and smoothed envelopes, the CPS coherence and the FFT-phase coherence of a pixel are non-negative |
| Processing.CoherenceMapsNonNegative | src/processing.py:139-180 | with non-negative envelope stacks (magnitudes), every cell of the CPS and FFT-phase coherence maps is non-negative |
| Processing.CpsPixelStep | src/processing.py:63-82 | one iteration of the pixel loop, with the boundary branch and the refined branch, produces exactly CpsPixelAt for that pixel |
| Processing.FillCpsRow | src/processing.py:62-82 | the inner loop sets every pixel of row yi to CpsPixelAt and leaves the other rows unchanged |
| Processing.ProcessCpsSubpixel | src/processing.py:42-85 | both maps are fresh ny x nx arrays, and every pixel holds the CPS height and coherence of its own z-column |
| Processing.TruncateToInt | src/processing.py:120 | Python `int()` on a float: the integer next to v toward zero (floor for v >= 0, ceiling for v < 0) |
| Processing.HalfBandwidth | src/processing.py:120 | hb >= 2; hb <= nz * bandFrac / 2 unless hb = 2; and nz * bandFrac / 2 < hb + 1, which fixes hb = max(2, int(nz * bandFrac / 2)) |
| Processing.BandSigma | src/processing.py:121 | `max(1, hb / 2)`: at least 1 and at least hb / 2, and equal to one of them |
| Processing.BandSigmaIsHalfWidth | src/processing.py:120-121 | sigma is at least 1 and, because the half-width is at least 2, exactly half of it |
| Processing.DefaultBandDesign | src/processing.py:120-121 | 256 samples with band fraction 0.15 give half-width 19 and sigma 9.5 |
| Processing.FftFreqNumerator | src/processing.py:114 | the integer numerator of numpy `fftfreq`: k or k - n, within [-(n/2), (n-1)/2], and positive exactly on bins 1..(n-1)/2 |
| Processing.FftFreq | src/processing.py:114 | numpy `fftfreq(n, d)[k]`: that numerator divided by n d |
| Processing.IsCloseToZero | src/processing.py:129 | numpy `isclose(f, 0.0)` with default tolerances: abs(f) <= 1e-8 |
| Processing.AnalyticMask | src/processing.py:127-129 | one mask value per bin: 1 where the frequency is close to 0, else 2 where it is positive, else 0 |
| Processing.AnalyticMaskByBin | src/processing.py:114-129 | with dz > 0 and n dz < 1e8, the mask is 1 exactly at bin 0, 2 exactly on bins 1..(n-1)/2 and 0 exactly on the remaining bins |
| Processing.BandWindow | src/processing.py:123-124 | one Gaussian window value per bin: exp(-((k - center) / sigma)^2 / 2) |
| Processing.DesignBand | src/processing.py:120-124 | the window of the design: centred on the carrier bin, with the sigma derived from the band fraction |
| Processing.AdaptiveFilter | src/processing.py:131 | one filter value per bin: window times mask |
| Processing.AdaptiveFilterByBin | src/processing.py:120-131 | with dz > 0 and n dz < 1e8, the filter equals the window at bin 0, twice the window on bins 1..(nz-1)/2, and 0 on every other bin |
| Processing.FilterVanishesOnNegativeBins | src/processing.py:127-131 | with dz > 0 and n dz < 1e8, the filter band * mask is 0 on every negative-frequency bin (index above (nz-1)/2), whatever the window values |
| Processing.DesignFilter | src/processing.py:110-131 | the filter computed from the first scan spacing, the peak of the mean spectrum and the band fraction is AdaptiveFilter of those values; with dz > 0 and n dz < 1e8 it is the window at bin 0, twice the window on bins 1..(nz-1)/2 and 0 on every other bin |
| Processing.ClampPeak | src/processing.py:156-162 | the clamped index lies in [1, nz-2]; an index already there is unchanged, 0 becomes 1, and n-1 or more becomes n-2 |
| Processing.PhaseIndex | src/processing.py:156-169 | the FFT read index: the first peak of the smoothed column, clamped into [1, nz-2], plus the parabolic shift there |
| Processing.PhaseAt | src/processing.py:156-180 | the FFT-phase result of one z-column: angle of the real and imaginary parts interpolated at PhaseIndex, and the raw envelope interpolated there |
| Processing.PhasePixelAt | src/processing.py:154-180 | PhaseAt applied to the z-columns of pixel (y, x) |
| Processing.PhaseIndexMatchesCpsAtInteriorPeak | src/processing.py:156-180 | for an interior peak the clamp does nothing, the read index is within half a sample of the peak, and the coherence equals the CPS coherence |
| Processing.ClampedPeakCanReadFarEnd | src/processing.py:156-180 | after clamping, the fit can extrapolate: smoothed samples 1, 0.5, 0.25 give index 2.5 and the pixel reads the last samples |
| Processing.PhasePixelStep | src/processing.py:156-180 | one iteration of the pixel loop (clamp, fit, three interpolations, angle) produces exactly PhasePixelAt for that pixel |
| Processing.FillPhaseRow | src/processing.py:155-180 | the inner loop sets every pixel of row yi to PhasePixelAt and leaves the other rows unchanged |
| Processing.ProcessFftPhase | src/processing.py:102-183 | errors exactly when nz < 3 (InsufficientSamples) or dz = 0 (ZeroSampleSpacing); otherwise the filter is AdaptiveFilter and both fresh ny x nx maps hold PhasePixelAt of every pixel |
| FftPhaseExtraction.ParabolicSubpixel | src/fft_phase_extraction.py:6-14 | this copy of the fit agrees with the one in src/processing.py on every input |
| FftPhaseExtraction.SubpixelWithinHalfAtPeak | src/fft_phase_extraction.py:6-14 | when the middle sample dominates, this copy's shift also lies in [-0.5, 0.5] |
| FftPhaseExtraction.StackPixelStep | src/fft_phase_extraction.py:71-90 | one iteration (clamp, this module's fit, interpolations, angle) produces exactly PhasePixelAt for that pixel |
| FftPhaseExtraction.FillStackRow | src/fft_phase_extraction.py:70-90 | the inner loop sets row yi to PhasePixelAt and leaves the other rows unchanged |
| FftPhaseExtraction.ProcessStackFft | src/fft_phase_extraction.py:16-92 | the same error cases and the same filter and maps as Processing.ProcessFftPhase, so the two copies agree on every stack |
| SignalGenerator.InStep | src/signal_generator.py:10-12 | the half-open rectangle [sy/4, 3sy/4) x [sx/4, 3sx/4), with floor division |
| SignalGenerator.StepStart | src/signal_generator.py:10 | `n//4`: the largest start with 4 start <= n, the first raised row or column |
| SignalGenerator.StepEnd | src/signal_generator.py:11 | `n*3//4`: the largest end with 4 end <= 3n, one past the last raised row or column |
| SignalGenerator.SurfaceAt | src/signal_generator.py:8-12 | the height of one cell: step height times 1e-9 inside the rectangle, 0 elsewhere |
| SignalGenerator.StepInsideGrid | src/signal_generator.py:10-11 | along each axis the step bounds satisfy n/4 <= 3n/4 <= n, so the rectangle lies inside the grid |
| SignalGenerator.FillStepRow | src/signal_generator.py:12 | columns [x0, x1) of row y hold the step value, and every other cell is unchanged |
| SignalGenerator.CreateSimulatedSurface | src/signal_generator.py:4-13 | a fresh sy x sx array holding the height in metres inside the step rectangle and 0 everywhere else |
| SignalGenerator.ZeroExactlyOutsideStep | src/signal_generator.py:8-12 | with a positive step height, a cell is 0 exactly when it lies outside the rectangle |
| SignalGenerator.SurfaceNonNegative | src/signal_generator.py:8-12 | a non-negative step height gives a non-negative surface |
| SignalGenerator.DefaultStepBounds | src/signal_generator.py:4-11 | on the default 128 x 128 grid the step covers rows and columns 32 through 95 |
| SignalGenerator.RaisedInRowCount | src/signal_generator.py:10-12 | the number of raised cells among the first n columns of a row is the overlap of [0, n) with the column range, or 0 outside the row range |
| SignalGenerator.RaisedInRowsCount | src/signal_generator.py:10-12 | the number of raised cells in the first m rows is the overlap of [0, m) with the row range times the column width |
| SignalGenerator.RaisedCellCount | src/signal_generator.py:10-12 | the grid holds exactly (3sy/4 - sy/4) x (3sx/4 - sx/4) raised cells |
| SignalGenerator.DefaultRaisedCellCount | src/signal_generator.py:4-12 | the default grid holds exactly 4096 raised cells |

## Left out

- FFT, inverse FFT, the Hilbert transform, complex magnitude, `gaussian_filter1d` and the spectrum mean are library numerics. Their outputs are inputs to the model, so nothing ties the analytic stack to the designed filter. The filter is computed and returned but not applied.
- `exp` in the band window and `np.angle` are uninterpreted function parameters. The claim that the wrapped phase lies in [-pi, pi] is therefore not modelled.
- Floating-point rounding, NaN and infinities: arithmetic is over exact reals.
- Processing.ProcessCpsSubpixel: requires nz >= 1, because the Hilbert transform at src/processing.py:49 raises on an empty scan axis, and requires |zScan| == nz, because interpolation needs z_scan to match the index grid. The source checks neither.
- Processing.ProcessFftPhase and FftPhaseExtraction.ProcessStackFft: require |zScan| == nz. The source only reads z_scan[0] and z_scan[1] there.
- Processing.AnalyticMaskByBin: states the bin layout under dz > 0 and n * dz < 1e8. Beyond that, frequencies 1/(n dz) fall within numpy's isclose tolerance of 1e-8 and are masked as 1.
- Processing.AdaptiveFilterByBin: states the filter by bin under the same bound, for the same reason.
- Processing.DesignFilter: its by-bin clause holds under the same bound, for the same reason.
- Processing.FilterVanishesOnNegativeBins: holds only under the same bound. Without it a negative bin whose frequency is within 1e-8 of zero is masked as 1 (src/processing.py:129), so the filter need not vanish there.
- Processing.HalfBandwidth: `int()` of a negative value truncates toward zero, as modelled. A NaN band fraction is not representable.
- The per-pixel peak index is computed inside the loop, where the source precomputes the whole peak map with argmax over axis 0. The values are the same.
- Printing, timing and the plotting/output-directory utilities.
- The noise model, `simulate_wsi_stack_3d`, phase unwrapping and the Hilbert phase module: random sampling, transcendental synthesis and thin library wrappers.
- A direct single-carrier-bin readout mode is not part of this model, because no source file implements it.
