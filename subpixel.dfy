/**
 * The subpixel refinement primitives that both reconstruction algorithms use:
 * the three-point parabolic peak fit, piecewise-linear interpolation of a
 * sampled sequence at a fractional index (numpy's `interp` over the grid
 * 0, 1, ..., n-1), and the first index of a maximum (numpy's `argmax`).
 */
module Subpixel {

  /** A fit whose curvature magnitude is below 1e-12 is treated as a flat top. */
  const FlatTopThreshold: real := 0.000000000001

  function Abs(v: real): real
  {
    if v < 0.0 then -v else v
  }

  /** The denominator of the fit: twice the curvature of the parabola through the three samples. */
  function Curvature(vm1: real, v0: real, vp1: real): (c: real)
    ensures c == (vp1 - v0) - (v0 - vm1)
    ensures vm1 == vp1 ==> (c < 0.0 <==> v0 > vm1)
  {
    vm1 - 2.0 * v0 + vp1
  }

  /**
   * Offset of the vertex of the parabola through (-1, vm1), (0, v0), (1, vp1).
   * A flat top falls back to offset 0; otherwise the offset solves
   * shift * curvature == (vm1 - vp1) / 2, the vertex condition.
   */
  function ParabolicShift(vm1: real, v0: real, vp1: real): (shift: real)
    ensures Abs(Curvature(vm1, v0, vp1)) < FlatTopThreshold ==> shift == 0.0
    ensures Abs(Curvature(vm1, v0, vp1)) >= FlatTopThreshold ==>
              shift * Curvature(vm1, v0, vp1) == 0.5 * (vm1 - vp1)
  {
    var denom := Curvature(vm1, v0, vp1);
    if Abs(denom) < FlatTopThreshold then 0.0 else 0.5 * (vm1 - vp1) / denom
  }

  /** Samples of a t^2 + b t + c at t = -1, 0, 1 put the offset at the vertex -b / (2a). */
  lemma ParabolaVertexIsExact(a: real, b: real, c: real)
    requires Abs(2.0 * a) >= FlatTopThreshold
    ensures ParabolicShift(a - b + c, c, a + b + c) == -b / (2.0 * a)
  {
    var s := ParabolicShift(a - b + c, c, a + b + c);
    assert Curvature(a - b + c, c, a + b + c) == 2.0 * a;
    assert s * (2.0 * a) == -b;
  }

  lemma MulPosNeg(p: real, q: real)
    requires p > 0.0 && q < 0.0
    ensures p * q < 0.0
  {
  }

  /**
   * When the middle sample is a maximum of the three, the vertex lies within
   * half a sample of it: -0.5 <= shift <= 0.5.
   */
  lemma ShiftWithinHalfAtPeak(vm1: real, v0: real, vp1: real)
    requires v0 >= vm1 && v0 >= vp1
    ensures -0.5 <= ParabolicShift(vm1, v0, vp1) <= 0.5
  {
    var d := Curvature(vm1, v0, vp1);
    var s := ParabolicShift(vm1, v0, vp1);
    if Abs(d) >= FlatTopThreshold {
      assert d < 0.0;
      assert s * d == 0.5 * (vm1 - vp1);
      if s > 0.5 {
        MulPosNeg(s - 0.5, d);
        assert false;
      }
      if s < -0.5 {
        MulPosNeg(-0.5 - s, d);
        assert false;
      }
    }
  }

  /** Mirroring the neighbours mirrors the offset. */
  lemma MirrorNegatesShift(vm1: real, v0: real, vp1: real)
    ensures ParabolicShift(vp1, v0, vm1) == -ParabolicShift(vm1, v0, vp1)
  {
    var d := Curvature(vm1, v0, vp1);
    assert Curvature(vp1, v0, vm1) == d;
    if Abs(d) >= FlatTopThreshold {
      var s := ParabolicShift(vm1, v0, vp1);
      var t := ParabolicShift(vp1, v0, vm1);
      assert (s + t) * d == 0.0;
      assert d != 0.0;
    }
  }

  /** Equal neighbours leave the integer peak unchanged. */
  lemma EqualNeighboursGiveZero(v: real, v0: real)
    ensures ParabolicShift(v, v0, v) == 0.0
  {
    MirrorNegatesShift(v, v0, v);
  }

  /**
   * numpy `interp(x, arange(n), fp)`: the end samples outside [0, n-1],
   * the straight line between the bracketing samples inside.
   */
  function Interp(x: real, fp: seq<real>): real
    requires |fp| > 0
  {
    if x <= 0.0 then fp[0]
    else if x >= (|fp| - 1) as real then fp[|fp| - 1]
    else
      var k := x.Floor;
      fp[k] + (x - k as real) * (fp[k + 1] - fp[k])
  }

  /** Interpolation reproduces every sample at its own index. */
  lemma InterpAtSample(fp: seq<real>, k: nat)
    requires k < |fp|
    ensures Interp(k as real, fp) == fp[k]
  {
    if 0 < k < |fp| - 1 {
      assert (k as real).Floor == k;
    }
  }

  /** Outside the sampled range the interpolant takes the nearer end sample. */
  lemma InterpClampsToEnds(x: real, fp: seq<real>)
    requires |fp| > 0
    ensures x <= 0.0 ==> Interp(x, fp) == fp[0]
    ensures x >= (|fp| - 1) as real ==> Interp(x, fp) == fp[|fp| - 1]
  {
    if |fp| == 1 && x <= 0.0 {
      assert fp[0] == fp[|fp| - 1];
    }
  }

  lemma MulBetweenZeroAndOne(t: real, delta: real)
    requires 0.0 <= t <= 1.0 && delta >= 0.0
    ensures 0.0 <= t * delta <= delta
  {
    assert delta - t * delta == (1.0 - t) * delta;
  }

  /** Between two consecutive indices the interpolant lies between their samples. */
  lemma InterpInSegment(x: real, fp: seq<real>, k: nat)
    requires k + 1 < |fp| && k as real <= x <= (k + 1) as real && fp[k] <= fp[k + 1]
    ensures fp[k] <= Interp(x, fp) <= fp[k + 1]
  {
    if x <= 0.0 {
      assert k == 0;
    } else if x >= (|fp| - 1) as real {
      assert x == (k + 1) as real;
    } else {
      var j := x.Floor;
      assert j as real <= x < j as real + 1.0;
      if j == k {
        MulBetweenZeroAndOne(x - k as real, fp[k + 1] - fp[k]);
      } else {
        assert j == k + 1 && x == j as real;
        InterpAtSample(fp, j);
      }
    }
  }

  function Min(a: real, b: real): real
  {
    if a <= b then a else b
  }

  function Max(a: real, b: real): real
  {
    if a <= b then b else a
  }

  lemma MulNonNegative(p: real, q: real)
    requires p >= 0.0 && q >= 0.0
    ensures p * q >= 0.0
  {
  }

  /** A point of the segment from a to b at parameter t in [0, 1] lies between a and b. */
  lemma StraightLineBetweenEnds(t: real, a: real, b: real)
    requires 0.0 <= t <= 1.0
    ensures Min(a, b) <= a + t * (b - a) <= Max(a, b)
  {
    var v := a + t * (b - a);
    if a <= b {
      MulNonNegative(t, b - a);
      MulNonNegative(1.0 - t, b - a);
      assert b - v == (1.0 - t) * (b - a);
    } else {
      MulNonNegative(t, a - b);
      MulNonNegative(1.0 - t, a - b);
      assert a - v == t * (a - b);
      assert v - b == (1.0 - t) * (a - b);
    }
  }

  /**
   * Strictly inside the sampled range the interpolant lies between the two
   * bracketing samples, whichever of them is larger.
   */
  lemma InterpBetweenNeighbours(x: real, fp: seq<real>)
    requires 0.0 < x < (|fp| - 1) as real
    ensures x.Floor + 1 < |fp|
    ensures Min(fp[x.Floor], fp[x.Floor + 1]) <= Interp(x, fp) <= Max(fp[x.Floor], fp[x.Floor + 1])
  {
    var k := x.Floor;
    var t := x - k as real;
    assert Interp(x, fp) == fp[k] + t * (fp[k + 1] - fp[k]);
    StraightLineBetweenEnds(t, fp[k], fp[k + 1]);
  }

  /** Interpolating non-negative samples never gives a negative value. */
  lemma InterpNonNegative(x: real, fp: seq<real>)
    requires |fp| > 0 && forall k :: 0 <= k < |fp| ==> fp[k] >= 0.0
    ensures Interp(x, fp) >= 0.0
  {
    if 0.0 < x < (|fp| - 1) as real {
      InterpBetweenNeighbours(x, fp);
    }
  }

  predicate NonDecreasing(s: seq<real>)
  {
    forall i, j :: 0 <= i <= j < |s| ==> s[i] <= s[j]
  }

  /** On a non-decreasing sequence, interpolating between indices lo and hi gives a value between their samples. */
  lemma InterpBetween(x: real, fp: seq<real>, lo: nat, hi: nat)
    requires NonDecreasing(fp) && lo <= hi < |fp| && lo as real <= x <= hi as real
    ensures fp[lo] <= Interp(x, fp) <= fp[hi]
  {
    if x == hi as real {
      InterpAtSample(fp, hi);
    } else {
      var k := x.Floor;
      assert lo <= k < hi;
      InterpInSegment(x, fp, k);
    }
  }

  /** On a non-decreasing sequence every interpolated value lies within the first and last samples. */
  lemma InterpWithinRange(x: real, fp: seq<real>)
    requires NonDecreasing(fp) && |fp| > 0
    ensures fp[0] <= Interp(x, fp) <= fp[|fp| - 1]
  {
    if 0.0 < x < (|fp| - 1) as real {
      InterpBetween(x, fp, 0, |fp| - 1);
    }
  }

  /** Interpolation reproduces an affine sequence a + k d exactly on [0, n-1]. */
  lemma InterpOfAffineIsExact(x: real, fp: seq<real>, a: real, d: real)
    requires |fp| > 0 && forall k :: 0 <= k < |fp| ==> fp[k] == a + k as real * d
    requires 0.0 <= x <= (|fp| - 1) as real
    ensures Interp(x, fp) == a + x * d
  {
    if x == 0.0 {
    } else if x == (|fp| - 1) as real {
    } else {
      var k := x.Floor;
      assert fp[k + 1] - fp[k] == d;
      assert a + k as real * d + (x - k as real) * d == a + x * d;
    }
  }

  /**
   * First index at which a non-empty sequence attains its maximum
   * (numpy `argmax`, whose ties go to the earliest index).
   */
  function FirstArgMax(s: seq<real>): (i: nat)
    requires |s| > 0
    ensures i < |s|
    ensures forall j :: 0 <= j < |s| ==> s[j] <= s[i]
    ensures forall j :: 0 <= j < i ==> s[j] < s[i]
  {
    if |s| == 1 then 0
    else
      var k := FirstArgMax(s[..|s| - 1]);
      if s[|s| - 1] > s[k] then |s| - 1 else k
  }

  /** The two properties of FirstArgMax determine it: any first maximum is FirstArgMax. */
  lemma FirstArgMaxIsUnique(s: seq<real>, i: nat)
    requires i < |s|
    requires forall j :: 0 <= j < |s| ==> s[j] <= s[i]
    requires forall j :: 0 <= j < i ==> s[j] < s[i]
    ensures FirstArgMax(s) == i
  {
  }
}
