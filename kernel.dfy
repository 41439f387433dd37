/** The Gabor kernel generator: a periodic Gaussian band-pass filter written
    directly as frequency-domain samples.  The exponential and the inverse
    square root are passed in as functions and stay uninterpreted; what the
    model states is about the folded distance and the fill loop. */
module Kernel {

  function Abs(x: real): (r: real)
    ensures 0.0 <= r && (r == x || r == -x)
  {
    if x < 0.0 then -x else x
  }

  function Min(a: real, b: real): real
  {
    if a <= b then a else b
  }

  /** Distance of bin i from the centre, folded at half: |i - c| is
      reflected about half, so the frequency axis wraps around. */
  function FoldedDistance(i: nat, center: real, half: nat): (d: real)
    ensures d <= half as real
    ensures i as real == center ==> d == 0.0
    ensures 0.0 <= d <==> Abs(i as real - center) <= 2.0 * (half as real)
  {
    var f := Abs(i as real - center);
    half as real - Abs(f - half as real)
  }

  /** The Gaussian bell exp(-f^2). */
  function Gaussian(exp: real -> real, f: real): real
  {
    exp(-f * f)
  }

  /** The bell at distance d measured in units of 1/scale. */
  function ScaledGaussian(exp: real -> real, d: real, scale: real): real
  {
    Gaussian(exp, d * scale)
  }

  /** A distance already multiplied by its scale gives the same bell. */
  lemma GaussianOfScaled(exp: real -> real, d: real, scale: real, f: real)
    requires f == d * scale
    ensures Gaussian(exp, f) == ScaledGaussian(exp, d, scale)
  {
  }

  /** The kernel sample at bin i: exp(-(d / sqrt(deviation))^2), where
      rsqrt stands for x |-> 1/sqrt(x). */
  function KernelValue(sampleCount: nat, i: nat, center: real, deviation: real,
                       exp: real -> real, rsqrt: real -> real): (v: real)
    ensures v == Gaussian(exp, FoldedDistance(i, center, sampleCount / 2) * rsqrt(deviation))
    ensures i as real == center ==> v == exp(0.0)
  {
    ScaledGaussian(exp, FoldedDistance(i, center, sampleCount / 2), rsqrt(deviation))
  }

  /** The whole kernel over sampleCount bins. */
  function KernelSeq(sampleCount: nat, center: real, deviation: real,
                     exp: real -> real, rsqrt: real -> real): (k: seq<real>)
    ensures |k| == sampleCount
    ensures forall i :: 0 <= i < sampleCount ==>
      k[i] == KernelValue(sampleCount, i, center, deviation, exp, rsqrt)
  {
    seq(sampleCount, i requires 0 <= i < sampleCount =>
      KernelValue(sampleCount, i, center, deviation, exp, rsqrt))
  }

  /** The kernel peaks at its centre: the value there is exp(0). */
  lemma PeakAtCentre(sampleCount: nat, i: nat, center: real, deviation: real,
                     exp: real -> real, rsqrt: real -> real)
    requires i < sampleCount && i as real == center
    ensures KernelSeq(sampleCount, center, deviation, exp, rsqrt)[i] == exp(0.0)
  {

  }

  /** For an even count n the fold is the circular distance on a ring of n
      bins: the smaller of the way forward and the way back. */
  lemma FoldedDistanceIsCircular(n: nat, i: nat, center: real)
    requires n % 2 == 0
    requires Abs(i as real - center) <= n as real
    ensures FoldedDistance(i, center, n / 2)
            == Min(Abs(i as real - center), n as real - Abs(i as real - center))
  {

  }

  /** For an even count n, bins i and n - i are at the same distance from
      centre 0. */
  lemma EvenFoldSymmetric(n: nat, i: nat)
    requires n % 2 == 0 && i <= n
    ensures FoldedDistance(i, 0.0, n / 2) == FoldedDistance(n - i, 0.0, n / 2)
  {

  }

  /** For an even count and centre 0 the kernel is symmetric under the
      periodic reflection i <-> n - i (bin 0 is its own mirror). */
  lemma KernelSymmetricAtZero(n: nat, i: nat, deviation: real,
                              exp: real -> real, rsqrt: real -> real)
    requires n % 2 == 0 && 0 < i < n
    ensures KernelSeq(n, 0.0, deviation, exp, rsqrt)[i]
            == KernelSeq(n, 0.0, deviation, exp, rsqrt)[n - i]
  {

  }

  /** For an odd count the reflection is about floor(n/2), so bin i mirrors
      bin n - 1 - i: the last bin lies at distance 0 from centre 0. */
  lemma OddCountMirror(n: nat, i: nat)
    requires n % 2 == 1 && i < n
    ensures FoldedDistance(i, 0.0, n / 2) == FoldedDistance(n - 1 - i, 0.0, n / 2)
    ensures FoldedDistance(n - 1, 0.0, n / 2) == 0.0
  {

  }

  /** For an odd count the kernel is not symmetric under i <-> n - i:
      with five bins and centre 0, bin 1 is at distance 1 while bin 4 is at
      distance 0, a second peak beside the one at bin 0. */
  lemma OddCountSecondPeak(deviation: real, exp: real -> real, rsqrt: real -> real)
    ensures FoldedDistance(1, 0.0, 5 / 2) == 1.0 && FoldedDistance(4, 0.0, 5 / 2) == 0.0
    ensures KernelSeq(5, 0.0, deviation, exp, rsqrt)[4] == KernelSeq(5, 0.0, deviation, exp, rsqrt)[0]
  {
  }

  /** Fills kernel[0..sampleCount) with the Gabor kernel centred at
      centerFrequency; the rest of the buffer is left alone. */
  method GaborWavelet(sampleCount: nat, kernel: array<real>, centerFrequency: real, deviation: real,
                      exp: real -> real, rsqrt: real -> real)
    requires sampleCount <= kernel.Length
    modifies kernel
    ensures kernel[..sampleCount] == KernelSeq(sampleCount, centerFrequency, deviation, exp, rsqrt)
    ensures kernel[sampleCount..] == old(kernel[sampleCount..])
  {
    var scale := rsqrt(deviation);
    var halfSampleCount := sampleCount / 2;
    var i := 0;
    while i < sampleCount
      invariant 0 <= i <= sampleCount
      invariant forall j :: 0 <= j < i ==>
        kernel[j] == KernelValue(sampleCount, j, centerFrequency, deviation, exp, rsqrt)
      invariant forall k :: i <= k < kernel.Length ==> kernel[k] == old(kernel[k])
    {
      var f := Abs(i as real - centerFrequency);
      f := halfSampleCount as real - Abs(f - halfSampleCount as real);
      ghost var d := f;
      f := f * scale;
      GaussianOfScaled(exp, d, scale, f);
      assert exp(-f * f) == Gaussian(exp, f);
      kernel[i] := exp(-f * f);
      i := i + 1;
    }
    assert kernel[..sampleCount] == KernelSeq(sampleCount, centerFrequency, deviation, exp, rsqrt);
  }
}
