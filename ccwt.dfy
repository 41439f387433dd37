/** The transform driver: the frame sizes ccwt_init derives from the
    configuration, the zeroed padding at both ends of the input frame, and
    the row loop of ccwt_calculate.  Each row builds a Gabor kernel at the
    row's frequency, folds its product with the input spectrum down to the
    output frame and hands the row to a callback; the loop stops at the
    first row whose callback returns a non-zero code. */
module Ccwt {
  import opened Kernel
  import opened Downsample

  /** The floating-point functions the transform calls.  The model keeps
      them uninterpreted; rsqrt stands for x |-> 1/sqrt(x). */
  datatype Numerics = Numerics(exp: real -> real, rsqrt: real -> real,
                               pow: (real, real) -> real, log: real -> real)

  /** The frequency of a row and its derivative with respect to the row. */
  datatype Band = Band(frequency: real, derivative: real)

  // ---------------------------------------------------------------------
  // Frame sizes

  /** Ratio of the padded input frame to the unpadded signal width. */
  function PaddingCorrection(sampleCount: nat, width: nat): (r: real)
    requires 0 < width
    ensures r * (width as real) == sampleCount as real
    ensures width <= sampleCount ==> 1.0 <= r
  {
    (sampleCount as real) / (width as real)
  }

  /** Samples per output row: the output width stretched by the padding
      correction, truncated towards zero as the conversion to unsigned does. */
  function OutputSampleCount(outputWidth: nat, correction: real): (r: nat)
    requires 0.0 <= correction
    ensures r as real <= (outputWidth as real) * correction < r as real + 1.0
  {
    ((outputWidth as real) * correction).Floor
  }

  /** The input padding scaled to the output width, truncated. */
  function OutputPadding(inputPadding: nat, outputWidth: nat, inputWidth: nat): (r: nat)
    requires 0 < inputWidth
    ensures r as real <= (inputPadding as real) * (outputWidth as real) / (inputWidth as real) < r as real + 1.0
    ensures outputWidth <= inputWidth ==> r <= inputPadding
  {
    ((inputPadding as real) * (outputWidth as real) / (inputWidth as real)).Floor
  }

  /** Truncating a stretched width `w + 2x` that stays within `n` gives a
      count between `w + 2 * pad` and `n`, where `pad` truncates `x`. */
  lemma TruncatedFrame(w: nat, n: nat, x: real, stretched: real, count: nat, pad: nat)
    requires stretched == (w as real) + 2.0 * x <= n as real
    requires count as real <= stretched < count as real + 1.0
    requires pad as real <= x
    ensures w + 2 * pad <= count <= n
    ensures x < 1.0 / 2.0 ==> count == w
  {
  }

  /** The stretched output width splits into the width plus twice the
      scaled padding. */
  lemma StretchSplit(inputWidth: nat, outputWidth: nat, inputPadding: nat)
    requires 0 < inputWidth
    ensures (outputWidth as real) * PaddingCorrection(inputWidth + 2 * inputPadding, inputWidth)
            == (outputWidth as real)
               + 2.0 * ((inputPadding as real) * (outputWidth as real) / (inputWidth as real))
  {
  }

  /** Stretching a width no larger than the input width stays within the
      sample count. */
  lemma StretchBound(inputWidth: nat, outputWidth: nat, sampleCount: nat)
    requires 0 < outputWidth <= inputWidth
    ensures (outputWidth as real) * PaddingCorrection(sampleCount, inputWidth) <= sampleCount as real
  {
  }

  /** When the output is no wider than the input, the output frame holds the
      output width plus the scaled padding on both sides and fits inside the
      input frame; without padding it is exactly the output width. */
  lemma OutputFrameFits(inputWidth: nat, outputWidth: nat, inputPadding: nat)
    requires 0 < outputWidth <= inputWidth
    ensures var sampleCount := inputWidth + 2 * inputPadding;
            var outputCount := OutputSampleCount(outputWidth, PaddingCorrection(sampleCount, inputWidth));
            outputWidth + 2 * OutputPadding(inputPadding, outputWidth, inputWidth) <= outputCount <= sampleCount
            && (inputPadding == 0 ==> outputCount == outputWidth)
  {
    var sampleCount := inputWidth + 2 * inputPadding;
    StretchSplit(inputWidth, outputWidth, inputPadding);
    StretchBound(inputWidth, outputWidth, sampleCount);
    TruncatedFrame(outputWidth, sampleCount,
                   (inputPadding as real) * (outputWidth as real) / (inputWidth as real),
                   (outputWidth as real) * PaddingCorrection(sampleCount, inputWidth),
                   OutputSampleCount(outputWidth, PaddingCorrection(sampleCount, inputWidth)),
                   OutputPadding(inputPadding, outputWidth, inputWidth));
  }

  // ---------------------------------------------------------------------
  // Padding

  /** Zeroes the first and the last `padding` samples of the frame
      buffer[0..sampleCount); the samples between are left as they were. */
  method ZeroPadding(buffer: array<real>, sampleCount: nat, padding: nat)
    requires 2 * padding <= sampleCount <= buffer.Length
    modifies buffer
    ensures forall k :: 0 <= k < padding ==> buffer[k] == 0.0
    ensures forall k :: sampleCount - padding <= k < sampleCount ==> buffer[k] == 0.0
    ensures forall k :: padding <= k < sampleCount - padding ==> buffer[k] == old(buffer[k])
    ensures forall k :: sampleCount <= k < buffer.Length ==> buffer[k] == old(buffer[k])
  {
    var i := 0;
    while i < padding
      invariant i <= padding
      invariant forall k :: 0 <= k < i ==> buffer[k] == 0.0
      invariant forall k :: sampleCount - i <= k < sampleCount ==> buffer[k] == 0.0
      invariant forall k :: i <= k < sampleCount - i ==> buffer[k] == old(buffer[k])
      invariant forall k :: sampleCount <= k < buffer.Length ==> buffer[k] == old(buffer[k])
    {
      buffer[sampleCount - i - 1] := 0.0;
      buffer[i] := 0.0;
      i := i + 1;
    }
  }

  // ---------------------------------------------------------------------
  // Row frequencies

  /** Row y of `height` rows on the linear scale: row 0 sits at
      offset + range and every row lies range / height below the one before. */
  function LinearBand(range: real, offset: real, height: nat, y: nat): (b: Band)
    requires 0 < height
    ensures b.derivative * (height as real) == range
    ensures b.frequency == offset + range - (y as real) * b.derivative
  {
    Band(range * (1.0 - (y as real) / (height as real)) + offset, range / (height as real))
  }

  /** The band of row y.  With a positive basis the linear frequency is used
      as an exponent of the basis, and the derivative follows by the chain
      rule. */
  function RowBand(range: real, offset: real, basis: real, height: nat, y: nat, num: Numerics): (b: Band)
    requires 0 < height
    ensures basis <= 0.0 ==> b == LinearBand(range, offset, height, y)
    ensures 0.0 < basis ==>
              b.frequency == num.pow(basis, LinearBand(range, offset, height, y).frequency)
              && b.derivative == LinearBand(range, offset, height, y).derivative * (num.log(basis) * b.frequency)
  {
    var linear := LinearBand(range, offset, height, y);
    if 0.0 < basis then
      var frequency := num.pow(basis, linear.frequency);
      Band(frequency, linear.derivative * (num.log(basis) * frequency))
    else
      linear
  }

  /** On the linear scale consecutive rows are one derivative apart. */
  lemma LinearRowsStep(range: real, offset: real, height: nat, y: nat)
    requires 0 < height
    ensures LinearBand(range, offset, height, y).frequency - LinearBand(range, offset, height, y + 1).frequency
            == LinearBand(range, offset, height, y).derivative
  {

  }

  /** On the linear scale row 0 is at offset + range, and every row lies in
      (offset, offset + range] when the range is positive. */
  lemma LinearRowsSpan(range: real, offset: real, height: nat, y: nat)
    requires 0 < height && y < height
    ensures LinearBand(range, offset, height, 0).frequency == offset + range
    ensures 0.0 < range ==> offset < LinearBand(range, offset, height, y).frequency <= offset + range
  {

  }

  /** Four rows over a range of 2 from offset 0: the frequencies run
      2, 1.5, 1, 0.5 and every derivative is 0.5. */
  lemma FourRowsExample(y: nat)
    requires y < 4
    ensures LinearBand(2.0, 0.0, 4, y) == Band(2.0 - 0.5 * (y as real), 0.5)
  {
  }

  /** A non-positive basis leaves the rows on the linear scale. */
  lemma NonPositiveBasisIsLinear(range: real, offset: real, basis: real, height: nat, y: nat, num: Numerics)
    requires 0 < height && basis <= 0.0
    ensures RowBand(range, offset, basis, height, y, num) == LinearBand(range, offset, height, y)
  {
  }

  // ---------------------------------------------------------------------
  // Row codes

  /** The code the row loop returns: the first non-zero code, or 0 when
      every row succeeded. */
  function FirstFailure(codes: seq<int>): (r: int)
    ensures r == 0 <==> forall k :: 0 <= k < |codes| ==> codes[k] == 0
  {
    if codes == [] then 0
    else if codes[0] != 0 then codes[0]
    else FirstFailure(codes[1..])
  }

  /** How many rows the loop runs: every row up to and including the first
      one with a non-zero code, or all rows. */
  function RowsRun(codes: seq<int>): (n: nat)
    ensures n <= |codes|
    ensures forall k :: 0 <= k < n - 1 ==> codes[k] == 0
    ensures 0 < |codes| ==> 0 < n && (n == |codes| || codes[n - 1] != 0)
  {
    if codes == [] then 0
    else if codes[0] != 0 then 1
    else 1 + RowsRun(codes[1..])
  }

  /** A loop that has stopped after y rows, with every earlier row
      succeeding, stopped where RowsRun says and returns the last row's code. */
  lemma {:induction false} StopsAfter(codes: seq<int>, y: nat)
    requires y <= |codes|
    requires forall k :: 0 <= k < y - 1 ==> codes[k] == 0
    requires y == |codes| || (0 < y && codes[y - 1] != 0)
    ensures RowsRun(codes) == y
    ensures FirstFailure(codes) == (if y == 0 then 0 else codes[y - 1])
  {
    if y > 1 {
      assert codes[0] == 0;
      var rest := codes[1..];
      assert forall k :: 0 <= k < y - 2 ==> rest[k] == codes[k + 1];
      StopsAfter(rest, y - 1);
    }
  }

  /** The returned code is the code of the last row run. */
  lemma FailureIsLastRowRun(codes: seq<int>)
    ensures var n := RowsRun(codes);
            FirstFailure(codes) == (if n == 0 then 0 else codes[n - 1])
  {

  }

  /** Three rows whose callback returns 5 on the last one: all three rows
      run and the loop returns 5. */
  lemma EarlyAbortExample()
    ensures RowsRun([0, 0, 5]) == 3 && FirstFailure([0, 0, 5]) == 5
    ensures RowsRun([0, 7, 5]) == 2 && FirstFailure([0, 7, 5]) == 7
  {

  }

  // ---------------------------------------------------------------------
  // The transform

  class Transform {
    // Configuration, filled in by the caller before Init.
    var inputWidth: nat
    var outputWidth: nat
    var inputPadding: nat
    var height: nat
    var frequencyRange: real
    var frequencyOffset: real
    var frequencyBasis: real
    var deviation: real
    // Derived by Init.
    var inputSampleCount: nat
    var paddingCorrection: real
    var outputSampleCount: nat
    var outputPadding: nat
    var input: array?<real>
    var output: array?<real>

    constructor (inputWidth: nat, outputWidth: nat, inputPadding: nat, height: nat,
                 frequencyRange: real, frequencyOffset: real, frequencyBasis: real, deviation: real)
      ensures this.inputWidth == inputWidth && this.outputWidth == outputWidth
      ensures this.inputPadding == inputPadding && this.height == height
      ensures this.frequencyRange == frequencyRange && this.frequencyOffset == frequencyOffset
      ensures this.frequencyBasis == frequencyBasis && this.deviation == deviation
      ensures input == null && output == null
    {
      this.inputWidth := inputWidth;
      this.outputWidth := outputWidth;
      this.inputPadding := inputPadding;
      this.height := height;
      this.frequencyRange := frequencyRange;
      this.frequencyOffset := frequencyOffset;
      this.frequencyBasis := frequencyBasis;
      this.deviation := deviation;
      input := null;
      output := null;
    }

    /** The frame sizes agree with the configuration and both buffers
        exist, are distinct and hold a whole input frame. */
    ghost predicate Valid()
      reads this
    {
      0 < inputWidth && inputSampleCount == inputWidth + 2 * inputPadding
      && input != null && output != null && input != output
      && input.Length == inputSampleCount && output.Length == inputSampleCount
    }

    /** Derives the frame sizes, allocates both buffers and zeroes the
        padding at the ends of the input frame.  `resourcesAvailable` stands
        for the outcome of the two allocations and the two FFT plans. */
    method Init(resourcesAvailable: bool) returns (status: int)
      requires 0 < inputWidth
      modifies this
      ensures inputWidth == old(inputWidth) && outputWidth == old(outputWidth)
      ensures inputPadding == old(inputPadding) && height == old(height)
      ensures frequencyRange == old(frequencyRange) && frequencyOffset == old(frequencyOffset)
      ensures frequencyBasis == old(frequencyBasis) && deviation == old(deviation)
      ensures inputSampleCount == inputWidth + 2 * inputPadding
      ensures paddingCorrection == PaddingCorrection(inputSampleCount, inputWidth)
      ensures outputSampleCount == OutputSampleCount(outputWidth, paddingCorrection)
      ensures outputPadding == OutputPadding(inputPadding, outputWidth, inputWidth)
      ensures status == 0 || status == -1
      ensures status == 0 <==> resourcesAvailable
      ensures status == 0 ==> Valid() && fresh(input) && fresh(output)
      ensures status == 0 ==> forall k :: 0 <= k < inputPadding ==> input[k] == 0.0
      ensures status == 0 ==> forall k :: inputSampleCount - inputPadding <= k < inputSampleCount ==>
                input[k] == 0.0
      ensures 0 < outputWidth <= inputWidth ==>
                outputWidth + 2 * outputPadding <= outputSampleCount <= inputSampleCount
    {
      inputSampleCount := inputWidth + 2 * inputPadding;
      paddingCorrection := PaddingCorrection(inputSampleCount, inputWidth);
      outputSampleCount := OutputSampleCount(outputWidth, paddingCorrection);
      outputPadding := OutputPadding(inputPadding, outputWidth, inputWidth);
      if 0 < outputWidth <= inputWidth {
        OutputFrameFits(inputWidth, outputWidth, inputPadding);
      }
      input := new real[inputSampleCount];
      output := new real[inputSampleCount];
      if !resourcesAvailable {
        return -1;
      }
      ZeroPadding(input, inputSampleCount, inputPadding);
      return 0;
    }

    /** Where the kernel of a band is centred, in bins of the padded frame. */
    function KernelCenter(band: Band): real
      reads this
    {
      band.frequency * paddingCorrection
    }

    /** The kernel's deviation for a band: wider for faster-changing bands
        and for longer output rows. */
    function KernelDeviation(band: Band): real
      reads this
    {
      deviation * (outputSampleCount as real) * band.derivative * paddingCorrection
    }

    /** The kernel of row y over the whole input frame. */
    ghost function RowKernel(y: nat, num: Numerics): (k: seq<real>)
      reads this
      requires 0 < height
      ensures |k| == inputSampleCount
    {
      var band := RowBand(frequencyRange, frequencyOffset, frequencyBasis, height, y, num);
      KernelSeq(inputSampleCount, KernelCenter(band), KernelDeviation(band), num.exp, num.rsqrt)
    }

    /** Row y of the transform: the kernel times the input spectrum, folded
        down to the output frame. */
    ghost function RowOutput(y: nat, num: Numerics): (r: seq<real>)
      reads this, input
      requires Valid() && 0 < height && 0 < outputSampleCount <= inputSampleCount
      ensures |r| == outputSampleCount
    {
      Fold(Products(RowKernel(y, num), input[..inputSampleCount], inputSampleCount), outputSampleCount)
    }

    /** The callback's codes for rows 0 .. n-1. */
    ghost function RowCodes(n: nat, num: Numerics, callback: (nat, seq<real>) -> int): (codes: seq<int>)
      reads this, input
      requires Valid() && n <= height && 0 < outputSampleCount <= inputSampleCount
      ensures |codes| == n
      ensures forall y :: 0 <= y < n ==> codes[y] == callback(y, RowOutput(y, num))
    {
      if n == 0 then [] else RowCodes(n - 1, num, callback) + [callback(n - 1, RowOutput(n - 1, num))]
    }

    /** One pass of the row loop before the callback: builds the row's
        kernel in the output buffer and folds it against the input spectrum. */
    method ComputeRow(y: nat, num: Numerics)
      requires Valid() && y < height && 0 < outputSampleCount <= inputSampleCount
      modifies output
      ensures output[..outputSampleCount] == RowOutput(y, num)
    {
      var band := RowBand(frequencyRange, frequencyOffset, frequencyBasis, height, y, num);
      GaborWavelet(inputSampleCount, output, KernelCenter(band), KernelDeviation(band), num.exp, num.rsqrt);
      ghost var kernel := output[..inputSampleCount];
      assert kernel == RowKernel(y, num);
      ConvolveAndDownsample(outputSampleCount, inputSampleCount, output, input);
      assert output[..outputSampleCount]
             == Fold(Products(kernel, input[..inputSampleCount], inputSampleCount), outputSampleCount);
    }

    /** Runs the rows in ascending order, handing each folded row to the
        callback, and stops after the first row whose code is non-zero.
        `rows` records the rows the callback saw. */
    method Calculate(num: Numerics, callback: (nat, seq<real>) -> int)
      returns (result: int, ghost rows: seq<nat>)
      requires Valid() && 0 < outputSampleCount <= inputSampleCount
      modifies output
      ensures Valid()
      ensures |rows| == RowsRun(RowCodes(height, num, callback))
      ensures forall k :: 0 <= k < |rows| ==> rows[k] == k
      ensures result == FirstFailure(RowCodes(height, num, callback))
      ensures 0 < |rows| ==> output[..outputSampleCount] == RowOutput(|rows| - 1, num)
    {
      ghost var codes := RowCodes(height, num, callback);
      result := 0;
      rows := [];
      var y := 0;
      while y < height && result == 0
        invariant y <= height && |rows| == y
        invariant forall k :: 0 <= k < y ==> rows[k] == k
        invariant forall k :: 0 <= k < y - 1 ==> codes[k] == 0
        invariant result == (if y == 0 then 0 else codes[y - 1])
        invariant 0 < y ==> output[..outputSampleCount] == RowOutput(y - 1, num)
      {
        ComputeRow(y, num);
        result := callback(y, output[..outputSampleCount]);
        rows := rows + [y];
        y := y + 1;
      }
      assert codes == RowCodes(height, num, callback);
      StopsAfter(codes, y);
    }
  }
}
