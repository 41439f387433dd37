# CCWT: a Dafny model of the transform core

CCWT computes a continuous wavelet transform with Gabor wavelets, working
in the frequency domain. `ccwt_init` sizes a padded input frame and an
output frame and zeroes the padding at both ends of the input.
`ccwt_calculate` then walks the output rows in ascending order. For each
row it does four things:

1. It fills a scratch buffer with a Gabor kernel (`gabor_wavelet`). The
   kernel is a Gaussian bell of the folded distance from the row's
   frequency. For an even sample count that distance goes round a ring of
   `n` bins, so the bell is periodic with period `n`. For an odd count the
   code folds about `floor(n/2)` instead, so the ring has `n - 1` bins and
   the last bin lies at distance 0 from a centre at 0: a second peak beside
   the one at bin 0 (`OddCountMirror`, `OddCountSecondPeak`).
2. It multiplies the kernel by the input spectrum.
3. It folds the products down to the output length by aliasing: bin `j`
   is added onto bin `j mod output_sample_count`
   (`convolve_and_downsample`).
4. It hands the row to a callback. The loop stops at the first row whose
   callback returns a non-zero code, and that code is the result.

The model covers `src/ccwt.c` in three modules:

- `Downsample` (`downsample.dfy`) models `convolve_and_downsample`. The
  routine works in place on arrays.
  - `ConvolveAndDownsample` is proved against the closed form
    `Fold(Products(kernel, spectrum, n), m)`. Output bin `x` is `1/n` times
    the sum of `kernel[j] * spectrum[j]` over all `j < n` with
    `j mod m == x`.
  - `dst[m..]` is proved to be left unchanged, and `src` is never written.
  - The three loops of the C function are three methods:
    - `MultiplyPointwise` is the pointwise product.
    - `FoldChunks` is the loop over whole chunks.
    - `AccumulateBlock` adds one block, whole or partial, onto the first
      bins.
  - `Fold` is also shown to conserve the total. Folding onto the full length
    is shown to be the identity.
- `Kernel` (`kernel.dfy`) models `gabor_wavelet`.
  - The folded distance `half - | |i - c| - half |` is a function with its
    bounds, its zero at the centre and its symmetries.
  - The fill loop is proved to write exactly `KernelSeq` into the first
    `sample_count` slots and nothing beyond.
- `Ccwt` (`ccwt.dfy`) models the rest.
  - The class `Transform` holds the fields of `struct ccwt_data` that the
    core reads and writes.
  - `Init` computes the frame sizes and zeroes the padding.
  - `Calculate` runs the row loop.
  - The row loop is proved to do the following:
    - It calls the callback for rows `0, 1, …, k` in order, where `k` is the
      first row with a non-zero code, or for every row if there is none.
    - It returns the first non-zero code, or 0.
    - It leaves the last row's folded output in the output buffer.
  - Pure functions give the linear row frequency, the row kernel and the row
    output.

Complex samples are modelled as `real`: the core only adds and multiplies
them. Several floating-point functions stay uninterpreted and are passed
in as parameters (`Numerics`): `exp`, `1/sqrt` (`rsqrt`), `pow` and `log`.

Behaviour described for the wider project that this version of
`src/ccwt.c` does not have is not modelled. The model follows the code:

- There is no default for a zero `frequency_range`. With range 2, offset 0
  and 4 rows, the code gives the frequencies 2, 1.5, 1, 0.5 (see
  `FourRowsExample`), each with derivative 0.5.
- No error is returned when `output_width > input_width`. `Calculate`
  therefore requires `0 < output_sample_count <= input_sample_count`. When
  `0 < output_width <= input_width`, `Init` guarantees this
  (`OutputFrameFits`).
- There is no thread pool. The row loop is single-threaded.
- The deviation passed to the kernel is
  `deviation * output_sample_count * derivative * padding_correction`,
  computed per row.

## Model

| member | source | states |
|---|---|---|
| Downsample.Products | src/ccwt.c:17-19 | there are exactly `n` products, and product `j` is `kernel[j] * spectrum[j] * (1/n)` |
| Downsample.Fold | src/ccwt.c:22-27 | the folded row has `m` bins; bin `x` is the sum of every product whose index is congruent to `x` modulo `m` |
| Downsample.AliasStep | src/ccwt.c:24-27 | adding a block of `r <= m` bins at offset `q*m` adds `p[q*m + x]` to bin `x` when `x < r` and nothing otherwise |
| Downsample.AliasSumByChunks | src/ccwt.c:23-25 | over `q` whole chunks, bin `x` collects exactly the element at position `x` of each chunk |
| Downsample.FirstChunk | src/ccwt.c:18-19 | the first `m` products each land on their own bin only |
| Downsample.FoldIdentity | src/ccwt.c:20-21 | folding onto the full length changes nothing |
| Downsample.NoFoldIsPointwise | src/ccwt.c:18-21 | with equal counts, output bin `x` is `kernel[x] * spectrum[x] * (1/n)` |
| Downsample.EightOntoThree | src/ccwt.c:22-27 | folding 8 bins onto 3 gives `p[x] + p[x+3]` plus `p[x+6]` when `x + 6 < 8`: two whole chunks, then a remainder of 2 |
| Downsample.FoldConservesTotal | src/ccwt.c:22-27 | the folded bins sum to the sum of all products: every source bin is counted exactly once |
| Downsample.MultiplyPointwise | src/ccwt.c:17-19 | the first `count` slots hold their products; every later slot is unchanged |
| Downsample.AccumulateBlock | src/ccwt.c:24-27 | adding the block at `offset = q*m` advances the fold from `offset` to `offset + count` source bins; slots from `m` on are unchanged |
| Downsample.FoldChunks | src/ccwt.c:22-25 | after the chunk loop, the first `m` slots hold the fold of the first `cut_index` products; the kernel tail is unchanged |
| Downsample.ConvolveAndDownsample | src/ccwt.c:16-28 | `dst[..m]` becomes `Fold(Products(old dst, src, n), m)`, `dst[m..]` is unchanged, and `src` is only read |
| Kernel.FoldedDistance | src/ccwt.c:7-10 | the folded distance is at most `half`, is 0 at the centre, and is non-negative exactly when `|i - c| <= 2*half` |
| Kernel.FoldedDistanceIsCircular | src/ccwt.c:9-10 | for an even count, the folded distance is the shorter way round a ring of `n` bins |
| Kernel.EvenFoldSymmetric | src/ccwt.c:7-10 | for an even count and centre 0, bins `i` and `n - i` are equally far from the centre |
| Kernel.KernelSymmetricAtZero | src/ccwt.c:7-12 | for an even count and centre 0, kernel bins `i` and `n - i` are equal |
| Kernel.OddCountMirror | src/ccwt.c:7-10 | for an odd count and centre 0, bin `i` mirrors bin `n - 1 - i`, and the last bin is at distance 0 |
| Kernel.OddCountSecondPeak | src/ccwt.c:7-12 | with five bins and centre 0, bin 1 is at distance 1 and bin 4 at distance 0, so kernel bin 4 equals the peak at bin 0 |
| Kernel.KernelValue | src/ccwt.c:9-12 | a kernel bin is `exp(-(d * rsqrt(deviation))^2)` of its folded distance `d`, and `exp(0)` at the centre bin |
| Kernel.KernelSeq | src/ccwt.c:8-12 | the kernel has `sample_count` bins, and bin `i` is the kernel value of `i` |
| Kernel.PeakAtCentre | src/ccwt.c:9-12 | the kernel value at the centre bin is `exp(0)` |
| Kernel.GaborWavelet | src/ccwt.c:5-14 | `kernel[..sample_count]` becomes the Gabor kernel bin by bin; slots from `sample_count` on are unchanged |
| Ccwt.PaddingCorrection | src/ccwt.c:32 | the correction times `input_width` is `input_sample_count`; it is at least 1 when the frame is no narrower than the input |
| Ccwt.OutputSampleCount | src/ccwt.c:33 | the output count truncates `output_width * padding_correction`: it is at most that product and within 1 of it |
| Ccwt.OutputPadding | src/ccwt.c:34 | the output padding truncates `input_padding * output_width / input_width`; it is at most `input_padding` when the output is no wider than the input |
| Ccwt.OutputFrameFits | src/ccwt.c:31-34 | when `0 < output_width <= input_width`, then `output_width + 2*output_padding <= output_sample_count <= input_sample_count`; without padding, `output_sample_count == output_width` |
| Ccwt.ZeroPadding | src/ccwt.c:41-42 | the first and last `padding` slots of the frame become 0; the slots between them and past the frame are unchanged |
| Ccwt.LinearBand | src/ccwt.c:58-59 | the derivative times `height` is `frequency_range`, and row `y` lies at `offset + range - y * derivative` |
| Ccwt.RowBand | src/ccwt.c:58-63 | with `frequency_basis <= 0` the band is the linear one; otherwise the frequency is `pow(basis, linear frequency)` and the derivative is the linear derivative times `log(basis) * frequency` |
| Ccwt.LinearRowsStep | src/ccwt.c:58-59 | on the linear scale, consecutive rows are exactly one derivative (`range/height`) apart |
| Ccwt.LinearRowsSpan | src/ccwt.c:58 | row 0 is at `offset + range`; with a positive range, every row lies in `(offset, offset + range]` |
| Ccwt.FourRowsExample | src/ccwt.c:58-59 | range 2, offset 0 and 4 rows give frequencies 2, 1.5, 1, 0.5, each with derivative 0.5 |
| Ccwt.NonPositiveBasisIsLinear | src/ccwt.c:58-63 | with `frequency_basis <= 0`, the row band is the linear one |
| Ccwt.FirstFailure | src/ccwt.c:55-73 | the returned code is 0 exactly when every row's code is 0 |
| Ccwt.RowsRun | src/ccwt.c:57 | the loop runs at most `height` rows; every row but the last one run returned 0; it stops early only after a non-zero code |
| Ccwt.StopsAfter | src/ccwt.c:57-73 | a loop that stopped after `y` rows, all earlier codes 0, has run `RowsRun` rows and returns row `y-1`'s code |
| Ccwt.FailureIsLastRowRun | src/ccwt.c:71-73 | the result is the code of the last row the loop ran, or 0 when no row ran |
| Ccwt.EarlyAbortExample | src/ccwt.c:57-73 | codes 0, 0, 5 run three rows and return 5; codes 0, 7, 5 run two rows and return 7 |
| Ccwt.Transform.Init | src/ccwt.c:30-44 | sets `input_sample_count = input_width + 2*input_padding`, the padding correction, and the truncated output count and padding; returns 0 exactly when the resources were obtained; on success, both buffers hold one input frame and both ends of the input are zeroed |
| Ccwt.Transform.RowKernel | src/ccwt.c:58-68 | the row kernel covers the whole input frame: it is centred at `frequency * padding_correction` with deviation `deviation * output_sample_count * derivative * padding_correction` |
| Ccwt.Transform.RowOutput | src/ccwt.c:64-69 | a row's output has `output_sample_count` bins: the row kernel times the input spectrum, folded |
| Ccwt.Transform.RowCodes | src/ccwt.c:71 | the code of row `y` is the callback's answer for row `y` and that row's output |
| Ccwt.Transform.ComputeRow | src/ccwt.c:58-69 | after one pass of the loop body, the output frame holds the row's folded output |
| Ccwt.Transform.Calculate | src/ccwt.c:54-74 | the callback sees rows `0, 1, …` in ascending order, up to and including the first non-zero code; the result is that code or 0; the output buffer holds the last row run |

## Left out

- The FFTW calls are not modelled: allocation and plan creation (src/ccwt.c:35-38), the forward transform of the input (line 56), the inverse transform of each row (line 70), and `ccwt_cleanup` (lines 46-52). These are calls into a foreign library.
  - The input buffer is taken to hold the spectrum already.
  - The callback receives the folded row before the inverse transform.
- Ccwt.Transform.Init: the boolean `resourcesAvailable` stands for the success of the two allocations and the two plans. Two details differ from the C code:
  - On failure the model keeps both buffers allocated, where C may leave a null pointer.
  - As in C, nothing is known of the fresh buffers' contents; only the padding is proved zero.
- Ccwt.Transform.Init requires `0 < input_width`. The C code has no such guard: with `input_width == 0`, line 32 divides by zero, giving infinity or NaN, and lines 33-34 convert that to an unsigned integer. Reals have no infinity, so that path is not modelled.
- Ccwt.Transform.Calculate requires `0 < output_sample_count`. With `output_sample_count == 0` (for example `output_width == 0`) and at least one row, line 22 computes `% 0` in C. The model also excludes `height == 0` with `output_sample_count == 0`, which C survives because the loop body never runs.
- Floating point is not modelled: samples are exact reals, and `exp`, `1/sqrt`, `pow` and `log` are uninterpreted. The divisions at src/ccwt.c:32-34 are exact before truncation, so a rounding error that moves `output_sample_count` across an integer is not captured.
- Complex arithmetic is modelled by `real`: only addition and multiplication are used.
- Unsigned 32-bit wrap-around is not modelled. `input_width + 2*input_padding` and the loop indices are unbounded naturals.
- Ccwt.Transform.Calculate: the callback is modelled as a pure function of the row index and the row's output. Its side effects, `user_data` and its access to the whole `ccwt_data` are not modelled.
- Ccwt.Transform.Calculate requires `0 < output_sample_count <= input_sample_count`. `src/ccwt.c` does not check `output_width <= input_width`; with a wider output, lines 18-19 would read and write past both buffers.
- The exponential remap (src/ccwt.c:60-63) is modelled, but nothing is proved about it beyond its use: `pow` and `log` are uninterpreted.
