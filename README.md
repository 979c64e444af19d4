# Welch power-spectral-density estimator, modelled in Dafny

The modelled C library estimates the one-sided power spectral density (PSD) of a real signal by Welch's method. Its entry point, `welch`, does the following:

- validates its parameters;
- cuts the signal into segments of `lenSegment` samples that overlap by `lenOverlap`;
- multiplies each segment by a rectangular window;
- transforms each windowed segment with a real-to-complex FFT (FFTW, FFTW with OpenMP, or cuFFT);
- adds up the squared magnitudes of the `nfft/2+1` one-sided bins;
- scales the sums by `1/(fs·‖w‖²)/numSegment`, doubling every bin except the first and the last;
- returns the PSD `Pxx`, its frequency axis and its length.

The two FFT back ends return their spectrum in a packed layout of `nfft` reals: the DC bin's real part at 0, then the real and imaginary parts of bins 1… interleaved, then the real Nyquist value last when `nfft` is even. `welch` unpacks this layout when it accumulates. `padZero` zero-extends a segment to `nfft` samples before the transform.

Modules:

- `Common`: the status code, complex numbers, the DFT oracle, and `Outcomes`, the success or failure of each fallible foreign step, numbered in the order a routine makes them.
- `Utility`: `padZero`.
- `Spectrum`: the packed layout.
- `Fftw` and `Cufft`: the two back ends, as imperative methods writing the caller's `xfft` array.
- `WelchSpec`: the mathematical definition of the estimate and the facts proved about it. These cover segmentation, window energy, accumulated power, scaling, the closed form for a rectangular window, non-negativity and the frequency axis.
- `Welch`: the estimator itself, as imperative methods on arrays.
  - The output triple `*Pxx`, `*frequency` and `*lenPxx` becomes the class `Outputs`, whose fields are assigned only when the estimate has succeeded.
  - The main steps are separate methods: zeroing `Pxx`, the window norm, windowing a segment, accumulating one packed spectrum, scaling, and filling the frequency axis. Each is proved against the `WelchSpec` function it computes.

Samples are `real`. The FFT is a function parameter `dft`; all the model knows about it is that it maps `nfft` samples to `nfft/2+1` complex bins (`IsRealDft`). Every array access of the C code appears as a Dafny array access or sequence index. Every read and write is proved in bounds where it happens: `signal[i+j]`, `window[j]`, `signalfft[2j-1]`, `signalfft[2j]`, `signalfft[nfft-1]`, and the packing writes.

Where the code and its own comments disagree, the model follows the code:

- The headers of fftw.c and cufft.c say an input longer than `nfft` is truncated. The code fails through `padZero` instead, and `Fftw.Fftw` and `Cufft.Cufft` state that failure.
- For odd `nfft`, welch.c:229-233 does not double the last bin, although that bin is not a Nyquist bin. The model scales it as the code does.

## Model

| member | source | states |
|---|---|---|
| Common.StepsSucceedEach | welch.c:84-177 | `StepsSucceed(ok, from, to)` holds exactly when every step numbered `from` to `to - 1` succeeds. Every checked allocation, copy and plan step of welch.c, fftw.c:25-40 and cufft.c:29-127 is such a step |
| Utility.Padded | utility.c:36-44 | the padded sequence has length `nPadded`, starts with `x` and is `0.0` after it |
| Utility.PadZero | utility.c:18-47 | fails exactly when `n > nPadded` or the allocation of utility.c:29-34 fails (`allocOk` false). On success it returns a newly allocated buffer, distinct from `x`, of length `nPadded` with `x[i]` for `i < n` and `0.0` from `n` on, which is `Padded(x[..n], nPadded)` and an exact copy of `x[..n]` when `n == nPadded`. `x` is not modified |
| Spectrum.Packed | fftw.c:51-58 | the packed spectrum of `nfft/2+1` bins has exactly `nfft` reals |
| Spectrum.PackedLayout | fftw.c:51-58 | packed index 0 is Re of bin 0. For `1 <= i <= (nfft-1)/2`, index `2i-1` is Re and index `2i` is Im of bin i. For even `nfft`, index `nfft-1` is Re of bin `nfft/2` |
| Spectrum.PackedIgnoresEdgeImaginaryParts | fftw.c:51-58 | two bin vectors that differ only in the imaginary parts of bin 0 and of the even-`nfft` Nyquist bin pack identically, so only those parts are dropped |
| Fftw.PackBins | fftw.c:50-58 | the loop leaves `xfft == Packed(bins, nfft)`. The ghost log kept beside each write lists every index of `[0, nfft)` once, in increasing order; the log is not otherwise tied to the writes |
| Fftw.Fftw | fftw.c:16-65 | fails exactly when `n > nfft` (no truncation), padZero's allocation fails (`ok(0)` false) or `fftw_malloc` fails (`ok(1)` false), so with a short enough input and both allocations succeeding it succeeds. On failure `xfft` is untouched. On success `xfft` is the packed transform of `x[..n]` zero-padded to `nfft`, with the write log of `PackBins` |
| Cufft.Interleaved | cufft.c:115-117 | a complex buffer seen as doubles: Re of bin i at `2i`, Im at `2i+1`, twice as many doubles as bins |
| Cufft.HostBins | cufft.c:130-137 | the host buffer read as `count` complex bins: bin i's real part (`.x`) is double `2i`, its imaginary part (`.y`) double `2i+1` |
| Cufft.HostBinsInterleaved | cufft.c:115-137 | reading an interleaved buffer back as complex bins gives the original bins (round trip) |
| Cufft.RetrievedAsWritten | cufft.c:115-117 | the device-to-host copy as written: the first `nfft` doubles come from the device, the rest keep whatever the host buffer held |
| Cufft.PackedLastReadsHostDouble | cufft.c:130-137 | for `nfft >= 2` and either parity, packed index `nfft-1` is read from host double `nfft` |
| Cufft.AsWrittenLastValueIsStale | cufft.c:115-137 | with the copy as written, `xfft[nfft-1]` is the stale host value, not the transform's |
| Cufft.AsWrittenLosesNyquistBin | cufft.c:115-137 | concrete case `nfft = 4`, Nyquist bin `1+0i`, zeroed host buffer: the copy as written packs `0.0` where the transform packs `1.0` |
| Cufft.PackHostBins | cufft.c:129-137 | the loop leaves `xfft == Packed(HostBins(host), nfft)`. The ghost log kept beside each write lists every index of `[0, nfft)` once; the log is not otherwise tied to the writes |
| Cufft.Cufft | cufft.c:17-146 | fails exactly when `n > nfft`, before any device work, or one of the eight checked steps fails: padZero's allocation, the host buffer, the two device buffers, the two copies, plan creation and execution (`ok(0)` to `ok(7)`). So with a short enough input and every step succeeding it succeeds. On failure `xfft` is untouched. On success `xfft` is the packed transform of the zero-padded input, with the copy corrected to all `nfft/2+1` bins |
| WelchSpec.ParseFftType | welch.c:101-113 | the FFT type is rejected exactly when it is not `fftw`, `fftw_openmp` or `cufft`. `fftw` selects the serial FFTW back end, `fftw_openmp` the OpenMP one and `cufft` the CUDA one, each exactly for its own name |
| WelchSpec.PassesChecksBeforeModulo | welch.c:38-74 | the checks before the modulo leave the divisor `lenSegment - lenOverlap` and the dividend `lenSignal - lenOverlap` non-negative, with the divisor no larger |
| WelchSpec.ValidSegmentation | welch.c:38-80 | an accepted segmentation is exactly one passing the checks before the modulo, with an overlap different from the segment length and a whole number of strides. Its stride is positive and no longer than `lenSignal - lenOverlap` |
| WelchSpec.ValidParameters | welch.c:38-121 | accepted parameters pass every check made before the modulo and have a positive stride |
| WelchSpec.ValidParametersAreSourceChecks | welch.c:38-121 | the accepted parameters are exactly those passing the checks of welch.c:38-74, a non-zero stride, the whole-number-of-segments check, the `rectangular` window, one of the three FFT names and `nfft > 0` |
| WelchSpec.AsWrittenAdmitsZeroStride | welch.c:69-76 | every check before the modulo accepts `lenOverlap == lenSegment`, whose stride is 0, while the corrected segmentation rejects it |
| WelchSpec.NumSegments | welch.c:227 | the segment count `(lenSignal-lenOverlap)/stride` of an accepted segmentation is at least 1 |
| WelchSpec.SegmentsTileSignal | welch.c:76-227 | `numSegment` strides plus one overlap make up exactly `lenSignal` samples |
| WelchSpec.SegmentGuard | welch.c:187 | at the s-th offset `s·stride` the loop guard `i + lenSegment <= lenSignal` holds exactly when `s < numSegment` |
| WelchSpec.LastSegmentOffset | welch.c:187-227 | when the loop stops, it has run exactly `numSegment` times and its offset is `lenSignal - lenOverlap` |
| WelchSpec.RectangularWindow | welch.c:92-94 | the rectangular window of length n has n samples. Each is `1.0` by definition |
| WelchSpec.WindowEnergy | welch.c:180-183 | the squared norm of the first `len` window samples is non-negative |
| WelchSpec.WindowEnergyUsesPrefix | welch.c:180-183 | the norm depends only on the first `lenSegment` samples of the `lenSignal`-sample window |
| WelchSpec.RectangularEnergy | welch.c:180-183 | a rectangular window's first `len` samples have squared norm `len` |
| WelchSpec.Scale | welch.c:184 | `scale = 1/(fs·‖w‖²)` is positive |
| WelchSpec.UnitEnergyScale | welch.c:184 | for a unit-energy window such as the rectangular one, `scale = 1/(fs·lenSegment)` |
| WelchSpec.LenPxx | welch.c:133-137 | both parity branches give `nfft/2+1`, the number of one-sided bins |
| WelchSpec.BinMagnitude | welch.c:213-222 | a bin's squared magnitude is non-negative. Bin 0 and the even-`nfft` Nyquist bin count only their real part |
| WelchSpec.BinPower | welch.c:213-222 | the power that the accumulation reads for bin j from the packed spectrum is non-negative |
| WelchSpec.UnpackRecoversBinPower | welch.c:213-223 | unpacking a packed spectrum at bin j gives that bin's squared magnitude, so the pack and unpack layouts agree |
| WelchSpec.WindowedSegment | welch.c:189-191 | the windowed segment has `lenSegment` samples. By definition, element j is `signal[offset+j]·w[j]` |
| WelchSpec.SegmentBins | welch.c:194-200 | a segment's spectrum has `nfft/2+1` bins |
| WelchSpec.AccumulatedPower | welch.c:187-224 | the power accumulated in a bin over the segments before an offset is non-negative |
| WelchSpec.AccumulatedStep | welch.c:187-224 | one more segment adds exactly its unpacked bin power to the running sum |
| WelchSpec.AccumulatedIsMagnitudeSum | welch.c:213-223 | the accumulated unpacked power equals the sum of the segments' bin magnitudes |
| WelchSpec.AllSegmentsMagnitudeSum | welch.c:187-224 | over all segments of the signal, bin k's accumulation is the sum of their squared bin-k magnitudes |
| WelchSpec.Psd | welch.c:226-234 | the estimate has `lenPxx` bins |
| WelchSpec.ScaledAccumulationIsPsd | welch.c:226-234 | scaling every accumulated bin by `scale/numSegment`, doubled except for the first and last bins, yields the estimate |
| WelchSpec.PsdNonNegative | welch.c:213-234 | every bin of the estimate is `>= 0` |
| WelchSpec.PsdBinNonNegative | welch.c:213-234 | a single bin of the estimate is `>= 0` |
| WelchSpec.BinScale | welch.c:229-233 | the factor applied to bin k is positive for a positive scale |
| WelchSpec.BinFactor | welch.c:229-233 | the bin factor is 1 or 2 |
| WelchSpec.BinScaleIsFactor | welch.c:229-233 | bin k's factor is `scale·BinFactor/numSegment`: 1 for the first and last bins, 2 otherwise |
| WelchSpec.UnitEnergyBinScale | welch.c:229-233 | with a unit-energy window, bin k's scale is `factor/(fs·lenSegment·numSegment)` with the factor of `BinFactor` |
| WelchSpec.UnitEnergyPsd | welch.c:213-234 | closed form for a unit-energy window: `Pxx[k]` is the segment sum of bin k's squared magnitudes times `1/(fs·lenSegment·numSegment)`, doubled for interior bins |
| WelchSpec.UnitEnergyPsdBin | welch.c:213-234 | the same closed form for a single bin, written over the power accumulated from the packed spectra |
| WelchSpec.ZeroSignalZeroPsd | welch.c:187-234 | if the transform maps zeros to zeros, an all-zero signal has an all-zero estimate |
| WelchSpec.ZeroSegmentsAccumulateNothing | welch.c:187-224 | for an all-zero signal the accumulated power is 0 in every bin |
| WelchSpec.ZeroSegmentHasNoPower | welch.c:189-223 | an all-zero segment contributes no power |
| WelchSpec.BinFrequency | welch.c:238 | frequency i times `nfft` is `i·fs`, i.e. the frequency is `i·fs/nfft` |
| WelchSpec.FrequencyAxis | welch.c:237-239 | the axis has `lenPxx` entries, entry i being `i·fs/nfft` |
| WelchSpec.FrequencyBound | welch.c:238 | each entry lies in `[0, fs/2]`, and the even-`nfft` Nyquist entry is exactly `fs/2` |
| WelchSpec.FrequencyIncreasing | welch.c:238 | the frequency strictly increases with the index |
| WelchSpec.FrequencyAxisIncreasing | welch.c:237-239 | the axis is strictly increasing |
| WelchSpec.FrequencyAxisRange | welch.c:237-239 | the axis starts at 0, stays within `[0, fs/2]`, and ends at `fs/2` when `nfft` is even |
| Welch.Outputs.constructor | welch.c:17-20 | an output triple with no arrays yet and length 0 |
| Welch.FillRectangular | welch.c:92-94 | the window array becomes the rectangular window |
| Welch.WindowNormSquared | welch.c:180-183 | the loop computes the squared norm of the first `lenSegment` window samples |
| Welch.ClearBins | welch.c:151-153 | every bin of `Pxx` becomes `0.0` |
| Welch.ApplyWindow | welch.c:189-191 | the buffer becomes the windowed segment at the offset |
| Welch.AccumulateSegment | welch.c:213-223 | each bin k gains exactly the unpacked power of bin k of the packed spectrum |
| Welch.ScaleBins | welch.c:227-234 | each bin is multiplied by `scale/numSegment`, doubled except for the first and last bins |
| Welch.FillFrequencies | welch.c:237-239 | the frequency array becomes the frequency axis |
| Welch.Transform | welch.c:194-200 | dispatches to the selected back end. It fails exactly when the segment is longer than `nfft` or one of that back end's steps fails, their outcomes being `ok`. On failure `signalfft` is untouched; on success it holds the packed transform of the zero-padded segment |
| Welch.AddSegment | welch.c:188-223 | one loop pass: it fails exactly when the segment is longer than `nfft` or one of the back end's steps fails. On failure `Pxx` is unchanged, on success each bin gains the power of this segment's spectrum |
| Welch.NextSegment | welch.c:187-223 | fails exactly when `AddSegment` does. Otherwise, if `Pxx` holds the power of the segments before an offset, one pass leaves that of the segments before the next offset |
| Welch.SegmentsSucceedNext | welch.c:187-224 | the first `s+1` segments' back-end steps succeed exactly when the first `s` do and segment `s`'s do; a failing segment before `numSegment` means not all segments succeed |
| Welch.AccumulateSegments | welch.c:187-224 | the segment loop fails exactly when `lenSegment > nfft` or the back end's steps fail for one of the `numSegment` segments (segment s having outcomes `backend(s)`). Otherwise it leaves every bin holding the power accumulated over all `numSegment` segments |
| Welch.Estimate | welch.c:179-239 | norm, scale, segment loop, scaling and frequency axis: it fails exactly when `lenSegment > nfft` or a back-end step fails for one of the segments. On success `Pxx` is the estimate and `frequency` the axis |
| Welch.Compute | welch.c:123-250 | allocates `signalfft`, `Pxx`, the frequencies and the windowed segment (`alloc(1)` to `alloc(4)`), then estimates. It fails exactly when one of these allocations fails, `lenSegment > nfft`, or a back-end step fails for one of the segments. `out` is written only on success, with two fresh, distinct arrays of `lenPxx` entries holding the estimate and the axis |
| Welch.Welch | welch.c:17-251 | fails exactly when the parameters are invalid (bad numbers, unknown window, unknown FFT type, `nfft <= 0`, zero stride), `lenSegment > nfft`, one of welch's five allocations fails (`alloc`), or the back end's steps fail for one of the segments (`backend`). So valid parameters with every step succeeding give success. On any failure `out` is unchanged. On success `out` holds two fresh, distinct arrays, `lenPxx = nfft/2+1`, the estimate for the rectangular window, and the frequency axis |

## Left out

- The DFT itself (fftw.c:43-48, cufft.c:89-112) is a function parameter. The model assumes only that it maps `nfft` reals to `nfft/2+1` complex bins.
- CUDA device memory, host-device copies, cuFFT plan creation and execution, `fftw_malloc`, padZero's `malloc` and welch's own `malloc` calls are reduced to their outcome, success or failure, which the caller supplies as a parameter (`Outcomes`). Nothing is written after a failure. FFTW's plan creation and execution are not checked in the C code and never fail in the model.
- OpenMP thread setup (fftw.c:43-46) is concurrency. The `useOpenMP` flag has no effect in the model.
- `fprintf` diagnostics are output only and are not modelled.
- IEEE floating-point rounding: samples, scale and frequencies are exact reals.
- `lenPxxInternal` is declared `double` (welch.c:27) but always holds an integer. It is modelled as an `int`.
- C `int` overflow in lengths and offsets: Dafny integers are unbounded.
- `getWindow` (utility.c:11-16) is an unimplemented stub.
- `free` and the leak of `PxxInternal` when the frequency allocation fails (welch.c:157-165): the model's arrays are garbage-collected, so only the possible failure is kept.
- The driver programs welch-cufft.c and welch-cufft-openmp.c, which generate signals, time runs and print, are not part of this model.
- WelchSpec.UnitEnergyPsd: the closed form is stated for windows whose squared norm equals their length. That is the only kind welch.c builds. For other windows the estimate is still `WelchSpec.Psd`.

## Findings

| source | as written | input that shows it | evidently intended | confidence | as-written member | corrected member |
|---|---|---|---|---|---|---|
| welch.c:69-76 | the guard at welch.c:69 rejects only `lenSegment < lenOverlap`, so `lenOverlap == lenSegment` reaches `% (lenSegment - lenOverlap)`, a division by zero, and the loop would never advance | `lenSignal = 16384, lenSegment = 4096, lenOverlap = 4096` | reject `lenOverlap >= lenSegment` | high (not executed) | WelchSpec.AsWrittenAdmitsZeroStride | Welch.Welch |
| cufft.c:115-117 | the device-to-host copy moves `nfft` doubles, i.e. only `nfft/2` complex bins, into a buffer of `nfft/2+1` bins; packing then reads host double `nfft` into `xfft[nfft-1]`, which was never copied | `nfft = 4`, Nyquist bin `1+0i`: `xfft[3]` is the uninitialised host value instead of `1.0` | copy `(nfft/2+1)` complex values | high (not executed) | Cufft.AsWrittenLosesNyquistBin | Cufft.Cufft |

Both corrections carry through to `Welch.Welch`: it rejects `lenOverlap == lenSegment`, and for fftType `cufft` its estimate is computed from the corrected device-to-host copy of `Cufft.Cufft`. With cufft.c:115-117 as written, the last packed value of every segment, and so the last bin of the estimate, would come from a stale host buffer.
