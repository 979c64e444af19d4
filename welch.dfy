/**
 * The Welch estimator itself (welch.c): validate the parameters, build the
 * rectangular window, transform every windowed segment with the selected
 * backend, accumulate the squared magnitudes, scale and average them, and
 * compute the frequency axis. Results are built in private arrays and
 * published to the caller only when every step has succeeded.
 */
module Welch {
  import opened Common
  import opened Utility
  import opened Spectrum
  import opened WelchSpec
  import Fftw
  import Cufft

  /** The caller's output variables: *Pxx, *frequency and *lenPxx. */
  class Outputs {
    var pxx: array<real>
    var frequency: array<real>
    var lenPxx: int

    constructor()
      ensures pxx.Length == 0 && frequency.Length == 0 && lenPxx == 0
    {
      pxx := new real[0];
      frequency := new real[0];
      lenPxx := 0;
    }
  }

  /**
   * The allocations welch itself makes, in order: the window (0), signalfft
   * (1), Pxx (2), the frequencies (3) and the windowed segment (4).
   */
  const WelchAllocations: nat := 5

  /** The number of fallible steps in one call of the selected backend. */
  function BackendSteps(kind: FftKind): nat
  {
    if kind == CuFft then Cufft.CufftSteps else Fftw.FftwSteps
  }

  /**
   * The backend's steps succeed for each of the first numSegment segments;
   * the outcomes of the call for segment s are backend(s).
   */
  predicate SegmentsSucceed(backend: nat -> Outcomes, kind: FftKind, numSegment: nat)
  {
    forall s :: 0 <= s < numSegment ==> StepsSucceed(backend(s), 0, BackendSteps(kind))
  }

  /**
   * After segment s the outcome of the loop so far is decided: the first s+1
   * segments succeed exactly when the first s do and segment s does.
   */
  lemma SegmentsSucceedNext(backend: nat -> Outcomes, kind: FftKind, s: nat, numSegment: nat)
    requires s < numSegment
    ensures SegmentsSucceed(backend, kind, s + 1)
            <==> SegmentsSucceed(backend, kind, s) && StepsSucceed(backend(s), 0, BackendSteps(kind))
    ensures !StepsSucceed(backend(s), 0, BackendSteps(kind)) ==> !SegmentsSucceed(backend, kind, numSegment)
  {
  }

  /** Sets every coefficient of the window to 1. */
  method FillRectangular(window: array<real>)
    modifies window
    ensures window[..] == RectangularWindow(window.Length)
  {
    var i := 0;
    while i < window.Length
      invariant 0 <= i <= window.Length
      invariant forall j :: 0 <= j < i ==> window[j] == 1.0
    {
      window[i] := 1.0;
      i := i + 1;
    }
  }

  /** The squared norm of the first len window coefficients, summed left to right. */
  method WindowNormSquared(window: array<real>, len: int) returns (normSquared: real)
    requires 0 <= len <= window.Length
    ensures normSquared == WindowEnergy(window[..], len)
  {
    normSquared := 0.0;
    var i := 0;
    while i < len
      invariant 0 <= i <= len
      invariant normSquared == WindowEnergy(window[..], i)
    {
      normSquared := normSquared + window[i] * window[i];
      i := i + 1;
    }
  }

  /** Sets every bin to zero. */
  method ClearBins(pxx: array<real>)
    modifies pxx
    ensures forall k :: 0 <= k < pxx.Length ==> pxx[k] == 0.0
  {
    var i := 0;
    while i < pxx.Length
      invariant 0 <= i <= pxx.Length
      invariant forall k :: 0 <= k < i ==> pxx[k] == 0.0
    {
      pxx[i] := 0.0;
      i := i + 1;
    }
  }

  /** Copies the segment of the signal starting at offset, multiplied by the window, into windowedSignal. */
  method ApplyWindow(signal: array<real>, lenSignal: int, window: array<real>, offset: int,
                     windowedSignal: array<real>)
    requires 0 <= offset && offset + windowedSignal.Length <= lenSignal <= signal.Length
    requires windowedSignal.Length <= window.Length
    requires windowedSignal != signal && windowedSignal != window
    modifies windowedSignal
    ensures windowedSignal[..] == WindowedSegment(signal[..lenSignal], window[..], offset, windowedSignal.Length)
  {
    var j := 0;
    while j < windowedSignal.Length
      invariant 0 <= j <= windowedSignal.Length
      invariant forall m :: 0 <= m < j ==> windowedSignal[m] == signal[offset + m] * window[m]
    {
      windowedSignal[j] := signal[offset + j] * window[j];
      j := j + 1;
    }
    ghost var segment := WindowedSegment(signal[..lenSignal], window[..], offset, windowedSignal.Length);
    forall m | 0 <= m < windowedSignal.Length
      ensures windowedSignal[m] == segment[m]
    {
    }
    assert windowedSignal[..] == segment;
  }

  /**
   * Adds the power of every bin of one packed spectrum to pxx: DC from index
   * 0, the Nyquist bin of an even nfft from index nfft-1, every other bin j
   * from indices 2j-1 and 2j.
   */
  method AccumulateSegment(pxx: array<real>, signalfft: array<real>, nfft: int)
    requires nfft > 0 && signalfft.Length == nfft && pxx.Length == LenPxx(nfft)
    requires pxx != signalfft
    modifies pxx
    ensures forall k :: 0 <= k < pxx.Length ==> pxx[k] == old(pxx[k]) + BinPower(signalfft[..], nfft, k)
  {
    var lenPxx := pxx.Length;
    pxx[0] := pxx[0] + signalfft[0] * signalfft[0];
    var j := 1;
    while j < lenPxx
      invariant 1 <= j <= lenPxx
      invariant forall k :: 0 <= k < j ==> pxx[k] == old(pxx[k]) + BinPower(signalfft[..], nfft, k)
      invariant forall k :: j <= k < lenPxx ==> pxx[k] == old(pxx[k])
    {
      if nfft % 2 == 0 && j == lenPxx - 1 {
        pxx[j] := pxx[j] + signalfft[nfft - 1] * signalfft[nfft - 1];
      } else {
        pxx[j] := pxx[j] + (signalfft[2 * j - 1] * signalfft[2 * j - 1] + signalfft[2 * j] * signalfft[2 * j]);
      }
      j := j + 1;
    }
  }

  /** Multiplies bin k by BinScale: scale/numSegment at both ends, 2*scale/numSegment in between. */
  method ScaleBins(pxx: array<real>, scale: real, numSegment: int)
    requires numSegment > 0
    modifies pxx
    ensures forall k :: 0 <= k < pxx.Length ==> pxx[k] == ScaledBin(old(pxx[k]), scale, numSegment, pxx.Length, k)
  {
    var i := 0;
    while i < pxx.Length
      invariant 0 <= i <= pxx.Length
      invariant forall k :: 0 <= k < i ==> pxx[k] == ScaledBin(old(pxx[k]), scale, numSegment, pxx.Length, k)
      invariant forall k :: i <= k < pxx.Length ==> pxx[k] == old(pxx[k])
    {
      if i == 0 || i == pxx.Length - 1 {
        pxx[i] := pxx[i] * (scale / numSegment as real);
      } else {
        pxx[i] := pxx[i] * (scale * 2.0 / numSegment as real);
      }
      i := i + 1;
    }
  }

  /** Fills in the frequency of every bin: i * samplingFrequency / nfft. */
  method FillFrequencies(frequency: array<real>, samplingFrequency: real, nfft: int)
    requires nfft > 0 && frequency.Length == LenPxx(nfft)
    modifies frequency
    ensures frequency[..] == FrequencyAxis(samplingFrequency, nfft)
  {
    var i := 0;
    while i < frequency.Length
      invariant 0 <= i <= frequency.Length
      invariant forall j :: 0 <= j < i ==> frequency[j] == BinFrequency(samplingFrequency, nfft, j)
    {
      frequency[i] := (i as real) * samplingFrequency / (nfft as real);
      assert frequency[i] == BinFrequency(samplingFrequency, nfft, i);
      i := i + 1;
    }
  }

  /**
   * Runs the selected backend on the windowed segment. It fails exactly when
   * the segment is longer than nfft or one of the backend's own steps fails,
   * their outcomes being `ok`.
   */
  method Transform(kind: FftKind, windowedSignal: array<real>, signalfft: array<real>, nfft: int, dft: Dft,
                   ok: Outcomes)
    returns (status: Status)
    requires 1 <= nfft == signalfft.Length && IsRealDft(dft)
    requires windowedSignal != signalfft
    modifies signalfft
    ensures status == Failure <==> windowedSignal.Length > nfft || !StepsSucceed(ok, 0, BackendSteps(kind))
    ensures status == Failure ==> signalfft[..] == old(signalfft[..])
    ensures status == Success ==>
      && windowedSignal.Length <= nfft
      && signalfft[..] == Packed(dft(Padded(old(windowedSignal[..]), nfft)), nfft)
  {
    ghost var writes: seq<int>;
    if kind == FftwSerial {
      status, writes := Fftw.Fftw(windowedSignal, windowedSignal.Length, signalfft, nfft, false, dft, ok);
    } else if kind == FftwOpenMP {
      status, writes := Fftw.Fftw(windowedSignal, windowedSignal.Length, signalfft, nfft, true, dft, ok);
    } else {
      status, writes := Cufft.Cufft(windowedSignal, windowedSignal.Length, signalfft, nfft, dft, ok);
    }
    assert windowedSignal[..windowedSignal.Length] == windowedSignal[..];
  }

  /**
   * One pass of the segment loop: window the segment at offset, transform it
   * with the selected backend, and add the power of each of its bins to pxx.
   * A failing transform leaves pxx as it was; nothing else fails.
   */
  method AddSegment(signal: array<real>, lenSignal: int, window: array<real>, offset: int, nfft: int,
                    kind: FftKind, dft: Dft, ok: Outcomes,
                    windowedSignal: array<real>, signalfft: array<real>, pxx: array<real>)
    returns (status: Status)
    requires 0 <= offset && offset + windowedSignal.Length <= lenSignal <= signal.Length
    requires windowedSignal.Length <= window.Length && nfft > 0 && IsRealDft(dft)
    requires signalfft.Length == nfft && pxx.Length == LenPxx(nfft)
    requires windowedSignal != signal && windowedSignal != window && windowedSignal != signalfft
    requires pxx != signal && pxx != window && pxx != windowedSignal && pxx != signalfft
    requires signalfft != signal && signalfft != window
    modifies windowedSignal, signalfft, pxx
    ensures status == Failure <==> windowedSignal.Length > nfft || !StepsSucceed(ok, 0, BackendSteps(kind))
    ensures status == Failure ==> pxx[..] == old(pxx[..])
    ensures status == Success ==>
      && windowedSignal.Length <= nfft
      && forall k :: 0 <= k < pxx.Length ==>
           pxx[k] == old(pxx[k]) + BinPower(Packed(SegmentBins(signal[..lenSignal], window[..], offset,
                                                               windowedSignal.Length, nfft, dft), nfft), nfft, k)
  {
    ApplyWindow(signal, lenSignal, window, offset, windowedSignal);
    status := Transform(kind, windowedSignal, signalfft, nfft, dft, ok);
    if status == Failure {
      return;
    }
    AccumulateSegment(pxx, signalfft, nfft);
  }

  /**
   * One pass of the segment loop, seen from the running sums: when pxx holds the power of the
   * segments that start before offset, it afterwards holds that of the segments that start
   * before offset + stride.
   */
  method NextSegment(signal: array<real>, lenSignal: int, window: array<real>, ghost sig: seq<real>, ghost w: seq<real>,
                     offset: int, stride: int,
                     nfft: int, kind: FftKind, dft: Dft, ok: Outcomes,
                     windowedSignal: array<real>, signalfft: array<real>, pxx: array<real>)
    returns (status: Status)
    requires 0 <= offset && offset + windowedSignal.Length <= lenSignal <= signal.Length
    requires sig == signal[..lenSignal] && w == window[..]
    requires windowedSignal.Length <= window.Length && 0 < stride && nfft > 0 && IsRealDft(dft)
    requires signalfft.Length == nfft && pxx.Length == LenPxx(nfft)
    requires windowedSignal != signal && windowedSignal != window && windowedSignal != signalfft
    requires pxx != signal && pxx != window && pxx != windowedSignal && pxx != signalfft
    requires signalfft != signal && signalfft != window
    requires offset >= stride ==> windowedSignal.Length <= nfft && offset - stride + windowedSignal.Length <= lenSignal
    requires forall k :: 0 <= k < pxx.Length ==>
      pxx[k] == AccumulatedPower(sig, w, windowedSignal.Length, stride, nfft, dft, offset, k)
    modifies windowedSignal, signalfft, pxx
    ensures status == Failure <==> windowedSignal.Length > nfft || !StepsSucceed(ok, 0, BackendSteps(kind))
    ensures status == Success ==>
      && windowedSignal.Length <= nfft
      && forall k :: 0 <= k < pxx.Length ==>
           pxx[k] == AccumulatedPower(sig, w, windowedSignal.Length, stride, nfft, dft,
                                      offset + stride, k)
  {
    status := AddSegment(signal, lenSignal, window, offset, nfft, kind, dft, ok, windowedSignal, signalfft, pxx);
    if status == Failure {
      return;
    }
    forall k | 0 <= k < pxx.Length
      ensures pxx[k] == AccumulatedPower(sig, w, windowedSignal.Length, stride, nfft, dft, offset + stride, k)
    {
      AccumulatedStep(sig, w, windowedSignal.Length, stride, nfft, dft, offset, k);
    }
  }

  /**
   * The segment loop: for offsets i = 0, stride, 2*stride, ... while a whole
   * segment fits, window the segment, transform it and add its power to
   * pxx; the backend's outcomes for segment s are backend(s). A failing
   * transform stops the loop with failure, and nothing else fails. On
   * success, bin k holds the power of bin k accumulated over all
   * NumSegments segments.
   */
  method AccumulateSegments(signal: array<real>, lenSignal: int, window: array<real>,
                            lenSegment: int, lenOverlap: int, nfft: int, kind: FftKind, dft: Dft,
                            backend: nat -> Outcomes,
                            windowedSignal: array<real>, signalfft: array<real>, pxx: array<real>)
    returns (status: Status)
    requires lenSignal <= signal.Length && ValidSegmentation(lenSignal, lenSegment, lenOverlap)
    requires lenSegment <= window.Length && nfft > 0 && IsRealDft(dft)
    requires windowedSignal.Length == lenSegment && signalfft.Length == nfft && pxx.Length == LenPxx(nfft)
    requires forall k :: 0 <= k < pxx.Length ==> pxx[k] == 0.0
    requires windowedSignal != signal && windowedSignal != window && windowedSignal != signalfft
    requires pxx != signal && pxx != window && pxx != windowedSignal && pxx != signalfft
    requires signalfft != signal && signalfft != window
    modifies windowedSignal, signalfft, pxx
    ensures status == Failure <==>
      lenSegment > nfft || !SegmentsSucceed(backend, kind, NumSegments(lenSignal, lenSegment, lenOverlap))
    ensures status == Success ==>
      && lenSegment <= nfft
      && forall k :: 0 <= k < pxx.Length ==>
           pxx[k] == AccumulatedPower(signal[..lenSignal], window[..], lenSegment, Stride(lenSegment, lenOverlap),
                                      nfft, dft, EndOffset(lenSignal, lenOverlap), k)
  {
    ghost var sig := signal[..lenSignal];
    ghost var w := window[..];
    var stride := lenSegment - lenOverlap;
    ghost var m := NumSegments(lenSignal, lenSegment, lenOverlap);
    var s: nat := 0;
    var i := 0;
    while i + lenSegment <= lenSignal
      invariant 0 <= i <= EndOffset(lenSignal, lenOverlap) && i == s * stride
      invariant i >= stride ==> lenSegment <= nfft && i - stride + lenSegment <= lenSignal
      invariant SegmentsSucceed(backend, kind, s)
      invariant forall k :: 0 <= k < pxx.Length ==>
        pxx[k] == AccumulatedPower(sig, w, lenSegment, stride, nfft, dft, i, k)
      decreases lenSignal - i
    {
      SegmentGuard(lenSignal, lenSegment, lenOverlap, s);
      SegmentsSucceedNext(backend, kind, s, m);
      status := NextSegment(signal, lenSignal, window, sig, w, i, stride, nfft, kind, dft, backend(s),
                            windowedSignal, signalfft, pxx);
      if status == Failure {
        return;
      }
      assert (s + 1) * stride == s * stride + stride;
      i := i + stride;
      s := s + 1;
    }
    LastSegmentOffset(lenSignal, lenSegment, lenOverlap, s);
    status := Success;
  }

  /**
   * The computation once the buffers exist: the window's squared norm and the
   * scale, the segment loop, the scaling and averaging of every bin, and the
   * frequency axis. On success pxx holds the PSD estimate for this window and
   * frequency its axis; it fails exactly where the segment loop fails.
   */
  method Estimate(signal: array<real>, lenSignal: int, window: array<real>, ghost w: seq<real>, samplingFrequency: real,
                  lenSegment: int, lenOverlap: int, nfft: int, kind: FftKind, dft: Dft, backend: nat -> Outcomes,
                  windowedSignal: array<real>, signalfft: array<real>, pxx: array<real>, frequency: array<real>)
    returns (status: Status)
    requires lenSignal <= signal.Length && samplingFrequency > 0.0
    requires ValidSegmentation(lenSignal, lenSegment, lenOverlap)
    requires w == window[..] && lenSegment <= |w| && WindowEnergy(w, lenSegment) > 0.0
    requires nfft > 0 && IsRealDft(dft)
    requires windowedSignal.Length == lenSegment && signalfft.Length == nfft
    requires pxx.Length == LenPxx(nfft) && frequency.Length == LenPxx(nfft)
    requires forall k :: 0 <= k < pxx.Length ==> pxx[k] == 0.0
    requires windowedSignal != signal && windowedSignal != window && windowedSignal != signalfft
    requires pxx != signal && pxx != window && pxx != windowedSignal && pxx != signalfft
    requires signalfft != signal && signalfft != window
    requires frequency != signal && frequency != window && frequency != windowedSignal
    requires frequency != signalfft && frequency != pxx
    modifies windowedSignal, signalfft, pxx, frequency
    ensures status == Failure <==>
      lenSegment > nfft || !SegmentsSucceed(backend, kind, NumSegments(lenSignal, lenSegment, lenOverlap))
    ensures status == Success ==>
      && lenSegment <= nfft
      && pxx[..] == Psd(signal[..lenSignal], w, samplingFrequency, lenSegment, lenOverlap, nfft, dft)
      && frequency[..] == FrequencyAxis(samplingFrequency, nfft)
  {
    ghost var sig := signal[..lenSignal];
    var normSquared := WindowNormSquared(window, lenSegment);
    assert samplingFrequency * normSquared > 0.0;
    var scale := 1.0 / (samplingFrequency * normSquared);
    assert scale == Scale(samplingFrequency, w, lenSegment);

    status := AccumulateSegments(signal, lenSignal, window, lenSegment, lenOverlap, nfft, kind, dft, backend,
                                 windowedSignal, signalfft, pxx);
    if status == Failure {
      return;
    }

    ghost var accumulated := pxx[..];
    var numSegment := (lenSignal - lenOverlap) / (lenSegment - lenOverlap);
    assert numSegment == NumSegments(lenSignal, lenSegment, lenOverlap);
    ScaleBins(pxx, scale, numSegment);
    ScaledAccumulationIsPsd(pxx[..], accumulated, sig, w, samplingFrequency, lenSegment, lenOverlap, nfft, dft,
                            scale, numSegment);

    FillFrequencies(frequency, samplingFrequency, nfft);
  }

  /**
   * welch: the Welch PSD estimate of signal[..lenSignal] with a rectangular
   * window, segments of lenSegment samples overlapping by lenOverlap, and
   * nfft-point transforms from the backend named fftType. Invalid parameters
   * fail, and so does a segment longer than nfft (the backends refuse to
   * truncate it). The only other failures are welch's own allocations,
   * whose outcomes are `alloc`, and the backend's steps for segment s, whose
   * outcomes are backend(s); with valid parameters and every step
   * succeeding, the call succeeds. On failure the caller's outputs are
   * untouched; on success they hold two fresh, distinct arrays with the
   * estimate and its frequency axis.
   */
  method Welch(signal: array<real>, out: Outputs, samplingFrequency: real, lenSignal: int, lenSegment: int,
               lenOverlap: int, windowType: string, fftType: string, nfft: int, dft: Dft,
               alloc: Outcomes, backend: nat -> Outcomes)
    returns (status: Status)
    requires lenSignal <= signal.Length
    requires IsRealDft(dft)
    modifies out
    ensures status == Failure <==>
      || !ValidParameters(samplingFrequency, lenSignal, lenSegment, lenOverlap, windowType, fftType, nfft)
      || lenSegment > nfft
      || !StepsSucceed(alloc, 0, WelchAllocations)
      || !SegmentsSucceed(backend, ParseFftType(fftType).value, NumSegments(lenSignal, lenSegment, lenOverlap))
    ensures status == Failure ==> unchanged(out)
    ensures status == Success ==>
      && ValidParameters(samplingFrequency, lenSignal, lenSegment, lenOverlap, windowType, fftType, nfft)
      && lenSegment <= nfft
      && PsdDefined(signal[..lenSignal], RectangularWindow(lenSignal), samplingFrequency, lenSegment, lenOverlap, nfft, dft)
      && fresh(out.pxx) && fresh(out.frequency) && out.pxx != out.frequency
      && out.lenPxx == out.pxx.Length == out.frequency.Length == LenPxx(nfft)
      && out.pxx[..] == Psd(signal[..lenSignal], RectangularWindow(lenSignal), samplingFrequency,
                            lenSegment, lenOverlap, nfft, dft)
      && out.frequency[..] == FrequencyAxis(samplingFrequency, nfft)
  {
    // Parameter checks, in the order welch.c makes them.
    if samplingFrequency <= 0.0 || lenSignal <= 0 || lenSegment <= 0 || lenOverlap < 0
       || lenSignal < lenSegment || lenSegment < lenOverlap {
      return Failure;
    }
    // An overlap equal to the segment would leave a zero stride.
    if lenSegment == lenOverlap {
      return Failure;
    }
    if (lenSignal - lenOverlap) % (lenSegment - lenOverlap) != 0 {
      return Failure;
    }

    if windowType != "rectangular" {
      return Failure;
    }
    if !alloc(0) {
      return Failure;
    }
    var window := new real[lenSignal];
    FillRectangular(window);

    var fftCall := ParseFftType(fftType);
    if fftCall.None? {
      return Failure;
    }
    if nfft <= 0 {
      return Failure;
    }

    status := Compute(signal, lenSignal, window, out, samplingFrequency, lenSegment, lenOverlap, nfft,
                      fftCall.value, dft, alloc, backend);
  }

  /** The buffers welch allocates once the parameters are accepted (allocations 1 to 4 of `alloc`), the
      estimate itself, and the publication of the results: `out` is written only when every step has
      succeeded. */
  method Compute(signal: array<real>, lenSignal: int, window: array<real>, out: Outputs,
                 samplingFrequency: real, lenSegment: int, lenOverlap: int, nfft: int, kind: FftKind, dft: Dft,
                 alloc: Outcomes, backend: nat -> Outcomes)
    returns (status: Status)
    requires 0 < lenSegment <= lenSignal <= signal.Length && 0 <= lenOverlap < lenSegment
    requires (lenSignal - lenOverlap) % (lenSegment - lenOverlap) == 0
    requires samplingFrequency > 0.0 && nfft > 0 && IsRealDft(dft)
    requires window.Length == lenSignal && window[..] == RectangularWindow(lenSignal)
    requires window != signal
    modifies out
    ensures status == Failure <==>
      || lenSegment > nfft
      || !StepsSucceed(alloc, 1, WelchAllocations)
      || !SegmentsSucceed(backend, kind, NumSegments(lenSignal, lenSegment, lenOverlap))
    ensures status == Failure ==> unchanged(out)
    ensures status == Success ==>
      && lenSegment <= nfft
      && fresh(out.pxx) && fresh(out.frequency) && out.pxx != out.frequency
      && out.lenPxx == out.pxx.Length == out.frequency.Length == LenPxx(nfft)
      && out.pxx[..] == Psd(signal[..lenSignal], RectangularWindow(lenSignal), samplingFrequency,
                            lenSegment, lenOverlap, nfft, dft)
      && out.frequency[..] == FrequencyAxis(samplingFrequency, nfft)
  {
    if !alloc(1) {
      return Failure;
    }
    var signalfft := new real[nfft];
    var lenPxx := LenPxx(nfft);

    if !alloc(2) {
      return Failure;
    }
    var pxx := new real[lenPxx];
    ClearBins(pxx);

    if !alloc(3) {
      return Failure;
    }
    var frequency := new real[lenPxx];

    if !alloc(4) {
      return Failure;
    }
    var windowedSignal := new real[lenSegment];

    RectangularEnergy(lenSignal, lenSegment);
    status := Estimate(signal, lenSignal, window, RectangularWindow(lenSignal), samplingFrequency, lenSegment, lenOverlap, nfft, kind, dft, backend,
                       windowedSignal, signalfft, pxx, frequency);
    if status == Failure {
      return;
    }

    out.pxx := pxx;
    out.frequency := frequency;
    out.lenPxx := lenPxx;
  }
}
