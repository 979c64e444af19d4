/** The FFTW backend (fftw.c): pad, transform, and pack the bins into xfft. */
module Fftw {
  import opened Common
  import opened Utility
  import opened Spectrum

  /**
   * The fallible steps of one fftw call, in order: step 0 is padZero's
   * allocation of the padded input, step 1 the fftw_malloc of the complex
   * output. Plan creation and execution are not checked in fftw.c.
   */
  const FftwSteps: nat := 2

  /**
   * fftw: the packed one-sided transform of x, zero-padded to nfft points.
   * An x longer than nfft is not truncated: padZero refuses it and the call
   * fails. The only other failures are the two allocations, whose outcomes
   * are `ok`; the call succeeds exactly when none of these happens. On
   * failure xfft is not written; on success xfft holds the packed bins, and
   * the ghost log `writes`, extended beside every write, lists each index of
   * xfft once, in increasing order.
   * The transform library is the oracle `dft`; whether it runs on one thread
   * or several (useOpenMP) does not change its result.
   */
  method Fftw(x: array<real>, n: int, xfft: array<real>, nfft: int, useOpenMP: bool, dft: Dft, ok: Outcomes)
    returns (status: Status, ghost writes: seq<int>)
    requires 0 <= n <= x.Length
    requires 1 <= nfft == xfft.Length
    requires IsRealDft(dft)
    modifies xfft
    ensures status == Failure <==> n > nfft || !StepsSucceed(ok, 0, FftwSteps)
    ensures status == Failure ==> xfft[..] == old(xfft[..])
    ensures status == Success ==>
      && n <= nfft
      && xfft[..] == Packed(dft(Padded(old(x[..n]), nfft)), nfft)
      && writes == seq(nfft, k => k)
  {
    writes := [];
    ghost var input := x[..n];
    var padded := PadZero(x, n, nfft, ok(0));
    if padded.None? {
      return Failure, writes;
    }
    var xPadded := padded.value;
    // fftw_malloc of the complex output buffer
    if !ok(1) {
      return Failure, writes;
    }
    // plan creation and execution (the library call)
    var bins := dft(xPadded[..]);
    assert bins == dft(Padded(input, nfft)) && |bins| == NumBins(nfft);

    writes := PackBins(bins, xfft, nfft);
    status := Success;
  }

  /**
   * The conversion loop of fftw.c: the real part of bin 0, then the real and
   * imaginary parts of bins 1..(nfft-1)/2, then, for even nfft, the real part
   * of bin nfft/2. The ghost log `writes`, extended beside every write,
   * lists each index of xfft once, in increasing order.
   */
  method PackBins(bins: seq<Complex>, xfft: array<real>, nfft: int) returns (ghost writes: seq<int>)
    requires 1 <= nfft == xfft.Length && |bins| == NumBins(nfft)
    modifies xfft
    ensures xfft[..] == Packed(bins, nfft)
    ensures writes == seq(nfft, k => k)
  {
    xfft[0] := bins[0].re;
    writes := [0];
    var i := 1;
    while i <= (nfft - 1) / 2
      invariant 1 <= i <= (nfft - 1) / 2 + 1
      invariant forall k :: 0 <= k < 2 * i - 1 ==> xfft[k] == PackedAt(bins, nfft, k)
      invariant |writes| == 2 * i - 1 && forall k :: 0 <= k < |writes| ==> writes[k] == k
    {
      assert PackedAt(bins, nfft, 2 * i - 1) == bins[i].re;
      assert PackedAt(bins, nfft, 2 * i) == bins[i].im;
      xfft[2 * i - 1] := bins[i].re;
      xfft[2 * i] := bins[i].im;
      writes := writes + [2 * i - 1, 2 * i];
      i := i + 1;
    }
    if nfft % 2 == 0 {
      xfft[nfft - 1] := bins[nfft / 2].re;
      writes := writes + [nfft - 1];
    }
    assert xfft[..] == Packed(bins, nfft);
  }
}
