/**
 * The CUDA backend (cufft.c): pad on the host, run the transform on the
 * device, copy the complex bins back, and pack them into xfft exactly as the
 * FFTW backend does. Device allocation, host/device copies and the cuFFT plan
 * are steps that may fail; only the length of the device-to-host copy is
 * modelled in detail, because the packing depends on it.
 */
module Cufft {
  import opened Common
  import opened Utility
  import opened Spectrum

  /** A buffer of cufftDoubleComplex viewed as doubles: x (real) and y (imaginary) alternate. */
  function Interleaved(bins: seq<Complex>): (r: seq<real>)
    ensures |r| == 2 * |bins|
    ensures forall i :: 0 <= i < |bins| ==> r[2 * i] == bins[i].re && r[2 * i + 1] == bins[i].im
  {
    seq(2 * |bins|, k requires 0 <= k < 2 * |bins| => if k % 2 == 0 then bins[k / 2].re else bins[k / 2].im)
  }

  /** The complex bins a host buffer of interleaved doubles holds: bin i's x is double 2i, its y double 2i+1. */
  function HostBins(host: seq<real>, count: nat): (r: seq<Complex>)
    requires |host| == 2 * count
    ensures |r| == count
    ensures forall i :: 0 <= i < count ==> r[i].re == host[2 * i] && r[i].im == host[2 * i + 1]
  {
    seq(count, i requires 0 <= i < count => Complex(host[2 * i], host[2 * i + 1]))
  }

  /** Reading back a buffer that was copied whole gives the bins that were written. */
  lemma HostBinsInterleaved(bins: seq<Complex>)
    ensures HostBins(Interleaved(bins), |bins|) == bins
  {
    var r := HostBins(Interleaved(bins), |bins|);
    forall i | 0 <= i < |bins| ensures r[i] == bins[i] {
      assert Interleaved(bins)[2 * i] == bins[i].re;
    }
  }

  /**
   * The device-to-host copy as written in cufft.c: nfft doubles
   * (nfft * sizeof(cufftDoubleReal) bytes) into a host buffer of nfft/2+1
   * complex values, i.e. 2*(nfft/2)+2 doubles. The doubles past nfft keep
   * whatever the freshly allocated host buffer held (`stale`).
   */
  function RetrievedAsWritten(device: seq<real>, stale: seq<real>, nfft: nat): (host: seq<real>)
    requires |device| == |stale| == 2 * NumBins(nfft)
    ensures |host| == |device|
    ensures forall k :: 0 <= k < nfft ==> host[k] == device[k]
    ensures forall k :: nfft <= k < |host| ==> host[k] == stale[k]
  {
    device[..nfft] + stale[nfft..]
  }

  /** The last packed value is always read from double nfft of the host buffer. */
  lemma PackedLastReadsHostDouble(host: seq<real>, nfft: nat)
    requires nfft >= 2 && |host| == 2 * NumBins(nfft)
    ensures Packed(HostBins(host, NumBins(nfft)), nfft)[nfft - 1] == host[nfft]
  {
    var hb := HostBins(host, NumBins(nfft));
    var top := nfft / 2;
    assert hb[top].re == host[2 * top] && hb[top].im == host[2 * top + 1];
    var p := Packed(hb, nfft);
    if nfft % 2 == 0 {
      assert p[nfft - 1] == PackedAt(hb, nfft, nfft - 1) == hb[top].re;
      assert 2 * top == nfft;
    } else {
      assert p[nfft - 1] == PackedAt(hb, nfft, nfft - 1) == hb[top].im;
      assert 2 * top + 1 == nfft;
    }
  }

  /**
   * With the copy as written, the last packed value (the Nyquist real part for
   * even nfft, the top bin's imaginary part for odd nfft) comes from the
   * uninitialised host memory, whatever the transform produced.
   */
  lemma AsWrittenLastValueIsStale(bins: seq<Complex>, stale: seq<real>, nfft: nat)
    requires nfft >= 2 && |bins| == NumBins(nfft) && |stale| == 2 * NumBins(nfft)
    ensures Packed(HostBins(RetrievedAsWritten(Interleaved(bins), stale, nfft), NumBins(nfft)), nfft)[nfft - 1] == stale[nfft]
  {
    var host := RetrievedAsWritten(Interleaved(bins), stale, nfft);
    assert host[nfft] == stale[nfft];
    PackedLastReadsHostDouble(host, nfft);
  }

  /** A 4-point transform whose Nyquist bin is 1.0 packs as 0.0 when the stale memory is zero. */
  lemma AsWrittenLosesNyquistBin()
    ensures var bins := [Complex(0.0, 0.0), Complex(0.0, 0.0), Complex(1.0, 0.0)];
            Packed(HostBins(RetrievedAsWritten(Interleaved(bins), seq(6, _ => 0.0), 4), 3), 4)[3] == 0.0
            && Packed(bins, 4)[3] == 1.0
  {
    var bins := [Complex(0.0, 0.0), Complex(0.0, 0.0), Complex(1.0, 0.0)];
    AsWrittenLastValueIsStale(bins, seq(6, _ => 0.0), 4);
  }

  /**
   * The conversion loop of cufft.c: bins read from the interleaved host buffer
   * are packed into xfft. The ghost log `writes`, extended beside every
   * write, lists each index of xfft once, in increasing order.
   */
  method PackHostBins(host: array<real>, xfft: array<real>, nfft: int) returns (ghost writes: seq<int>)
    requires 1 <= nfft == xfft.Length && host.Length == 2 * NumBins(nfft)
    requires host != xfft
    modifies xfft
    ensures xfft[..] == Packed(HostBins(host[..], NumBins(nfft)), nfft)
    ensures writes == seq(nfft, k => k)
  {
    ghost var bins := HostBins(host[..], NumBins(nfft));
    xfft[0] := host[0];
    writes := [0];
    var i := 1;
    while i <= (nfft - 1) / 2
      invariant 1 <= i <= (nfft - 1) / 2 + 1
      invariant forall k :: 0 <= k < 2 * i - 1 ==> xfft[k] == PackedAt(bins, nfft, k)
      invariant |writes| == 2 * i - 1 && forall k :: 0 <= k < |writes| ==> writes[k] == k
    {
      assert bins[i] == Complex(host[2 * i], host[2 * i + 1]);
      assert PackedAt(bins, nfft, 2 * i - 1) == host[2 * i];
      assert PackedAt(bins, nfft, 2 * i) == host[2 * i + 1];
      xfft[2 * i - 1] := host[2 * i];
      xfft[2 * i] := host[2 * i + 1];
      writes := writes + [2 * i - 1, 2 * i];
      i := i + 1;
    }
    if nfft % 2 == 0 {
      xfft[nfft - 1] := host[2 * (nfft / 2)];
      writes := writes + [nfft - 1];
    }
    assert xfft[..] == Packed(bins, nfft);
  }

  /**
   * The fallible steps of one cufft call, in order: padZero's allocation (0),
   * the host buffer for the bins (1), the two device buffers (2, 3), the
   * host-to-device copy (4), plan creation (5), plan execution (6) and the
   * device-to-host copy (7).
   */
  const CufftSteps: nat := 8

  /**
   * cufft: the packed one-sided transform of x, zero-padded to nfft points,
   * with the same layout as the FFTW backend. An x longer than nfft fails in
   * padZero before any device work; the only other failures are the eight
   * checked steps, whose outcomes are `ok`. The call succeeds exactly when
   * none of these happens, and a failure returns before xfft is written. On
   * success xfft holds the packed bins, and the ghost log `writes`, extended
   * beside every write, lists each index of xfft once, in increasing order.
   * The device-to-host copy takes all nfft/2+1 complex bins.
   */
  method Cufft(x: array<real>, n: int, xfft: array<real>, nfft: int, dft: Dft, ok: Outcomes)
    returns (status: Status, ghost writes: seq<int>)
    requires 0 <= n <= x.Length
    requires 1 <= nfft == xfft.Length
    requires IsRealDft(dft)
    modifies xfft
    ensures status == Failure <==> n > nfft || !StepsSucceed(ok, 0, CufftSteps)
    ensures status == Failure ==> xfft[..] == old(xfft[..])
    ensures status == Success ==>
      && n <= nfft
      && xfft[..] == Packed(dft(Padded(old(x[..n]), nfft)), nfft)
      && writes == seq(nfft, k => k)
  {
    writes := [];
    ghost var input := x[..n];
    var padded := PadZero(x, n, nfft, ok(0));
    if padded.None? {
      return Failure, writes;
    }
    var xPadded := padded.value;

    // host buffer of nfft/2+1 complex values
    if !ok(1) {
      return Failure, writes;
    }
    var xfftComplex := new real[2 * NumBins(nfft)];
    // device buffers for the input and for the bins
    if !ok(2) || !ok(3) {
      return Failure, writes;
    }
    // host-to-device copy of the padded input
    if !ok(4) {
      return Failure, writes;
    }
    // plan creation and execution
    if !ok(5) || !ok(6) {
      return Failure, writes;
    }
    var bins := dft(xPadded[..]);
    assert bins == dft(Padded(input, nfft)) && |bins| == NumBins(nfft);
    var device := Interleaved(bins);
    // device-to-host copy of all bins
    if !ok(7) {
      return Failure, writes;
    }
    forall k | 0 <= k < xfftComplex.Length {
      xfftComplex[k] := device[k];
    }
    assert xfftComplex[..] == device;
    HostBinsInterleaved(bins);

    writes := PackHostBins(xfftComplex, xfft, nfft);
    status := Success;
  }
}
