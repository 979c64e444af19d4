/**
 * The packed one-sided spectrum: the real array of nfft values in which every
 * backend returns its transform and from which the estimator reads it.
 * Index 0 holds the DC bin's real part, indices 2i-1 and 2i the real and
 * imaginary parts of bin i, and, for even nfft, index nfft-1 the real part of
 * the Nyquist bin nfft/2.
 */
module Spectrum {
  import opened Common

  /** Number of non-redundant complex bins of an nfft-point real transform. */
  function NumBins(nfft: nat): (count: nat)
  {
    nfft / 2 + 1
  }

  /** The value the layout stores at index k of the packed array. */
  function PackedAt(bins: seq<Complex>, nfft: nat, k: nat): (v: real)
    requires |bins| == NumBins(nfft) && k < nfft
  {
    if k == 0 then bins[0].re
    else if nfft % 2 == 0 && k == nfft - 1 then bins[nfft / 2].re
    else if k % 2 == 1 then bins[(k + 1) / 2].re
    else bins[k / 2].im
  }

  /** The whole packed array. */
  function Packed(bins: seq<Complex>, nfft: nat): (r: seq<real>)
    requires |bins| == NumBins(nfft)
    ensures |r| == nfft
  {
    seq(nfft, k requires 0 <= k < nfft => PackedAt(bins, nfft, k))
  }

  /**
   * The layout bin by bin: DC real part first, then the real and imaginary
   * parts of bins 1..(nfft-1)/2 side by side, then, for even nfft, the
   * Nyquist real part in the last slot.
   */
  lemma PackedLayout(bins: seq<Complex>, nfft: nat)
    requires nfft > 0 && |bins| == NumBins(nfft)
    ensures Packed(bins, nfft)[0] == bins[0].re
    ensures forall i :: 1 <= i <= (nfft - 1) / 2 ==>
      Packed(bins, nfft)[2 * i - 1] == bins[i].re && Packed(bins, nfft)[2 * i] == bins[i].im
    ensures nfft % 2 == 0 ==> Packed(bins, nfft)[nfft - 1] == bins[nfft / 2].re
  {
    var r := Packed(bins, nfft);
    forall i | 1 <= i <= (nfft - 1) / 2
      ensures r[2 * i - 1] == bins[i].re && r[2 * i] == bins[i].im
    {
      assert r[2 * i - 1] == PackedAt(bins, nfft, 2 * i - 1);
      assert r[2 * i] == PackedAt(bins, nfft, 2 * i);
    }
  }

  /**
   * Packing reads only the real parts of bin 0 and, for even nfft, of bin
   * nfft/2: their imaginary parts, which are zero for a real input, never
   * reach the packed array.
   */
  lemma {:induction false} PackedIgnoresEdgeImaginaryParts(bins: seq<Complex>, bins': seq<Complex>, nfft: nat)
    requires |bins| == |bins'| == NumBins(nfft)
    requires forall i :: 0 <= i < |bins| ==> bins[i].re == bins'[i].re
    requires forall i :: 0 < i < |bins| && !(nfft % 2 == 0 && i == nfft / 2) ==> bins[i] == bins'[i]
    ensures Packed(bins, nfft) == Packed(bins', nfft)
  {
    forall k | 0 <= k < nfft
      ensures Packed(bins, nfft)[k] == Packed(bins', nfft)[k]
    {
      assert PackedAt(bins, nfft, k) == PackedAt(bins', nfft, k);
    }
  }
}
