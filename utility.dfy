/** Zero padding of a segment to the transform length (utility.c). */
module Utility {
  import opened Common

  /** `x` extended with zeros to `nPadded` samples. */
  function Padded(x: seq<real>, nPadded: nat): (r: seq<real>)
    requires |x| <= nPadded
    ensures |r| == nPadded
    ensures r[..|x|] == x
    ensures forall i :: |x| <= i < nPadded ==> r[i] == 0.0
  {
    x + seq(nPadded - |x|, _ => 0.0)
  }

  /**
   * padZero: a new buffer of nPadded samples holding the n samples of x
   * followed by zeros. It refuses to truncate: n > nPadded is a failure, and
   * no buffer is produced. The only other failure is the allocation of the
   * buffer, which succeeds exactly when allocOk.
   */
  method PadZero(x: array<real>, n: int, nPadded: int, allocOk: bool) returns (r: Option<array<real>>)
    requires 0 <= n <= x.Length
    ensures r.None? <==> n > nPadded || !allocOk
    ensures r.Some? ==> fresh(r.value) && r.value.Length == nPadded
    ensures r.Some? ==> forall i :: 0 <= i < n ==> r.value[i] == x[i]
    ensures r.Some? ==> forall i :: n <= i < nPadded ==> r.value[i] == 0.0
    ensures r.Some? ==> r.value[..] == Padded(x[..n], nPadded)
    ensures r.Some? && n == nPadded ==> r.value[..] == x[..n]
  {
    if n > nPadded {
      return None;
    }
    if !allocOk {
      return None;
    }
    var xPadded := new real[nPadded];
    var i := 0;
    while i < n
      invariant 0 <= i <= n
      invariant forall k :: 0 <= k < i ==> xPadded[k] == x[k]
    {
      xPadded[i] := x[i];
      i := i + 1;
    }
    while i < nPadded
      invariant n <= i <= nPadded
      invariant forall k :: 0 <= k < n ==> xPadded[k] == x[k]
      invariant forall k :: n <= k < i ==> xPadded[k] == 0.0
    {
      xPadded[i] := 0.0;
      i := i + 1;
    }
    assert xPadded[..] == Padded(x[..n], nPadded);
    r := Some(xPadded);
  }
}
