/**
 * Types shared by the Welch estimator and its transform backends: the status
 * every routine returns, complex transform bins, the discrete Fourier
 * transform as an uninterpreted oracle, and the outcomes of fallible foreign
 * steps.
 */
module Common {

  /** The routines' return status (welchStatus_t). */
  datatype Status = Success | Failure

  datatype Option<+T> = None | Some(value: T)

  /** One complex bin of a real-to-complex transform. */
  datatype Complex = Complex(re: real, im: real)

  /** The transform library, seen from outside: a real signal goes in, complex bins come out. */
  type Dft = seq<real> -> seq<Complex>

  /**
   * What every backend relies on from the library: a real-to-complex transform
   * of an n-point input yields the n/2+1 non-redundant bins 0..n/2.
   */
  ghost predicate IsRealDft(dft: Dft)
  {
    forall x :: |dft(x)| == |x| / 2 + 1
  }

  function Sq(x: real): (r: real)
    ensures r >= 0.0
  {
    x * x
  }

  /** Squared magnitude of a bin. */
  function Power(c: Complex): (r: real)
    ensures r >= 0.0
  {
    Sq(c.re) + Sq(c.im)
  }

  /**
   * The outcomes of a routine's fallible foreign steps (allocations, device
   * copies, cuFFT plan creation and execution), numbered in the order the
   * routine makes them: step i succeeds exactly when ok(i). The environment
   * decides them; the routine only reacts to them.
   */
  type Outcomes = nat -> bool

  /** Every step numbered from `from` up to, but excluding, `to` succeeds. */
  predicate StepsSucceed(ok: Outcomes, from: nat, to: nat)
    decreases if from < to then to - from else 0
  {
    from >= to || (ok(from) && StepsSucceed(ok, from + 1, to))
  }

  /** StepsSucceed says that each step in the range succeeds, and no more. */
  lemma {:induction false} StepsSucceedEach(ok: Outcomes, from: nat, to: nat)
    ensures StepsSucceed(ok, from, to) <==> (forall i: nat :: from <= i < to ==> ok(i))
    decreases if from < to then to - from else 0
  {
    if from < to {
      StepsSucceedEach(ok, from + 1, to);
    }
  }
}
