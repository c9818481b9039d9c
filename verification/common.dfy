/** Shared vocabulary of the auditory toolbox model: the exceptions the
    toolbox raises, a result type, a model of the floating-point quotient
    used for salience, and sums over real sequences.
 */
module Common {

  /** The Python exceptions raised by the modelled code paths. */
  datatype Error =
    | ValueError(reason: string)
    | TypeError(reason: string)
    | IndexError(reason: string)
    | ZeroDivisionError(reason: string)
    | RuntimeError(reason: string)
    | AssertionError(reason: string)

  /** The outcome of an operation that may raise. */
  datatype Result<+T> = Ok(value: T) | Err(error: Error)

  datatype Option<+T> = None | Some(value: T)

  /** A float64 value as produced by a division: finite, or one of the
      special values a division by zero yields. */
  datatype Float = Finite(v: real) | PosInf | NegInf | NaN

  /** Floating-point division `n / d`: exact when `d` is non-zero, and the
      IEEE 754 infinity or NaN otherwise. */
  function Divide(n: real, d: real): (q: Float)
    ensures d != 0.0 ==> q.Finite? && q.v * d == n
    ensures d == 0.0 ==> (q.PosInf? <==> n > 0.0) && (q.NegInf? <==> n < 0.0) && (q.NaN? <==> n == 0.0)
  {
    if d != 0.0 then Finite(n / d)
    else if n > 0.0 then PosInf
    else if n < 0.0 then NegInf
    else NaN
  }

  function Min(a: int, b: int): int {
    if a <= b then a else b
  }

  function Max(a: int, b: int): int {
    if a >= b then a else b
  }

  /** `n` zeros. */
  function Zeros(n: nat): (z: seq<real>)
    ensures |z| == n
  {
    seq(n, _ => 0.0)
  }

  /** Sum of a sequence, peeling the first element. */
  function Sum(s: seq<real>): real {
    if |s| == 0 then 0.0 else s[0] + Sum(s[1..])
  }

  /** Multiplies every element by `c`. */
  function Scale(c: real, s: seq<real>): (r: seq<real>)
    ensures |r| == |s|
    ensures forall i :: 0 <= i < |s| ==> r[i] == c * s[i]
  {
    seq(|s|, i requires 0 <= i < |s| => c * s[i])
  }

  /** The sum of a non-empty sequence peels off its last element too. */
  lemma {:induction false} SumLast(s: seq<real>)
    requires |s| >= 1
    ensures Sum(s) == Sum(s[..|s| - 1]) + s[|s| - 1]
  {
    if |s| > 1 {
      SumLast(s[1..]);
      assert s[..|s| - 1][1..] == s[1..][..|s| - 2];
    }
  }

  lemma MulMonotone(i: nat, j: nat, k: nat)
    requires i <= j
    ensures i * k <= j * k
  {
  }
}
