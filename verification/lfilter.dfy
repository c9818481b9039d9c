/** The recursive linear filter `lfilter(x, a, b)` that the toolbox
    delegates to, over exact reals: the direct-form difference equation

      y[n] = sum_{k=0..|b|-1, k<=n} b[k] x[n-k] - sum_{k=1..|a|-1, k<=n} a[k] y[n-k]

    with the leading denominator coefficient `a[0]` equal to 1. */
module LinearFilter {
  import opened Common

  /** `sum_{k<m} b[k] * x[n-k]`: the feed-forward part of output `n`. */
  function FeedForward(b: seq<real>, x: seq<real>, n: nat, m: nat): real
    requires m <= |b| && m <= n + 1 && n < |x|
  {
    if m == 0 then 0.0 else FeedForward(b, x, n, m - 1) + b[m - 1] * x[n - (m - 1)]
  }

  /** `sum_{k=1..m} a[k] * y[|y|-k]`: the feedback part of the output that
      follows the outputs `y` computed so far. */
  function Feedback(a: seq<real>, y: seq<real>, m: nat): real
    requires m < |a| && m <= |y|
  {
    if m == 0 then 0.0 else Feedback(a, y, m - 1) + a[m] * y[|y| - m]
  }

  /** The leading denominator coefficient is 1 (torchaudio divides by it). */
  predicate Normalised(a: seq<real>) {
    |a| >= 1 && a[0] == 1.0
  }

  /** The filter output, built sample by sample from the front. Its
      content is stated by LFilterRecurrence and LFilterPrefix. */
  function LFilter(b: seq<real>, a: seq<real>, x: seq<real>): (y: seq<real>)
    requires Normalised(a)
    ensures |y| == |x|
    decreases |x|
  {
    if |x| == 0 then []
    else
      var prev := LFilter(b, a, x[..|x| - 1]);
      prev + [FeedForward(b, x, |x| - 1, Min(|b|, |x|)) - Feedback(a, prev, Min(|a| - 1, |prev|))]
  }

  /** Feed-forward sums read only the input up to the current sample. */
  lemma {:induction false} FeedForwardCausal(b: seq<real>, x: seq<real>, n: nat, m: nat, p: nat)
    requires m <= |b| && m <= n + 1 && n < p <= |x|
    ensures FeedForward(b, x[..p], n, m) == FeedForward(b, x, n, m)
  {
    if m > 0 {
      FeedForwardCausal(b, x, n, m - 1, p);
    }
  }

  /** The filter is causal: a prefix of the output is the output of the
      same prefix of the input. */
  lemma {:induction false} LFilterPrefix(b: seq<real>, a: seq<real>, x: seq<real>, p: nat)
    requires Normalised(a) && p <= |x|
    ensures LFilter(b, a, x)[..p] == LFilter(b, a, x[..p])
    decreases |x|
  {
    if p < |x| {
      var init := x[..|x| - 1];
      LFilterPrefix(b, a, init, p);
      assert init[..p] == x[..p];
      assert LFilter(b, a, x)[..|x| - 1] == LFilter(b, a, init);
    } else {
      assert x[..p] == x;
    }
  }

  /** Every output sample satisfies the difference equation. */
  lemma LFilterRecurrence(b: seq<real>, a: seq<real>, x: seq<real>, n: nat)
    requires Normalised(a) && n < |x|
    ensures LFilter(b, a, x)[n] ==
              FeedForward(b, x, n, Min(|b|, n + 1)) - Feedback(a, LFilter(b, a, x)[..n], Min(|a| - 1, n))
  {
    var y := LFilter(b, a, x);
    var xp := x[..n + 1];
    LFilterPrefix(b, a, x, n + 1);
    LFilterPrefix(b, a, x, n);
    assert xp[..|xp| - 1] == x[..n];
    FeedForwardCausal(b, x, n, Min(|b|, n + 1), n + 1);
    assert y[n] == y[..n + 1][n];
  }

  // ---------------------------------------------------------------------
  // Linearity: a scaled numerator or a scaled input scales the output.

  lemma {:induction false} FeedForwardScaleNumerator(c: real, b: seq<real>, x: seq<real>, n: nat, m: nat)
    requires m <= |b| && m <= n + 1 && n < |x|
    ensures FeedForward(Scale(c, b), x, n, m) == c * FeedForward(b, x, n, m)
  {
    if m > 0 {
      FeedForwardScaleNumerator(c, b, x, n, m - 1);
    }
  }

  lemma {:induction false} FeedForwardScaleInput(c: real, b: seq<real>, x: seq<real>, n: nat, m: nat)
    requires m <= |b| && m <= n + 1 && n < |x|
    ensures FeedForward(b, Scale(c, x), n, m) == c * FeedForward(b, x, n, m)
  {
    if m > 0 {
      FeedForwardScaleInput(c, b, x, n, m - 1);
    }
  }

  lemma {:induction false} FeedbackScale(c: real, a: seq<real>, y: seq<real>, m: nat)
    requires m < |a| && m <= |y|
    ensures Feedback(a, Scale(c, y), m) == c * Feedback(a, y, m)
  {
    if m > 0 {
      FeedbackScale(c, a, y, m - 1);
    }
  }

  /** A sample `p - q` appended to an output, with both parts scaled, is
      the scaled output with that sample appended. */
  lemma NextSampleScaled(c: real, prev: seq<real>, sprev: seq<real>, p: real, q: real, sp: real, sq: real)
    requires sprev == Scale(c, prev) && sp == c * p && sq == c * q
    ensures sprev + [sp - sq] == Scale(c, prev + [p - q])
  {
    assert sp - sq == c * (p - q);
    var rhs := Scale(c, prev + [p - q]);
    assert forall i :: 0 <= i < |rhs| ==> rhs[i] == (sprev + [sp - sq])[i];
  }

  /** The output extended by one sample, with a scaled numerator, is the
      scaled output extended by one sample. */
  lemma NextSampleScaleNumerator(c: real, b: seq<real>, a: seq<real>, x: seq<real>, prev: seq<real>, sprev: seq<real>)
    requires Normalised(a) && |x| > 0 && |prev| == |x| - 1 && sprev == Scale(c, prev)
    ensures sprev + [FeedForward(Scale(c, b), x, |x| - 1, Min(|b|, |x|)) - Feedback(a, sprev, Min(|a| - 1, |prev|))]
            == Scale(c, prev + [FeedForward(b, x, |x| - 1, Min(|b|, |x|)) - Feedback(a, prev, Min(|a| - 1, |prev|))])
  {
    var m := Min(|b|, |x|);
    var k := Min(|a| - 1, |prev|);
    var p := FeedForward(b, x, |x| - 1, m);
    var q := Feedback(a, prev, k);
    var sp := FeedForward(Scale(c, b), x, |x| - 1, m);
    var sq := Feedback(a, sprev, k);
    assert sp == c * p by {
      FeedForwardScaleNumerator(c, b, x, |x| - 1, m);
    }
    assert sq == c * q by {
      FeedbackScale(c, a, prev, k);
    }
    NextSampleScaled(c, prev, sprev, p, q, sp, sq);
  }

  /** The output extended by one sample, for a scaled input, is the scaled
      output extended by one sample. */
  lemma NextSampleScaleInput(c: real, b: seq<real>, a: seq<real>, x: seq<real>, sx: seq<real>,
                             prev: seq<real>, sprev: seq<real>)
    requires Normalised(a) && |x| > 0 && sx == Scale(c, x)
    requires |prev| == |x| - 1 && sprev == Scale(c, prev)
    ensures sprev + [FeedForward(b, sx, |x| - 1, Min(|b|, |x|)) - Feedback(a, sprev, Min(|a| - 1, |prev|))]
            == Scale(c, prev + [FeedForward(b, x, |x| - 1, Min(|b|, |x|)) - Feedback(a, prev, Min(|a| - 1, |prev|))])
  {
    var m := Min(|b|, |x|);
    var k := Min(|a| - 1, |prev|);
    var p := FeedForward(b, x, |x| - 1, m);
    var q := Feedback(a, prev, k);
    var sp := FeedForward(b, sx, |x| - 1, m);
    var sq := Feedback(a, sprev, k);
    assert sp == c * p by {
      FeedForwardScaleInput(c, b, x, |x| - 1, m);
    }
    assert sq == c * q by {
      FeedbackScale(c, a, prev, k);
    }
    NextSampleScaled(c, prev, sprev, p, q, sp, sq);
  }

  /** Dividing the numerator by a gain divides the whole output by it. */
  lemma {:induction false} LFilterScaleNumerator(c: real, b: seq<real>, a: seq<real>, x: seq<real>)
    requires Normalised(a)
    ensures LFilter(Scale(c, b), a, x) == Scale(c, LFilter(b, a, x))
    decreases |x|
  {
    if |x| > 0 {
      var init := x[..|x| - 1];
      LFilterScaleNumerator(c, b, a, init);
      NextSampleScaleNumerator(c, b, a, x, LFilter(b, a, init), LFilter(Scale(c, b), a, init));
    }
  }

  /** A filter commutes with scaling of its input. */
  lemma {:induction false} LFilterScaleInput(c: real, b: seq<real>, a: seq<real>, x: seq<real>)
    requires Normalised(a)
    ensures LFilter(b, a, Scale(c, x)) == Scale(c, LFilter(b, a, x))
    decreases |x|
  {
    if |x| > 0 {
      var init := x[..|x| - 1];
      var sx := Scale(c, x);
      assert sx[..|sx| - 1] == Scale(c, init) by {
        assert forall i :: 0 <= i < |init| ==> sx[..|sx| - 1][i] == Scale(c, init)[i];
      }
      LFilterScaleInput(c, b, a, init);
      NextSampleScaleInput(c, b, a, x, sx, LFilter(b, a, init), LFilter(b, a, Scale(c, init)));
    }
  }

  // ---------------------------------------------------------------------
  // The moving sum used by the pitch picker: numerator all ones,
  // denominator a unit impulse.

  function Ones(n: nat): (s: seq<real>)
    ensures |s| == n
  {
    seq(n, _ => 1.0)
  }

  /** `[1, 0, ..., 0]` of length `n`. */
  function UnitImpulse(n: nat): (s: seq<real>)
    requires n >= 1
    ensures |s| == n && Normalised(s)
  {
    [1.0] + Zeros(n - 1)
  }

  lemma {:induction false} FeedbackOfImpulse(len: nat, y: seq<real>, m: nat)
    requires len >= 1 && m < len && m <= |y|
    ensures Feedback(UnitImpulse(len), y, m) == 0.0
  {
    if m > 0 {
      FeedbackOfImpulse(len, y, m - 1);
    }
  }

  lemma {:induction false} FeedForwardOfOnes(len: nat, x: seq<real>, n: nat, m: nat)
    requires m <= len && m <= n + 1 && n < |x|
    ensures FeedForward(Ones(len), x, n, m) == Sum(x[n + 1 - m..n + 1])
  {
    if m > 0 {
      FeedForwardOfOnes(len, x, n, m - 1);
      var w := x[n + 1 - m..n + 1];
      assert w[1..] == x[n + 1 - (m - 1)..n + 1];
    }
  }

  /** With numerator `ones(len)` and denominator `[1, 0, ..., 0]` the filter
      is a moving sum: output `i` is the sum of the last `min(i+1, len)`
      inputs up to and including `x[i]`. */
  lemma MovingSum(len: nat, x: seq<real>, i: nat)
    requires len >= 1 && i < |x|
    ensures LFilter(Ones(len), UnitImpulse(len), x)[i] == Sum(x[i + 1 - Min(len, i + 1)..i + 1])
  {
    LFilterRecurrence(Ones(len), UnitImpulse(len), x, i);
    FeedForwardOfOnes(len, x, i, Min(len, i + 1));
    FeedbackOfImpulse(len, LFilter(Ones(len), UnitImpulse(len), x)[..i], Min(len - 1, i));
  }
}
