/** The correlogram movie: frame `i` analyses the channels from sample
    `i * increment` over a window of four increments, and the frames are
    collected in increasing `i`. */
module CorrelogramArray {
  import opened Common
  import opened CorrelogramFrame

  /** Python's `int(a / b)` for a positive integer divisor: the quotient
      truncated toward zero. */
  function TruncDiv(a: int, b: nat): (q: int)
    requires b > 0
    ensures a >= 0 ==> q >= 0 && q * b <= a < (q + 1) * b
    ensures a < 0 ==> q <= 0 && -a - b < -q * b <= -a
  {
    if a >= 0 then
      DivBounds(a, b);
      a / b
    else
      DivBounds(-a, b);
      -((-a) / b)
  }

  /** Euclidean division of naturals brackets the dividend. */
  lemma DivBounds(a: nat, b: nat)
    requires b > 0
    ensures a / b >= 0 && (a / b) * b <= a < (a / b + 1) * b
  {
    var q := a / b;
    assert a == q * b + a % b;
    assert (q + 1) * b == q * b + b;
  }

  /** `int(sampling_rate / frame_rate)`: the samples between frame starts. */
  function FrameIncrement(sr: real, frameRate: nat): (inc: nat)
    requires sr > 0.0 && frameRate > 0
    ensures inc as real * frameRate as real <= sr < (inc + 1) as real * frameRate as real
  {
    FloorOfQuotient(sr, frameRate);
    (sr / frameRate as real).Floor
  }

  /** The floor of a positive quotient brackets the dividend between two
      multiples of the divisor. */
  lemma FloorOfQuotient(n: real, k: nat)
    requires n > 0.0 && k > 0
    ensures (n / k as real).Floor >= 0
    ensures (n / k as real).Floor as real * k as real <= n < ((n / k as real).Floor + 1) as real * k as real
  {
    var kr := k as real;
    var q := n / kr;
    assert q * kr == n;
    Bracket(q, kr, n, q.Floor);
  }

  /** `f <= q < f + 1` and `q * k == n` place `n` between `f * k` and
      `(f + 1) * k`. */
  lemma Bracket(q: real, k: real, n: real, f: int)
    requires k > 0.0 && q * k == n && f as real <= q < (f + 1) as real
    ensures f as real * k <= n < (f + 1) as real * k
  {
  }

  lemma RealMulMonotone(x: real, y: real, k: real)
    requires x <= y && k > 0.0
    ensures x * k <= y * k
  {
  }

  lemma RealMulStrict(x: real, y: real, k: real)
    requires x < y && k > 0.0
    ensures x * k < y * k
  {
  }

  /** `int((T - width) / increment) + 1`: when the signal holds at least
      one frame width, the number of starts `i * increment` that leave a
      full width of signal. */
  function FrameCount(dataLen: nat, width: nat, inc: nat): (count: int)
    requires inc > 0
    ensures dataLen >= width ==> count >= 1 && (count - 1) * inc <= dataLen - width < count * inc
    ensures dataLen < width ==> count <= 1 && (count == 1 <==> width - dataLen < inc)
  {
    var q := TruncDiv(dataLen - width, inc);
    if dataLen < width && q < 0 then
      MulMonotone(1, -q, inc);
      q + 1
    else
      q + 1
  }

  /** Every scheduled frame starts inside the signal. */
  lemma StartInsideSignal(dataLen: nat, width: nat, inc: nat, i: nat)
    requires inc > 0 && i < FrameCount(dataLen, width, inc)
    ensures i * inc <= dataLen
  {
    var count := FrameCount(dataLen, width, inc);
    if dataLen >= width {
      assert i * inc <= (count - 1) * inc by {
        MulMonotone(i, count - 1, inc);
      }
    } else {
      assert i == 0;
    }
  }

  /** The whole movie. `data` holds the channel rows of `dataLen` samples,
      `window` the analysis window values for a window of four increments,
      and `rsqrt` the reciprocal square root used to normalise rows.
      Frame `i` is the correlogram frame at start `i * increment`; any
      frame failure stops the loop with that frame's error, and an empty
      movie fails the final concatenation. */
  method CorrelogramArray(data: seq<seq<real>>, dataLen: nat, sr: real, frameRate: nat, width: nat,
                          window: seq<real>, rsqrt: PositiveFn)
    returns (r: Result<seq<seq<seq<real>>>>)
    requires sr > 0.0
    requires forall c :: 0 <= c < |data| ==> |data[c]| == dataLen
    requires frameRate > 0 ==> |window| == 4 * FrameIncrement(sr, frameRate)
    ensures frameRate == 0 ==> r.Err? && r.error.ZeroDivisionError?
    ensures frameRate > 0 && FrameIncrement(sr, frameRate) == 0 ==> r.Err? && r.error.ZeroDivisionError?
    ensures frameRate > 0 && FrameIncrement(sr, frameRate) > 0 ==>
              var inc := FrameIncrement(sr, frameRate);
              var count := FrameCount(dataLen, width, inc);
              && (count <= 0 ==> r.Err? && r.error.RuntimeError?)
              && (count > 0 && width < 3 ==> r.Err? && r.error.IndexError?)
              && (r.Ok? <==> count > 0 && width >= 3)
              && (r.Ok? ==> |r.value| == count)
              && (r.Ok? ==> forall i :: 0 <= i < |r.value| ==>
                    i * inc <= dataLen &&
                    Frame(data, dataLen, width, i * inc, 4 * inc, window, rsqrt) == Ok(r.value[i]))
    ensures r.Ok? ==> frameRate > 0 && FrameIncrement(sr, frameRate) > 0
    ensures r.Ok? ==> forall i, c :: 0 <= i < |r.value| && 0 <= c < |r.value[i]| ==>
              |r.value[i]| == |data| && |r.value[i][c]| == width && PeakedAtZero(r.value[i][c])
  {
    if frameRate == 0 {
      return Err(ZeroDivisionError("float division by zero"));
    }
    var inc := FrameIncrement(sr, frameRate);
    if inc == 0 {
      return Err(ZeroDivisionError("float division by zero"));
    }
    var count := FrameCount(dataLen, width, inc);
    var n: nat := if count > 0 then count else 0;
    var movie: seq<seq<seq<real>>> := [];
    var i: nat := 0;
    while i < n
      invariant i <= n && |movie| == i
      invariant forall k :: 0 <= k < i ==>
                  k * inc <= dataLen &&
                  Frame(data, dataLen, width, k * inc, 4 * inc, window, rsqrt) == Ok(movie[k])
      invariant i > 0 ==> width >= 3
    {
      StartInsideSignal(dataLen, width, inc, i);
      var frame := Frame(data, dataLen, width, i * inc, 4 * inc, window, rsqrt);
      if frame.Err? {
        return Err(frame.error);
      }
      movie := movie + [frame.value];
      i := i + 1;
    }
    if |movie| == 0 {
      return Err(RuntimeError("torch.cat(): expected a non-empty list of Tensors"));
    }
    r := Ok(movie);
  }
}
