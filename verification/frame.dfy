/** One correlogram frame: the window and FFT sizing, the placement of the
    windowed segment in a zero buffer, its autocorrelation, the clipping of
    negative values, and the per-channel "good row" normalisation.

    The FFT round trip `real(ifft(fft(f) * conj(fft(f))))` is modelled by
    the value it equals, the circular autocorrelation of the buffer; the
    window values and the reciprocal square root are inputs. */
module CorrelogramFrame {
  import opened Common

  /** A function that is positive on positive reals: the model's stand-in
      for `x -> 1 / sqrt(x)`. */
  type PositiveFn = f: real -> real | forall x :: 0.0 < x ==> 0.0 < f(x)
    witness (x: real) => 1.0

  // ---------------------------------------------------------------------
  // Sizes.

  function Pow2(e: nat): (p: nat)
    ensures p >= 1
  {
    if e == 0 then 1 else 2 * Pow2(e - 1)
  }

  lemma {:induction false} Pow2Monotone(d: nat, e: nat)
    requires d <= e
    ensures Pow2(d) <= Pow2(e)
    decreases e - d
  {
    if d < e {
      Pow2Monotone(d, e - 1);
    }
  }

  /** The least exponent, from `e` upward, whose power of two reaches `n`. */
  function CeilLog2From(n: nat, e: nat): (r: nat)
    requires e == 0 || Pow2(e - 1) < n
    ensures r >= e && Pow2(r) >= n && (r == 0 || Pow2(r - 1) < n)
    decreases n - Pow2(e)
  {
    if Pow2(e) >= n then e else CeilLog2From(n, e + 1)
  }

  /** A window length of 0 means the whole signal: the effective window
      is the given length when there is one, else the signal's length. */
  function WindowLength(dataLen: nat, winLen: nat): (n: nat)
    ensures winLen > 0 ==> n == winLen
    ensures winLen == 0 ==> n == dataLen
    ensures n == 0 <==> winLen == 0 && dataLen == 0
  {
    if winLen == 0 then dataLen else winLen
  }

  /** The FFT size: the least power of two at least twice the larger of
      the lag count and the window length. */
  function FftSize(picWidth: nat, winLen: nat): (n: nat)
    requires Max(picWidth, winLen) >= 1
    ensures n >= 2 * Max(picWidth, winLen)
    ensures exists e :: Pow2(e) == n
    ensures forall e :: Pow2(e) >= 2 * Max(picWidth, winLen) ==> n <= Pow2(e)
  {
    var target := 2 * Max(picWidth, winLen);
    var r := CeilLog2From(target, 0);
    assert forall e :: Pow2(e) >= target ==> Pow2(r) <= Pow2(e) by {
      forall e: nat | Pow2(e) >= target
        ensures Pow2(r) <= Pow2(e)
      {
        if e < r {
          Pow2Monotone(e, r - 1);
        } else {
          Pow2Monotone(r, e);
        }
      }
    }
    Pow2(r)
  }

  // ---------------------------------------------------------------------
  // The analysed segment.

  /** The samples `row[max(0,start) .. min(|row|, max(0,start)+|window|))`,
      each multiplied by the matching prefix of the window. */
  function WindowedSegment(row: seq<real>, start: int, window: seq<real>): (seg: seq<real>)
    requires Max(0, start) <= |row|
    ensures |seg| == Min(|row|, Max(0, start) + |window|) - Max(0, start)
    ensures |seg| <= |window|
    ensures forall i :: 0 <= i < |seg| ==> seg[i] == row[Max(0, start) + i] * window[i]
  {
    var first := Max(0, start);
    var last := Min(|row|, first + |window|);
    seq(last - first, i requires 0 <= i < last - first => row[first + i] * window[i])
  }

  /** The segment at the front of a zero buffer of `n` samples. */
  function Buffer(seg: seq<real>, n: nat): (f: seq<real>)
    requires |seg| <= n
    ensures |f| == n
    ensures forall i :: 0 <= i < n ==> f[i] == (if i < |seg| then seg[i] else 0.0)
  {
    seg + Zeros(n - |seg|)
  }

  // ---------------------------------------------------------------------
  // Autocorrelation.

  /** `sum_{i<n} s[i] * s[i+k]`. */
  function LagProducts(s: seq<real>, k: nat, n: nat): real
    requires n + k <= |s|
  {
    if n == 0 then 0.0 else LagProducts(s, k, n - 1) + s[n - 1] * s[n - 1 + k]
  }

  /** The (linear) autocorrelation of a finite segment at lag `k`. */
  function Autocorrelation(seg: seq<real>, k: nat): real {
    if k < |seg| then LagProducts(seg, k, |seg| - k) else 0.0
  }

  /** `sum_{i<n} f[i] * f[(i+k) mod |f|]`. */
  function CircularLagProducts(f: seq<real>, k: nat, n: nat): real
    requires 0 < |f| && n <= |f|
  {
    if n == 0 then 0.0
    else CircularLagProducts(f, k, n - 1) + f[n - 1] * f[(n - 1 + k) % |f|]
  }

  /** The circular autocorrelation of a buffer at lag `k`: what the inverse
      FFT of the power spectrum holds at index `k`. */
  function CircularAutocorrelation(f: seq<real>, k: nat): real
    requires 0 < |f|
  {
    CircularLagProducts(f, k, |f|)
  }

  /** One term of the circular sum over the zero-padded buffer: the
      product of a segment sample and the sample `k` later, or zero when
      either lies past the segment. */
  lemma CircularTerm(seg: seq<real>, f: seq<real>, k: nat, i: nat)
    requires |seg| + k <= |f| && i < |f|
    requires forall j :: 0 <= j < |f| ==> f[j] == (if j < |seg| then seg[j] else 0.0)
    ensures f[i] * f[(i + k) % |f|] == (if i + k < |seg| then seg[i] * seg[i + k] else 0.0)
  {
    if i < |seg| {
      assert i + k < |f|;
      assert (i + k) % |f| == i + k;
      if i + k >= |seg| {
        assert f[i + k] == 0.0;
      }
    } else {
      assert f[i] == 0.0;
    }
  }

  lemma {:induction false} CircularPrefix(seg: seq<real>, f: seq<real>, k: nat, n: nat)
    requires 0 < |f| && k < |seg| && |seg| + k <= |f| && n <= |f|
    requires forall i :: 0 <= i < |f| ==> f[i] == (if i < |seg| then seg[i] else 0.0)
    ensures CircularLagProducts(f, k, n) == LagProducts(seg, k, Min(n, |seg| - k))
  {
    if n > 0 {
      CircularPrefix(seg, f, k, n - 1);
      CircularTerm(seg, f, k, n - 1);
    }
  }

  lemma {:induction false} CircularPastSegment(seg: seq<real>, f: seq<real>, k: nat, n: nat)
    requires 0 < |f| && |seg| <= k && |seg| + k <= |f| && n <= |f|
    requires forall i :: 0 <= i < |f| ==> f[i] == (if i < |seg| then seg[i] else 0.0)
    ensures CircularLagProducts(f, k, n) == 0.0
  {
    if n > 0 {
      CircularPastSegment(seg, f, k, n - 1);
      CircularTerm(seg, f, k, n - 1);
    }
  }

  /** No wrap-around: when the buffer has room for the segment followed by
      `k` zeros, the circular autocorrelation at lag `k` is the linear
      autocorrelation of the segment alone. */
  lemma NoWrapAround(seg: seq<real>, n: nat, k: nat)
    requires 0 < n && |seg| + k <= n
    ensures CircularAutocorrelation(Buffer(seg, n), k) == Autocorrelation(seg, k)
  {
    if k < |seg| {
      CircularPrefix(seg, Buffer(seg, n), k, n);
    } else {
      CircularPastSegment(seg, Buffer(seg, n), k, n);
    }
  }

  /** `sum_{i<n} s[i+k]^2`: the energy of `n` samples from `k`. */
  function ShiftedEnergy(s: seq<real>, k: nat, n: nat): real
    requires n + k <= |s|
  {
    if n == 0 then 0.0 else ShiftedEnergy(s, k, n - 1) + s[n - 1 + k] * s[n - 1 + k]
  }

  lemma {:induction false} EnergyNonNegative(s: seq<real>, k: nat, n: nat)
    requires n + k <= |s|
    ensures ShiftedEnergy(s, k, n) >= 0.0
  {
    if n > 0 {
      EnergyNonNegative(s, k, n - 1);
    }
  }

  /** The energy of the first `k + n` samples splits at `k`. */
  lemma {:induction false} EnergySplit(s: seq<real>, k: nat, n: nat)
    requires n + k <= |s|
    ensures ShiftedEnergy(s, 0, k) + ShiftedEnergy(s, k, n) == ShiftedEnergy(s, 0, k + n)
  {
    if n > 0 {
      EnergySplit(s, k, n - 1);
    }
  }

  /** At lag 0 the lag products are the energy. */
  lemma {:induction false} LagZeroIsEnergy(s: seq<real>, n: nat)
    requires n <= |s|
    ensures LagProducts(s, 0, n) == ShiftedEnergy(s, 0, n)
  {
    if n > 0 {
      LagZeroIsEnergy(s, n - 1);
    }
  }

  lemma TwoProducts(a: real, b: real)
    ensures 2.0 * (a * b) <= a * a + b * b
  {
  }

  /** Twice the lag products are bounded by the energies of the two
      overlapping stretches. */
  lemma {:induction false} CrossBound(s: seq<real>, k: nat, n: nat)
    requires n + k <= |s|
    ensures 2.0 * LagProducts(s, k, n) <= ShiftedEnergy(s, 0, n) + ShiftedEnergy(s, k, n)
  {
    if n > 0 {
      CrossBound(s, k, n - 1);
      TwoProducts(s[n - 1], s[n - 1 + k]);
    }
  }

  /** An autocorrelation peaks at lag 0: no lag exceeds the energy. */
  lemma AutocorrelationPeak(seg: seq<real>, k: nat)
    ensures 0.0 <= Autocorrelation(seg, 0)
    ensures Autocorrelation(seg, k) <= Autocorrelation(seg, 0)
  {
    var len := |seg|;
    LagZeroIsEnergy(seg, len);
    EnergyNonNegative(seg, 0, len);
    if 0 < k < len {
      var n := len - k;
      CrossBound(seg, k, n);
      EnergySplit(seg, k, n);
      EnergySplit(seg, n, k);
      EnergyNonNegative(seg, 0, k);
      EnergyNonNegative(seg, n, k);
    }
  }

  // ---------------------------------------------------------------------
  // Clipping and normalisation.

  function Max0(v: real): real {
    if v > 0.0 then v else 0.0
  }

  /** The first `w` lags of the segment's autocorrelation, negatives
      clipped to zero. */
  function ClippedAutocorrelation(seg: seq<real>, w: nat): (pic: seq<real>)
    ensures |pic| == w
    ensures w >= 1 ==> PeakedAtZero(pic)
  {
    var pic := seq(w, k requires 0 <= k < w => Max0(Autocorrelation(seg, k)));
    assert w >= 1 ==> PeakedAtZero(pic) by {
      forall k | 0 <= k < w
        ensures pic[k] <= Max0(Autocorrelation(seg, 0))
      {
        AutocorrelationPeak(seg, k);
      }
    }
    pic
  }

  /** A non-negative row none of whose lags exceeds lag 0. */
  predicate PeakedAtZero(row: seq<real>) {
    |row| >= 1 && forall k :: 0 <= k < |row| ==> 0.0 <= row[k] <= row[0]
  }

  /** A row peaks at lag 0: positive there and above lags 1 and 2. */
  predicate GoodRow(pic: seq<real>)
    requires |pic| >= 3
  {
    pic[0] > 0.0 && pic[0] > pic[1] && pic[0] > pic[2]
  }

  /** A good row multiplied by `rsqrt(pic[0])`; any other row zeroed. */
  function NormaliseRow(pic: seq<real>, rsqrt: PositiveFn): (r: seq<real>)
    requires |pic| >= 3
    requires forall k :: 0 <= k < |pic| ==> pic[k] >= 0.0
    ensures |r| == |pic|
    ensures forall k :: 0 <= k < |r| ==> r[k] >= 0.0
    ensures !GoodRow(pic) ==> forall k :: 0 <= k < |r| ==> r[k] == 0.0
    ensures GoodRow(pic) ==> rsqrt(pic[0]) > 0.0 && r == Scale(rsqrt(pic[0]), pic)
    ensures GoodRow(pic) ==> GoodRow(r)
    ensures PeakedAtZero(pic) ==> PeakedAtZero(r)
  {
    if GoodRow(pic) then
      ScaleGoodRow(rsqrt(pic[0]), pic);
      ScalePeaked(rsqrt(pic[0]), pic);
      Scale(rsqrt(pic[0]), pic)
    else
      Zeros(|pic|)
  }

  /** With the true reciprocal square root, normalising a good row turns
      its lag 0 into the square root of its energy: if `s` is the positive
      square root of `pic[0]` and `rsqrt(pic[0])` its reciprocal, the
      normalised lag 0 is `s`. */
  lemma NormalisedLagZero(pic: seq<real>, rsqrt: PositiveFn, s: real)
    requires |pic| >= 3 && GoodRow(pic)
    requires forall k :: 0 <= k < |pic| ==> pic[k] >= 0.0
    requires s > 0.0 && s * s == pic[0] && rsqrt(pic[0]) * s == 1.0
    ensures NormaliseRow(pic, rsqrt)[0] == s
  {
    ScaledLagZero(rsqrt(pic[0]), pic, s);
  }

  /** Scaling by the reciprocal of `s` turns a lag 0 of `s * s` into `s`. */
  lemma ScaledLagZero(c: real, pic: seq<real>, s: real)
    requires |pic| >= 1 && s * s == pic[0] && c * s == 1.0
    ensures Scale(c, pic)[0] == s
  {
    assert c * pic[0] == (c * s) * s;
  }

  /** A positive factor keeps a row non-negative and keeps it good. */
  lemma ScaleGoodRow(c: real, pic: seq<real>)
    requires c > 0.0 && |pic| >= 3 && GoodRow(pic)
    requires forall k :: 0 <= k < |pic| ==> pic[k] >= 0.0
    ensures forall k :: 0 <= k < |pic| ==> Scale(c, pic)[k] >= 0.0
    ensures GoodRow(Scale(c, pic))
  {
  }

  /** A positive factor keeps a row peaked at lag 0. */
  lemma ScalePeaked(c: real, pic: seq<real>)
    requires c > 0.0
    ensures PeakedAtZero(pic) ==> PeakedAtZero(Scale(c, pic))
  {
  }

  lemma PositiveScaleKeepsOrder(c: real, a: real, b: real)
    requires c > 0.0 && a > b
    ensures c * a > c * b
  {
  }

  lemma PositiveScaleKeepsSign(c: real, a: real)
    requires c > 0.0 && a >= 0.0
    ensures c * a >= 0.0
  {
  }

  // ---------------------------------------------------------------------
  // The frame.

  /** One channel's row as the FFT path computes it: the circular
      autocorrelation of the `n`-sample buffer, clipped, first `w` lags.
      Because the buffer leaves room for every lag without wrapping
      around, this is the clipped linear autocorrelation. */
  function FftRow(seg: seq<real>, n: nat, w: nat): (pic: seq<real>)
    requires |seg| <= n && 0 < n && w <= n
    ensures |pic| == w
    ensures forall k :: 0 <= k < w ==> pic[k] >= 0.0
    ensures |seg| + w <= n ==> pic == ClippedAutocorrelation(seg, w)
  {
    var f := Buffer(seg, n);
    var pic := seq(w, k requires 0 <= k < w => Max0(CircularAutocorrelation(f, k)));
    assert |seg| + w <= n ==> pic == ClippedAutocorrelation(seg, w) by {
      if |seg| + w <= n {
        forall k | 0 <= k < w
          ensures pic[k] == ClippedAutocorrelation(seg, w)[k]
        {
          NoWrapAround(seg, n, k);
        }
      }
    }
    pic
  }

  /** One frame of the correlogram of the channel rows `data` (each of
      `dataLen` samples): `picWidth` lags per channel, analysing the
      samples from `start` over a window of `winLen` samples (0 meaning
      the whole signal) whose values are `window`. */
  function Frame(data: seq<seq<real>>, dataLen: nat, picWidth: nat, start: int, winLen: nat,
                 window: seq<real>, rsqrt: PositiveFn): (r: Result<seq<seq<real>>>)
    requires forall c :: 0 <= c < |data| ==> |data[c]| == dataLen
    requires |window| == WindowLength(dataLen, winLen)
    requires Max(0, start) <= dataLen
    ensures Max(picWidth, WindowLength(dataLen, winLen)) == 0 ==> r.Err? && r.error.ValueError?
    ensures picWidth > 0 && WindowLength(dataLen, winLen) == 0 ==> r.Err? && r.error.ZeroDivisionError?
    ensures WindowLength(dataLen, winLen) > 0 && picWidth < 3 ==> r.Err? && r.error.IndexError?
    ensures r.Ok? <==> WindowLength(dataLen, winLen) > 0 && picWidth >= 3
    ensures r.Ok? ==> |r.value| == |data|
    ensures r.Ok? ==> forall c :: 0 <= c < |data| ==>
              |r.value[c]| == picWidth && forall k :: 0 <= k < picWidth ==> r.value[c][k] >= 0.0
    ensures r.Ok? ==> forall c :: 0 <= c < |data| ==> PeakedAtZero(r.value[c])
    ensures r.Ok? ==> forall c :: 0 <= c < |data| ==>
              r.value[c] == NormaliseRow(ClippedAutocorrelation(WindowedSegment(data[c], start, window), picWidth), rsqrt)
  {
    var w := WindowLength(dataLen, winLen);
    if Max(picWidth, w) == 0 then
      Err(ValueError("math domain error"))
    else if w == 0 then
      Err(ZeroDivisionError("float division by zero"))
    else
      var n := FftSize(picWidth, w);
      if picWidth < 3 then
        Err(IndexError("index 2 is out of bounds"))
      else
        var rows := seq(|data|, c requires 0 <= c < |data| =>
                      NormaliseRow(FftRow(WindowedSegment(data[c], start, window), n, picWidth), rsqrt));
        FrameRows(data, start, window, n, picWidth, rsqrt, rows);
        Ok(rows)
  }

  lemma FrameRows(data: seq<seq<real>>, start: int, window: seq<real>, n: nat, picWidth: nat,
                  rsqrt: PositiveFn, rows: seq<seq<real>>)
    requires forall c :: 0 <= c < |data| ==> Max(0, start) <= |data[c]|
    requires picWidth >= 3 && n >= 2 * Max(picWidth, |window|)
    requires rows == seq(|data|, c requires 0 <= c < |data| =>
                       NormaliseRow(FftRow(WindowedSegment(data[c], start, window), n, picWidth), rsqrt))
    ensures forall c :: 0 <= c < |data| ==>
              rows[c] == NormaliseRow(ClippedAutocorrelation(WindowedSegment(data[c], start, window), picWidth), rsqrt)
  {
  }
}
