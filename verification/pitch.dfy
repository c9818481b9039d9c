/** The pitch and salience picker. For each correlogram frame: sum the
    channels into a summary over lags, smooth it with a 16-tap moving sum,
    find the first lag (at or past 16) where the smoothed summary rises,
    zero the lags before it, the lags below the high-pitch limit and the
    lags from the low-pitch limit on, and take the first largest lag left. */
module CorrelogramPitch {
  import opened Common
  import opened Tensors
  import opened LinearFilter
  import opened CorrelogramFrame

  /** The length of the moving sum, and of the forced-flat start of its
      first difference. */
  const SmoothingLength: nat := 16

  // ---------------------------------------------------------------------
  // Search limits.

  /** `math.ceil`. */
  function Ceil(x: real): (c: int)
    ensures (c - 1) as real < x <= c as real
  {
    -((-x).Floor)
  }

  /** `int(sr / high_pitch)`: lags below this are pitches above the limit. */
  function DropLow(sr: real, high: real): (d: nat)
    requires sr > 0.0 && high > 0.0
    ensures d as real <= sr / high < (d + 1) as real
  {
    (sr / high).Floor
  }

  /** The first lag excluded at the long end: the least lag at or above
      `sr / low_pitch`, capped at `width`; just `width` without a low
      pitch limit. */
  function DropHigh(sr: real, low: real, width: nat): (d: nat)
    requires sr > 0.0
    ensures low <= 0.0 ==> d == width
    ensures low > 0.0 ==> d <= width
    ensures low > 0.0 && d < width ==> (d - 1) as real < sr / low <= d as real
    ensures low > 0.0 && d == width ==> (width - 1) as real < sr / low
  {
    if low > 0.0 then Min(width, Ceil(sr / low)) else width
  }

  // ---------------------------------------------------------------------
  // The summary over channels.

  /** `sum_c rows[c][k]`. */
  function ColumnSum(rows: seq<seq<real>>, k: nat): real
    requires forall c :: 0 <= c < |rows| ==> k < |rows[c]|
  {
    if |rows| == 0 then 0.0 else ColumnSum(rows[..|rows| - 1], k) + rows[|rows| - 1][k]
  }

  lemma {:induction false} ColumnSumNonNegative(rows: seq<seq<real>>, k: nat)
    requires forall c :: 0 <= c < |rows| ==> k < |rows[c]| && rows[c][k] >= 0.0
    ensures ColumnSum(rows, k) >= 0.0
  {
    if |rows| > 0 {
      ColumnSumNonNegative(rows[..|rows| - 1], k);
    }
  }

  /** The values of every channel at lag `k`: `frame[:, k]`. */
  function LagValues(rows: seq<seq<real>>, k: nat): (v: seq<real>)
    requires forall c :: 0 <= c < |rows| ==> k < |rows[c]|
    ensures |v| == |rows|
  {
    seq(|rows|, c requires 0 <= c < |rows| => rows[c][k])
  }

  /** The running column sum is the sum of the lag's channel values. */
  lemma {:induction false} ColumnSumIsSum(rows: seq<seq<real>>, k: nat)
    requires forall c :: 0 <= c < |rows| ==> k < |rows[c]|
    ensures ColumnSum(rows, k) == Sum(LagValues(rows, k))
  {
    if |rows| > 0 {
      var init := rows[..|rows| - 1];
      ColumnSumIsSum(init, k);
      var v := LagValues(rows, k);
      SumLast(v);
      assert v[..|v| - 1] == LagValues(init, k);
    }
  }

  /** The frame summed across its channel rows, lag by lag: lag `k` of the
      summary is the sum over channels of their lag-`k` values. */
  function Summary(rows: seq<seq<real>>, len: nat): (s: seq<real>)
    requires forall c :: 0 <= c < |rows| ==> |rows[c]| == len
    ensures |s| == len
    ensures forall k :: 0 <= k < len ==> s[k] == Sum(LagValues(rows, k))
  {
    var s := seq(len, k requires 0 <= k < len => ColumnSum(rows, k));
    assert forall k :: 0 <= k < len ==> s[k] == Sum(LagValues(rows, k)) by {
      forall k | 0 <= k < len
        ensures s[k] == Sum(LagValues(rows, k))
      {
        ColumnSumIsSum(rows, k);
      }
    }
    s
  }

  /** A frame of non-negative values (as the correlogram produces) has a
      non-negative summary. */
  lemma SummaryNonNegative(rows: seq<seq<real>>, len: nat)
    requires forall c :: 0 <= c < |rows| ==> |rows[c]| == len
    requires forall c, k :: 0 <= c < |rows| && 0 <= k < len ==> rows[c][k] >= 0.0
    ensures forall k :: 0 <= k < len ==> Summary(rows, len)[k] >= 0.0
  {
    forall k | 0 <= k < len
      ensures Summary(rows, len)[k] >= 0.0
    {
      ColumnSumNonNegative(rows, k);
    }
  }

  /** Channel rows that each peak at lag 0 give a summary that does too. */
  lemma {:induction false} ColumnSumPeak(rows: seq<seq<real>>, len: nat, k: nat)
    requires k < len
    requires forall c :: 0 <= c < |rows| ==> |rows[c]| == len && PeakedAtZero(rows[c])
    ensures 0.0 <= ColumnSum(rows, k) <= ColumnSum(rows, 0)
  {
    if |rows| > 0 {
      ColumnSumPeak(rows[..|rows| - 1], len, k);
      var last := rows[|rows| - 1];
      assert 0.0 <= last[k] <= last[0];
    }
  }

  // ---------------------------------------------------------------------
  // Smoothing and the valley.

  /** The summary filtered by numerator `ones(16)` over denominator
      `[1, 0, ..., 0]`: lag `i` holds the sum of the summary over the last
      `min(i + 1, 16)` lags up to `i`. */
  function Smooth(summary: seq<real>): (y: seq<real>)
    ensures |y| == |summary|
    ensures forall i :: 0 <= i < |summary| ==>
              y[i] == Sum(summary[i + 1 - Min(SmoothingLength, i + 1)..i + 1])
  {
    var y := LFilter(Ones(SmoothingLength), UnitImpulse(SmoothingLength), summary);
    assert forall i :: 0 <= i < |summary| ==> y[i] == Sum(summary[i + 1 - Min(SmoothingLength, i + 1)..i + 1]) by {
      forall i | 0 <= i < |summary|
        ensures y[i] == Sum(summary[i + 1 - Min(SmoothingLength, i + 1)..i + 1])
      {
        MovingSum(SmoothingLength, summary, i);
      }
    }
    y
  }

  /** `sumfilt[1:width] - sumfilt[:width-1]` of the smoothed summary, with
      its first 16 entries forced to zero. Past those, entry `j` is the
      summary entering the moving window minus the one leaving it. */
  function Differences(summary: seq<real>, width: nat): (d: seq<real>)
    requires 1 <= width <= |summary|
    ensures |d| == width - 1
    ensures forall j :: 0 <= j < width - 1 && j < SmoothingLength ==> d[j] == 0.0
    ensures forall j :: SmoothingLength <= j < width - 1 ==> d[j] == summary[j + 1] - summary[j - 15]
  {
    var smooth := Smooth(summary);
    var d := seq(width - 1, i requires 0 <= i < width - 1 =>
               if i < SmoothingLength then 0.0 else smooth[i + 1] - smooth[i]);
    assert forall j :: SmoothingLength <= j < width - 1 ==> d[j] == summary[j + 1] - summary[j - 15] by {
      forall j | SmoothingLength <= j < width - 1
        ensures d[j] == summary[j + 1] - summary[j - 15]
      {
        SmoothStep(summary, j);
      }
    }
    d
  }

  /** Past the first 16 lags, the step of the moving sum is the sample
      entering the window minus the sample leaving it. */
  lemma SmoothStep(summary: seq<real>, i: nat)
    requires SmoothingLength <= i && i + 1 < |summary|
    ensures Smooth(summary)[i + 1] - Smooth(summary)[i] == summary[i + 1] - summary[i - 15]
  {
    var y := Smooth(summary);
    var old_ := summary[i - 15..i + 1];
    var new_ := summary[i - 14..i + 2];
    var shared := summary[i - 14..i + 1];
    assert y[i] == Sum(old_) by {
      assert Min(SmoothingLength, i + 1) == SmoothingLength;
    }
    assert y[i + 1] == Sum(new_) by {
      assert Min(SmoothingLength, i + 2) == SmoothingLength;
    }
    assert Sum(old_) == summary[i - 15] + Sum(shared) by {
      assert old_[1..] == shared;
    }
    assert Sum(new_) == Sum(shared) + summary[i + 1] by {
      SumLast(new_);
      assert new_[..|new_| - 1] == shared;
    }
  }

  /** The smoothed summary rises at lag `j`: the lag entering the moving
      window beats the lag leaving it. */
  predicate Rises(summary: seq<real>, j: nat)
    requires SmoothingLength <= j && j + 1 < |summary|
  {
    summary[j + 1] > summary[j - 15]
  }

  /** The index of the first positive entry from `i` on, if any. */
  function FirstPositiveFrom(d: seq<real>, i: nat): (r: Option<nat>)
    requires i <= |d|
    ensures r.Some? ==> i <= r.value < |d| && d[r.value] > 0.0
    ensures r.Some? ==> forall j :: i <= j < r.value ==> d[j] <= 0.0
    ensures r.None? ==> forall j :: i <= j < |d| ==> d[j] <= 0.0
    decreases |d| - i
  {
    if i == |d| then None
    else if d[i] > 0.0 then Some(i)
    else FirstPositiveFrom(d, i + 1)
  }

  /** The first lag where the smoothed summary rises, searched among the
      first `width - 1` differences; none if it never does. */
  function Valley(summary: seq<real>, width: nat): (v: Option<nat>)
    requires 1 <= width <= |summary|
    ensures v.Some? ==> SmoothingLength <= v.value < width - 1 && Rises(summary, v.value)
    ensures v.Some? ==> forall j :: SmoothingLength <= j < v.value ==> !Rises(summary, j)
    ensures v.None? ==> forall j :: SmoothingLength <= j < width - 1 ==> !Rises(summary, j)
  {
    var d := Differences(summary, width);
    var r := FirstPositiveFrom(d, 0);
    assert forall j :: SmoothingLength <= j < width - 1 ==> (d[j] > 0.0 <==> Rises(summary, j));
    r
  }

  // ---------------------------------------------------------------------
  // Masking and the peak.

  /** Python's `s[lo:hi] = 0` for non-negative bounds (clamped to the
      sequence). */
  function ZeroSlice(s: seq<real>, lo: nat, hi: nat): (r: seq<real>)
    ensures |r| == |s|
    ensures forall i :: 0 <= i < |s| ==> r[i] == (if lo <= i < hi then 0.0 else s[i])
  {
    seq(|s|, i requires 0 <= i < |s| => if lo <= i < hi then 0.0 else s[i])
  }

  /** Zeroing two slices in turn zeroes exactly their union and leaves
      every other entry alone, so the order of the slice assignments does
      not matter. */
  lemma ZeroSlicesCommute(s: seq<real>, lo1: nat, hi1: nat, lo2: nat, hi2: nat)
    ensures forall i :: 0 <= i < |s| ==>
              ZeroSlice(ZeroSlice(s, lo1, hi1), lo2, hi2)[i] ==
              (if lo1 <= i < hi1 || lo2 <= i < hi2 then 0.0 else s[i])
    ensures ZeroSlice(ZeroSlice(s, lo1, hi1), lo2, hi2) == ZeroSlice(ZeroSlice(s, lo2, hi2), lo1, hi1)
  {
  }

  /** The lags the peak is searched among: from the valley on, below the
      low-pitch limit, and not in `[1, drop_low)`. */
  predicate Searched(k: nat, valley: nat, dropLow: nat, dropHigh: nat) {
    valley <= k < dropHigh && !(1 <= k < dropLow)
  }

  /** The summary with `[0, valley)`, `[1, drop_low)` and `[drop_high, end)`
      zeroed in turn. */
  function Masked(summary: seq<real>, valley: nat, dropLow: nat, dropHigh: nat): (m: seq<real>)
    ensures |m| == |summary|
    ensures forall k :: 0 <= k < |m| ==>
              m[k] == (if Searched(k, valley, dropLow, dropHigh) then summary[k] else 0.0)
  {
    ZeroSlice(ZeroSlice(ZeroSlice(summary, 0, valley), 1, dropLow), dropHigh, |summary|)
  }

  /** `torch.argmax`: the first index holding the largest value. */
  function ArgMax(s: seq<real>): (p: nat)
    requires |s| >= 1
    ensures p < |s|
    ensures forall i :: 0 <= i < |s| ==> s[i] <= s[p]
    ensures forall i :: 0 <= i < p ==> s[i] < s[p]
    decreases |s|
  {
    if |s| == 1 then 0
    else
      var q := ArgMax(s[..|s| - 1]);
      assert forall i :: 0 <= i < |s| - 1 ==> s[..|s| - 1][i] == s[i];
      if s[|s| - 1] > s[q] then |s| - 1 else q
  }

  /** The lag the picker settles on: IndexError without a valley, else
      the first largest lag of the masked summary. A positive lag is a
      searched lag with a positive value that no searched lag exceeds or,
      before it, equals; lag 0 means no searched lag is positive. */
  function PeakLag(summary: seq<real>, width: nat, dropLow: nat, dropHigh: nat): (r: Result<nat>)
    requires 1 <= width <= |summary|
    ensures r.Err? <==> Valley(summary, width).None?
    ensures r.Err? ==> r.error.IndexError?
    ensures r.Ok? ==> r.value < |summary|
    ensures r.Ok? && r.value > 0 ==>
              var v := Valley(summary, width).value;
              var p := r.value;
              && Searched(p, v, dropLow, dropHigh)
              && summary[p] > 0.0
              && (forall k :: 0 <= k < |summary| && Searched(k, v, dropLow, dropHigh) ==> summary[k] <= summary[p])
              && (forall k :: 0 <= k < p && Searched(k, v, dropLow, dropHigh) ==> summary[k] < summary[p])
    ensures r.Ok? ==>
              var v := Valley(summary, width).value;
              (r.value == 0 <==> forall k :: 0 <= k < |summary| && Searched(k, v, dropLow, dropHigh) ==> summary[k] <= 0.0)
  {
    match Valley(summary, width)
    case None => Err(IndexError("index 0 is out of bounds for dimension 0 with size 0"))
    case Some(v) =>
      var m := Masked(summary, v, dropLow, dropHigh);
      var p := ArgMax(m);
      assert m[0] == 0.0;
      assert forall k :: 0 <= k < |summary| && Searched(k, v, dropLow, dropHigh) ==> summary[k] == m[k];
      Ok(p)
  }

  // ---------------------------------------------------------------------
  // One frame and the whole correlogram.

  /** One frame's pitch (Hz, 0 when none) and salience. */
  datatype Estimate = Estimate(pitch: real, salience: Float)

  /** The frame's estimate: the pitch is the sampling rate over the peak
      lag, and the salience is the peak's unmasked summary value (0 when
      the peak is lag 0) over the lag-0 summary taken before masking. */
  function Pick(summary: seq<real>, width: nat, sr: real, dropLow: nat, dropHigh: nat): (r: Result<Estimate>)
    requires 1 <= width <= |summary| && sr > 0.0
    ensures r.Ok? <==> PeakLag(summary, width, dropLow, dropHigh).Ok?
    ensures r.Err? ==> r.error.IndexError?
    ensures r.Ok? ==>
              var p := PeakLag(summary, width, dropLow, dropHigh).value;
              && (p > 0 ==> r.value.pitch == Frequency(sr, p))
              && (p == 0 ==> r.value.pitch == 0.0)
              && r.value.salience == Divide(if p > 0 then summary[p] else 0.0, summary[0])
  {
    var zeroLag := summary[0];
    var peak := PeakLag(summary, width, dropLow, dropHigh);
    if peak.Err? then Err(peak.error)
    else
    var lag := peak.value;
    var top := MaskedPeak(summary, width, dropLow, dropHigh);
    var pitch := if lag > 0 then Frequency(sr, lag) else 0.0;
    Ok(Estimate(pitch, Divide(top, zeroLag)))
  }

  /** The frequency whose period is `lag` samples at `sr` samples per
      second. */
  function Frequency(sr: real, lag: nat): (f: real)
    requires sr > 0.0 && lag > 0
    ensures f > 0.0 && f * lag as real == sr
  {
    sr / lag as real
  }

  /** The masked summary at the peak lag: the unmasked value there, or 0
      when the peak is lag 0. */
  function MaskedPeak(summary: seq<real>, width: nat, dropLow: nat, dropHigh: nat): (top: real)
    requires 1 <= width <= |summary|
    requires PeakLag(summary, width, dropLow, dropHigh).Ok?
    ensures var p := PeakLag(summary, width, dropLow, dropHigh).value;
            top == (if p > 0 then summary[p] else 0.0)
  {
    var p := PeakLag(summary, width, dropLow, dropHigh).value;
    Masked(summary, Valley(summary, width).value, dropLow, dropHigh)[p]
  }

  /** The estimate of one frame of channel rows. */
  function FramePick(rows: seq<seq<real>>, len: nat, width: nat, sr: real, dropLow: nat, dropHigh: nat)
    : (r: Result<Estimate>)
    requires forall c :: 0 <= c < |rows| ==> |rows[c]| == len
    requires 1 <= width <= len && sr > 0.0
    ensures r.Err? ==> r.error.IndexError?
  {
    Pick(Summary(rows, len), width, sr, dropLow, dropHigh)
  }

  predicate RowsOfLength(frames: seq<seq<seq<real>>>, len: nat) {
    forall j, c :: 0 <= j < |frames| && 0 <= c < |frames[j]| ==> |frames[j][c]| == len
  }

  /** The estimates of successive frames, stopping at the first frame
      without a valley. */
  function PickFrames(frames: seq<seq<seq<real>>>, len: nat, width: nat, sr: real, dropLow: nat, dropHigh: nat)
    : (r: Result<seq<Estimate>>)
    requires RowsOfLength(frames, len)
    requires 1 <= width <= len && sr > 0.0
    ensures r.Ok? <==> forall j :: 0 <= j < |frames| ==> FramePick(frames[j], len, width, sr, dropLow, dropHigh).Ok?
    ensures r.Err? ==> r.error.IndexError?
    ensures r.Ok? ==> |r.value| == |frames|
    ensures r.Ok? ==> forall j :: 0 <= j < |frames| ==>
              FramePick(frames[j], len, width, sr, dropLow, dropHigh) == Ok(r.value[j])
  {
    var picks := seq(|frames|, j requires 0 <= j < |frames| => FramePick(frames[j], len, width, sr, dropLow, dropHigh));
    var r := Gather(picks, 0);
    assert forall j :: 0 <= j < |frames| ==> picks[j] == FramePick(frames[j], len, width, sr, dropLow, dropHigh);
    assert r.Ok? ==> forall j :: 0 <= j < |frames| ==> picks[j] == Ok(r.value[j]);
    r
  }

  /** The values of the results from `i` on, in order, or the first error
      among them; entry `j - i` is result `j`'s value. */
  function Gather(picks: seq<Result<Estimate>>, i: nat): (r: Result<seq<Estimate>>)
    requires i <= |picks|
    requires forall j :: 0 <= j < |picks| && picks[j].Err? ==> picks[j].error.IndexError?
    ensures r.Ok? <==> forall j :: i <= j < |picks| ==> picks[j].Ok?
    ensures r.Err? ==> r.error.IndexError?
    ensures r.Ok? ==> |r.value| == |picks| - i
    ensures r.Ok? ==> forall j :: i <= j < |picks| ==> picks[j] == Ok(r.value[j - i])
    decreases |picks| - i
  {
    if i == |picks| then Ok([])
    else if picks[i].Err? then Err(picks[i].error)
    else
      var rest := Gather(picks, i + 1);
      if rest.Err? then Err(rest.error)
      else
        var all := [picks[i].value] + rest.value;
        assert forall k :: 1 <= k < |all| ==> all[k] == rest.value[k - 1];
        Ok(all)
  }

  /** Salience lies in [0, 1] when every channel row of the frame peaks at
      lag 0, as every correlogram frame does; it is NaN only when the lag-0
      summary is zero. */
  lemma SalienceBounded(rows: seq<seq<real>>, len: nat, width: nat, sr: real, dropLow: nat, dropHigh: nat)
    requires forall c :: 0 <= c < |rows| ==> |rows[c]| == len && PeakedAtZero(rows[c])
    requires 1 <= width <= len && sr > 0.0
    requires FramePick(rows, len, width, sr, dropLow, dropHigh).Ok?
    ensures var sal := FramePick(rows, len, width, sr, dropLow, dropHigh).value.salience;
            || (sal.Finite? && 0.0 <= sal.v <= 1.0)
            || (sal.NaN? && Summary(rows, len)[0] == 0.0)
  {
    var s := Summary(rows, len);
    var p := PeakLag(s, width, dropLow, dropHigh).value;
    var top := if p > 0 then s[p] else 0.0;
    assert 0.0 <= top <= s[0] by {
      ColumnSumPeak(rows, len, p);
      ColumnSumPeak(rows, len, 0);
    }
    assert FramePick(rows, len, width, sr, dropLow, dropHigh).value.salience == Divide(top, s[0]);
    QuotientBounded(top, s[0]);
  }

  /** A quotient of a value by a larger non-negative one. */
  lemma QuotientBounded(n: real, d: real)
    requires 0.0 <= n <= d
    ensures var q := Divide(n, d);
            (q.Finite? && 0.0 <= q.v <= 1.0) || (q.NaN? && d == 0.0)
  {
  }

  /** The element count of two leading axes. */
  lemma ProductPair(dims: seq<nat>)
    requires |dims| == 2
    ensures Product(dims) == dims[0] * dims[1]
  {
    var first := dims[..1];
    assert dims[..|dims| - 1] == first;
    assert first[..|first| - 1] == [];
    assert Product(first) == Product([]) * dims[0];
    assert Product(dims) == Product(first) * dims[1];
  }

  /** The channel rows of frame `j` of a (frames x channels x lags) tensor. */
  function FrameOf(t: Tensor, j: nat): (rows: seq<seq<real>>)
    requires WellFormed(t) && Ndim(t) == 3 && j < t.shape[0]
    ensures |rows| == t.shape[1]
    ensures j * t.shape[1] + |rows| <= |t.rows|
    ensures forall c :: 0 <= c < |rows| ==> rows[c] == t.rows[j * t.shape[1] + c]
    ensures forall c :: 0 <= c < |rows| ==> |rows[c]| == t.shape[2]
  {
    var channels := t.shape[1];
    ProductPair(LeadingDims(t));
    MulMonotone(j + 1, t.shape[0], channels);
    t.rows[j * channels..j * channels + channels]
  }

  /** The frames of the tensor, in order. */
  function Frames(t: Tensor): (frames: seq<seq<seq<real>>>)
    requires WellFormed(t) && Ndim(t) == 3
    ensures |frames| == t.shape[0]
    ensures forall j :: 0 <= j < |frames| ==> frames[j] == FrameOf(t, j)
  {
    seq(t.shape[0], j requires 0 <= j < t.shape[0] => FrameOf(t, j))
  }

  /** The estimates of all frames of a (frames x channels x lags) tensor. */
  function PickAll(t: Tensor, width: nat, sr: real, dropLow: nat, dropHigh: nat): (r: Result<seq<Estimate>>)
    requires WellFormed(t) && Ndim(t) == 3
    requires 1 <= width <= t.shape[2] && sr > 0.0
    ensures r.Ok? <==> forall j :: 0 <= j < t.shape[0] ==>
              FramePick(FrameOf(t, j), t.shape[2], width, sr, dropLow, dropHigh).Ok?
    ensures r.Err? ==> r.error.IndexError?
    ensures r.Ok? ==> |r.value| == t.shape[0]
    ensures r.Ok? ==> forall j :: 0 <= j < t.shape[0] ==>
              FramePick(FrameOf(t, j), t.shape[2], width, sr, dropLow, dropHigh) == Ok(r.value[j])
  {
    var frames := Frames(t);
    assert RowsOfLength(frames, t.shape[2]);
    PickFrames(frames, t.shape[2], width, sr, dropLow, dropHigh)
  }

  /** Pitch and salience, one entry per frame. */
  datatype PitchTrack = PitchTrack(pitch: seq<real>, salience: seq<Float>)

  /** Separates the estimates into the two output vectors. */
  function Unzip(estimates: seq<Estimate>): (track: PitchTrack)
    ensures |track.pitch| == |estimates| && |track.salience| == |estimates|
    ensures forall j :: 0 <= j < |estimates| ==>
              estimates[j] == Estimate(track.pitch[j], track.salience[j])
  {
    PitchTrack(seq(|estimates|, j requires 0 <= j < |estimates| => estimates[j].pitch),
               seq(|estimates|, j requires 0 <= j < |estimates| => estimates[j].salience))
  }

  /** The picker over a (frames x channels x lags) correlogram. */
  function PitchOf(t: Tensor, width: nat, sr: real, low: real, high: real): (r: Result<PitchTrack>)
    requires WellFormed(t)
    requires Ndim(t) == 3 ==> sr > 0.0 && high >= 0.0 && 1 <= width <= t.shape[2]
    ensures Ndim(t) != 3 ==> r.Err? && r.error.TypeError?
    ensures Ndim(t) == 3 && high == 0.0 ==> r.Err? && r.error.ZeroDivisionError?
    ensures Ndim(t) == 3 && high > 0.0 ==>
              var dropLow := DropLow(sr, high);
              var dropHigh := DropHigh(sr, low, width);
              && (r.Ok? <==> forall j :: 0 <= j < t.shape[0] ==>
                    FramePick(FrameOf(t, j), t.shape[2], width, sr, dropLow, dropHigh).Ok?)
              && (r.Err? ==> r.error.IndexError?)
              && (r.Ok? ==> |r.value.pitch| == t.shape[0] && |r.value.salience| == t.shape[0])
              && (r.Ok? ==> forall j :: 0 <= j < t.shape[0] ==>
                    FramePick(FrameOf(t, j), t.shape[2], width, sr, dropLow, dropHigh)
                      == Ok(Estimate(r.value.pitch[j], r.value.salience[j])))
  {
    if Ndim(t) != 3 then
      Err(TypeError("Input should be (num_frames x num_channels x num_times)"))
    else if high == 0.0 then
      Err(ZeroDivisionError("float division by zero"))
    else
      var estimates := PickAll(t, width, sr, DropLow(sr, high), DropHigh(sr, low, width));
      if estimates.Err? then Err(estimates.error) else Ok(Unzip(estimates.value))
  }

  /** Over a correlogram whose every channel row peaks at lag 0 (as the
      correlogram movie's rows do), every frame's salience lies in [0, 1]
      or is NaN for a zero lag-0 summary. */
  lemma TrackSalienceBounded(t: Tensor, width: nat, sr: real, low: real, high: real)
    requires WellFormed(t) && Ndim(t) == 3
    requires sr > 0.0 && high >= 0.0 && 1 <= width <= t.shape[2]
    requires forall i :: 0 <= i < |t.rows| ==> PeakedAtZero(t.rows[i])
    ensures PitchOf(t, width, sr, low, high).Ok? ==>
            var track := PitchOf(t, width, sr, low, high).value;
            forall j :: 0 <= j < |track.salience| ==>
              || (track.salience[j].Finite? && 0.0 <= track.salience[j].v <= 1.0)
              || (track.salience[j].NaN? && Summary(FrameOf(t, j), t.shape[2])[0] == 0.0)
  {
    if PitchOf(t, width, sr, low, high).Err? {
      return;
    }
    var track := PitchOf(t, width, sr, low, high).value;
    assert high > 0.0;
    var dropLow := DropLow(sr, high);
    var dropHigh := DropHigh(sr, low, width);
    forall j | 0 <= j < |track.salience|
      ensures || (track.salience[j].Finite? && 0.0 <= track.salience[j].v <= 1.0)
              || (track.salience[j].NaN? && Summary(FrameOf(t, j), t.shape[2])[0] == 0.0)
    {
      var rows := FrameOf(t, j);
      FrameRowsPeaked(t, j);
      assert FramePick(rows, t.shape[2], width, sr, dropLow, dropHigh)
               == Ok(Estimate(track.pitch[j], track.salience[j]));
      SalienceBounded(rows, t.shape[2], width, sr, dropLow, dropHigh);
    }
  }

  /** A frame of a correlogram whose rows peak at lag 0 has such rows. */
  lemma FrameRowsPeaked(t: Tensor, j: nat)
    requires WellFormed(t) && Ndim(t) == 3 && j < t.shape[0]
    requires forall i :: 0 <= i < |t.rows| ==> PeakedAtZero(t.rows[i])
    ensures forall c :: 0 <= c < |FrameOf(t, j)| ==> PeakedAtZero(FrameOf(t, j)[c])
  {
  }
}
