# Auditory toolbox: filterbank structure and correlogram pitch, in Dafny

This project models the discrete, index-driven part of
`python_auditory_toolbox/auditory_toolbox_torch.py`:

- **Gammatone filterbank structure.**
  - `prepare_coefficients` packs the ten per-channel coefficient vectors
    into an N x 3 x 5 array.
  - The `ErbFilterBank` constructor checks its arguments.
  - `forward` checks its input, copies it to every channel and runs it
    through four cascaded biquad passes. The passes share the denominator
    in column 4 and use the numerators in columns 0, 1, 2 and 3, in that
    order.
  - The filter is a reference direct-form `lfilter` over reals whose
    leading denominator coefficient is 1 (module `LinearFilter`).
- **One correlogram frame** (`correlogram_frame`). The model covers:
  - the default window length;
  - the FFT size, the least power of two at least twice the larger of
    the lag count and the window length;
  - the analysed segment, clamped to the signal, multiplied by the window
    prefix and placed at the front of a zero buffer;
  - the autocorrelation of that buffer, with negatives clipped to zero,
    truncated to `pic_width` lags;
  - the good-row test, and the normalisation of good rows by
    `1/sqrt(lag 0)` with bad rows zeroed.

  The model states a good row as `rsqrt(pic[0])` times the clipped row.
  With the true reciprocal square root, lag 0 becomes `sqrt(pic[0])`, not
  1 (`NormalisedLagZero`).
- **The frame scheduler** (`correlogram_array`):
  - the frame increment `int(sr / frame_rate)`;
  - the frame count `int((T - width) / increment) + 1`;
  - frame `i` starts at sample `i * increment` and analyses a window of
    `4 * increment` samples;
  - frames are collected in increasing `i`.
- **The pitch picker** (`correlogram_pitch`). For each frame:
  - sum the channels into a summary over lags;
  - smooth it with a 16-tap moving sum;
  - find the first rise of the smoothed summary at or past lag 16 (the
    "valley");
  - zero the lags before the valley, the lags in `[1, drop_low)` and the
    lags from `drop_high` on;
  - take the first largest lag `p`. The pitch is `sr / p`, or 0 when
    `p == 0`. The salience is the peak value over the lag-0 summary.

Float64 values are exact reals. The salience division is modelled with
its IEEE 754 outcomes for a zero divisor: `Float` is a finite value, an
infinity or NaN. Python errors are `Err` results, raised in the order the
code raises them:
- `TypeError` from the shape checks;
- `ValueError` from the constructor checks and from `log2(0)`;
- `ZeroDivisionError` from `pi / win_len`, `sr / frame_rate`,
  `(T - width) / increment` when the increment is 0, and `sr / high_pitch`;
- `IndexError` from `pic[..., 2]` when `pic_width < 3`, and from
  `valleys[0, 0]` when the smoothed summary never rises;
- `RuntimeError` from `torch.cat` over an empty movie, or over coefficient
  vectors of unequal length;
- `AssertionError` from the asserts of `prepare_coefficients`.

Some values are parameters of the model rather than computed by it:
- the gammatone design coefficients;
- the analysis window values;
- the reciprocal square root, an arbitrary function that is positive on
  positive reals (`PositiveFn`).

The FFT round trip `real(ifft(fft(f) * conj(fft(f))))` is modelled by the
circular autocorrelation of the zero-padded buffer. `NoWrapAround` proves
that this equals the linear autocorrelation of the segment, because the
FFT size leaves room for the segment followed by the lags.

Two properties beyond the code's own statements are proved:
- Every autocorrelation peaks at lag 0, so every frame row is
  non-negative and none of its lags exceeds lag 0 (`PeakedAtZero`).
- Over such a correlogram, every salience lies in [0, 1], or is NaN when
  the lag-0 summary is zero. This is what the docstring of
  `correlogram_pitch` promises.

Files:
- `common.dfy`: errors, results, IEEE division, small sequence helpers.
- `tensor.dfy`: shape and row layout of tensors.
- `lfilter.dfy`: the reference filter and its recurrence, causality,
  linearity and moving-sum lemmas.
- `filterbank.dfy`: coefficient packing, the constructor and the forward
  pass.
- `frame.dfy`: one correlogram frame.
- `array.dfy`: the frame scheduler.
- `pitch.dfy`: the pitch and salience picker.

## Model

| member | source | states |
|---|---|---|
| Common.Divide | python_auditory_toolbox/auditory_toolbox_torch.py:687 | A float division: for a non-zero divisor, a finite quotient that multiplies back to the dividend; for a zero divisor, +inf, -inf or NaN according to the dividend's sign |
| LinearFilter.LFilterRecurrence | python_auditory_toolbox/auditory_toolbox_torch.py:97-106 | The content of `LFilter`: every output sample of the filter satisfies the direct-form difference equation `y[n] = sum_k b[k] x[n-k] - sum_{k>=1} a[k] y[n-k]` |
| LinearFilter.LFilterPrefix | python_auditory_toolbox/auditory_toolbox_torch.py:97-106 | The filter is causal: the first `p` outputs are the filter of the first `p` inputs |
| LinearFilter.LFilterScaleNumerator | python_auditory_toolbox/auditory_toolbox_torch.py:97-100 | Dividing the numerator by a gain (column 0 holds `a/g`) scales the whole output by the same factor |
| LinearFilter.LFilterScaleInput | python_auditory_toolbox/auditory_toolbox_torch.py:102-106 | A filter commutes with scaling of its input, so a gain applied in the first pass carries through the later ones |
| LinearFilter.MovingSum | python_auditory_toolbox/auditory_toolbox_torch.py:669-673 | With numerator `ones(16)` and denominator `[1, 0, ..., 0]`, output `i` is the sum of the last `min(i+1, 16)` inputs up to `x[i]` |
| FilterBank.PackedSection | python_auditory_toolbox/auditory_toolbox_torch.py:272-276 | A channel's rows `[a0/g,a0,a0,a0,b0]`, `[a11/g,a12,a13,a14,b1]`, `[a2/g,a2,a2,a2,b2]`, read by columns: columns 0..3 are the pass numerators (pole pair 1 over the gain, then pole pairs 2, 3, 4), column 4 the denominator `[b0,b1,b2]` |
| FilterBank.PrepareCoefficients | python_auditory_toolbox/auditory_toolbox_torch.py:262-278 | Fails exactly when some vector's length differs from `a0`'s: AssertionError when one of the seven asserted vectors differs, RuntimeError when only `a2` or `b2` does; otherwise one 3 x 5 section per channel with the column layout above |
| FilterBank.NewErbFilterBank | python_auditory_toolbox/auditory_toolbox_torch.py:54-70 | ValueError exactly when `sampling_rate <= 0` or `lowest_frequency` is outside `(0, sampling_rate/2)`; otherwise N normalised sections whose columns are the pass numerators and the shared denominator of the design |
| FilterBank.ChannelOutput | python_auditory_toolbox/auditory_toolbox_torch.py:97-106 | A channel keeps the number of samples, and its output is the input filtered by the numerators in columns 0, 1, 2, 3 in that order, each pass with the denominator in column 4 |
| FilterBank.Forward | python_auditory_toolbox/auditory_toolbox_torch.py:90-108 | TypeError exactly when the input has fewer than two axes or at most one sample; otherwise a well-formed tensor of shape `(..., N, T)` whose rows are the channel blocks of the input rows laid end to end |
| FilterBank.ForwardRow | python_auditory_toolbox/auditory_toolbox_torch.py:94-108 | For an input with at least two axes and two samples, the pass succeeds and output row `b * N + i` is channel `i`'s cascade applied to input row `b` |
| FilterBank.GainNormalisation | python_auditory_toolbox/auditory_toolbox_torch.py:97-106 | For a constructed bank, each channel equals `1/gain` times the cascade of the four unnormalised pole-pair numerators over the shared denominator |
| CorrelogramFrame.WindowLength | python_auditory_toolbox/auditory_toolbox_torch.py:499-500 | The effective window is `win_len` when it is non-zero and the signal length otherwise; it is empty exactly when both are 0 |
| CorrelogramFrame.FftSize | python_auditory_toolbox/auditory_toolbox_torch.py:503 | The FFT size is a power of two, at least `2 * max(pic_width, win_len)`, and no larger than any power of two that is |
| CorrelogramFrame.WindowedSegment | python_auditory_toolbox/auditory_toolbox_torch.py:505-522 | The segment runs from `max(0, start)` to `min(data_len, max(0,start) + win_len)`, is no longer than the window, and sample `i` is `data[max(0,start)+i] * window[i]` |
| CorrelogramFrame.Buffer | python_auditory_toolbox/auditory_toolbox_torch.py:518-522 | The segment sits at the front of a zero buffer of the FFT size; everything after it is 0 |
| CorrelogramFrame.NoWrapAround | python_auditory_toolbox/auditory_toolbox_torch.py:518-526 | When the buffer has room for the segment followed by `k` zeros, its circular autocorrelation at lag `k` equals the segment's linear autocorrelation |
| CorrelogramFrame.FftRow | python_auditory_toolbox/auditory_toolbox_torch.py:518-529 | The FFT path's row has `w` non-negative lags, and when the buffer holds the segment followed by `w` lags it equals the clipped linear autocorrelation of the segment |
| CorrelogramFrame.AutocorrelationPeak | python_auditory_toolbox/auditory_toolbox_torch.py:524-526 | The autocorrelation at lag 0 is non-negative, and no lag exceeds it |
| CorrelogramFrame.ClippedAutocorrelation | python_auditory_toolbox/auditory_toolbox_torch.py:529 | `pic_width` lags; a non-empty row is non-negative and peaks at lag 0 |
| CorrelogramFrame.NormaliseRow | python_auditory_toolbox/auditory_toolbox_torch.py:532-540 | All values are non-negative. A row failing `pic0 > 0 && pic0 > pic1 && pic0 > pic2` becomes all zeros. A passing row is the clipped row times the positive factor `rsqrt(pic0)`, so it passes again and stays peaked at lag 0 |
| CorrelogramFrame.NormalisedLagZero | python_auditory_toolbox/auditory_toolbox_torch.py:536-540 | When `rsqrt` returns the reciprocal of the positive square root `s` of lag 0, a good row's normalised lag 0 is `s`: normalisation by `1/sqrt(pic[0])` leaves lag 0 at `sqrt(pic[0])`, not 1 |
| CorrelogramFrame.Frame | python_auditory_toolbox/auditory_toolbox_torch.py:497-542 | `win_len = 0` means the whole signal. ValueError when both widths are 0, ZeroDivisionError when the window is empty, IndexError when `pic_width < 3`, and Ok exactly otherwise. Then each channel row has `pic_width` non-negative lags, peaks at lag 0, and is the normalised clipped autocorrelation of that channel's windowed segment |
| CorrelogramArray.TruncDiv | python_auditory_toolbox/auditory_toolbox_torch.py:577 | Python's `int(a / b)`: truncation toward zero, bracketed for both signs of `a` |
| CorrelogramArray.FrameIncrement | python_auditory_toolbox/auditory_toolbox_torch.py:576 | `inc * frame_rate <= sr < (inc + 1) * frame_rate`, i.e. `int(sr / frame_rate)` |
| CorrelogramArray.FrameCount | python_auditory_toolbox/auditory_toolbox_torch.py:577 | When `T >= width`: at least one frame, and the last start `(count-1) * inc` still leaves `width` samples while one more would not. When `T < width`: at most one frame, exactly when the shortfall is below the increment |
| CorrelogramArray.StartInsideSignal | python_auditory_toolbox/auditory_toolbox_torch.py:577-581 | Every scheduled start `i * inc` lies inside the signal |
| CorrelogramArray.CorrelogramArray | python_auditory_toolbox/auditory_toolbox_torch.py:575-589 | ZeroDivisionError for a zero frame rate or increment; RuntimeError for no frames; IndexError for `width < 3`; otherwise exactly `count` frames, frame `i` being the correlogram frame at start `i * inc` with window `4 * inc`, in increasing `i`, every row peaked at lag 0 |
| CorrelogramPitch.Ceil | python_auditory_toolbox/auditory_toolbox_torch.py:652 | `math.ceil`: the least integer at or above `x` |
| CorrelogramPitch.DropLow | python_auditory_toolbox/auditory_toolbox_torch.py:650 | `drop_low <= sr / high_pitch < drop_low + 1` |
| CorrelogramPitch.DropHigh | python_auditory_toolbox/auditory_toolbox_torch.py:651-654 | `width` without a low-pitch limit; otherwise at most `width`, and below `width` it is the least lag at or above `sr / low_pitch` |
| CorrelogramPitch.Summary | python_auditory_toolbox/auditory_toolbox_torch.py:663 | `torch.sum(correlogram[j], axis=0)`: one value per lag, lag `k` being the sum over the channels of their lag-`k` values |
| CorrelogramPitch.SummaryNonNegative | python_auditory_toolbox/auditory_toolbox_torch.py:663 | Summing non-negative channel rows gives a non-negative summary |
| CorrelogramPitch.ColumnSumPeak | python_auditory_toolbox/auditory_toolbox_torch.py:663-664 | When every channel row peaks at lag 0, every summary value lies between 0 and the lag-0 summary `zero_lag` |
| CorrelogramPitch.Smooth | python_auditory_toolbox/auditory_toolbox_torch.py:669-673 | The smoothed summary keeps the lag count, and lag `i` is the sum of the summary over the last `min(i+1, 16)` lags up to `i` |
| CorrelogramPitch.SmoothStep | python_auditory_toolbox/auditory_toolbox_torch.py:669-676 | Past lag 16 the step of the moving sum is the summary entering the window minus the one leaving it: `sumfilt[i+1] - sumfilt[i] == summary[i+1] - summary[i-15]` |
| CorrelogramPitch.Differences | python_auditory_toolbox/auditory_toolbox_torch.py:673-676 | `width - 1` differences of the smoothed summary; the first 16 are 0, and past them difference `j` is `summary[j+1] - summary[j-15]`, so it is positive exactly when the summary entering the window beats the one leaving it |
| CorrelogramPitch.FirstPositiveFrom | python_auditory_toolbox/auditory_toolbox_torch.py:677 | The first index from `i` holding a positive difference, or none when every later difference is non-positive |
| CorrelogramPitch.Valley | python_auditory_toolbox/auditory_toolbox_torch.py:669-678 | The valley is at least 16 and below `width - 1`, and the smoothed summary rises there but at no lag between 16 and it. None exactly when it never rises below `width - 1` |
| CorrelogramPitch.ZeroSlicesCommute | python_auditory_toolbox/auditory_toolbox_torch.py:678-680 | Two slice assignments `s[lo:hi] = 0` in turn zero exactly the union of the two ranges and leave every other lag alone, so their order does not matter |
| CorrelogramPitch.Masked | python_auditory_toolbox/auditory_toolbox_torch.py:678-680 | After the three maskings, a lag keeps its summary value exactly when it is at or past the valley, below `drop_high` and not in `[1, drop_low)`; every other lag is 0 |
| CorrelogramPitch.ArgMax | python_auditory_toolbox/auditory_toolbox_torch.py:683 | `torch.argmax`: an index of a largest value, and every earlier index is strictly smaller |
| CorrelogramPitch.PeakLag | python_auditory_toolbox/auditory_toolbox_torch.py:677-683 | IndexError exactly when there is no valley. A positive peak lag is a searched lag with a positive summary that no searched lag exceeds and no earlier one equals. The peak is lag 0 exactly when no searched lag is positive |
| CorrelogramPitch.Frequency | python_auditory_toolbox/auditory_toolbox_torch.py:685 | The pitch for a positive lag is positive and has period `lag` samples: `pitch * lag == sr` |
| CorrelogramPitch.MaskedPeak | python_auditory_toolbox/auditory_toolbox_torch.py:678-687 | The masked summary at the peak is the unmasked summary there when the peak is positive, and 0 at lag 0 |
| CorrelogramPitch.Pick | python_auditory_toolbox/auditory_toolbox_torch.py:683-687 | Fails (IndexError) exactly when the peak search does. Pitch is `sr / p` for a positive peak and 0 otherwise. Salience is the peak's summary value (0 for lag 0) divided by the lag-0 summary taken before masking |
| CorrelogramPitch.FramePick | python_auditory_toolbox/auditory_toolbox_torch.py:663-687 | A frame's estimate is the pick over the channel sum of that frame alone; its only error is IndexError |
| CorrelogramPitch.SalienceBounded | python_auditory_toolbox/auditory_toolbox_torch.py:663-687 | For a frame whose rows peak at lag 0, the salience is a finite value in [0, 1], or NaN with a zero lag-0 summary |
| CorrelogramPitch.PickFrames | python_auditory_toolbox/auditory_toolbox_torch.py:660-687 | One estimate per frame, entry `j` being frame `j`'s pick; fails with IndexError exactly when some frame's pick fails |
| CorrelogramPitch.FrameOf | python_auditory_toolbox/auditory_toolbox_torch.py:663 | `correlogram[j, :, :]`: the channel rows of frame `j` of a (frames x channels x lags) tensor |
| CorrelogramPitch.PickAll | python_auditory_toolbox/auditory_toolbox_torch.py:656-687 | One estimate per frame of the tensor, entry `j` being the pick of frame `j`; IndexError exactly when some frame has no valley |
| CorrelogramPitch.Unzip | python_auditory_toolbox/auditory_toolbox_torch.py:658-659 | The pitch and salience vectors have one entry per estimate, entry `j` holding estimate `j`'s two parts |
| CorrelogramPitch.PitchOf | python_auditory_toolbox/auditory_toolbox_torch.py:647-689 | TypeError when the input is not 3-D; ZeroDivisionError for `high_pitch == 0`; otherwise IndexError exactly when some frame has no valley, and else one pitch and one salience per frame, entry `j` depending only on frame `j` |
| CorrelogramPitch.TrackSalienceBounded | python_auditory_toolbox/auditory_toolbox_torch.py:643-687 | Over a correlogram whose rows peak at lag 0 (as every frame from `CorrelogramArray` does), every salience lies in [0, 1], or is NaN when that frame's lag-0 summary is 0 |

## Left out

- `erb_space` and `make_erb_filters` (lines 111-243) compute the coefficients with `exp`, `log`, `cos` and a complex gain magnitude. The ten vectors are an input (`ErbCoefficients`). `Designed` records what the design guarantees: equal lengths, positive gains and `b0 == 1`.
- The Hamming window values (lines 509-515) use `cos` and `sqrt`; they are an input of the correlogram functions.
- The FFT and inverse FFT (lines 524-526) are not computed. Their result is stated as the circular autocorrelation of the buffer, which equals it by the Wiener-Khinchin theorem. That identity itself is not proved.
- `1/sqrt` (line 539) is an arbitrary function that is positive on positive reals (`PositiveFn`). Its exact values are not modelled.
- Vowel synthesis (`make_vowel`, `glottal_filter`, `formant_filter`, `fm_points`, lines 281-453) is signal generation with nothing discrete to prove.
- torchaudio's `lfilter` is replaced by the reference direct-form filter with leading denominator 1. Its batching, clamping and float evaluation order are not modelled.
- `tile`/`unsqueeze` broadcasting, dtype and device casting, and `nn.Module`/`register_buffer` bookkeeping are not modelled.
- Float64 rounding, overflow, and infinities or NaN in intermediate values are not modelled: values are exact reals. Only the salience division models the IEEE outcomes of a zero divisor.
- The `2**ceil(log2(...))` computation is modelled as the least power of two at or above its argument. Float rounding of `log2` is not.
- `correlogram_array`'s extra axis for 2-D input (lines 573-574) is not modelled. Frames are sequences of channel rows, and leading batch axes are left out.
- Frame: requires `max(0, start) <= data_len`. A start past the signal would make the source slice with a negative length; no caller in the file does that.
- CorrelogramArray: requires `sampling_rate > 0` and a non-negative frame rate. For other inputs, `int()` truncation of a non-positive quotient and a negative increment are not modelled.
- PitchOf: requires `sr > 0`, `high_pitch >= 0` and `1 <= width <= ` the lag count. A negative `drop_low` or a `width` beyond the lags would make the source's slices wrap or clamp, and that is not modelled.
- DropLow: requires `high_pitch > 0`; `int()` of a negative quotient is not modelled here.
- PrepareCoefficients: requires positive gains. A zero gain would divide by zero, and the design never yields one.
- NewErbFilterBank: requires the design to satisfy `Designed`. The design's dependence on the three arguments is not modelled.
- Forward: requires a well-formed tensor and a constructed bank's coefficients (`ValidSos`).
