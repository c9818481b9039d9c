/** The gammatone filterbank as a cascade of biquad passes: the packing of
    the ten designed coefficient vectors into an N x 3 x 5 array, the
    argument checks of the filterbank's constructor and of its forward
    pass, and the order of the four cascaded `lfilter` passes. The
    coefficient values themselves (cosines, exponentials, a complex gain)
    are inputs here. */
module FilterBank {
  import opened Common
  import opened Tensors
  import opened LinearFilter

  /** The ten per-channel coefficient vectors of the gammatone design, in
      the order the design returns them. */
  datatype ErbCoefficients = ErbCoefficients(
    a0: seq<real>, a11: seq<real>, a12: seq<real>, a13: seq<real>, a14: seq<real>,
    a2: seq<real>, b0: seq<real>, b1: seq<real>, b2: seq<real>, gain: seq<real>)

  /** What the gammatone design guarantees for `n` channels: ten vectors of
      length `n`, strictly positive gains (a magnitude), and a leading
      denominator coefficient of 1. */
  predicate Designed(f: ErbCoefficients, n: nat) {
    && |f.a0| == n && |f.a11| == n && |f.a12| == n && |f.a13| == n && |f.a14| == n
    && |f.a2| == n && |f.b0| == n && |f.b1| == n && |f.b2| == n && |f.gain| == n
    && (forall i :: 0 <= i < n ==> f.gain[i] > 0.0)
    && (forall i :: 0 <= i < n ==> f.b0[i] == 1.0)
  }

  /** Channel `i` is present in all ten vectors and has a positive gain. */
  predicate HasChannel(f: ErbCoefficients, i: nat) {
    && i < |f.a0| && i < |f.a11| && i < |f.a12| && i < |f.a13| && i < |f.a14|
    && i < |f.a2| && i < |f.b0| && i < |f.b1| && i < |f.b2| && i < |f.gain|
    && f.gain[i] > 0.0
  }

  /** The numerator `[a0, a1j, a2]` of gammatone pole pair `j` (1..4) of
      channel `i`, before gain normalisation. */
  function PolePairNumerator(f: ErbCoefficients, i: nat, j: nat): seq<real>
    requires 1 <= j <= 4
    requires i < |f.a0| && i < |f.a11| && i < |f.a12| && i < |f.a13| && i < |f.a14| && i < |f.a2|
  {
    var a1 := if j == 1 then f.a11[i] else if j == 2 then f.a12[i] else if j == 3 then f.a13[i] else f.a14[i];
    [f.a0[i], a1, f.a2[i]]
  }

  /** The numerator of cascade pass `p` (0..3) of channel `i`: pole pair
      `p + 1`, the first pass divided by the channel's gain so that the
      cascade has unit gain at the centre frequency. */
  function PassNumerator(f: ErbCoefficients, i: nat, p: nat): seq<real>
    requires p < 4 && HasChannel(f, i)
  {
    if p == 0 then Scale(1.0 / f.gain[i], PolePairNumerator(f, i, 1))
    else PolePairNumerator(f, i, p + 1)
  }

  /** The denominator `[b0, b1, b2]` shared by all passes of channel `i`. */
  function Denominator(f: ErbCoefficients, i: nat): seq<real>
    requires i < |f.b0| && i < |f.b1| && i < |f.b2|
  {
    [f.b0[i], f.b1[i], f.b2[i]]
  }

  /** One channel's packed coefficients: three rows of five. */
  predicate IsSection(s: seq<seq<real>>) {
    |s| == 3 && forall r :: 0 <= r < 3 ==> |s[r]| == 5
  }

  /** Column `j` of a section: `sos[i, :, j]`. */
  function Column(s: seq<seq<real>>, j: nat): seq<real>
    requires IsSection(s) && j < 5
  {
    [s[0][j], s[1][j], s[2][j]]
  }

  /** The packed array of `n` channels, whose shared denominator (column 4)
      is normalised. */
  predicate ValidSos(sos: seq<seq<seq<real>>>, n: nat) {
    && |sos| == n
    && forall i :: 0 <= i < n ==> IsSection(sos[i]) && sos[i][0][4] == 1.0
  }

  /** Channel `i`'s rows `[a0/g, a0, a0, a0, b0]`,
      `[a11/g, a12, a13, a14, b1]` and `[a2/g, a2, a2, a2, b2]`: read by
      columns, the pass numerators and the shared denominator. */
  function PackedSection(f: ErbCoefficients, i: nat): (s: seq<seq<real>>)
    requires HasChannel(f, i)
    ensures IsSection(s)
    ensures forall p :: 0 <= p < 4 ==> Column(s, p) == PassNumerator(f, i, p)
    ensures Column(s, 4) == Denominator(f, i)
  {
    var g := f.gain[i];
    var s := [ [f.a0[i] / g, f.a0[i], f.a0[i], f.a0[i], f.b0[i]],
               [f.a11[i] / g, f.a12[i], f.a13[i], f.a14[i], f.b1[i]],
               [f.a2[i] / g, f.a2[i], f.a2[i], f.a2[i], f.b2[i]] ];
    DivideIsScale(f.a0[i], f.a11[i], f.a2[i], g);
    s
  }

  /** `[p/g, q/g, r/g]` is `[p, q, r]` scaled by `1/g`. */
  lemma DivideIsScale(p: real, q: real, r: real, g: real)
    requires g != 0.0
    ensures [p / g, q / g, r / g] == Scale(1.0 / g, [p, q, r])
  {
    var sc := Scale(1.0 / g, [p, q, r]);
    assert sc[0] == p / g && sc[1] == q / g && sc[2] == r / g;
  }

  /** Packs the ten vectors channel by channel, after asserting that seven
      of them have the length of `a0`. The assertions do not cover `a2` and
      `b2`; a mismatch there makes the concatenation fail instead. */
  function PrepareCoefficients(f: ErbCoefficients): (r: Result<seq<seq<seq<real>>>>)
    requires forall i :: 0 <= i < |f.gain| ==> f.gain[i] > 0.0
    ensures r.Err? <==>
              !(|f.a11| == |f.a0| && |f.a12| == |f.a0| && |f.a13| == |f.a0| && |f.a14| == |f.a0|
                && |f.a2| == |f.a0| && |f.b0| == |f.a0| && |f.b1| == |f.a0| && |f.b2| == |f.a0|
                && |f.gain| == |f.a0|)
    ensures r.Err? ==>
              (r.error.AssertionError? <==>
                 !(|f.a11| == |f.a0| && |f.a12| == |f.a0| && |f.a13| == |f.a0| && |f.a14| == |f.a0|
                   && |f.b0| == |f.a0| && |f.b1| == |f.a0| && |f.gain| == |f.a0|))
    ensures r.Err? && !r.error.AssertionError? ==> r.error.RuntimeError?
    ensures r.Ok? ==> |r.value| == |f.a0|
    ensures r.Ok? ==> forall i :: 0 <= i < |r.value| ==>
              && IsSection(r.value[i])
              && Column(r.value[i], 4) == Denominator(f, i)
              && Column(r.value[i], 0) == Scale(1.0 / f.gain[i], PolePairNumerator(f, i, 1))
              && Column(r.value[i], 1) == PolePairNumerator(f, i, 2)
              && Column(r.value[i], 2) == PolePairNumerator(f, i, 3)
              && Column(r.value[i], 3) == PolePairNumerator(f, i, 4)
  {
    var n := |f.a0|;
    if !(|f.a11| == n && |f.a12| == n && |f.a13| == n && |f.a14| == n
         && |f.b0| == n && |f.b1| == n && |f.gain| == n) then
      Err(AssertionError("coefficient vectors differ in length"))
    else if |f.a2| != n || |f.b2| != n then
      Err(RuntimeError("sizes of tensors must match"))
    else
      var sos := seq(n, i requires 0 <= i < n => PackedSection(f, i));
      assert forall i :: 0 <= i < n ==> sos[i] == PackedSection(f, i);
      Ok(sos)
  }

  /** A constructed filterbank: its configuration and packed coefficients. */
  datatype ErbFilterBank = ErbFilterBank(
    samplingRate: real, numChannels: nat, lowestFrequency: real, sos: seq<seq<seq<real>>>)

  /** The filterbank constructor. `designed` stands for the gammatone
      design computed from the same three arguments. */
  function NewErbFilterBank(samplingRate: real, numChannels: nat, lowestFrequency: real,
                            designed: ErbCoefficients): (r: Result<ErbFilterBank>)
    requires Designed(designed, numChannels)
    ensures r.Err? <==> samplingRate <= 0.0 || lowestFrequency <= 0.0 || lowestFrequency >= samplingRate / 2.0
    ensures r.Err? ==> r.error.ValueError?
    ensures r.Ok? ==>
              && r.value.numChannels == numChannels
              && ValidSos(r.value.sos, numChannels)
              && forall i, p :: 0 <= i < numChannels && 0 <= p < 4 ==>
                   && Column(r.value.sos[i], p) == PassNumerator(designed, i, p)
                   && Column(r.value.sos[i], 4) == Denominator(designed, i)
  {
    if samplingRate <= 0.0 then
      Err(ValueError("sampling rate cannot be negative or zero"))
    else if lowestFrequency <= 0.0 || lowestFrequency >= samplingRate / 2.0 then
      Err(ValueError("misspecified lowest frequency"))
    else
      var sos := PrepareCoefficients(designed).value;
      Ok(ErbFilterBank(samplingRate, numChannels, lowestFrequency, sos))
  }

  /** The passes from `p` onward of one channel's cascade, in order: the
      `for` loop over the numerators in columns 1, 2 and 3. Every pass keeps
      the number of samples. */
  function PassesFrom(s: seq<seq<real>>, y: seq<real>, p: nat): (out: seq<real>)
    requires IsSection(s) && s[0][4] == 1.0 && p <= 4
    ensures |out| == |y|
    decreases 4 - p
  {
    if p == 4 then y else PassesFrom(s, LFilter(Column(s, p), Column(s, 4), y), p + 1)
  }

  /** One channel of the forward pass: the input filtered by the numerators
      of columns 0, 1, 2, 3 in that order, each over the denominator of
      column 4, keeping the number of samples. */
  function ChannelOutput(s: seq<seq<real>>, x: seq<real>): (out: seq<real>)
    requires IsSection(s) && s[0][4] == 1.0
    ensures |out| == |x|
    ensures out ==
              LFilter(Column(s, 3), Column(s, 4),
                LFilter(Column(s, 2), Column(s, 4),
                  LFilter(Column(s, 1), Column(s, 4),
                    LFilter(Column(s, 0), Column(s, 4), x))))
  {
    var d := Column(s, 4);
    var y1 := LFilter(Column(s, 0), d, x);
    var y2 := LFilter(Column(s, 1), d, y1);
    var y3 := LFilter(Column(s, 2), d, y2);
    var y4 := LFilter(Column(s, 3), d, y3);
    assert PassesFrom(s, y4, 4) == y4;
    assert PassesFrom(s, y3, 3) == y4;
    assert PassesFrom(s, y2, 2) == y4;
    assert PassesFrom(s, y1, 1) == y4;
    PassesFrom(s, x, 0)
  }

  /** Every channel's output for every input row: block `b` holds the
      `N` channel outputs of input row `b`. */
  function ChannelBlocks(bank: ErbFilterBank, x: Tensor): (blocks: seq<seq<seq<real>>>)
    requires ValidSos(bank.sos, bank.numChannels)
    ensures |blocks| == |x.rows|
    ensures forall b :: 0 <= b < |blocks| ==> |blocks[b]| == bank.numChannels
    ensures forall b, i :: 0 <= b < |blocks| && 0 <= i < bank.numChannels ==>
              blocks[b][i] == ChannelOutput(bank.sos[i], x.rows[b])
    ensures forall b, i :: 0 <= b < |blocks| && 0 <= i < |blocks[b]| ==> |blocks[b][i]| == |x.rows[b]|
  {
    var n := bank.numChannels;
    seq(|x.rows|, b requires 0 <= b < |x.rows| =>
      seq(n, i requires 0 <= i < n => ChannelOutput(bank.sos[i], x.rows[b])))
  }

  /** The forward pass: an input of shape `(..., T)` is copied to every
      channel and filtered, giving shape `(..., N, T)`; inputs with fewer
      than two axes or at most one sample are refused. The output rows are
      the channel blocks of the input rows laid end to end (ForwardRow
      locates one row; ChannelOutput lists the passes of a channel). */
  function Forward(bank: ErbFilterBank, x: Tensor): (r: Result<Tensor>)
    requires ValidSos(bank.sos, bank.numChannels) && WellFormed(x)
    ensures r.Err? <==> Ndim(x) < 2 || LastDim(x) <= 1
    ensures r.Err? ==> r.error.TypeError?
    ensures r.Ok? ==> WellFormed(r.value)
    ensures r.Ok? ==> r.value.shape == LeadingDims(x) + [bank.numChannels, LastDim(x)]
    ensures r.Ok? ==> r.value.rows == Flatten(ChannelBlocks(bank, x))
  {
    if Ndim(x) < 2 then
      Err(TypeError("the input tensor should have size (..., time)"))
    else if LastDim(x) <= 1 then
      Err(TypeError("the input tensor should have size (..., time)"))
    else
      var blocks := ChannelBlocks(bank, x);
      var out := Tensor(LeadingDims(x) + [bank.numChannels, LastDim(x)], Flatten(blocks));
      assert |Flatten(blocks)| == |blocks| * bank.numChannels by {
        FlattenLength(blocks, bank.numChannels);
      }
      ForwardShape(bank, x, blocks, out);
      Ok(out)
  }

  /** Row `b * N + i` of the forward output is channel `i` of input row
      `b`. */
  lemma ForwardRow(bank: ErbFilterBank, x: Tensor, b: nat, i: nat)
    requires ValidSos(bank.sos, bank.numChannels) && WellFormed(x)
    requires Ndim(x) >= 2 && LastDim(x) >= 2
    requires b < |x.rows| && i < bank.numChannels
    ensures Forward(bank, x).Ok?
    ensures b * bank.numChannels + i < |Forward(bank, x).value.rows|
    ensures Forward(bank, x).value.rows[b * bank.numChannels + i] == ChannelOutput(bank.sos[i], x.rows[b])
  {
    var blocks := ChannelBlocks(bank, x);
    assert Forward(bank, x).value.rows == Flatten(blocks);
    FlattenAt(blocks, bank.numChannels, b, i);
  }

  lemma ForwardShape(bank: ErbFilterBank, x: Tensor, blocks: seq<seq<seq<real>>>, out: Tensor)
    requires ValidSos(bank.sos, bank.numChannels) && WellFormed(x) && Ndim(x) >= 2
    requires |blocks| == |x.rows| && |Flatten(blocks)| == |blocks| * bank.numChannels
    requires forall b :: 0 <= b < |blocks| ==> |blocks[b]| == bank.numChannels
    requires forall b, i :: 0 <= b < |blocks| && 0 <= i < |blocks[b]| ==> |blocks[b][i]| == |x.rows[b]|
    requires out == Tensor(LeadingDims(x) + [bank.numChannels, LastDim(x)], Flatten(blocks))
    ensures WellFormed(out)
  {
    var n := bank.numChannels;
    var lead := LeadingDims(x);
    assert forall b, i :: 0 <= b < |blocks| && 0 <= i < |blocks[b]| ==> |blocks[b][i]| == LastDim(x);
    FlattenRowLength(blocks, LastDim(x));
    ProductAppend(lead, n);
    assert LeadingDims(out) == lead + [n];
  }

  /** Gain normalisation: every channel of a constructed filterbank is
      `1/gain` times the cascade of the four unnormalised pole-pair
      numerators. */
  lemma GainNormalisation(bank: ErbFilterBank, designed: ErbCoefficients, sr: real, lowest: real,
                          i: nat, x: seq<real>)
    requires Designed(designed, bank.numChannels)
    requires NewErbFilterBank(sr, bank.numChannels, lowest, designed) == Ok(bank)
    requires i < bank.numChannels
    ensures ChannelOutput(bank.sos[i], x) ==
              Scale(1.0 / designed.gain[i],
                LFilter(PolePairNumerator(designed, i, 4), Denominator(designed, i),
                  LFilter(PolePairNumerator(designed, i, 3), Denominator(designed, i),
                    LFilter(PolePairNumerator(designed, i, 2), Denominator(designed, i),
                      LFilter(PolePairNumerator(designed, i, 1), Denominator(designed, i), x)))))
  {
    var s := bank.sos[i];
    var d := Denominator(designed, i);
    var g := 1.0 / designed.gain[i];
    assert Column(s, 4) == d;
    var u1 := LFilter(PolePairNumerator(designed, i, 1), d, x);
    var u2 := LFilter(PolePairNumerator(designed, i, 2), d, u1);
    var u3 := LFilter(PolePairNumerator(designed, i, 3), d, u2);
    var u4 := LFilter(PolePairNumerator(designed, i, 4), d, u3);
    LFilterScaleNumerator(g, PolePairNumerator(designed, i, 1), d, x);
    LFilterScaleInput(g, PolePairNumerator(designed, i, 2), d, u1);
    LFilterScaleInput(g, PolePairNumerator(designed, i, 3), d, u2);
    LFilterScaleInput(g, PolePairNumerator(designed, i, 4), d, u3);
  }
}
