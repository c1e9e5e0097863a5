/**
 Dynamics of the mastering chain: the envelope follower, the compressor driven by it, and the soft clipper.
 Samples are reals. The smoothing coefficients and the hyperbolic tangent are parameters; what is assumed of
 the tangent is `IsTanh`.
 */
module Mastering {
  import opened Wrappers

  const MIN_RMS_FLOOR: real := 0.0000000001
  const SOFT_CLIP_KNEE: real := 0.85
  const DEFAULT_SOFT_CLIP_CEILING: real := 0.98

  function Abs(x: real): real {
    if x < 0.0 then -x else x
  }

  function Max(x: real, y: real): real {
    if x < y then y else x
  }

  ghost predicate IsCoefficient(c: real) {
    0.0 <= c <= 1.0
  }

  // ---------------------------------------------------------------- envelope

  /** The product, named so that proofs can treat it as one term. */
  function Times(c: real, x: real): real {
    c * x
  }

  function Blend(c: real, a: real, b: real): real {
    Times(c, a) + Times(1.0 - c, b)
  }

  /** One step of the follower: quick towards a louder sample, slow towards a quieter one. */
  function Follow(before: real, magnitude: real, attack: real, release: real): real {
    Blend(if magnitude > before then attack else release, before, magnitude)
  }

  function EnvelopeAt(magnitudes: seq<real>, i: nat, attack: real, release: real): real
    requires i < |magnitudes|
  {
    if i == 0 then magnitudes[0]
    else Follow(EnvelopeAt(magnitudes, i - 1, attack, release), magnitudes[i], attack, release)
  }

  lemma EnvelopeStep(magnitudes: seq<real>, i: nat, attack: real, release: real)
    requires i < |magnitudes|
    ensures EnvelopeAt(magnitudes, i, attack, release) ==
            if i == 0 then magnitudes[0]
            else
              var before := EnvelopeAt(magnitudes, i - 1, attack, release);
              Blend(if magnitudes[i] > before then attack else release, before, magnitudes[i])
  {
  }

  datatype IndexError = IndexError

  /** The code writes the first entry before it looks at the length: no samples is an `IndexError`. */
  method EnvelopeFollower(magnitudes: array<real>, attack: real, release: real)
    returns (result: Result<array<real>, IndexError>)
    ensures result.Failure? <==> magnitudes.Length == 0
    ensures result.Success? ==>
      && fresh(result.value) && result.value.Length == magnitudes.Length
      && forall i | 0 <= i < magnitudes.Length ::
        result.value[i] == EnvelopeAt(magnitudes[..], i, attack, release)
  {
    hide Blend, EnvelopeAt;
    var n := magnitudes.Length;
    if n == 0 {
      return Failure(IndexError);
    }
    var envelope := new real[n](_ => 0.0);
    envelope[0] := magnitudes[0];
    EnvelopeStep(magnitudes[..], 0, attack, release);
    for i := 1 to n
      invariant forall k | 0 <= k < i :: envelope[k] == EnvelopeAt(magnitudes[..], k, attack, release)
    {
      EnvelopeStep(magnitudes[..], i, attack, release);
      if magnitudes[i] > envelope[i - 1] {
        envelope[i] := Blend(attack, envelope[i - 1], magnitudes[i]);
      } else {
        envelope[i] := Blend(release, envelope[i - 1], magnitudes[i]);
      }
    }
    result := Success(envelope);
  }

  lemma BlendIsBetween(c: real, a: real, b: real)
    requires IsCoefficient(c)
    ensures a <= b ==> a <= Blend(c, a, b) <= b
    ensures b <= a ==> b <= Blend(c, a, b) <= a
  {
    BlendOfTheSame(c, a);
    BlendOfTheSame(c, b);
    if a <= b {
      BlendKeepsOrder(c, a, a, a, b);
      BlendKeepsOrder(c, a, b, b, b);
    } else {
      BlendKeepsOrder(c, b, b, a, b);
      BlendKeepsOrder(c, a, b, a, a);
    }
  }

  lemma BlendKeepsOrder(c: real, a: real, b: real, a': real, b': real)
    requires IsCoefficient(c) && a <= a' && b <= b'
    ensures Blend(c, a, b) <= Blend(c, a', b')
  {
    hide Times;
    TimesKeepsOrder(c, a, a');
    TimesKeepsOrder(1.0 - c, b, b');
  }

  lemma TimesKeepsOrder(c: real, x: real, y: real)
    requires 0.0 <= c && x <= y
    ensures Times(c, x) <= Times(c, y)
  {
  }

  /** Lower and upper bounds of the magnitudes so far bound the envelope: it never overshoots a peak and never
      falls below the quietest sample seen. */
  lemma {:induction false} EnvelopeIsBetween(magnitudes: seq<real>, i: nat, attack: real, release: real, least: real, greatest: real)
    requires i < |magnitudes| && IsCoefficient(attack) && IsCoefficient(release)
    requires forall k | 0 <= k <= i :: least <= magnitudes[k] <= greatest
    ensures least <= EnvelopeAt(magnitudes, i, attack, release) <= greatest
  {
    hide Blend, Follow;
    if i > 0 {
      EnvelopeIsBetween(magnitudes, i - 1, attack, release, least, greatest);
      var before := EnvelopeAt(magnitudes, i - 1, attack, release);
      FollowIsBetween(before, magnitudes[i], attack, release);
    }
  }

  lemma FollowIsBetween(before: real, magnitude: real, attack: real, release: real)
    requires IsCoefficient(attack) && IsCoefficient(release)
    ensures before <= magnitude ==> before <= Follow(before, magnitude, attack, release) <= magnitude
    ensures magnitude <= before ==> magnitude <= Follow(before, magnitude, attack, release) <= before
  {
    BlendIsBetween(attack, before, magnitude);
    BlendIsBetween(release, before, magnitude);
  }

  lemma FollowIsMonotone(before: real, magnitude: real, before': real, magnitude': real, attack: real, release: real)
    requires IsCoefficient(attack) && IsCoefficient(release)
    requires before <= before' && magnitude <= magnitude'
    ensures Follow(before, magnitude, attack, release) <= Follow(before', magnitude', attack, release)
  {
    hide Blend;
    FollowIsBetween(before, magnitude, attack, release);
    FollowIsBetween(before', magnitude', attack, release);
    if (magnitude > before) == (magnitude' > before') {
      BlendKeepsOrder(if magnitude > before then attack else release, before, magnitude, before', magnitude');
    }
    // otherwise one of the two rises to its sample at most, and the other falls to its own at most
  }

  /** A louder signal never has a lower envelope. */
  lemma {:induction false} EnvelopeIsMonotone(quiet: seq<real>, loud: seq<real>, i: nat, attack: real, release: real)
    requires i < |quiet| && i < |loud| && IsCoefficient(attack) && IsCoefficient(release)
    requires forall k | 0 <= k <= i :: quiet[k] <= loud[k]
    ensures EnvelopeAt(quiet, i, attack, release) <= EnvelopeAt(loud, i, attack, release)
  {
    if i > 0 {
      EnvelopeIsMonotone(quiet, loud, i - 1, attack, release);
      FollowIsMonotone(EnvelopeAt(quiet, i - 1, attack, release), quiet[i],
                       EnvelopeAt(loud, i - 1, attack, release), loud[i], attack, release);
    }
  }

  function Power(c: real, k: nat): real {
    if k == 0 then 1.0 else c * Power(c, k - 1)
  }

  lemma {:induction false} PowerIsACoefficient(c: real, k: nat)
    requires IsCoefficient(c)
    ensures IsCoefficient(Power(c, k))
  {
    if k > 0 {
      PowerIsACoefficient(c, k - 1);
      BlendIsBetween(c, Power(c, k - 1), 0.0);
    }
  }

  lemma BlendOfTheSame(c: real, level: real)
    ensures Blend(c, level, level) == level
  {
  }

  lemma BlendTwice(c: real, power: real, start: real, level: real, next: real)
    requires next == c * power
    ensures Blend(c, Blend(power, start, level), level) == Blend(next, start, level)
  {
    var e := Blend(power, start, level);
    assert e == level + power * (start - level);
    assert Blend(c, e, level) == level + c * (e - level);
    assert c * (power * (start - level)) == next * (start - level);
  }

  /** While the signal holds a level, the envelope's distance to it shrinks by the attack coefficient on every
      sample when the level is above the envelope, by the release coefficient otherwise. */
  lemma {:induction false} EnvelopeSettles(magnitudes: seq<real>, i: nat, k: nat, attack: real, release: real, level: real)
    requires i + k < |magnitudes| && IsCoefficient(attack) && IsCoefficient(release)
    requires forall j | i < j <= i + k :: magnitudes[j] == level
    ensures var start := EnvelopeAt(magnitudes, i, attack, release);
            var c := if level > start then attack else release;
            EnvelopeAt(magnitudes, i + k, attack, release) == Blend(Power(c, k), start, level)
  {
    hide Blend, EnvelopeAt;
    var start := EnvelopeAt(magnitudes, i, attack, release);
    var c := if level > start then attack else release;
    if k == 0 {
      BlendWithOne(start, level);
    } else {
      EnvelopeSettles(magnitudes, i, k - 1, attack, release, level);
      EnvelopeStep(magnitudes, i + k, attack, release);
      PowerIsACoefficient(c, k - 1);
      StepTowards(Power(c, k - 1), start, level, attack, release, Power(c, k));
    }
  }

  lemma StepTowards(power: real, start: real, level: real, attack: real, release: real, next: real)
    requires IsCoefficient(power) && next == (if level > start then attack else release) * power
    ensures var before := Blend(power, start, level);
            Blend(if level > before then attack else release, before, level) == Blend(next, start, level)
  {
    hide Blend;
    var c := if level > start then attack else release;
    BlendIsBetween(power, start, level);
    BlendTwice(c, power, start, level, next);
    BlendOfTheSame(attack, level);
    BlendOfTheSame(release, level);
  }

  lemma BlendWithOne(a: real, b: real)
    ensures Blend(1.0, a, b) == a
  {
  }

  // ---------------------------------------------------------------- compressor

  function Gain(envelope: real, threshold: real, ratio: real): real
    requires ratio != 0.0
  {
    if envelope > threshold then (threshold + (envelope - threshold) / ratio) / Max(envelope, MIN_RMS_FLOOR)
    else 1.0
  }

  lemma QuotientIsAtLeast(x: real, d: real, low: real)
    requires 0.0 < d && low * d <= x
    ensures low <= x / d
  {
    var q := x / d;
    assert q * d == x;
    if q < low {
      Product(low - q, d);
    }
  }

  lemma QuotientIsAtMost(x: real, d: real, high: real)
    requires 0.0 < d && x <= high * d
    ensures x / d <= high
  {
    var q := x / d;
    assert q * d == x;
    if high < q {
      Product(q - high, d);
    }
  }

  lemma Product(x: real, y: real)
    requires 0.0 < x && 0.0 < y
    ensures 0.0 < x * y
  {
  }

  lemma QuotientIsSmaller(x: real, ratio: real)
    requires 0.0 <= x && 1.0 <= ratio
    ensures 0.0 <= x / ratio <= x
  {
    TimesKeepsOrder(x, 1.0, ratio);
    QuotientIsAtMost(x, ratio, x);
    QuotientIsAtLeast(x, ratio, 0.0);
  }

  lemma QuotientIsAtMostOne(x: real, d: real)
    requires 0.0 < x <= d
    ensures 0.0 < x / d <= 1.0
  {
    QuotientIsAtMost(x, d, 1.0);
    QuotientIsAtLeast(x, d, 0.0);
    assert (x / d) * d == x;
  }

  /** Compression only turns down, never off and never over: the gain lies in (0, 1]. With a threshold above the
      noise floor it does not fall below one part in `ratio`. */
  lemma GainOnlyTurnsDown(envelope: real, threshold: real, ratio: real)
    requires 0.0 < threshold && 1.0 <= ratio
    ensures 0.0 < Gain(envelope, threshold, ratio) <= 1.0
    ensures envelope <= threshold ==> Gain(envelope, threshold, ratio) == 1.0
    ensures MIN_RMS_FLOOR <= threshold ==> 1.0 / ratio <= Gain(envelope, threshold, ratio)
  {
    QuotientIsSmaller(1.0, ratio);
    if envelope > threshold {
      var d := Max(envelope, MIN_RMS_FLOOR);
      QuotientIsSmaller(envelope - threshold, ratio);
      var level := threshold + (envelope - threshold) / ratio;
      QuotientIsAtMostOne(level, d);
      if MIN_RMS_FLOOR <= threshold {
        PartOf(envelope, threshold, ratio);
        QuotientIsAtLeast(level, d, 1.0 / ratio);
      }
    }
  }

  lemma PartOf(envelope: real, threshold: real, ratio: real)
    requires 0.0 < threshold < envelope && 1.0 <= ratio
    ensures (1.0 / ratio) * envelope <= threshold + (envelope - threshold) / ratio
  {
    var part := 1.0 / ratio;
    QuotientIsSmaller(1.0, ratio);
    assert part * ratio == 1.0;
    assert (part * (envelope - threshold)) * ratio == (envelope - threshold) * (part * ratio) == envelope - threshold;
    assert (envelope - threshold) / ratio == part * (envelope - threshold);
    assert part * threshold <= threshold by { TimesKeepsOrder(threshold, part, 1.0); }
  }

  /** Above the threshold the gain brings the envelope down to the threshold plus its excess divided by the ratio;
      an envelope below a ten-billionth counts as that much. */
  lemma GainIsExact(envelope: real, threshold: real, ratio: real)
    requires 0.0 < ratio && threshold < envelope
    ensures Gain(envelope, threshold, ratio) * (if envelope < 0.0000000001 then 0.0000000001 else envelope)
            == threshold + (envelope - threshold) / ratio
  {
  }

  function Magnitudes(signal: seq<real>): (r: seq<real>)
    ensures |r| == |signal|
  {
    seq(|signal|, i requires 0 <= i < |signal| => Abs(signal[i]))
  }

  function Compressed(signal: seq<real>, threshold: real, ratio: real, attack: real, release: real, i: nat): real
    requires i < |signal| && ratio != 0.0
  {
    Times(signal[i], Gain(EnvelopeAt(Magnitudes(signal), i, attack, release), threshold, ratio))
  }

  method Gains(envelope: array<real>, threshold: real, ratio: real) returns (gains: array<real>)
    requires ratio != 0.0
    ensures fresh(gains) && gains.Length == envelope.Length
    ensures forall i | 0 <= i < envelope.Length :: gains[i] == Gain(envelope[i], threshold, ratio)
  {
    gains := new real[envelope.Length](_ => 1.0);
    for i := 0 to envelope.Length
      invariant forall k | 0 <= k < envelope.Length ::
        gains[k] == if k < i then Gain(envelope[k], threshold, ratio) else 1.0
    {
      if envelope[i] > threshold {
        gains[i] := (threshold + (envelope[i] - threshold) / ratio) / Max(envelope[i], MIN_RMS_FLOOR);
      }
    }
  }

  method CompressSignal(signal: array<real>, threshold: real, ratio: real, attack: real, release: real)
    returns (result: Result<array<real>, IndexError>)
    requires ratio != 0.0
    ensures result.Failure? <==> signal.Length == 0
    ensures result.Success? ==>
      && fresh(result.value) && result.value.Length == signal.Length
      && forall i | 0 <= i < signal.Length ::
        result.value[i] == Compressed(signal[..], threshold, ratio, attack, release, i)
  {
    hide EnvelopeAt, Gain;
    var n := signal.Length;
    var magnitudes := new real[n](i requires 0 <= i < n reads signal => Abs(signal[i]));
    assert magnitudes[..] == Magnitudes(signal[..]);
    var followed := EnvelopeFollower(magnitudes, attack, release);
    if followed.Failure? {
      return Failure(IndexError);
    }
    var gains := Gains(followed.value, threshold, ratio);
    var out := new real[n](i requires 0 <= i < n reads signal, gains => signal[i] * gains[i]);
    forall i | 0 <= i < n ensures out[i] == Compressed(signal[..], threshold, ratio, attack, release, i) {
      assert signal[..][i] == signal[i];
      assert gains[i] == Gain(EnvelopeAt(magnitudes[..], i, attack, release), threshold, ratio);
    }
    result := Success(out);
  }

  lemma ScaledDown(x: real, gain: real, least: real)
    requires 0.0 < gain <= 1.0 && least <= gain
    ensures Times(Abs(x), least) <= Abs(Times(x, gain)) == Times(Abs(x), gain) <= Abs(x)
    ensures (Times(x, gain) > 0.0 <==> x > 0.0) && (Times(x, gain) < 0.0 <==> x < 0.0)
  {
    TimesKeepsOrder(Abs(x), least, gain);
    var y := x * gain;
    assert (-x) * gain == -y;
    if x != 0.0 {
      Product(Abs(x), gain);
      TimesKeepsOrder(Abs(x), gain, 1.0);
      assert if x < 0.0 then 0.0 < -y <= -x else 0.0 < y <= x;
    }
  }

  /** Compression never raises a magnitude, never flips or silences a sample, and takes away no more than the
      ratio allows. */
  lemma CompressionOnlyTurnsDown(signal: seq<real>, threshold: real, ratio: real, attack: real, release: real, i: nat)
    requires i < |signal| && 0.0 < threshold && 1.0 <= ratio
    ensures var out := Compressed(signal, threshold, ratio, attack, release, i);
            && Abs(out) <= Abs(signal[i])
            && (out > 0.0 <==> signal[i] > 0.0) && (out < 0.0 <==> signal[i] < 0.0)
            && (MIN_RMS_FLOOR <= threshold ==> Times(Abs(signal[i]), 1.0 / ratio) <= Abs(out))
  {
    hide Times, Gain, EnvelopeAt, Magnitudes;
    var envelope := EnvelopeAt(Magnitudes(signal), i, attack, release);
    GainOnlyTurnsDown(envelope, threshold, ratio);
    var gain := Gain(envelope, threshold, ratio);
    ScaledDown(signal[i], gain, if MIN_RMS_FLOOR <= threshold then 1.0 / ratio else gain);
  }

  /** Up to the first sample above the threshold nothing is changed. */
  lemma QuietSignalsPass(signal: seq<real>, threshold: real, ratio: real, attack: real, release: real, i: nat)
    requires i < |signal| && ratio != 0.0 && IsCoefficient(attack) && IsCoefficient(release)
    requires forall k | 0 <= k <= i :: Abs(signal[k]) <= threshold
    ensures Compressed(signal, threshold, ratio, attack, release, i) == signal[i]
  {
    var least := Quietest(Magnitudes(signal), i);
    EnvelopeIsBetween(Magnitudes(signal), i, attack, release, least, threshold);
  }

  ghost function Quietest(magnitudes: seq<real>, i: nat): (least: real)
    requires i < |magnitudes|
    ensures forall k | 0 <= k <= i :: least <= magnitudes[k]
  {
    if i == 0 then magnitudes[0]
    else
      var before := Quietest(magnitudes, i - 1);
      if before <= magnitudes[i] then before else magnitudes[i]
  }

  /** A steady tone above the threshold comes out at the threshold plus its excess divided by the ratio. */
  lemma SteadyToneFollowsTheRatio(signal: seq<real>, threshold: real, ratio: real, attack: real, release: real, i: nat, level: real)
    requires i < |signal| && 0.0 < threshold < level && MIN_RMS_FLOOR <= level && 1.0 <= ratio
    requires IsCoefficient(attack) && IsCoefficient(release)
    requires forall k | 0 <= k <= i :: Abs(signal[k]) == level
    ensures Abs(Compressed(signal, threshold, ratio, attack, release, i)) == threshold + (level - threshold) / ratio
  {
    EnvelopeIsBetween(Magnitudes(signal), i, attack, release, level, level);
    GainOnlyTurnsDown(level, threshold, ratio);
    ScaledDown(signal[i], Gain(level, threshold, ratio), 0.0);
  }

  /** The compressor answers to the envelope, not to the sample: when a steady tone changes its level, each sample is
      turned down by what the envelope still is, which approaches the new level by the attack or release
      coefficient. */
  lemma CompressionFollowsTheEnvelope(signal: seq<real>, threshold: real, ratio: real, attack: real, release: real,
                                      i: nat, k: nat, before: real, level: real, envelope: real)
    requires i + k < |signal| && 0.0 < threshold && 1.0 <= ratio && IsCoefficient(attack) && IsCoefficient(release)
    requires forall j | 0 <= j <= i :: Abs(signal[j]) == before
    requires forall j | i < j <= i + k :: Abs(signal[j]) == level
    requires var c := if level > before then attack else release;
             envelope == Power(c, k) * before + (1.0 - Power(c, k)) * level
    ensures var gain := if envelope <= threshold then 1.0
                        else (threshold + (envelope - threshold) / ratio) / (if envelope < 0.0000000001 then 0.0000000001 else envelope);
            Compressed(signal, threshold, ratio, attack, release, i + k) == signal[i + k] * gain
  {
    hide Power, Gain, Times, EnvelopeAt, Magnitudes;
    StepInTheSignal(signal, attack, release, i, k, before, level, envelope);
    ProductWithGain(signal[i + k], envelope, threshold, ratio);
  }

  lemma StepInTheSignal(signal: seq<real>, attack: real, release: real, i: nat, k: nat, before: real, level: real, envelope: real)
    requires i + k < |signal| && IsCoefficient(attack) && IsCoefficient(release)
    requires forall j | 0 <= j <= i :: Abs(signal[j]) == before
    requires forall j | i < j <= i + k :: Abs(signal[j]) == level
    requires var c := if level > before then attack else release;
             envelope == Power(c, k) * before + (1.0 - Power(c, k)) * level
    ensures EnvelopeAt(Magnitudes(signal), i + k, attack, release) == envelope
  {
    hide Power, Blend, EnvelopeAt, Abs, Magnitudes;
    MagnitudesAreAbsolute(signal);
    EnvelopeIsBetween(Magnitudes(signal), i, attack, release, before, before);
    EnvelopeSettles(Magnitudes(signal), i, k, attack, release, level);
    BlendIs(Power(if level > before then attack else release, k), before, level, envelope);
  }

  lemma ProductWithGain(x: real, envelope: real, threshold: real, ratio: real)
    requires ratio != 0.0
    ensures var gain := if envelope <= threshold then 1.0
                        else (threshold + (envelope - threshold) / ratio) / (if envelope < 0.0000000001 then 0.0000000001 else envelope);
            Times(x, Gain(envelope, threshold, ratio)) == x * gain
  {
    GainSpelledOut(envelope, threshold, ratio);
    hide Gain;
  }

  lemma GainSpelledOut(envelope: real, threshold: real, ratio: real)
    requires ratio != 0.0
    ensures Gain(envelope, threshold, ratio)
            == if envelope <= threshold then 1.0
               else (threshold + (envelope - threshold) / ratio) / (if envelope < 0.0000000001 then 0.0000000001 else envelope)
  {
  }

  lemma MagnitudesAreAbsolute(signal: seq<real>)
    ensures |Magnitudes(signal)| == |signal| && forall i | 0 <= i < |signal| :: Magnitudes(signal)[i] == Abs(signal[i])
  {
  }

  lemma BlendIs(c: real, a: real, b: real, blended: real)
    requires blended == c * a + (1.0 - c) * b
    ensures Blend(c, a, b) == blended
  {
  }

  // ---------------------------------------------------------------- soft clip

  /** Odd, monotone, and between 0 and both its argument and 1 on the positive side. */
  ghost predicate IsTanh(tanh: real -> real) {
    && (forall x :: tanh(-x) == -tanh(x))
    && (forall x, y | x <= y :: tanh(x) <= tanh(y))
    && (forall x | 0.0 <= x :: 0.0 <= tanh(x) && tanh(x) <= x && tanh(x) <= 1.0)
  }

  function Sign(x: real): real {
    if x > 0.0 then 1.0 else if x < 0.0 then -1.0 else 0.0
  }

  function Saturated(magnitude: real, knee: real, ceiling: real, tanh: real -> real): real
    requires ceiling != knee
  {
    knee + (ceiling - knee) * tanh((magnitude - knee) / (ceiling - knee))
  }

  function SoftClipped(x: real, ceiling: real, tanh: real -> real): real
    requires ceiling > 0.0
  {
    var knee := SOFT_CLIP_KNEE * ceiling;
    if Abs(x) > knee then Sign(x) * Saturated(Abs(x), knee, ceiling, tanh) else x
  }

  method SoftClip(samples: array<real>, ceiling: real, tanh: real -> real) returns (result: array<real>)
    requires ceiling > 0.0
    ensures result.Length == samples.Length && (samples.Length == 0 ==> result == samples)
    ensures 0 < samples.Length ==> fresh(result)
    ensures forall i | 0 <= i < samples.Length :: result[i] == SoftClipped(samples[i], ceiling, tanh)
  {
    if samples.Length == 0 {
      return samples;
    }
    var knee := SOFT_CLIP_KNEE * ceiling;
    result := new real[samples.Length](i requires 0 <= i < samples.Length reads samples => samples[i]);
    for i := 0 to samples.Length
      invariant forall k | 0 <= k < samples.Length ::
        result[k] == if k < i then SoftClipped(samples[k], ceiling, tanh) else samples[k]
    {
      if Abs(samples[i]) > knee {
        result[i] := Sign(samples[i]) * (knee + (ceiling - knee) * tanh((Abs(samples[i]) - knee) / (ceiling - knee)));
      }
    }
  }

  lemma SaturatedStaysInside(magnitude: real, knee: real, ceiling: real, tanh: real -> real)
    requires IsTanh(tanh) && 0.0 < knee < ceiling && knee < magnitude
    ensures knee <= Saturated(magnitude, knee, ceiling, tanh) <= ceiling
    ensures Saturated(magnitude, knee, ceiling, tanh) <= magnitude
  {
    var room := ceiling - knee;
    var scaled := (magnitude - knee) / room;
    assert scaled * room == magnitude - knee;
    QuotientIsAtLeast(magnitude - knee, room, 0.0);
    var t := tanh(scaled);
    assert 0.0 <= t && t <= scaled && t <= 1.0;
    TimesKeepsOrder(room, 0.0, t);
    TimesKeepsOrder(room, t, scaled);
    TimesKeepsOrder(room, t, 1.0);
    assert room * scaled == scaled * room;
  }

  lemma SaturatedIsMonotone(quiet: real, loud: real, knee: real, ceiling: real, tanh: real -> real)
    requires IsTanh(tanh) && 0.0 < knee < ceiling && quiet <= loud
    ensures Saturated(quiet, knee, ceiling, tanh) <= Saturated(loud, knee, ceiling, tanh)
  {
    var room := ceiling - knee;
    var low, high := (quiet - knee) / room, (loud - knee) / room;
    assert low * room == quiet - knee;
    QuotientIsAtLeast(loud - knee, room, low);
    TimesKeepsOrder(room, tanh(low), tanh(high));
  }

  /** The clipper is odd, keeps sign, never exceeds the ceiling nor the sample it is given, and passes what is
      below the knee. */
  lemma SoftClipStaysBelowTheCeiling(x: real, ceiling: real, tanh: real -> real)
    requires IsTanh(tanh) && 0.0 < ceiling
    ensures var y := SoftClipped(x, ceiling, tanh);
            && Abs(y) <= ceiling && Abs(y) <= Abs(x)
            && (y > 0.0 <==> x > 0.0) && (y < 0.0 <==> x < 0.0)
            && (Abs(x) <= SOFT_CLIP_KNEE * ceiling ==> y == x)
            && (Abs(x) > SOFT_CLIP_KNEE * ceiling ==> SOFT_CLIP_KNEE * ceiling <= Abs(y))
            && SoftClipped(-x, ceiling, tanh) == -y
  {
    var knee := SOFT_CLIP_KNEE * ceiling;
    if Abs(x) > knee {
      SaturatedStaysInside(Abs(x), knee, ceiling, tanh);
    }
  }

  /** Louder samples stay at least as loud: the clipper never folds the waveform over. */
  lemma SoftClipIsMonotone(x: real, y: real, ceiling: real, tanh: real -> real)
    requires IsTanh(tanh) && 0.0 < ceiling && x <= y
    ensures SoftClipped(x, ceiling, tanh) <= SoftClipped(y, ceiling, tanh)
  {
    var knee := SOFT_CLIP_KNEE * ceiling;
    SoftClipStaysBelowTheCeiling(x, ceiling, tanh);
    SoftClipStaysBelowTheCeiling(y, ceiling, tanh);
    if x > knee {
      SaturatedIsMonotone(x, y, knee, ceiling, tanh);
    } else if y < -knee {
      SaturatedIsMonotone(-y, -x, knee, ceiling, tanh);
    }
  }
}
