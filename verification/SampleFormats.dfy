/**
 Turning real samples into 16-bit integers and back: clipping, truncation, and the interleaving of two channels
 into one buffer.
 */
module SampleFormats {
  import opened Wrappers
  import opened Numbers
  import Mastering

  const INT16_MAX: real := 32768.0

  function Clip(x: real, low: real, high: real): real {
    if x < low then low else if high < x then high else x
  }

  function ToInt16(sample: real): int {
    Truncated(Clip(sample * INT16_MAX, -INT16_MAX, INT16_MAX - 1.0))
  }

  function FromInt16(value: int): real {
    value as real / INT16_MAX
  }

  ghost predicate IsInt16(value: int) {
    -32768 <= value <= 32767
  }

  lemma TruncatedIsNear(x: real)
    ensures x >= 0.0 ==> 0.0 <= Truncated(x) as real <= x < Truncated(x) as real + 1.0
    ensures x <= 0.0 ==> Truncated(x) as real - 1.0 < x <= Truncated(x) as real <= 0.0
  {
  }

  lemma TruncatedIsMonotone(x: real, y: real)
    requires x <= y
    ensures Truncated(x) <= Truncated(y)
  {
    if x < 0.0 {
      assert (-y).Floor <= (-x).Floor || y >= 0.0;
      TruncatedIsNear(x);
      TruncatedIsNear(y);
    }
  }

  /** What a sample in range loses is less than one step, always towards silence. */
  lemma QuantisationIsTowardsZero(sample: real)
    ensures IsInt16(ToInt16(sample))
    ensures -1.0 <= sample && sample * INT16_MAX <= INT16_MAX - 1.0 ==>
      && (sample >= 0.0 ==> FromInt16(ToInt16(sample)) <= sample < FromInt16(ToInt16(sample)) + 1.0 / INT16_MAX)
      && (sample <= 0.0 ==> FromInt16(ToInt16(sample)) - 1.0 / INT16_MAX < sample <= FromInt16(ToInt16(sample)))
  {
    var clipped := Clip(sample * INT16_MAX, -INT16_MAX, INT16_MAX - 1.0);
    TruncatedIsNear(clipped);
    TruncatedIsMonotone(-32768.0, clipped);
    TruncatedIsMonotone(clipped, 32767.0);
    assert Truncated(-32768.0) == -32768 && Truncated(32767.0) == 32767;
  }

  /** A louder sample never gets a smaller integer. */
  lemma ToInt16IsMonotone(x: real, y: real)
    requires x <= y
    ensures ToInt16(x) <= ToInt16(y)
  {
    TruncatedIsMonotone(Clip(x * INT16_MAX, -INT16_MAX, INT16_MAX - 1.0), Clip(y * INT16_MAX, -INT16_MAX, INT16_MAX - 1.0));
  }

  /** Reading 16-bit samples and writing them again changes none of them. */
  lemma ReadThenWritten(value: int)
    requires IsInt16(value)
    ensures ToInt16(FromInt16(value)) == value
    ensures -1.0 <= FromInt16(value) < 1.0
  {
    assert FromInt16(value) * INT16_MAX == value as real;
  }

  lemma ClippingTheTop(scaled: real)
    requires 0.0 <= scaled
    ensures Truncated(Clip(scaled, -INT16_MAX, INT16_MAX - 1.0)) == if scaled >= 32767.0 then 32767 else scaled.Floor
    ensures Truncated(Clip(-scaled, -INT16_MAX, INT16_MAX - 1.0)) == if scaled >= 32768.0 then -32768 else -scaled.Floor
  {
  }

  /** The two ends differ: a full-scale positive sample is one step short of its negative counterpart, every
      other pair of opposite samples gets opposite integers. */
  lemma QuantisationIsOdd(sample: real)
    ensures ToInt16(-sample) == -ToInt16(sample) <==> -INT16_MAX < Truncated(sample * INT16_MAX) as real < INT16_MAX
  {
    var scaled := sample * INT16_MAX;
    assert (-sample) * INT16_MAX == -scaled;
    TruncatedIsNear(scaled);
    TruncatedIsNear(-scaled);
    assert Truncated(-scaled) == -Truncated(scaled);
    if scaled > 0.0 {
      ClippingTheTop(scaled);
    } else {
      ClippingTheTop(-scaled);
    }
    assert Truncated(-32768.0) == -32768 && Truncated(32767.0) == 32767;
  }

  /** After the soft clipper the 16-bit clip never acts: the mastered sample is only truncated. */
  lemma MasteredSamplesAreNotClipped(x: real, tanh: real -> real)
    requires Mastering.IsTanh(tanh)
    ensures var mastered := Mastering.SoftClipped(x, Mastering.DEFAULT_SOFT_CLIP_CEILING, tanh);
            && Clip(mastered * INT16_MAX, -INT16_MAX, INT16_MAX - 1.0) == mastered * INT16_MAX
            && ToInt16(-mastered) == -ToInt16(mastered)
  {
    var mastered := Mastering.SoftClipped(x, Mastering.DEFAULT_SOFT_CLIP_CEILING, tanh);
    Mastering.SoftClipStaysBelowTheCeiling(x, Mastering.DEFAULT_SOFT_CLIP_CEILING, tanh);
    QuantisationIsOdd(mastered);
    TruncatedIsNear(mastered * INT16_MAX);
  }

  // ---------------------------------------------------------------- interleaving

  /** The buffer holds the two channels' integers by turns, left first, as far as both go. */
  ghost predicate Interleaves(buffer: seq<int>, left: seq<real>, right: seq<real>) {
    && |buffer| == 2 * Min(|left|, |right|)
    && forall i | 0 <= i < Min(|left|, |right|) ::
      buffer[2 * i] == ToInt16(left[i]) && buffer[2 * i + 1] == ToInt16(right[i])
  }

  method InterleaveToInt16(left: seq<real>, right: seq<real>) returns (interleaved: array<int>)
    ensures fresh(interleaved) && Interleaves(interleaved[..], left, right)
  {
    hide ToInt16;
    var n := Min(|left|, |right|);
    interleaved := new int[2 * n](_ => 0);
    for i := 0 to n
      invariant forall k | 0 <= k < i :: interleaved[2 * k] == ToInt16(left[k])
    {
      interleaved[2 * i] := ToInt16(left[i]);
    }
    for i := 0 to n
      invariant forall k | 0 <= k < n :: interleaved[2 * k] == ToInt16(left[k])
      invariant forall k | 0 <= k < i :: interleaved[2 * k + 1] == ToInt16(right[k])
    {
      interleaved[2 * i + 1] := ToInt16(right[i]);
    }
  }

  /** The samples of one file, by the type they are stored in. */
  datatype Raw = Int16(values: seq<int>) | Int32(values: seq<int>) | UInt8(values: seq<int>)
               | Float(samples: seq<real>) | Unsupported
  {
    ghost predicate InRange() {
      match this
      case Int16(values) => forall i | 0 <= i < |values| :: IsInt16(values[i])
      case Int32(values) => forall i | 0 <= i < |values| :: -2147483648 <= values[i] <= 2147483647
      case UInt8(values) => forall i | 0 <= i < |values| :: 0 <= values[i] <= 255
      case _ => true
    }
  }

  function NormalizeDtype(raw: Raw): Option<seq<real>> {
    match raw
    case Int16(values) => Some(seq(|values|, i requires 0 <= i < |values| => FromInt16(values[i])))
    case Int32(values) => Some(seq(|values|, i requires 0 <= i < |values| => values[i] as real / 2147483648.0))
    case UInt8(values) => Some(seq(|values|, i requires 0 <= i < |values| => (values[i] as real - 128.0) / 128.0))
    case Float(samples) => Some(samples)
    case Unsupported => None
  }

  /** Integer samples come out in [-1, 1), in the same number; only an unknown type is turned away. */
  lemma IntegersBecomeFractions(raw: Raw)
    requires raw.InRange()
    ensures NormalizeDtype(raw).None? <==> raw.Unsupported?
    ensures raw.Int16? || raw.Int32? || raw.UInt8? ==>
      && |NormalizeDtype(raw).value| == |raw.values|
      && forall i | 0 <= i < |raw.values| :: -1.0 <= NormalizeDtype(raw).value[i] < 1.0
  {
  }

  /** A decoded sample is the stored integer's share of its type's full scale; floats are taken as they are. */
  lemma DecodingIsExact(raw: Raw, i: nat)
    requires !raw.Unsupported? && i < |NormalizeDtype(raw).value|
    ensures var sample := NormalizeDtype(raw).value[i];
            match raw
            case Int16(values) => i < |values| && sample * 32768.0 == values[i] as real
            case Int32(values) => i < |values| && sample * 2147483648.0 == values[i] as real
            case UInt8(values) => i < |values| && sample * 128.0 == (values[i] - 128) as real
            case Float(samples) => i < |samples| && sample == samples[i]
            case Unsupported => true
  {
  }

  /** Decoding any integer file and encoding it as 16 bits keeps 16-bit samples, scales 8-bit ones exactly, and drops
      the lower half of 32-bit ones towards zero. */
  lemma DecodedThenEncoded(raw: Raw, i: nat)
    requires raw.InRange() && !raw.Unsupported? && !raw.Float? && i < |raw.values|
    ensures var sample, value := NormalizeDtype(raw).value[i], raw.values[i];
            ToInt16(sample) == if raw.Int16? then value
                               else if raw.UInt8? then 256 * (value - 128)
                               else if value >= 0 then value / 65536 else -((-value) / 65536)
  {
    hide ToInt16;
    ReadThenWritten(if raw.Int16? then raw.values[i] else 0);
    WidthsAgree(raw.values[i]);
  }

  /** A 16-bit value written from a sample of another width: 8-bit samples are kept exactly, 32-bit samples lose
      their lower half towards zero. */
  lemma WidthsAgree(value: int)
    ensures 0 <= value <= 255 ==> ToInt16((value as real - 128.0) / 128.0) == 256 * (value - 128)
    ensures -2147483648 <= value <= 2147483647 ==>
      ToInt16(value as real / 2147483648.0) == if value >= 0 then value / 65536 else -((-value) / 65536)
  {
    if -2147483648 <= value <= 2147483647 {
      var magnitude := if value >= 0 then value else -value;
      FloorOfAQuotient(magnitude, 65536);
      assert value as real / 2147483648.0 * INT16_MAX == value as real / 65536.0;
      assert (-value) as real / 65536.0 == -(value as real / 65536.0);
      ClipOfAWideSample(value);
    }
  }

  lemma FloorOfAQuotient(a: nat, b: int)
    requires 0 < b
    ensures (a as real / b as real).Floor == a / b
  {
    var q, r := a / b, a % b;
    assert a == q * b + r;
    assert a as real == q as real * b as real + r as real;
    assert a as real / b as real == q as real + r as real / b as real;
    assert 0.0 <= r as real / b as real < 1.0;
  }

  /** Only the topmost half step is clipped, and truncation would have dropped it anyway. */
  lemma ClipOfAWideSample(value: int)
    requires -2147483648 <= value <= 2147483647
    ensures var scaled := value as real / 65536.0;
            Truncated(Clip(scaled, -INT16_MAX, INT16_MAX - 1.0)) == Truncated(scaled)
  {
    var scaled := value as real / 65536.0;
    assert -32768.0 <= scaled < 32768.0;
    if scaled > 32767.0 {
      assert scaled.Floor == 32767;
    }
  }

  /** The samples of the interleaved buffer, read back by channel. */
  function Channel(values: seq<int>, first: nat): seq<real>
    requires first < 2 && |values| % 2 == 0
  {
    seq(|values| / 2, i requires 0 <= i < |values| / 2 => FromInt16(values[2 * i + first]))
  }

  /** Writing out what was read gives the same buffer, both channels in place. */
  lemma StereoRoundTrip(values: seq<int>, written: seq<int>)
    requires |values| % 2 == 0 && Int16(values).InRange()
    requires Interleaves(written, Channel(values, 0), Channel(values, 1))
    ensures written == values
  {
    hide ToInt16, FromInt16;
    forall k | 0 <= k < |values| ensures written[k] == values[k] {
      var i := k / 2;
      assert k == 2 * i + k % 2 && Channel(values, k % 2)[i] == FromInt16(values[k]);
      ReadThenWritten(values[k]);
    }
  }
}
