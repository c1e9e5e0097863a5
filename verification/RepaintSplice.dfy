/**
 Splicing a repainted range into the source take: outside the range the source stays, inside it the
 repaint replaces it, and a fade at each inner edge mixes the two. The fades are applied in place,
 channel by channel, on copies of the source.
 */
module RepaintSplice {
  import opened Numbers

  const CROSSFADE_SECONDS: real := 0.05

  /** Lengths of the fade into and out of the repainted region. */
  function FadeLengths(region: int, fade: nat, hasFadeIn: bool, hasFadeOut: bool): (int, int) {
    if hasFadeIn && hasFadeOut then
      var fadeIn := Min(fade, region / 2);
      (fadeIn, Min(fade, region - fadeIn))
    else if hasFadeIn then (Min(fade, region), 0)
    else if hasFadeOut then (0, Min(fade, region))
    else (0, 0)
  }

  /** The fades share the region without overlap, none is longer than asked for, and each reaches its full
      length when the region has room for both. */
  lemma FadesDoNotOverlap(region: nat, fade: nat, hasFadeIn: bool, hasFadeOut: bool)
    ensures var (fadeIn, fadeOut) := FadeLengths(region, fade, hasFadeIn, hasFadeOut);
            && 0 <= fadeIn <= fade && 0 <= fadeOut <= fade && fadeIn + fadeOut <= region
            && (hasFadeIn && 2 * fade <= region ==> fadeIn == fade)
            && (hasFadeOut && 2 * fade <= region ==> fadeOut == fade)
            && (hasFadeIn && hasFadeOut ==> -1 <= fadeIn - fadeOut <= 1 && (region < 2 * fade ==> fadeIn + fadeOut == region))
            && (hasFadeIn && !hasFadeOut ==> fadeOut == 0 && fadeIn == if fade <= region then fade else region)
            && (hasFadeOut && !hasFadeIn ==> fadeIn == 0 && fadeOut == if fade <= region then fade else region)
            && (!hasFadeIn && !hasFadeOut ==> fadeIn == 0 && fadeOut == 0)
  {
  }

  /** `linspace(0, 1, length)[k]`; a ramp of one sample is its start. */
  function Rising(length: nat, k: nat): real
    requires k < length
  {
    if length == 1 then 0.0 else k as real / (length - 1) as real
  }

  /** `linspace(1, 0, length)[k]`. */
  function Falling(length: nat, k: nat): real
    requires k < length
  {
    if length == 1 then 1.0 else 1.0 - k as real / (length - 1) as real
  }

  /** Where a splice of a take of `n` samples begins and ends, and its fades. */
  datatype Range = Range(start: int, end: int, fadeIn: int, fadeOut: int, n: nat) {
    /** The fades fit into the region; outside a proper region there are none. */
    ghost predicate Fits() {
      && 0 <= start <= n && end <= n
      && (start <= end ==> 0 <= fadeIn && 0 <= fadeOut && fadeIn + fadeOut <= end - start)
      && (end < start ==> fadeIn <= 0 && fadeOut <= 0)
    }

    /** How much of the repaint sample `k` of the result holds. */
    function Weight(k: nat): real {
      if k < start || end <= k then 0.0
      else if k < start + fadeIn then Rising(fadeIn, k - start)
      else if end - fadeOut <= k then Falling(fadeOut, k - (end - fadeOut))
      else 1.0
    }
  }

  function Mix(source: real, repaint: real, weight: real): real {
    source * (1.0 - weight) + repaint * weight
  }

  function RangeOf(startSeconds: real, endSeconds: real, sampleRate: nat, n: nat): Range {
    var start := Min(Truncated(startSeconds * sampleRate as real), n);
    var end := Min(Truncated(endSeconds * sampleRate as real), n);
    var fade := Truncated(CROSSFADE_SECONDS * sampleRate as real);
    var (fadeIn, fadeOut) := FadeLengths(end - start, fade, start > 0, end < n);
    Range(start, end, if start > 0 then fadeIn else 0, if end < n then fadeOut else 0, n)
  }

  lemma RangeFits(startSeconds: real, endSeconds: real, sampleRate: nat, n: nat)
    requires startSeconds >= 0.0
    ensures RangeOf(startSeconds, endSeconds, sampleRate, n).Fits()
  {
    assert startSeconds * sampleRate as real >= 0.0;
    var start := Min(Truncated(startSeconds * sampleRate as real), n);
    var end := Min(Truncated(endSeconds * sampleRate as real), n);
    if start <= end {
      FadesDoNotOverlap(end - start, Truncated(CROSSFADE_SECONDS * sampleRate as real), start > 0, end < n);
    }
  }

  /** The range starts and ends at the samples sounding at the given seconds, no later than the shorter take ends.
      Nothing fades at the takes' own ends, and at an inner end a fade lasts a twentieth of a second, where the
      region has room for two of them. */
  lemma RangeIsInSeconds(startSeconds: real, endSeconds: real, sampleRate: nat, n: nat)
    requires startSeconds >= 0.0 && endSeconds >= 0.0
    ensures var r := RangeOf(startSeconds, endSeconds, sampleRate, n);
            && r.n == n
            && IsSampleAt(r.start, startSeconds * sampleRate as real, n) && IsSampleAt(r.end, endSeconds * sampleRate as real, n)
            && (r.start == 0 ==> r.fadeIn == 0) && (r.end == n ==> r.fadeOut == 0)
            && var fade := (0.05 * sampleRate as real).Floor;
               r.end - r.start >= 2 * fade ==>
                 && (0 < r.start ==> r.fadeIn == fade)
                 && (r.end < n ==> r.fadeOut == fade)
  {
    assert startSeconds * sampleRate as real >= 0.0 && endSeconds * sampleRate as real >= 0.0;
    assert CROSSFADE_SECONDS * sampleRate as real >= 0.0;
    hide Truncated;
    TruncatedIsFloor(startSeconds * sampleRate as real);
    TruncatedIsFloor(endSeconds * sampleRate as real);
    TruncatedIsFloor(CROSSFADE_SECONDS * sampleRate as real);
  }

  lemma TruncatedIsFloor(x: real)
    requires 0.0 <= x
    ensures Truncated(x) == x.Floor && x.Floor as real <= x < x.Floor as real + 1.0
  {
  }

  /** `sample` is the last one at or before `position`, or the end of the take if that comes first. */
  predicate IsSampleAt(sample: int, position: real, n: nat) {
    if sample < n then sample as real <= position < sample as real + 1.0 else sample == n && n as real <= position
  }

  lemma RampsAreWeights(length: nat, k: nat)
    requires k < length
    ensures 0.0 <= Rising(length, k) <= 1.0 && 0.0 <= Falling(length, k) <= 1.0
    ensures length > 1 ==> Rising(length, k) + Falling(length, k) == 1.0
  {
    if length > 1 {
      Fraction(k, length - 1);
    }
  }

  lemma Fraction(k: nat, m: nat)
    requires k <= m && 0 < m
    ensures 0.0 <= k as real / m as real <= 1.0
  {
  }

  /** The result is the source outside the range, the repaint between the fades, and inside a fade a
      convex mix of the two samples at that index. */
  lemma WeightIsAFraction(r: Range, k: nat)
    requires r.Fits() && k < r.n
    ensures 0.0 <= r.Weight(k) <= 1.0
    ensures k < r.start || r.end <= k ==> r.Weight(k) == 0.0
    ensures r.start <= r.end && r.start + r.fadeIn <= k < r.end - r.fadeOut ==> r.Weight(k) == 1.0
  {
    if r.start <= k < r.end {
      if k < r.start + r.fadeIn {
        RampsAreWeights(r.fadeIn, k - r.start);
      } else if r.end - r.fadeOut <= k {
        RampsAreWeights(r.fadeOut, k - (r.end - r.fadeOut));
      }
    }
  }

  lemma RatioGrows(a: nat, b: nat, m: nat)
    requires a <= b && 0 < m
    ensures a as real / m as real <= b as real / m as real
  {
  }

  /** The repaint fades in up to the middle of the region and fades out after it: no sample between two others
      of the same side leaps back. */
  lemma FadesAreMonotone(r: Range, k: nat, l: nat)
    requires r.Fits() && k <= l < r.n
    ensures l < r.end - r.fadeOut ==> r.Weight(k) <= r.Weight(l)
    ensures r.start + r.fadeIn <= k ==> r.Weight(l) <= r.Weight(k)
  {
    WeightIsAFraction(r, k);
    WeightIsAFraction(r, l);
    if r.start <= k && l < r.start + r.fadeIn && r.fadeIn > 1 {
      RatioGrows(k - r.start, l - r.start, r.fadeIn - 1);
    }
    if r.start + r.fadeIn <= k && r.end - r.fadeOut <= k && l < r.end && r.fadeOut > 1 {
      RatioGrows(k - (r.end - r.fadeOut), l - (r.end - r.fadeOut), r.fadeOut - 1);
    }
  }

  /** A fade is linear: it runs from none to all of the repaint, or back, in equal steps. A fade of one sample is all
      of the source, or all of the repaint. */
  lemma FadesAreLinear(r: Range, k: nat)
    requires r.Fits() && r.start <= r.end
    ensures k < r.fadeIn ==>
              && r.Weight(r.start) == 0.0 && (r.fadeIn > 1 ==> r.Weight(r.start + r.fadeIn - 1) == 1.0)
              && (k + 1 < r.fadeIn ==>
                    r.Weight(r.start + k + 1) - r.Weight(r.start + k) == 1.0 / (r.fadeIn - 1) as real)
    ensures k < r.fadeOut ==>
              var from := r.end - r.fadeOut;
              && r.Weight(from) == 1.0 && (r.fadeOut > 1 ==> r.Weight(r.end - 1) == 0.0)
              && (k + 1 < r.fadeOut ==> r.Weight(from + k) - r.Weight(from + k + 1) == 1.0 / (r.fadeOut - 1) as real)
  {
    if 1 < r.fadeIn {
      StepsAreEqual(k, r.fadeIn - 1);
    }
    if 1 < r.fadeOut {
      StepsAreEqual(k, r.fadeOut - 1);
    }
  }

  lemma StepsAreEqual(k: nat, m: nat)
    requires 0 < m
    ensures (k + 1) as real / m as real - k as real / m as real == 1.0 / m as real
    ensures 0.0 / m as real == 0.0 && m as real / m as real == 1.0
  {
  }

  lemma MixIsBetween(source: real, repaint: real, weight: real)
    requires 0.0 <= weight <= 1.0
    ensures Mix(source, repaint, weight) - source == (repaint - source) * weight
    ensures (source <= Mix(source, repaint, weight) <= repaint) || (repaint <= Mix(source, repaint, weight) <= source)
  {
    var difference := repaint - source;
    assert Mix(source, repaint, weight) == source + difference * weight;
    if difference >= 0.0 {
      assert 0.0 <= difference * weight <= difference;
    } else {
      assert 0.0 <= -difference * weight <= -difference;
      assert difference * weight == -(-difference * weight);
    }
  }

  // ---------------------------------------------------------------- in place

  /** Samples before `done` of the given stretch are mixed, the others are still the source's. */
  ghost predicate Spliced(channel: seq<real>, source: seq<real>, repaint: seq<real>, r: Range, from: int, to: int)
    requires |channel| == r.n <= |source| && r.n <= |repaint| && r.Fits()
  {
    forall k | 0 <= k < r.n ::
      channel[k] == if from <= k < to then Mix(source[k], repaint[k], r.Weight(k)) else source[k]
  }

  method FadeIn(channel: array<real>, source: seq<real>, repaint: seq<real>, r: Range)
    requires channel.Length == r.n <= |source| && r.n <= |repaint| && r.Fits()
    requires 0 < r.fadeIn && Spliced(channel[..], source, repaint, r, 0, 0)
    modifies channel
    ensures Spliced(channel[..], source, repaint, r, r.start, r.start + r.fadeIn)
  {
    for k := r.start to r.start + r.fadeIn
      invariant Spliced(channel[..], source, repaint, r, r.start, k)
    {
      var ramp := Rising(r.fadeIn, k - r.start);
      channel[k] := channel[k] * (1.0 - ramp) + repaint[k] * ramp;
    }
  }

  /** The samples of the two stretches are mixed. */
  ghost predicate BothSpliced(channel: seq<real>, source: seq<real>, repaint: seq<real>, r: Range, upTo: int, from: int, to: int)
    requires |channel| == r.n <= |source| && r.n <= |repaint| && r.Fits()
  {
    forall k | 0 <= k < r.n ::
      channel[k] == if r.start <= k < upTo || from <= k < to then Mix(source[k], repaint[k], r.Weight(k)) else source[k]
  }

  method FadeOut(channel: array<real>, source: seq<real>, repaint: seq<real>, r: Range, spliceStart: int)
    requires channel.Length == r.n <= |source| && r.n <= |repaint| && r.Fits()
    requires 0 < r.fadeOut && spliceStart == r.start + r.fadeIn && 0 <= r.fadeIn
    requires Spliced(channel[..], source, repaint, r, r.start, spliceStart)
    modifies channel
    ensures BothSpliced(channel[..], source, repaint, r, spliceStart, r.end - r.fadeOut, r.end)
  {
    for k := r.end - r.fadeOut to r.end
      invariant BothSpliced(channel[..], source, repaint, r, spliceStart, r.end - r.fadeOut, k)
    {
      var ramp := Falling(r.fadeOut, k - (r.end - r.fadeOut));
      channel[k] := repaint[k] * ramp + channel[k] * (1.0 - ramp);
    }
  }

  method Replace(channel: array<real>, source: seq<real>, repaint: seq<real>, r: Range, spliceStart: int, spliceEnd: int)
    requires channel.Length == r.n <= |source| && r.n <= |repaint| && r.Fits()
    requires 0 <= r.fadeIn && 0 <= r.fadeOut && spliceStart == r.start + r.fadeIn && spliceEnd == r.end - r.fadeOut
    requires spliceStart <= spliceEnd
    requires BothSpliced(channel[..], source, repaint, r, spliceStart, spliceEnd, r.end)
    modifies channel
    ensures Spliced(channel[..], source, repaint, r, r.start, r.end)
  {
    for k := spliceStart to spliceEnd
      invariant BothSpliced(channel[..], source, repaint, r, k, spliceEnd, r.end)
    {
      channel[k] := repaint[k];
    }
  }

  method SpliceChannel(source: seq<real>, repaint: seq<real>, r: Range) returns (channel: array<real>)
    requires r.n <= |source| && r.n <= |repaint| && r.Fits()
    ensures fresh(channel) && channel.Length == r.n
    ensures Spliced(channel[..], source, repaint, r, 0, r.n)
  {
    channel := new real[r.n](k requires 0 <= k < r.n => source[k]);
    assert Spliced(channel[..], source, repaint, r, 0, 0);
    var spliceStart, spliceEnd := r.start, r.end;
    if r.fadeIn > 0 {
      FadeIn(channel, source, repaint, r);
      spliceStart := r.start + r.fadeIn;
    }
    if r.start <= r.end {
      if r.fadeOut > 0 {
        FadeOut(channel, source, repaint, r, spliceStart);
        spliceEnd := r.end - r.fadeOut;
      }
      Replace(channel, source, repaint, r, spliceStart, spliceEnd);
    }
    forall k | 0 <= k < r.n ensures channel[k] == Mix(source[k], repaint[k], r.Weight(k)) {
      WeightIsAFraction(r, k);
    }
  }

  datatype Stereo = Stereo(left: seq<real>, right: seq<real>)

  /** The spliced take: every sample mixes the two takes' samples at its own index, by a weight that is 0
      outside the range and 1 between the fades. A range that is empty or reversed changes nothing. */
  method SpliceRepaint(source: Stereo, repainted: Stereo, startSeconds: real, endSeconds: real, sampleRate: nat)
    returns (spliced: Stereo)
    requires |source.left| == |source.right| && |repainted.left| == |repainted.right|
    requires startSeconds >= 0.0
    ensures var n := Min(|source.left|, |repainted.left|);
            var r := RangeOf(startSeconds, endSeconds, sampleRate, n);
            && |spliced.left| == |spliced.right| == n && r.Fits()
            && (forall k | 0 <= k < n :: spliced.left[k] == Mix(source.left[k], repainted.left[k], r.Weight(k)))
            && (forall k | 0 <= k < n :: spliced.right[k] == Mix(source.right[k], repainted.right[k], r.Weight(k)))
            && (r.end <= r.start ==> spliced == Stereo(source.left[..n], source.right[..n]))
  {
    var n := Min(|source.left|, |repainted.left|);
    var r := RangeOf(startSeconds, endSeconds, sampleRate, n);
    RangeFits(startSeconds, endSeconds, sampleRate, n);
    var left := SpliceChannel(source.left, repainted.left, r);
    var right := SpliceChannel(source.right, repainted.right, r);
    spliced := Stereo(left[..], right[..]);
    if r.end <= r.start {
      assert spliced.left == source.left[..n] && spliced.right == source.right[..n];
    }
  }
}
