/**
 From anchors to highlighted lines: the anchors are dealt out to their lines, a line counts as
 heard when enough of its words are anchored, and a heard line lights up from its first
 anchored word's start to its last anchored word's end.
 */
module LineIntervals {
  import opened Wrappers
  import opened AlignmentPaths
  import opened AlignmentTables

  const LINE_MIN_ANCHORED_SHARE: real := 0.5
  const VERBATIM_MAX_TOKENS: nat := 2

  datatype Interval = Interval(start: real, end: real)
  datatype HeardWord = HeardWord(start: real, end: real, text: string)
  datatype LyricWord = LyricWord(lineIndex: nat, text: string)

  type LineAnchors = seq<Option<Anchor>>

  /** The words of all lines in order; a line without sung tokens contributes none. */
  function LyricWords(lines: seq<seq<string>>): (words: seq<LyricWord>)
    ensures forall k | 0 <= k < |words| :: words[k].lineIndex < |lines|
    ensures forall k, l | 0 <= k < l < |words| :: words[k].lineIndex <= words[l].lineIndex
  {
    if lines == [] then []
    else
      var line := |lines| - 1;
      LyricWords(lines[..line]) + seq(|lines[line]|, t requires 0 <= t < |lines[line]| => LyricWord(line, lines[line][t]))
  }

  /** How many words the lines before `line` hold. */
  ghost function WordsBefore(lines: seq<seq<string>>, line: nat): nat
    requires line <= |lines|
  {
    if line == 0 then 0 else WordsBefore(lines, line - 1) + |lines[line - 1]|
  }

  lemma {:induction false} WordsBeforeIsLocal(lines: seq<seq<string>>, line: nat)
    requires line < |lines|
    ensures WordsBefore(lines[..|lines| - 1], line) == WordsBefore(lines, line)
  {
    if line > 0 {
      WordsBeforeIsLocal(lines, line - 1);
    }
  }

  /** The words are the lines' tokens, one after the other: none left out, none twice. */
  lemma {:induction false} WordsAreTheTokens(lines: seq<seq<string>>, line: nat, t: nat)
    requires line < |lines| && t < |lines[line]|
    ensures |LyricWords(lines)| == WordsBefore(lines, |lines|)
    ensures WordsBefore(lines, line) + t < |LyricWords(lines)|
    ensures LyricWords(lines)[WordsBefore(lines, line) + t] == LyricWord(line, lines[line][t])
  {
    var last := |lines| - 1;
    AllTokensAreWords(lines);
    AllTokensAreWords(lines[..last]);
    WordsBeforeIsLocal(lines, line);
    WordsBeforeIsLocal(lines, last);
    if line < last {
      WordsAreTheTokens(lines[..last], line, t);
    }
  }

  lemma {:induction false} AllTokensAreWords(lines: seq<seq<string>>)
    ensures |LyricWords(lines)| == WordsBefore(lines, |lines|)
  {
    if lines != [] {
      AllTokensAreWords(lines[..|lines| - 1]);
      WordsBeforeIsLocal(lines, |lines| - 1);
    }
  }

  /** The anchors of one line, in word order. */
  function OfLine(words: seq<LyricWord>, anchors: LineAnchors, line: nat): LineAnchors
    requires |words| == |anchors|
  {
    if words == [] then []
    else
      var last := |words| - 1;
      OfLine(words[..last], anchors[..last], line)
      + if words[last].lineIndex == line then [anchors[last]] else []
  }

  function Sung(line: LineAnchors): seq<Anchor> {
    if line == [] then []
    else Sung(line[..|line| - 1]) + if line[|line| - 1].Some? then [line[|line| - 1].value] else []
  }

  predicate IsLineHeard(line: LineAnchors) {
    if |line| <= VERBATIM_MAX_TOKENS then
      forall k | 0 <= k < |line| :: line[k].Some? && line[k].value.similarity == 1.0
    else
      |Sung(line)| as real / |line| as real >= LINE_MIN_ANCHORED_SHARE
  }

  predicate Within(line: LineAnchors, heard: seq<HeardWord>) {
    forall k | 0 <= k < |line| && line[k].Some? :: line[k].value.heardIndex < |heard|
  }

  lemma {:induction false} SungAreAnchors(line: LineAnchors)
    ensures forall a | a in Sung(line) :: Some(a) in line
    ensures forall a | Some(a) in line :: a in Sung(line)
  {
    if line != [] {
      SungAreAnchors(line[..|line| - 1]);
      assert line == line[..|line| - 1] + [line[|line| - 1]];
    }
  }

  /** A heard line has an anchored word to take its times from. */
  lemma HeardLineIsAnchored(line: LineAnchors)
    requires line != [] && IsLineHeard(line)
    ensures Sung(line) != []
  {
    SungAreAnchors(line);
    if |line| <= VERBATIM_MAX_TOKENS {
      assert line[0] == Some(line[0].value) && line[0] in line;
    }
  }

  function LineInterval(line: LineAnchors, heard: seq<HeardWord>): Option<Interval>
    requires Within(line, heard)
  {
    if line == [] || !IsLineHeard(line) then None
    else
      HeardLineIsAnchored(line);
      SungAreAnchors(line);
      var sung := Sung(line);
      assert sung[0] in sung && sung[|sung| - 1] in sung;
      Some(Interval(heard[sung[0].heardIndex].start, heard[sung[|sung| - 1].heardIndex].end))
  }

  // ---------------------------------------------------------------- times do not go back

  predicate TimesInOrder(heard: seq<HeardWord>) {
    && (forall k | 0 <= k < |heard| :: heard[k].start <= heard[k].end)
    && (forall k, l | 0 <= k < l < |heard| :: heard[k].start <= heard[l].start && heard[k].end <= heard[l].end)
  }

  predicate Increasing(sung: seq<Anchor>) {
    forall k, l | 0 <= k < l < |sung| :: sung[k].heardIndex < sung[l].heardIndex
  }

  /** All anchors of one line come before all anchors of the other. */
  predicate Before(sung: seq<Anchor>, later: seq<Anchor>) {
    forall k, l | 0 <= k < |sung| && 0 <= l < |later| :: sung[k].heardIndex < later[l].heardIndex
  }

  /** Every anchor sung in a line stands in the dealt list at a word of that line. */
  lemma {:induction false} SungOfLine(words: seq<LyricWord>, anchors: LineAnchors, line: nat, a: Anchor)
    requires |words| == |anchors|
    requires a in Sung(OfLine(words, anchors, line))
    ensures exists k :: 0 <= k < |words| && words[k].lineIndex == line && anchors[k] == Some(a)
  {
    var last := |words| - 1;
    var rest := OfLine(words[..last], anchors[..last], line);
    if words[last].lineIndex == line {
      assert (rest + [anchors[last]])[..|rest|] == rest;
    } else {
      assert rest + [] == rest;
    }
    if words[last].lineIndex == line && anchors[last] == Some(a) {
    } else {
      SungOfLine(words[..last], anchors[..last], line, a);
      var k :| 0 <= k < last && words[k].lineIndex == line && anchors[k] == Some(a);
    }
  }

  lemma {:induction false} SungOfLineIncreases(words: seq<LyricWord>, anchors: LineAnchors, line: nat, heardCount: nat)
    requires |words| == |anchors| && InOrder(anchors, heardCount)
    ensures Increasing(Sung(OfLine(words, anchors, line)))
  {
    if words != [] {
      var last := |words| - 1;
      var rest := OfLine(words[..last], anchors[..last], line);
      SungOfLineIncreases(words[..last], anchors[..last], line, heardCount);
      if words[last].lineIndex == line {
        assert (rest + [anchors[last]])[..|rest|] == rest;
        forall x | 0 <= x < |Sung(rest)|
          ensures anchors[last].Some? ==> Sung(rest)[x].heardIndex < anchors[last].value.heardIndex
        {
          SungOfLine(words[..last], anchors[..last], line, Sung(rest)[x]);
        }
      } else {
        assert rest + [] == rest;
      }
    }
  }

  predicate LinesInOrder(words: seq<LyricWord>) {
    forall k, l | 0 <= k < l < |words| :: words[k].lineIndex <= words[l].lineIndex
  }

  lemma EarlierLineComesFirst(words: seq<LyricWord>, anchors: LineAnchors, line: nat, later: nat, heardCount: nat)
    requires |words| == |anchors| && InOrder(anchors, heardCount) && LinesInOrder(words) && line < later
    ensures Before(Sung(OfLine(words, anchors, line)), Sung(OfLine(words, anchors, later)))
  {
    var sung, sung' := Sung(OfLine(words, anchors, line)), Sung(OfLine(words, anchors, later));
    forall k, l | 0 <= k < |sung| && 0 <= l < |sung'|
      ensures sung[k].heardIndex < sung'[l].heardIndex
    {
      SungOfLine(words, anchors, line, sung[k]);
      SungOfLine(words, anchors, later, sung'[l]);
    }
  }

  predicate WellOrdered(intervals: seq<Option<Interval>>) {
    && (forall l | 0 <= l < |intervals| && intervals[l].Some? :: intervals[l].value.start <= intervals[l].value.end)
    && (forall k, l | 0 <= k < l < |intervals| && intervals[k].Some? && intervals[l].Some? ::
          && intervals[k].value.start <= intervals[l].value.start
          && intervals[k].value.end <= intervals[l].value.end)
  }

  /** `intervals` lights exactly the heard lines, each from its own anchors. */
  predicate AreIntervalsOf(intervals: seq<Option<Interval>>, words: seq<LyricWord>, anchors: LineAnchors, heard: seq<HeardWord>)
    requires |words| == |anchors|
  {
    forall line | 0 <= line < |intervals| ::
      && Within(OfLine(words, anchors, line), heard)
      && intervals[line] == LineInterval(OfLine(words, anchors, line), heard)
  }

  lemma OneLineIsWellFormed(line: LineAnchors, heard: seq<HeardWord>)
    requires Within(line, heard) && Increasing(Sung(line)) && TimesInOrder(heard)
    requires LineInterval(line, heard).Some?
    ensures LineInterval(line, heard).value.start <= LineInterval(line, heard).value.end
  {
    HeardLineIsAnchored(line);
    SungAreAnchors(line);
    var sung := Sung(line);
    assert sung[0] in sung && sung[|sung| - 1] in sung;
  }

  lemma TwoLinesDoNotGoBack(line: LineAnchors, later: LineAnchors, heard: seq<HeardWord>)
    requires Within(line, heard) && Within(later, heard) && TimesInOrder(heard)
    requires Before(Sung(line), Sung(later))
    requires LineInterval(line, heard).Some? && LineInterval(later, heard).Some?
    ensures LineInterval(line, heard).value.start <= LineInterval(later, heard).value.start
    ensures LineInterval(line, heard).value.end <= LineInterval(later, heard).value.end
  {
    HeardLineIsAnchored(line);
    HeardLineIsAnchored(later);
    SungAreAnchors(line);
    SungAreAnchors(later);
    var sung, sung' := Sung(line), Sung(later);
    assert sung[0] in sung && sung[|sung| - 1] in sung;
    assert sung'[0] in sung' && sung'[|sung'| - 1] in sung';
  }

  /** When heard words are ordered in time, every lit line ends no earlier than it starts, and lit
      lines never go back in time. */
  lemma LitLinesAreWellOrdered(intervals: seq<Option<Interval>>, words: seq<LyricWord>, anchors: LineAnchors, heard: seq<HeardWord>)
    requires |words| == |anchors| && InOrder(anchors, |heard|) && LinesInOrder(words)
    requires AreIntervalsOf(intervals, words, anchors, heard) && TimesInOrder(heard)
    ensures WellOrdered(intervals)
  {
    forall l | 0 <= l < |intervals| && intervals[l].Some?
      ensures intervals[l].value.start <= intervals[l].value.end
    {
      SungOfLineIncreases(words, anchors, l, |heard|);
      OneLineIsWellFormed(OfLine(words, anchors, l), heard);
    }
    forall k, l | 0 <= k < l < |intervals| && intervals[k].Some? && intervals[l].Some?
      ensures intervals[k].value.start <= intervals[l].value.start
      ensures intervals[k].value.end <= intervals[l].value.end
    {
      EarlierLineComesFirst(words, anchors, k, l, |heard|);
      TwoLinesDoNotGoBack(OfLine(words, anchors, k), OfLine(words, anchors, l), heard);
    }
  }

  // ---------------------------------------------------------------- which lines light, and when

  /** The lyric words of a line, and those of them that are anchored, by their place among all lyric words. */
  ghost function WordsOfLine(words: seq<LyricWord>, line: nat): set<nat> {
    set k | 0 <= k < |words| && words[k].lineIndex == line
  }

  ghost function AnchoredOfLine(words: seq<LyricWord>, anchors: LineAnchors, line: nat): set<nat>
    requires |words| == |anchors|
  {
    set k | 0 <= k < |words| && words[k].lineIndex == line && anchors[k].Some?
  }

  /** A line of one or two words needs every word anchored to its equal, a longer one half of them anchored. */
  ghost predicate ShouldLight(words: seq<LyricWord>, anchors: LineAnchors, line: nat)
    requires |words| == |anchors|
  {
    var all := WordsOfLine(words, line);
    && all != {}
    && if |all| <= 2 then forall k | k in all :: anchors[k].Some? && anchors[k].value.similarity == 1.0
       else 2 * |AnchoredOfLine(words, anchors, line)| >= |all|
  }

  /** The first and the last anchored word of a line. */
  ghost predicate AreEnds(words: seq<LyricWord>, anchors: LineAnchors, line: nat, first: nat, last: nat)
    requires |words| == |anchors|
  {
    && first in AnchoredOfLine(words, anchors, line) && last in AnchoredOfLine(words, anchors, line)
    && forall k | k in AnchoredOfLine(words, anchors, line) :: first <= k <= last
  }

  /** The interval runs from the start of the line's first anchored word to the end of its last. */
  ghost predicate SpansItsWords(interval: Interval, words: seq<LyricWord>, anchors: LineAnchors, line: nat, heard: seq<HeardWord>)
    requires |words| == |anchors|
  {
    exists first: nat, last: nat ::
      && AreEnds(words, anchors, line, first, last)
      && anchors[first].value.heardIndex < |heard| && anchors[last].value.heardIndex < |heard|
      && interval.start == heard[anchors[first].value.heardIndex].start
      && interval.end == heard[anchors[last].value.heardIndex].end
  }

  /** Every anchored word of the line is heard inside the interval. */
  ghost predicate CoversItsWords(interval: Interval, words: seq<LyricWord>, anchors: LineAnchors, line: nat, heard: seq<HeardWord>)
    requires |words| == |anchors|
  {
    forall k | k in AnchoredOfLine(words, anchors, line) ::
      && anchors[k].value.heardIndex < |heard|
      && interval.start <= heard[anchors[k].value.heardIndex].start
      && heard[anchors[k].value.heardIndex].end <= interval.end
  }

  lemma OneWordMore(words: seq<LyricWord>, anchors: LineAnchors, line: nat)
    requires |words| == |anchors| && words != []
    ensures var last := |words| - 1;
            && WordsOfLine(words, line) == WordsOfLine(words[..last], line) + (if words[last].lineIndex == line then {last} else {})
            && AnchoredOfLine(words, anchors, line)
               == AnchoredOfLine(words[..last], anchors[..last], line)
                  + (if words[last].lineIndex == line && anchors[last].Some? then {last} else {})
            && last !in WordsOfLine(words[..last], line) && last !in AnchoredOfLine(words[..last], anchors[..last], line)
  {
  }

  lemma DealtMore(words: seq<LyricWord>, anchors: LineAnchors, line: nat)
    requires |words| == |anchors| && words != []
    ensures var last := |words| - 1;
            var rest := OfLine(words[..last], anchors[..last], line);
            && OfLine(words, anchors, line) == (if words[last].lineIndex == line then rest + [anchors[last]] else rest)
            && Sung(OfLine(words, anchors, line))
               == (if words[last].lineIndex == line && anchors[last].Some? then Sung(rest) + [anchors[last].value] else Sung(rest))
  {
    var last := |words| - 1;
    var rest := OfLine(words[..last], anchors[..last], line);
    assert (rest + [anchors[last]])[..|rest|] == rest && rest + [] == rest && Sung(rest) + [] == Sung(rest);
  }

  /** Dealing out loses no word of the line and no anchor. */
  lemma {:induction false} LineIsComplete(words: seq<LyricWord>, anchors: LineAnchors, line: nat)
    requires |words| == |anchors|
    ensures |OfLine(words, anchors, line)| == |WordsOfLine(words, line)|
    ensures |Sung(OfLine(words, anchors, line))| == |AnchoredOfLine(words, anchors, line)|
  {
    if words != [] {
      hide OfLine, Sung, WordsOfLine, AnchoredOfLine;
      LineIsComplete(words[..|words| - 1], anchors[..|words| - 1], line);
      OneWordMore(words, anchors, line);
      DealtMore(words, anchors, line);
    }
  }

  lemma {:induction false} DealtAreTheWords(words: seq<LyricWord>, anchors: LineAnchors, line: nat)
    requires |words| == |anchors|
    ensures (forall a | a in OfLine(words, anchors, line) :: a.Some? && a.value.similarity == 1.0)
            <==> (forall k | k in WordsOfLine(words, line) :: anchors[k].Some? && anchors[k].value.similarity == 1.0)
  {
    if words != [] {
      hide OfLine, Sung;
      DealtAreTheWords(words[..|words| - 1], anchors[..|words| - 1], line);
      OneWordMore(words, anchors, line);
      DealtMore(words, anchors, line);
    }
  }

  /** The first and the last anchor of a line are those of its first and its last anchored word. */
  lemma {:induction false} EndsOfTheLine(words: seq<LyricWord>, anchors: LineAnchors, line: nat) returns (first: nat, last: nat)
    requires |words| == |anchors| && Sung(OfLine(words, anchors, line)) != []
    ensures AreEnds(words, anchors, line, first, last)
    ensures var sung := Sung(OfLine(words, anchors, line));
            sung[0] == anchors[first].value && sung[|sung| - 1] == anchors[last].value
  {
    hide OfLine, Sung, AnchoredOfLine, AreEnds;
    NoWordsNoAnchors();
    var end := |words| - 1;
    OneWordMore(words, anchors, line);
    DealtMore(words, anchors, line);
    LineIsComplete(words[..end], anchors[..end], line);
    if Sung(OfLine(words[..end], anchors[..end], line)) == [] {
      first, last := end, end;
      OnlyEnd(words, anchors, line);
    } else {
      first, last := EndsOfTheLine(words[..end], anchors[..end], line);
      EndsGrow(words, anchors, line, first, last);
      if words[end].lineIndex == line && anchors[end].Some? {
        last := end;
      }
    }
  }

  lemma OnlyEnd(words: seq<LyricWord>, anchors: LineAnchors, line: nat)
    requires |words| == |anchors| && words != []
    requires |AnchoredOfLine(words[..|words| - 1], anchors[..|words| - 1], line)| == 0
    requires words[|words| - 1].lineIndex == line && anchors[|words| - 1].Some?
    ensures AreEnds(words, anchors, line, |words| - 1, |words| - 1)
  {
    OneWordMore(words, anchors, line);
    hide AnchoredOfLine;
  }

  lemma EndsGrow(words: seq<LyricWord>, anchors: LineAnchors, line: nat, first: nat, last: nat)
    requires |words| == |anchors| && words != []
    requires AreEnds(words[..|words| - 1], anchors[..|words| - 1], line, first, last)
    ensures first < |words| - 1 && last < |words| - 1
    ensures AreEnds(words, anchors, line, first,
                    if words[|words| - 1].lineIndex == line && anchors[|words| - 1].Some? then |words| - 1 else last)
    ensures anchors[..|words| - 1][first] == anchors[first] && anchors[..|words| - 1][last] == anchors[last]
  {
    OneWordMore(words, anchors, line);
  }

  lemma NoWordsNoAnchors()
    ensures forall line :: Sung(OfLine([], [], line)) == []
  {
  }

  lemma HalfIsAShare(part: nat, whole: nat)
    requires 0 < whole
    ensures part as real / whole as real >= 0.5 <==> 2 * part >= whole
  {
    var share := part as real / whole as real;
    assert share * whole as real == part as real;
    if 2 * part >= whole {
      if share < 0.5 {
        assert (0.5 - share) * whole as real > 0.0;
      }
    } else {
      assert share >= 0.5 ==> (share - 0.5) * whole as real >= 0.0;
    }
  }

  /** A line lights exactly when it should, from its first anchored word's start to its last one's end. */
  lemma LitFromItsWords(words: seq<LyricWord>, anchors: LineAnchors, line: nat, heard: seq<HeardWord>)
    requires |words| == |anchors| && Within(OfLine(words, anchors, line), heard)
    ensures var interval := LineInterval(OfLine(words, anchors, line), heard);
            && (interval.Some? <==> ShouldLight(words, anchors, line))
            && (interval.Some? ==> SpansItsWords(interval.value, words, anchors, line, heard))
  {
    var dealt := OfLine(words, anchors, line);
    LineIsComplete(words, anchors, line);
    DealtAreTheWords(words, anchors, line);
    if |dealt| > 2 {
      HalfIsAShare(|Sung(dealt)|, |dealt|);
    }
    assert (forall k | 0 <= k < |dealt| :: dealt[k].Some? && dealt[k].value.similarity == 1.0)
           <==> (forall a | a in dealt :: a.Some? && a.value.similarity == 1.0);
    if LineInterval(dealt, heard).Some? {
      HeardLineIsAnchored(dealt);
      SungAreAnchors(dealt);
      var sung := Sung(dealt);
      assert sung[0] in sung && sung[|sung| - 1] in sung;
      var first, last := EndsOfTheLine(words, anchors, line);
    }
  }

  /** With the times in order, no anchored word of a lit line is heard outside its interval. */
  lemma NoAnchoredWordOutside(interval: Interval, words: seq<LyricWord>, anchors: LineAnchors, line: nat, heard: seq<HeardWord>)
    requires |words| == |anchors| && InOrder(anchors, |heard|) && TimesInOrder(heard)
    requires SpansItsWords(interval, words, anchors, line, heard)
    ensures CoversItsWords(interval, words, anchors, line, heard)
  {
    hide InOrder;
    var first: nat, last: nat :|
      && AreEnds(words, anchors, line, first, last)
      && anchors[first].value.heardIndex < |heard| && anchors[last].value.heardIndex < |heard|
      && interval.start == heard[anchors[first].value.heardIndex].start
      && interval.end == heard[anchors[last].value.heardIndex].end;
    forall k | k in AnchoredOfLine(words, anchors, line)
      ensures anchors[first].value.heardIndex <= anchors[k].value.heardIndex <= anchors[last].value.heardIndex < |heard|
    {
      LaterIsHeardLater(anchors, first, k, |heard|);
      LaterIsHeardLater(anchors, k, last, |heard|);
    }
  }

  lemma LaterIsHeardLater(anchors: LineAnchors, k: nat, l: nat, heardCount: nat)
    requires InOrder(anchors, heardCount) && k <= l < |anchors| && anchors[k].Some? && anchors[l].Some?
    ensures anchors[k].value.heardIndex <= anchors[l].value.heardIndex < heardCount
  {
  }

  /** Every line lights exactly when it should, spans its anchored words, and, with the times in order, covers them. */
  ghost predicate LightRightly(intervals: seq<Option<Interval>>, words: seq<LyricWord>, anchors: LineAnchors, heard: seq<HeardWord>)
    requires |words| == |anchors|
  {
    forall line | 0 <= line < |intervals| ::
      && (intervals[line].Some? <==> ShouldLight(words, anchors, line))
      && (intervals[line].Some? ==>
            && SpansItsWords(intervals[line].value, words, anchors, line, heard)
            && (TimesInOrder(heard) ==> CoversItsWords(intervals[line].value, words, anchors, line, heard)))
  }

  lemma IntervalsLightRightly(intervals: seq<Option<Interval>>, words: seq<LyricWord>, anchors: LineAnchors, heard: seq<HeardWord>)
    requires |words| == |anchors| && InOrder(anchors, |heard|)
    requires AreIntervalsOf(intervals, words, anchors, heard)
    ensures LightRightly(intervals, words, anchors, heard)
  {
    hide OfLine, LineInterval, InOrder, TimesInOrder, ShouldLight, SpansItsWords, CoversItsWords;
    forall line | 0 <= line < |intervals|
      ensures intervals[line].Some? <==> ShouldLight(words, anchors, line)
      ensures intervals[line].Some? ==>
                && SpansItsWords(intervals[line].value, words, anchors, line, heard)
                && (TimesInOrder(heard) ==> CoversItsWords(intervals[line].value, words, anchors, line, heard))
    {
      LitFromItsWords(words, anchors, line, heard);
      if intervals[line].Some? && TimesInOrder(heard) {
        NoAnchoredWordOutside(intervals[line].value, words, anchors, line, heard);
      }
    }
  }

  // ---------------------------------------------------------------- the whole alignment

  /** Deal the anchors out to their lines. */
  method DealOut(words: seq<LyricWord>, anchors: LineAnchors, lineCount: nat) returns (byLine: seq<LineAnchors>)
    requires |words| == |anchors|
    requires forall k | 0 <= k < |words| :: words[k].lineIndex < lineCount
    ensures |byLine| == lineCount
    ensures forall line | 0 <= line < lineCount :: byLine[line] == OfLine(words, anchors, line)
  {
    byLine := seq(lineCount, _ => []);
    for k := 0 to |words|
      invariant |byLine| == lineCount
      invariant forall line | 0 <= line < lineCount :: byLine[line] == OfLine(words[..k], anchors[..k], line)
    {
      assert words[..k + 1][..k] == words[..k] && anchors[..k + 1][..k] == anchors[..k];
      var line := words[k].lineIndex;
      byLine := byLine[line := byLine[line] + [anchors[k]]];
    }
    assert words[..|words|] == words && anchors[..|words|] == anchors;
  }

  lemma {:induction false} OfLineIsWithin(words: seq<LyricWord>, anchors: LineAnchors, line: nat, heard: seq<HeardWord>)
    requires |words| == |anchors| && InOrder(anchors, |heard|)
    ensures Within(OfLine(words, anchors, line), heard)
  {
    if words != [] {
      OfLineIsWithin(words[..|words| - 1], anchors[..|words| - 1], line, heard);
    }
  }

  function TheWords(lines: seq<seq<string>>, heard: seq<HeardWord>, ratio: (string, string) -> real): Words {
    var words := LyricWords(lines);
    Words(seq(|words|, k requires 0 <= k < |words| => words[k].text),
          seq(|heard|, k requires 0 <= k < |heard| => heard[k].text), ratio)
  }

  /** Each raw line's highlighted interval. The anchors are those of the traced, hence optimal,
      alignment of all lyric words to all heard words. */
  method AlignLyricsToCues(lines: seq<seq<string>>, heard: seq<HeardWord>, ratio: (string, string) -> real)
    returns (intervals: seq<Option<Interval>>)
    ensures |intervals| == |lines|
    ensures var (w, words) := (TheWords(lines, heard, ratio), LyricWords(lines));
            && w.ratio == ratio && |w.lyrics| == |words| && |w.heard| == |heard|
            && (forall k | 0 <= k < |words| :: w.lyrics[k] == words[k].text)
            && (forall k | 0 <= k < |heard| :: w.heard[k] == heard[k].text)
    ensures var w := TheWords(lines, heard, ratio);
            && Optimal(w, Traced(w))
            && AreIntervalsOf(intervals, LyricWords(lines), Anchors(w, Traced(w)), heard)
            && LightRightly(intervals, LyricWords(lines), Anchors(w, Traced(w)), heard)
    ensures TimesInOrder(heard) ==> WellOrdered(intervals)
  {
    hide OfLine, Anchors, Optimal, TimesInOrder, WellOrdered, AreIntervalsOf, LightRightly;
    var words := LyricWords(lines);
    var w := TheWords(lines, heard, ratio);
    var anchors := AlignWords(w);
    AnchorsAreInOrder(w, Traced(w));
    var byLine := DealOut(words, anchors, |lines|);
    intervals := IntervalsByLine(words, anchors, byLine, heard);
    IntervalsLightRightly(intervals, words, anchors, heard);
    if TimesInOrder(heard) {
      LitLinesAreWellOrdered(intervals, words, anchors, heard);
    }
  }

  method IntervalsByLine(words: seq<LyricWord>, anchors: LineAnchors, byLine: seq<LineAnchors>, heard: seq<HeardWord>)
    returns (intervals: seq<Option<Interval>>)
    requires |words| == |anchors| && InOrder(anchors, |heard|)
    requires forall line | 0 <= line < |byLine| :: byLine[line] == OfLine(words, anchors, line)
    ensures |intervals| == |byLine| && AreIntervalsOf(intervals, words, anchors, heard)
  {
    hide OfLine, LineInterval, InOrder;
    intervals := [];
    for line := 0 to |byLine|
      invariant |intervals| == line && AreIntervalsOf(intervals, words, anchors, heard)
    {
      OfLineIsWithin(words, anchors, line, heard);
      intervals := intervals + [LineInterval(byLine[line], heard)];
    }
  }

  // ---------------------------------------------------------------- hyphenated pieces

  /** A piece prolongs the word before it; any other word stands alone. */
  function Push(joined: seq<HeardWord>, word: HeardWord, isPiece: string -> bool, strip: string -> string): seq<HeardWord> {
    if joined != [] && isPiece(word.text) then
      var last := joined[|joined| - 1];
      joined[|joined| - 1 := HeardWord(last.start, word.end, last.text + strip(word.text))]
    else joined + [word]
  }

  /** What the recogniser cuts at a hyphen is one word again: it lasts from the first piece's start to
      the last piece's end. */
  function Joined(words: seq<HeardWord>, isPiece: string -> bool, strip: string -> string): seq<HeardWord> {
    if words == [] then []
    else Push(Joined(words[..|words| - 1], isPiece, strip), words[|words| - 1], isPiece, strip)
  }

  method JoinHyphenPieces(words: seq<HeardWord>, isPiece: string -> bool, strip: string -> string)
    returns (joined: seq<HeardWord>)
    ensures joined == Joined(words, isPiece, strip)
  {
    joined := [];
    for k := 0 to |words|
      invariant joined == Joined(words[..k], isPiece, strip)
    {
      assert words[..k + 1][..k] == words[..k];
      var word := words[k];
      if joined != [] && isPiece(word.text) {
        var last := joined[|joined| - 1];
        joined := joined[|joined| - 1 := HeardWord(last.start, word.end, last.text + strip(word.text))];
      } else {
        joined := joined + [word];
      }
    }
    assert words[..|words|] == words;
  }

  /** Where the words begin that joining leaves: everywhere but at a piece that has a word before it. */
  function Beginnings(words: seq<HeardWord>, isPiece: string -> bool): seq<nat> {
    if words == [] then []
    else
      var before, last := Beginnings(words[..|words| - 1], isPiece), |words| - 1;
      if last == 0 || !isPiece(words[last].text) then before + [last] else before
  }

  /** The text of the words from `from` up to `to` run together. */
  function TextOf(words: seq<HeardWord>, from: nat, to: nat, strip: string -> string): string
    requires from < to <= |words|
  {
    if to == from + 1 then words[from].text else TextOf(words, from, to - 1, strip) + strip(words[to - 1].text)
  }

  lemma {:induction false} TextIsLocal(words: seq<HeardWord>, from: nat, to: nat, strip: string -> string)
    requires from < to < |words|
    ensures TextOf(words[..|words| - 1], from, to, strip) == TextOf(words, from, to, strip)
  {
    if to > from + 1 {
      TextIsLocal(words, from, to - 1, strip);
    }
  }

  lemma {:induction false} BeginningsAreWords(words: seq<HeardWord>, isPiece: string -> bool)
    ensures var from := Beginnings(words, isPiece);
            && (words != [] ==> from != [] && from[0] == 0) && (words == [] ==> from == [])
            && (forall k | 0 <= k < |from| :: from[k] < |words|)
            && (forall k, l | 0 <= k < l < |from| :: from[k] < from[l])
  {
    if words != [] {
      BeginningsAreWords(words[..|words| - 1], isPiece);
    }
  }

  /** Each joined word is one beginning and the pieces after it: its text is theirs run together, it starts with the
      first and ends with the last. */
  lemma {:induction false} JoinedAreTheGroups(words: seq<HeardWord>, isPiece: string -> bool, strip: string -> string, k: nat)
    requires k < |Beginnings(words, isPiece)|
    ensures |Joined(words, isPiece, strip)| == |Beginnings(words, isPiece)|
    ensures var from := Beginnings(words, isPiece);
            var to := if k + 1 < |from| then from[k + 1] else |words|;
            && from[k] < to <= |words|
            && Joined(words, isPiece, strip)[k]
               == HeardWord(words[from[k]].start, words[to - 1].end, TextOf(words, from[k], to, strip))
  {
    var last := |words| - 1;
    var rest := words[..last];
    BeginningsAreWords(words, isPiece);
    BeginningsAreWords(rest, isPiece);
    AsManyAsBeginnings(words, isPiece, strip);
    AsManyAsBeginnings(rest, isPiece, strip);
    var from := Beginnings(rest, isPiece);
    if k < |from| {
      JoinedAreTheGroups(rest, isPiece, strip, k);
      TextIsLocal(words, from[k], if k + 1 < |from| then from[k + 1] else last, strip);
    }
  }

  lemma {:induction false} AsManyAsBeginnings(words: seq<HeardWord>, isPiece: string -> bool, strip: string -> string)
    ensures |Joined(words, isPiece, strip)| == |Beginnings(words, isPiece)|
  {
    if words != [] {
      AsManyAsBeginnings(words[..|words| - 1], isPiece, strip);
      BeginningsAreWords(words[..|words| - 1], isPiece);
    }
  }

  /** `joined` covers the same span of time as `words`. */
  predicate Spans(joined: seq<HeardWord>, words: seq<HeardWord>) {
    if words == [] then joined == []
    else
      && joined != []
      && joined[0].start == words[0].start
      && joined[|joined| - 1].end == words[|words| - 1].end
      && joined[|joined| - 1].start <= words[|words| - 1].start
  }

  /** Joining keeps the words' times in order, and the span they cover. */
  lemma {:induction false} JoiningKeepsTimesInOrder(words: seq<HeardWord>, isPiece: string -> bool, strip: string -> string)
    requires TimesInOrder(words)
    ensures TimesInOrder(Joined(words, isPiece, strip)) && Spans(Joined(words, isPiece, strip), words)
  {
    if words != [] {
      var before := Joined(words[..|words| - 1], isPiece, strip);
      JoiningKeepsTimesInOrder(words[..|words| - 1], isPiece, strip);
      PushKeepsTimesInOrder(before, words[|words| - 1], isPiece, strip);
    }
  }

  lemma PushKeepsTimesInOrder(joined: seq<HeardWord>, word: HeardWord, isPiece: string -> bool, strip: string -> string)
    requires TimesInOrder(joined) && word.start <= word.end
    requires joined != [] ==> joined[|joined| - 1].start <= word.start && joined[|joined| - 1].end <= word.end
    ensures TimesInOrder(Push(joined, word, isPiece, strip))
  {
  }
}
