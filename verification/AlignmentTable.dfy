/**
 Gotoh's table as it is stored: one list of scores and one of back pointers per ending, the
 cells of all rows side by side in one list, filled in place row by row and then traced back.
 Every method is tied to the recurrence of `AlignmentPaths`.
 */
module AlignmentTables {
  import opened Wrappers
  import opened AlignmentPaths

  const ANCHOR_MIN_SIMILARITY: real := 0.6

  datatype Anchor = Anchor(heardIndex: nat, similarity: real)

  const ENDINGS: seq<Ending> := [HeardGap, Pair, LyricGap]

  const ALL_HEARD_GAP: PerEnding<Ending> := PerEnding(HeardGap, HeardGap, HeardGap)

  function Index(e: Ending): nat
    ensures Index(e) < 3 && ENDINGS[Index(e)] == e
  {
    match e case HeardGap => 0 case Pair => 1 case LyricGap => 2
  }

  /** Similarities computed once per pair of texts. */
  class SimilarityMemo {
    const words: Words
    var cache: map<(string, string), real>

    ghost predicate Valid()
      reads this
    {
      forall key | key in cache :: cache[key] == WordSimilarity(words.ratio, key.1, key.0)
    }

    constructor (words: Words)
      ensures Valid() && this.words == words
    {
      this.words := words;
      cache := map[];
    }

    method Of(lyric: nat, hear: nat) returns (similarity: real)
      requires Valid() && lyric < |words.lyrics| && hear < |words.heard|
      modifies this
      ensures Valid() && similarity == words.Similarity(lyric, hear)
    {
      var key := (words.lyrics[lyric], words.heard[hear]);
      if key !in cache {
        cache := cache[key := WordSimilarity(words.ratio, words.heard[hear], words.lyrics[lyric])];
      }
      similarity := cache[key];
    }
  }

  class AlignmentTable {
    const width: nat
    const score: array2<Score>
    const previous: array2<Ending>

    ghost predicate Valid() {
      && 0 < width
      && score.Length0 == previous.Length0 == 3
      && score.Length1 == previous.Length1
    }

    ghost predicate IsCell(cell: int) {
      0 <= cell < score.Length1
    }

    ghost function At(cell: int): CellScores
      requires Valid() && IsCell(cell)
      reads score
    {
      PerEnding(score[0, cell], score[1, cell], score[2, cell])
    }

    ghost function BackAt(cell: int): PerEnding<Ending>
      requires Valid() && IsCell(cell)
      reads previous
    {
      PerEnding(previous[0, cell], previous[1, cell], previous[2, cell])
    }

    constructor (lyricCount: nat, heardCount: nat)
      ensures Valid() && width == heardCount + 1 && score.Length1 == (lyricCount + 1) * width
      ensures fresh(score) && fresh(previous)
      ensures forall cell | IsCell(cell) :: At(cell) == UNREACHED && BackAt(cell) == ALL_HEARD_GAP
    {
      width := heardCount + 1;
      score := new Score[3, (lyricCount + 1) * (heardCount + 1)]((_, _) => NegInf);
      previous := new Ending[3, (lyricCount + 1) * (heardCount + 1)]((_, _) => HeardGap);
    }

    method Set(ending: Ending, cell: nat, value: Score, back: Ending)
      requires Valid() && IsCell(cell)
      modifies score, previous
      ensures At(cell) == With(old(At(cell)), ending, value)
      ensures BackAt(cell) == With(old(BackAt(cell)), ending, back)
      ensures forall c | IsCell(c) && c != cell :: At(c) == old(At(c)) && BackAt(c) == old(BackAt(c))
    {
      score[Index(ending), cell] := value;
      previous[Index(ending), cell] := back;
    }

    method BestEndingOf(cell: nat) returns (best: Ending)
      requires Valid() && IsCell(cell)
      ensures best == BestEnding(At(cell))
    {
      best := HeardGap;
      for k := 0 to 3
        invariant k == 0 ==> best == HeardGap
        invariant k == 1 ==> best == HeardGap
        invariant k == 2 ==> best == if At(cell).pair.Above(At(cell).heardGap) then Pair else HeardGap
        invariant k == 3 ==> best == BestEnding(At(cell))
      {
        if score[k, cell].Above(score[Index(best), cell]) {
          best := ENDINGS[k];
        }
      }
    }

    method BestOf(cell: nat) returns (best: Score)
      requires Valid() && IsCell(cell)
      ensures best == Best(At(cell))
    {
      var ending := BestEndingOf(cell);
      best := score[Index(ending), cell];
    }

    method SkipLyric(cell: nat)
      requires Valid() && IsCell(cell) && width <= cell
      modifies score, previous
      ensures var (to, back) := SkipLyricWord(old(At(cell - width)));
              && At(cell) == old(At(cell)).(lyricGap := to)
              && BackAt(cell) == old(BackAt(cell)).(lyricGap := back)
      ensures forall c | IsCell(c) && c != cell :: At(c) == old(At(c)) && BackAt(c) == old(BackAt(c))
    {
      var above := cell - width;
      var best := BestOf(above);
      var ending := BestEndingOf(above);
      Set(LyricGap, cell, best.Plus(SKIP_LYRIC_WORD), ending);
    }

    method ContinueGap(cell: nat, openGap: real, extendGap: real)
      requires Valid() && IsCell(cell) && 0 < cell
      modifies score, previous
      ensures var (to, back) := ContinueHeardGap(old(At(cell - 1)), openGap, extendGap);
              && At(cell) == old(At(cell)).(heardGap := to)
              && BackAt(cell) == old(BackAt(cell)).(heardGap := back)
      ensures forall c | IsCell(c) && c != cell :: At(c) == old(At(c)) && BackAt(c) == old(BackAt(c))
    {
      var left := cell - 1;
      var best := BestOf(left);
      var reopened := best.Plus(openGap);
      var extended := score[Index(HeardGap), left].Plus(extendGap);
      if extended.AtLeast(reopened) {
        Set(HeardGap, cell, extended, HeardGap);
      } else {
        var ending := BestEndingOf(left);
        Set(HeardGap, cell, reopened, ending);
      }
    }

    method ContinuePair(cell: nat, pairScore: real)
      requires Valid() && IsCell(cell) && width < cell
      modifies score, previous
      ensures var (to, back) := ContinuePairRun(old(At(cell - width - 1)), pairScore);
              && At(cell) == old(At(cell)).(pair := to)
              && BackAt(cell) == old(BackAt(cell)).(pair := back)
      ensures forall c | IsCell(c) && c != cell :: At(c) == old(At(c)) && BackAt(c) == old(BackAt(c))
    {
      var diagonal := cell - width - 1;
      var continued := score[Index(Pair), diagonal];
      var best := BestOf(diagonal);
      var broken := best.Plus(BREAK_PAIR_RUN);
      if continued.AtLeast(broken) {
        Set(Pair, cell, continued.Plus(pairScore), Pair);
      } else {
        var ending := BestEndingOf(diagonal);
        Set(Pair, cell, broken.Plus(pairScore), ending);
      }
    }

    /** The two steps of a cell that has cells on its left. */
    method ContinueBoth(cell: nat, openGap: real, extendGap: real, pairScore: real)
      requires Valid() && IsCell(cell) && width < cell
      modifies score, previous
      ensures var (gap, gapBack) := ContinueHeardGap(old(At(cell - 1)), openGap, extendGap);
              var (pair, pairBack) := ContinuePairRun(old(At(cell - width - 1)), pairScore);
              && At(cell) == old(At(cell)).(heardGap := gap, pair := pair)
              && BackAt(cell) == old(BackAt(cell)).(heardGap := gapBack, pair := pairBack)
      ensures forall c | IsCell(c) && c != cell :: At(c) == old(At(c)) && BackAt(c) == old(BackAt(c))
    {
      hide ContinueHeardGap, ContinuePairRun;
      ContinueGap(cell, openGap, extendGap);
      ContinuePair(cell, pairScore);
    }
  }

  function With<T>(c: PerEnding<T>, ending: Ending, value: T): PerEnding<T> {
    match ending
    case HeardGap => c.(heardGap := value)
    case Pair => c.(pair := value)
    case LyricGap => c.(lyricGap := value)
  }

  // ---------------------------------------------------------------- cells of the flat lists

  lemma {:induction false} RowsApart(width: nat, i: nat, i': nat)
    requires i < i'
    ensures i * width + width <= i' * width
    decreases i'
  {
    assert i' * width == (i' - 1) * width + width;
    if i + 1 < i' {
      RowsApart(width, i, i' - 1);
    }
  }

  lemma OneCellOnce(width: nat, i: nat, j: nat, i': nat, j': nat)
    requires j < width && j' < width && i * width + j == i' * width + j'
    ensures i == i' && j == j'
  {
    if i < i' {
      RowsApart(width, i, i');
    } else if i' < i {
      RowsApart(width, i', i);
    }
  }

  lemma CellSplits(width: nat, i: nat, j: nat)
    requires j < width
    ensures (i * width + j) / width == i && (i * width + j) % width == j
  {
    var cell := i * width + j;
    OneCellOnce(width, i, j, cell / width, cell % width);
  }

  /** What the recurrence puts into a flat cell. */
  ghost function CellOf(w: Words, cell: nat): (CellScores, PerEnding<Ending>) {
    var i, j := cell / (|w.heard| + 1), cell % (|w.heard| + 1);
    if i <= |w.lyrics| then (Scores(w, i, j), Previous(w, i, j)) else (UNREACHED, ALL_HEARD_GAP)
  }

  /** Cells before `filled` follow the recurrence, the others still hold their initial values. */
  ghost predicate FilledUpTo(t: AlignmentTable, w: Words, filled: nat)
    requires t.Valid()
    reads t, t.score, t.previous
  {
    && t.width == |w.heard| + 1
    && t.score.Length1 == (|w.lyrics| + 1) * t.width
    && (forall c: nat | t.IsCell(c) && c < filled :: (t.At(c), t.BackAt(c)) == CellOf(w, c))
    && (forall c: nat | t.IsCell(c) && filled <= c :: (t.At(c), t.BackAt(c)) == (UNREACHED, ALL_HEARD_GAP))
  }

  lemma CellIsInside(rows: nat, width: nat, i: nat, j: nat)
    requires i < rows && j < width
    ensures i * width + j < rows * width
    ensures 0 < i ==> width <= i * width && (i - 1) * width + j == i * width + j - width
  {
    RowsApart(width, i, rows);
    if 0 < i {
      RowsApart(width, 0, i);
      assert (i - 1) * width == i * width - width;
    }
  }

  lemma CellOfPosition(w: Words, i: nat, j: nat)
    requires i <= |w.lyrics| && j <= |w.heard|
    ensures CellOf(w, i * (|w.heard| + 1) + j) == (Scores(w, i, j), Previous(w, i, j))
  {
    hide Scores, Previous;
    CellSplits(|w.heard| + 1, i, j);
  }

  // ---------------------------------------------------------------- filling and tracing

  /** Fill the cell after `i` lyric words and `j` heard words, the next in row order. */
  method FillCell(t: AlignmentTable, w: Words, memo: SimilarityMemo, i: nat, j: nat)
    requires t.Valid() && memo.Valid() && memo.words == w
    requires 0 < i <= |w.lyrics| && j <= |w.heard|
    requires FilledUpTo(t, w, i * t.width + j)
    modifies t.score, t.previous, memo
    ensures memo.Valid() && FilledUpTo(t, w, i * t.width + j + 1)
  {
    hide Scores, Previous, ContinueHeardGap, ContinuePairRun, SkipLyricWord;
    var cell := i * t.width + j;
    CellIsInside(|w.lyrics| + 1, t.width, i, j);
    CellOfPosition(w, i - 1, j);
    CellOfPosition(w, i, j);
    if j > 0 {
      CellOfPosition(w, i, j - 1);
      CellOfPosition(w, i - 1, j - 1);
    }
    CellByRecurrence(w, i, j);
    var isOutro := i == |w.lyrics|;
    var openGap := if isOutro then 0.0 else OPEN_HEARD_GAP;
    var extendGap := if isOutro then 0.0 else EXTEND_HEARD_GAP;
    hide CellOf;
    t.SkipLyric(cell);
    if j > 0 {
      var similarity := memo.Of(i - 1, j - 1);
      t.ContinueBoth(cell, openGap, extendGap, 2.0 * similarity - 1.0);
    }
  }

  /** The recurrence of one cell below the first row, scores and back pointers together. */
  lemma CellByRecurrence(w: Words, i: nat, j: nat)
    requires 0 < i <= |w.lyrics| && j <= |w.heard|
    ensures var skip := SkipLyricWord(Scores(w, i - 1, j));
            if j == 0 then
              && Scores(w, i, j) == PerEnding(NegInf, NegInf, skip.0)
              && Previous(w, i, j) == PerEnding(HeardGap, HeardGap, skip.1)
            else
              var gap := ContinueHeardGap(Scores(w, i, j - 1), OpenGap(w, i), ExtendGap(w, i));
              var pair := ContinuePairRun(Scores(w, i - 1, j - 1), 2.0 * w.Similarity(i - 1, j - 1) - 1.0);
              && Scores(w, i, j) == PerEnding(gap.0, pair.0, skip.0)
              && Previous(w, i, j) == PerEnding(gap.1, pair.1, skip.1)
  {
    hide ContinueHeardGap, ContinuePairRun, SkipLyricWord;
  }

  /** Row 0: every heard word before the first lyric word is skipped for free. */
  method FillFirstRow(t: AlignmentTable, w: Words)
    requires t.Valid() && FilledUpTo(t, w, 0)
    modifies t.score, t.previous
    ensures FilledUpTo(t, w, t.width)
  {
    CellIsInside(|w.lyrics| + 1, t.width, 0, |w.heard|);
    for j := 0 to |w.heard| + 1
      invariant FilledUpTo(t, w, j)
    {
      hide Scores, Previous;
      CellOfPosition(w, 0, j);
      FirstRowCell(w, j);
      t.Set(HeardGap, j, Fin(0.0), HeardGap);
    }
  }

  lemma FirstRowCell(w: Words, j: nat)
    requires j <= |w.heard|
    ensures Scores(w, 0, j) == UNREACHED.(heardGap := Fin(0.0)) && Previous(w, 0, j) == ALL_HEARD_GAP
  {
  }

  method FillRow(t: AlignmentTable, w: Words, memo: SimilarityMemo, i: nat)
    requires t.Valid() && t.width == |w.heard| + 1
    requires memo.Valid() && memo.words == w
    requires 0 < i <= |w.lyrics| && FilledUpTo(t, w, i * t.width)
    modifies t.score, t.previous, memo
    ensures memo.Valid() && FilledUpTo(t, w, (i + 1) * t.width)
  {
    hide FilledUpTo;
    for j := 0 to |w.heard| + 1
      invariant memo.Valid() && FilledUpTo(t, w, i * t.width + j)
    {
      FillCell(t, w, memo, i, j);
    }
    assert i * t.width + t.width == (i + 1) * t.width;
  }

  method FillAlignmentTable(w: Words, memo: SimilarityMemo) returns (t: AlignmentTable)
    requires memo.Valid() && memo.words == w
    modifies memo
    ensures memo.Valid() && fresh(t) && fresh(t.score) && fresh(t.previous)
    ensures t.Valid() && FilledUpTo(t, w, (|w.lyrics| + 1) * t.width)
  {
    t := new AlignmentTable(|w.lyrics|, |w.heard|);
    assert FilledUpTo(t, w, 0);
    hide FilledUpTo;
    FillFirstRow(t, w);
    for i := 1 to |w.lyrics| + 1
      invariant memo.Valid() && FilledUpTo(t, w, i * t.width)
    {
      FillRow(t, w, memo, i);
    }
  }

  /** The pairs of an alignment that are similar enough, one entry per lyric word. */
  function Anchors(w: Words, p: Path): (anchors: seq<Option<Anchor>>)
    requires Fits(w, p)
    ensures |anchors| == Rows(p)
  {
    match p
    case Start => []
    case Then(before, HeardGap) => Anchors(w, before)
    case Then(before, LyricGap) => Anchors(w, before) + [None]
    case Then(before, Pair) =>
      var similarity := w.Similarity(Rows(before), Cols(before));
      Anchors(w, before)
      + [if similarity >= ANCHOR_MIN_SIMILARITY then Some(Anchor(Cols(before), similarity)) else None]
  }

  /** The alignment pairs this lyric word with this heard word. */
  predicate Pairs(p: Path, lyric: nat, hear: nat) {
    p.Then? && ((p.move == Pair && Rows(p.before) == lyric && Cols(p.before) == hear) || Pairs(p.before, lyric, hear))
  }

  /** The anchors are exactly the pairs of the alignment whose similarity is at least 0.6. */
  lemma {:induction false} AnchorsAreThePairs(w: Words, p: Path, lyric: nat, hear: nat)
    requires Fits(w, p) && lyric < Rows(p)
    ensures (Anchors(w, p)[lyric].Some? && Anchors(w, p)[lyric].value.heardIndex == hear)
            <==> (hear < |w.heard| && Pairs(p, lyric, hear) && w.Similarity(lyric, hear) >= 0.6)
    ensures Anchors(w, p)[lyric].Some? && Anchors(w, p)[lyric].value.heardIndex == hear ==>
              Anchors(w, p)[lyric].value.similarity == w.Similarity(lyric, hear)
  {
    var before := p.before;
    if lyric < Rows(before) {
      AnchorsAreThePairs(w, before, lyric, hear);
    } else {
      NoPairBeyond(before, lyric, hear);
    }
  }

  lemma {:induction false} NoPairBeyond(p: Path, lyric: nat, hear: nat)
    requires Rows(p) <= lyric
    ensures !Pairs(p, lyric, hear)
  {
    if p.Then? {
      NoPairBeyond(p.before, lyric, hear);
    }
  }

  /** Where the flat lists hold the scores and back pointers of a position. */
  lemma PositionIsFilled(t: AlignmentTable, w: Words, i: nat, j: nat)
    requires t.Valid() && FilledUpTo(t, w, (|w.lyrics| + 1) * t.width)
    requires i <= |w.lyrics| && j <= |w.heard|
    ensures t.IsCell(i * t.width + j)
    ensures t.At(i * t.width + j) == Scores(w, i, j)
    ensures t.BackAt(i * t.width + j) == Previous(w, i, j)
  {
    hide Scores, Previous;
    CellIsInside(|w.lyrics| + 1, t.width, i, j);
    CellOfPosition(w, i, j);
  }

  /** Align two word lists and keep the similar pairs. The result is read off the traced alignment,
      which is an optimal one. */
  method AlignWords(w: Words) returns (anchors: seq<Option<Anchor>>)
    ensures anchors == Anchors(w, Traced(w))
    ensures Optimal(w, Traced(w))
  {
    TracedIsOptimal(w);
    var memo := new SimilarityMemo(w);
    var t := FillAlignmentTable(w, memo);
    anchors := Trace(t, w, memo);
  }

  /** The entry one traceback step writes: none for a heard gap. */
  function EntryAt(w: Words, at: Position): seq<Option<Anchor>>
    requires at.Within(w) && 0 < at.i && (at.ending != LyricGap ==> 0 < at.j)
  {
    match at.ending
    case HeardGap => []
    case LyricGap => [None]
    case Pair =>
      var similarity := w.Similarity(at.i - 1, at.j - 1);
      [if similarity >= ANCHOR_MIN_SIMILARITY then Some(Anchor(at.j - 1, similarity)) else None]
  }

  lemma StepWritesItsEntry(w: Words, at: Position)
    requires at.Within(w) && at.Reached(w) && 0 < at.i
    ensures at.ending != LyricGap ==> 0 < at.j
    ensures Back(w, at).Within(w) && Back(w, at).Reached(w)
    ensures Anchors(w, Walk(w, at)) == Anchors(w, Walk(w, Back(w, at))) + EntryAt(w, at)
  {
    hide Scores, Previous;
    BackPointerIsReached(w, at);
  }

  /** One turn of the traceback: read the back pointer, write the entry of the move, step back. */
  method TraceStep(t: AlignmentTable, w: Words, memo: SimilarityMemo, at: Position, anchors: seq<Option<Anchor>>)
    returns (before: Position, anchors': seq<Option<Anchor>>)
    requires memo.Valid() && memo.words == w
    requires t.Valid() && FilledUpTo(t, w, (|w.lyrics| + 1) * t.width)
    requires at.Within(w) && 0 < at.i && (at.ending != LyricGap ==> 0 < at.j)
    requires |anchors| == |w.lyrics| && anchors[at.i - 1] == None
    modifies memo
    ensures memo.Valid() && before == Back(w, at)
    ensures |anchors'| == |anchors| && anchors'[before.i..] == EntryAt(w, at) + anchors[at.i..]
    ensures anchors'[..before.i] == anchors[..before.i]
  {
    hide Scores, Previous, FilledUpTo, WordSimilarity;
    PositionIsFilled(t, w, at.i, at.j);
    anchors' := anchors;
    var back := t.previous[Index(at.ending), at.i * t.width + at.j];
    if at.ending == Pair {
      var similarity := memo.Of(at.i - 1, at.j - 1);
      if similarity >= ANCHOR_MIN_SIMILARITY {
        anchors' := anchors[at.i - 1 := Some(Anchor(at.j - 1, similarity))];
      }
      before := Position(back, at.i - 1, at.j - 1);
    } else if at.ending == LyricGap {
      before := Position(back, at.i - 1, at.j);
    } else {
      before := Position(back, at.i, at.j - 1);
    }
  }

  /** The traceback never leaves the table, ends, and yields the anchors of the traced alignment. */
  method Trace(t: AlignmentTable, w: Words, memo: SimilarityMemo) returns (anchors: seq<Option<Anchor>>)
    requires memo.Valid() && memo.words == w
    requires t.Valid() && FilledUpTo(t, w, (|w.lyrics| + 1) * t.width)
    modifies memo
    ensures anchors == Anchors(w, Traced(w))
  {
    hide Scores, Previous, FilledUpTo, Anchors, Walk, BestEnding, EntryAt;
    anchors := seq(|w.lyrics|, _ => None);
    PositionIsFilled(t, w, |w.lyrics|, |w.heard|);
    LastIsReached(w);
    var ending := t.BestEndingOf(|w.lyrics| * t.width + |w.heard|);
    var at := Position(ending, |w.lyrics|, |w.heard|);
    while at.i > 0
      invariant memo.Valid() && at.Within(w) && at.Reached(w)
      invariant |anchors| == |w.lyrics|
      invariant Anchors(w, Traced(w)) == Anchors(w, Walk(w, at)) + anchors[at.i..]
      invariant forall k | 0 <= k < at.i :: anchors[k] == None
      decreases at.i + at.j
    {
      StepWritesItsEntry(w, at);
      at, anchors := TraceStep(t, w, memo, at, anchors);
    }
    NoRowsNoAnchors(w, at);
  }

  lemma NoRowsNoAnchors(w: Words, at: Position)
    requires at.Within(w) && at.Reached(w) && at.i == 0
    ensures Anchors(w, Walk(w, at)) == []
  {
  }

  // ---------------------------------------------------------------- order of the anchors

  /** Anchored heard words are heard words, similar enough, and later for later lyric words; so no
      heard word serves two lyric words. */
  ghost predicate InOrder(anchors: seq<Option<Anchor>>, heardCount: nat) {
    && (forall k | 0 <= k < |anchors| && anchors[k].Some? ::
          anchors[k].value.heardIndex < heardCount && anchors[k].value.similarity >= ANCHOR_MIN_SIMILARITY)
    && (forall k, l | 0 <= k < l < |anchors| && anchors[k].Some? && anchors[l].Some? ::
          anchors[k].value.heardIndex < anchors[l].value.heardIndex)
  }

  lemma {:induction false} AnchorsAreInOrder(w: Words, p: Path)
    requires Fits(w, p)
    ensures InOrder(Anchors(w, p), Cols(p))
  {
    if p.Then? {
      AnchorsAreInOrder(w, p.before);
    }
  }
}
