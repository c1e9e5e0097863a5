/**
 The meaning of the global lyric alignment: what an alignment is, what it scores, and
 the recurrence that finds the best one.

 An alignment is a walk from (no lyric word, no heard word) that skips a lyric word,
 skips a heard word or pairs one of each. `PathScore` charges each move on its own; it
 knows nothing of the table. `Scores` is the recurrence the table stores. The theorems
 of this module say that the recurrence is exactly the maximum over all walks, that the
 back pointers lead to a walk with that score, and which of several best walks it is.
 */
module AlignmentPaths {
  const SKIP_LYRIC_WORD: real := -0.6
  const OPEN_HEARD_GAP: real := -0.3
  const EXTEND_HEARD_GAP: real := -0.02
  const BREAK_PAIR_RUN: real := -0.1

  /** What an alignment ends in, in the order of preference between equal scores. */
  datatype Ending = HeardGap | Pair | LyricGap

  /** A float score: `-inf` where no alignment ends that way. */
  datatype Score = NegInf | Fin(value: real) {
    predicate Above(other: Score) {
      Fin? && (other.Fin? ==> value > other.value)
    }

    predicate AtLeast(other: Score) {
      other.Fin? ==> Fin? && value >= other.value
    }

    function Plus(amount: real): Score {
      if Fin? then Fin(value + amount) else NegInf
    }
  }

  /** The two word lists and the similarity of unequal words. */
  datatype Words = Words(lyrics: seq<string>, heard: seq<string>, ratio: (string, string) -> real) {
    function Similarity(lyric: nat, hear: nat): real
      requires lyric < |lyrics| && hear < |heard|
    {
      WordSimilarity(ratio, heard[hear], lyrics[lyric])
    }
  }

  function WordSimilarity(ratio: (string, string) -> real, heard: string, lyric: string): real {
    if heard == lyric then 1.0 else ratio(heard, lyric)
  }

  // ---------------------------------------------------------------- alignments

  datatype Path = Start | Then(before: Path, move: Ending)

  /** How many lyric words the path has passed. */
  function Rows(p: Path): nat {
    match p
    case Start => 0
    case Then(before, move) => Rows(before) + if move == HeardGap then 0 else 1
  }

  /** How many heard words the path has passed. */
  function Cols(p: Path): nat {
    match p
    case Start => 0
    case Then(before, move) => Cols(before) + if move == LyricGap then 0 else 1
  }

  /** The start counts as a heard gap, so the first pair pays for breaking a run. */
  function EndsIn(p: Path): Ending {
    if p.Start? then HeardGap else p.move
  }

  predicate Fits(w: Words, p: Path) {
    Rows(p) <= |w.lyrics| && Cols(p) <= |w.heard|
  }

  predicate Complete(w: Words, p: Path) {
    Rows(p) == |w.lyrics| && Cols(p) == |w.heard|
  }

  /** What a move costs or earns from the cell (i, j) after an alignment with that ending. Heard words
      before the first and after the last lyric word are free. */
  function MoveScore(w: Words, i: nat, j: nat, ending: Ending, move: Ending): real
    requires move == Pair ==> i < |w.lyrics| && j < |w.heard|
  {
    match move
    case LyricGap => SKIP_LYRIC_WORD
    case HeardGap =>
      if i == 0 || i == |w.lyrics| then 0.0
      else if ending == HeardGap then EXTEND_HEARD_GAP
      else OPEN_HEARD_GAP
    case Pair =>
      (if ending == Pair then 0.0 else BREAK_PAIR_RUN) + 2.0 * w.Similarity(i, j) - 1.0
  }

  /** The scoring in numbers: a lyric word that is not sung costs 0.6; a pair earns twice its similarity less 1, and
      0.1 less where it starts a run; heard words inside cost 0.3 for the first and 0.02 for each further one, before
      the first and after the last lyric word nothing. Equal words are similar by 1. */
  lemma MovesInNumbers(w: Words, i: nat, j: nat, ending: Ending)
    ensures MoveScore(w, i, j, ending, LyricGap) == -0.6
    ensures MoveScore(w, i, j, ending, HeardGap)
            == if i == 0 || i == |w.lyrics| then 0.0 else if ending == HeardGap then -0.02 else -0.3
    ensures i < |w.lyrics| && j < |w.heard| ==>
              var similarity := if w.heard[j] == w.lyrics[i] then 1.0 else w.ratio(w.heard[j], w.lyrics[i]);
              MoveScore(w, i, j, ending, Pair) == 2.0 * similarity - 1.0 - (if ending == Pair then 0.0 else 0.1)
  {
  }

  function PathScore(w: Words, p: Path): real
    requires Fits(w, p)
  {
    match p
    case Start => 0.0
    case Then(before, move) =>
      PathScore(w, before) + MoveScore(w, Rows(before), Cols(before), EndsIn(before), move)
  }

  ghost predicate Optimal(w: Words, p: Path) {
    Complete(w, p) && forall q | Complete(w, q) :: PathScore(w, q) <= PathScore(w, p)
  }

  // ---------------------------------------------------------------- the recurrence

  /** One value per ending. */
  datatype PerEnding<T> = PerEnding(heardGap: T, pair: T, lyricGap: T) {
    function At(ending: Ending): T {
      match ending
      case HeardGap => heardGap
      case Pair => pair
      case LyricGap => lyricGap
    }
  }

  type CellScores = PerEnding<Score>

  const UNREACHED: CellScores := PerEnding(NegInf, NegInf, NegInf)

  function BestEnding(c: CellScores): Ending {
    var first := if c.pair.Above(c.heardGap) then Pair else HeardGap;
    if c.lyricGap.Above(c.At(first)) then LyricGap else first
  }

  function Best(c: CellScores): Score {
    c.At(BestEnding(c))
  }

  function SkipLyricWord(above: CellScores): (Score, Ending) {
    (Best(above).Plus(SKIP_LYRIC_WORD), BestEnding(above))
  }

  function ContinueHeardGap(left: CellScores, openGap: real, extendGap: real): (Score, Ending) {
    var reopened, extended := Best(left).Plus(openGap), left.heardGap.Plus(extendGap);
    if extended.AtLeast(reopened) then (extended, HeardGap) else (reopened, BestEnding(left))
  }

  function ContinuePairRun(diagonal: CellScores, pairScore: real): (Score, Ending) {
    var continued, broken := diagonal.pair, Best(diagonal).Plus(BREAK_PAIR_RUN);
    if continued.AtLeast(broken) then (continued.Plus(pairScore), Pair)
    else (broken.Plus(pairScore), BestEnding(diagonal))
  }

  function OpenGap(w: Words, row: nat): real {
    if row == |w.lyrics| then 0.0 else OPEN_HEARD_GAP
  }

  function ExtendGap(w: Words, row: nat): real {
    if row == |w.lyrics| then 0.0 else EXTEND_HEARD_GAP
  }

  /** The three scores and three back pointers of the cell after `i` lyric and `j` heard words. */
  function Scores(w: Words, i: nat, j: nat): CellScores
    requires i <= |w.lyrics| && j <= |w.heard|
    decreases i + j
  {
    if i == 0 then UNREACHED.(heardGap := Fin(0.0))
    else
      PerEnding(
        if j == 0 then NegInf
        else ContinueHeardGap(Scores(w, i, j - 1), OpenGap(w, i), ExtendGap(w, i)).0,
        if j == 0 then NegInf
        else ContinuePairRun(Scores(w, i - 1, j - 1), 2.0 * w.Similarity(i - 1, j - 1) - 1.0).0,
        SkipLyricWord(Scores(w, i - 1, j)).0)
  }

  function Previous(w: Words, i: nat, j: nat): PerEnding<Ending>
    requires i <= |w.lyrics| && j <= |w.heard|
  {
    if i == 0 then PerEnding(HeardGap, HeardGap, HeardGap)
    else
      PerEnding(
        if j == 0 then HeardGap
        else ContinueHeardGap(Scores(w, i, j - 1), OpenGap(w, i), ExtendGap(w, i)).1,
        if j == 0 then HeardGap
        else ContinuePairRun(Scores(w, i - 1, j - 1), 2.0 * w.Similarity(i - 1, j - 1) - 1.0).1,
        SkipLyricWord(Scores(w, i - 1, j)).1)
  }

  // ---------------------------------------------------------------- the recurrence is the maximum

  /** The order of preference for the ending before `move`: a run of pairs is continued first. */
  function Rank(move: Ending, ending: Ending): nat {
    if move == Pair && ending == Pair then 0
    else match ending case HeardGap => 1 case Pair => 2 case LyricGap => 3
  }

  /** `to` is reached from the ending `previous` at `cost`; coming from `e` at `costOfE` instead is no
      better, and no more preferred when it is as good. */
  predicate IsBestStep(from: CellScores, move: Ending, to: Score, previous: Ending, cost: real, e: Ending, costOfE: real) {
    var other := from.At(e).Plus(costOfE);
    && to == from.At(previous).Plus(cost)
    && to.AtLeast(other)
    && (e != previous && to.Fin? && to == other ==> Rank(move, previous) < Rank(move, e))
  }

  lemma GapStep(left: CellScores, openGap: real, extendGap: real, e: Ending)
    requires openGap <= extendGap
    ensures var (to, previous) := ContinueHeardGap(left, openGap, extendGap);
            IsBestStep(left, HeardGap, to, previous, if previous == HeardGap then extendGap else openGap,
                       e, if e == HeardGap then extendGap else openGap)
  {
  }

  lemma PairStep(diagonal: CellScores, gain: real, e: Ending)
    ensures var (to, previous) := ContinuePairRun(diagonal, gain);
            IsBestStep(diagonal, Pair, to, previous, (if previous == Pair then 0.0 else BREAK_PAIR_RUN) + gain,
                       e, (if e == Pair then 0.0 else BREAK_PAIR_RUN) + gain)
  {
  }

  lemma SkipStep(above: CellScores, e: Ending)
    ensures var (to, previous) := SkipLyricWord(above);
            IsBestStep(above, LyricGap, to, previous, SKIP_LYRIC_WORD, e, SKIP_LYRIC_WORD)
  {
  }

  predicate CanMove(w: Words, i: nat, j: nat, move: Ending) {
    && (i < |w.lyrics| || (move == HeardGap && i == |w.lyrics|))
    && (j < |w.heard| || (move == LyricGap && j == |w.heard|))
    && (i > 0 || move != HeardGap)
  }

  /** One table step: below the first row, the cell a move leads to is the best over the endings it
      may follow, its back pointer realises that, and among equals it is the preferred one. */
  lemma StepIsBest(w: Words, i: nat, j: nat, move: Ending, e: Ending)
    requires CanMove(w, i, j, move)
    ensures var i', j' := if move == HeardGap then i else i + 1, if move == LyricGap then j else j + 1;
            var previous := Previous(w, i', j').At(move);
            IsBestStep(Scores(w, i, j), move, Scores(w, i', j').At(move), previous,
                       MoveScore(w, i, j, previous, move), e, MoveScore(w, i, j, e, move))
  {
    hide Best, BestEnding, ContinueHeardGap, ContinuePairRun, SkipLyricWord, IsBestStep;
    var from := Scores(w, i, j);
    match move
    case HeardGap =>
      GapStep(from, OpenGap(w, i), ExtendGap(w, i), e);
    case Pair =>
      PairStep(from, 2.0 * w.Similarity(i, j) - 1.0, e);
    case LyricGap =>
      SkipStep(from, e);
  }

  lemma {:induction false} FirstRowIsFree(w: Words, p: Path)
    requires Fits(w, p) && Rows(p) == 0
    ensures EndsIn(p) == HeardGap && PathScore(w, p) == 0.0
  {
    if p.Then? {
      FirstRowIsFree(w, p.before);
    }
  }

  /** No walk beats the recurrence. */
  lemma {:induction false} NoPathBeatsTheTable(w: Words, p: Path)
    requires Fits(w, p)
    ensures Scores(w, Rows(p), Cols(p)).At(EndsIn(p)).AtLeast(Fin(PathScore(w, p)))
  {
    hide Best, BestEnding, ContinueHeardGap, ContinuePairRun, SkipLyricWord, MoveScore;
    if Rows(p) == 0 {
      FirstRowIsFree(w, p);
    } else {
      NoPathBeatsTheTable(w, p.before);
      StepIsBest(w, Rows(p.before), Cols(p.before), p.move, EndsIn(p.before));
    }
  }

  /** The cell and ending a back pointer leads to. */
  datatype Position = Position(ending: Ending, i: nat, j: nat) {
    predicate Within(w: Words) { i <= |w.lyrics| && j <= |w.heard| }

    predicate Reached(w: Words)
      requires Within(w)
    {
      Scores(w, i, j).At(ending).Fin?
    }
  }

  /** A reached cell's back pointer stays in the table, leads to a reached cell, and the move between
      them accounts for the whole difference in score. */
  lemma BackPointerIsReached(w: Words, at: Position)
    requires at.Within(w) && at.Reached(w) && at.i > 0
    ensures at.ending != LyricGap ==> at.j > 0
    ensures var before := Back(w, at);
            && before.Within(w) && before.Reached(w)
            && Scores(w, at.i, at.j).At(at.ending).value
               == Scores(w, before.i, before.j).At(before.ending).value
                  + MoveScore(w, before.i, before.j, before.ending, at.ending)
  {
    hide Best, BestEnding, ContinueHeardGap, ContinuePairRun, SkipLyricWord, MoveScore;
    assert at.j == 0 ==> at.ending == LyricGap;
    var before := Back(w, at);
    StepIsBest(w, before.i, before.j, at.ending, before.ending);
  }

  function Back(w: Words, at: Position): Position
    requires at.Within(w) && at.i > 0 && (at.ending != LyricGap ==> at.j > 0)
  {
    Position(Previous(w, at.i, at.j).At(at.ending),
             if at.ending == HeardGap then at.i else at.i - 1,
             if at.ending == LyricGap then at.j else at.j - 1)
  }

  /** The walk the back pointers lead along. */
  function Walk(w: Words, at: Position): (p: Path)
    requires at.Within(w) && at.Reached(w)
    ensures Rows(p) == at.i && Cols(p) == at.j && EndsIn(p) == at.ending
    decreases at.i + at.j
  {
    if at.i == 0 then
      if at.j == 0 then Start else Then(Walk(w, Position(HeardGap, 0, at.j - 1)), HeardGap)
    else
      BackPointerIsReached(w, at);
      Then(Walk(w, Back(w, at)), at.ending)
  }

  /** The back pointers realise the score of the cell they start from. */
  lemma {:induction false} WalkHasTheScore(w: Words, at: Position)
    requires at.Within(w) && at.Reached(w)
    ensures Fin(PathScore(w, Walk(w, at))) == Scores(w, at.i, at.j).At(at.ending)
    decreases at.i + at.j
  {
    hide Best, BestEnding, ContinueHeardGap, ContinuePairRun, SkipLyricWord, MoveScore;
    if at.i == 0 {
      FirstRowIsFree(w, Walk(w, at));
    } else {
      BackPointerIsReached(w, at);
      WalkHasTheScore(w, Back(w, at));
    }
  }

  /** Some alignment ends every cell, so the best ending is never `-inf`. */
  lemma {:induction false} EveryCellIsReached(w: Words, i: nat, j: nat)
    requires i <= |w.lyrics| && j <= |w.heard|
    ensures Best(Scores(w, i, j)).Fin?
  {
    if i > 0 {
      EveryCellIsReached(w, i - 1, j);
    }
  }

  /** Each cell holds, for each ending, the maximum over all walks that end there that way; `-inf`
      exactly where there is none. */
  lemma CellIsTheMaximum(w: Words, e: Ending, i: nat, j: nat)
    requires i <= |w.lyrics| && j <= |w.heard|
    ensures forall p | Rows(p) == i && Cols(p) == j && EndsIn(p) == e ::
              Scores(w, i, j).At(e).AtLeast(Fin(PathScore(w, p)))
    ensures Scores(w, i, j).At(e).Fin? ==>
              exists p :: Rows(p) == i && Cols(p) == j && EndsIn(p) == e
                          && Scores(w, i, j).At(e) == Fin(PathScore(w, p))
    ensures Scores(w, i, j).At(e).NegInf? <==>
              !exists p :: Rows(p) == i && Cols(p) == j && EndsIn(p) == e
  {
    forall p | Rows(p) == i && Cols(p) == j && EndsIn(p) == e
      ensures Scores(w, i, j).At(e).AtLeast(Fin(PathScore(w, p)))
    {
      NoPathBeatsTheTable(w, p);
    }
    if Scores(w, i, j).At(e).Fin? {
      WalkHasTheScore(w, Position(e, i, j));
    }
  }

  /** Where the traceback starts: the best ending of the last cell. */
  function Last(w: Words): Position {
    Position(BestEnding(Scores(w, |w.lyrics|, |w.heard|)), |w.lyrics|, |w.heard|)
  }

  lemma LastIsReached(w: Words)
    ensures Last(w).Reached(w)
  {
    EveryCellIsReached(w, |w.lyrics|, |w.heard|);
  }

  /** The alignment the traceback follows. */
  function Traced(w: Words): (p: Path)
    ensures Complete(w, p)
    ensures Fin(PathScore(w, p)) == Best(Scores(w, |w.lyrics|, |w.heard|))
  {
    LastIsReached(w);
    WalkHasTheScore(w, Last(w));
    Walk(w, Last(w))
  }

  lemma TracedIsOptimal(w: Words)
    ensures Optimal(w, Traced(w))
  {
    forall q | Complete(w, q)
      ensures PathScore(w, q) <= PathScore(w, Traced(w))
    {
      NoPathBeatsTheTable(w, q);
    }
  }

  /** One lyric word and one heard word are paired exactly when they are similar by more than a quarter. */
  lemma OneWordIsPaired(w: Words)
    requires |w.lyrics| == 1 && |w.heard| == 1
    ensures Traced(w) == Then(Start, Pair) <==> w.Similarity(0, 0) > 0.25
  {
    var pair, skipped, unsung := Then(Start, Pair), Then(Then(Start, HeardGap), LyricGap), Then(Then(Start, LyricGap), HeardGap);
    assert Scores(w, 0, 0) == Scores(w, 0, 1) == UNREACHED.(heardGap := Fin(0.0));
    assert Scores(w, 1, 0) == PerEnding(NegInf, NegInf, Fin(-0.6));
    assert Scores(w, 1, 1) == PerEnding(Fin(-0.6), Fin(2.0 * w.Similarity(0, 0) - 1.1), Fin(-0.6));
    assert Last(w) == Position(if w.Similarity(0, 0) > 0.25 then Pair else HeardGap, 1, 1);
    if w.Similarity(0, 0) > 0.25 {
      assert Previous(w, 1, 1).pair == HeardGap;
      assert Walk(w, Position(HeardGap, 0, 0)) == Start;
    }
  }

  // ---------------------------------------------------------------- which optimum

  /** Reading both walks backwards, `p` has the preferred ending where they first differ. */
  predicate Preferred(p: Path, q: Path) {
    p == q ||
    (p.Then? && q.Then? && p.move == q.move &&
     (if EndsIn(p.before) == EndsIn(q.before) then Preferred(p.before, q.before)
      else Rank(p.move, EndsIn(p.before)) < Rank(p.move, EndsIn(q.before))))
  }

  lemma {:induction false} OneWalkThroughTheFirstRow(w: Words, q: Path)
    requires Fits(w, q) && Rows(q) == 0
    ensures EndsIn(q) == HeardGap && Walk(w, Position(HeardGap, 0, Cols(q))) == q
  {
    if q.Then? {
      OneWalkThroughTheFirstRow(w, q.before);
    }
  }

  /** `q` has the score of the cell it ends in. */
  predicate Tight(w: Words, q: Path)
    requires Fits(w, q)
  {
    Scores(w, Rows(q), Cols(q)).At(EndsIn(q)) == Fin(PathScore(w, q))
  }

  /** A tight walk's last step either follows the back pointer, from a tight walk, or comes from a
      less preferred ending. */
  lemma LastStepOfATightWalk(w: Words, q: Path)
    requires Fits(w, q) && Rows(q) > 0 && Tight(w, q)
    ensures var previous := Previous(w, Rows(q), Cols(q)).At(q.move);
            if EndsIn(q.before) == previous then Tight(w, q.before)
            else Rank(q.move, previous) < Rank(q.move, EndsIn(q.before))
  {
    hide Best, BestEnding, ContinueHeardGap, ContinuePairRun, SkipLyricWord, MoveScore;
    NoPathBeatsTheTable(w, q.before);
    StepIsBest(w, Rows(q.before), Cols(q.before), q.move, EndsIn(q.before));
  }

  /** Among all walks with the cell's score, the traced one is the preferred. */
  lemma {:induction false} WalkIsPreferred(w: Words, q: Path)
    requires Fits(w, q) && Tight(w, q)
    ensures Preferred(Walk(w, Position(EndsIn(q), Rows(q), Cols(q))), q)
  {
    hide Best, BestEnding, ContinueHeardGap, ContinuePairRun, SkipLyricWord, MoveScore, PathScore, Previous, Scores;
    if Rows(q) == 0 {
      OneWalkThroughTheFirstRow(w, q);
    } else {
      BackPointerIsReached(w, Position(q.move, Rows(q), Cols(q)));
      LastStepOfATightWalk(w, q);
      if Tight(w, q.before) {
        WalkIsPreferred(w, q.before);
      }
    }
  }

  /** The traceback's choice among equal totals is the one the `Ending` order prescribes. */
  lemma TracedIsPreferred(w: Words, q: Path)
    requires Optimal(w, q)
    ensures EndsIn(Traced(w)) == EndsIn(q) ==> Preferred(Traced(w), q)
    ensures EndsIn(Traced(w)) != EndsIn(q) ==> Rank(LyricGap, EndsIn(Traced(w))) < Rank(LyricGap, EndsIn(q))
  {
    TracedIsOptimal(w);
    NoPathBeatsTheTable(w, q);
    if EndsIn(Traced(w)) == EndsIn(q) {
      WalkIsPreferred(w, q);
    }
  }
}
