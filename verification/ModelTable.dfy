/**
 The loaded-models table as a value: modes in order of last use, their use counts and pins, and
 the declared sizes they add up to. `ModelCaches` stores it; the worker protocol shares it.
 */
module ModelTables {
  type Gigabytes = r: real | r >= 0.0

  type Mode = string

  /** `loaded` runs from the least to the most recently used mode. */
  datatype Table = Table(loaded: seq<Mode>, inUse: map<Mode, nat>, pinned: set<Mode>) {
    function Uses(mode: Mode): nat {
      if mode in inUse then inUse[mode] else 0
    }

    predicate Evictable(mode: Mode) {
      mode !in pinned && Uses(mode) == 0
    }

    /** Counts are positive, and a mode in use is loaded. */
    ghost predicate Valid() {
      && Distinct(loaded)
      && (forall mode | mode in inUse :: inUse[mode] > 0 && mode in loaded)
    }
  }

  ghost predicate Distinct(s: seq<Mode>) {
    forall i, j | 0 <= i < j < |s| :: s[i] != s[j]
  }

  function Size(sizes: map<Mode, Gigabytes>, mode: Mode): Gigabytes {
    if mode in sizes then sizes[mode] else 0.0
  }

  /** The declared sizes of `s` added up. */
  function Total(sizes: map<Mode, Gigabytes>, s: seq<Mode>): Gigabytes {
    if s == [] then 0.0 else Total(sizes, s[..|s| - 1]) + Size(sizes, s[|s| - 1])
  }

  function Without(s: seq<Mode>, mode: Mode): (r: seq<Mode>)
    ensures forall m :: m in r <==> m in s && m != mode
  {
    if s == [] then []
    else
      assert s == s[..|s| - 1] + [s[|s| - 1]];
      if s[|s| - 1] == mode then Without(s[..|s| - 1], mode) else Without(s[..|s| - 1], mode) + [s[|s| - 1]]
  }

  function MoveToEnd(s: seq<Mode>, mode: Mode): seq<Mode> {
    Without(s, mode) + [mode]
  }

  /** `s` after the modes of `gone` left it, one after the other. */
  function Minus(s: seq<Mode>, gone: seq<Mode>): (r: seq<Mode>)
    ensures forall m :: m in r <==> m in s && m !in gone
  {
    if gone == [] then s
    else
      assert gone == gone[..|gone| - 1] + [gone[|gone| - 1]];
      Without(Minus(s, gone[..|gone| - 1]), gone[|gone| - 1])
  }

  /** The unpinned idle modes, least recently used first. */
  function Evictables(t: Table, s: seq<Mode>): (r: seq<Mode>)
    ensures forall m :: m in r <==> m in s && m !in t.pinned && (m in t.inUse ==> t.inUse[m] == 0)
  {
    if s == [] then []
    else
      assert s == s[..|s| - 1] + [s[|s| - 1]];
      if t.Evictable(s[|s| - 1]) then Evictables(t, s[..|s| - 1]) + [s[|s| - 1]] else Evictables(t, s[..|s| - 1])
  }

  // ---------------------------------------------------------------- operations

  function Acquired(t: Table, mode: Mode): Table {
    if mode !in t.loaded then t
    else t.(loaded := MoveToEnd(t.loaded, mode), inUse := t.inUse[mode := t.Uses(mode) + 1])
  }

  function Released(t: Table, mode: Mode): Table {
    if mode !in t.inUse then t
    else if t.inUse[mode] <= 1 then t.(inUse := t.inUse - {mode})
    else t.(inUse := t.inUse[mode := t.inUse[mode] - 1])
  }

  /** The last release also drops the mode; its pin stays. */
  function ReleasedAndStopped(t: Table, mode: Mode): Table {
    if mode in t.inUse && t.inUse[mode] <= 1 then Released(t, mode).(loaded := Without(t.loaded, mode))
    else Released(t, mode)
  }

  function Evicted(t: Table, mode: Mode): Table {
    t.(loaded := Without(t.loaded, mode), pinned := t.pinned - {mode})
  }

  // ---------------------------------------------------------------- order of last use

  /** `s` is ordered by the times of `when`. */
  ghost predicate OrderedBy(s: seq<Mode>, when: map<Mode, nat>) {
    && (forall i | 0 <= i < |s| :: s[i] in when)
    && (forall i, j | 0 <= i < j < |s| :: when[s[i]] < when[s[j]])
  }

  lemma OrderedIsDistinct(s: seq<Mode>, when: map<Mode, nat>)
    requires OrderedBy(s, when)
    ensures Distinct(s)
  {
  }

  lemma {:induction false} WithoutKeepsOrder(s: seq<Mode>, mode: Mode, when: map<Mode, nat>)
    requires OrderedBy(s, when)
    ensures OrderedBy(Without(s, mode), when)
  {
    if s != [] {
      WithoutKeepsOrder(s[..|s| - 1], mode, when);
      var r := Without(s[..|s| - 1], mode);
      forall i | 0 <= i < |r|
        ensures when[r[i]] < when[s[|s| - 1]]
      {
        assert r[i] in s[..|s| - 1];
      }
    }
  }

  lemma {:induction false} WithoutKeepsDistinct(s: seq<Mode>, mode: Mode)
    requires Distinct(s)
    ensures Distinct(Without(s, mode))
  {
    if s != [] {
      var front, last := s[..|s| - 1], s[|s| - 1];
      WithoutKeepsDistinct(front, mode);
      var r := Without(front, mode);
      forall i | 0 <= i < |r|
        ensures r[i] != last
      {
        assert r[i] in front;
      }
    }
  }

  lemma AppendKeepsOrder(s: seq<Mode>, mode: Mode, when: map<Mode, nat>, now: nat)
    requires OrderedBy(s, when) && mode !in s
    requires forall m | m in when :: when[m] < now
    ensures OrderedBy(s + [mode], when[mode := now])
  {
    forall i | 0 <= i < |s| ensures s[i] != mode { assert s[i] in s; }
  }

  // ---------------------------------------------------------------- totals

  lemma {:induction false} TotalWithout(sizes: map<Mode, Gigabytes>, s: seq<Mode>, mode: Mode)
    requires Distinct(s)
    ensures Total(sizes, Without(s, mode)) == Total(sizes, s) - if mode in s then Size(sizes, mode) else 0.0
  {
    if s != [] {
      var front, last := s[..|s| - 1], s[|s| - 1];
      TotalWithout(sizes, front, mode);
      assert s == front + [last];
      if last == mode {
        assert mode !in front;
        assert Without(s, mode) == Without(front, mode);
      } else {
        assert mode in s <==> mode in front;
        TotalAppend(sizes, Without(front, mode), last);
      }
    }
  }

  lemma {:induction false} MinusKeepsDistinct(s: seq<Mode>, gone: seq<Mode>)
    requires Distinct(s)
    ensures Distinct(Minus(s, gone))
  {
    if gone != [] {
      MinusKeepsDistinct(s, gone[..|gone| - 1]);
      WithoutKeepsDistinct(Minus(s, gone[..|gone| - 1]), gone[|gone| - 1]);
    }
  }

  lemma {:induction false} EvictablesWeighNoMore(sizes: map<Mode, Gigabytes>, t: Table, s: seq<Mode>)
    ensures Total(sizes, Evictables(t, s)) <= Total(sizes, s)
  {
    if s != [] {
      EvictablesWeighNoMore(sizes, t, s[..|s| - 1]);
      var r := Evictables(t, s[..|s| - 1]);
      if t.Evictable(s[|s| - 1]) {
        assert (r + [s[|s| - 1]])[..|r|] == r;
      } else {
        assert r + [] == r;
      }
    }
  }

  lemma {:induction false} EvictablesAreDistinct(t: Table, s: seq<Mode>)
    requires Distinct(s)
    ensures Distinct(Evictables(t, s))
  {
    if s != [] {
      var front := s[..|s| - 1];
      EvictablesAreDistinct(t, front);
      assert forall m | m in Evictables(t, front) :: m in front;
    }
  }

  lemma {:induction false} PrefixWeighsNoMore(sizes: map<Mode, Gigabytes>, s: seq<Mode>, n: nat)
    requires n <= |s|
    ensures Total(sizes, s[..n]) <= Total(sizes, s)
  {
    if n < |s| {
      PrefixWeighsNoMore(sizes, s[..|s| - 1], n);
      assert s[..|s| - 1][..n] == s[..n];
    } else {
      assert s[..n] == s;
    }
  }

  lemma TotalAppend(sizes: map<Mode, Gigabytes>, s: seq<Mode>, mode: Mode)
    ensures Total(sizes, s + [mode]) == Total(sizes, s) + Size(sizes, mode)
  {
    assert (s + [mode])[..|s|] == s;
  }

  lemma {:induction false} EvictablesOfPrefix(t: Table, s: seq<Mode>, n: nat)
    requires n <= |s|
    ensures Evictables(t, s[..n]) <= Evictables(t, s)
  {
    if n < |s| {
      EvictablesOfPrefix(t, s[..|s| - 1], n);
      assert s[..|s| - 1][..n] == s[..n];
    } else {
      assert s[..n] == s;
    }
  }

  lemma EvictablesAppend(t: Table, s: seq<Mode>, mode: Mode)
    ensures Evictables(t, s + [mode]) == Evictables(t, s) + if t.Evictable(mode) then [mode] else []
  {
    assert (s + [mode])[..|s|] == s;
  }

  // ---------------------------------------------------------------- what every operation keeps

  /** The declared sizes fit the budget, a mode in use is loaded, and the table is in order of last use. */
  ghost predicate Good(t: Table, sizes: map<Mode, Gigabytes>, budget: Gigabytes, lastUse: map<Mode, nat>, now: nat) {
    && t.Valid()
    && (forall mode | mode in t.loaded :: mode in sizes)
    && Total(sizes, t.loaded) <= budget
    && OrderedBy(t.loaded, lastUse)
    && (forall mode | mode in lastUse :: lastUse[mode] < now)
  }

  /** The parts of `Good` that speak of the order of the loaded modes and their sizes. */
  ghost predicate Fits(s: seq<Mode>, sizes: map<Mode, Gigabytes>, budget: Gigabytes, lastUse: map<Mode, nat>, now: nat) {
    && (forall mode | mode in s :: mode in sizes)
    && Total(sizes, s) <= budget
    && OrderedBy(s, lastUse)
    && (forall mode | mode in lastUse :: lastUse[mode] < now)
  }

  lemma AppendFits(s: seq<Mode>, mode: Mode, sizes: map<Mode, Gigabytes>, budget: Gigabytes, lastUse: map<Mode, nat>, now: nat)
    requires Fits(s, sizes, budget, lastUse, now) && mode in sizes && mode !in s
    requires Total(sizes, s) + Size(sizes, mode) <= budget
    ensures Fits(s + [mode], sizes, budget, lastUse[mode := now], now + 1)
  {
    TotalAppend(sizes, s, mode);
    AppendKeepsOrder(s, mode, lastUse, now);
  }

  lemma WithoutFits(s: seq<Mode>, mode: Mode, sizes: map<Mode, Gigabytes>, budget: Gigabytes, lastUse: map<Mode, nat>, now: nat)
    requires Fits(s, sizes, budget, lastUse, now)
    ensures Fits(Without(s, mode), sizes, budget, lastUse, now)
    ensures Total(sizes, Without(s, mode)) == Total(sizes, s) - if mode in s then Size(sizes, mode) else 0.0
  {
    OrderedIsDistinct(s, lastUse);
    WithoutKeepsOrder(s, mode, lastUse);
    TotalWithout(sizes, s, mode);
  }

  lemma AcquireKeepsGood(t: Table, mode: Mode, sizes: map<Mode, Gigabytes>, budget: Gigabytes, lastUse: map<Mode, nat>, now: nat)
    requires Good(t, sizes, budget, lastUse, now) && mode in t.loaded
    ensures Good(Acquired(t, mode), sizes, budget, lastUse[mode := now], now + 1)
  {
    hide OrderedBy, Distinct;
    var rest := Without(t.loaded, mode);
    WithoutFits(t.loaded, mode, sizes, budget, lastUse, now);
    AppendFits(rest, mode, sizes, budget, lastUse, now);
    OrderedIsDistinct(rest + [mode], lastUse[mode := now]);
  }

  lemma ReleaseKeepsGood(t: Table, mode: Mode, sizes: map<Mode, Gigabytes>, budget: Gigabytes, lastUse: map<Mode, nat>, now: nat)
    requires Good(t, sizes, budget, lastUse, now)
    ensures Good(Released(t, mode), sizes, budget, lastUse, now)
  {
    hide OrderedBy, Distinct;
  }

  /** A mode that is not in use may leave, by eviction or with its last use. */
  lemma LeavingKeepsGood(t: Table, mode: Mode, sizes: map<Mode, Gigabytes>, budget: Gigabytes, lastUse: map<Mode, nat>, now: nat)
    requires Good(t, sizes, budget, lastUse, now) && mode !in t.inUse
    ensures Good(t.(loaded := Without(t.loaded, mode)), sizes, budget, lastUse, now)
    ensures Total(sizes, Without(t.loaded, mode)) == Total(sizes, t.loaded) - if mode in t.loaded then Size(sizes, mode) else 0.0
  {
    hide OrderedBy, Distinct;
    WithoutFits(t.loaded, mode, sizes, budget, lastUse, now);
    OrderedIsDistinct(Without(t.loaded, mode), lastUse);
  }

  lemma PinsDoNotMatter(t: Table, pinned: set<Mode>, sizes: map<Mode, Gigabytes>, budget: Gigabytes, lastUse: map<Mode, nat>, now: nat)
    requires Good(t, sizes, budget, lastUse, now)
    ensures Good(t.(pinned := pinned), sizes, budget, lastUse, now)
  {
  }

  lemma LoadKeepsGood(t: Table, mode: Mode, sizes: map<Mode, Gigabytes>, budget: Gigabytes, lastUse: map<Mode, nat>, now: nat)
    requires Good(t, sizes, budget, lastUse, now) && mode in sizes && mode !in t.loaded
    requires Total(sizes, t.loaded) + Size(sizes, mode) <= budget
    ensures Good(t.(loaded := t.loaded + [mode]), sizes, budget, lastUse[mode := now], now + 1)
  {
    hide OrderedBy, Distinct;
    AppendFits(t.loaded, mode, sizes, budget, lastUse, now);
    OrderedIsDistinct(t.loaded + [mode], lastUse[mode := now]);
  }
}
