/**
 The busiest rate-limit window of an access log: for every client the largest number of its requests inside
 one half-open window, found with two indices over the client's sorted times. Times are counted in
 microseconds, as the log's timestamps are.
 */
module RateWindow {
  import opened Wrappers
  import opened Numbers

  datatype AccessRecord = AccessRecord(at: int, clientIp: string, path: string)
  datatype WindowPeak = WindowPeak(clientIp: string, requestCount: nat, startsAt: int)

  // ---------------------------------------------------------------- one client

  predicate Within(time: int, start: int, window: int) {
    start <= time < start + window
  }

  /** How many of the times lie in the window placed at `start`. */
  function InWindow(times: seq<int>, start: int, window: int): nat {
    if times == [] then 0
    else
      var before := InWindow(times[..|times| - 1], start, window);
      if Within(times[|times| - 1], start, window) then before + 1 else before
  }

  ghost predicate Ascending(times: seq<int>) {
    forall i, j | 0 <= i <= j < |times| :: times[i] <= times[j]
  }

  /** How many of the ascending times lie before `bound`. */
  ghost function Before(times: seq<int>, bound: int): nat {
    if times == [] || bound <= times[0] then 0 else 1 + Before(times[1..], bound)
  }

  lemma {:induction false} BeforeSplits(times: seq<int>, bound: int)
    requires Ascending(times)
    ensures Before(times, bound) <= |times|
    ensures forall k | 0 <= k < |times| :: times[k] < bound <==> k < Before(times, bound)
  {
    if times != [] && times[0] < bound {
      var rest := times[1..];
      BeforeSplits(rest, bound);
      forall k | 1 <= k < |times| ensures times[k] < bound <==> k < Before(times, bound) {
        assert times[k] == rest[k - 1];
      }
    }
  }

  lemma {:induction false} RangeIsCounted(times: seq<int>, low: nat, high: nat, start: int, window: int)
    requires low <= high <= |times|
    requires forall k | 0 <= k < |times| :: Within(times[k], start, window) <==> low <= k < high
    ensures InWindow(times, start, window) == high - low
  {
    if times != [] {
      var last := |times| - 1;
      if high == |times| && low < high {
        RangeIsCounted(times[..last], low, last, start, window);
      } else {
        RangeIsCounted(times[..last], Min(low, last), Min(high, last), start, window);
      }
    }
  }

  /** No run of times narrower than the window, and ending before `upTo`, is longer than `count`. */
  ghost predicate NoRunIsLonger(times: seq<int>, window: int, upTo: nat, count: int)
    requires upTo <= |times|
  {
    forall i, j | 0 <= i <= j < upTo && times[j] - times[i] < window :: j - i + 1 <= count
  }

  /** The run of `count` times from `at` is narrower than the window, and nothing earlier is that close to its end. */
  ghost predicate IsRun(times: seq<int>, window: int, at: nat, count: nat) {
    && 0 < count && at + count <= |times|
    && times[at + count - 1] - times[at] < window
    && forall k | 0 <= k < at :: window <= times[at + count - 1] - times[k]
  }

  /** The window of sorted times placed at `start` holds one run of them. */
  lemma WindowIsARun(times: seq<int>, window: int, start: int) returns (low: nat)
    requires Ascending(times) && 0 < window
    ensures var count := InWindow(times, start, window);
            && low + count <= |times| && (forall k | 0 <= k < |times| :: start <= times[k] <==> low <= k)
            && (0 < count ==> times[low + count - 1] - times[low] < window)
  {
    low := Before(times, start);
    var high := Before(times, start + window);
    BeforeSplits(times, start);
    BeforeSplits(times, start + window);
    assert low <= high by {
      if low > 0 {
        assert times[low - 1] < start + window;
      }
    }
    RangeIsCounted(times, low, high, start, window);
  }

  /** What the two indices find is what counting finds: the longest run fills the busiest window there is, and
      no busiest window starts with an earlier request. */
  lemma LongestRunIsThePeak(times: seq<int>, window: int, at: nat, count: nat)
    requires Ascending(times) && 0 < window
    requires 0 < |times| && Searched(times, window, |times|, at, count)
    ensures 0 < count && IsPeak(times, window, count, times[at])
  {
    forall start ensures InWindow(times, start, window) <= count {
      var low := WindowIsARun(times, window, start);
    }
    var first := WindowIsARun(times, window, times[at]);
    assert first == at by {
      assert first <= at;
      assert times[at] <= times[first];
    }
    assert InWindow(times, times[at], window) == count by {
      BeforeSplits(times, times[at] + window);
      var high := Before(times, times[at] + window);
      assert at + count <= high by {
        assert times[at + count - 1] < times[at] + window;
      }
      RangeIsCounted(times, at, high, times[at], window);
    }
    forall k | 0 <= k < |times| && InWindow(times, times[k], window) == count ensures times[at] <= times[k] {
      var low := WindowIsARun(times, window, times[k]);
      assert at <= low;
    }
  }

  /** `count` is the most requests in any window placed anywhere, `start` is the earliest request whose own
      window holds that many. */
  ghost predicate IsPeak(times: seq<int>, window: int, count: nat, start: int) {
    && (forall other :: InWindow(times, other, window) <= count)
    && InWindow(times, start, window) == count
    && start in times
    && (forall k | 0 <= k < |times| && InWindow(times, times[k], window) == count :: start <= times[k])
  }

  /** The first `upTo` times hold no longer run than the one recorded, and none of its length ends earlier. */
  ghost predicate Searched(times: seq<int>, window: int, upTo: nat, found: nat, count: nat) {
    && upTo <= |times|
    && NoRunIsLonger(times, window, upTo, count)
    && (0 < upTo ==>
      && IsRun(times, window, found, count) && found + count <= upTo
      && NoRunIsLonger(times, window, found + count - 1, count - 1))
    && (upTo == 0 ==> count == 0)
  }

  /** `first` starts the widest run that ends with the time at `last`. */
  ghost predicate IsFirst(times: seq<int>, window: int, first: nat, last: nat) {
    && first <= last < |times| && times[last] - times[first] < window
    && forall k | 0 <= k < first :: window <= times[last] - times[k]
  }

  lemma ANewRunIsRecorded(times: seq<int>, window: int, first: nat, last: nat, found: nat, count: nat)
    requires Searched(times, window, last, found, count) && IsFirst(times, window, first, last)
    ensures last - first + 1 > count ==> Searched(times, window, last + 1, first, last - first + 1)
    ensures last - first + 1 <= count ==> 0 < last && Searched(times, window, last + 1, found, count)
  {
  }

  lemma EarlierTimesAreTooFar(times: seq<int>, window: int, first: nat, last: nat)
    requires Ascending(times) && IsFirst(times, window, first, last)
    ensures last + 1 < |times| ==> forall k | 0 <= k < first :: window <= times[last + 1] - times[k]
  {
  }

  lemma NothingIsSearched(times: seq<int>, window: int)
    ensures Searched(times, window, 0, 0, 0)
  {
  }

  /** The code raises an `IndexError` on an empty list; its caller only asks for clients that sent something. */
  method BusiestWindowOfOneClient(clientIp: string, times: seq<int>, window: int) returns (peak: WindowPeak)
    requires 0 < |times| && Ascending(times) && 0 < window
    ensures peak.clientIp == clientIp && 0 < peak.requestCount
    ensures IsPeak(times, window, peak.requestCount, peak.startsAt)
  {
    hide Ascending, IsRun, NoRunIsLonger, Searched;
    peak := WindowPeak(clientIp, 0, times[0]);
    var first := 0;
    ghost var found := 0;
    NothingIsSearched(times, window);
    for last := 0 to |times|
      invariant 0 <= first <= last && peak.clientIp == clientIp
      invariant last < |times| ==> forall k | 0 <= k < first :: window <= times[last] - times[k]
      invariant Searched(times, window, last, found, peak.requestCount)
      invariant 0 <= found < |times|
      invariant 0 < last ==> peak.startsAt == times[found]
    {
      while times[last] - times[first] >= window
        invariant 0 <= first <= last
        invariant forall k | 0 <= k < first :: window <= times[last] - times[k]
        decreases last - first
      {
        first := first + 1;
      }
      ANewRunIsRecorded(times, window, first, last, found, peak.requestCount);
      EarlierTimesAreTooFar(times, window, first, last);
      if last - first + 1 > peak.requestCount {
        peak := WindowPeak(clientIp, last - first + 1, times[first]);
        found := first;
      }
    }
    LongestRunIsThePeak(times, window, found, peak.requestCount);
  }

  // ---------------------------------------------------------------- the whole log

  function Insert(time: int, times: seq<int>): seq<int> {
    if times == [] || times[|times| - 1] <= time then times + [time]
    else Insert(time, times[..|times| - 1]) + [times[|times| - 1]]
  }

  function Sorted(times: seq<int>): seq<int> {
    if times == [] then [] else Insert(times[|times| - 1], Sorted(times[..|times| - 1]))
  }

  lemma CountOfOneMore(times: seq<int>, time: int, start: int, window: int)
    ensures InWindow(times + [time], start, window) ==
            InWindow(times, start, window) + if Within(time, start, window) then 1 else 0
  {
    assert (times + [time])[..|times|] == times;
  }

  lemma {:induction false} InsertIsOneMore(time: int, times: seq<int>)
    ensures multiset(Insert(time, times)) == multiset(times) + multiset{time}
  {
    if times != [] && time < times[|times| - 1] {
      assert times == times[..|times| - 1] + [times[|times| - 1]];
      InsertIsOneMore(time, times[..|times| - 1]);
    }
  }

  lemma {:induction false} InsertKeepsOrder(time: int, times: seq<int>)
    requires Ascending(times)
    ensures Ascending(Insert(time, times))
  {
    if times != [] && time < times[|times| - 1] {
      var rest, last := times[..|times| - 1], times[|times| - 1];
      InsertKeepsOrder(time, rest);
      var inserted := Insert(time, rest);
      InsertIsOneMore(time, rest);
      forall k | 0 <= k < |inserted| ensures inserted[k] <= last {
        assert inserted[k] in multiset(inserted);
        assert inserted[k] == time || inserted[k] in rest;
      }
    }
  }

  /** Sorting keeps every time and puts them in order. */
  lemma {:induction false} SortedSorts(times: seq<int>)
    ensures Ascending(Sorted(times)) && multiset(Sorted(times)) == multiset(times)
  {
    if times != [] {
      var rest, last := times[..|times| - 1], times[|times| - 1];
      assert times == rest + [last];
      SortedSorts(rest);
      InsertIsOneMore(last, Sorted(rest));
      InsertKeepsOrder(last, Sorted(rest));
    }
  }

  lemma {:induction false} CountIgnoresInsertion(time: int, times: seq<int>, start: int, window: int)
    ensures InWindow(Insert(time, times), start, window) == InWindow(times + [time], start, window)
  {
    CountOfOneMore(times, time, start, window);
    if times != [] && time < times[|times| - 1] {
      var rest, last := times[..|times| - 1], times[|times| - 1];
      assert times == rest + [last];
      CountOfOneMore(rest, last, start, window);
      CountOfOneMore(rest, time, start, window);
      CountIgnoresInsertion(time, rest, start, window);
      CountOfOneMore(Insert(time, rest), last, start, window);
    }
  }

  lemma {:induction false} CountIgnoresSorting(times: seq<int>, start: int, window: int)
    ensures InWindow(Sorted(times), start, window) == InWindow(times, start, window)
  {
    if times != [] {
      var rest, last := times[..|times| - 1], times[|times| - 1];
      assert times == rest + [last];
      CountIgnoresSorting(rest, start, window);
      CountIgnoresInsertion(last, Sorted(rest), start, window);
      CountOfOneMore(Sorted(rest), last, start, window);
      CountOfOneMore(rest, last, start, window);
    }
  }

  /** What one log line holds, and whether that request spends the API budget. */
  datatype Line = Line(record: Option<AccessRecord>, spends: bool) {
    predicate Counts(clientIp: string) {
      spends && record.Some? && record.value.clientIp == clientIp
    }
  }

  /** The times of a client's counted requests, in log order. */
  function TimesOf(lines: seq<Line>, clientIp: string): seq<int> {
    if lines == [] then []
    else
      var before, line := TimesOf(lines[..|lines| - 1], clientIp), lines[|lines| - 1];
      if line.Counts(clientIp) then before + [line.record.value.at] else before
  }

  /** How many counted requests of a client fall into the window placed at `start`. */
  function Requests(lines: seq<Line>, clientIp: string, start: int, window: int): nat {
    if lines == [] then 0
    else
      var before, line := Requests(lines[..|lines| - 1], clientIp, start, window), lines[|lines| - 1];
      if line.Counts(clientIp) && Within(line.record.value.at, start, window) then before + 1 else before
  }

  lemma {:induction false} RequestsAreInWindow(lines: seq<Line>, clientIp: string, start: int, window: int)
    ensures InWindow(TimesOf(lines, clientIp), start, window) == Requests(lines, clientIp, start, window)
  {
    if lines != [] {
      var rest, line := lines[..|lines| - 1], lines[|lines| - 1];
      RequestsAreInWindow(rest, clientIp, start, window);
      if line.Counts(clientIp) {
        CountOfOneMore(TimesOf(rest, clientIp), line.record.value.at, start, window);
      }
    }
  }

  /** The clients of the counted requests, in the order of their first one. */
  function ClientsOf(lines: seq<Line>): seq<string> {
    if lines == [] then []
    else
      var before, line := ClientsOf(lines[..|lines| - 1]), lines[|lines| - 1];
      if line.record.Some? && line.spends && line.record.value.clientIp !in before
      then before + [line.record.value.clientIp] else before
  }

  lemma {:induction false} ClientsSentSomething(lines: seq<Line>, clientIp: string)
    ensures clientIp in ClientsOf(lines) <==> TimesOf(lines, clientIp) != []
    ensures clientIp in ClientsOf(lines) <==> exists k :: 0 <= k < |lines| && lines[k].Counts(clientIp)
  {
    if lines != [] {
      var rest, line := lines[..|lines| - 1], lines[|lines| - 1];
      assert lines == rest + [line];
      ClientsSentSomething(rest, clientIp);
      assert line.Counts(clientIp) ==> clientIp in ClientsOf(lines);
    }
  }

  method TimesByClient(lines: seq<Line>) returns (clients: seq<string>, times: map<string, seq<int>>)
    ensures clients == ClientsOf(lines)
    ensures forall clientIp :: clientIp in times <==> clientIp in clients
    ensures forall clientIp | clientIp in times :: times[clientIp] == TimesOf(lines, clientIp)
  {
    clients, times := [], map[];
    for i := 0 to |lines|
      invariant clients == ClientsOf(lines[..i])
      invariant forall clientIp :: clientIp in times <==> clientIp in clients
      invariant forall clientIp | clientIp in times :: times[clientIp] == TimesOf(lines[..i], clientIp)
    {
      assert lines[..i + 1][..i] == lines[..i];
      var line := lines[i];
      if line.record.Some? && line.spends {
        var clientIp := line.record.value.clientIp;
        ClientsSentSomething(lines[..i], clientIp);
        if clientIp !in times {
          clients := clients + [clientIp];
          times := times[clientIp := []];
        }
        times := times[clientIp := times[clientIp] + [line.record.value.at]];
      }
    }
    assert lines[..|lines|] == lines;
  }

  /** No client among the given ones sent more requests inside one window, wherever it is placed. */
  ghost predicate NobodyIsBusier(lines: seq<Line>, clients: seq<string>, window: int, peak: WindowPeak) {
    forall clientIp, start | clientIp in clients :: Requests(lines, clientIp, start, window) <= peak.requestCount
  }

  /** The peak is reached: its client sent that many requests in the window it names. */
  ghost predicate IsReached(lines: seq<Line>, window: int, peak: WindowPeak) {
    && 0 < peak.requestCount
    && Requests(lines, peak.clientIp, peak.startsAt, window) == peak.requestCount
    && peak.startsAt in TimesOf(lines, peak.clientIp)
  }

  method PeakOf(lines: seq<Line>, clientIp: string, times: seq<int>, window: int) returns (peak: WindowPeak)
    requires 0 < window && clientIp in ClientsOf(lines) && times == TimesOf(lines, clientIp)
    ensures peak.clientIp == clientIp && IsReached(lines, window, peak)
    ensures NobodyIsBusier(lines, [clientIp], window, peak)
  {
    ClientsSentSomething(lines, clientIp);
    SortedSorts(times);
    assert |multiset(Sorted(times))| == |multiset(times)|;
    peak := BusiestWindowOfOneClient(clientIp, Sorted(times), window);
    forall start ensures InWindow(Sorted(times), start, window) == Requests(lines, clientIp, start, window) {
      CountIgnoresSorting(times, start, window);
      RequestsAreInWindow(lines, clientIp, start, window);
    }
    assert peak.startsAt in multiset(Sorted(times));
  }

  /** Nothing is reported exactly when no request was counted. Otherwise the peak's own client reached it, no
      client ever sent more in one window, and every client that appeared earlier in the log stayed below. */
  method BusiestApiWindow(lines: seq<Line>, window: int) returns (busiest: Option<WindowPeak>)
    requires 0 < window
    ensures busiest.None? <==> forall k | 0 <= k < |lines| :: lines[k].record.None? || !lines[k].spends
    ensures busiest.Some? ==>
      var peak := busiest.value;
      && IsReached(lines, window, peak)
      && (forall clientIp, start :: Requests(lines, clientIp, start, window) <= peak.requestCount)
      && exists i ::
        && 0 <= i < |ClientsOf(lines)| && ClientsOf(lines)[i] == peak.clientIp
        && forall j, start | 0 <= j < i :: Requests(lines, ClientsOf(lines)[j], start, window) < peak.requestCount
  {
    var clients, times := TimesByClient(lines);
    busiest := None;
    ghost var found := 0;
    for i := 0 to |clients|
      invariant busiest.None? <==> i == 0
      invariant busiest.Some? ==>
        && IsReached(lines, window, busiest.value) && NobodyIsBusier(lines, clients[..i], window, busiest.value)
        && 0 <= found < i && clients[found] == busiest.value.clientIp
        && forall j, start | 0 <= j < found :: Requests(lines, clients[j], start, window) < busiest.value.requestCount
    {
      var peak := PeakOf(lines, clients[i], times[clients[i]], window);
      assert clients[i] in [clients[i]];
      if busiest.None? || peak.requestCount > busiest.value.requestCount {
        forall j, start | 0 <= j < i ensures Requests(lines, clients[j], start, window) < peak.requestCount {
          assert clients[j] in clients[..i];
        }
        busiest, found := Some(peak), i;
      }
    }
    assert clients[..|clients|] == clients;
    forall k | 0 <= k < |lines| && lines[k].record.Some? && lines[k].spends ensures clients != [] {
      ClientsSentSomething(lines, lines[k].record.value.clientIp);
      assert lines[k].Counts(lines[k].record.value.clientIp);
    }
    if clients != [] {
      ClientsSentSomething(lines, clients[0]);
      forall clientIp, start ensures Requests(lines, clientIp, start, window) <= busiest.value.requestCount {
        if clientIp !in clients {
          ClientsSentSomething(lines, clientIp);
          RequestsAreInWindow(lines, clientIp, start, window);
        }
      }
    }
  }
}
