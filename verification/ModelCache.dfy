/**
 The worker's model cache: an ordered table with pins and use counts under a VRAM budget. What the
 GPU reports and whether a child process starts or stops cleanly is outside its control: both come
 from an arbitrary sequence of answers, one consumed at each question, and every contract is stated
 in terms of those answers.
 */
module ModelCaches {
  import opened Wrappers
  import opened ModelTables

  datatype LoadOutcome =
    | Loaded(evicted: seq<Mode>)
    | UnknownMode
    | NoCapacity
    | Raised(evicted: seq<Mode>)

  datatype EvictOutcome = NotLoaded | InUse | UnloaderRaised | Unloaded

  datatype Room = Made(evicted: seq<Mode>) | Refused | Interrupted(evicted: seq<Mode>)

  /** Does `incoming` fit once the modes of `gone` are off a GPU that holds `used`? */
  ghost predicate FitsAfter(used: real, gone: seq<Mode>, incoming: Gigabytes, sizes: map<Mode, Gigabytes>, budget: Gigabytes) {
    used - Total(sizes, gone) + incoming <= budget
  }

  /** `evicted` is a prefix of the shortest least recently used run of evictable modes that makes room. */
  ghost predicate NeededVictims(evicted: seq<Mode>, t: Table, used: real, incoming: Gigabytes, sizes: map<Mode, Gigabytes>, budget: Gigabytes) {
    && evicted <= Evictables(t, t.loaded)
    && forall k | 0 <= k < |evicted| :: !FitsAfter(used, evicted[..k], incoming, sizes, budget)
  }

  /** What every reading of the GPU's used memory yields, `None` where it is not measured, and which of the
      calls that start or stop a child raise. */
  datatype Outside = Outside(gpu: nat -> Option<real>, fails: nat -> bool)

  /** What a capacity decision plans against: the measurement, but never below the declared sizes. */
  function Planned(measured: Option<real>, declared: real): (used: real)
    ensures declared <= used && (measured.Some? ==> measured.value <= used)
    ensures used == declared || measured == Some(used)
  {
    if measured.Some? && measured.value > declared then measured.value else declared
  }

  /** Of the calls from `from` up to `to` none raised, or the last one alone did. */
  ghost predicate Children(outside: Outside, from: nat, to: nat, raised: bool) {
    && (raised ==> from < to && outside.fails(to - 1))
    && (forall k | from <= k < (if raised then to - 1 else to) :: !outside.fails(k))
  }

  /** The usage assumed once `k` victims of the plan are unloaded: what is measured then, but no more than the
      usage before without the last victim. `first` is the reading after the first unload. */
  ghost function Running(used: real, loaded: seq<Mode>, plan: seq<Mode>, k: nat, sizes: map<Mode, Gigabytes>,
                         outside: Outside, first: nat): real
    requires k <= |plan|
  {
    if k == 0 then used
    else
      var measured := Planned(outside.gpu(first + k - 1), Total(sizes, Minus(loaded, plan[..k])));
      var expected := Running(used, loaded, plan, k - 1, sizes, outside, first) - Size(sizes, plan[k - 1]);
      if measured < expected then measured else expected
  }

  /** Every victim was still needed when its turn came; after the last one there is room, if `enough`. */
  ghost predicate JustEnough(used: real, loaded: seq<Mode>, evicted: seq<Mode>, incoming: Gigabytes,
                             sizes: map<Mode, Gigabytes>, budget: Gigabytes, outside: Outside, first: nat, enough: bool) {
    && (forall k | 0 <= k < |evicted| :: Running(used, loaded, evicted, k, sizes, outside, first) + incoming > budget)
    && (enough ==> Running(used, loaded, evicted, |evicted|, sizes, outside, first) + incoming <= budget)
  }

  /** The modes of `evicted` were loaded, unpinned and idle, and every other such mode was used later. */
  ghost predicate AreOldest(evicted: seq<Mode>, loaded: seq<Mode>, pinned: set<Mode>, inUse: map<Mode, nat>, when: map<Mode, nat>) {
    forall m | m in evicted ::
      && m in loaded && m !in pinned && m !in inUse && m in when
      && forall n | n in loaded && n !in evicted && n !in pinned && n !in inUse :: n in when && when[m] < when[n]
  }

  /** How often a mode is in use, none when it is not counted. */
  ghost function CountOf(inUse: map<Mode, nat>, mode: Mode): int {
    if mode in inUse then inUse[mode] else 0
  }

  /** From `t` to `t'` the mode has so many uses more; every other mode's uses, and all pins, are the same. */
  ghost predicate UsesChange(t: Table, t': Table, mode: Mode, more: int) {
    && t'.pinned == t.pinned
    && CountOf(t'.inUse, mode) == CountOf(t.inUse, mode) + more
    && forall m | m != mode :: CountOf(t'.inUse, m) == CountOf(t.inUse, m)
  }

  /** The last use takes the mode along, any other ends by itself. */
  lemma StopChangesUses(t: Table, mode: Mode)
    requires forall m | m in t.inUse :: t.inUse[m] > 0
    ensures UsesChange(t, ReleasedAndStopped(t, mode), mode, if CountOf(t.inUse, mode) > 0 then -1 else 0)
    ensures forall m :: m in ReleasedAndStopped(t, mode).loaded <==> m in t.loaded && !(m == mode && CountOf(t.inUse, mode) == 1)
  {
  }

  class ModelCache {
    const budget: Gigabytes
    const sizes: map<Mode, Gigabytes>
    var loaded: seq<Mode>
    var inUse: map<Mode, nat>
    var pinned: set<Mode>

    // The world outside, and how many of its answers were consumed.
    const outside: Outside
    var readings: nat
    var calls: nat

    // When each mode was last loaded or acquired.
    ghost var lastUse: map<Mode, nat>
    ghost var clock: nat

    ghost function View(): Table
      reads this
    {
      Table(loaded, inUse, pinned)
    }

    ghost predicate Valid()
      reads this
    {
      Good(View(), sizes, budget, lastUse, clock)
    }

    constructor (budget: Gigabytes, sizes: map<Mode, Gigabytes>, outside: Outside)
      ensures Valid() && this.budget == budget && this.sizes == sizes && this.outside == outside
      ensures View() == Table([], map[], {})
    {
      this.budget, this.sizes, this.outside := budget, sizes, outside;
      readings, calls := 0, 0;
      loaded, inUse, pinned := [], map[], {};
      lastUse, clock := map[], 0;
    }

    // -------------------------------------------------------------- the outside world

    method ReadVram() returns (usedGb: Option<real>)
      modifies this`readings
      ensures usedGb == outside.gpu(old(readings)) && readings == old(readings) + 1
    {
      usedGb := outside.gpu(readings);
      readings := readings + 1;
    }

    /** Start or stop a child. */
    method CallChild() returns (raised: bool)
      modifies this`calls
      ensures raised == outside.fails(old(calls)) && calls == old(calls) + 1
    {
      raised := outside.fails(calls);
      calls := calls + 1;
    }

    // -------------------------------------------------------------- uses, pins, eviction

    ghost method Touch(mode: Mode)
      modifies this`lastUse, this`clock
      ensures lastUse == old(lastUse)[mode := old(clock)] && clock == old(clock) + 1
    {
      lastUse := lastUse[mode := clock];
      clock := clock + 1;
    }

    method AcquireForUse(mode: Mode) returns (ok: bool)
      requires Valid()
      modifies this
      ensures Valid() && ok == (mode in old(loaded))
      ensures View() == Acquired(old(View()), mode)
      ensures ok ==> loaded != [] && loaded[|loaded| - 1] == mode && UsesChange(old(View()), View(), mode, 1)
      ensures lastUse == if ok then old(lastUse)[mode := old(clock)] else old(lastUse)
    {
      hide Good;
      ok := mode in loaded;
      if ok {
        AcquireKeepsGood(View(), mode, sizes, budget, lastUse, clock);
        loaded := MoveToEnd(loaded, mode);
        inUse := inUse[mode := (if mode in inUse then inUse[mode] else 0) + 1];
        Touch(mode);
      }
    }

    method Release(mode: Mode)
      requires Valid()
      modifies this`inUse
      ensures Valid() && View() == Released(old(View()), mode)
      ensures loaded == old(loaded) && UsesChange(old(View()), View(), mode, if CountOf(old(inUse), mode) > 0 then -1 else 0)
    {
      hide Good;
      ReleaseKeepsGood(View(), mode, sizes, budget, lastUse, clock);
      if mode !in inUse {
        return;
      }
      if inUse[mode] <= 1 {
        inUse := inUse - {mode};
      } else {
        inUse := inUse[mode := inUse[mode] - 1];
      }
    }

    /** End one use; the last one also stops the child, whose entry goes even when stopping it fails. */
    method ReleaseAndStop(mode: Mode) returns (raised: bool)
      requires Valid()
      modifies this`inUse, this`loaded, this`calls
      ensures Valid() && View() == ReleasedAndStopped(old(View()), mode)
      ensures UsesChange(old(View()), View(), mode, if CountOf(old(inUse), mode) > 0 then -1 else 0)
      ensures forall m :: m in loaded <==> m in old(loaded) && !(m == mode && CountOf(old(inUse), mode) == 1)
      ensures raised <==> CountOf(old(inUse), mode) == 1 && outside.fails(old(calls))
    {
      StopKeepsGood(View(), mode, sizes, budget, lastUse, clock);
      ghost var before := View();
      hide Good, Without, UsesChange, Total, OrderedBy, Distinct;
      raised := false;
      if mode !in inUse {
        return;
      }
      if inUse[mode] > 1 {
        inUse := inUse[mode := inUse[mode] - 1];
        return;
      }
      inUse := inUse - {mode};
      loaded := Without(loaded, mode);
      assert View() == ReleasedAndStopped(before, mode);
      raised := CallChild();
    }

    method Evict(mode: Mode) returns (outcome: EvictOutcome)
      requires Valid()
      modifies this`loaded, this`pinned, this`calls
      ensures Valid()
      ensures outcome.NotLoaded? <==> mode !in old(loaded)
      ensures outcome.InUse? <==> mode in old(inUse)
      ensures outcome.UnloaderRaised? <==> mode in old(loaded) && mode !in old(inUse) && outside.fails(old(calls))
      ensures View() == if outcome.Unloaded? then Evicted(old(View()), mode) else old(View())
      ensures outcome.Unloaded? ==> pinned == old(pinned) - {mode} && forall m :: m in loaded <==> m in old(loaded) && m != mode
    {
      assert mode in inUse ==> inUse[mode] > 0 && mode in loaded;
      hide Good, Without, Total;
      if mode !in loaded {
        return NotLoaded;
      }
      if mode in inUse && inUse[mode] > 0 {
        return InUse;
      }
      var raised := CallChild();
      if raised {
        return UnloaderRaised;
      }
      LeavingKeepsGood(View(), mode, sizes, budget, lastUse, clock);
      loaded := Without(loaded, mode);
      PinsDoNotMatter(View(), pinned - {mode}, sizes, budget, lastUse, clock);
      pinned := pinned - {mode};
      return Unloaded;
    }

    /** At shutdown every child is stopped; when one fails to stop, nothing is forgotten. */
    method EvictAll() returns (raised: bool)
      requires Valid()
      modifies this
      ensures Valid()
      ensures View() == if raised then old(View()) else Table([], map[], {})
      ensures raised <==> exists k :: old(calls) <= k < old(calls) + |old(loaded)| && outside.fails(k)
    {
      for k := 0 to |loaded|
        invariant Valid() && View() == old(View()) && calls == old(calls) + k
        invariant forall n | old(calls) <= n < calls :: !outside.fails(n)
      {
        raised := CallChild();
        if raised {
          return;
        }
      }
      raised := false;
      loaded, pinned, inUse := [], {}, map[];
    }

    method Pin(mode: Mode) returns (ok: bool)
      requires Valid()
      modifies this`pinned
      ensures Valid() && ok == (mode in loaded)
      ensures pinned == if ok then old(pinned) + {mode} else old(pinned)
    {
      ok := mode in loaded;
      if ok {
        pinned := pinned + {mode};
      }
    }

    method Unpin(mode: Mode)
      requires Valid()
      modifies this`pinned
      ensures Valid() && pinned == old(pinned) - {mode}
    {
      pinned := pinned - {mode};
    }

    // -------------------------------------------------------------- making room

    method DeclaredUsed() returns (used: Gigabytes)
      ensures used == Total(sizes, loaded)
    {
      used := 0.0;
      for k := 0 to |loaded|
        invariant used == Total(sizes, loaded[..k])
      {
        assert loaded[..k + 1][..k] == loaded[..k];
        used := used + Size(sizes, loaded[k]);
      }
      assert loaded[..|loaded|] == loaded;
    }

    method PlanningUsed() returns (used: real)
      modifies this`readings
      ensures used == Planned(outside.gpu(old(readings)), Total(sizes, loaded)) && readings == old(readings) + 1
      ensures Total(sizes, loaded) <= used && (outside.gpu(old(readings)).Some? ==> outside.gpu(old(readings)).value <= used)
      ensures used == Total(sizes, loaded) || outside.gpu(old(readings)) == Some(used)
    {
      var measured := ReadVram();
      var declared := DeclaredUsed();
      used := if measured.Some? && measured.value > declared then measured.value else declared;
    }

    /** The shortest run of least recently used evictable modes that makes room, or all of them. */
    method BuildEvictionPlan(planningUsed: real, incoming: Gigabytes) returns (plan: seq<Mode>, projected: real)
      requires Valid()
      ensures plan <= Evictables(View(), loaded)
      ensures projected == planningUsed - Total(sizes, plan)
      ensures projected + incoming <= budget || plan == Evictables(View(), loaded)
      ensures forall k | 0 <= k < |plan| :: planningUsed - Total(sizes, plan[..k]) + incoming > budget
    {
      hide Good, Evictables, Total, Table.Evictable, Size;
      NothingGone(loaded, sizes);
      NothingEvictable(View(), loaded);
      plan, projected := [], planningUsed;
      var k := 0;
      while k < |loaded| && projected + incoming > budget
        invariant k <= |loaded| && plan == Evictables(View(), loaded[..k])
        invariant projected == planningUsed - Total(sizes, plan)
        invariant forall n | 0 <= n < |plan| :: planningUsed - Total(sizes, plan[..n]) + incoming > budget
      {
        var mode := loaded[k];
        assert loaded[..k + 1] == loaded[..k] + [mode];
        EvictablesAppend(View(), loaded[..k], mode);
        if IsEvictable(mode) {
          TotalAppend(sizes, plan, mode);
          assert forall n | 0 <= n <= |plan| :: (plan + [mode])[..n] == plan[..n];
          assert plan[..|plan|] == plan;
          plan := plan + [mode];
          projected := projected - Size(sizes, mode);
        }
        k := k + 1;
      }
      EvictablesOfPrefix(View(), loaded, k);
      assert loaded[..|loaded|] == loaded;
    }

    predicate IsEvictable(mode: Mode)
      reads this`inUse, this`pinned
      ensures forall s :: IsEvictable(mode) == Table(s, inUse, pinned).Evictable(mode)
    {
      !(mode in pinned || (mode in inUse && inUse[mode] > 0))
    }

    /** Plan first, refuse before anything is unloaded, then unload until the GPU has room. */
    method EvictToFit(incoming: Gigabytes) returns (room: Room)
      requires Valid()
      modifies this`loaded, this`readings, this`calls
      ensures Valid() && room.Refused? == RefusesNow(old(View()), incoming, old(readings))
      ensures room.Refused? <==>
                !(Remaining(old(View())) + incoming <= budget && ReadingLeaves(old(View()), old(readings), incoming))
      ensures room.Refused? ==> loaded == old(loaded) && calls == old(calls) && readings == old(readings) + 1
      ensures !room.Refused? ==> UnloadedFor(old(View()), room.evicted, incoming, old(readings), room.Made?)
      ensures !room.Refused? ==> loaded == Minus(old(loaded), room.evicted)
      ensures room.Made? ==> calls == old(calls) + |room.evicted| && Children(outside, old(calls), calls, false)
      ensures room.Interrupted? ==> calls == old(calls) + |room.evicted| + 1 && Children(outside, old(calls), calls, true)
      ensures room.Made? ==> Total(sizes, loaded) + incoming <= budget
    {
      hide Good, Total, Minus, Evictables, NeededVictims, Running, JustEnough, Children, Remaining, ReadingLeaves;
      RefusalByTheReading(View(), incoming, readings);
      var used := PlanningUsed();
      var plan, projected := BuildEvictionPlan(used, incoming);
      PlanDecides(View(), plan, used, incoming, sizes, budget);
      if projected + incoming > budget {
        return Refused;
      }
      room := UnloadUntilRoom(plan, used, incoming);
      assert room.evicted == plan[..|room.evicted|];
    }

    /** The declared sizes of what cannot be evicted. */
    ghost function Remaining(t: Table): real {
      Total(sizes, t.loaded) - Total(sizes, Evictables(t, t.loaded))
    }

    /** The GPU, if it is measured, has room for the incoming mode once everything evictable is off it. */
    ghost predicate ReadingLeaves(t: Table, reading: nat, incoming: Gigabytes) {
      outside.gpu(reading).Some? ==> outside.gpu(reading).value - Total(sizes, Evictables(t, t.loaded)) + incoming <= budget
    }

    /** Even with every unpinned idle mode off the GPU the incoming one would not fit, by the next reading. */
    ghost predicate RefusesNow(t: Table, incoming: Gigabytes, reading: nat) {
      !FitsAfter(Planned(outside.gpu(reading), Total(sizes, t.loaded)), Evictables(t, t.loaded), incoming, sizes, budget)
    }

    /** The victims are a prefix of the shortest run that makes room by the first reading, and each was still
        needed by the readings since. */
    ghost predicate UnloadedFor(t: Table, evicted: seq<Mode>, incoming: Gigabytes, reading: nat, enough: bool) {
      var used := Planned(outside.gpu(reading), Total(sizes, t.loaded));
      && NeededVictims(evicted, t, used, incoming, sizes, budget)
      && JustEnough(used, t.loaded, evicted, incoming, sizes, budget, outside, reading + 1, enough)
    }

    method UnloadVictim(ghost before: Table, plan: seq<Mode>, k: nat) returns (raised: bool)
      requires Valid() && before.Valid() && plan <= Evictables(before, before.loaded) && k < |plan|
      requires View() == before.(loaded := Minus(before.loaded, plan[..k]))
      modifies this`loaded, this`calls
      ensures Valid() && View() == before.(loaded := Minus(before.loaded, plan[..if raised then k else k + 1]))
      ensures raised == outside.fails(old(calls)) && calls == old(calls) + 1
      ensures !raised ==> Total(sizes, loaded) == Total(sizes, old(loaded)) - Size(sizes, plan[k])
      ensures Total(sizes, plan[..k + 1]) == Total(sizes, plan[..k]) + Size(sizes, plan[k])
    {
      hide Good, Total, Minus, Evictables, Without;
      VictimLeaves(before, plan, k, sizes, budget, lastUse, clock);
      raised := CallChild();
      if !raised {
        loaded := Without(loaded, plan[k]);
      }
    }

    method UnloadUntilRoom(plan: seq<Mode>, used: real, incoming: Gigabytes) returns (room: Room)
      requires Valid() && plan <= Evictables(View(), loaded)
      requires used >= Total(sizes, loaded)
      requires FitsAfter(used, plan, incoming, sizes, budget)
      modifies this`loaded, this`readings, this`calls
      ensures Valid() && !room.Refused? && room.evicted <= plan
      ensures loaded == Minus(old(loaded), room.evicted)
      ensures JustEnough(used, old(loaded), room.evicted, incoming, sizes, budget, outside, old(readings), room.Made?)
      ensures room.Made? ==> calls == old(calls) + |room.evicted| && Children(outside, old(calls), calls, false)
      ensures room.Interrupted? ==> calls == old(calls) + |room.evicted| + 1 && Children(outside, old(calls), calls, true)
      ensures room.Made? ==> Total(sizes, loaded) + incoming <= budget
    {
      ghost var before, first, call := View(), readings, calls;
      var running, k := used, 0;
      NothingUnloaded(plan, used, incoming);
      hide Unloading, Good, Total, Minus, Evictables, Running, JustEnough, Children, FitsAfter, Table.Valid;
      while k < |plan| && running + incoming > budget
        invariant Unloading(before, plan, k, used, running, incoming, first, call)
      {
        var raised;
        raised, running := UnloadNext(before, plan, k, used, running, incoming, first, call);
        if raised {
          return Interrupted(plan[..k]);
        }
        k := k + 1;
      }
      RoomIsMade(before, plan, k, used, running, incoming, first, call);
      return Made(plan[..k]);
    }

    /** `k` victims of the plan are gone, each was still needed, and no call has raised. */
    ghost predicate Unloading(before: Table, plan: seq<Mode>, k: nat, used: real, running: real, incoming: Gigabytes,
                              first: nat, call: nat)
      reads this
    {
      && Valid() && before.Valid() && plan <= Evictables(before, before.loaded) && k <= |plan|
      && View() == before.(loaded := Minus(before.loaded, plan[..k]))
      && Total(sizes, loaded) <= running <= used - Total(sizes, plan[..k])
      && running == Running(used, before.loaded, plan[..k], k, sizes, outside, first)
      && JustEnough(used, before.loaded, plan[..k], incoming, sizes, budget, outside, first, false)
      && readings == first + k && calls == call + k && Children(outside, call, calls, false)
    }

    lemma NothingUnloaded(plan: seq<Mode>, used: real, incoming: Gigabytes)
      requires Valid() && plan <= Evictables(View(), loaded) && used >= Total(sizes, loaded)
      ensures Unloading(View(), plan, 0, used, used, incoming, readings, calls)
    {
      assert View().Valid();
      hide Good, Total, Minus, Evictables, Running, JustEnough, Children, Table.Valid;
      NothingGone(loaded, sizes);
      NoVictimYet(used, loaded, incoming, sizes, budget, outside, readings, calls);
      assert plan[..0] == [];
    }

    lemma RoomIsMade(before: Table, plan: seq<Mode>, k: nat, used: real, running: real, incoming: Gigabytes, first: nat, call: nat)
      requires Unloading(before, plan, k, used, running, incoming, first, call)
      requires k == |plan| || running + incoming <= budget
      requires FitsAfter(used, plan, incoming, sizes, budget)
      ensures Valid() && k <= |plan| && plan[..k] <= plan && loaded == Minus(before.loaded, plan[..k])
      ensures View() == before.(loaded := loaded)
      ensures JustEnough(used, before.loaded, plan[..k], incoming, sizes, budget, outside, first, true)
      ensures calls == call + k && Children(outside, call, calls, false) && readings == first + k
      ensures Total(sizes, loaded) + incoming <= budget
    {
      hide Good, Total, Minus, Evictables, Running, JustEnough, Children, Table.Valid;
      assert k == |plan| ==> plan[..k] == plan;
      EnoughOrNot(used, before.loaded, plan[..k], incoming, sizes, budget, outside, first);
    }

    /** Unload the next victim, then measure again. */
    method UnloadNext(ghost before: Table, plan: seq<Mode>, k: nat, ghost used: real, running: real, incoming: Gigabytes,
                      ghost first: nat, ghost call: nat)
      returns (raised: bool, running': real)
      requires Unloading(before, plan, k, used, running, incoming, first, call)
      requires k < |plan| && running + incoming > budget
      modifies this`loaded, this`readings, this`calls
      ensures !raised ==> Unloading(before, plan, k + 1, used, running', incoming, first, call)
      ensures raised ==> Valid() && View() == old(View()) && loaded == Minus(before.loaded, plan[..k])
      ensures raised ==> JustEnough(used, before.loaded, plan[..k], incoming, sizes, budget, outside, first, false)
      ensures raised ==> calls == call + k + 1 && Children(outside, call, calls, true)
    {
      hide Good, Total, Minus, Evictables, Without, Size, Table.Valid, Table.Evictable, Running, JustEnough, Children;
      raised := UnloadVictim(before, plan, k);
      running' := running;
      OneMoreCall(outside, call, calls - 1);
      if !raised {
        var measured := PlanningUsed();
        OneMoreVictim(used, before.loaded, plan, k, incoming, sizes, budget, outside, first);
        var expected := running - Size(sizes, plan[k]);
        running' := if measured < expected then measured else expected;
      }
    }

    /** Load a mode, or say exactly why not. The table never holds more than the budget, whatever the
        GPU reports and wherever a child fails. */
    method Load(mode: Mode) returns (outcome: LoadOutcome)
      requires Valid()
      modifies this
      ensures Valid() && inUse == old(inUse) && pinned == old(pinned)
      ensures outcome.UnknownMode? <==> mode !in sizes
      ensures mode in old(loaded) ==> outcome == Loaded([]) && loaded == MoveToEnd(old(loaded), mode)
      ensures outcome.NoCapacity? <==>
                mode in sizes && mode !in old(loaded)
                && (sizes[mode] > budget || RefusesNow(old(View()), sizes[mode], old(readings)))
      ensures outcome.NoCapacity? <==>
                mode in sizes && mode !in old(loaded)
                && !(sizes[mode] <= budget && Remaining(old(View())) + sizes[mode] <= budget
                     && ReadingLeaves(old(View()), old(readings), sizes[mode]))
      ensures outcome.Loaded? && mode !in old(loaded) && outcome.evicted == [] && outside.gpu(old(readings)).Some? ==>
                outside.gpu(old(readings)).value + Size(sizes, mode) <= budget
      ensures outcome.Loaded? || outcome.Raised? ==> AreOldest(outcome.evicted, old(loaded), pinned, inUse, old(lastUse))
      ensures outcome.UnknownMode? || outcome.NoCapacity? ==> loaded == old(loaded) && calls == old(calls)
      ensures mode !in old(loaded) && (outcome.Loaded? || outcome.Raised?) ==>
                && UnloadedFor(old(View()), outcome.evicted, Size(sizes, mode), old(readings), outcome.Loaded?)
                && loaded == Minus(old(loaded), outcome.evicted) + (if outcome.Loaded? then [mode] else [])
                && calls == old(calls) + |outcome.evicted| + 1 && Children(outside, old(calls), calls, outcome.Raised?)
      ensures outcome.Loaded? ==> lastUse == old(lastUse)[mode := old(clock)]
      ensures !outcome.Loaded? ==> lastUse == old(lastUse)
    {
      if mode !in sizes {
        assert forall m | m in loaded :: m in sizes;
        return UnknownMode;
      }
      assert OrderedBy(loaded, lastUse);
      RefusalByTheReading(View(), Size(sizes, mode), readings);
      ghost var before, first := View(), readings;
      hide Good, RefusesNow, UnloadedFor, Children, AreOldest, Remaining, ReadingLeaves, OrderedBy;
      if mode in loaded {
        TouchLoaded(mode);
        NobodyIsOldest(before.loaded, pinned, inUse, old(lastUse));
        return Loaded([]);
      }
      outcome := LoadMissing(mode);
      if outcome.Loaded? || outcome.Raised? {
        VictimsAreOldest(before, outcome.evicted, Size(sizes, mode), first, outcome.Loaded?, old(lastUse));
        LoadedWithoutVictims(before, outcome.evicted, Size(sizes, mode), first, outcome.Loaded?);
      }
    }

    method LoadMissing(mode: Mode) returns (outcome: LoadOutcome)
      requires Valid() && mode in sizes && mode !in loaded
      modifies this`loaded, this`lastUse, this`clock, this`readings, this`calls
      ensures Valid() && !outcome.UnknownMode?
      ensures outcome.NoCapacity? <==> sizes[mode] > budget || RefusesNow(old(View()), sizes[mode], old(readings))
      ensures outcome.NoCapacity? ==> loaded == old(loaded) && calls == old(calls)
      ensures !outcome.NoCapacity? ==>
                && UnloadedFor(old(View()), outcome.evicted, Size(sizes, mode), old(readings), outcome.Loaded?)
                && loaded == Minus(old(loaded), outcome.evicted) + (if outcome.Loaded? then [mode] else [])
                && calls == old(calls) + |outcome.evicted| + 1 && Children(outside, old(calls), calls, outcome.Raised?)
      ensures lastUse == if outcome.Loaded? then old(lastUse)[mode := old(clock)] else old(lastUse)
    {
      hide Good, Total, Minus, RefusesNow, UnloadedFor, Children;
      var target := sizes[mode];
      if target > budget {
        return NoCapacity;
      }
      var room := EvictToFit(target);
      if room.Refused? {
        return NoCapacity;
      }
      if room.Interrupted? {
        return Raised(room.evicted);
      }
      var raised := CallChild();
      OneMoreCall(outside, old(calls), calls - 1);
      if raised {
        RoomIsNotPromised(old(View()), room.evicted, target, old(readings));
        return Raised(room.evicted);
      }
      LoadKeepsGood(View(), mode, sizes, budget, lastUse, clock);
      loaded := loaded + [mode];
      Touch(mode);
      return Loaded(room.evicted);
    }

    /** The planned usage leaves room exactly when the declared sizes do and the reading, if there is one, does. */
    lemma RefusalByTheReading(t: Table, incoming: Gigabytes, reading: nat)
      ensures RefusesNow(t, incoming, reading) <==>
                !(Remaining(t) + incoming <= budget && ReadingLeaves(t, reading, incoming))
    {
    }

    lemma LoadedWithoutVictims(t: Table, evicted: seq<Mode>, incoming: Gigabytes, reading: nat, enough: bool)
      requires UnloadedFor(t, evicted, incoming, reading, enough)
      ensures enough && evicted == [] && outside.gpu(reading).Some? ==> outside.gpu(reading).value + incoming <= budget
    {
    }

    lemma VictimsAreOldest(t: Table, evicted: seq<Mode>, incoming: Gigabytes, reading: nat, enough: bool, when: map<Mode, nat>)
      requires UnloadedFor(t, evicted, incoming, reading, enough) && OrderedBy(t.loaded, when) && t.Valid()
      ensures AreOldest(evicted, t.loaded, t.pinned, t.inUse, when)
    {
      hide Evictables, JustEnough;
      PrefixIsOldest(t, evicted, when);
    }

    lemma RoomIsNotPromised(t: Table, evicted: seq<Mode>, incoming: Gigabytes, reading: nat)
      requires UnloadedFor(t, evicted, incoming, reading, true)
      ensures UnloadedFor(t, evicted, incoming, reading, false)
    {
      hide Running;
    }

    method TouchLoaded(mode: Mode)
      requires Valid() && mode in loaded
      modifies this`loaded, this`lastUse, this`clock
      ensures Valid() && loaded == MoveToEnd(old(loaded), mode)
      ensures lastUse == old(lastUse)[mode := old(clock)] && clock == old(clock) + 1
    {
      hide Good;
      TouchKeepsGood(View(), mode, sizes, budget, lastUse, clock);
      loaded := MoveToEnd(loaded, mode);
      Touch(mode);
    }
  }

  /** Counts are positive, so the last use is the one that brings a count from 1 to none. */
  lemma StopKeepsGood(t: Table, mode: Mode, sizes: map<Mode, Gigabytes>, budget: Gigabytes, lastUse: map<Mode, nat>, now: nat)
    requires Good(t, sizes, budget, lastUse, now)
    ensures Good(ReleasedAndStopped(t, mode), sizes, budget, lastUse, now)
    ensures mode in t.inUse ==> t.inUse[mode] > 0
    ensures UsesChange(t, ReleasedAndStopped(t, mode), mode, if CountOf(t.inUse, mode) > 0 then -1 else 0)
    ensures forall m :: m in ReleasedAndStopped(t, mode).loaded <==> m in t.loaded && !(m == mode && CountOf(t.inUse, mode) == 1)
  {
    assert forall m | m in t.inUse :: t.inUse[m] > 0;
    StopChangesUses(t, mode);
    hide UsesChange;
    ReleaseKeepsGood(t, mode, sizes, budget, lastUse, now);
    if mode in t.inUse && t.inUse[mode] <= 1 {
      LeavingKeepsGood(Released(t, mode), mode, sizes, budget, lastUse, now);
    }
    assert mode in t.inUse ==> t.inUse[mode] > 0;
    hide Good;
  }

  lemma TouchKeepsGood(t: Table, mode: Mode, sizes: map<Mode, Gigabytes>, budget: Gigabytes, lastUse: map<Mode, nat>, now: nat)
    requires Good(t, sizes, budget, lastUse, now) && mode in t.loaded
    ensures Good(t.(loaded := MoveToEnd(t.loaded, mode)), sizes, budget, lastUse[mode := now], now + 1)
  {
    AcquireKeepsGood(t, mode, sizes, budget, lastUse, now);
  }

  /** The plan falls short exactly when evicting every evictable mode would. */
  lemma PlanDecides(t: Table, plan: seq<Mode>, used: real, incoming: Gigabytes, sizes: map<Mode, Gigabytes>, budget: Gigabytes)
    requires plan <= Evictables(t, t.loaded)
    requires FitsAfter(used, plan, incoming, sizes, budget) || plan == Evictables(t, t.loaded)
    requires forall k | 0 <= k < |plan| :: !FitsAfter(used, plan[..k], incoming, sizes, budget)
    ensures FitsAfter(used, plan, incoming, sizes, budget) <==> FitsAfter(used, Evictables(t, t.loaded), incoming, sizes, budget)
    ensures forall n | 0 <= n <= |plan| :: NeededVictims(plan[..n], t, used, incoming, sizes, budget)
  {
    var all := Evictables(t, t.loaded);
    PrefixWeighsNoMore(sizes, all, |plan|);
    assert all[..|plan|] == plan;
    forall n | 0 <= n <= |plan|
      ensures NeededVictims(plan[..n], t, used, incoming, sizes, budget)
    {
      assert forall k | 0 <= k < n :: plan[..n][..k] == plan[..k];
    }
  }

  lemma NoVictimYet(used: real, loaded: seq<Mode>, incoming: Gigabytes, sizes: map<Mode, Gigabytes>, budget: Gigabytes,
                    outside: Outside, first: nat, call: nat)
    ensures Running(used, loaded, [], 0, sizes, outside, first) == used
    ensures JustEnough(used, loaded, [], incoming, sizes, budget, outside, first, false)
    ensures Children(outside, call, call, false)
  {
  }

  lemma OneMoreCall(outside: Outside, from: nat, to: nat)
    requires from <= to && Children(outside, from, to, false)
    ensures Children(outside, from, to + 1, outside.fails(to))
  {
  }

  /** A longer plan has the same usage after the same victims. */
  lemma {:induction false} RunningOfAPrefix(used: real, loaded: seq<Mode>, plan: seq<Mode>, k: nat, n: nat,
                                            sizes: map<Mode, Gigabytes>, outside: Outside, first: nat)
    requires k <= n <= |plan|
    ensures Running(used, loaded, plan[..n], k, sizes, outside, first) == Running(used, loaded, plan, k, sizes, outside, first)
  {
    if k > 0 {
      assert plan[..n][..k] == plan[..k];
      RunningOfAPrefix(used, loaded, plan, k - 1, n, sizes, outside, first);
    }
  }

  /** Unloading the next victim of the plan, while there is no room yet. */
  lemma OneMoreVictim(used: real, loaded: seq<Mode>, plan: seq<Mode>, k: nat, incoming: Gigabytes,
                      sizes: map<Mode, Gigabytes>, budget: Gigabytes, outside: Outside, first: nat)
    requires k < |plan| && JustEnough(used, loaded, plan[..k], incoming, sizes, budget, outside, first, false)
    requires Running(used, loaded, plan[..k], k, sizes, outside, first) + incoming > budget
    ensures JustEnough(used, loaded, plan[..k + 1], incoming, sizes, budget, outside, first, false)
    ensures Running(used, loaded, plan[..k + 1], k + 1, sizes, outside, first)
            == var measured := Planned(outside.gpu(first + k), Total(sizes, Minus(loaded, plan[..k + 1])));
               var expected := Running(used, loaded, plan[..k], k, sizes, outside, first) - Size(sizes, plan[k]);
               if measured < expected then measured else expected
  {
    var next := plan[..k + 1];
    assert next[..k] == plan[..k] && next[..k + 1] == next;
    RunningOfAPrefix(used, loaded, next, k, k, sizes, outside, first);
    forall n | 0 <= n < k + 1 ensures Running(used, loaded, next, n, sizes, outside, first) + incoming > budget {
      RunningOfAPrefix(used, loaded, next, n, k, sizes, outside, first);
    }
  }

  lemma EnoughOrNot(used: real, loaded: seq<Mode>, evicted: seq<Mode>, incoming: Gigabytes,
                    sizes: map<Mode, Gigabytes>, budget: Gigabytes, outside: Outside, first: nat)
    requires JustEnough(used, loaded, evicted, incoming, sizes, budget, outside, first, false)
    ensures Running(used, loaded, evicted, |evicted|, sizes, outside, first) + incoming <= budget
            ==> JustEnough(used, loaded, evicted, incoming, sizes, budget, outside, first, true)
  {
  }

  lemma NobodyIsOldest(loaded: seq<Mode>, pinned: set<Mode>, inUse: map<Mode, nat>, when: map<Mode, nat>)
    ensures AreOldest([], loaded, pinned, inUse, when)
  {
  }

  lemma {:induction false} EvictablesKeepOrder(t: Table, s: seq<Mode>, when: map<Mode, nat>)
    requires OrderedBy(s, when)
    ensures OrderedBy(Evictables(t, s), when)
  {
    if s != [] {
      var front := s[..|s| - 1];
      EvictablesKeepOrder(t, front, when);
      var r := Evictables(t, front);
      forall i | 0 <= i < |r| ensures when[r[i]] < when[s[|s| - 1]] {
        assert r[i] in front;
      }
    }
  }

  /** The first evictable modes are the ones least recently used. */
  lemma PrefixIsOldest(t: Table, evicted: seq<Mode>, when: map<Mode, nat>)
    requires t.Valid() && OrderedBy(t.loaded, when) && evicted <= Evictables(t, t.loaded)
    ensures AreOldest(evicted, t.loaded, t.pinned, t.inUse, when)
  {
    var all := Evictables(t, t.loaded);
    EvictablesKeepOrder(t, t.loaded, when);
    hide Evictables;
    forall m | m in evicted
      ensures m in t.loaded && m !in t.pinned && m !in t.inUse && m in when
      ensures forall n | n in t.loaded && n !in evicted && n !in t.pinned && n !in t.inUse :: n in when && when[m] < when[n]
    {
      var i :| 0 <= i < |evicted| && evicted[i] == m;
      assert all[i] == m;
      forall n | n in t.loaded && n !in evicted && n !in t.pinned && n !in t.inUse ensures n in when && when[m] < when[n] {
        assert t.Evictable(n) && n in all;
        var j :| 0 <= j < |all| && all[j] == n;
        assert j >= |evicted|;
      }
    }
  }

  /** How the assumed usage follows the readings: it never exceeds what was assumed before without the victim; and
      where it is lower, it is the reading, or the declared sizes if these are higher or there is none. */
  lemma RunningFollowsTheReadings(used: real, loaded: seq<Mode>, plan: seq<Mode>, k: nat, sizes: map<Mode, Gigabytes>,
                                  outside: Outside, first: nat)
    requires 0 < k <= |plan|
    ensures var now := Running(used, loaded, plan, k, sizes, outside, first);
            var expected := Running(used, loaded, plan, k - 1, sizes, outside, first) - Size(sizes, plan[k - 1]);
            var declared, reading := Total(sizes, Minus(loaded, plan[..k])), outside.gpu(first + k - 1);
            && now <= expected
            && (now == expected ==> expected <= declared || (reading.Some? && expected <= reading.value))
            && (now < expected ==>
                  && declared <= now && (reading.Some? ==> reading.value <= now)
                  && (now == declared || reading == Some(now)))
  {
  }

  lemma NothingEvictable(t: Table, s: seq<Mode>)
    ensures Evictables(t, s[..0]) == []
  {
  }

  lemma NothingGone(s: seq<Mode>, sizes: map<Mode, Gigabytes>)
    ensures Minus(s, []) == s && Total(sizes, []) == 0.0
  {
  }

  /** Unloading the next victim of a plan: it is loaded, idle and unpinned, the table stays good and shrinks by the
      victim's size. */
  lemma VictimLeaves(t: Table, plan: seq<Mode>, k: nat, sizes: map<Mode, Gigabytes>, budget: Gigabytes, lastUse: map<Mode, nat>, now: nat)
    requires plan <= Evictables(t, t.loaded) && k < |plan|
    requires t.Valid() && Good(t.(loaded := Minus(t.loaded, plan[..k])), sizes, budget, lastUse, now)
    ensures plan[k] in Minus(t.loaded, plan[..k]) && t.Evictable(plan[k])
    ensures var rest := Without(Minus(t.loaded, plan[..k]), plan[k]);
            && rest == Minus(t.loaded, plan[..k + 1])
            && Good(t.(loaded := rest), sizes, budget, lastUse, now)
            && Total(sizes, rest) == Total(sizes, Minus(t.loaded, plan[..k])) - Size(sizes, plan[k])
    ensures Total(sizes, plan[..k + 1]) == Total(sizes, plan[..k]) + Size(sizes, plan[k])
  {
    hide Good, Total, Evictables;
    assert plan[..k + 1] == plan[..k] + [plan[k]];
    VictimIsLoaded(t, plan, k);
    TotalAppend(sizes, plan[..k], plan[k]);
    MinusAppend(t.loaded, plan[..k], plan[k]);
    LeavingKeepsGood(t.(loaded := Minus(t.loaded, plan[..k])), plan[k], sizes, budget, lastUse, now);
  }

  lemma VictimIsLoaded(t: Table, plan: seq<Mode>, k: nat)
    requires Distinct(t.loaded) && plan <= Evictables(t, t.loaded) && k < |plan|
    requires forall mode | mode in t.inUse :: t.inUse[mode] > 0
    ensures plan[k] in Minus(t.loaded, plan[..k]) && plan[k] !in t.inUse && t.Evictable(plan[k])
  {
    EvictablesAreDistinct(t, t.loaded);
    assert plan[k] in Evictables(t, t.loaded);
    assert plan[k] !in plan[..k];
  }

  lemma MinusAppend(s: seq<Mode>, gone: seq<Mode>, mode: Mode)
    ensures Minus(s, gone + [mode]) == Without(Minus(s, gone), mode)
  {
    assert (gone + [mode])[..|gone|] == gone;
  }
}
