/**
 Replacing an entity's cover: the new set is written into a staging directory, the stored one steps
 aside, the new one takes its place. The process may be stopped between any two filesystem steps and
 inside a directory removal, and every step may fail; each stop is a `return` here, so what the methods
 ensure holds at every one of them. How the steps end comes from an arbitrary sequence, one entry
 consumed at each step, so the contracts can also say when a write succeeds.
 */
module CoverSwap {
  import opened Wrappers

  type CoverId = nat

  datatype Variant = Original | Card | Detail

  const VARIANTS: seq<Variant> := [Original, Card, Detail]

  /** A file while it is being written, and after. */
  datatype File = Torn | Whole

  /** A directory that holds files of one cover set. */
  datatype Dir = Dir(cover: CoverId, files: map<Variant, File>) {
    predicate Complete() {
      forall v: Variant :: v in files && files[v] == Whole
    }
  }

  /** How a step or a whole write ended: the process stopped, an exception was raised, or it returned. */
  datatype End = Stopped | Raised | Returned

  /** How every filesystem step ends, and whether the directory to remove can be confined then. */
  datatype Outside = Outside(ends: nat -> End, confined: nat -> bool)

  /** The steps from `from` up to `to` all went well. */
  ghost predicate WentWell(outside: Outside, from: nat, to: nat) {
    forall k | from <= k < to :: outside.ends(k) == Returned && outside.confined(k)
  }

  /** The process is stopped exactly where a step says so, and then at once. */
  ghost predicate StopsInTime(outside: Outside, from: nat, to: nat, end: End) {
    && (end == Stopped ==> from < to && outside.ends(to - 1) == Stopped)
    && (forall k | from <= k < to && (end == Stopped ==> k < to - 1) :: outside.ends(k) != Stopped)
  }

  /** The two directories of one entity, and leftover staging directories under their unique names. */
  class CoverStore {
    var final: Option<Dir>
    var aside: Option<Dir>
    var staging: map<nat, Dir>

    // The world outside, and how many steps were taken.
    const outside: Outside
    var steps: nat

    /** The final directory never holds a half-written set, and a set that stepped aside is whole as long
        as nothing took its place. */
    ghost predicate Valid()
      reads this
    {
      && (final.Some? ==> final.value.Complete())
      && (final.None? && aside.Some? ==> aside.value.Complete())
    }

    /** The cover a restore would leave in place. */
    function Stored(): Option<CoverId>
      reads this
    {
      if final.Some? then Some(final.value.cover) else if aside.Some? then Some(aside.value.cover) else None
    }

    constructor (outside: Outside)
      ensures Valid() && Stored() == None && this.outside == outside
    {
      final, aside, staging := None, None, map[];
      this.outside, steps := outside, 0;
    }

    // -------------------------------------------------------------- filesystem steps

    method MayFail() returns (end: End)
      modifies this`steps
      ensures end == outside.ends(old(steps)) && steps == old(steps) + 1
    {
      end := outside.ends(steps);
      steps := steps + 1;
    }

    /** Move the set that stepped aside back, when nothing took its place. */
    method RestoreIfOrphaned() returns (end: End)
      requires Valid()
      modifies this`final, this`aside, this`steps
      ensures Valid() && Stored() == old(Stored())
      ensures end == outside.ends(old(steps)) && steps == old(steps) + 1
      ensures end.Returned? && old(final.None?) ==> final == old(aside) && aside == None
      ensures !end.Returned? || old(final.Some?) ==> final == old(final) && aside == old(aside)
    {
      end := MayFail();
      if end.Returned? && final.None? && aside.Some? {
        final, aside := aside, None;
      }
    }

    /** Remove what stepped aside, file by file in any order. An error ends the removal half-way, and a path
        that cannot be confined is left alone. */
    method RemoveAside() returns (end: End)
      requires Valid() && final.Some?
      modifies this`aside, this`steps
      ensures Valid() && final == old(final) && old(steps) <= steps
      ensures StopsInTime(outside, old(steps), steps, end)
      ensures WentWell(outside, old(steps), steps) ==> end.Returned? && aside.None?
    {
      while aside.Some?
        invariant Valid() && old(steps) <= steps
        invariant WentWell(outside, old(steps), steps)
        decreases if aside.Some? then |aside.value.files| + 1 else 0
      {
        end := MayFail();
        if !end.Returned? {
          return;
        }
        if !outside.confined(steps - 1) {
          return Returned;
        }
        if aside.value.files == map[] {
          aside := None;
        } else {
          var v :| v in aside.value.files;
          aside := Some(aside.value.(files := aside.value.files - {v}));
        }
      }
      end := Returned;
    }

    /** Move the stored set aside. A directory that is still there and not empty refuses the move. */
    method StepAside() returns (end: End)
      requires Valid() && final.Some?
      modifies this`final, this`aside, this`steps
      ensures Valid() && Stored() == old(Stored()) && steps == old(steps) + 1
      ensures end == if outside.ends(old(steps)).Returned? && old(aside.Some? && aside.value.files != map[]) then Raised
                     else outside.ends(old(steps))
      ensures end.Returned? ==> final.None?
      ensures !end.Returned? ==> final == old(final) && aside == old(aside)
    {
      end := MayFail();
      if end.Returned? {
        if aside.Some? && aside.value.files != map[] {
          return Raised;
        }
        final, aside := None, final;
      }
    }

    /** Write the variants one after the other into the staging directory. */
    method SaveVariants(name: nat, cover: CoverId) returns (end: End)
      requires name in staging && staging[name] == Dir(cover, map[])
      modifies this`staging, this`steps
      ensures name in staging && staging[name].cover == cover && old(steps) <= steps
      ensures end.Returned? ==> staging[name].Complete()
      ensures StopsInTime(outside, old(steps), steps, end)
      ensures WentWell(outside, old(steps), steps) ==> end.Returned?
    {
      for k := 0 to |VARIANTS|
        invariant name in staging && staging[name].cover == cover && old(steps) <= steps
        invariant forall m | old(steps) <= m < steps :: outside.ends(m) == Returned
        invariant forall n | 0 <= n < k :: VARIANTS[n] in staging[name].files && staging[name].files[VARIANTS[n]] == Whole
      {
        staging := staging[name := staging[name].(files := staging[name].files[VARIANTS[k] := Torn])];
        end := MayFail();
        if !end.Returned? {
          return;
        }
        staging := staging[name := staging[name].(files := staging[name].files[VARIANTS[k] := Whole])];
      }
      forall v: Variant ensures v in staging[name].files && staging[name].files[v] == Whole {
        assert v == VARIANTS[0] || v == VARIANTS[1] || v == VARIANTS[2];
      }
      end := Returned;
    }

    /** Put the staged set in its place. */
    method TakePlace(name: nat) returns (end: End)
      requires Valid() && name in staging && staging[name].Complete() && final.None?
      modifies this`final, this`staging, this`steps
      ensures Valid() && end == outside.ends(old(steps)) && steps == old(steps) + 1
      ensures end.Returned? ==> final == Some(old(staging)[name])
      ensures !end.Returned? ==> final == old(final) && staging == old(staging)
    {
      end := MayFail();
      if end.Returned? {
        final, staging := Some(staging[name]), staging - {name};
      }
    }

    /** Swap the staged set in; only the very last step changes what is stored. */
    method Swap(name: nat, cover: CoverId) returns (end: End)
      requires Valid() && name in staging && staging[name] == Dir(cover, map[])
      modifies this`final, this`aside, this`staging, this`steps
      ensures Valid() && old(steps) <= steps
      ensures end.Returned? ==> final.Some? && final.value.cover == cover
      ensures !end.Returned? ==> Stored() == old(Stored())
      ensures StopsInTime(outside, old(steps), steps, end)
      ensures WentWell(outside, old(steps), steps) ==> end.Returned?
    {
      end := SaveVariants(name, cover);
      if !end.Returned? {
        return;
      }
      if final.Some? {
        if aside.Some? {
          end := RemoveAside();
          if !end.Returned? {
            return;
          }
        }
        end := StepAside();
        if !end.Returned? {
          return;
        }
      }
      end := TakePlace(name);
    }

    /** After a failed swap: remove the staging directory, and move the stored set back; failures of either are
        swallowed. */
    method CleanUp(name: nat) returns (end: End)
      requires Valid()
      modifies this`final, this`aside, this`staging, this`steps
      ensures Valid() && Stored() == old(Stored()) && old(steps) <= steps
      ensures StopsInTime(outside, old(steps), steps, end)
    {
      end := MayFail();
      if end.Stopped? {
        return;
      }
      staging := if end.Returned? then staging - {name} else staging;
      end := RestoreIfOrphaned();
    }

    /** Write a cover. Wherever it stops, the stored set or its complete replacement survives; when it raises,
        the stored set does; when it returns, the new one is in place. It returns when every step goes well, and
        stops exactly when a step does. */
    method WriteCover(name: nat, cover: CoverId) returns (end: End)
      requires Valid() && name !in staging
      modifies this`final, this`aside, this`staging, this`steps
      ensures Valid() && old(steps) <= steps
      ensures end.Returned? ==> final.Some? && final.value.cover == cover
      ensures end.Raised? ==> Stored() == old(Stored())
      ensures end.Stopped? ==> Stored() == old(Stored()) || Stored() == Some(cover)
      ensures StopsInTime(outside, old(steps), steps, end)
      ensures WentWell(outside, old(steps), steps) ==> end.Returned? && aside.None?
    {
      end := RestoreIfOrphaned();
      if !end.Returned? {
        return;
      }
      end := MayFail();
      if !end.Returned? {
        return;
      }
      staging := staging[name := Dir(cover, map[])];
      end := Swap(name, cover);
      if end.Raised? {
        var cleanup := CleanUp(name);
        return if cleanup.Stopped? then Stopped else Raised;
      }
      if end.Stopped? {
        return;
      }
      var cleanup := RemoveAside();
      end := if cleanup.Stopped? then Stopped else Returned;
    }

    /** Any sequence of writes, each stopped, failing or returning as it may: a stored cover is never lost,
        and what is stored is what was before or one of the covers since the last write that returned. */
    method WriteAll(covers: seq<CoverId>) returns (ends: seq<End>)
      requires Valid()
      modifies this`final, this`aside, this`staging, this`steps
      ensures Valid() && |ends| == |covers|
      ensures old(Stored()).Some? ==> Stored().Some?
      ensures StoredFrom(old(Stored()), covers, ends, Stored())
      ensures old(steps) <= steps && (WentWell(outside, old(steps), steps) ==> forall k | 0 <= k < |ends| :: ends[k] == Returned)
    {
      ends := [];
      for k := 0 to |covers|
        invariant Valid() && |ends| == k
        invariant old(Stored()).Some? ==> Stored().Some?
        invariant StoredFrom(old(Stored()), covers[..k], ends, Stored())
        invariant old(steps) <= steps && (WentWell(outside, old(steps), steps) ==> forall n | 0 <= n < k :: ends[n] == Returned)
      {
        assert covers[..k + 1][..k] == covers[..k];
        var name := UnusedName();
        var end := WriteCover(name, covers[k]);
        ends := ends + [end];
        assert ends[..k] + [end] == ends;
      }
      assert covers[..|covers|] == covers;
    }

    method UnusedName() returns (name: nat)
      ensures name !in staging
    {
      SomeNameIsUnused(staging.Keys);
      name :| name !in staging;
    }
  }

  lemma SomeNameIsUnused(names: set<nat>)
    ensures exists name: nat :: name !in names
  {
    if names != {} {
      var greatest := Greatest(names);
      assert greatest + 1 !in names;
    } else {
      assert 0 !in names;
    }
  }

  lemma {:induction false} Greatest(names: set<nat>) returns (greatest: nat)
    requires names != {}
    ensures greatest in names && forall name | name in names :: name <= greatest
  {
    greatest :| greatest in names;
    var rest := names - {greatest};
    if rest == {} {
      assert forall name | name in names :: name !in rest;
    } else {
      var other := Greatest(rest);
      assert forall name | name in names :: name == greatest || name in rest;
      if greatest < other {
        greatest := other;
      }
    }
  }

  /** What may be stored after these writes: each that returned stored its cover, each that raised changed
      nothing, each that was stopped did either. */
  predicate StoredFrom(before: Option<CoverId>, covers: seq<CoverId>, ends: seq<End>, after: Option<CoverId>)
    requires |covers| == |ends|
  {
    if covers == [] then after == before
    else
      var k := |covers| - 1;
      match ends[k]
      case Returned => after == Some(covers[k])
      case Raised => StoredFrom(before, covers[..k], ends[..k], after)
      case Stopped => after == Some(covers[k]) || StoredFrom(before, covers[..k], ends[..k], after)
  }
}
