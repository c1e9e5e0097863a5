/**
 The worker's result files and the task records that name them: which records a run of the store's operations
 leaves, and when a file that was registered and is still on disk is named by none.
 */
module TaskFiles {
  import opened Wrappers

  type TaskId = nat
  type Path = nat

  /** The file each record names, the files ever registered, those on disk, and the task ids ever used. */
  datatype Files = Files(named: map<TaskId, Option<Path>>, registered: set<Path>, disk: set<Path>, used: set<TaskId>)

  const NO_FILES: Files := Files(map[], {}, {}, {})

  /** What happens to the files. Whether a removal fails is not up to the store. */
  datatype FileEvent =
    | Created(task: TaskId)
    | FileWritten(file: Path)
    | Completed(task: TaskId, result: Option<Path>)
    | Discarded(task: TaskId, fails: bool)
    | Swept(expired: set<TaskId>, stuck: set<TaskId>)

  function Or<T>(written: Option<T>, held: Option<T>): Option<T> {
    if written.Some? then written else held
  }

  function FileOf(f: Files, t: TaskId): set<Path> {
    if t in f.named && f.named[t].Some? then {f.named[t].value} else {}
  }

  /** The expired records whose file, if any, can be removed. */
  function Sweepable(f: Files, expired: set<TaskId>, stuck: set<TaskId>): set<TaskId> {
    set t | t in expired && t in f.named && (f.named[t].None? || t !in stuck)
  }

  function FilesOf(f: Files, tasks: set<TaskId>): set<Path> {
    set t | t in tasks && t in f.named && f.named[t].Some? :: f.named[t].value
  }

  /** Task ids and file names are fresh: an event that repeats one changes nothing. */
  function Apply(f: Files, e: FileEvent): Files {
    match e
    case Created(t) => if t in f.used || t in f.named then f else f.(named := f.named[t := None], used := f.used + {t})
    case FileWritten(file) => if file in f.registered + f.disk then f else f.(disk := f.disk + {file})
    case Completed(t, result) =>
      if t !in f.named then f
      else
        f.(named := f.named[t := Or(result, f.named[t])],
        registered := if result.Some? then f.registered + {result.value} else f.registered)
    case Discarded(t, fails) =>
      if t !in f.named || (f.named[t].Some? && fails) then f
      else f.(named := f.named[t := None], disk := f.disk - FileOf(f, t))
    case Swept(expired, stuck) =>
      var gone := Sweepable(f, expired, stuck);
      f.(named := f.named - gone, disk := f.disk - FilesOf(f, gone))
  }

  /** What each event does to the files: only a fresh name is written, a completion names and registers its file, a
      removal that fails changes nothing, and a sweep drops exactly the expired records it can, with their files. */
  lemma EventsAreExact(f: Files, t: TaskId, file: Path, fails: bool, expired: set<TaskId>, stuck: set<TaskId>)
    ensures Apply(f, FileWritten(file)) == if file in f.registered || file in f.disk then f else f.(disk := f.disk + {file})
    ensures t in f.named ==>
              && Apply(f, Completed(t, Some(file))) == f.(named := f.named[t := Some(file)], registered := f.registered + {file})
              && Apply(f, Completed(t, None)) == f
    ensures Names(f, t, file) ==>
              Apply(f, Discarded(t, fails)) == if fails then f else f.(named := f.named[t := None], disk := f.disk - {file})
    ensures var f' := Apply(f, Swept(expired, stuck));
            && (forall s :: s in f'.named <==> s in f.named && !(s in expired && (f.named[s].None? || s !in stuck)))
            && (forall s | s in f'.named :: f'.named[s] == f.named[s])
            && (forall p :: p in f'.disk <==> p in f.disk && !exists s :: s in expired && s !in stuck && Names(f, s, p))
            && (f'.registered, f'.used) == (f.registered, f.used)
  {
    assert t in f.named ==> f.named[t := f.named[t]] == f.named;
    var f' := Apply(f, Swept(expired, stuck));
    forall p ensures p in f'.disk <==> p in f.disk && !exists s :: s in expired && s !in stuck && Names(f, s, p) {
      if s :| s in expired && s !in stuck && Names(f, s, p) {
        assert s in Sweepable(f, expired, stuck) && p in FilesOf(f, Sweepable(f, expired, stuck));
      }
    }
  }

  function Run(events: seq<FileEvent>): Files {
    if events == [] then NO_FILES else Apply(Run(events[..|events| - 1]), events[|events| - 1])
  }

  predicate Names(f: Files, t: TaskId, file: Path) {
    t in f.named && f.named[t] == Some(file)
  }

  /** A registered result file that is still on disk has a live record naming it. */
  ghost predicate AllNamed(f: Files) {
    && (forall t | t in f.named && f.named[t].Some? :: f.named[t].value in f.registered)
    && (forall file | file in f.registered && file in f.disk :: exists t :: Names(f, t, file))
  }

  /** A completion replaces the last record of a file that is still on disk. */
  ghost predicate DropsARecord(f: Files, e: FileEvent) {
    && e.Completed? && e.result.Some? && e.task in f.named
    && f.named[e.task].Some? && f.named[e.task] != e.result && f.named[e.task].value in f.disk
    && forall s | s != e.task :: !Names(f, s, f.named[e.task].value)
  }

  lemma NamesSurvive(f: Files, f': Files)
    requires AllNamed(f)
    requires forall file | file in f'.registered && file in f'.disk :: file in f.registered && file in f.disk
    requires forall t, file | Names(f, t, file) && file in f'.disk :: Names(f', t, file)
    requires forall t | t in f'.named && f'.named[t].Some? :: f'.named[t].value in f'.registered
    ensures AllNamed(f')
  {
    forall file | file in f'.registered && file in f'.disk ensures exists t :: Names(f', t, file) {
      var t :| Names(f, t, file);
      assert Names(f', t, file);
    }
  }

  lemma CompletionDecides(f: Files, e: FileEvent)
    requires AllNamed(f) && e.Completed?
    ensures AllNamed(Apply(f, e)) <==> !DropsARecord(f, e)
  {
    var f' := Apply(f, e);
    if f' != f {
      if DropsARecord(f, e) {
        forall s ensures !Names(f', s, f.named[e.task].value) {
          assert s != e.task ==> !Names(f, s, f.named[e.task].value);
        }
      } else {
        forall file | file in f'.registered && file in f'.disk ensures exists t :: Names(f', t, file) {
          if e.result == Some(file) {
            assert Names(f', e.task, file);
          } else {
            var t :| Names(f, t, file);
            if t == e.task && e.result.Some? {
              var s :| s != e.task && Names(f, s, file);
              assert Names(f', s, file);
            } else {
              assert Names(f', t, file);
            }
          }
        }
      }
    }
  }

  /** An event keeps every registered file on disk named exactly when it does not drop the last record of one. */
  lemma EventDecides(f: Files, e: FileEvent)
    requires AllNamed(f)
    ensures AllNamed(Apply(f, e)) <==> !DropsARecord(f, e)
  {
    if e.Completed? {
      CompletionDecides(f, e);
    } else if e.Swept? {
      SweepingKeepsNames(f, e);
    } else {
      NamesSurvive(f, Apply(f, e));
    }
  }

  lemma SweepingKeepsNames(f: Files, e: FileEvent)
    requires AllNamed(f) && e.Swept?
    ensures AllNamed(Apply(f, e))
  {
    var gone := Sweepable(f, e.expired, e.stuck);
    forall t, file | Names(f, t, file) && file in Apply(f, e).disk ensures Names(Apply(f, e), t, file) {
      assert t in gone ==> file in FilesOf(f, gone);
    }
    NamesSurvive(f, Apply(f, e));
  }

  // ---------------------------------------------------------------- whole runs

  ghost predicate AlwaysNamed(events: seq<FileEvent>) {
    AllNamed(Run(events)) && (events == [] || AlwaysNamed(events[..|events| - 1]))
  }

  ghost predicate NeverDropsARecord(events: seq<FileEvent>) {
    events == [] ||
    var before, last := events[..|events| - 1], events[|events| - 1];
    NeverDropsARecord(before) && !DropsARecord(Run(before), last)
  }

  /** Throughout a run every registered file on disk is named by a record, if and only if no completion of the run
      replaces the last record of a file that is still there. */
  lemma {:induction false} NamedUnlessDropped(events: seq<FileEvent>)
    ensures AlwaysNamed(events) <==> NeverDropsARecord(events)
  {
    if events != [] {
      hide Apply, AllNamed, DropsARecord;
      var before := events[..|events| - 1];
      NamedUnlessDropped(before);
      if AlwaysNamed(before) {
        EventDecides(Run(before), events[|events| - 1]);
      }
    }
  }

  /** No task completes twice. */
  predicate CompletedOnce(events: seq<FileEvent>) {
    forall i, j | 0 <= i < j < |events| && events[i].Completed? && events[j].Completed? :: events[i].task != events[j].task
  }

  /** Only a completion makes a record name a file. */
  lemma {:induction false} NamedWasCompleted(events: seq<FileEvent>, t: TaskId)
    requires var f := Run(events); t in f.named && f.named[t].Some?
    ensures exists i :: 0 <= i < |events| && events[i].Completed? && events[i].task == t
  {
    var before, last := events[..|events| - 1], events[|events| - 1];
    if last.Completed? && last.task == t {
    } else {
      NamedWasCompleted(before, t);
      var i :| 0 <= i < |before| && before[i].Completed? && before[i].task == t;
      assert events[i] == before[i];
    }
  }

  /** If each task completes at most once, every registered result file still on disk has a live record naming it,
      throughout every run. */
  lemma {:induction false} CompletedOnceStaysNamed(events: seq<FileEvent>)
    requires CompletedOnce(events)
    ensures NeverDropsARecord(events) && AlwaysNamed(events)
  {
    if events != [] {
      var before, last := events[..|events| - 1], events[|events| - 1];
      assert forall i | 0 <= i < |before| :: events[i] == before[i];
      CompletedOnceStaysNamed(before);
      if DropsARecord(Run(before), last) {
        NamedWasCompleted(before, last.task);
        assert false;
      }
    }
    NamedUnlessDropped(events);
  }

  /** A task that completes a second time, with another file, leaves its first file on disk without a record. */
  lemma SecondCompletionLosesTheFile(t: TaskId, first: Path, second: Path)
    requires first != second
    ensures var events := [Created(t), FileWritten(first), Completed(t, Some(first)), FileWritten(second), Completed(t, Some(second))];
            && AllNamed(Run(events[..4])) && !AllNamed(Run(events))
            && first in Run(events).registered && first in Run(events).disk
  {
    var events := [Created(t), FileWritten(first), Completed(t, Some(first)), FileWritten(second), Completed(t, Some(second))];
    assert events[..4][..3] == events[..3] && events[..3][..2] == events[..2] && events[..2][..1] == events[..1] && events[..1][..0] == [];
    assert Run(events[..1]) == Files(map[t := None], {}, {}, {t});
    assert Run(events[..2]) == Files(map[t := None], {}, {first}, {t});
    assert Run(events[..3]) == Files(map[t := Some(first)], {first}, {first}, {t});
    assert Run(events[..4]) == Files(map[t := Some(first)], {first}, {first, second}, {t});
    assert Names(Run(events[..4]), t, first);
    assert Run(events) == Files(map[t := Some(second)], {first, second}, {first, second}, {t});
  }

  lemma EventsInTurn(t: TaskId, first: Path, second: Path)
    requires first != second
    ensures var events := [Created(t), FileWritten(first), Completed(t, Some(first)), FileWritten(second), Completed(t, Some(second))];
            var once := Apply(Apply(Apply(NO_FILES, events[0]), events[1]), events[2]);
            && Apply(NO_FILES, events[0]) == Files(map[t := None], {}, {}, {t})
            && once == Files(map[t := Some(first)], {first}, {first}, {t})
            && Apply(Apply(once, events[3]), events[4]) == Run(events)
  {
    var events := [Created(t), FileWritten(first), Completed(t, Some(first)), FileWritten(second), Completed(t, Some(second))];
    hide Apply;
    assert events[..4][..3] == events[..3] && events[..3][..2] == events[..2] && events[..2][..1] == events[..1] && events[..1][..0] == [];
    assert Run(events[..1]) == Apply(Run([]), events[0]);
    assert Run(events[..2]) == Apply(Run(events[..1]), events[1]);
    assert Run(events[..3]) == Apply(Run(events[..2]), events[2]);
    assert Run(events[..4]) == Apply(Run(events[..3]), events[3]);
    OnceCompleted(t, first);
  }

  lemma OnceCompleted(t: TaskId, first: Path)
    ensures Apply(NO_FILES, Created(t)) == Files(map[t := None], {}, {}, {t})
    ensures Apply(Apply(Apply(NO_FILES, Created(t)), FileWritten(first)), Completed(t, Some(first)))
            == Files(map[t := Some(first)], {first}, {first}, {t})
  {
  }
}
