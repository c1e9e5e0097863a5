/**
 Use counts over whole runs of the worker protocol: every use of a mode is either held by a request
 under way or was lost to a cancellation, and a mode in use stays loaded.
 */
module WorkerUses {
  import opened Wrappers
  import opened ModelTables
  import opened WorkerProtocol

  // ---------------------------------------------------------------- who holds a use

  function LockUses(lock: AdmissionLock, mode: Mode): nat {
    if (lock.ModelAcquired? || lock.AdmissionUndo?) && lock.mode == mode then 1 else 0
  }

  ghost function GenerationUsers(generations: map<TaskId, Generation>, mode: Mode): set<TaskId> {
    set task | task in generations && generations[task].mode == mode && generations[task].phase != GenerationReleased
  }

  ghost function TrainingUsers(runs: map<RequestId, TrainingRun>, mode: Mode): set<RequestId> {
    set r | r in runs && runs[r].mode == mode && runs[r].HasModel()
  }

  /** The generate requests and training runs that acquired the mode and have not released it. */
  ghost function Holders(s: State, mode: Mode): nat {
    LockUses(s.admission, mode) + |GenerationUsers(s.generations, mode)| + |TrainingUsers(s.trainings, mode)|
  }

  ghost predicate Accounted(s: State) {
    && s.cache.Valid()
    && forall mode :: s.cache.Uses(mode) == Holders(s, mode) + Lost(s, mode)
  }

  // ---------------------------------------------------------------- the table

  function One(mode: Mode, m: Mode): nat {
    if m == mode then 1 else 0
  }

  lemma AcquireAddsAUse(t: Table, mode: Mode)
    requires t.Valid()
    ensures Acquired(t, mode).Valid()
    ensures forall m :: Acquired(t, mode).Uses(m) == t.Uses(m) + if mode in t.loaded then One(mode, m) else 0
  {
    WithoutKeepsDistinct(t.loaded, mode);
  }

  lemma ReleaseEndsAUse(t: Table, mode: Mode)
    requires t.Valid() && t.Uses(mode) > 0
    ensures Released(t, mode).Valid()
    ensures forall m :: Released(t, mode).Uses(m) == t.Uses(m) - One(mode, m)
  {
  }

  lemma StopEndsAUse(t: Table, mode: Mode)
    requires t.Valid() && t.Uses(mode) > 0
    ensures ReleasedAndStopped(t, mode).Valid()
    ensures forall m :: ReleasedAndStopped(t, mode).Uses(m) == t.Uses(m) - One(mode, m)
  {
    ReleaseEndsAUse(t, mode);
    WithoutKeepsDistinct(t.loaded, mode);
  }

  lemma CacheKeepsUses(t: Table, e: CacheEvent)
    requires t.Valid()
    ensures ApplyCache(t, e).Valid() && ApplyCache(t, e).inUse == t.inUse
  {
    WithoutKeepsDistinct(t.loaded, e.mode);
    if e.LoadMode? && e.mode !in t.loaded && e.victims <= Evictables(t, t.loaded) {
      assert forall m | m in e.victims :: m in Evictables(t, t.loaded);
      MinusKeepsDistinct(t.loaded, e.victims);
    }
  }

  // ---------------------------------------------------------------- adding and removing holders

  lemma GenerationEntry(generations: map<TaskId, Generation>, task: TaskId, g: Generation, m: Mode)
    ensures |GenerationUsers(generations[task := g], m)|
            == |GenerationUsers(generations - {task}, m)| + if g.phase != GenerationReleased then One(g.mode, m) else 0
  {
    var users := GenerationUsers(generations - {task}, m);
    if g.phase != GenerationReleased && g.mode == m {
      assert GenerationUsers(generations[task := g], m) == users + {task};
    } else {
      assert GenerationUsers(generations[task := g], m) == users;
    }
  }

  lemma TrainingEntry(runs: map<RequestId, TrainingRun>, r: RequestId, run: TrainingRun, m: Mode)
    ensures |TrainingUsers(runs[r := run], m)|
            == |TrainingUsers(runs - {r}, m)| + if run.HasModel() then One(run.mode, m) else 0
  {
    var users := TrainingUsers(runs - {r}, m);
    if run.HasModel() && run.mode == m {
      assert TrainingUsers(runs[r := run], m) == users + {r};
    } else {
      assert TrainingUsers(runs[r := run], m) == users;
    }
  }

  /** A generation's entry changes from its old use to its new one. */
  lemma GenerationChange(generations: map<TaskId, Generation>, task: TaskId, g: Generation, m: Mode)
    requires task in generations
    ensures |GenerationUsers(generations[task := g], m)|
            == |GenerationUsers(generations, m)|
               + (if g.phase != GenerationReleased then One(g.mode, m) else 0)
               - (if generations[task].phase != GenerationReleased then One(generations[task].mode, m) else 0)
  {
    GenerationEntry(generations, task, g, m);
    GenerationEntry(generations, task, generations[task], m);
    assert generations[task := generations[task]] == generations;
  }

  lemma TrainingChange(runs: map<RequestId, TrainingRun>, r: RequestId, run: TrainingRun, m: Mode)
    requires r in runs
    ensures |TrainingUsers(runs[r := run], m)|
            == |TrainingUsers(runs, m)| + (if run.HasModel() then One(run.mode, m) else 0)
               - (if runs[r].HasModel() then One(runs[r].mode, m) else 0)
  {
    TrainingEntry(runs, r, run, m);
    TrainingEntry(runs, r, runs[r], m);
    assert runs[r := runs[r]] == runs;
  }

  lemma TrainingLeaves(runs: map<RequestId, TrainingRun>, r: RequestId, m: Mode)
    requires r in runs
    ensures |TrainingUsers(runs - {r}, m)| == |TrainingUsers(runs, m)| - (if runs[r].HasModel() then One(runs[r].mode, m) else 0)
  {
    TrainingEntry(runs, r, runs[r], m);
    assert runs[r := runs[r]] == runs;
  }

  lemma GenerationLeaves(generations: map<TaskId, Generation>, task: TaskId, m: Mode)
    requires task in generations
    ensures |GenerationUsers(generations - {task}, m)|
            == |GenerationUsers(generations, m)|
               - (if generations[task].phase != GenerationReleased then One(generations[task].mode, m) else 0)
  {
    GenerationEntry(generations, task, generations[task], m);
    assert generations[task := generations[task]] == generations;
  }

  // ---------------------------------------------------------------- every event keeps the account

  /** From `s` to `s'` no mode's uses changed other than by its holders and its lost uses. */
  ghost predicate Balanced(s: State, s': State) {
    && s'.cache.Valid()
    && forall m :: s'.cache.Uses(m) - Holders(s', m) - Lost(s', m) == s.cache.Uses(m) - Holders(s, m) - Lost(s, m)
  }

  lemma EndingAUse(s: State, mode: Mode, cancelled: bool)
    requires s.cache.Valid() && s.cache.Uses(mode) > 0
    ensures var s' := EndUse(s, mode, cancelled);
            && s' == s.(cache := s'.cache, lost := s'.lost)
            && s'.cache.Valid()
            && forall m :: s'.cache.Uses(m) - Lost(s', m) == s.cache.Uses(m) - Lost(s, m) - One(mode, m)
  {
    ReleaseEndsAUse(s.cache, mode);
    hide Released;
  }

  lemma AdmissionIsBalanced(s: State, e: GenerateEvent)
    requires Accounted(s) && s.generations.Keys <= s.tasks
    ensures Balanced(s, ApplyAdmission(s, e))
  {
    var s' := ApplyAdmission(s, e);
    if Creates(s, e) {
      forall m
        ensures Holders(s', m) == Holders(s, m)
      {
        GenerationEntry(s.generations, e.task, Generation(s.admission.mode, Registered), m);
        assert s.generations - {e.task} == s.generations;
      }
    } else {
      AdmissionUsesAreBalanced(s, e);
    }
  }

  lemma AdmissionUsesAreBalanced(s: State, e: GenerateEvent)
    requires Accounted(s) && !Creates(s, e)
    ensures Balanced(s, ApplyAdmission(s, e))
  {
    hide ApplyAdmission, Accounted, Balanced;
    if e.AcquireModel? && s.admission.HoldAbsent? {
      AcquiringIsBalanced(s);
    } else if e.CreateCancelled? && s.admission.ModelAcquired? {
      CancelledCreationIsBalanced(s);
    } else if e.Undo? && s.admission.AdmissionUndo? {
      UndoingIsBalanced(s, e.cancelled);
    } else {
      OtherAdmissionsKeepUses(s, e);
      SameUsersAreBalanced(s, ApplyAdmission(s, e));
    }
  }

  /** Inside the lock the request's one use comes and goes with the lock's state. */
  ghost predicate OnlyTheLock(s: State, s': State) {
    s'.generations == s.generations && s'.trainings == s.trainings
  }

  lemma LockIsBalanced(s: State, s': State)
    requires OnlyTheLock(s, s') && s'.cache.Valid()
    requires forall m :: s'.cache.Uses(m) - LockUses(s'.admission, m) - Lost(s', m) == s.cache.Uses(m) - LockUses(s.admission, m) - Lost(s, m)
    ensures Balanced(s, s')
  {
    hide GenerationUsers, TrainingUsers, Table.Valid;
  }

  lemma AcquiringIsBalanced(s: State)
    requires Accounted(s) && s.admission.HoldAbsent?
    ensures Balanced(s, ApplyAdmission(s, AcquireModel))
  {
    hide Acquired, Table.Valid, GenerationUsers, TrainingUsers;
    AcquireAddsAUse(s.cache, s.admission.mode);
    LockIsBalanced(s, ApplyAdmission(s, AcquireModel));
  }

  lemma CancelledCreationIsBalanced(s: State)
    requires Accounted(s) && s.admission.ModelAcquired?
    ensures Balanced(s, ApplyAdmission(s, CreateCancelled))
  {
    hide Table.Valid, GenerationUsers, TrainingUsers;
    LockIsBalanced(s, ApplyAdmission(s, CreateCancelled));
  }

  lemma UndoingIsBalanced(s: State, cancelled: bool)
    requires Accounted(s) && s.admission.AdmissionUndo?
    ensures Balanced(s, ApplyAdmission(s, Undo(cancelled)))
  {
    hide Released, Table.Valid, GenerationUsers, TrainingUsers;
    assert Holders(s, s.admission.mode) > 0;
    EndingAUse(s, s.admission.mode, cancelled);
    hide EndUse;
    LockIsBalanced(s, ApplyAdmission(s, Undo(cancelled)));
  }

  /** Every other event in the lock leaves the table, the lost uses and the lock's use alone. */
  predicate SameUsers(s: State, s': State) {
    && (s'.cache, s'.lost, s'.generations, s'.trainings) == (s.cache, s.lost, s.generations, s.trainings)
    && (LockHolds(s'.admission) <==> LockHolds(s.admission))
    && (LockHolds(s.admission) ==> s'.admission.mode == s.admission.mode)
  }

  predicate LockHolds(lock: AdmissionLock) {
    lock.ModelAcquired? || lock.AdmissionUndo?
  }

  lemma OtherAdmissionsKeepUses(s: State, e: GenerateEvent)
    requires !Creates(s, e)
    requires !(e.AcquireModel? && s.admission.HoldAbsent?)
    requires !(e.CreateCancelled? && s.admission.ModelAcquired?) && !(e.Undo? && s.admission.AdmissionUndo?)
    ensures SameUsers(s, ApplyAdmission(s, e))
  {
  }

  lemma SameUsersAreBalanced(s: State, s': State)
    requires Accounted(s) && SameUsers(s, s')
    ensures Balanced(s, s')
  {
    hide GenerationUsers, TrainingUsers, Table.Valid;
  }

  lemma GenerationIsBalanced(s: State, e: GenerateEvent)
    requires Accounted(s)
    ensures Balanced(s, ApplyGeneration(s, e))
  {
    hide Released, Table.Valid, GenerationUsers, TrainingUsers;
    var s' := ApplyGeneration(s, e);
    if s' != s {
      var task := if e.Spawn? then e.task else if e.SpawnFails? then e.task else if e.RunEnds? then e.task
                  else if e.ReleaseModel? then e.task else if e.Forget? then e.task else 0;
      if e.Forget? {
        forall m ensures Holders(s', m) == Holders(s, m) { GenerationLeaves(s.generations, task, m); }
      } else {
        forall m
          ensures Holders(s', m) == Holders(s, m) - if e.ReleaseModel? then One(s.generations[task].mode, m) else 0
        {
          GenerationChange(s.generations, task, s'.generations[task], m);
        }
        if e.ReleaseModel? {
          GenerationEntry(s.generations, task, s.generations[task], s.generations[task].mode);
          assert s.generations[task := s.generations[task]] == s.generations;
          EndingAUse(s, s.generations[task].mode, e.cancelled);
        }
      }
    }
  }

  /** A training run's step, seen from its uses. */
  lemma RunChange(s: State, s': State, r: RequestId)
    requires r in s.trainings && r in s'.trainings && s'.trainings == s.trainings[r := s'.trainings[r]]
    requires s'.trainings[r].mode == s.trainings[r].mode
    requires (s'.generations, s'.admission) == (s.generations, s.admission)
    ensures forall m :: Holders(s', m) == Holders(s, m)
                        + (if s'.trainings[r].HasModel() then One(s.trainings[r].mode, m) else 0)
                        - (if s.trainings[r].HasModel() then One(s.trainings[r].mode, m) else 0)
    ensures s.trainings[r].HasModel() ==> Holders(s, s.trainings[r].mode) > 0
  {
    hide GenerationUsers, TrainingUsers;
    forall m
      ensures Holders(s', m) == Holders(s, m)
                        + (if s'.trainings[r].HasModel() then One(s.trainings[r].mode, m) else 0)
                        - (if s.trainings[r].HasModel() then One(s.trainings[r].mode, m) else 0)
    {
      TrainingChange(s.trainings, r, s'.trainings[r], m);
    }
    TrainingLeaves(s.trainings, r, s.trainings[r].mode);
  }

  /** The table and the lost uses of `mode` follow a run that held a use before, or holds one after. */
  ghost predicate UsesFollow(t: Table, lost: map<Mode, nat>, t': Table, lost': map<Mode, nat>, mode: Mode, before: bool, after: bool) {
    && t'.Valid()
    && forall m :: t'.Uses(m) - LostIn(lost', m)
                   == t.Uses(m) - LostIn(lost, m) + (if after then One(mode, m) else 0) - (if before then One(mode, m) else 0)
  }

  ghost predicate RunStep(s: State, s': State, r: RequestId) {
    && r in s.trainings && r in s'.trainings && s'.trainings == s.trainings[r := s'.trainings[r]]
    && s'.trainings[r].mode == s.trainings[r].mode
    && (s'.generations, s'.admission) == (s.generations, s.admission)
  }

  lemma RunStepIsBalanced(s: State, s': State, r: RequestId)
    requires RunStep(s, s', r)
    requires UsesFollow(s.cache, s.lost, s'.cache, s'.lost, s.trainings[r].mode, s.trainings[r].HasModel(), s'.trainings[r].HasModel())
    ensures Balanced(s, s')
  {
    hide Holders, Table.Valid;
    RunChange(s, s', r);
  }

  lemma RunHoldsAUse(s: State, r: RequestId)
    requires Accounted(s) && r in s.trainings && s.trainings[r].HasModel()
    ensures s.cache.Uses(s.trainings[r].mode) > 0
  {
    TrainingLeaves(s.trainings, r, s.trainings[r].mode);
  }

  lemma SetupUsesFollow(s: State, run: TrainingRun, e: TrainEvent, after: TrainingPhase)
    requires s.cache.Valid() && (run.HasModel() ==> s.cache.Uses(run.mode) > 0)
    requires after == SetupPhase(run.phase, e, run.mode in s.cache.loaded, HeldBy(s, run.token))
    ensures var s' := SetupEffect(s, run, e);
            UsesFollow(s.cache, s.lost, s'.cache, s'.lost, run.mode, run.HasModel(), run.(phase := after).HasModel())
  {
    hide Acquired, Released, Table.Valid;
    match e
    case TrainAcquire => AcquireAddsAUse(s.cache, run.mode);
    case UndoSetup(cancelled) =>
      if run.phase == SetupUndo {
        EndingAUse(s, run.mode, cancelled);
      }
    case _ =>
  }

  lemma SetupIsBalanced(s: State, r: RequestId, e: TrainEvent)
    requires Accounted(s) && r in s.trainings
    ensures Balanced(s, ApplySetup(s, r, s.trainings[r], e))
  {
    hide SetupPhase, SetupEffect, Accounted, Balanced, UsesFollow, Table.Valid;
    var run, s' := s.trainings[r], ApplySetup(s, r, s.trainings[r], e);
    AccountIsValid(s);
    if run.HasModel() {
      RunHoldsAUse(s, r);
    }
    EffectIsOnUsesAndHold(s, run, e);
    SetupUsesFollow(s, run, e, s'.trainings[r].phase);
    RunStepIsBalanced(s, s', r);
  }

  lemma AccountIsValid(s: State)
    requires Accounted(s)
    ensures s.cache.Valid()
  {
  }

  lemma ClaimIsBalanced(s: State, r: RequestId, e: TrainEvent)
    requires Accounted(s) && r in s.trainings
    ensures Balanced(s, ApplyClaim(s, r, s.trainings[r], e))
  {
    AccountIsValid(s);
    hide Table.Valid, Accounted, Balanced;
    var s' := ApplyClaim(s, r, s.trainings[r], e);
    if s' == s {
      hide ApplyClaim;
      NoChangeIsBalanced(s);
    } else {
      RunStepIsBalanced(s, s', r);
    }
  }

  lemma NoChangeIsBalanced(s: State)
    requires s.cache.Valid()
    ensures Balanced(s, s)
  {
  }

  lemma CleanupUsesFollow(s: State, run: TrainingRun, e: TrainEvent)
    requires s.cache.Valid() && (run.HasModel() ==> s.cache.Uses(run.mode) > 0)
    ensures var s', after := CleanupEffect(s, run, e), run.(phase := CleanupPhase(run.phase, e));
            UsesFollow(s.cache, s.lost, s'.cache, s'.lost, run.mode, run.HasModel(), after.HasModel())
  {
    hide ReleasedAndStopped, Table.Valid;
    if run.HasModel() {
      StopEndsAUse(s.cache, run.mode);
    }
  }

  lemma TrainingIsBalanced(s: State, r: RequestId, e: TrainEvent)
    requires Accounted(s) && r in s.trainings
    ensures Balanced(s, ApplyTraining(s, r, s.trainings[r], e))
  {
    if e.DropHandover? {
      hide ApplyTraining;
      DroppingIsBalanced(s, r);
    } else {
      hide CleanupPhase, CleanupEffect, Accounted, Balanced, UsesFollow, Table.Valid;
      AccountIsValid(s);
      if s.trainings[r].HasModel() {
        RunHoldsAUse(s, r);
      }
      CleanupIsOnUsesAndHold(s, s.trainings[r], e);
      CleanupUsesFollow(s, s.trainings[r], e);
      RunStepIsBalanced(s, ApplyTraining(s, r, s.trainings[r], e), r);
    }
  }

  lemma DroppingIsBalanced(s: State, r: RequestId)
    requires Accounted(s) && r in s.trainings
    ensures Balanced(s, ApplyTraining(s, r, s.trainings[r], DropHandover))
  {
    forall m
      ensures Holders(ApplyTraining(s, r, s.trainings[r], DropHandover), m) == Holders(s, m)
    {
      TrainingLeaves(s.trainings, r, m);
    }
  }

  lemma EnterIsBalanced(s: State, r: RequestId, e: TrainEvent)
    requires Accounted(s) && r !in s.trainings && e.TrainEnter?
    ensures Balanced(s, ApplyTrain(s, r, e))
  {
    forall m
      ensures Holders(ApplyTrain(s, r, e), m) == Holders(s, m)
    {
      TrainingEntry(s.trainings, r, TrainingRun(e.mode, e.token, Entered, 0), m);
      assert s.trainings - {r} == s.trainings;
    }
  }

  /** Nothing about uses changed. */
  predicate SameUses(s: State, s': State) {
    && (s'.cache, s'.lost, s'.generations, s'.trainings) == (s.cache, s.lost, s.generations, s.trainings)
    && (s'.admission == s.admission
        || !(s.admission.ModelAcquired? || s.admission.AdmissionUndo? || s'.admission.ModelAcquired? || s'.admission.AdmissionUndo?))
  }

  lemma SameUsesIsBalanced(s: State, s': State)
    requires Accounted(s) && SameUses(s, s')
    ensures Balanced(s, s')
  {
    hide GenerationUsers, TrainingUsers, Table.Valid;
  }

  lemma RedisKeepsTheAccount(s: State, e: RedisEvent)
    requires Accounted(s)
    ensures Accounted(ApplyRedis(s, e))
  {
    if e.Die? {
      NothingIsUsed(ApplyRedis(s, e));
    } else {
      hide Accounted;
      assert SameUses(s, ApplyRedis(s, e));
      SameUsesKeepsTheAccount(s, ApplyRedis(s, e));
    }
  }

  lemma SameUsesKeepsTheAccount(s: State, s': State)
    requires Accounted(s) && SameUses(s, s')
    ensures Accounted(s')
  {
    SameUsesIsBalanced(s, s');
  }

  lemma NothingIsUsed(s: State)
    requires s.cache == EMPTY_TABLE && s.generations == map[] && s.trainings == map[] && s.lost == map[]
    requires s.admission.AdmissionFree?
    ensures Accounted(s)
  {
    forall mode ensures GenerationUsers(s.generations, mode) == {} && TrainingUsers(s.trainings, mode) == {} {}
  }

  lemma RouteHasTheSameUses(s: State, e: RouteEvent)
    ensures SameUses(s, ApplyRoute(s, e))
  {
  }

  lemma EventKeepsTheAccount(s: State, e: Event)
    requires Accounted(s) && s.generations.Keys <= s.tasks
    ensures Accounted(Apply(s, e))
  {
    hide ApplyRedis, ApplyRoute, ApplyAdmission, ApplyGeneration, ApplySetup, ApplyClaim, ApplyTraining, ApplyCache, Accounted, Balanced;
    match e
    case Redis(redis) => RedisKeepsTheAccount(s, redis);
    case Route(route) =>
      RouteHasTheSameUses(s, route);
      SameUsesKeepsTheAccount(s, ApplyRoute(s, route));
    case Generate(generate) =>
      AdmissionIsBalanced(s, generate);
      GenerationIsBalanced(s, generate);
      BalancedKeepsTheAccount(s, Apply(s, e));
    case Train(r, train) =>
      if r in s.trainings {
        SetupIsBalanced(s, r, train);
        ClaimIsBalanced(s, r, train);
        TrainingIsBalanced(s, r, train);
        BalancedKeepsTheAccount(s, Apply(s, e));
      } else if train.TrainEnter? {
        EnterIsBalanced(s, r, train);
        BalancedKeepsTheAccount(s, Apply(s, e));
      }
    case Cache(cache) => CacheKeepsTheAccount(s, cache);
  }

  lemma BalancedKeepsTheAccount(s: State, s': State)
    requires Accounted(s)
    ensures Balanced(s, s') ==> Accounted(s')
  {
    hide Holders, Table.Valid;
  }

  lemma CacheKeepsTheAccount(s: State, e: CacheEvent)
    requires Accounted(s)
    ensures Accounted(Apply(s, Cache(e)))
  {
    hide ApplyCache, Table.Valid, GenerationUsers, TrainingUsers;
    AccountIsValid(s);
    CacheKeepsUses(s.cache, e);
    var s' := Apply(s, Cache(e));
    forall m ensures s'.cache.Uses(m) == Holders(s', m) + Lost(s', m) {
      assert s'.cache.Uses(m) == s.cache.Uses(m) && Holders(s', m) == Holders(s, m);
    }
  }

  /** On every run each mode's use count is the number of requests that hold it plus the uses lost to a
      cancellation inside task creation or inside a release; and a mode in use is loaded. */
  lemma {:induction false} UsesAreAccounted(events: seq<Event>)
    ensures Accounted(Run(events))
    ensures forall mode ::
              var s := Run(events);
              && (s.cache.Uses(mode) == Holders(s, mode) <==> Lost(s, mode) == 0)
              && (Holders(s, mode) > 0 ==> mode in s.cache.loaded)
  {
    if events != [] {
      UsesAreAccounted(events[..|events| - 1]);
      NoGenerationUnderAHold(events[..|events| - 1]);
      EventKeepsTheAccount(Run(events[..|events| - 1]), events[|events| - 1]);
    }
    if events == [] {
      NothingIsUsed(INITIAL);
    }
    var s := Run(events);
    forall mode | Holders(s, mode) > 0
      ensures mode in s.cache.loaded
    {
      assert s.cache.Uses(mode) > 0;
    }
  }

  // ---------------------------------------------------------------- when a use is lost

  /** A cancellation that lands in task creation, or in a release. */
  predicate IsLosing(e: Event) {
    match e
    case Generate(CreateCancelled) => true
    case Generate(Undo(cancelled)) => cancelled
    case Generate(ReleaseModel(_, cancelled)) => cancelled
    case Train(_, UndoSetup(cancelled)) => cancelled
    case Train(_, StopModel(cancelled)) => cancelled
    case _ => false
  }

  /** Such a cancellation reaches a request that holds a use of the mode and is creating its task or releasing. */
  predicate LosesAUse(s: State, e: Event, mode: Mode) {
    s.up && IsLosing(e) &&
    match e
    case Generate(CreateCancelled) => s.admission == ModelAcquired(mode)
    case Generate(Undo(_)) => s.admission == AdmissionUndo(mode)
    case Generate(ReleaseModel(task, _)) => InPhase(s, task, GenerationOver) && s.generations[task].mode == mode
    case Train(r, UndoSetup(_)) => r in s.trainings && s.trainings[r].phase == SetupUndo && s.trainings[r].mode == mode
    case Train(r, StopModel(_)) => r in s.trainings && s.trainings[r].phase == TrainingOver && s.trainings[r].mode == mode
    case _ => false
  }

  function LossOf(s: State, e: Event, mode: Mode): nat {
    if LosesAUse(s, e, mode) then 1 else 0
  }

  lemma AdmissionLoses(s: State, e: GenerateEvent, mode: Mode)
    requires s.up && !(e.Spawn? || e.SpawnFails? || e.RunEnds? || e.ReleaseModel? || e.Forget?)
    ensures Lost(ApplyAdmission(s, e), mode) == Lost(s, mode) + LossOf(s, Generate(e), mode)
  {
    hide Acquired, Released, NextAdmission;
  }

  lemma GenerationLoses(s: State, e: GenerateEvent, mode: Mode)
    requires s.up && (e.Spawn? || e.SpawnFails? || e.RunEnds? || e.ReleaseModel? || e.Forget?)
    ensures Lost(ApplyGeneration(s, e), mode) == Lost(s, mode) + LossOf(s, Generate(e), mode)
  {
    hide Released;
  }

  lemma SetupLoses(s: State, r: RequestId, e: TrainEvent, mode: Mode)
    requires s.up && r in s.trainings && !e.StopModel?
    ensures Lost(ApplySetup(s, r, s.trainings[r], e), mode) == Lost(s, mode) + LossOf(s, Train(r, e), mode)
  {
    hide Acquired, Released, SetupPhase;
  }

  lemma ClaimLoses(s: State, r: RequestId, e: TrainEvent)
    requires r in s.trainings
    ensures ApplyClaim(s, r, s.trainings[r], e).lost == s.lost
  {
    hide ClaimPhase;
  }

  lemma TrainingLoses(s: State, r: RequestId, e: TrainEvent, mode: Mode)
    requires s.up && r in s.trainings && !e.UndoSetup?
    ensures Lost(ApplyTraining(s, r, s.trainings[r], e), mode) == Lost(s, mode) + LossOf(s, Train(r, e), mode)
  {
    hide ReleasedAndStopped, CleanupPhase;
  }

  lemma OthersLoseNothing(s: State, redis: RedisEvent, route: RouteEvent)
    ensures redis != Die ==> ApplyRedis(s, redis).lost == s.lost
    ensures ApplyRoute(s, route).lost == s.lost
  {
  }

  lemma TrainLoses(s: State, r: RequestId, e: TrainEvent, mode: Mode)
    requires s.up
    ensures Lost(ApplyTrain(s, r, e), mode) == Lost(s, mode) + LossOf(s, Train(r, e), mode)
  {
    if r in s.trainings && !e.TrainEnter? {
      if !e.StopModel? {
        SetupLoses(s, r, e, mode);
      }
      ClaimLoses(s, r, e);
      if !e.UndoSetup? {
        TrainingLoses(s, r, e, mode);
      }
    }
    hide ApplySetup, ApplyClaim, ApplyTraining;
  }

  /** What every event loses of a mode: one use where the cancellation hits, everything with the worker's death,
      else nothing. */
  lemma EventLoses(s: State, e: Event, mode: Mode)
    ensures Lost(Apply(s, e), mode) == if e == Redis(Die) then 0 else Lost(s, mode) + LossOf(s, e, mode)
  {
    hide ApplyRedis, ApplyRoute, ApplyAdmission, ApplyGeneration, ApplyTrain, ApplyCache;
    match e
    case Redis(redis) =>
      DeathForgets(s);
      OthersLoseNothing(s, redis, LeaveAdmission);
    case Route(route) => OthersLoseNothing(s, Admit, route);
    case Generate(generate) =>
      if s.up {
        if generate.Spawn? || generate.SpawnFails? || generate.RunEnds? || generate.ReleaseModel? || generate.Forget? {
          GenerationLoses(s, generate, mode);
        } else {
          AdmissionLoses(s, generate, mode);
        }
      }
    case Train(r, train) =>
      if s.up {
        TrainLoses(s, r, train, mode);
      }
    case Cache(cache) =>
  }

  lemma DeathForgets(s: State)
    ensures ApplyRedis(s, Die).lost == map[]
  {
  }

  /** Since the worker last died no cancellation has lost a use of the mode. */
  ghost predicate NothingLost(events: seq<Event>, mode: Mode) {
    events == [] ||
    var before, last := events[..|events| - 1], events[|events| - 1];
    last == Redis(Die) || (NothingLost(before, mode) && !LosesAUse(Run(before), last, mode))
  }

  lemma {:induction false} NothingLostIsZero(events: seq<Event>, mode: Mode)
    ensures NothingLost(events, mode) <==> Lost(Run(events), mode) == 0
  {
    if events != [] {
      hide Apply, LosesAUse, Lost;
      NothingLostIsZero(events[..|events| - 1], mode);
      EventLoses(Run(events[..|events| - 1]), events[|events| - 1], mode);
    }
  }

  /** On every run a mode's use count is exactly the number of requests that hold it, if and only if since the
      worker last died no cancellation hit a holder of that mode in its task creation or its release. */
  lemma ExactUnlessLost(events: seq<Event>, mode: Mode)
    ensures Run(events).cache.Uses(mode) == Holders(Run(events), mode) <==> NothingLost(events, mode)
  {
    hide Run;
    UsesAreAccounted(events);
    NothingLostIsZero(events, mode);
  }

  lemma {:induction false} NoCancellationLosesNothing(events: seq<Event>, mode: Mode)
    requires forall e | e in events :: !IsLosing(e)
    ensures NothingLost(events, mode)
  {
    if events != [] {
      NoCancellationLosesNothing(events[..|events| - 1], mode);
    }
  }

  /** Without such cancellations each use count is exactly the number of its holders, however task creation,
      spawning, running and cleanup of generations and trainings end. */
  lemma CountsAreExact(events: seq<Event>)
    requires forall e | e in events :: !IsLosing(e)
    ensures forall mode :: Run(events).cache.Uses(mode) == Holders(Run(events), mode)
  {
    hide Run;
    forall mode ensures Run(events).cache.Uses(mode) == Holders(Run(events), mode) {
      NoCancellationLosesNothing(events, mode);
      ExactUnlessLost(events, mode);
    }
  }

  // ---------------------------------------------------------------- a lost use

  lemma ModeIsLoaded(mode: Mode) returns (events: seq<Event>, s: State)
    ensures Run(events) == s && Calm(events)
    ensures s == INITIAL.(up := true, cache := Table([mode], map[], {}))
  {
    events, s := [], INITIAL;
    assert Run(events) == s;
    hide Run;
    events, s := Next(events, s, Redis(Startup));
    assert [] <= Evictables(EMPTY_TABLE, []) && Minus([], []) + [mode] == [mode];
    events, s := Next(events, s, Cache(LoadMode(mode, [])));
  }

  lemma HoldIsAbsent(mode: Mode) returns (events: seq<Event>, s: State)
    ensures Run(events) == s && Calm(events)
    ensures s == INITIAL.(up := true, cache := Table([mode], map[], {}), admission := HoldAbsent(mode))
  {
    hide Run, ApplyRedis, ApplyRoute, ApplyTrain, ApplyCache, ApplyGeneration;
    events, s := ModeIsLoaded(mode);
    events, s := Next(events, s, Generate(GenerateEnter(mode)));
    events, s := Next(events, s, Generate(CheckHold));
  }

  lemma ModelIsAcquired(mode: Mode) returns (events: seq<Event>, s: State)
    ensures Run(events) == s && Calm(events) && s.up
    ensures s.admission == ModelAcquired(mode) && s.cache.inUse == map[mode := 1] && s.cache.loaded == [mode]
    ensures s.generations == map[] && s.trainings == map[]
  {
    hide Run, ApplyRedis, ApplyRoute, ApplyTrain, ApplyCache, ApplyGeneration;
    events, s := HoldIsAbsent(mode);
    assert Without([mode], mode) == [] by { assert [mode][..0] == []; }
    events, s := Next(events, s, Generate(AcquireModel));
  }

  /** A request cancelled while its task is created leaves a use that nobody holds: the mode can then no
      longer be evicted. */
  lemma CancelledCreationLosesAUse(mode: Mode)
    ensures exists events ::
              var s := Run(events);
              && Holders(s, mode) == 0 && s.cache.Uses(mode) == 1
              && ApplyCache(s.cache, EvictMode(mode)) == s.cache
  {
    hide Run;
    var events, s := ModelIsAcquired(mode);
    events, s := Next(events, s, Generate(CreateCancelled));
    assert GenerationUsers(s.generations, mode) == {} && TrainingUsers(s.trainings, mode) == {};
  }
}
