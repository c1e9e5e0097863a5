/**
 Whole requests of the worker protocol, however they end: refused, failed while their task is created or spawned,
 failed at any step of a training's setup, or run to the end. They leave behind nothing but the order of use, and a
 training that took its hold over the stopped model.
 */
module WorkerCycles {
  import opened Wrappers
  import opened ModelTables
  import opened WorkerProtocol

  /** Nobody holds or asks for the GPU, and the mode is loaded. */
  ghost predicate Idle(s: State, mode: Mode, task: TaskId) {
    && s.up && s.hold.None? && s.admission.AdmissionFree? && s.handover.HandoverFree?
    && s.cache.Valid() && mode in s.cache.loaded
    && task !in s.tasks && task !in s.generations && task !in s.generationTasks
  }

  function Entering(mode: Mode, task: TaskId): seq<Event> {
    [Generate(GenerateEnter(mode)), Generate(CheckHold), Generate(AcquireModel), Generate(CreateTask(task))]
  }

  function Finishing(task: TaskId): seq<Event> {
    [Generate(Spawn(task)), Generate(RunEnds(task)), Generate(ReleaseModel(task, false)), Generate(Forget(task))]
  }

  function NotSpawned(task: TaskId): seq<Event> {
    [Generate(SpawnFails(task)), Generate(ReleaseModel(task, false)), Generate(Forget(task))]
  }

  /** How a generate request ends. */
  datatype GenerationEnd = Refused | CreationFailed | SpawnFailed | Ran

  function GenerationEvents(mode: Mode, task: TaskId, end: GenerationEnd): seq<Event> {
    match end
    case Refused => [Generate(GenerateEnter(mode)), Generate(CheckHold), Generate(AcquireModel)]
    case CreationFailed =>
      [Generate(GenerateEnter(mode)), Generate(CheckHold), Generate(AcquireModel)]
      + [Generate(CreateFails)] + [Generate(Undo(false))]
    case SpawnFailed => Entering(mode, task) + NotSpawned(task)
    case Ran => Entering(mode, task) + Finishing(task)
  }

  /** A request behind the free lock is let in exactly when no hold is stored and its mode is loaded. */
  lemma RefusalLeavesNoTrace(s: State, mode: Mode)
    requires s.up && s.admission.AdmissionFree? && (s.hold.Some? || mode !in s.cache.loaded)
    ensures After(s, GenerationEvents(mode, 0, Refused)) == s
  {
    hide Acquired, Released;
    var entered := Apply(s, Generate(GenerateEnter(mode)));
    assert entered == s.(admission := Admitting(mode));
    var checked := Apply(entered, Generate(CheckHold));
    assert checked == if s.hold.Some? then s else s.(admission := HoldAbsent(mode));
    NotLoadedIsNotAcquired(s.cache, mode);
    assert Apply(checked, Generate(AcquireModel)) == s;
    Three(s, Generate(GenerateEnter(mode)), Generate(CheckHold), Generate(AcquireModel));
  }

  lemma NotLoadedIsNotAcquired(t: Table, mode: Mode)
    ensures mode !in t.loaded ==> Acquired(t, mode) == t
  {
  }

  lemma LockIsEntered(s: State, mode: Mode, task: TaskId)
    requires Idle(s, mode, task)
    ensures After(s, [Generate(GenerateEnter(mode)), Generate(CheckHold), Generate(AcquireModel)])
            == s.(admission := ModelAcquired(mode), cache := Acquired(s.cache, mode))
  {
    hide Acquired;
    var entered := Apply(s, Generate(GenerateEnter(mode)));
    assert entered == s.(admission := Admitting(mode));
    assert Apply(entered, Generate(CheckHold)) == s.(admission := HoldAbsent(mode));
    Three(s, Generate(GenerateEnter(mode)), Generate(CheckHold), Generate(AcquireModel));
  }

  lemma CreationIsUndone(s: State, mode: Mode)
    requires s.up && s.admission == ModelAcquired(mode)
    ensures After(s, [Generate(CreateFails)] + [Generate(Undo(false))])
            == s.(admission := AdmissionFree, cache := Released(s.cache, mode))
  {
    hide Released;
    var failed := Apply(s, Generate(CreateFails));
    assert failed == s.(admission := AdmissionUndo(mode));
    var undone := Apply(failed, Generate(Undo(false)));
    assert undone == s.(admission := AdmissionFree, cache := Released(s.cache, mode));
    hide Apply;
    OneMore(s, Generate(CreateFails), [Generate(Undo(false))]);
    OneMore(failed, Generate(Undo(false)), []);
    assert [Generate(Undo(false))] + [] == [Generate(Undo(false))];
  }

  lemma FailedCreationLeavesNoTrace(s: State, mode: Mode, task: TaskId)
    requires Idle(s, mode, task)
    ensures After(s, GenerationEvents(mode, task, CreationFailed)) == s.(cache := s.cache.(loaded := MoveToEnd(s.cache.loaded, mode)))
  {
    hide Apply, After, Acquired, Released, MoveToEnd;
    var entering := [Generate(GenerateEnter(mode)), Generate(CheckHold), Generate(AcquireModel)];
    var undoing := [Generate(CreateFails)] + [Generate(Undo(false))];
    assert GenerationEvents(mode, task, CreationFailed) == entering + undoing;
    AfterParts(s, entering, undoing);
    LockIsEntered(s, mode, task);
    CreationIsUndone(s.(admission := ModelAcquired(mode), cache := Acquired(s.cache, mode)), mode);
    ReleaseUndoesAcquire(s.cache, mode);
  }

  lemma TaskIsRegistered(s: State, mode: Mode, task: TaskId)
    requires Idle(s, mode, task)
    ensures After(s, Entering(mode, task))
            == s.(cache := Acquired(s.cache, mode), tasks := s.tasks + {task},
                  generationTasks := s.generationTasks + {task},
                  generations := s.generations[task := Generation(mode, Registered)])
  {
    hide Acquired;
    var entered := Apply(s, Generate(GenerateEnter(mode)));
    assert entered == s.(admission := Admitting(mode));
    var checked := Apply(entered, Generate(CheckHold));
    assert checked == s.(admission := HoldAbsent(mode));
    var acquired := Apply(checked, Generate(AcquireModel));
    assert acquired == s.(admission := ModelAcquired(mode), cache := Acquired(s.cache, mode));
    Four(s, Generate(GenerateEnter(mode)), Generate(CheckHold), Generate(AcquireModel), Generate(CreateTask(task)));
  }

  lemma OneMore(s: State, e: Event, rest: seq<Event>)
    ensures After(s, [e] + rest) == After(Apply(s, e), rest)
  {
    hide Apply;
    assert ([e] + rest)[1..] == rest;
  }

  lemma Three(s: State, a: Event, b: Event, c: Event)
    ensures After(s, [a, b, c]) == Apply(Apply(Apply(s, a), b), c)
  {
    hide Apply;
    OneMore(s, a, [b, c]);
    OneMore(Apply(s, a), b, [c]);
    OneMore(Apply(Apply(s, a), b), c, []);
    assert [a] + [b, c] == [a, b, c] && [b] + [c] == [b, c] && [c] + [] == [c];
  }

  lemma Four(s: State, a: Event, b: Event, c: Event, d: Event)
    ensures After(s, [a, b, c, d]) == Apply(Apply(Apply(Apply(s, a), b), c), d)
  {
    hide Apply;
    OneMore(s, a, [b, c, d]);
    Three(Apply(s, a), b, c, d);
    assert [a] + [b, c, d] == [a, b, c, d];
  }

  /** Whether the task is spawned and runs, or spawning it fails, its cleanup is the same. */
  lemma TaskIsForgotten(s: State, mode: Mode, task: TaskId)
    requires s.up && s.admission.AdmissionFree? && task in s.generations && s.generations[task] == Generation(mode, Registered)
    ensures After(s, Finishing(task)) == After(s, NotSpawned(task))
            == s.(cache := Released(s.cache, mode), generationTasks := s.generationTasks - {task},
                  generations := s.generations - {task})
  {
    hide Released, ApplyAdmission, ApplyRoute, ApplyTrain, ApplyRedis, ApplyCache;
    var spawned := Apply(s, Generate(Spawn(task)));
    PhaseSteps(s, mode, task);
    assert spawned == InThePhase(s, mode, task, Generating);
    var over := Apply(spawned, Generate(RunEnds(task)));
    assert over == InThePhase(s, mode, task, GenerationOver);
    var released := Apply(over, Generate(ReleaseModel(task, false)));
    assert released == InThePhase(s, mode, task, GenerationReleased).(cache := Released(s.cache, mode));
    assert Apply(s, Generate(SpawnFails(task))) == over;
    hide Apply;
    Four(s, Generate(Spawn(task)), Generate(RunEnds(task)), Generate(ReleaseModel(task, false)), Generate(Forget(task)));
    Three(s, Generate(SpawnFails(task)), Generate(ReleaseModel(task, false)), Generate(Forget(task)));
    GenerationIsForgotten(s, released, mode, task);
  }

  function InThePhase(s: State, mode: Mode, task: TaskId, phase: GenerationPhase): State {
    s.(generations := s.generations[task := Generation(mode, phase)])
  }

  lemma PhaseSteps(s: State, mode: Mode, task: TaskId)
    requires s.up && task in s.generations && s.generations[task] == Generation(mode, Registered)
    ensures ApplyGeneration(s, Spawn(task)) == InThePhase(s, mode, task, Generating)
    ensures ApplyGeneration(s, SpawnFails(task)) == InThePhase(s, mode, task, GenerationOver)
    ensures ApplyGeneration(InThePhase(s, mode, task, Generating), RunEnds(task)) == InThePhase(s, mode, task, GenerationOver)
    ensures ApplyGeneration(InThePhase(s, mode, task, GenerationOver), ReleaseModel(task, false))
            == InThePhase(s, mode, task, GenerationReleased).(cache := Released(s.cache, mode))
  {
    hide Released;
    OverwrittenTwice(s.generations, task, Generation(mode, Generating), Generation(mode, GenerationOver));
    OverwrittenTwice(s.generations, task, Generation(mode, GenerationOver), Generation(mode, GenerationReleased));
  }

  lemma OverwrittenTwice<K, V>(m: map<K, V>, key: K, first: V, second: V)
    ensures m[key := first][key := second] == m[key := second]
    ensures m[key := first] - {key} == m - {key}
  {
  }

  lemma GenerationIsForgotten(s: State, released: State, mode: Mode, task: TaskId)
    requires s.up && s.admission.AdmissionFree?
    requires released == InThePhase(s, mode, task, GenerationReleased).(cache := Released(s.cache, mode))
    ensures Apply(released, Generate(Forget(task)))
            == s.(cache := Released(s.cache, mode), generationTasks := s.generationTasks - {task},
                  generations := s.generations - {task})
  {
    hide Released;
    OverwrittenTwice(s.generations, task, Generation(mode, GenerationReleased), Generation(mode, GenerationReleased));
  }

  lemma ReleaseUndoesAcquire(t: Table, mode: Mode)
    requires t.Valid() && mode in t.loaded
    ensures Released(Acquired(t, mode), mode) == t.(loaded := MoveToEnd(t.loaded, mode))
  {
    hide MoveToEnd;
    var acquired := Acquired(t, mode);
    if mode in t.inUse {
      assert acquired.inUse[mode := t.inUse[mode]] == t.inUse;
    } else {
      assert acquired.inUse - {mode} == t.inUse;
    }
  }

  /** However a generate request ends, it gives back its use and its registration: a refused one changes nothing,
      any other leaves its mode the most recently used, and its task id, if it got one, used up. */
  lemma GenerationLeavesNoTrace(s: State, mode: Mode, task: TaskId, end: GenerationEnd)
    requires if end.Refused? then s.up && s.admission.AdmissionFree? && (s.hold.Some? || mode !in s.cache.loaded) else Idle(s, mode, task)
    ensures After(s, GenerationEvents(mode, task, end))
            == if end.Refused? then s
               else s.(cache := s.cache.(loaded := MoveToEnd(s.cache.loaded, mode)),
                       tasks := if end.CreationFailed? then s.tasks else s.tasks + {task})
  {
    hide Apply, Acquired, Released, MoveToEnd, After;
    match end
    case Refused => RefusalLeavesNoTrace(s, mode);
    case CreationFailed => FailedCreationLeavesNoTrace(s, mode, task);
    case _ =>
      AfterParts(s, Entering(mode, task), if end.Ran? then Finishing(task) else NotSpawned(task));
      TaskIsRegistered(s, mode, task);
      TaskIsForgotten(After(s, Entering(mode, task)), mode, task);
      ReleaseUndoesAcquire(s.cache, mode);
      assert s.generations[task := Generation(mode, Registered)] - {task} == s.generations;
      assert s.generationTasks + {task} - {task} == s.generationTasks;
  }

  // ---------------------------------------------------------------- a training

  function ReservingHold(token: Token): seq<Event> {
    [Route(ReserveEnter(token)), Route(ReserveScript), Route(LeaveAdmission)]
  }

  function SettingUp(r: RequestId, mode: Mode, token: Token): seq<Event> {
    [Train(r, TrainEnter(mode, token)), Train(r, TrainAcquire), Train(r, TrainRenew)]
  }

  function HandingOver(r: RequestId, task: TaskId): seq<Event> {
    [Train(r, ClaimEnter), Train(r, ClaimMatch), Train(r, ClaimCreate(task))]
  }

  /** The task is spawned, or spawning it fails. */
  function Spawning(r: RequestId, spawns: bool): seq<Event> {
    if spawns then [Train(r, TrainSpawn)] else []
  }

  function CleaningUp(r: RequestId): seq<Event> {
    [Train(r, TrainEnds), Train(r, StopModel(false)), Train(r, ReturnHold(false)), Train(r, DropHandover)]
  }

  /** No generation is registered or queued, and the token and the request are new. */
  ghost predicate Quiet(s: State, token: Token, r: RequestId) {
    && s.generationTasks == {} && s.depth <= 0
    && token !in s.issued && token !in s.handoverTokens && token !in s.handoverTasks && r !in s.trainings
  }

  lemma HoldIsReserved(s: State, mode: Mode, task: TaskId, token: Token, r: RequestId)
    requires Idle(s, mode, task) && Quiet(s, token, r)
    ensures After(s, ReservingHold(token))
            == s.(hold := Some(Hold(token, HOLD_TTL_SECONDS)), issued := s.issued + {token})
  {
    var entered := Apply(s, Route(ReserveEnter(token)));
    assert entered == s.(admission := Reserving(token), issued := s.issued + {token});
    Three(s, Route(ReserveEnter(token)), Route(ReserveScript), Route(LeaveAdmission));
  }

  function WithRun(s: State, r: RequestId, run: TrainingRun): State {
    s.(trainings := s.trainings[r := run])
  }

  lemma SetupSteps(s: State, r: RequestId, mode: Mode, token: Token)
    requires s.up && HeldBy(s, token) && mode in s.cache.loaded && r !in s.trainings
    requires s.hold == Some(Hold(token, HOLD_TTL_SECONDS))
    ensures var entered := WithRun(s, r, TrainingRun(mode, token, Entered, 0)).(presented := s.presented + {token});
            var acquired := WithRun(entered, r, TrainingRun(mode, token, HoldsModel, 0)).(cache := Acquired(s.cache, mode));
            && Apply(s, Train(r, TrainEnter(mode, token))) == entered
            && Apply(entered, Train(r, TrainAcquire)) == acquired
            && Apply(acquired, Train(r, TrainRenew)) == WithRun(acquired, r, TrainingRun(mode, token, Renewed, 0))
  {
    hide Acquired;
  }

  lemma TrainingIsReady(s: State, r: RequestId, mode: Mode, token: Token)
    requires s.up && mode in s.cache.loaded && r !in s.trainings && s.hold == Some(Hold(token, HOLD_TTL_SECONDS))
    ensures After(s, SettingUp(r, mode, token))
            == WithRun(s, r, TrainingRun(mode, token, Renewed, 0)).(presented := s.presented + {token}, cache := Acquired(s.cache, mode))
  {
    hide Apply, Acquired;
    SetupSteps(s, r, mode, token);
    Three(s, Train(r, TrainEnter(mode, token)), Train(r, TrainAcquire), Train(r, TrainRenew));
    OverwrittenTwice(s.trainings, r, TrainingRun(mode, token, Entered, 0), TrainingRun(mode, token, HoldsModel, 0));
    OverwrittenTwice(s.trainings, r, TrainingRun(mode, token, HoldsModel, 0), TrainingRun(mode, token, Renewed, 0));
  }

  function Recorded(s: State, token: Token, task: TaskId): State {
    s.(tasks := s.tasks + {task}, handoverTokens := s.handoverTokens + {token}, handoverTasks := s.handoverTasks[token := task])
  }

  lemma ClaimSteps(s: State, r: RequestId, mode: Mode, token: Token, task: TaskId)
    requires s.up && s.handover.HandoverFree? && HeldBy(s, token) && token !in s.handoverTokens && task !in s.tasks
    requires r in s.trainings && s.trainings[r] == TrainingRun(mode, token, Renewed, 0)
    ensures var locked := WithRun(s, r, TrainingRun(mode, token, ClaimLocked, 0)).(handover := Claiming(r));
            var matched := WithRun(s, r, TrainingRun(mode, token, ClaimMatched, 0)).(handover := Claiming(r));
            && ApplyClaim(s, r, s.trainings[r], ClaimEnter) == locked
            && ApplyClaim(locked, r, locked.trainings[r], ClaimMatch) == matched
            && ApplyClaim(matched, r, matched.trainings[r], ClaimCreate(task))
               == WithRun(Recorded(s, token, task), r, TrainingRun(mode, token, Owned, task))
  {
    OverwrittenTwice(s.trainings, r, TrainingRun(mode, token, ClaimLocked, 0), TrainingRun(mode, token, ClaimMatched, 0));
    OverwrittenTwice(s.trainings, r, TrainingRun(mode, token, ClaimMatched, 0), TrainingRun(mode, token, Owned, task));
  }

  lemma TokenIsHandedOver(s: State, r: RequestId, mode: Mode, token: Token, task: TaskId)
    requires s.up && s.handover.HandoverFree? && HeldBy(s, token) && token !in s.handoverTokens && task !in s.tasks
    requires r in s.trainings && s.trainings[r] == TrainingRun(mode, token, Renewed, 0)
    ensures After(s, HandingOver(r, task)) == WithRun(Recorded(s, token, task), r, TrainingRun(mode, token, Owned, task))
  {
    hide ApplyClaim, ApplySetup, ApplyGenerate, ApplyRoute, ApplyRedis, ApplyCache, CleanupEffect, HeldBy;
    ClaimSteps(s, r, mode, token, task);
    Three(s, Train(r, ClaimEnter), Train(r, ClaimMatch), Train(r, ClaimCreate(task)));
  }

  function Spawned(spawns: bool): TrainingPhase {
    if spawns then Training else Owned
  }

  lemma TrainingIsSpawned(s: State, r: RequestId, run: TrainingRun, spawns: bool)
    requires s.up && r in s.trainings && s.trainings[r] == run && run.phase == Owned
    ensures After(s, Spawning(r, spawns)) == WithRun(s, r, run.(phase := Spawned(spawns)))
  {
    if spawns {
      hide ApplyClaim, ApplySetup, ApplyGenerate, ApplyRoute, ApplyRedis, ApplyCache, CleanupEffect;
      SpawnHasNoEffect(s, run);
      OneMore(s, Train(r, TrainSpawn), []);
      assert [Train(r, TrainSpawn)] + [] == [Train(r, TrainSpawn)];
    } else {
      assert s.trainings[r := run] == s.trainings;
    }
  }

  lemma CleanupSteps(s: State, r: RequestId, mode: Mode, token: Token, task: TaskId, spawns: bool)
    requires HeldBy(s, token) && s.handover.HandoverFree?
    requires r in s.trainings && s.trainings[r] == TrainingRun(mode, token, Spawned(spawns), task)
    ensures var over := WithRun(s, r, TrainingRun(mode, token, TrainingOver, task));
            var stopped := WithRun(s, r, TrainingRun(mode, token, ModelStopped, task)).(cache := ReleasedAndStopped(s.cache, mode));
            var returned := WithRun(stopped, r, TrainingRun(mode, token, HoldReturned, task)).(hold := None);
            && ApplyTraining(s, r, s.trainings[r], TrainEnds) == over
            && ApplyTraining(over, r, over.trainings[r], StopModel(false)) == stopped
            && ApplyTraining(stopped, r, stopped.trainings[r], ReturnHold(false)) == returned
            && ApplyTraining(returned, r, returned.trainings[r], DropHandover)
               == s.(cache := ReleasedAndStopped(s.cache, mode), hold := None, trainings := s.trainings - {r},
                     handoverTokens := s.handoverTokens - {token}, handoverTasks := s.handoverTasks - {token})
  {
    hide ReleasedAndStopped;
    OverwrittenTwice(s.trainings, r, TrainingRun(mode, token, TrainingOver, task), TrainingRun(mode, token, ModelStopped, task));
    OverwrittenTwice(s.trainings, r, TrainingRun(mode, token, ModelStopped, task), TrainingRun(mode, token, HoldReturned, task));
    OverwrittenTwice(s.trainings, r, TrainingRun(mode, token, HoldReturned, task), TrainingRun(mode, token, HoldReturned, task));
  }

  lemma HoldIsReturned(s: State, r: RequestId, mode: Mode, token: Token, task: TaskId, spawns: bool)
    requires s.up && s.handover.HandoverFree? && HeldBy(s, token)
    requires r in s.trainings && s.trainings[r] == TrainingRun(mode, token, Spawned(spawns), task)
    ensures After(s, CleaningUp(r))
            == s.(cache := ReleasedAndStopped(s.cache, mode), hold := None, trainings := s.trainings - {r},
                  handoverTokens := s.handoverTokens - {token}, handoverTasks := s.handoverTasks - {token})
  {
    hide ApplyTraining, ApplySetup, ApplyClaim, ApplyGenerate, ApplyRoute, ApplyRedis, ApplyCache, HeldBy, ReleasedAndStopped;
    CleanupSteps(s, r, mode, token, task, spawns);
    Four(s, Train(r, TrainEnds), Train(r, StopModel(false)), Train(r, ReturnHold(false)), Train(r, DropHandover));
  }

  /** A training that takes its reserved hold over, whether spawning it fails or it runs, gives the hold and its
      records back. Its mode is stopped if it was the last to use it, and every use count is what it was. */
  lemma TrainingLeavesNoTrace(s: State, mode: Mode, task: TaskId, token: Token, r: RequestId, spawns: bool)
    requires Idle(s, mode, task) && Quiet(s, token, r)
    ensures var events := ReservingHold(token) + SettingUp(r, mode, token) + HandingOver(r, task) + Spawning(r, spawns) + CleaningUp(r);
            After(s, events)
            == s.(issued := s.issued + {token}, presented := s.presented + {token}, tasks := s.tasks + {task},
                  cache := s.cache.(loaded := if mode in s.cache.inUse then MoveToEnd(s.cache.loaded, mode)
                                              else Without(s.cache.loaded, mode)))
  {
    hide Apply, After, Acquired, ReleasedAndStopped, MoveToEnd;
    var setUp := ReservingHold(token) + SettingUp(r, mode, token) + HandingOver(r, task);
    AfterParts(s, setUp + Spawning(r, spawns), CleaningUp(r));
    AfterParts(s, setUp, Spawning(r, spawns));
    var owning := OwningState(s, mode, task, token, r);
    TrainingTakesOver(s, mode, task, token, r);
    TrainingIsSpawned(owning, r, TrainingRun(mode, token, Owned, task), spawns);
    var spawned := WithRun(owning, r, TrainingRun(mode, token, Spawned(spawns), task));
    HoldIsReturned(spawned, r, mode, token, task, spawns);
    StopUndoesAcquire(s.cache, mode);
    OverwrittenTwice(s.trainings, r, TrainingRun(mode, token, Owned, task), TrainingRun(mode, token, Spawned(spawns), task));
    assert s.trainings[r := TrainingRun(mode, token, Spawned(spawns), task)] - {r} == s.trainings;
    assert s.handoverTokens + {token} - {token} == s.handoverTokens;
    assert s.handoverTasks[token := task] - {token} == s.handoverTasks;
  }

  /** The training holds the model and owns the hold. */
  function OwningState(s: State, mode: Mode, task: TaskId, token: Token, r: RequestId): State {
    WithRun(Recorded(s, token, task), r, TrainingRun(mode, token, Owned, task))
    .(hold := Some(Hold(token, HOLD_TTL_SECONDS)), issued := s.issued + {token}, presented := s.presented + {token},
    cache := Acquired(s.cache, mode))
  }

  lemma TrainingTakesOver(s: State, mode: Mode, task: TaskId, token: Token, r: RequestId)
    requires Idle(s, mode, task) && Quiet(s, token, r)
    ensures After(s, ReservingHold(token) + SettingUp(r, mode, token) + HandingOver(r, task)) == OwningState(s, mode, task, token, r)
  {
    hide Apply, After, Acquired;
    AfterParts(s, ReservingHold(token) + SettingUp(r, mode, token), HandingOver(r, task));
    AfterParts(s, ReservingHold(token), SettingUp(r, mode, token));
    HoldIsReserved(s, mode, task, token, r);
    var reserved := s.(hold := Some(Hold(token, HOLD_TTL_SECONDS)), issued := s.issued + {token});
    TrainingIsReady(reserved, r, mode, token);
    var ready := WithRun(reserved, r, TrainingRun(mode, token, Renewed, 0)).(presented := s.presented + {token}, cache := Acquired(s.cache, mode));
    TokenIsHandedOver(ready, r, mode, token, task);
    OverwrittenTwice(s.trainings, r, TrainingRun(mode, token, Renewed, 0), TrainingRun(mode, token, Owned, task));
  }

  // ---------------------------------------------------------------- a setup that fails

  /** At this step the setup of the run fails: it raises or is cancelled, its renewal is refused, or its claim is. */
  predicate FailsAt(s: State, r: RequestId, step: TrainEvent) {
    && r in s.trainings && s.trainings[r].phase in {HoldsModel, Renewed, ClaimLocked, ClaimMatched}
    && step in {SetupFails, TrainRenew, ClaimEnter, ClaimMatch}
    && Apply(s, Train(r, step)) == Undoing(s, r)
  }

  /** The run is on its way back, outside the handover lock. */
  function Undoing(s: State, r: RequestId): State
    requires r in s.trainings
  {
    WithRun(s, r, s.trainings[r].(phase := SetupUndo)).(handover := if s.trainings[r].InsideLock() then HandoverFree else s.handover)
  }

  /** It raises or is cancelled, its hold is gone, or its token is recorded already. */
  predicate Breaks(s: State, r: RequestId, step: TrainEvent)
    requires r in s.trainings
  {
    match step
    case SetupFails => true
    case TrainRenew => s.trainings[r].phase == HoldsModel && !HeldBy(s, s.trainings[r].token)
    case ClaimEnter => s.trainings[r].phase == Renewed && s.trainings[r].token in s.handoverTokens
    case ClaimMatch => s.trainings[r].phase == ClaimLocked && !HeldBy(s, s.trainings[r].token)
    case _ => false
  }

  /** With the handover lock free, or its own, a setup fails at a step exactly when the step breaks. */
  lemma WhenSetupFails(s: State, r: RequestId, step: TrainEvent)
    requires s.up && r in s.trainings && s.trainings[r].phase in {HoldsModel, Renewed, ClaimLocked, ClaimMatched}
    requires s.handover.HandoverFree? || s.trainings[r].InsideLock()
    requires step in {SetupFails, TrainRenew, ClaimEnter, ClaimMatch}
    ensures FailsAt(s, r, step) <==> Breaks(s, r, step)
  {
    hide ApplyGenerate, ApplyRoute, ApplyRedis, ApplyCache, ApplyTraining;
    var s' := Apply(s, Train(r, step));
    assert r in s'.trainings && (s'.trainings[r].phase == SetupUndo <==> Breaks(s, r, step));
    if Breaks(s, r, step) {
      assert s' == Undoing(s, r);
    }
  }

  /** Wherever the setup of a training fails, the way back gives back its one use, leaves the lock and forgets the
      request; the hold stays its caller's. The token's handover record goes too. */
  lemma FailedSetupIsUndone(s: State, r: RequestId, step: TrainEvent)
    requires s.up && FailsAt(s, r, step) && (s.handover.HandoverFree? || s.trainings[r].InsideLock())
    ensures var run := s.trainings[r];
            After(s, [Train(r, step), Train(r, UndoSetup(false)), Train(r, DropHandover)])
            == s.(cache := Released(s.cache, run.mode), trainings := s.trainings - {r}, handover := HandoverFree,
                  handoverTokens := s.handoverTokens - {run.token}, handoverTasks := s.handoverTasks - {run.token})
  {
    var undoing := Undoing(s, r);
    BackFromUndoing(undoing, r);
    OverwrittenTwice(s.trainings, r, s.trainings[r].(phase := SetupUndo), s.trainings[r]);
    hide Apply;
    Three(s, Train(r, step), Train(r, UndoSetup(false)), Train(r, DropHandover));
  }

  lemma BackFromUndoing(s: State, r: RequestId)
    requires s.up && r in s.trainings && s.trainings[r].phase == SetupUndo && s.handover.HandoverFree?
    ensures var run := s.trainings[r];
            Apply(Apply(s, Train(r, UndoSetup(false))), Train(r, DropHandover))
            == s.(cache := Released(s.cache, run.mode), trainings := s.trainings - {r},
                  handoverTokens := s.handoverTokens - {run.token}, handoverTasks := s.handoverTasks - {run.token})
  {
    hide Released, ApplyClaim, ApplyGenerate, ApplyRoute, ApplyRedis, ApplyCache;
    var run := s.trainings[r];
    var dropping := Apply(s, Train(r, UndoSetup(false)));
    assert dropping == WithRun(s, r, run.(phase := Dropping)).(cache := Released(s.cache, run.mode));
    OverwrittenTwice(s.trainings, r, run.(phase := Dropping), run);
  }

  lemma StopUndoesAcquire(t: Table, mode: Mode)
    requires t.Valid() && mode in t.loaded
    ensures ReleasedAndStopped(Acquired(t, mode), mode)
            == t.(loaded := if mode in t.inUse then MoveToEnd(t.loaded, mode) else Without(t.loaded, mode))
  {
    ReleaseUndoesAcquire(t, mode);
    if mode !in t.inUse {
      MovedThenLeft(t.loaded, mode);
    }
  }

  lemma MovedThenLeft(loaded: seq<Mode>, mode: Mode)
    ensures Without(MoveToEnd(loaded, mode), mode) == Without(loaded, mode)
  {
    var rest := Without(loaded, mode);
    assert (rest + [mode])[..|rest|] == rest;
    NothingToLeave(rest, mode);
  }

  lemma {:induction false} NothingToLeave(loaded: seq<Mode>, mode: Mode)
    requires mode !in loaded
    ensures Without(loaded, mode) == loaded
  {
    if loaded != [] {
      NothingToLeave(loaded[..|loaded| - 1], mode);
      assert loaded == loaded[..|loaded| - 1] + [loaded[|loaded| - 1]];
    }
  }
}
