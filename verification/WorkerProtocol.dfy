/**
 The worker's admission protocol: generations and a LoRA training exclude each other through a hold
 key in Redis, the web's queue depth and two locks in the worker.

 One event is what runs between two suspension points, or one Redis script. Events of different
 requests interleave freely; an event that is not enabled changes nothing. Time passes, keys expire,
 requests fail or are cancelled, and the worker dies and starts again at any moment.
 */
module WorkerProtocol {
  import opened Wrappers
  import opened ModelTables

  type Token = nat
  type TaskId = nat
  type RequestId = nat

  const HOLD_TTL_SECONDS: nat := 15

  /** The hold key: who holds the GPU, and for how many more seconds. */
  datatype Hold = Hold(token: Token, ttl: nat)

  /** Who is inside the admission lock, and how far it got. */
  datatype AdmissionLock =
    | AdmissionFree
    | Reserving(token: Token)
    | ReserveAnswered
    | Admitting(mode: Mode)
    | HoldAbsent(mode: Mode)
    | ModelAcquired(mode: Mode)
    | AdmissionUndo(mode: Mode)

  datatype HandoverLock = HandoverFree | GivingBack(token: Token) | GaveAnswer | Claiming(request: RequestId)

  datatype GenerationPhase = Registered | Generating | GenerationOver | GenerationReleased

  datatype Generation = Generation(mode: Mode, phase: GenerationPhase)

  datatype TrainingPhase =
    | Entered | HoldsModel | Renewed | ClaimLocked | ClaimMatched  // set up, step by step
    | SetupUndo | Dropping                                         // set up failed
    | Owned | Training | TrainingOver | ModelStopped | HoldReturned // handed over

  datatype TrainingRun = TrainingRun(mode: Mode, token: Token, phase: TrainingPhase, task: TaskId) {
    predicate HasModel() {
      phase !in {Entered, Dropping, ModelStopped, HoldReturned}
    }

    /** The token was handed over to this run and its record is not dropped yet. */
    predicate Owns() {
      phase in {Owned, Training, TrainingOver, ModelStopped, HoldReturned}
    }

    predicate InsideLock() {
      phase in {ClaimLocked, ClaimMatched}
    }
  }

  datatype State = State(
    // in Redis
    hold: Option<Hold>,
    depth: int,
    // in the worker's memory
    up: bool,
    admission: AdmissionLock,
    handover: HandoverLock,
    generationTasks: set<TaskId>,
    handoverTokens: set<Token>,
    handoverTasks: map<Token, TaskId>,
    cache: Table,
    // the requests under way
    generations: map<TaskId, Generation>,
    trainings: map<RequestId, TrainingRun>,
    // history: used task ids, issued tokens, tokens presented to train_lora, uses lost to a cancellation
    tasks: set<TaskId>,
    issued: set<Token>,
    presented: set<Token>,
    lost: map<Mode, nat>
  )

  const EMPTY_TABLE: Table := Table([], map[], {})

  const INITIAL: State :=
    State(None, 0, false, AdmissionFree, HandoverFree, {}, {}, map[], EMPTY_TABLE, map[], map[], {}, {}, {}, map[])

  datatype Event =
    | Redis(redis: RedisEvent)
    | Route(route: RouteEvent)
    | Generate(generate: GenerateEvent)
    | Train(request: RequestId, train: TrainEvent)
    | Cache(cache: CacheEvent)

  /** The web process's counter, time, and the worker's life. */
  datatype RedisEvent = Admit | Finished | Elapse(seconds: nat) | Die | Startup

  datatype RouteEvent =
    | ReserveEnter(token: Token) | ReserveScript | LeaveAdmission
    | RenewScript(token: Token)
    | ReleaseEnter(token: Token) | ReleaseScript | LeaveHandover

  datatype GenerateEvent =
    | GenerateEnter(mode: Mode) | CheckHold | AcquireModel
    | CreateTask(task: TaskId) | CreateFails | CreateCancelled | Undo(cancelled: bool)
    | Spawn(task: TaskId) | SpawnFails(task: TaskId) | RunEnds(task: TaskId)
    | ReleaseModel(task: TaskId, cancelled: bool) | Forget(task: TaskId)

  datatype TrainEvent =
    | TrainEnter(mode: Mode, token: Token) | TrainAcquire | TrainRenew | SetupFails
    | ClaimEnter | ClaimMatch | ClaimCreate(task: TaskId)
    | UndoSetup(cancelled: bool) | TrainSpawn | TrainEnds
    | StopModel(cancelled: bool) | ReturnHold(fails: bool) | DropHandover

  datatype CacheEvent = LoadMode(mode: Mode, victims: seq<Mode>) | EvictMode(mode: Mode) | PinMode(mode: Mode) | UnpinMode(mode: Mode)

  // ---------------------------------------------------------------- the Redis scripts

  function Reserve(s: State, token: Token): State {
    if s.hold.Some? || s.depth > 0 then s else s.(hold := Some(Hold(token, HOLD_TTL_SECONDS)))
  }

  predicate HeldBy(s: State, token: Token) {
    s.hold.Some? && s.hold.value.token == token
  }

  function Renewal(s: State, token: Token): State {
    if HeldBy(s, token) then s.(hold := Some(Hold(token, HOLD_TTL_SECONDS))) else s
  }

  function GiveBack(s: State, token: Token): State {
    if HeldBy(s, token) then s.(hold := None) else s
  }

  // ---------------------------------------------------------------- events

  function Apply(s: State, e: Event): State {
    match e
    case Redis(redis) => ApplyRedis(s, redis)
    case Route(route) => if s.up then ApplyRoute(s, route) else s
    case Generate(generate) => if s.up then ApplyGenerate(s, generate) else s
    case Train(request, train) => if s.up then ApplyTrain(s, request, train) else s
    case Cache(cache) => s.(cache := ApplyCache(s.cache, cache))
  }

  function ApplyRedis(s: State, e: RedisEvent): State {
    match e
    case Admit => if s.hold.Some? then s else s.(depth := s.depth + 1)
    case Finished => s.(depth := s.depth - 1)
    case Elapse(seconds) =>
      if s.hold.None? then s
      else if s.hold.value.ttl <= seconds then s.(hold := None)
      else s.(hold := Some(Hold(s.hold.value.token, s.hold.value.ttl - seconds)))
    case Die =>
      s.(up := false, admission := AdmissionFree, handover := HandoverFree, generationTasks := {},
      handoverTokens := {}, handoverTasks := map[], cache := EMPTY_TABLE, generations := map[],
      trainings := map[], lost := map[])
    case Startup => if s.up then s else s.(up := true, hold := None, depth := 0)
  }

  function ApplyRoute(s: State, e: RouteEvent): State {
    match e
    case ReserveEnter(token) =>
      if s.admission.AdmissionFree? && token !in s.issued && s.generationTasks == {}
      then s.(admission := Reserving(token), issued := s.issued + {token}) else s
    case ReserveScript =>
      if s.admission.Reserving? then Reserve(s, s.admission.token).(admission := ReserveAnswered) else s
    case LeaveAdmission =>
      if s.admission.Reserving? || s.admission.ReserveAnswered? || s.admission.Admitting? || s.admission.HoldAbsent?
      then s.(admission := AdmissionFree) else s
    case RenewScript(token) => Renewal(s, token)
    case ReleaseEnter(token) =>
      if s.handover.HandoverFree? && token !in s.handoverTokens then s.(handover := GivingBack(token)) else s
    case ReleaseScript =>
      if s.handover.GivingBack? then GiveBack(s, s.handover.token).(handover := GaveAnswer) else s
    case LeaveHandover =>
      if s.handover.GivingBack? || s.handover.GaveAnswer? then s.(handover := HandoverFree) else s
  }

  function Lose(s: State, mode: Mode): State {
    s.(lost := s.lost[mode := Lost(s, mode) + 1])
  }

  function LostIn(lost: map<Mode, nat>, mode: Mode): nat {
    if mode in lost then lost[mode] else 0
  }

  function Lost(s: State, mode: Mode): nat {
    LostIn(s.lost, mode)
  }

  /** Release a use, unless a cancellation lands in the release. */
  function EndUse(s: State, mode: Mode, cancelled: bool): State {
    if cancelled then Lose(s, mode) else s.(cache := Released(s.cache, mode))
  }

  predicate InPhase(s: State, task: TaskId, phase: GenerationPhase) {
    task in s.generations && s.generations[task].phase == phase
  }

  function ToPhase(s: State, task: TaskId, phase: GenerationPhase): State
    requires task in s.generations
  {
    s.(generations := s.generations[task := s.generations[task].(phase := phase)])
  }

  function ApplyGenerate(s: State, e: GenerateEvent): State {
    if e.Spawn? || e.SpawnFails? || e.RunEnds? || e.ReleaseModel? || e.Forget? then ApplyGeneration(s, e)
    else ApplyAdmission(s, e)
  }

  /** Where a generate request inside the admission lock gets to. */
  function NextAdmission(lock: AdmissionLock, e: GenerateEvent, held: bool, loaded: bool): AdmissionLock {
    match e
    case GenerateEnter(mode) => if lock.AdmissionFree? then Admitting(mode) else lock
    case CheckHold => if !lock.Admitting? then lock else if held then AdmissionFree else HoldAbsent(lock.mode)
    case AcquireModel => if !lock.HoldAbsent? then lock else if loaded then ModelAcquired(lock.mode) else AdmissionFree
    case CreateFails => if lock.ModelAcquired? then AdmissionUndo(lock.mode) else lock
    // A cancellation is not an `Exception`: the lock is left, the use is not released.
    case CreateCancelled => if lock.ModelAcquired? then AdmissionFree else lock
    case Undo(cancelled) => if lock.AdmissionUndo? then AdmissionFree else lock
    case _ => lock
  }

  /** What it does to the uses of its mode. */
  function AdmissionUses(s: State, e: GenerateEvent): (Table, map<Mode, nat>) {
    match e
    case AcquireModel =>
      (if s.admission.HoldAbsent? then Acquired(s.cache, s.admission.mode) else s.cache, s.lost)
    case CreateCancelled =>
      (s.cache, if s.admission.ModelAcquired? then Lose(s, s.admission.mode).lost else s.lost)
    case Undo(cancelled) =>
      if s.admission.AdmissionUndo? then
        var s' := EndUse(s, s.admission.mode, cancelled);
        (s'.cache, s'.lost)
      else (s.cache, s.lost)
    case _ => (s.cache, s.lost)
  }

  predicate Creates(s: State, e: GenerateEvent) {
    e.CreateTask? && s.admission.ModelAcquired? && e.task !in s.tasks
  }

  /** A request inside the admission lock, up to its registered task. */
  function ApplyAdmission(s: State, e: GenerateEvent): State {
    if Creates(s, e) then
      s.(tasks := s.tasks + {e.task}, generationTasks := s.generationTasks + {e.task},
      generations := s.generations[e.task := Generation(s.admission.mode, Registered)], admission := AdmissionFree)
    else
      var loaded := s.admission.HoldAbsent? && s.admission.mode in s.cache.loaded;
      var (cache, lost) := AdmissionUses(s, e);
      s.(admission := NextAdmission(s.admission, e, s.hold.Some?, loaded), cache := cache, lost := lost)
  }

  /** A registered generation's task, from its start to its cleanup. */
  function ApplyGeneration(s: State, e: GenerateEvent): State {
    match e
    case Spawn(task) => if InPhase(s, task, Registered) then ToPhase(s, task, Generating) else s
    case SpawnFails(task) => if InPhase(s, task, Registered) then ToPhase(s, task, GenerationOver) else s
    case RunEnds(task) => if InPhase(s, task, Generating) then ToPhase(s, task, GenerationOver) else s
    case ReleaseModel(task, cancelled) =>
      if InPhase(s, task, GenerationOver)
      then ToPhase(EndUse(s, s.generations[task].mode, cancelled), task, GenerationReleased) else s
    case Forget(task) =>
      if InPhase(s, task, GenerationReleased) && s.admission.AdmissionFree?
      then s.(generationTasks := s.generationTasks - {task}, generations := s.generations - {task}) else s
    case _ => s
  }

  function ApplyTrain(s: State, r: RequestId, e: TrainEvent): State {
    if e.TrainEnter? then
      if r in s.trainings then s
      else s.(trainings := s.trainings[r := TrainingRun(e.mode, e.token, Entered, 0)], presented := s.presented + {e.token})
    else if r !in s.trainings then s
    else if e.TrainAcquire? || e.TrainRenew? || e.SetupFails? || e.UndoSetup? then ApplySetup(s, r, s.trainings[r], e)
    else if e.ClaimEnter? || e.ClaimMatch? || e.ClaimCreate? then ApplyClaim(s, r, s.trainings[r], e)
    else ApplyTraining(s, r, s.trainings[r], e)
  }

  /** Where a setup event leads: model, renewal, claim, or the way back when any of them fails. */
  function SetupPhase(phase: TrainingPhase, e: TrainEvent, loaded: bool, held: bool): TrainingPhase {
    match e
    case TrainAcquire => if phase != Entered then phase else if loaded then HoldsModel else Dropping
    case TrainRenew => if phase != HoldsModel then phase else if held then Renewed else SetupUndo
    case SetupFails =>
      if phase == Entered then Dropping
      else if phase in {HoldsModel, Renewed, ClaimLocked, ClaimMatched} then SetupUndo
      else phase
    case UndoSetup(cancelled) => if phase == SetupUndo then Dropping else phase
    case _ => phase
  }

  /** What it does to the model's uses and the hold. The renewal goes on until the cleanup has cancelled it. */
  function SetupEffect(s: State, run: TrainingRun, e: TrainEvent): State {
    match e
    case TrainAcquire => if run.phase == Entered then s.(cache := Acquired(s.cache, run.mode)) else s
    case TrainRenew =>
      if run.phase in {HoldsModel, Renewed, ClaimLocked, ClaimMatched, SetupUndo, Owned, Training, TrainingOver} then Renewal(s, run.token) else s
    case UndoSetup(cancelled) => if run.phase == SetupUndo then EndUse(s, run.mode, cancelled) else s
    case _ => s
  }

  function ApplySetup(s: State, r: RequestId, run: TrainingRun, e: TrainEvent): State
    requires r in s.trainings && run == s.trainings[r]
  {
    var phase := SetupPhase(run.phase, e, run.mode in s.cache.loaded, HeldBy(s, run.token));
    SetupEffect(s, run, e).(trainings := s.trainings[r := run.(phase := phase)],
    handover := if run.InsideLock() && phase == SetupUndo then HandoverFree else s.handover)
  }

  function ClaimPhase(phase: TrainingPhase, e: TrainEvent, free: bool, recorded: bool, held: bool): TrainingPhase {
    match e
    case ClaimEnter => if phase != Renewed || !free then phase else if recorded then SetupUndo else ClaimLocked
    case ClaimMatch => if phase != ClaimLocked then phase else if held then ClaimMatched else SetupUndo
    case _ => phase
  }

  /** Handing the token over, inside the handover lock. */
  function ApplyClaim(s: State, r: RequestId, run: TrainingRun, e: TrainEvent): State
    requires r in s.trainings && run == s.trainings[r]
  {
    if e.ClaimCreate? then
      if run.phase != ClaimMatched || e.task in s.tasks then s
      else
        s.(tasks := s.tasks + {e.task}, handoverTokens := s.handoverTokens + {run.token},
        handoverTasks := s.handoverTasks[run.token := e.task], handover := HandoverFree,
        trainings := s.trainings[r := run.(phase := Owned, task := e.task)])
    else
      var phase := ClaimPhase(run.phase, e, s.handover.HandoverFree?, run.token in s.handoverTokens, HeldBy(s, run.token));
      s.(trainings := s.trainings[r := run.(phase := phase)],
      handover := if run.phase == Renewed && phase == ClaimLocked then Claiming(r)
      else if run.InsideLock() && phase == SetupUndo then HandoverFree
      else s.handover)
  }

  function CleanupPhase(phase: TrainingPhase, e: TrainEvent): TrainingPhase {
    match e
    case TrainSpawn => if phase == Owned then Training else phase
    case TrainEnds => if phase in {Owned, Training} then TrainingOver else phase
    case StopModel(cancelled) => if phase == TrainingOver then ModelStopped else phase
    case ReturnHold(fails) => if phase == ModelStopped then HoldReturned else phase
    case _ => phase
  }

  function CleanupEffect(s: State, run: TrainingRun, e: TrainEvent): State {
    match e
    case StopModel(cancelled) =>
      if run.phase != TrainingOver then s
      else if cancelled then Lose(s, run.mode)
      else s.(cache := ReleasedAndStopped(s.cache, run.mode))
    case ReturnHold(fails) => if run.phase == ModelStopped && !fails then GiveBack(s, run.token) else s
    case _ => s
  }

  /** The training's task and its cleanup. Both ways of failing end by dropping the handover record of the
      token, whoever owns it. */
  function ApplyTraining(s: State, r: RequestId, run: TrainingRun, e: TrainEvent): State
    requires r in s.trainings && run == s.trainings[r]
  {
    if e.DropHandover? then
      if run.phase in {Dropping, HoldReturned} && s.handover.HandoverFree?
      then s.(handoverTokens := s.handoverTokens - {run.token}, handoverTasks := s.handoverTasks - {run.token},
           trainings := s.trainings - {r})
      else s
    else CleanupEffect(s, run, e).(trainings := s.trainings[r := run.(phase := CleanupPhase(run.phase, e))])
  }

  function ApplyCache(t: Table, e: CacheEvent): Table {
    match e
    case LoadMode(mode, victims) =>
      if mode in t.loaded then t.(loaded := MoveToEnd(t.loaded, mode))
      else if victims <= Evictables(t, t.loaded) then t.(loaded := Minus(t.loaded, victims) + [mode])
      else t
    case EvictMode(mode) => if mode in t.loaded && mode !in t.inUse then Evicted(t, mode) else t
    case PinMode(mode) => if mode in t.loaded then t.(pinned := t.pinned + {mode}) else t
    case UnpinMode(mode) => t.(pinned := t.pinned - {mode})
  }

  /** The state after a run. */
  function Run(events: seq<Event>): State {
    if events == [] then INITIAL else Apply(Run(events[..|events| - 1]), events[|events| - 1])
  }

  /** One more event. */
  lemma Extend(events: seq<Event>, e: Event) returns (s: State)
    ensures s == Run(events + [e]) == Apply(Run(events), e)
  {
    assert (events + [e])[..|events|] == events;
    s := Run(events + [e]);
  }

  /** The state after further events. */
  function After(s: State, events: seq<Event>): State
    decreases |events|
  {
    if events == [] then s else After(Apply(s, events[0]), events[1..])
  }

  lemma {:induction false} AfterParts(s: State, a: seq<Event>, b: seq<Event>)
    ensures After(s, a + b) == After(After(s, a), b)
    decreases |a|
  {
    hide Apply;
    if a == [] {
      assert a + b == b;
    } else {
      assert (a + b)[1..] == a[1..] + b;
      AfterParts(Apply(s, a[0]), a[1..], b);
    }
  }

  // ---------------------------------------------------------------- generations and holds exclude each other

  ghost predicate Exclusive(s: State) {
    && (s.hold.Some? ==> s.generationTasks == {} && s.depth <= 0)
    && (s.admission.Reserving? ==> s.generationTasks == {})
    && (s.admission.HoldAbsent? || s.admission.ModelAcquired? || s.admission.AdmissionUndo? ==> s.hold.None?)
    && s.generations.Keys == s.generationTasks <= s.tasks
    && (!s.up ==> s.generationTasks == {} && s.admission.AdmissionFree?)
  }

  lemma RedisKeepsExclusion(s: State, e: RedisEvent)
    requires Exclusive(s)
    ensures Exclusive(ApplyRedis(s, e))
  {
  }

  lemma RouteKeepsExclusion(s: State, e: RouteEvent)
    requires Exclusive(s) && s.up
    ensures Exclusive(ApplyRoute(s, e))
  {
  }

  lemma AdmissionKeepsExclusion(s: State, e: GenerateEvent)
    requires Exclusive(s) && s.up
    ensures Exclusive(ApplyAdmission(s, e))
  {
    hide AdmissionUses;
  }

  lemma GenerationKeepsExclusion(s: State, e: GenerateEvent)
    requires Exclusive(s) && s.up
    ensures Exclusive(ApplyGeneration(s, e))
  {
    hide Acquired, Released;
  }

  lemma EffectIsOnUsesAndHold(s: State, run: TrainingRun, e: TrainEvent)
    ensures var s' := SetupEffect(s, run, e);
            && s' == s.(cache := s'.cache, hold := s'.hold, lost := s'.lost)
            && (s'.hold == s.hold || (e.TrainRenew? && HeldBy(s, run.token) && s'.hold == Some(Hold(run.token, HOLD_TTL_SECONDS))))
  {
    hide Acquired, Released;
  }

  lemma SetupKeepsExclusion(s: State, r: RequestId, e: TrainEvent)
    requires Exclusive(s) && s.up && r in s.trainings
    ensures Exclusive(ApplySetup(s, r, s.trainings[r], e))
  {
    hide SetupEffect, SetupPhase;
    EffectIsOnUsesAndHold(s, s.trainings[r], e);
  }

  lemma CleanupIsOnUsesAndHold(s: State, run: TrainingRun, e: TrainEvent)
    ensures var s' := CleanupEffect(s, run, e);
            && s' == s.(cache := s'.cache, hold := s'.hold, lost := s'.lost)
            && (s'.hold == s.hold || (e == ReturnHold(false) && run.phase == ModelStopped && HeldBy(s, run.token) && s'.hold == None))
  {
    hide ReleasedAndStopped;
  }

  lemma ClaimKeepsExclusion(s: State, r: RequestId, e: TrainEvent)
    requires Exclusive(s) && s.up && r in s.trainings
    ensures Exclusive(ApplyClaim(s, r, s.trainings[r], e))
  {
  }

  lemma TrainingKeepsExclusion(s: State, r: RequestId, e: TrainEvent)
    requires Exclusive(s) && s.up && r in s.trainings
    ensures Exclusive(ApplyTraining(s, r, s.trainings[r], e))
  {
    hide CleanupEffect, CleanupPhase;
    CleanupIsOnUsesAndHold(s, s.trainings[r], e);
  }

  lemma EventKeepsExclusion(s: State, e: Event)
    requires Exclusive(s)
    ensures Exclusive(Apply(s, e))
  {
    hide ApplyRedis, ApplyRoute, ApplyAdmission, ApplyGeneration, ApplySetup, ApplyClaim, ApplyTraining, ApplyCache;
    match e
    case Redis(redis) => RedisKeepsExclusion(s, redis);
    case Route(route) => if s.up { RouteKeepsExclusion(s, route); }
    case Generate(generate) =>
      if s.up {
        AdmissionKeepsExclusion(s, generate);
        GenerationKeepsExclusion(s, generate);
      }
    case Train(r, train) =>
      if s.up && r in s.trainings {
        SetupKeepsExclusion(s, r, train);
        ClaimKeepsExclusion(s, r, train);
        TrainingKeepsExclusion(s, r, train);
      }
    case Cache(cache) =>
  }

  /** In every reachable state an existing hold means that no generation is registered and none is
      queued for this worker; so none runs while a training's token is the stored hold. */
  lemma {:induction false} NoGenerationUnderAHold(events: seq<Event>)
    ensures Exclusive(Run(events))
    ensures var s := Run(events);
            s.hold.Some? ==>
              && s.generationTasks == {} && s.depth <= 0
              && (forall task :: !InPhase(s, task, Generating))
              && !s.admission.ModelAcquired?
  {
    if events != [] {
      NoGenerationUnderAHold(events[..|events| - 1]);
      EventKeepsExclusion(Run(events[..|events| - 1]), events[|events| - 1]);
    }
  }

  // ---------------------------------------------------------------- how a hold ends

  /** Who may end or prolong a hold under `token` in this state. */
  predicate MayEnd(s: State, e: Event, token: Token) {
    match e
    case Redis(Elapse(seconds)) => s.hold.Some? && s.hold.value.ttl <= seconds
    case Redis(Startup) => !s.up
    case Route(ReleaseScript) => s.handover == GivingBack(token)
    case Train(r, ReturnHold(fails)) =>
      !fails && r in s.trainings && s.trainings[r].token == token && s.trainings[r].phase == ModelStopped
    case _ => false
  }

  predicate MayProlong(s: State, e: Event, token: Token) {
    match e
    case Route(RenewScript(t)) => t == token
    case Train(r, TrainRenew) => r in s.trainings && s.trainings[r].token == token
    case _ => false
  }

  /** A hold ends only by expiry, by a release naming its token, or by worker start; while it lasts it
      keeps its token, and only a renewal naming that token lengthens it. So a lapsed owner never
      extends or deletes a later owner's hold. */
  lemma HoldAnswersToItsToken(s: State, e: Event)
    requires s.hold.Some?
    ensures var token, s' := s.hold.value.token, Apply(s, e);
            if HeldBy(s', token) then s'.hold.value.ttl > s.hold.value.ttl ==> MayProlong(s, e, token)
            else s'.hold.None? && MayEnd(s, e, token)
  {
    hide ApplyRedis, ApplyRoute, ApplyCache, ApplyGenerate, ApplyTrain;
    match e
    case Redis(redis) => RedisAndTheHold(s, redis);
    case Route(route) => RouteAndTheHold(s, route);
    case Generate(generate) => GenerateLeavesTheHold(s, generate);
    case Train(r, train) => TrainAnswersToItsToken(s, r, train);
    case Cache(cache) =>
  }

  lemma RedisAndTheHold(s: State, e: RedisEvent)
    requires s.hold.Some?
    ensures var hold := ApplyRedis(s, e).hold;
            if hold.Some? then hold.value.token == s.hold.value.token && hold.value.ttl <= s.hold.value.ttl
            else (e.Startup? && !s.up) || (e.Elapse? && s.hold.value.ttl <= e.seconds)
  {
  }

  lemma RouteAndTheHold(s: State, e: RouteEvent)
    requires s.hold.Some?
    ensures var hold := ApplyRoute(s, e).hold;
            || hold == s.hold
            || (hold.None? && e.ReleaseScript? && s.handover == GivingBack(s.hold.value.token))
            || (hold.Some? && hold.value.token == s.hold.value.token && e == RenewScript(hold.value.token))
  {
  }

  lemma GenerateLeavesTheHold(s: State, e: GenerateEvent)
    ensures ApplyGenerate(s, e).hold == s.hold
  {
    hide AdmissionUses, NextAdmission, Released;
  }

  /** What a training request does to the hold: nothing unless the hold names its token. */
  lemma TrainAnswersToItsToken(s: State, r: RequestId, e: TrainEvent)
    ensures ApplyTrain(s, r, e).hold == s.hold
            || (r in s.trainings && HeldBy(s, s.trainings[r].token)
                && ApplyTrain(s, r, e).hold ==
                   (if e.TrainRenew? then Some(Hold(s.trainings[r].token, HOLD_TTL_SECONDS)) else None)
                && (e.TrainRenew? || (e == ReturnHold(false) && s.trainings[r].phase == ModelStopped)))
  {
    if r in s.trainings {
      SetupAndTheHold(s, r, e);
      ClaimAndTheHold(s, r, e);
      TrainingAndTheHold(s, r, e);
    }
    hide ApplySetup, ApplyClaim, ApplyTraining;
  }

  lemma SetupAndTheHold(s: State, r: RequestId, e: TrainEvent)
    requires r in s.trainings
    ensures ApplySetup(s, r, s.trainings[r], e).hold == s.hold
            || (e.TrainRenew? && HeldBy(s, s.trainings[r].token)
                && ApplySetup(s, r, s.trainings[r], e).hold == Some(Hold(s.trainings[r].token, HOLD_TTL_SECONDS)))
  {
    hide SetupEffect, SetupPhase;
    EffectIsOnUsesAndHold(s, s.trainings[r], e);
  }

  lemma ClaimAndTheHold(s: State, r: RequestId, e: TrainEvent)
    requires r in s.trainings
    ensures ApplyClaim(s, r, s.trainings[r], e).hold == s.hold
  {
  }

  lemma TrainingAndTheHold(s: State, r: RequestId, e: TrainEvent)
    requires r in s.trainings
    ensures ApplyTraining(s, r, s.trainings[r], e).hold == s.hold
            || (e == ReturnHold(false) && s.trainings[r].phase == ModelStopped && HeldBy(s, s.trainings[r].token)
                && ApplyTraining(s, r, s.trainings[r], e).hold == None)
  {
    hide CleanupEffect, CleanupPhase;
    CleanupIsOnUsesAndHold(s, s.trainings[r], e);
  }

  // ---------------------------------------------------------------- a second presentation

  /** One more event of a run in which nothing expires and no worker dies. */
  lemma Next(events: seq<Event>, s: State, e: Event) returns (events': seq<Event>, s': State)
    requires Run(events) == s && Calm(events)
    requires e.Redis? ==> e.redis.Startup?
    ensures Run(events') == s' == Apply(s, e) && Calm(events')
  {
    events' := events + [e];
    s' := Extend(events, e);
  }

  predicate Calm(events: seq<Event>) {
    forall e | e in events :: e.Redis? ==> e.redis.Startup?
  }

  lemma TokenIsReserved() returns (events: seq<Event>, s: State)
    ensures Run(events) == s && Calm(events)
    ensures s == INITIAL.(up := true, cache := Table(["turbo"], map[], {}), hold := Some(Hold(7, HOLD_TTL_SECONDS)), issued := {7})
  {
    events, s := [], INITIAL;
    events, s := Next(events, s, Redis(Startup));
    events, s := Next(events, s, Cache(LoadMode("turbo", [])));
    assert s.cache.loaded == ["turbo"];
    events, s := Next(events, s, Route(ReserveEnter(7)));
    events, s := Next(events, s, Route(ReserveScript));
    events, s := Next(events, s, Route(LeaveAdmission));
  }

  lemma TrainingIsSetUp() returns (events: seq<Event>, s: State)
    ensures Run(events) == s && Calm(events)
    ensures s == INITIAL.(up := true, cache := Table(["turbo"], map["turbo" := 1], {}), hold := Some(Hold(7, HOLD_TTL_SECONDS)),
                issued := {7}, presented := {7}, trainings := map[1 := TrainingRun("turbo", 7, Renewed, 0)])
  {
    hide Run;
    events, s := TokenIsReserved();
    events, s := Next(events, s, Train(1, TrainEnter("turbo", 7)));
    assert MoveToEnd(["turbo"], "turbo") == ["turbo"];
    events, s := Next(events, s, Train(1, TrainAcquire));
    assert s.cache == Table(["turbo"], map["turbo" := 1], {});
    events, s := Next(events, s, Train(1, TrainRenew));
    assert s.trainings == map[1 := TrainingRun("turbo", 7, Renewed, 0)];
  }

  lemma TokenIsHandedOver() returns (events: seq<Event>, s: State)
    ensures Run(events) == s && Calm(events)
    ensures s == INITIAL.(up := true, cache := Table(["turbo"], map["turbo" := 1], {}), hold := Some(Hold(7, HOLD_TTL_SECONDS)),
                issued := {7}, presented := {7}, tasks := {10}, handoverTokens := {7}, handoverTasks := map[7 := 10],
                trainings := map[1 := TrainingRun("turbo", 7, Training, 10)])
  {
    hide Run, ApplyRedis, ApplyRoute, ApplyGenerate, ApplySetup, ApplyCache, CleanupEffect;
    events, s := TrainingIsSetUp();
    events, s := Next(events, s, Train(1, ClaimEnter));
    events, s := Next(events, s, Train(1, ClaimMatch));
    events, s := Next(events, s, Train(1, ClaimCreate(10)));
    SpawnHasNoEffect(s, s.trainings[1]);
    events, s := Next(events, s, Train(1, TrainSpawn));
    assert s.trainings == map[1 := TrainingRun("turbo", 7, Training, 10)];
  }

  lemma SpawnHasNoEffect(s: State, run: TrainingRun)
    ensures CleanupEffect(s, run, TrainSpawn) == s
  {
  }

  lemma RecordIsDropped() returns (events: seq<Event>, s: State)
    ensures Run(events) == s && Calm(events)
    ensures s.up && s.admission.AdmissionFree? && s.handover.HandoverFree? && HeldBy(s, 7) && s.handoverTokens == {}
    ensures "turbo" in s.cache.loaded && s.tasks == {10}
    ensures s.trainings == map[1 := TrainingRun("turbo", 7, Training, 10)]
  {
    hide Run;
    events, s := TokenIsHandedOver();
    events, s := Next(events, s, Train(2, TrainEnter("sft", 7)));
    events, s := Next(events, s, Train(2, TrainAcquire));
    assert s.trainings[2] == TrainingRun("sft", 7, Dropping, 0);
    events, s := Next(events, s, Train(2, DropHandover));
    assert s.trainings == map[1 := TrainingRun("turbo", 7, Training, 10)];
  }

  lemma HoldIsGivenBack() returns (events: seq<Event>, s: State)
    ensures Run(events) == s && Calm(events)
    ensures s.up && s.hold.None? && s.admission.AdmissionFree? && "turbo" in s.cache.loaded && s.tasks == {10}
    ensures s.trainings == map[1 := TrainingRun("turbo", 7, Training, 10)]
  {
    hide Run;
    events, s := RecordIsDropped();
    events, s := Next(events, s, Route(ReleaseEnter(7)));
    events, s := Next(events, s, Route(ReleaseScript));
  }

  lemma GenerationIsAdmitted() returns (events: seq<Event>, s: State)
    ensures Run(events) == s && Calm(events)
    ensures s.up && s.admission == ModelAcquired("turbo") && s.tasks == {10}
    ensures s.trainings == map[1 := TrainingRun("turbo", 7, Training, 10)]
  {
    hide Run, Acquired;
    events, s := HoldIsGivenBack();
    events, s := Next(events, s, Generate(GenerateEnter("turbo")));
    events, s := Next(events, s, Generate(CheckHold));
    events, s := Next(events, s, Generate(AcquireModel));
  }

  /** Presented twice, a token loses its protection: a second request, refused because its mode is not
      loaded, drops the record of the first; the release route then gives the hold back, and a
      generation runs beside the training. Nothing expires and no worker dies in this run. */
  lemma SecondPresentationBreaksTheHandover()
    ensures exists events ::
              var s := Run(events);
              && Calm(events)
              && 1 in s.trainings && s.trainings[1].phase == Training
              && InPhase(s, 11, Generating)
  {
    hide Run;
    var events, s := GenerationIsAdmitted();
    events, s := Next(events, s, Generate(CreateTask(11)));
    assert InPhase(s, 11, Registered);
    events, s := Next(events, s, Generate(Spawn(11)));
    assert InPhase(s, 11, Generating);
  }
}
