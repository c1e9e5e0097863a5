/**
 Ownership of handed-over holds: a training that took over a token owns its hold until its own cleanup,
 exactly as long as no failed request drops the handover record of a token that another one owns.
 */
module WorkerHandover {
  import opened Wrappers
  import opened ModelTables
  import opened WorkerProtocol

  // ---------------------------------------------------------------- one owner per handed-over token

  predicate OwnerOf(runs: map<RequestId, TrainingRun>, r: RequestId, token: Token) {
    r in runs && runs[r].Owns() && runs[r].token == token
  }

  /** Exactly the owned tokens are recorded, each with its one owner's task; and whoever is inside the handover
      lock, to take a token over or to give its hold back, finds that token unrecorded. */
  ghost predicate OwnersAreRecorded(runs: map<RequestId, TrainingRun>, lock: HandoverLock, tokens: set<Token>,
                                    tasks: map<Token, TaskId>) {
    && (forall r, q | r in runs && q in runs && runs[r].Owns() && runs[q].Owns() && runs[r].token == runs[q].token :: r == q)
    && tokens == tasks.Keys
    && (forall r | r in runs && runs[r].Owns() :: runs[r].token in tasks && tasks[runs[r].token] == runs[r].task)
    && (forall token | token in tokens :: exists r :: OwnerOf(runs, r, token))
    && (forall r | r in runs && runs[r].InsideLock() :: lock == Claiming(r) && runs[r].token !in tokens)
    && (lock.GivingBack? ==> lock.token !in tokens)
  }

  ghost predicate OneOwner(s: State) {
    OwnersAreRecorded(s.trainings, s.handover, s.handoverTokens, s.handoverTasks)
  }

  /** From `s` to `s'` the run moved to another phase, nothing was handed over or dropped. */
  predicate PhaseMove(s: State, s': State, r: RequestId) {
    && r in s.trainings && r in s'.trainings
    && var run, next := s.trainings[r], s'.trainings[r];
    && next == run.(phase := next.phase)
    && s'.trainings == s.trainings[r := next]
    && (s'.handoverTokens, s'.handoverTasks) == (s.handoverTokens, s.handoverTasks)
    && next.Owns() == run.Owns()
    && (if s'.handover == s.handover then next.InsideLock() ==> run.InsideLock()
        else if run.InsideLock() then !next.InsideLock() && s'.handover == HandoverFree
        else s.handover == HandoverFree && s'.handover == Claiming(r) && run.token !in s.handoverTokens)
  }

  lemma PhaseMoveKeepsOwners(s: State, s': State, r: RequestId)
    requires OneOwner(s) && PhaseMove(s, s', r)
    ensures OneOwner(s')
  {
    OwnersSurvive(s.trainings, s'.trainings, s.handoverTokens);
  }

  lemma SetupIsAPhaseMove(s: State, r: RequestId, e: TrainEvent)
    requires r in s.trainings
    ensures PhaseMove(s, ApplySetup(s, r, s.trainings[r], e), r)
  {
    hide SetupEffect;
    EffectIsOnUsesAndHold(s, s.trainings[r], e);
  }

  lemma OwnersSurvive(runs: map<RequestId, TrainingRun>, runs': map<RequestId, TrainingRun>, tokens: set<Token>)
    requires forall token | token in tokens :: exists r :: OwnerOf(runs, r, token)
    requires forall r | r in runs && runs[r].Owns() :: r in runs' && runs'[r].Owns() && runs'[r].token == runs[r].token
    ensures forall token | token in tokens :: exists r :: OwnerOf(runs', r, token)
  {
    forall token | token in tokens
      ensures exists r :: OwnerOf(runs', r, token)
    {
      var r :| OwnerOf(runs, r, token);
      assert OwnerOf(runs', r, token);
    }
  }

  lemma ClaimKeepsOwners(s: State, r: RequestId, e: TrainEvent)
    requires OneOwner(s) && r in s.trainings
    ensures OneOwner(ApplyClaim(s, r, s.trainings[r], e))
  {
    if e.ClaimCreate? {
      HandingOverKeepsOwners(s, r, e);
    } else {
      ClaimIsAPhaseMove(s, r, e);
      PhaseMoveKeepsOwners(s, ApplyClaim(s, r, s.trainings[r], e), r);
    }
  }

  lemma ClaimIsAPhaseMove(s: State, r: RequestId, e: TrainEvent)
    requires r in s.trainings && !e.ClaimCreate?
    ensures PhaseMove(s, ApplyClaim(s, r, s.trainings[r], e), r)
  {
  }

  lemma HandingOverKeepsOwners(s: State, r: RequestId, e: TrainEvent)
    requires OneOwner(s) && r in s.trainings && e.ClaimCreate?
    ensures OneOwner(ApplyClaim(s, r, s.trainings[r], e))
  {
    hide OwnersAreRecorded;
    if s.trainings[r].phase == ClaimMatched && e.task !in s.tasks {
      ATokenIsRecorded(s.trainings, s.handover, s.handoverTokens, s.handoverTasks, r, e.task);
    }
  }

  lemma ATokenIsRecorded(runs: map<RequestId, TrainingRun>, lock: HandoverLock, tokens: set<Token>, tasks: map<Token, TaskId>,
                         r: RequestId, task: TaskId)
    requires OwnersAreRecorded(runs, lock, tokens, tasks) && r in runs && runs[r].phase == ClaimMatched
    ensures var token := runs[r].token;
            OwnersAreRecorded(runs[r := runs[r].(phase := Owned, task := task)], HandoverFree, tokens + {token}, tasks[token := task])
  {
    var runs' := runs[r := runs[r].(phase := Owned, task := task)];
    OwnersSurvive(runs, runs', tokens);
    assert OwnerOf(runs', r, runs[r].token);
  }

  lemma TrainingKeepsOwners(s: State, r: RequestId, e: TrainEvent)
    requires OneOwner(s) && r in s.trainings && s.up && !DropsAnothers(s, Train(r, e))
    ensures OneOwner(ApplyTraining(s, r, s.trainings[r], e))
  {
    if e.DropHandover? {
      DroppingKeepsOwners(s, r);
    } else {
      TrainingIsAPhaseMove(s, r, e);
      PhaseMoveKeepsOwners(s, ApplyTraining(s, r, s.trainings[r], e), r);
    }
  }

  lemma TrainingIsAPhaseMove(s: State, r: RequestId, e: TrainEvent)
    requires r in s.trainings && !e.DropHandover?
    ensures PhaseMove(s, ApplyTraining(s, r, s.trainings[r], e), r)
  {
    hide CleanupEffect;
    CleanupIsOnUsesAndHold(s, s.trainings[r], e);
  }

  /** The guard of the failing branch: a failed request drops the record of a token another run owns. */
  ghost predicate DropsAnothers(s: State, e: Event) {
    && e.Train? && e.train.DropHandover? && s.up
    && e.request in s.trainings && s.trainings[e.request].phase == Dropping && s.handover.HandoverFree?
    && exists q :: OwnerOf(s.trainings, q, s.trainings[e.request].token)
  }

  lemma DroppingKeepsOwners(s: State, r: RequestId)
    requires OneOwner(s) && r in s.trainings && s.up && !DropsAnothers(s, Train(r, DropHandover))
    ensures OneOwner(ApplyTraining(s, r, s.trainings[r], DropHandover))
  {
    var s' := ApplyTraining(s, r, s.trainings[r], DropHandover);
    if s' != s {
      forall q | q in s'.trainings && s'.trainings[q].Owns()
        ensures s'.trainings[q].token != s.trainings[r].token
      {
        assert OwnerOf(s.trainings, q, s.trainings[q].token);
      }
      forall t | t in s'.handoverTokens
        ensures exists q :: OwnerOf(s'.trainings, q, t)
      {
        var q :| OwnerOf(s.trainings, q, t);
        assert OwnerOf(s'.trainings, q, t);
      }
    }
  }

  lemma EnterKeepsOwners(s: State, r: RequestId, e: TrainEvent)
    requires OneOwner(s) && r !in s.trainings && e.TrainEnter?
    ensures OneOwner(ApplyTrain(s, r, e))
  {
    OwnersSurvive(s.trainings, ApplyTrain(s, r, e).trainings, s.handoverTokens);
  }

  lemma RouteKeepsOwners(s: State, e: RouteEvent)
    requires OneOwner(s)
    ensures OneOwner(ApplyRoute(s, e))
  {
    RouteLeavesRuns(s, e);
    hide ApplyRoute;
  }

  /** A route changes neither runs nor records; it enters the handover lock only for an unrecorded token. */
  lemma RouteLeavesRuns(s: State, e: RouteEvent)
    ensures var s' := ApplyRoute(s, e);
            && (s'.trainings, s'.handoverTokens, s'.handoverTasks) == (s.trainings, s.handoverTokens, s.handoverTasks)
            && (s'.handover == s.handover
                || (!s.handover.Claiming? && !s'.handover.Claiming?
                    && (s'.handover.GivingBack? ==> s'.handover.token !in s.handoverTokens)))
  {
    hide Reserve, Renewal, GiveBack;
    ScriptsTouchTheHold(s, e);
  }

  lemma ScriptsTouchTheHold(s: State, e: RouteEvent)
    ensures forall token ::
              && Reserve(s, token) == s.(hold := Reserve(s, token).hold)
              && Renewal(s, token) == s.(hold := Renewal(s, token).hold)
              && GiveBack(s, token) == s.(hold := GiveBack(s, token).hold)
  {
  }

  lemma RedisKeepsOwners(s: State, e: RedisEvent)
    requires OneOwner(s)
    ensures OneOwner(ApplyRedis(s, e))
  {
  }

  predicate SameHandovers(s: State, s': State) {
    && (s'.trainings, s'.handover, s'.presented) == (s.trainings, s.handover, s.presented)
    && (s'.handoverTokens, s'.handoverTasks) == (s.handoverTokens, s.handoverTasks)
  }

  lemma GenerateLeavesHandovers(s: State, e: GenerateEvent)
    ensures SameHandovers(s, ApplyGenerate(s, e))
  {
    AdmissionLeavesHandovers(s, e);
    GenerationLeavesHandovers(s, e);
    hide ApplyAdmission, ApplyGeneration;
  }

  lemma AdmissionLeavesHandovers(s: State, e: GenerateEvent)
    ensures SameHandovers(s, ApplyAdmission(s, e))
  {
    hide AdmissionUses, NextAdmission;
  }

  lemma GenerationLeavesHandovers(s: State, e: GenerateEvent)
    ensures SameHandovers(s, ApplyGeneration(s, e))
  {
    hide Released;
  }

  lemma EventKeepsOwners(s: State, e: Event)
    requires OneOwner(s) && !DropsAnothers(s, e)
    ensures OneOwner(Apply(s, e))
  {
    hide OwnersAreRecorded, DropsAnothers, ApplyRedis, ApplyRoute, ApplyGenerate, ApplySetup, ApplyClaim, ApplyTraining, ApplyCache;
    match e
    case Redis(redis) => RedisKeepsOwners(s, redis);
    case Route(route) => RouteKeepsOwners(s, route);
    case Generate(generate) => GenerateLeavesHandovers(s, generate);
    case Train(r, train) =>
      if s.up && r in s.trainings {
        SetupIsAPhaseMove(s, r, train);
        PhaseMoveKeepsOwners(s, ApplySetup(s, r, s.trainings[r], train), r);
        ClaimKeepsOwners(s, r, train);
        TrainingKeepsOwners(s, r, train);
      } else if s.up && train.TrainEnter? {
        EnterKeepsOwners(s, r, train);
      }
    case Cache(cache) =>
  }

  // ---------------------------------------------------------------- whole runs

  /** No request of the run drops the record of a token another run owns. */
  ghost predicate NeverDropsAnothers(events: seq<Event>) {
    events == [] ||
    var before, last := events[..|events| - 1], events[|events| - 1];
    NeverDropsAnothers(before) && !DropsAnothers(Run(before), last)
  }

  /** Every training that took a token over has it recorded, so that the release route refuses it. */
  ghost predicate OwnersAreProtected(s: State) {
    forall r | r in s.trainings && s.trainings[r].Owns() :: s.trainings[r].token in s.handoverTokens
  }

  /** The owners are protected after each part of the run. */
  ghost predicate AlwaysProtected(events: seq<Event>) {
    OwnersAreProtected(Run(events)) && (events == [] || AlwaysProtected(events[..|events| - 1]))
  }

  /** Without such a drop a handed-over token has exactly one training run, recorded with that run's task. */
  lemma {:induction false} HandedOverOnce(events: seq<Event>)
    requires NeverDropsAnothers(events)
    ensures OneOwner(Run(events))
  {
    if events != [] {
      hide Apply, DropsAnothers, OwnersAreRecorded;
      HandedOverOnce(events[..|events| - 1]);
      EventKeepsOwners(Run(events[..|events| - 1]), events[|events| - 1]);
    }
  }

  lemma DropEndsTheProtection(s: State, e: Event)
    requires DropsAnothers(s, e)
    ensures !OwnersAreProtected(Apply(s, e))
  {
    var token := s.trainings[e.request].token;
    var q :| OwnerOf(s.trainings, q, token);
    var s' := ApplyTraining(s, e.request, s.trainings[e.request], DropHandover);
    assert q in s'.trainings && s'.trainings[q] == s.trainings[q] && token !in s'.handoverTokens;
  }

  lemma RecordedIsProtected(s: State)
    requires OneOwner(s)
    ensures OwnersAreProtected(s)
  {
  }

  /** Handed-over holds are protected throughout a run if and only if no request of it drops the record of a
      token that another run owns. */
  lemma {:induction false} ProtectedUnlessDropped(events: seq<Event>)
    ensures AlwaysProtected(events) <==> NeverDropsAnothers(events)
  {
    if events != [] {
      hide Run, Apply, DropsAnothers, OwnersAreProtected, OwnersAreRecorded;
      var before := events[..|events| - 1];
      ProtectedUnlessDropped(before);
      if NeverDropsAnothers(before) {
        LastEventDecides(events);
      }
    }
  }

  lemma LastEventDecides(events: seq<Event>)
    requires events != [] && NeverDropsAnothers(events[..|events| - 1])
    ensures OwnersAreProtected(Run(events)) <==> !DropsAnothers(Run(events[..|events| - 1]), events[|events| - 1])
  {
    hide Apply, DropsAnothers, OwnersAreProtected, OwnersAreRecorded;
    var before, last := events[..|events| - 1], events[|events| - 1];
    if DropsAnothers(Run(before), last) {
      DropEndsTheProtection(Run(before), last);
    } else {
      HandedOverOnce(events);
      RecordedIsProtected(Run(events));
    }
  }

  /** Nobody but time, worker start and the training's own cleanup ends its hold; the release route in
      particular refuses it. */
  ghost predicate HoldIsItsOwn(s: State, e: Event, r: RequestId)
    requires r in s.trainings
  {
    var token := s.trainings[r].token;
    && ApplyRoute(s, ReleaseEnter(token)) == s
    && (HeldBy(Apply(s, e), token)
        || e == Train(r, ReturnHold(false)) || e == Redis(Startup)
        || (e.Redis? && e.redis.Elapse? && s.hold.Some? && s.hold.value.ttl <= e.redis.seconds))
  }

  lemma OwnedHoldIsKept(s: State, e: Event, r: RequestId)
    requires OneOwner(s) && r in s.trainings && s.trainings[r].Owns() && HeldBy(s, s.trainings[r].token)
    ensures MayEnd(s, e, s.trainings[r].token) ==>
              || e == Train(r, ReturnHold(false)) || e == Redis(Startup)
              || (e.Redis? && e.redis.Elapse? && s.hold.value.ttl <= e.redis.seconds)
    ensures s.trainings[r].token in s.handoverTokens
  {
  }

  lemma ProtectedHoldIsKept(events: seq<Event>, e: Event, r: RequestId)
    requires NeverDropsAnothers(events)
    requires var s := Run(events); r in s.trainings && s.trainings[r].Owns() && HeldBy(s, s.trainings[r].token)
    ensures HoldIsItsOwn(Run(events), e, r)
  {
    hide Run, Apply, MayEnd, OwnersAreRecorded;
    var s := Run(events);
    HandedOverOnce(events);
    HoldAnswersToItsToken(s, e);
    OwnedHoldIsKept(s, e, r);
  }

  // ---------------------------------------------------------------- tokens presented once

  /** No token is presented to `train_lora` twice. */
  predicate PresentedOnce(events: seq<Event>) {
    events == [] ||
    var before, last := events[..|events| - 1], events[|events| - 1];
    && PresentedOnce(before)
    && (last.Train? && last.train.TrainEnter? ==> last.train.token !in Run(before).presented)
  }

  ghost predicate TokensAreDistinct(s: State) {
    && (forall r | r in s.trainings :: s.trainings[r].token in s.presented)
    && (forall r, q | r in s.trainings && q in s.trainings && s.trainings[r].token == s.trainings[q].token :: r == q)
  }

  /** Requests keep their tokens, and only entering presents one. */
  predicate KeepsTokens(s: State, s': State) {
    s'.presented == s.presented && forall r | r in s'.trainings :: r in s.trainings && s'.trainings[r].token == s.trainings[r].token
  }

  lemma TrainKeepsTokens(s: State, r: RequestId, e: TrainEvent)
    requires r in s.trainings
    ensures KeepsTokens(s, ApplyTrain(s, r, e))
  {
    hide SetupPhase, ClaimPhase, CleanupPhase, SetupEffect, CleanupEffect;
    EffectIsOnUsesAndHold(s, s.trainings[r], e);
    CleanupIsOnUsesAndHold(s, s.trainings[r], e);
  }

  lemma EventKeepsTokens(s: State, e: Event)
    ensures KeepsTokens(s, Apply(s, e))
            || (e.Train? && e.train.TrainEnter? && s.up && e.request !in s.trainings
                && Apply(s, e) == ApplyTrain(s, e.request, e.train))
  {
    hide ApplyRedis, ApplyRoute, ApplyGenerate, ApplyTrain, ApplyCache;
    match e
    case Redis(redis) => RedisKeepsTokens(s, redis);
    case Route(route) => RouteKeepsTokens(s, route);
    case Generate(generate) => GenerateLeavesHandovers(s, generate);
    case Train(r, train) =>
      if r in s.trainings {
        TrainKeepsTokens(s, r, train);
      } else {
        StrangersDoNothing(s, r, train);
      }
    case Cache(cache) =>
  }

  lemma RedisKeepsTokens(s: State, e: RedisEvent)
    ensures KeepsTokens(s, ApplyRedis(s, e))
  {
  }

  lemma RouteKeepsTokens(s: State, e: RouteEvent)
    ensures KeepsTokens(s, ApplyRoute(s, e))
  {
  }

  lemma StrangersDoNothing(s: State, r: RequestId, e: TrainEvent)
    requires r !in s.trainings
    ensures e.TrainEnter? || ApplyTrain(s, r, e) == s
  {
  }

  lemma EnteringKeepsTokensDistinct(s: State, r: RequestId, e: TrainEvent)
    requires TokensAreDistinct(s) && r !in s.trainings && e.TrainEnter? && e.token !in s.presented
    ensures TokensAreDistinct(ApplyTrain(s, r, e))
  {
  }

  lemma EventKeepsTokensDistinct(s: State, e: Event)
    requires TokensAreDistinct(s)
    requires e.Train? && e.train.TrainEnter? ==> e.train.token !in s.presented
    ensures TokensAreDistinct(Apply(s, e)) && !DropsAnothers(s, e)
  {
    hide Apply, ApplyTrain;
    EventKeepsTokens(s, e);
    if !KeepsTokens(s, Apply(s, e)) {
      EnteringKeepsTokensDistinct(s, e.request, e.train);
    }
  }

  /** A run that presents no token twice drops nobody else's record. */
  lemma {:induction false} PresentedOnceDropsNobody(events: seq<Event>)
    requires PresentedOnce(events)
    ensures NeverDropsAnothers(events) && TokensAreDistinct(Run(events))
  {
    if events != [] {
      hide Apply, DropsAnothers, TokensAreDistinct;
      PresentedOnceDropsNobody(events[..|events| - 1]);
      EventKeepsTokensDistinct(Run(events[..|events| - 1]), events[|events| - 1]);
    }
  }

  /** So on a run that presents no token twice, nobody but time, worker start and the training's own cleanup ends
      the hold of a handed-over token. */
  lemma HandedOverHoldIsKept(events: seq<Event>, e: Event, r: RequestId)
    requires PresentedOnce(events)
    requires var s := Run(events); r in s.trainings && s.trainings[r].Owns() && HeldBy(s, s.trainings[r].token)
    ensures HoldIsItsOwn(Run(events), e, r)
  {
    hide Run, HoldIsItsOwn;
    PresentedOnceDropsNobody(events);
    ProtectedHoldIsKept(events, e, r);
  }
}
