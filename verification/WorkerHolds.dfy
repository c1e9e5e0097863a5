/**
 How long a hold lasts: a renewal that names its token gives it the full fifteen seconds again, time takes them
 away, and an owner who renews in time keeps the GPU.
 */
module WorkerHolds {
  import opened Wrappers
  import opened ModelTables
  import opened WorkerProtocol

  // ---------------------------------------------------------------- one step

  /** The phases of a training during which its renewal goes on. */
  predicate IsRenewing(phase: TrainingPhase) {
    phase in {HoldsModel, Renewed, ClaimLocked, ClaimMatched, SetupUndo, Owned, Training, TrainingOver}
  }

  /** The event renews the hold under this token, by the route or by a training that presented the token. */
  predicate Renews(s: State, e: Event, token: Token) {
    s.up &&
    match e
    case Route(RenewScript(named)) => named == token
    case Train(r, TrainRenew) => r in s.trainings && s.trainings[r].token == token && IsRenewing(s.trainings[r].phase)
    case _ => false
  }

  predicate IsRenewal(e: Event) {
    (e.Route? && e.route.RenewScript?) || (e.Train? && e.train.TrainRenew?)
  }

  /** A renewal by the holder gives the hold its fifteen seconds again; one that names another token, or that
      nobody is entitled to send, leaves it as it is. */
  lemma RenewalResets(s: State, e: Event)
    requires IsRenewal(e)
    ensures Apply(s, e).hold == if s.hold.Some? && Renews(s, e, s.hold.value.token) then Some(Hold(s.hold.value.token, 15)) else s.hold
  {
    if e.Train? && e.request in s.trainings {
      TrainingRenews(s, e.request);
    }
    hide SetupPhase, ApplyClaim, ApplyTraining, ApplyRedis, ApplyGenerate, ApplyCache;
  }

  lemma TrainingRenews(s: State, r: RequestId)
    requires r in s.trainings
    ensures ApplySetup(s, r, s.trainings[r], TrainRenew).hold
            == if IsRenewing(s.trainings[r].phase) && HeldBy(s, s.trainings[r].token) then Some(Hold(s.trainings[r].token, 15)) else s.hold
  {
    hide SetupPhase;
  }

  /** Time takes from the hold what passes, and all of it ends the hold. */
  lemma TimePasses(s: State, seconds: nat)
    requires s.hold.Some?
    ensures Apply(s, Redis(Elapse(seconds))).hold
            == if seconds < s.hold.value.ttl then Some(Hold(s.hold.value.token, s.hold.value.ttl - seconds)) else None
  {
  }

  /** A hold reserved is good for fifteen seconds, and only a reserving request behind the lock gets one, on a GPU
      without hold and without queued generations. */
  lemma ReservationHolds(s: State)
    requires s.up && s.admission.Reserving?
    ensures Apply(s, Route(ReserveScript))
            == s.(hold := if s.hold.None? && s.depth <= 0 then Some(Hold(s.admission.token, 15)) else s.hold,
                  admission := ReserveAnswered)
  {
  }

  /** The release script ends the hold exactly if the token holds it, once. */
  lemma ReleaseAnswers(s: State)
    requires s.up && s.handover.GivingBack?
    ensures Apply(s, Route(ReleaseScript))
            == s.(hold := if HeldBy(s, s.handover.token) then None else s.hold, handover := GaveAnswer)
  {
  }

  /** A cancellation that hits a request while its task is created frees the lock and loses its use. */
  lemma CancelledCreationLeaves(s: State)
    requires s.up && s.admission.ModelAcquired?
    ensures Apply(s, Generate(CreateCancelled))
            == s.(admission := AdmissionFree, lost := s.lost[s.admission.mode := LostIn(s.lost, s.admission.mode) + 1])
  {
  }

  /** A worker that starts finds no hold and no queued generation, whatever was left. */
  lemma StartIsClean(s: State)
    requires !s.up
    ensures Apply(s, Redis(Startup)) == s.(up := true, hold := None, depth := 0)
  {
  }

  /** A queued generation counts exactly when no hold is stored. */
  lemma QueueCounts(s: State)
    ensures Apply(s, Redis(Admit)) == if s.hold.Some? then s else s.(depth := s.depth + 1)
    ensures Apply(s, Redis(Finished)) == s.(depth := s.depth - 1)
  {
  }

  // ---------------------------------------------------------------- an owner who renews in time

  /** Somebody gives the hold of this token back, or the worker starts. */
  predicate GivesUp(s: State, e: Event, token: Token) {
    MayEnd(s, e, token) && !(e.Redis? && e.redis.Elapse?)
  }

  /** From `s` on, `elapsed` seconds after the last renewal, the owner renews again before fifteen seconds are
      over, every time; and nobody gives the hold up. */
  ghost predicate RenewsInTime(s: State, events: seq<Event>, token: Token, elapsed: nat)
    decreases |events|
  {
    events == [] ||
    var e := events[0];
    if Renews(s, e, token) then RenewsInTime(Apply(s, e), events[1..], token, 0)
    else if e.Redis? && e.redis.Elapse? then
      elapsed + e.redis.seconds < 15 && RenewsInTime(Apply(s, e), events[1..], token, elapsed + e.redis.seconds)
    else !GivesUp(s, e, token) && RenewsInTime(Apply(s, e), events[1..], token, elapsed)
  }

  /** Seconds since the last renewal, at the end. */
  ghost function Since(s: State, events: seq<Event>, token: Token, elapsed: nat): nat
    decreases |events|
  {
    if events == [] then elapsed
    else
      var e := events[0];
      Since(Apply(s, e), events[1..], token,
            if Renews(s, e, token) then 0 else if e.Redis? && e.redis.Elapse? then elapsed + e.redis.seconds else elapsed)
  }

  lemma RenewingGivesNothingUp(s: State, e: Event, token: Token)
    requires Renews(s, e, token)
    ensures IsRenewal(e) && !GivesUp(s, e, token)
  {
  }

  lemma HoldAfter(s: State, e: Event, token: Token, elapsed: nat)
    requires elapsed < 15 && s.hold == Some(Hold(token, 15 - elapsed)) && !GivesUp(s, e, token)
    requires e.Redis? && e.redis.Elapse? ==> elapsed + e.redis.seconds < 15
    ensures Apply(s, e).hold
            == Some(Hold(token, 15 - if Renews(s, e, token) then 0
                                     else if e.Redis? && e.redis.Elapse? then elapsed + e.redis.seconds else elapsed))
  {
    if IsRenewal(e) {
      hide Apply;
      RenewalResets(s, e);
    } else if e.Redis? && e.redis.Elapse? {
      TimePasses(s, e.redis.seconds);
    } else {
      OthersLeaveTheHold(s, e, token);
      hide Apply;
    }
  }

  lemma OthersLeaveTheHold(s: State, e: Event, token: Token)
    requires HeldBy(s, token) && !GivesUp(s, e, token) && !IsRenewal(e) && !(e.Redis? && e.redis.Elapse?)
    ensures Apply(s, e).hold == s.hold
  {
    hide ApplyRedis, ApplyRoute, ApplyCache, ApplyGenerate, ApplyTrain;
    match e
    case Redis(redis) => RedisLeavesTheHold(s, redis);
    case Route(route) => RouteAndTheHold(s, route);
    case Generate(generate) => GenerateLeavesTheHold(s, generate);
    case Train(r, train) => TrainAnswersToItsToken(s, r, train);
    case Cache(cache) =>
  }

  lemma RedisLeavesTheHold(s: State, e: RedisEvent)
    requires s.hold.Some? && !e.Elapse? && (e.Startup? ==> s.up)
    ensures ApplyRedis(s, e).hold == s.hold
  {
  }

  /** On every run a hold whose owner renews it in time still stands under its token, with what is left of fifteen
      seconds since the last renewal, unless somebody gives it up. */
  lemma {:induction false} RenewedInTimeStands(s: State, events: seq<Event>, token: Token, elapsed: nat)
    requires elapsed < 15 && s.hold == Some(Hold(token, 15 - elapsed))
    requires RenewsInTime(s, events, token, elapsed)
    ensures var since := Since(s, events, token, elapsed);
            since < 15 && After(s, events).hold == Some(Hold(token, 15 - since))
    decreases |events|
  {
    hide Apply, Renews, MayEnd;
    if events != [] {
      var e := events[0];
      if Renews(s, e, token) {
        RenewingGivesNothingUp(s, e, token);
      }
      HoldAfter(s, e, token, elapsed);
      RenewedInTimeStands(Apply(s, e), events[1..], token,
                          if Renews(s, e, token) then 0 else if e.Redis? && e.redis.Elapse? then elapsed + e.redis.seconds else elapsed);
    }
  }

  // ---------------------------------------------------------------- the routes, from end to end

  /** A reservation is refused while generations are registered, or a hold or a queued generation is in Redis; else its
      fresh token holds the GPU for fifteen seconds. Either way the lock is free again. */
  lemma ReserveRoute(s: State, token: Token)
    requires s.up && s.admission.AdmissionFree? && token !in s.issued
    ensures var s' := Apply(Apply(Apply(s, Route(ReserveEnter(token))), Route(ReserveScript)), Route(LeaveAdmission));
            if s.generationTasks != {} then s' == s
            else s' == s.(issued := s.issued + {token},
                          hold := if s.hold.None? && s.depth <= 0 then Some(Hold(token, 15)) else s.hold)
  {
    if s.generationTasks != {} {
      assert Apply(s, Route(ReserveEnter(token))) == s;
    }
  }

  /** A release is refused while the token is recorded as handed over; else it ends the hold exactly if the token holds
      it. Either way the lock is free again. */
  lemma ReleaseRoute(s: State, token: Token)
    requires s.up && s.handover.HandoverFree?
    ensures var s' := Apply(Apply(Apply(s, Route(ReleaseEnter(token))), Route(ReleaseScript)), Route(LeaveHandover));
            s' == if token !in s.handoverTokens && HeldBy(s, token) then s.(hold := None) else s
  {
  }

  /** A route that is cancelled in its lock leaves the lock and nothing else. */
  lemma CancelledRoutesLeave(s: State, token: Token)
    requires s.up && token !in s.issued
    ensures s.admission.AdmissionFree? && s.generationTasks == {} ==>
              Apply(Apply(s, Route(ReserveEnter(token))), Route(LeaveAdmission)) == s.(issued := s.issued + {token})
    ensures s.handover.HandoverFree? ==> Apply(Apply(s, Route(ReleaseEnter(token))), Route(LeaveHandover)) == s
  {
  }

  /** A worker that dies forgets its locks, tasks, records, models and requests; what is in Redis, and the history of
      used names, stay. */
  lemma DeathForgets(s: State)
    ensures Apply(s, Redis(Die))
            == INITIAL.(hold := s.hold, depth := s.depth, tasks := s.tasks, issued := s.issued, presented := s.presented)
  {
  }

  /** Pins come and go by themselves; eviction drops an idle mode with its pin; a load moves a loaded mode to the end,
      or puts the mode in the place of the victims. */
  lemma CacheEventsAreExact(t: Table, mode: Mode, victims: seq<Mode>)
    ensures ApplyCache(t, PinMode(mode)) == if mode in t.loaded then t.(pinned := t.pinned + {mode}) else t
    ensures ApplyCache(t, UnpinMode(mode)) == t.(pinned := t.pinned - {mode})
    ensures var t' := ApplyCache(t, EvictMode(mode));
            if mode in t.loaded && mode !in t.inUse then
              && t'.pinned == t.pinned - {mode} && t'.inUse == t.inUse
              && forall m :: m in t'.loaded <==> m in t.loaded && m != mode
            else t' == t
    ensures var t' := ApplyCache(t, LoadMode(mode, victims));
            && (t'.inUse, t'.pinned) == (t.inUse, t.pinned)
            && (mode in t.loaded ==> forall m :: m in t'.loaded <==> m in t.loaded)
            && (mode !in t.loaded && victims <= Evictables(t, t.loaded) ==>
                  forall m :: m in t'.loaded <==> m == mode || (m in t.loaded && m !in victims))
            && (mode in t.loaded || victims <= Evictables(t, t.loaded) ==> t'.loaded != [] && t'.loaded[|t'.loaded| - 1] == mode)
            && (mode !in t.loaded && !(victims <= Evictables(t, t.loaded)) ==> t' == t)
  {
  }
}
