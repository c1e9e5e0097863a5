/**
 Cover suggestion jobs: claimed by one runner, drawn, staged, and published together with the job's
 completion in one transaction, against cancellation, the reaper, process death and restart recovery.

 One event is one committed transaction, one filesystem step, or one step inside the publishing
 transaction, which holds the lock of the job's row until it ends. An event that is not enabled
 changes nothing.
 */
module CoverPublication {
  import opened Wrappers

  type JobId = nat
  type AlbumId = nat
  type SuggestionId = nat

  datatype Status = Queued | Running | Completed | Failed | Cancelled

  datatype Job = Job(album: AlbumId, status: Status) {
    predicate Active() {
      status == Queued || status == Running
    }
  }

  /** How far the runner of a claimed job has come. `Locked` and `Moved` are inside the publishing
      transaction: the job's row is locked and its new status not yet committed. */
  datatype Phase =
    | Claimed
    | Loaded
    | Drawn
    | Staged(suggestion: SuggestionId)
    | Locked(suggestion: SuggestionId)
    | Moved(suggestion: SuggestionId)
    | Problem

  datatype State = State(
    jobs: map<JobId, Job>,
    rows: map<SuggestionId, JobId>,
    // PNG files in the suggestions directory, and in staging directories
    pngs: set<SuggestionId>,
    staged: map<JobId, Option<SuggestionId>>,
    runners: map<JobId, Phase>,
    // history: which job drew a suggestion, and the one each job published
    drawnBy: map<SuggestionId, JobId>,
    published: map<JobId, SuggestionId>
  )

  const INITIAL: State := State(map[], map[], {}, map[], map[], map[], map[])

  datatype DrawOutcome = Picture | NoPicture | AfterCancel

  datatype Event =
    | Enqueue(album: AlbumId, job: JobId)
    | Claim(job: JobId)
    | Load(job: JobId)
    | Draw(job: JobId, outcome: DrawOutcome)
    | Stage(job: JobId, suggestion: SuggestionId)
    | Lock(job: JobId)
    | Move(job: JobId)
    | Commit(job: JobId)
    | RollBack(job: JobId)
    | Raise(job: JobId)
    | EndWithProblem(job: JobId)
    | StopRunner(job: JobId)
    | Cancel(job: JobId)
    | Reap(job: JobId)
    | Die
    | Recover
    | DeleteRow(suggestion: SuggestionId)

  predicate At(s: State, job: JobId, phase: Phase) {
    job in s.runners && s.runners[job] == phase
  }

  /** The publishing transaction holds the row: other writers of the status wait. */
  predicate RowIsLocked(s: State, job: JobId) {
    job in s.runners && (s.runners[job].Locked? || s.runners[job].Moved?)
  }

  predicate MayEnd(s: State, job: JobId) {
    job in s.jobs && s.jobs[job].Active() && !RowIsLocked(s, job)
  }

  function SetStatus(s: State, job: JobId, status: Status): State
    requires job in s.jobs
  {
    s.(jobs := s.jobs[job := s.jobs[job].(status := status)])
  }

  function To(s: State, job: JobId, phase: Phase): State {
    s.(runners := s.runners[job := phase])
  }

  function Leave(s: State, job: JobId): State {
    s.(runners := s.runners - {job}, staged := s.staged - {job})
  }

  function Apply(s: State, e: Event): State {
    match e
    case Enqueue(album, job) =>
      if job in s.jobs || (exists j :: j in s.jobs && s.jobs[j].album == album && s.jobs[j].Active()) then s
      else s.(jobs := s.jobs[job := Job(album, Queued)])
    case Claim(job) =>
      if job in s.jobs && s.jobs[job].status == Queued && job !in s.runners
      then To(SetStatus(s, job, Running), job, Claimed) else s
    case Load(job) =>
      if !At(s, job, Claimed) then s
      else To(s, job, if job in s.jobs && s.jobs[job].status == Running then Loaded else Problem)
    case Draw(job, outcome) =>
      if !At(s, job, Loaded) then s
      else if outcome.AfterCancel? then Leave(s, job)
      else To(s, job, if outcome.Picture? then Drawn else Problem)
    case Stage(job, suggestion) =>
      if At(s, job, Drawn) && suggestion !in s.drawnBy then StageFile(s, job, suggestion) else s
    case Lock(job) => LockRow(s, job)
    case Move(job) => if job in s.runners && s.runners[job].Locked? then MoveFile(s, job, s.runners[job].suggestion) else s
    case Commit(job) =>
      if job in s.runners && s.runners[job].Moved? && job in s.jobs then CommitRow(s, job, s.runners[job].suggestion) else s
    case RollBack(job) =>
      if !RowIsLocked(s, job) then s
      else if s.runners[job].Moved? then To(s.(pngs := s.pngs - {s.runners[job].suggestion}), job, Problem)
      else To(s, job, Problem)
    case Raise(job) => if job in s.runners && !RowIsLocked(s, job) then To(s, job, Problem) else s
    case EndWithProblem(job) =>
      if !At(s, job, Problem) then s
      else if MayEnd(s, job) then Leave(SetStatus(s, job, Failed), job) else Leave(s, job)
    case StopRunner(job) => if job in s.runners && !RowIsLocked(s, job) then Leave(s, job) else s
    case Cancel(job) => if MayEnd(s, job) then SetStatus(s, job, Cancelled) else s
    case Reap(job) => if MayEnd(s, job) then SetStatus(s, job, Failed) else s
    case Die => s.(runners := map[])
    case Recover => if s.runners == map[] then Recovered(s) else s
    case DeleteRow(suggestion) =>
      if suggestion in s.rows then s.(rows := s.rows - {suggestion}, pngs := s.pngs - {suggestion}) else s
  }

  /** The status write of the publishing transaction: refused once the job has ended. */
  function LockRow(s: State, job: JobId): State {
    if job !in s.runners || !s.runners[job].Staged? then s
    else if job in s.jobs && s.jobs[job].Active() then To(s, job, Locked(s.runners[job].suggestion))
    else To(s, job, Problem)
  }

  function StageFile(s: State, job: JobId, suggestion: SuggestionId): State {
    To(s, job, Staged(suggestion)).(drawnBy := s.drawnBy[suggestion := job], staged := s.staged[job := Some(suggestion)])
  }

  function MoveFile(s: State, job: JobId, suggestion: SuggestionId): State {
    To(s, job, Moved(suggestion)).(pngs := s.pngs + {suggestion}, staged := s.staged[job := None])
  }

  /** The job's completion and its suggestion's row become visible together. */
  function CommitRow(s: State, job: JobId, suggestion: SuggestionId): State
    requires job in s.jobs
  {
    Leave(SetStatus(s, job, Completed), job).(rows := s.rows[suggestion := job], published := s.published[job := suggestion])
  }

  function Interrupted(s: State): set<JobId> {
    set job | job in s.jobs && s.jobs[job].status == Running
  }

  /** At startup: delete the suggestions of running jobs, fail those jobs, then remove their files and
      staging directories. */
  function Recovered(s: State): State {
    var gone := set suggestion | suggestion in s.rows && s.rows[suggestion] in Interrupted(s);
    s.(rows := s.rows - gone, pngs := s.pngs - gone, staged := s.staged - Interrupted(s),
    jobs := map job | job in s.jobs :: if s.jobs[job].status == Running then s.jobs[job].(status := Failed) else s.jobs[job])
  }

  function Run(events: seq<Event>): State {
    if events == [] then INITIAL else Apply(Run(events[..|events| - 1]), events[|events| - 1])
  }

  // ---------------------------------------------------------------- what every event keeps

  function Carried(phase: Phase): Option<SuggestionId> {
    match phase
    case Staged(suggestion) => Some(suggestion)
    case Locked(suggestion) => Some(suggestion)
    case Moved(suggestion) => Some(suggestion)
    case _ => None
  }

  /** A row names a completed job and the one suggestion it drew and published; its picture is on disk. */
  predicate RowPlaced(s: State, x: SuggestionId)
    requires x in s.rows
  {
    var job := s.rows[x];
    job in s.published && s.published[job] == x && x in s.pngs && x in s.drawnBy && s.drawnBy[x] == job
  }

  /** A runner's job was claimed and has not published; while its row is locked it runs; it carries only
      what it drew itself. */
  predicate RunnerPlaced(s: State, job: JobId)
    requires job in s.runners
  {
    var phase := s.runners[job];
    && job in s.jobs && job !in s.published && s.jobs[job].status != Queued
    && (phase.Locked? || phase.Moved? ==> s.jobs[job].status == Running)
    && (Carried(phase).Some? ==> Carried(phase).value in s.drawnBy && s.drawnBy[Carried(phase).value] == job)
    && (phase.Moved? ==> phase.suggestion in s.pngs)
  }

  ghost predicate Placed(s: State) {
    && (forall job | job in s.jobs :: s.jobs[job].status == Completed <==> job in s.published)
    && s.published.Keys <= s.jobs.Keys
    && (forall x | x in s.rows :: RowPlaced(s, x))
    && (forall job | job in s.runners :: RunnerPlaced(s, job))
  }

  ghost predicate OneActivePerAlbum(s: State) {
    forall j, k | j in s.jobs && k in s.jobs && s.jobs[j].Active() && s.jobs[k].Active() && s.jobs[j].album == s.jobs[k].album :: j == k
  }

  ghost predicate Good(s: State) {
    Placed(s) && OneActivePerAlbum(s)
  }

  /** A runner moves on, carrying what it carried, or leaves. */
  predicate RunnerMove(s: State, s': State, job: JobId) {
    && job in s.runners && s' == s.(runners := s'.runners, staged := s'.staged)
    && if job in s'.runners then
         var phase := s'.runners[job];
         && s'.runners == s.runners[job := phase]
         && (Carried(phase).None? || Carried(phase) == Carried(s.runners[job]))
         && (phase.Locked? ==> job in s.jobs && s.jobs[job].status == Running)
         && !phase.Moved?
       else s'.runners == s.runners - {job}
  }

  lemma RunnerMoveIsPlaced(s: State, s': State, job: JobId)
    requires Placed(s) && RunnerMove(s, s', job)
    ensures Placed(s')
  {
    forall x | x in s'.rows ensures RowPlaced(s', x) { assert RowPlaced(s, x); }
    forall j | j in s'.runners ensures RunnerPlaced(s', j) { assert RunnerPlaced(s, j); }
  }

  lemma StatusIsPlaced(s: State, job: JobId, status: Status)
    requires Placed(s) && MayEnd(s, job) && (status == Failed || status == Cancelled)
    ensures Placed(SetStatus(s, job, status))
  {
    var s' := SetStatus(s, job, status);
    forall x | x in s'.rows ensures RowPlaced(s', x) { assert RowPlaced(s, x); }
    forall j | j in s'.runners ensures RunnerPlaced(s', j) { assert RunnerPlaced(s, j); }
  }

  lemma EnqueueIsPlaced(s: State, album: AlbumId, job: JobId)
    requires Placed(s) && job !in s.jobs
    ensures Placed(s.(jobs := s.jobs[job := Job(album, Queued)]))
  {
    var s' := s.(jobs := s.jobs[job := Job(album, Queued)]);
    forall x | x in s'.rows ensures RowPlaced(s', x) { assert RowPlaced(s, x); }
    forall j | j in s'.runners ensures RunnerPlaced(s', j) { assert RunnerPlaced(s, j); }
  }

  lemma ClaimIsPlaced(s: State, job: JobId)
    requires Placed(s) && job in s.jobs && s.jobs[job].status == Queued && job !in s.runners
    ensures Placed(To(SetStatus(s, job, Running), job, Claimed))
  {
    var s' := To(SetStatus(s, job, Running), job, Claimed);
    forall x | x in s'.rows ensures RowPlaced(s', x) { assert RowPlaced(s, x); }
    forall j | j in s'.runners ensures RunnerPlaced(s', j) { assert j != job ==> RunnerPlaced(s, j); }
  }

  lemma StageIsPlaced(s: State, job: JobId, suggestion: SuggestionId)
    requires Placed(s) && job in s.runners && suggestion !in s.drawnBy
    ensures Placed(StageFile(s, job, suggestion))
  {
    var s' := StageFile(s, job, suggestion);
    forall x | x in s'.rows ensures RowPlaced(s', x) { assert RowPlaced(s, x); }
    forall j | j in s'.runners ensures RunnerPlaced(s', j) { assert RunnerPlaced(s, j); }
  }

  lemma MoveIsPlaced(s: State, job: JobId)
    requires Placed(s) && job in s.runners && s.runners[job].Locked?
    ensures Placed(MoveFile(s, job, s.runners[job].suggestion))
  {
    var s' := MoveFile(s, job, s.runners[job].suggestion);
    forall x | x in s'.rows ensures RowPlaced(s', x) { assert RowPlaced(s, x); }
    forall j | j in s'.runners ensures RunnerPlaced(s', j) { assert RunnerPlaced(s, j); }
  }

  lemma CommitIsPlaced(s: State, job: JobId)
    requires Placed(s) && job in s.runners && s.runners[job].Moved? && job in s.jobs
    ensures Placed(CommitRow(s, job, s.runners[job].suggestion))
  {
    var s' := CommitRow(s, job, s.runners[job].suggestion);
    assert RunnerPlaced(s, job);
    forall x | x in s'.rows ensures RowPlaced(s', x) { assert x in s.rows ==> RowPlaced(s, x); }
    forall j | j in s'.runners ensures RunnerPlaced(s', j) { assert RunnerPlaced(s, j); }
  }

  /** The file was moved but its row will not be: the picture is removed again. */
  lemma RollBackIsPlaced(s: State, job: JobId)
    requires Placed(s) && job in s.runners && s.runners[job].Moved?
    ensures Placed(To(s.(pngs := s.pngs - {s.runners[job].suggestion}), job, Problem))
  {
    var s' := To(s.(pngs := s.pngs - {s.runners[job].suggestion}), job, Problem);
    assert RunnerPlaced(s, job);
    forall x | x in s'.rows ensures RowPlaced(s', x) { assert RowPlaced(s, x); }
    forall j | j in s'.runners ensures RunnerPlaced(s', j) { assert RunnerPlaced(s, j); }
  }

  lemma DeletingIsPlaced(s: State, suggestion: SuggestionId)
    requires Placed(s) && suggestion in s.rows
    ensures Placed(s.(rows := s.rows - {suggestion}, pngs := s.pngs - {suggestion}))
  {
    var s' := s.(rows := s.rows - {suggestion}, pngs := s.pngs - {suggestion});
    assert RowPlaced(s, suggestion);
    forall x | x in s'.rows ensures RowPlaced(s', x) { assert RowPlaced(s, x); }
    forall j | j in s'.runners ensures RunnerPlaced(s', j) { assert RunnerPlaced(s, j); }
  }

  lemma RecoveryIsPlaced(s: State)
    requires Placed(s) && s.runners == map[]
    ensures Placed(Recovered(s)) && Recovered(s).rows == s.rows && Recovered(s).pngs == s.pngs
  {
    forall x | x in s.rows ensures s.rows[x] !in Interrupted(s) { assert RowPlaced(s, x); }
    assert Recovered(s).rows == s.rows;
    forall x | x in s.rows ensures RowPlaced(Recovered(s), x) { assert RowPlaced(s, x); }
  }

  // ---------------------------------------------------------------- one active job per album

  /** Jobs that were active before, or one more for an album that had none. */
  lemma OneActiveIsKept(s: State, e: Event)
    requires OneActivePerAlbum(s)
    ensures OneActivePerAlbum(Apply(s, e))
  {
    var s' := Apply(s, e);
    if e.Enqueue? {
    } else {
      NoJobIsActivated(s, e);
      hide Apply;
    }
  }

  /** The events that write a job's status, besides `Enqueue`. */
  predicate WritesStatus(e: Event) {
    e.Claim? || e.Commit? || e.EndWithProblem? || e.Cancel? || e.Reap? || e.Recover?
  }

  /** The jobs stay, and only those active before are active after. */
  predicate ActivatesNone(jobs: map<JobId, Job>, jobs': map<JobId, Job>) {
    && jobs'.Keys == jobs.Keys
    && forall job | job in jobs :: jobs'[job].album == jobs[job].album && (jobs'[job].Active() ==> jobs[job].Active())
  }

  lemma NoJobIsActivated(s: State, e: Event)
    requires !e.Enqueue?
    ensures ActivatesNone(s.jobs, Apply(s, e).jobs)
  {
    if e.Recover? {
      RecoveryActivatesNone(s);
    } else if WritesStatus(e) {
      StatusWritesActivateNone(s, e);
    } else {
      FilesLeaveJobs(s, e);
    }
    hide Apply;
  }

  lemma RecoveryActivatesNone(s: State)
    ensures ActivatesNone(s.jobs, Apply(s, Recover).jobs)
  {
  }

  lemma StatusWritesActivateNone(s: State, e: Event)
    requires WritesStatus(e) && !e.Recover?
    ensures ActivatesNone(s.jobs, Apply(s, e).jobs)
  {
    var status := if e.Claim? then Running else if e.Commit? then Completed else if e.Cancel? then Cancelled else Failed;
    OneStatusIsWritten(s, e, status);
    hide Apply;
    if Apply(s, e).jobs != s.jobs {
      WritingActivatesNone(s.jobs, e.job, status);
    }
  }

  lemma OneStatusIsWritten(s: State, e: Event, status: Status)
    requires WritesStatus(e) && !e.Recover?
    requires status == if e.Claim? then Running else if e.Commit? then Completed else if e.Cancel? then Cancelled else Failed
    ensures Apply(s, e).jobs == s.jobs
            || (e.job in s.jobs && (e.Claim? ==> s.jobs[e.job].Active())
                && Apply(s, e).jobs == s.jobs[e.job := s.jobs[e.job].(status := status)])
  {
  }

  lemma WritingActivatesNone(jobs: map<JobId, Job>, job: JobId, status: Status)
    requires job in jobs && (status in {Completed, Cancelled, Failed} || jobs[job].Active())
    ensures ActivatesNone(jobs, jobs[job := jobs[job].(status := status)])
  {
  }

  lemma FilesLeaveJobs(s: State, e: Event)
    requires !e.Enqueue? && !WritesStatus(e)
    ensures Apply(s, e).jobs == s.jobs
  {
  }

  lemma MoveOrStay(s: State, e: Event, job: JobId)
    requires Placed(s) && (Apply(s, e) == s || RunnerMove(s, Apply(s, e), job))
    ensures Placed(Apply(s, e))
  {
    hide Apply;
    if Apply(s, e) != s {
      RunnerMoveIsPlaced(s, Apply(s, e), job);
    }
  }

  lemma ActiveRunnerIsRunning(s: State, job: JobId)
    requires Placed(s)
    ensures job in s.runners ==> job in s.jobs && (s.jobs[job].Active() ==> s.jobs[job].status == Running)
  {
    assert job in s.runners ==> RunnerPlaced(s, job);
  }

  lemma DeathIsPlaced(s: State)
    requires Placed(s)
    ensures Placed(s.(runners := map[]))
  {
    forall x | x in s.rows ensures RowPlaced(s.(runners := map[]), x) { assert RowPlaced(s, x); }
  }

  lemma EndingIsPlaced(s: State, job: JobId)
    requires Placed(s)
    ensures Placed(Apply(s, EndWithProblem(job)))
  {
    hide Placed;
    if At(s, job, Problem) {
      if MayEnd(s, job) {
        StatusIsPlaced(s, job, Failed);
        RunnerMoveIsPlaced(SetStatus(s, job, Failed), Leave(SetStatus(s, job, Failed), job), job);
      } else {
        RunnerMoveIsPlaced(s, Leave(s, job), job);
      }
    }
  }

  /** The steps by which a runner moves on, or leaves, without touching jobs, rows or pictures of its own. */
  predicate IsRunnerStep(e: Event) {
    e.Load? || e.Draw? || e.Lock? || e.RollBack? || e.Raise? || e.StopRunner?
  }

  lemma RunnerStepIsPlaced(s: State, e: Event)
    requires Placed(s) && IsRunnerStep(e)
    ensures Placed(Apply(s, e))
  {
    hide Placed;
    if e.RollBack? && e.job in s.runners && s.runners[e.job].Moved? {
      RollBackIsPlaced(s, e.job);
    } else {
      ActiveRunnerIsRunning(s, e.job);
      MoveOrStay(s, e, e.job);
    }
  }

  lemma EventIsPlaced(s: State, e: Event)
    requires Placed(s)
    ensures Placed(Apply(s, e))
  {
    hide Placed, Recovered, StageFile, MoveFile, CommitRow;
    if IsRunnerStep(e) {
      hide Apply;
      RunnerStepIsPlaced(s, e);
    } else if e.EndWithProblem? {
      hide Apply;
      EndingIsPlaced(s, e.job);
    } else {
      OtherEventIsPlaced(s, e);
    }
  }

  lemma OtherEventIsPlaced(s: State, e: Event)
    requires Placed(s) && !IsRunnerStep(e) && !e.EndWithProblem?
    ensures Placed(Apply(s, e))
  {
    hide Placed, Recovered, StageFile, MoveFile, CommitRow, LockRow;
    match e
    case Enqueue(album, job) =>
      if Apply(s, e) != s {
        EnqueueIsPlaced(s, album, job);
      }
    case Claim(job) =>
      if Apply(s, e) != s {
        ClaimIsPlaced(s, job);
      }
    case Stage(job, suggestion) =>
      if Apply(s, e) != s {
        StageIsPlaced(s, job, suggestion);
      }
    case Move(job) =>
      if Apply(s, e) != s {
        MoveIsPlaced(s, job);
      }
    case Commit(job) =>
      if Apply(s, e) != s {
        CommitIsPlaced(s, job);
      }
    case Cancel(job) =>
      if MayEnd(s, job) {
        StatusIsPlaced(s, job, Cancelled);
      }
    case Reap(job) =>
      if MayEnd(s, job) {
        StatusIsPlaced(s, job, Failed);
      }
    case Die => DeathIsPlaced(s);
    case Recover =>
      if s.runners == map[] {
        RecoveryIsPlaced(s);
      }
    case DeleteRow(suggestion) =>
      if Apply(s, e) != s {
        DeletingIsPlaced(s, suggestion);
      }
  }

  // ---------------------------------------------------------------- whole runs

  /** On every run a suggestion row exists only for a completed job, at most one per job, with its picture on
      disk; a cancelled or failed job has none; and a job is completed exactly when it published. */
  lemma {:induction false} RowsBelongToCompletedJobs(events: seq<Event>)
    ensures var s := Run(events);
            && Good(s)
            && (forall x | x in s.rows :: s.rows[x] in s.jobs && s.jobs[s.rows[x]].status == Completed && x in s.pngs)
            && (forall x, y | x in s.rows && y in s.rows && s.rows[x] == s.rows[y] :: x == y)
  {
    if events != [] {
      RowsBelongToCompletedJobs(events[..|events| - 1]);
      EventIsPlaced(Run(events[..|events| - 1]), events[|events| - 1]);
      OneActiveIsKept(Run(events[..|events| - 1]), events[|events| - 1]);
    }
    var s := Run(events);
    forall x | x in s.rows ensures s.rows[x] in s.jobs && s.jobs[s.rows[x]].status == Completed && x in s.pngs {
      assert RowPlaced(s, x);
    }
    forall x, y | x in s.rows && y in s.rows && s.rows[x] == s.rows[y] ensures x == y {
      assert RowPlaced(s, x) && RowPlaced(s, y);
    }
  }

  /** Recovery after a restart removes no row and no picture: an interrupted job has none yet, and those
      of finished jobs are not its own. */
  lemma RecoveryRemovesNoSuggestion(events: seq<Event>)
    ensures var s := Run(events);
            var s' := Apply(s, Recover);
            && s'.rows == s.rows && s'.pngs == s.pngs
            && (s.runners == map[] ==> forall job | job in s'.jobs :: s'.jobs[job].status != Running)
  {
    RowsBelongToCompletedJobs(events);
    hide Run, Placed, OneActivePerAlbum;
    if Run(events).runners == map[] {
      RecoveryIsPlaced(Run(events));
    }
  }

  /** A row appears only with the commit that completes its job, and a job that has ended keeps its
      status; so a cancelled or failed job never gains a suggestion. */
  lemma RowsAppearOnlyWithCompletion(events: seq<Event>, e: Event)
    ensures var s := Run(events);
            var s' := Apply(s, e);
            && (forall x | x in s'.rows && x !in s.rows ::
                  e == Commit(s'.rows[x]) && s'.rows[x] in s.jobs
                  && s.jobs[s'.rows[x]].status == Running && s'.jobs[s'.rows[x]].status == Completed)
            && EndedJobsAreKept(s, s')
  {
    RowsBelongToCompletedJobs(events);
    hide Run;
    EndedJobsStay(Run(events), e);
  }

  ghost predicate EndedJobsAreKept(s: State, s': State) {
    forall job | job in s.jobs && !s.jobs[job].Active() :: job in s'.jobs && s'.jobs[job] == s.jobs[job]
  }

  lemma OtherEventsAddNoRow(s: State, e: Event)
    requires !e.Commit?
    ensures Apply(s, e).rows.Keys <= s.rows.Keys
    ensures forall x | x in Apply(s, e).rows :: Apply(s, e).rows[x] == s.rows[x]
  {
  }

  lemma OtherEventsKeepEndedJobs(s: State, e: Event)
    requires !e.Commit?
    ensures EndedJobsAreKept(s, Apply(s, e))
  {
  }

  lemma CommitCompletesARunningJob(s: State, job: JobId)
    requires Placed(s) && job in s.runners && s.runners[job].Moved?
    ensures job in s.jobs && s.jobs[job].status == Running
  {
    assert RunnerPlaced(s, job);
  }

  lemma EndedJobsStay(s: State, e: Event)
    requires Placed(s)
    ensures var s' := Apply(s, e);
            && (forall x | x in s'.rows && x !in s.rows ::
                  e == Commit(s'.rows[x]) && s'.rows[x] in s.jobs
                  && s.jobs[s'.rows[x]].status == Running && s'.jobs[s'.rows[x]].status == Completed)
            && EndedJobsAreKept(s, s')
  {
    hide Placed;
    if e.Commit? {
      if e.job in s.runners && s.runners[e.job].Moved? {
        CommitCompletesARunningJob(s, e.job);
      }
    } else {
      OtherEventsAddNoRow(s, e);
      OtherEventsKeepEndedJobs(s, e);
      hide Apply;
    }
  }

  // ---------------------------------------------------------------- a job that nothing disturbs

  lemma PictureIsStaged(s: State, job: JobId, suggestion: SuggestionId)
    requires job in s.jobs && s.jobs[job].status == Queued && job !in s.runners && suggestion !in s.drawnBy
    ensures var claimed := Apply(s, Claim(job));
            var drawn := Apply(Apply(claimed, Load(job)), Draw(job, Picture));
            Apply(drawn, Stage(job, suggestion))
            == s.(jobs := s.jobs[job := s.jobs[job].(status := Running)], runners := s.runners[job := Staged(suggestion)],
                  drawnBy := s.drawnBy[suggestion := job], staged := s.staged[job := Some(suggestion)])
  {
    assert s.runners[job := Claimed][job := Loaded][job := Drawn][job := Staged(suggestion)] == s.runners[job := Staged(suggestion)];
  }

  /** A job nothing disturbs ends completed, with exactly one row and one picture more and nothing left in
      staging. */
  lemma UndisturbedJobPublishes(s: State, job: JobId, suggestion: SuggestionId)
    requires job in s.jobs && s.jobs[job].status == Queued && job !in s.runners && suggestion !in s.drawnBy
    requires job !in s.staged
    ensures var claimed := Apply(s, Claim(job));
            var drawn := Apply(Apply(claimed, Load(job)), Draw(job, Picture));
            var staged := Apply(drawn, Stage(job, suggestion));
            Apply(Apply(Apply(staged, Lock(job)), Move(job)), Commit(job))
            == s.(jobs := s.jobs[job := s.jobs[job].(status := Completed)], rows := s.rows[suggestion := job],
                  pngs := s.pngs + {suggestion}, drawnBy := s.drawnBy[suggestion := job],
                  published := s.published[job := suggestion])
  {
    hide Apply;
    PictureIsStaged(s, job, suggestion);
    var staged := s.(jobs := s.jobs[job := s.jobs[job].(status := Running)], runners := s.runners[job := Staged(suggestion)],
                     drawnBy := s.drawnBy[suggestion := job], staged := s.staged[job := Some(suggestion)]);
    StagedPictureIsPublished(staged, job, suggestion);
    assert s.runners[job := Staged(suggestion)] - {job} == s.runners;
    assert s.staged[job := Some(suggestion)] - {job} == s.staged;
    var running, completed := s.jobs[job].(status := Running), s.jobs[job].(status := Completed);
    assert s.jobs[job := running][job := completed] == s.jobs[job := completed];
  }

  lemma StagedPictureIsPublished(s: State, job: JobId, suggestion: SuggestionId)
    requires job in s.jobs && s.jobs[job].status == Running && At(s, job, Staged(suggestion))
    ensures Apply(Apply(Apply(s, Lock(job)), Move(job)), Commit(job))
            == s.(jobs := s.jobs[job := s.jobs[job].(status := Completed)], rows := s.rows[suggestion := job],
                  pngs := s.pngs + {suggestion}, published := s.published[job := suggestion],
                  runners := s.runners - {job}, staged := s.staged - {job})
  {
    var locked := To(s, job, Locked(suggestion));
    assert Apply(s, Lock(job)) == locked;
    var moved := MoveFile(locked, job, suggestion);
    assert Apply(locked, Move(job)) == moved;
    hide MoveFile;
    MovedIsStillRunning(locked, job, suggestion);
    assert Apply(moved, Commit(job)) == CommitRow(moved, job, suggestion);
    assert s.runners[job := Locked(suggestion)][job := Moved(suggestion)] - {job} == s.runners - {job};
  }

  lemma MovedIsStillRunning(s: State, job: JobId, suggestion: SuggestionId)
    ensures MoveFile(s, job, suggestion).jobs == s.jobs
    ensures MoveFile(s, job, suggestion) == s.(runners := s.runners[job := Moved(suggestion)], pngs := s.pngs + {suggestion},
                                               staged := s.staged[job := None])
  {
  }

  // ---------------------------------------------------------------- admission, ends and recovery, exactly

  /** A request gets a queued job exactly when the album has none queued or running; otherwise nothing changes. */
  lemma RequestIsAdmitted(s: State, album: AlbumId, job: JobId)
    requires job !in s.jobs
    ensures var busy := exists j :: j in s.jobs && s.jobs[j].album == album && (s.jobs[j].status == Queued || s.jobs[j].status == Running);
            Apply(s, Enqueue(album, job)) == if busy then s else s.(jobs := s.jobs[job := Job(album, Queued)])
  {
  }

  /** One runner gets a queued job, and it is running from then on. */
  lemma ClaimIsTaken(s: State, job: JobId)
    requires job in s.jobs
    ensures var s' := Apply(s, Claim(job));
            if s.jobs[job].status == Queued && job !in s.runners then
              s' == s.(jobs := s.jobs[job := Job(s.jobs[job].album, Running)], runners := s.runners[job := Claimed])
            else s' == s
  {
  }

  /** A cancel, or the reaper, ends a queued or running job there and then, unless its publication holds the row;
      an ended one is left alone. */
  lemma CancelEndsTheJob(s: State, job: JobId)
    requires job in s.jobs
    ensures var open := (s.jobs[job].status == Queued || s.jobs[job].status == Running)
                        && !(job in s.runners && (s.runners[job].Locked? || s.runners[job].Moved?));
            && Apply(s, Cancel(job)) == (if open then s.(jobs := s.jobs[job := Job(s.jobs[job].album, Cancelled)]) else s)
            && Apply(s, Reap(job)) == (if open then s.(jobs := s.jobs[job := Job(s.jobs[job].album, Failed)]) else s)
  {
  }

  /** The step at which a runner learns that there will be no suggestion: the job ended before its picture, no picture
      came, the job ended before its publication, the publication was rolled back, or anything raised outside of it. */
  predicate GoesWrong(s: State, e: Event) {
    match e
    case Load(job) => job in s.runners && s.runners[job] == Claimed && !(job in s.jobs && s.jobs[job].status == Running)
    case Draw(job, outcome) => job in s.runners && s.runners[job] == Loaded && outcome == NoPicture
    case Lock(job) => job in s.runners && s.runners[job].Staged? && !(job in s.jobs && s.jobs[job].Active())
    case RollBack(job) => job in s.runners && (s.runners[job].Locked? || s.runners[job].Moved?)
    case Raise(job) => job in s.runners && !(s.runners[job].Locked? || s.runners[job].Moved?)
    case _ => false
  }

  /** Whatever goes wrong, the runner leaves no row, no picture of its own and nothing staged, and its job, if it has
      not ended otherwise, has failed. */
  lemma ProblemsEndTheJob(s: State, e: Event)
    requires Placed(s) && GoesWrong(s, e)
    ensures var s' := Apply(Apply(s, e), EndWithProblem(e.job));
            && s'.rows == s.rows
            && s'.pngs == (if s.runners[e.job].Moved? then s.pngs - {s.runners[e.job].suggestion} else s.pngs)
            && e.job !in s'.runners && e.job !in s'.staged
            && e.job in s'.jobs
            && s'.jobs == (if s.jobs[e.job].Active() then s.jobs[e.job := Job(s.jobs[e.job].album, Failed)] else s.jobs)
  {
    assert RunnerPlaced(s, e.job);
    WrongIsAProblem(s, e);
    hide Placed, RunnerPlaced, GoesWrong;
    var wrong := Apply(s, e);
    assert At(wrong, e.job, Problem) && MayEnd(wrong, e.job) == s.jobs[e.job].Active();
  }

  lemma WrongIsAProblem(s: State, e: Event)
    requires GoesWrong(s, e)
    ensures var pngs := if s.runners[e.job].Moved? then s.pngs - {s.runners[e.job].suggestion} else s.pngs;
            Apply(s, e) == s.(runners := s.runners[e.job := Problem], pngs := pngs)
  {
  }

  /** A cancel that reaches the picture, and a runner that is stopped, leave the job's status to whoever ended it. */
  lemma StoppedRunnersLeave(s: State, job: JobId)
    requires job in s.runners
    ensures s.runners[job] == Loaded ==>
              Apply(s, Draw(job, AfterCancel)) == s.(runners := s.runners - {job}, staged := s.staged - {job})
    ensures !(s.runners[job].Locked? || s.runners[job].Moved?) ==>
              Apply(s, StopRunner(job)) == s.(runners := s.runners - {job}, staged := s.staged - {job})
  {
  }

  /** With the process all its runners are gone. Recovery then fails exactly the running jobs, removes their staging
      directories, and touches no other. */
  lemma RecoveryIsExact(s: State)
    requires Placed(s)
    ensures Apply(s, Die) == s.(runners := map[])
    ensures s.runners == map[] ==>
              var s' := Apply(s, Recover);
              && s' == s.(jobs := s'.jobs, staged := s'.staged) && s'.jobs.Keys == s.jobs.Keys
              && (forall job | job in s.jobs ::
                    s'.jobs[job] == if s.jobs[job].status == Running then Job(s.jobs[job].album, Failed) else s.jobs[job])
              && (forall job :: job in s'.staged <==> job in s.staged && !(job in s.jobs && s.jobs[job].status == Running))
              && (forall job | job in s'.staged :: s'.staged[job] == s.staged[job])
  {
    if s.runners == map[] {
      RecoveryIsPlaced(s);
    }
    hide Placed;
  }

  /** In any state recovery removes exactly the rows and pictures of running jobs, though by then there are none. */
  lemma RecoveryDropsInterrupted(s: State)
    requires s.runners == map[]
    ensures var s' := Apply(s, Recover);
            && (forall x :: x in s'.rows <==> x in s.rows && !(s.rows[x] in s.jobs && s.jobs[s.rows[x]].status == Running))
            && (forall x :: x in s'.pngs <==> x in s.pngs && !(x in s.rows && s.rows[x] in s.jobs && s.jobs[s.rows[x]].status == Running))
  {
  }

  /** A user who deletes a suggestion removes its row and its picture, and nothing else. */
  lemma DeletionIsExact(s: State, suggestion: SuggestionId)
    ensures Apply(s, DeleteRow(suggestion))
            == if suggestion in s.rows then s.(rows := s.rows - {suggestion}, pngs := s.pngs - {suggestion}) else s
  {
  }
}
