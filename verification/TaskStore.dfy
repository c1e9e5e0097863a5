/**
 The worker's task store: task records changed in place, event queues of their subscribers, and the
 result files the records name. A method body is what runs under the store's lock, together with the
 puts on unbounded queues that follow it without a suspension.
 */
module TaskStores {
  import opened Wrappers
  import opened TaskFiles

  type FeedId = nat

  datatype TaskState = Pending | Working | Done | Failed

  datatype TaskKind = Generate | Download | TrainLora

  datatype Snapshot = Snapshot(kind: TaskKind, trainEpochs: Option<nat>,
                               state: TaskState, progress: real, phase: Option<nat>, epoch: Option<int>, startedAt: Option<nat>,
                               result: Option<nat>, error: Option<string>, errorKind: Option<nat>, updatedAt: nat)

  datatype Kind = ProgressEvent | DoneEvent | ErrorEvent

  datatype Event = Event(kind: Kind, data: Snapshot) {
    predicate Terminal() {
      kind != ProgressEvent
    }
  }

  datatype Task = Task(snapshot: Snapshot, terminalAt: Option<nat>, resultFile: Option<Path>, subscribers: set<FeedId>)

  /** The fields one update writes; the others keep what the task holds. */
  datatype Update = Update(state: Option<TaskState>, progress: Option<real>, phase: Option<nat>, epoch: Option<int>,
                           startedAt: Option<nat>, result: Option<nat>, error: Option<(string, Option<nat>)>, terminal: bool,
                           resultFile: Option<Path>)

  const NOTHING: Update := Update(None, None, None, None, None, None, None, false, None)

  function Written(t: Task, u: Update, now: nat): Task {
    var s := t.snapshot;
    var snapshot := Snapshot(
                      s.kind, s.trainEpochs,
                      if u.state.Some? then u.state.value else s.state,
                      if u.progress.Some? then u.progress.value else s.progress,
                      Or(u.phase, s.phase), Or(u.epoch, s.epoch), Or(u.startedAt, s.startedAt), Or(u.result, s.result),
                      if u.error.Some? then Some(u.error.value.0) else s.error,
                      if u.error.Some? then u.error.value.1 else s.errorKind, now);
    Task(snapshot, if u.terminal then Some(now) else t.terminalAt, Or(u.resultFile, t.resultFile), t.subscribers)
  }

  function ToEvent(s: Snapshot): Event {
    Event(if s.state == Done then DoneEvent else if s.state == Failed then ErrorEvent else ProgressEvent, s)
  }

  /** The event says how far the task is: done, failed, or still under way; and only the first two are terminal. */
  ghost predicate TellsTheState(e: Event) {
    && (e.kind == DoneEvent <==> e.data.state == Done)
    && (e.kind == ErrorEvent <==> e.data.state == Failed)
    && (e.Terminal() <==> e.data.state == Done || e.data.state == Failed)
  }

  lemma EventsTellTheState(s: Snapshot)
    ensures TellsTheState(ToEvent(s)) && ToEvent(s).data == s
  {
  }

  /** How far a subscriber's generator has come. */
  datatype Phase = NotStarted | Listening | Ending | Finished | Abandoned {
    predicate Left() {
      Finished? || Abandoned?
    }

    /** The generator ends: after its terminal event, or because its client goes. */
    function AfterLeaving(): Phase {
      if Ending? || Finished? then Finished else Abandoned
    }
  }

  datatype Feed = Feed(task: TaskId, initial: Event, phase: Phase, queue: seq<Event>)

  /** The events up to the first terminal one. */
  function UpToTerminal(events: seq<Event>): (cut: seq<Event>)
    ensures cut <= events
  {
    if events == [] then []
    else if events[0].Terminal() then [events[0]]
    else [events[0]] + UpToTerminal(events[1..])
  }

  /** What a feed yielded and still holds is the state at subscription and every later event, in order;
      it yields no further than the first terminal one. */
  ghost predicate InOrder(feed: Feed, yielded: seq<Event>, later: seq<Event>) {
    var due := [feed.initial] + later;
    && yielded <= UpToTerminal(due)
    && match feed.phase
       case NotStarted => yielded == [] && feed.queue == later
       case Listening => yielded != [] && yielded + feed.queue == due && (forall e | e in yielded :: !e.Terminal())
       case Ending => yielded == UpToTerminal(due) && yielded + feed.queue == due && yielded[|yielded| - 1].Terminal()
       case Finished => yielded == UpToTerminal(due) && yielded != [] && yielded[|yielded| - 1].Terminal()
       case Abandoned => true
  }

  lemma {:induction false} CutAfterProgress(events: seq<Event>, n: nat)
    requires n < |events| && forall k | 0 <= k < n :: !events[k].Terminal()
    ensures |UpToTerminal(events)| > n
    ensures events[n].Terminal() ==> UpToTerminal(events) == events[..n + 1]
  {
    if n > 0 {
      CutAfterProgress(events[1..], n - 1);
    }
  }

  lemma {:induction false} CutGrows(events: seq<Event>, e: Event)
    ensures UpToTerminal(events) <= UpToTerminal(events + [e])
    ensures UpToTerminal(events) != [] && UpToTerminal(events)[|UpToTerminal(events)| - 1].Terminal()
            ==> UpToTerminal(events + [e]) == UpToTerminal(events)
  {
    if events != [] {
      assert (events + [e])[1..] == events[1..] + [e];
      CutGrows(events[1..], e);
    }
  }

  /** One more event for the task of this feed. */
  lemma QueuedInOrder(feed: Feed, yielded: seq<Event>, later: seq<Event>, e: Event)
    requires InOrder(feed, yielded, later)
    ensures InOrder(if feed.phase.Left() then feed else feed.(queue := feed.queue + [e]), yielded, later + [e])
  {
    var due := [feed.initial] + later;
    CutGrows(due, e);
    assert due + [e] == [feed.initial] + (later + [e]);
    assert yielded + (feed.queue + [e]) == yielded + feed.queue + [e];
  }

  /** The generator's next turn, when it yields. */
  function Advanced(feed: Feed): (Feed, Event)
    requires feed.phase.NotStarted? || (feed.phase.Listening? && feed.queue != [])
  {
    if feed.phase.NotStarted? then
      (feed.(phase := if feed.initial.Terminal() then Ending else Listening), feed.initial)
    else
      (feed.(queue := feed.queue[1..], phase := if feed.queue[0].Terminal() then Ending else Listening), feed.queue[0])
  }

  lemma YieldedInOrder(feed: Feed, yielded: seq<Event>, later: seq<Event>)
    requires InOrder(feed, yielded, later)
    requires feed.phase.NotStarted? || (feed.phase.Listening? && feed.queue != [])
    ensures InOrder(Advanced(feed).0, yielded + [Advanced(feed).1], later)
  {
    if feed.phase.NotStarted? {
      FirstInOrder(feed, later);
      assert [] + [feed.initial] == [feed.initial];
    } else {
      NextInOrder(feed, yielded, later);
    }
  }

  lemma FirstInOrder(feed: Feed, later: seq<Event>)
    requires feed.phase.NotStarted? && feed.queue == later
    ensures InOrder(Advanced(feed).0, [feed.initial], later)
  {
    var due := [feed.initial] + later;
    CutAfterProgress(due, 0);
    assert due[..1] == [feed.initial];
  }

  lemma NextInOrder(feed: Feed, yielded: seq<Event>, later: seq<Event>)
    requires InOrder(feed, yielded, later) && feed.phase.Listening? && feed.queue != []
    ensures InOrder(Advanced(feed).0, yielded + [feed.queue[0]], later)
  {
    var due, e := [feed.initial] + later, feed.queue[0];
    var more := yielded + [e];
    assert due[|yielded|] == e && due[..|yielded| + 1] == more;
    forall k | 0 <= k < |yielded| ensures !due[k].Terminal() {
      assert due[k] == yielded[k] && yielded[k] in yielded;
    }
    CutAfterProgress(due, |yielded|);
    hide UpToTerminal;
    assert UpToTerminal(due)[..|yielded| + 1] == more;
    assert more + feed.queue[1..] == due;
  }

  // ---------------------------------------------------------------- the store as a value

  /** Every event of each task so far, how many of them each feed was too late for, what it yielded. */
  datatype History = History(log: map<TaskId, seq<Event>>, missed: map<FeedId, nat>, yielded: map<FeedId, seq<Event>>)

  ghost predicate FeedValid(f: FeedId, feed: Feed, h: History) {
    && f in h.missed && f in h.yielded && feed.task in h.log && h.missed[f] <= |h.log[feed.task]|
    && InOrder(feed, h.yielded[f], h.log[feed.task][h.missed[f]..])
  }

  /** Exactly the feeds that have not left are subscribed to their task. */
  ghost predicate Subscribed(t: TaskId, task: Task, feeds: map<FeedId, Feed>) {
    forall f :: f in task.subscribers <==> f in feeds && feeds[f].task == t && !feeds[f].phase.Left()
  }

  ghost predicate Good(tasks: map<TaskId, Task>, feeds: map<FeedId, Feed>, h: History) {
    && (forall t | t in tasks :: t in h.log && Subscribed(t, tasks[t], feeds))
    && (forall f | f in feeds :: FeedValid(f, feeds[f], h))
  }

  /** The feeds once an event is put into the queues of `subscribers`. */
  function Queued(feeds: map<FeedId, Feed>, subscribers: set<FeedId>, e: Event): map<FeedId, Feed> {
    map f | f in feeds :: if f in subscribers then feeds[f].(queue := feeds[f].queue + [e]) else feeds[f]
  }

  function Logged(h: History, t: TaskId, e: Event): History
    requires t in h.log
  {
    h.(log := h.log[t := h.log[t] + [e]])
  }

  lemma NewTaskKeepsGood(tasks: map<TaskId, Task>, feeds: map<FeedId, Feed>, h: History, t: TaskId, task: Task)
    requires Good(tasks, feeds, h) && t !in h.log && task.subscribers == {}
    ensures Good(tasks[t := task], feeds, h.(log := h.log[t := []]))
  {
    hide InOrder;
    assert forall f | f in feeds :: FeedValid(f, feeds[f], h);
  }

  lemma UpdateKeepsFeeds(tasks: map<TaskId, Task>, feeds: map<FeedId, Feed>, h: History, t: TaskId, e: Event, f: FeedId)
    requires Good(tasks, feeds, h) && t in tasks && f in feeds
    ensures FeedValid(f, Queued(feeds, tasks[t].subscribers, e)[f], Logged(h, t, e))
  {
    hide InOrder;
    assert FeedValid(f, feeds[f], h) && Subscribed(t, tasks[t], feeds);
    if feeds[f].task == t {
      var later := h.log[t][h.missed[f]..];
      QueuedInOrder(feeds[f], h.yielded[f], later, e);
      assert (h.log[t] + [e])[h.missed[f]..] == later + [e];
    }
  }

  lemma UpdateKeepsGood(tasks: map<TaskId, Task>, feeds: map<FeedId, Feed>, h: History, t: TaskId, task: Task, e: Event)
    requires Good(tasks, feeds, h) && t in tasks && task.subscribers == tasks[t].subscribers
    ensures Good(tasks[t := task], Queued(feeds, tasks[t].subscribers, e), Logged(h, t, e))
  {
    var feeds' := Queued(feeds, tasks[t].subscribers, e);
    forall f | f in feeds' ensures FeedValid(f, feeds'[f], Logged(h, t, e)) { UpdateKeepsFeeds(tasks, feeds, h, t, e, f); }
    hide InOrder, FeedValid;
    var tasks' := tasks[t := task];
    forall s | s in tasks' ensures Subscribed(s, tasks'[s], feeds') {
      assert Subscribed(s, tasks[s], feeds);
    }
  }

  /** A feed of the task joins its subscribers: it starts with the task's state and is due every event from now on. */
  function WithFeed(tasks: map<TaskId, Task>, feeds: map<FeedId, Feed>, h: History, t: TaskId, f: FeedId)
    : (map<TaskId, Task>, map<FeedId, Feed>, History)
    requires t in tasks && t in h.log
  {
    (tasks[t := tasks[t].(subscribers := tasks[t].subscribers + {f})],
     feeds[f := Feed(t, ToEvent(tasks[t].snapshot), NotStarted, [])],
     h.(missed := h.missed[f := |h.log[t]|], yielded := h.yielded[f := []]))
  }

  lemma SubscribeKeepsGood(tasks: map<TaskId, Task>, feeds: map<FeedId, Feed>, h: History, t: TaskId, f: FeedId)
    requires Good(tasks, feeds, h) && t in tasks && t in h.log && f !in feeds
    ensures var (tasks', feeds', h') := WithFeed(tasks, feeds, h, t, f); Good(tasks', feeds', h')
  {
    var (tasks', feeds', h') := WithFeed(tasks, feeds, h, t, f);
    assert FeedValid(f, feeds'[f], h');
    hide InOrder;
    forall g | g in feeds' ensures FeedValid(g, feeds'[g], h') {
      assert g != f ==> FeedValid(g, feeds[g], h);
    }
    forall s | s in tasks' ensures Subscribed(s, tasks'[s], feeds') {
      assert Subscribed(s, tasks[s], feeds);
    }
  }

  lemma AdvancedStays(feed: Feed)
    requires feed.phase.NotStarted? || (feed.phase.Listening? && feed.queue != [])
    ensures Advanced(feed).0.task == feed.task && !feed.phase.Left() && !Advanced(feed).0.phase.Left()
  {
  }

  lemma AdvanceKeepsGood(tasks: map<TaskId, Task>, feeds: map<FeedId, Feed>, h: History, f: FeedId)
    requires Good(tasks, feeds, h) && f in feeds
    requires feeds[f].phase.NotStarted? || (feeds[f].phase.Listening? && feeds[f].queue != [])
    ensures var (next, e) := Advanced(feeds[f]);
            Good(tasks, feeds[f := next], h.(yielded := h.yielded[f := h.yielded[f] + [e]]))
  {
    var (next, e) := Advanced(feeds[f]);
    var h' := h.(yielded := h.yielded[f := h.yielded[f] + [e]]);
    assert FeedValid(f, feeds[f], h);
    YieldedInOrder(feeds[f], h.yielded[f], h.log[feeds[f].task][h.missed[f]..]);
    AdvancedStays(feeds[f]);
    hide InOrder, Advanced;
    forall g | g in feeds ensures FeedValid(g, feeds[f := next][g], h') {
      assert FeedValid(g, feeds[g], h);
    }
    forall t | t in tasks ensures Subscribed(t, tasks[t], feeds[f := next]) {
      assert Subscribed(t, tasks[t], feeds);
    }
  }

  /** The tasks once a feed is taken off its task's list. */
  function WithoutFeed(tasks: map<TaskId, Task>, t: TaskId, f: FeedId): map<TaskId, Task> {
    if t in tasks then tasks[t := tasks[t].(subscribers := tasks[t].subscribers - {f})] else tasks
  }

  lemma LeaveKeepsGood(tasks: map<TaskId, Task>, feeds: map<FeedId, Feed>, h: History, f: FeedId)
    requires Good(tasks, feeds, h) && f in feeds
    ensures Good(WithoutFeed(tasks, feeds[f].task, f), feeds[f := feeds[f].(phase := feeds[f].phase.AfterLeaving())], h)
  {
    var t, tasks', feeds' := feeds[f].task, WithoutFeed(tasks, feeds[f].task, f), feeds[f := feeds[f].(phase := feeds[f].phase.AfterLeaving())];
    forall g | g in feeds' ensures FeedValid(g, feeds'[g], h) { assert FeedValid(g, feeds[g], h); }
    hide InOrder, FeedValid;
    forall s | s in tasks' ensures Subscribed(s, tasks'[s], feeds') { assert Subscribed(s, tasks[s], feeds); }
  }

  /** Every event that was ever sent tells the state its task was in. */
  ghost predicate AllTell(feeds: map<FeedId, Feed>, h: History) {
    && (forall t, k | t in h.log && 0 <= k < |h.log[t]| :: TellsTheState(h.log[t][k]))
    && (forall f | f in feeds :: TellsTheState(feeds[f].initial))
  }

  lemma OneMoreTells(feeds: map<FeedId, Feed>, h: History, t: TaskId, s: Snapshot, subscribers: set<FeedId>)
    requires AllTell(feeds, h) && t in h.log
    ensures AllTell(Queued(feeds, subscribers, ToEvent(s)), Logged(h, t, ToEvent(s)))
  {
    EventsTellTheState(s);
    hide TellsTheState, ToEvent;
    var h' := Logged(h, t, ToEvent(s));
    forall u, k | u in h'.log && 0 <= k < |h'.log[u]| ensures TellsTheState(h'.log[u][k]) {
      assert u != t || k < |h.log[t]| ==> h'.log[u][k] == h.log[u][k];
    }
  }

  lemma SubscribingTells(tasks: map<TaskId, Task>, feeds: map<FeedId, Feed>, h: History, t: TaskId, f: FeedId)
    requires AllTell(feeds, h) && t in tasks && t in h.log
    ensures var (tasks', feeds', h') := WithFeed(tasks, feeds, h, t, f); AllTell(feeds', h')
  {
    EventsTellTheState(tasks[t].snapshot);
    hide TellsTheState, ToEvent;
  }

  /** Every event a feed yielded or still holds tells the state the task was in. It ends by itself only after it
      yielded the task done or failed, and nothing it yielded before that was terminal. */
  lemma FeedTells(f: FeedId, feeds: map<FeedId, Feed>, h: History)
    requires f in feeds && FeedValid(f, feeds[f], h) && AllTell(feeds, h)
    ensures forall k | 0 <= k < |h.yielded[f]| :: TellsTheState(h.yielded[f][k])
    ensures forall k | 0 <= k < |h.yielded[f]| - 1 :: h.yielded[f][k].data.state in {Pending, Working}
    ensures !feeds[f].phase.Left() ==> forall k | 0 <= k < |feeds[f].queue| :: TellsTheState(feeds[f].queue[k])
    ensures feeds[f].phase.Ending? || feeds[f].phase.Finished? ==>
              h.yielded[f] != [] && h.yielded[f][|h.yielded[f]| - 1].data.state in {Done, Failed}
    ensures feeds[f].phase.Listening? ==>
              h.yielded[f] != [] && h.yielded[f][|h.yielded[f]| - 1].data.state in {Pending, Working}
  {
    var feed, yielded := feeds[f], h.yielded[f];
    var later := h.log[feed.task][h.missed[f]..];
    DueTells(f, feeds, h);
    hide AllTell, TellsTheState;
    SeenIsDue(feed, yielded, later);
    var due := [feed.initial] + later;
    ProgressBeforeTheEnd(due);
    hide InOrder;
    StatesOfKinds(due);
  }

  lemma DueTells(f: FeedId, feeds: map<FeedId, Feed>, h: History)
    requires f in feeds && FeedValid(f, feeds[f], h) && AllTell(feeds, h)
    ensures var due := [feeds[f].initial] + h.log[feeds[f].task][h.missed[f]..];
            forall k | 0 <= k < |due| :: TellsTheState(due[k])
  {
    hide TellsTheState, InOrder;
    var due := [feeds[f].initial] + h.log[feeds[f].task][h.missed[f]..];
    forall k | 0 <= k < |due| ensures TellsTheState(due[k]) {
      if k > 0 {
        assert due[k] == h.log[feeds[f].task][h.missed[f] + k - 1];
      }
    }
  }

  /** What was yielded and what is still queued are the events due, one after the other. */
  lemma SeenIsDue(feed: Feed, yielded: seq<Event>, later: seq<Event>)
    requires InOrder(feed, yielded, later)
    ensures var due := [feed.initial] + later;
            && |yielded| <= |UpToTerminal(due)| && (forall k | 0 <= k < |yielded| :: yielded[k] == due[k])
            && (feed.phase.Ending? || feed.phase.Finished? ==> yielded != [] && yielded[|yielded| - 1].Terminal())
            && (feed.phase.Listening? ==> yielded != [] && !yielded[|yielded| - 1].Terminal())
            && (!feed.phase.Left() ==> forall k | 0 <= k < |feed.queue| ::
                  exists n :: 0 <= n < |due| && feed.queue[k] == due[n])
  {
    var due := [feed.initial] + later;
    assert forall k | 0 <= k < |yielded| :: yielded[k] == UpToTerminal(due)[k];
    if !feed.phase.Left() {
      var offset := if feed.phase.NotStarted? then 1 else |yielded|;
      forall k | 0 <= k < |feed.queue| ensures exists n :: 0 <= n < |due| && feed.queue[k] == due[n] {
        assert feed.queue[k] == due[offset + k];
      }
    }
  }

  lemma {:induction false} ProgressBeforeTheEnd(events: seq<Event>)
    ensures forall k | 0 <= k < |UpToTerminal(events)| - 1 :: !events[k].Terminal()
  {
    if events != [] && !events[0].Terminal() {
      ProgressBeforeTheEnd(events[1..]);
    }
  }

  lemma StatesOfKinds(events: seq<Event>)
    requires forall k | 0 <= k < |events| :: TellsTheState(events[k])
    ensures forall k | 0 <= k < |events| ::
              events[k].data.state in (if events[k].Terminal() then {Done, Failed} else {Pending, Working})
  {
    forall k | 0 <= k < |events|
      ensures events[k].data.state in (if events[k].Terminal() then {Done, Failed} else {Pending, Working})
    {
      assert TellsTheState(events[k]);
    }
  }

  /** What a subscriber has seen is a prefix of what is due to it, and once its queue is empty it has seen
      everything due: up to the first terminal event if there is one, else every event so far. */
  lemma NothingIsMissed(f: FeedId, feed: Feed, h: History)
    requires FeedValid(f, feed, h)
    ensures var due := [feed.initial] + h.log[feed.task][h.missed[f]..];
            && h.yielded[f] <= UpToTerminal(due)
            && (feed.phase.Ending? || feed.phase.Finished? ==> h.yielded[f] == UpToTerminal(due))
            && (feed.phase.Listening? && feed.queue == [] ==> h.yielded[f] == due == UpToTerminal(due))
  {
    if feed.phase.Listening? && feed.queue == [] {
      assert h.yielded[f] + [] == h.yielded[f];
    }
  }

  // ---------------------------------------------------------------- result files

  function NamedBy(tasks: map<TaskId, Task>): map<TaskId, Option<Path>> {
    map t | t in tasks :: tasks[t].resultFile
  }

  lemma RecordIsWritten(tasks: map<TaskId, Task>, t: TaskId, u: Update, now: nat)
    requires t in tasks
    ensures NamedBy(tasks[t := Written(tasks[t], u, now)]) == NamedBy(tasks)[t := Or(u.resultFile, tasks[t].resultFile)]
    ensures Written(tasks[t], u, now).subscribers == tasks[t].subscribers
    ensures t in NamedBy(tasks) && NamedBy(tasks)[t] == tasks[t].resultFile
  {
  }

  // ---------------------------------------------------------------- the store

  datatype Discard = UnknownTask | Removed | Kept

  datatype ValueError = EpochsOfNoTraining | PhaseOfNoGeneration

  class TaskStore {
    const retention: nat
    var tasks: map<TaskId, Task>
    var feeds: map<FeedId, Feed>
    var disk: set<Path>
    ghost var history: History
    ghost var registered: set<Path>

    ghost predicate Valid()
      reads this
    {
      Good(tasks, feeds, history) && AllTell(feeds, history)
    }

    /** The files and the records that name them. */
    ghost function View(): Files
      reads this
    {
      Files(NamedBy(tasks), registered, disk, history.log.Keys)
    }

    constructor (retention: nat)
      ensures Valid() && View() == NO_FILES
    {
      this.retention := retention;
      tasks, feeds, disk := map[], map[], {};
      history, registered := History(map[], map[], map[]), {};
    }

    /** A pending task under an id of its own; only a training has epochs, only a generation has phases. */
    method Create(t: TaskId, kind: TaskKind, trainEpochs: Option<nat>, phase: Option<nat>, now: nat) returns (created: Result<TaskId, ValueError>)
      requires Valid() && t !in history.log && t !in tasks
      modifies this`tasks, this`history
      ensures Valid()
      ensures created.Failure? <==> (trainEpochs.Some? && kind != TrainLora) || (phase.Some? && kind != Generate)
      ensures created.Failure? ==> (tasks, history) == old((tasks, history))
      ensures created.Success? ==>
                && created.value == t && View() == Apply(old(View()), Created(t))
                && history == old(history).(log := old(history).log[t := []])
                && tasks == old(tasks)[t := Task(Snapshot(kind, trainEpochs, Pending, 0.0, phase, if trainEpochs.Some? then Some(0) else None,
                                                          None, None, None, None, now), None, None, {})]
    {
      if trainEpochs.Some? && kind != TrainLora {
        return Failure(EpochsOfNoTraining);
      }
      if phase.Some? && kind != Generate {
        return Failure(PhaseOfNoGeneration);
      }
      hide Good, TellsTheState;
      var task := Task(Snapshot(kind, trainEpochs, Pending, 0.0, phase, if trainEpochs.Some? then Some(0) else None,
                                None, None, None, None, now), None, None, {});
      NewTaskKeepsGood(tasks, feeds, history, t, task);
      tasks := tasks[t := task];
      history := history.(log := history.log[t := []]);
      return Success(t);
    }

    /** A runner writes its result under a name that was never used; nothing is registered yet. */
    method WriteResultFile(file: Path)
      requires Valid() && file !in registered + disk
      modifies this`disk
      ensures Valid() && View() == Apply(old(View()), FileWritten(file)) && file in disk
    {
      disk := disk + {file};
    }

    /** Write the fields, then put one event into every subscriber's queue. */
    method Update(t: TaskId, u: Update, now: nat) returns (known: bool)
      requires Valid()
      modifies this`tasks, this`feeds, this`history, this`registered
      ensures Valid() && known == (t in old(tasks)) && View() == Apply(old(View()), Completed(t, u.resultFile))
      ensures !known ==> (tasks, feeds, history, registered) == old((tasks, feeds, history, registered))
      ensures known ==>
                var task := Written(old(tasks)[t], u, now);
                && tasks == old(tasks)[t := task]
                && feeds == Queued(old(feeds), task.subscribers, ToEvent(task.snapshot))
                && history == Logged(old(history), t, ToEvent(task.snapshot))
    {
      known := t in tasks;
      if !known {
        return;
      }
      assert t in history.log;
      RecordIsWritten(tasks, t, u, now);
      hide Good, AllTell, Written, NamedBy, ToEvent;
      var task := Written(tasks[t], u, now);
      var event := ToEvent(task.snapshot);
      UpdateKeepsGood(tasks, feeds, history, t, task, event);
      OneMoreTells(feeds, history, t, task.snapshot, tasks[t].subscribers);
      PutToAll(tasks[t].subscribers, event);
      tasks := tasks[t := task];
      history := Logged(history, t, event);
      registered := if u.resultFile.Some? then registered + {u.resultFile.value} else registered;
    }

    method PutToAll(subscribers: set<FeedId>, event: Event)
      modifies this`feeds
      ensures feeds == Queued(old(feeds), subscribers, event)
    {
      var rest := subscribers;
      while rest != {}
        invariant rest <= subscribers
        invariant feeds == Queued(old(feeds), subscribers - rest, event)
      {
        var f :| f in rest;
        if f in feeds {
          feeds := feeds[f := feeds[f].(queue := feeds[f].queue + [event])];
        }
        rest := rest - {f};
      }
      assert subscribers - {} == subscribers;
    }

    /** The task is under way; its subscribers learn it. */
    method MarkRunning(t: TaskId, now: nat) returns (known: bool)
      requires Valid()
      modifies this`tasks, this`feeds, this`history, this`registered
      ensures Valid() && known == (t in old(tasks)) && View() == old(View())
      ensures !known ==> (tasks, feeds, history, registered) == old((tasks, feeds, history, registered))
      ensures known ==> Told(old(tasks), old(feeds), old(history), t, old(tasks)[t].snapshot.(state := Working, updatedAt := now))
    {
      assert t in tasks ==> t in history.log;
      hide Good, AllTell, Queued, Logged, ToEvent;
      known := Update(t, NOTHING.(state := Some(Working)), now);
    }

    method MarkTrainingStarted(t: TaskId, now: nat) returns (known: bool)
      requires Valid()
      modifies this`tasks, this`feeds, this`history, this`registered
      ensures Valid() && known == (t in old(tasks)) && View() == old(View())
      ensures !known ==> (tasks, feeds, history, registered) == old((tasks, feeds, history, registered))
      ensures known ==> Told(old(tasks), old(feeds), old(history), t, old(tasks)[t].snapshot.(startedAt := Some(now), updatedAt := now))
    {
      assert t in tasks ==> t in history.log;
      hide Good, AllTell, Queued, Logged, ToEvent;
      known := Update(t, NOTHING.(startedAt := Some(now)), now);
    }

    /** The progress, and the phase and epoch where they are given; the others stay. */
    method UpdateProgress(t: TaskId, progress: real, phase: Option<nat>, epoch: Option<int>, now: nat) returns (known: bool)
      requires Valid()
      modifies this`tasks, this`feeds, this`history, this`registered
      ensures Valid() && known == (t in old(tasks)) && View() == old(View())
      ensures !known ==> (tasks, feeds, history, registered) == old((tasks, feeds, history, registered))
      ensures known ==>
                var before := old(tasks)[t].snapshot;
                Told(old(tasks), old(feeds), old(history), t,
                     before.(progress := progress, phase := if phase.Some? then phase else before.phase,
                             epoch := if epoch.Some? then epoch else before.epoch, updatedAt := now))
    {
      assert t in tasks ==> t in history.log;
      hide Good, AllTell, Queued, Logged, ToEvent;
      known := Update(t, NOTHING.(progress := Some(progress), phase := phase, epoch := epoch), now);
    }

    /** The task now has this snapshot, which every subscriber gets as the task's next event; nothing else changed. */
    ghost predicate Told(tasks': map<TaskId, Task>, feeds': map<FeedId, Feed>, history': History, t: TaskId, s: Snapshot)
      reads this
    {
      && t in tasks' && t in history'.log
      && tasks == tasks'[t := tasks'[t].(snapshot := s)]
      && feeds == Queued(feeds', tasks'[t].subscribers, ToEvent(s))
      && history == Logged(history', t, ToEvent(s))
    }

    /** The task is done, and its subscribers get that state as their terminal event. */
    method Complete(t: TaskId, result: nat, resultFile: Option<Path>, now: nat) returns (known: bool)
      requires Valid()
      modifies this`tasks, this`feeds, this`history, this`registered
      ensures Valid() && known == (t in old(tasks)) && View() == Apply(old(View()), Completed(t, resultFile))
      ensures !known ==> (tasks, feeds, history, registered) == old((tasks, feeds, history, registered))
      ensures known ==>
                var before := old(tasks)[t];
                var done := before.snapshot.(state := Done, progress := 1.0, result := Some(result), updatedAt := now);
                && tasks == old(tasks)[t := Task(done, Some(now), Or(resultFile, before.resultFile), before.subscribers)]
                && feeds == Queued(old(feeds), before.subscribers, Event(DoneEvent, done))
                && history == Logged(old(history), t, Event(DoneEvent, done))
    {
      hide Good, AllTell, Queued, Logged;
      known := Update(t, NOTHING.(state := Some(Done), progress := Some(1.0), result := Some(result), terminal := true,
                                  resultFile := resultFile), now);
    }

    /** The task has failed, and its subscribers get that state as their terminal event; no file changes. */
    method Fail(t: TaskId, message: string, errorKind: Option<nat>, now: nat) returns (known: bool)
      requires Valid()
      modifies this`tasks, this`feeds, this`history, this`registered
      ensures Valid() && known == (t in old(tasks)) && View() == old(View())
      ensures !known ==> (tasks, feeds, history, registered) == old((tasks, feeds, history, registered))
      ensures known ==>
                var before := old(tasks)[t];
                var failed := before.snapshot.(state := TaskState.Failed, error := Some(message), errorKind := errorKind, updatedAt := now);
                && tasks == old(tasks)[t := Task(failed, Some(now), before.resultFile, before.subscribers)]
                && feeds == Queued(old(feeds), before.subscribers, Event(ErrorEvent, failed))
                && history == Logged(old(history), t, Event(ErrorEvent, failed))
    {
      hide Good, AllTell, Queued, Logged;
      known := Update(t, NOTHING.(state := Some(TaskState.Failed), error := Some((message, errorKind)), terminal := true), now);
    }

    method Subscribe(t: TaskId, f: FeedId) returns (known: bool)
      requires Valid() && f !in feeds
      modifies this`tasks, this`feeds, this`history
      ensures Valid() && known == (t in old(tasks)) && View() == old(View())
      ensures !known ==> (tasks, feeds, history) == old((tasks, feeds, history))
      ensures known ==>
                && t in old(history).log
                && (tasks, feeds, history) == WithFeed(old(tasks), old(feeds), old(history), t, f)
                && TellsTheState(feeds[f].initial) && feeds[f].initial.data == old(tasks)[t].snapshot
    {
      known := t in tasks;
      if known {
        assert t in history.log;
        EventsTellTheState(tasks[t].snapshot);
        SubscribingTells(tasks, feeds, history, t, f);
        hide Good, AllTell, TellsTheState, ToEvent;
        SubscribeKeepsGood(tasks, feeds, history, t, f);
        var task := tasks[t];
        tasks := tasks[t := task.(subscribers := task.subscribers + {f})];
        feeds := feeds[f := Feed(t, ToEvent(task.snapshot), NotStarted, [])];
        history := history.(missed := history.missed[f := |history.log[t]|], yielded := history.yielded[f := []]);
      }
    }

    /** Ask a subscriber's generator for its next event: `None` when it waits, or has ended and left. */
    method Next(f: FeedId) returns (event: Option<Event>)
      requires Valid() && f in feeds
      modifies this`tasks, this`feeds, this`history
      ensures Valid() && View() == old(View()) && f in feeds && f in history.yielded && f in old(history).yielded
      ensures history.yielded[f] == old(history).yielded[f] + if event.Some? then [event.value] else []
      ensures event.None? <==> old(feeds[f].phase.Ending? || feeds[f].phase.Left() || (feeds[f].phase.Listening? && feeds[f].queue == []))
      ensures old(feeds[f].phase.Ending?) ==> feeds[f].phase.Finished?
    {
      assert FeedValid(f, feeds[f], history);
      hide Good, InOrder, TellsTheState;
      if feeds[f].phase.NotStarted? || (feeds[f].phase.Listening? && feeds[f].queue != []) {
        AdvanceKeepsGood(tasks, feeds, history, f);
        var (next, e) := Advanced(feeds[f]);
        feeds := feeds[f := next];
        history := history.(yielded := history.yielded[f := history.yielded[f] + [e]]);
        return Some(e);
      }
      if feeds[f].phase.Ending? {
        Leave(f);
      }
      return None;
    }

    /** The generator's cleanup, after its last event or when its client goes. */
    method Leave(f: FeedId)
      requires Valid() && f in feeds
      modifies this`tasks, this`feeds
      ensures Valid() && View() == old(View())
      ensures feeds == old(feeds)[f := old(feeds)[f].(phase := old(feeds)[f].phase.AfterLeaving())]
      ensures tasks == WithoutFeed(old(tasks), old(feeds)[f].task, f)
    {
      hide Good, TellsTheState;
      LeaveKeepsGood(tasks, feeds, history, f);
      var tasks' := WithoutFeed(tasks, feeds[f].task, f);
      tasks := tasks';
      feeds := feeds[f := feeds[f].(phase := feeds[f].phase.AfterLeaving())];
    }

    /** Remove a result file, if there is one; a failure leaves it. */
    method Unlink(file: Option<Path>, fails: bool) returns (removed: bool)
      modifies this`disk
      ensures removed == (file.None? || !fails)
      ensures disk == if removed && file.Some? then old(disk) - {file.value} else old(disk)
    {
      removed := file.None? || !fails;
      if removed && file.Some? {
        disk := disk - {file.value};
      }
    }

    method DiscardResult(t: TaskId, fails: bool) returns (outcome: Discard)
      requires Valid()
      modifies this`tasks, this`disk
      ensures Valid() && View() == Apply(old(View()), Discarded(t, fails))
      ensures outcome.UnknownTask? <==> t !in old(tasks)
      ensures outcome.Kept? <==> t in old(tasks) && old(tasks)[t].resultFile.Some? && fails
      ensures tasks == if outcome.Removed? then old(tasks)[t := old(tasks)[t].(resultFile := None)] else old(tasks)
    {
      if t !in tasks {
        return UnknownTask;
      }
      SameSubscribers(tasks, feeds, history, t);
      hide Good, TellsTheState;
      var removed := Unlink(tasks[t].resultFile, fails);
      if !removed {
        return Kept;
      }
      tasks := tasks[t := tasks[t].(resultFile := None)];
      return Removed;
    }

    predicate Expired(t: TaskId, now: nat)
      requires t in tasks
      reads this
    {
      tasks[t].terminalAt.Some? && now - tasks[t].terminalAt.value > retention
    }

    /** Drop a record with its file; it stays when the file does. */
    method DropRecord(t: TaskId, fails: bool) returns (removed: bool)
      requires Valid() && t in tasks
      modifies this`tasks, this`disk
      ensures Valid() && removed == (old(tasks)[t].resultFile.None? || !fails)
      ensures tasks == if removed then old(tasks) - {t} else old(tasks)
      ensures disk == if removed then old(disk) - FileOf(old(View()), t) else old(disk)
    {
      hide Good, AllTell;
      removed := Unlink(tasks[t].resultFile, fails);
      if removed {
        DroppingKeepsGood(tasks, feeds, history, t);
        tasks := tasks - {t};
      }
    }

    /** Drop the records whose retention is over; one whose file would not go stays for the next sweep. The files
        of the `stuck` tasks cannot be removed. A record exactly as old as the retention stays. */
    method CleanupTerminal(now: nat, stuck: set<TaskId>) returns (dropped: set<TaskId>)
      requires Valid()
      modifies this`tasks, this`disk
      ensures Valid()
      ensures forall t :: t in dropped <==>
                && t in old(tasks) && old(tasks)[t].terminalAt.Some? && now > old(tasks)[t].terminalAt.value + retention
                && (old(tasks)[t].resultFile.None? || t !in stuck)
      ensures tasks == old(tasks) - dropped
      ensures View() == Apply(old(View()), Swept((set t | t in old(tasks) && old(Expired(t, now))), stuck))
    {
      var expired := set t | t in tasks && Expired(t, now);
      ghost var before := View();
      dropped := {};
      var rest := expired;
      while rest != {}
        invariant rest <= expired && dropped <= expired && rest !! dropped
        invariant Valid() && tasks == old(tasks) - dropped
        invariant dropped == Sweepable(before, expired - rest, stuck) && before.named == NamedBy(old(tasks))
        invariant disk == before.disk - FilesOf(before, dropped)
      {
        hide Good, AllTell, Sweepable, FilesOf;
        var t :| t in rest;
        NextIsSwept(before, expired - rest, t, stuck);
        assert expired - (rest - {t}) == expired - rest + {t};
        rest := rest - {t};
        var removed := DropRecord(t, t in stuck);
        dropped := if removed then dropped + {t} else dropped;
      }
      assert expired - {} == expired;
    }
  }

  /** A task that completes twice on a store: its first file stays on disk, registered, and no record names it. */
  method CompleteTwice(t: TaskId, first: Path, second: Path, now: nat) returns (store: TaskStore)
    requires first != second
    ensures fresh(store) && store.Valid() && !AllNamed(store.View())
    ensures first in store.disk && first in store.registered
  {
    hide Good, AllTell, Apply, AllNamed;
    SecondCompletionLosesTheFile(t, first, second);
    store := new TaskStore(0);
    EventsInTurn(t, first, second);
    var created := store.Create(t, Generate, None, None, now);
    store.WriteResultFile(first);
    var known := store.Complete(t, 0, Some(first), now);
    store.WriteResultFile(second);
    known := store.Complete(t, 0, Some(second), now);
  }

  lemma NextIsSwept(f: Files, swept: set<TaskId>, t: TaskId, stuck: set<TaskId>)
    requires t in f.named
    ensures var gone := Sweepable(f, swept, stuck);
            if f.named[t].None? || t !in stuck then
              Sweepable(f, swept + {t}, stuck) == gone + {t} && FilesOf(f, gone + {t}) == FilesOf(f, gone) + FileOf(f, t)
            else Sweepable(f, swept + {t}, stuck) == gone
  {
  }

  lemma SameSubscribers(tasks: map<TaskId, Task>, feeds: map<FeedId, Feed>, h: History, t: TaskId)
    requires Good(tasks, feeds, h) && t in tasks
    ensures Good(tasks[t := tasks[t].(resultFile := None)], feeds, h)
  {
    assert Subscribed(t, tasks[t], feeds);
  }

  lemma DroppingKeepsGood(tasks: map<TaskId, Task>, feeds: map<FeedId, Feed>, h: History, t: TaskId)
    requires Good(tasks, feeds, h)
    ensures Good(tasks - {t}, feeds, h)
  {
  }
}
