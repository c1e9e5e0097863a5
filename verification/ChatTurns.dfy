/**
 The co-writer's turns: a chat job per turn, a message kept for a turn that ends without a reply, and a
 reply written only while the turn's job is still active.

 One event is one committed transaction, or a turn reading the history it will decide on. Turns of all
 users interleave freely; the reaper may fail any active job at any moment, and a turn may go on after
 its job has failed. An event that is not enabled changes nothing.
 */
module ChatTurns {
  import opened Wrappers

  type UserId = nat
  type JobId = nat
  type ConversationId = nat
  type MessageId = nat

  datatype Status = Running | Completed | Failed

  datatype Job = Job(user: UserId, status: Status)

  /** One row of the messages table. Which message a reply answers and whose job wrote it is history: the
      table does not store it. */
  datatype Message =
    | UserMessage(id: MessageId, conversation: ConversationId, text: string)
    | Reply(id: MessageId, conversation: ConversationId, answers: MessageId, job: JobId)

  datatype Phase =
    | Started
    | HistoryRead(conversation: ConversationId, retried: Option<MessageId>)
    | Prepared(conversation: ConversationId, message: MessageId)

  datatype Turn = Turn(user: UserId, text: string, phase: Phase)

  datatype State = State(
    jobs: map<JobId, Job>,
    turns: map<JobId, Turn>,
    // in the order of their creation
    messages: seq<Message>,
    live: set<ConversationId>,
    archived: set<ConversationId>,
    nextId: MessageId,
    // history: the owner of every conversation and the place of every user message there ever was
    owners: map<ConversationId, UserId>,
    home: map<MessageId, ConversationId>
  )

  const INITIAL: State := State(map[], map[], [], {}, {}, 0, map[], map[])

  datatype Event =
    | Begin(user: UserId, job: JobId, text: string, stale: set<JobId>, limited: bool)
    | ReadHistory(job: JobId, conversation: ConversationId)
    | CommitMessage(job: JobId)
    | Complete(job: JobId)
    | FailTurn(job: JobId)
    | Vanish(job: JobId)
    | Reap(job: JobId)
    | FailTurnsEndedByRestart
    | NewConversation(user: UserId, earlier: set<ConversationId>, conversation: ConversationId)
    | DeleteConversation(conversation: ConversationId)
    | DeleteMessages(gone: set<MessageId>)

  predicate IsActive(s: State, job: JobId) {
    job in s.jobs && s.jobs[job].status == Running
  }

  predicate Owns(s: State, user: UserId, conversation: ConversationId) {
    conversation in s.owners && s.owners[conversation] == user
  }

  /** The chat jobs of a user that hold a running turn. */
  function ActiveJobs(jobs: map<JobId, Job>, user: UserId): set<JobId> {
    set job | job in jobs && jobs[job].user == user && jobs[job].status == Running
  }

  function FailJobs(jobs: map<JobId, Job>, failing: set<JobId>): map<JobId, Job> {
    map job | job in jobs :: if job in failing && jobs[job].status == Running then jobs[job].(status := Failed) else jobs[job]
  }

  /** The last message of a conversation. */
  function LastOf(messages: seq<Message>, conversation: ConversationId): Option<Message> {
    if messages == [] then None
    else if messages[|messages| - 1].conversation == conversation then Some(messages[|messages| - 1])
    else LastOf(messages[..|messages| - 1], conversation)
  }

  /** The unanswered last message, when this turn sends it again. */
  function Retried(messages: seq<Message>, conversation: ConversationId, text: string): Option<MessageId> {
    var last := LastOf(messages, conversation);
    if last.Some? && last.value.UserMessage? && last.value.text == text then Some(last.value.id) else None
  }

  function Without(messages: seq<Message>, gone: set<MessageId>): (kept: seq<Message>)
    ensures forall m :: m in kept <==> m in messages && m.id !in gone
  {
    if messages == [] then []
    else
      var front, last := messages[..|messages| - 1], messages[|messages| - 1];
      assert messages == front + [last];
      if last.id in gone then Without(front, gone) else Without(front, gone) + [last]
  }

  function OfConversation(messages: seq<Message>, conversation: ConversationId): set<MessageId> {
    set m | m in messages && m.conversation == conversation :: m.id
  }

  function Apply(s: State, e: Event): State {
    match e
    case Begin(user, job, text, stale, limited) => BeginTurn(s, user, job, text, stale, limited)
    case ReadHistory(job, conversation) => ReadTurn(s, job, conversation)
    case CommitMessage(job) => Commit(s, job)
    case Complete(job) => Finish(s, job)
    case FailTurn(job) => if job in s.turns then Fail(s, job) else s
    case Vanish(job) => s.(turns := s.turns - {job})
    case Reap(job) => s.(jobs := FailJobs(s.jobs, {job}))
    case FailTurnsEndedByRestart => s.(jobs := FailJobs(s.jobs, s.jobs.Keys))
    case NewConversation(user, earlier, conversation) =>
      if conversation in s.owners then s
      else
        s.(archived := s.archived + (set c | c in earlier && Owns(s, user, c)), live := s.live + {conversation},
        owners := s.owners[conversation := user])
    case DeleteConversation(conversation) =>
      s.(live := s.live - {conversation}, messages := Without(s.messages, OfConversation(s.messages, conversation)))
    case DeleteMessages(gone) => s.(messages := Without(s.messages, gone))
  }

  /** The new job and its limits. The rate-limit lock is held from the recovery of stale jobs to the
      commit, and a refusal rolls all of it back. */
  function BeginTurn(s: State, user: UserId, job: JobId, text: string, stale: set<JobId>, limited: bool): State {
    if limited || job in s.jobs then s
    else
      var jobs := FailJobs(s.jobs, stale * ActiveJobs(s.jobs, user))[job := Job(user, Running)];
      if |ActiveJobs(jobs, user)| > 1 then s
      else s.(jobs := jobs, turns := s.turns[job := Turn(user, text, Started)])
  }

  /** The turn reads its user's active conversation, a new one when there is none. */
  function ReadTurn(s: State, job: JobId, conversation: ConversationId): State {
    if job !in s.turns || !s.turns[job].phase.Started? then s
    else if conversation in s.live then
      if Owns(s, s.turns[job].user, conversation) && conversation !in s.archived then Read(s, job, conversation) else s
    else if conversation in s.owners then s
    else
      Read(s.(live := s.live + {conversation}, owners := s.owners[conversation := s.turns[job].user]), job, conversation)
  }

  function Read(s: State, job: JobId, conversation: ConversationId): State
    requires job in s.turns
  {
    var turn := s.turns[job];
    s.(turns := s.turns[job := turn.(phase := HistoryRead(conversation, Retried(s.messages, conversation, turn.text)))])
  }

  /** Keep the retried message, or write the new one. */
  function Commit(s: State, job: JobId): State {
    if job !in s.turns || !s.turns[job].phase.HistoryRead? then s
    else
      var turn, conversation := s.turns[job], s.turns[job].phase.conversation;
      if conversation !in s.live then Fail(s, job)
      else if turn.phase.retried.Some?
      then s.(turns := s.turns[job := turn.(phase := Prepared(conversation, turn.phase.retried.value))])
      else WriteMessage(s, job, conversation)
  }

  function WriteMessage(s: State, job: JobId, conversation: ConversationId): State
    requires job in s.turns
  {
    var turn := s.turns[job];
    s.(messages := s.messages + [UserMessage(s.nextId, conversation, turn.text)], nextId := s.nextId + 1,
    home := s.home[s.nextId := conversation],
    turns := s.turns[job := turn.(phase := Prepared(conversation, s.nextId))])
  }

  /** Write the reply and complete the job, if the job is still active. */
  function Finish(s: State, job: JobId): State {
    if job !in s.turns || !s.turns[job].phase.Prepared? then s
    else if !IsActive(s, job) then s.(turns := s.turns - {job})
    else
      if s.turns[job].phase.conversation !in s.live then Fail(s, job) else WriteReply(s, job)
  }

  function WriteReply(s: State, job: JobId): State
    requires job in s.turns && s.turns[job].phase.Prepared? && job in s.jobs
  {
    var conversation, message := s.turns[job].phase.conversation, s.turns[job].phase.message;
    s.(messages := s.messages + [Reply(s.nextId, conversation, message, job)], nextId := s.nextId + 1,
    jobs := s.jobs[job := s.jobs[job].(status := Completed)], turns := s.turns - {job})
  }

  function Fail(s: State, job: JobId): State {
    s.(jobs := FailJobs(s.jobs, {job}), turns := s.turns - {job})
  }

  function Run(events: seq<Event>): State {
    if events == [] then INITIAL else Apply(Run(events[..|events| - 1]), events[|events| - 1])
  }

  // ---------------------------------------------------------------- at most one active turn per user

  ghost predicate OneActivePerUser(s: State) {
    forall j, k | IsActive(s, j) && IsActive(s, k) && s.jobs[j].user == s.jobs[k].user :: j == k
  }

  lemma AtMostOne(jobs: set<JobId>, j: JobId, k: JobId)
    requires |jobs| <= 1 && j in jobs && k in jobs
    ensures j == k
  {
    if j != k {
      assert |jobs - {j}| >= 1 by { assert k in jobs - {j}; }
    }
  }

  lemma BeginKeepsOneActive(s: State, e: Event)
    requires OneActivePerUser(s) && e.Begin?
    ensures OneActivePerUser(Apply(s, e))
  {
    var s' := BeginTurn(s, e.user, e.job, e.text, e.stale, e.limited);
    if s' != s {
      forall j, k | IsActive(s', j) && IsActive(s', k) && s'.jobs[j].user == s'.jobs[k].user
        ensures j == k
      {
        if s'.jobs[j].user == e.user {
          AtMostOne(ActiveJobs(s'.jobs, e.user), j, k);
        } else {
          assert IsActive(s, j) && IsActive(s, k);
        }
      }
    }
  }

  /** Only a new turn makes a job active, and ended jobs never change again. */
  lemma JobsOnlyEnd(s: State, e: Event)
    requires !e.Begin?
    ensures var s' := Apply(s, e);
            && s'.jobs.Keys == s.jobs.Keys
            && forall j | j in s.jobs :: s'.jobs[j].user == s.jobs[j].user
                                         && (s'.jobs[j] == s.jobs[j] || s.jobs[j].status == Running)
  {
  }

  lemma OneActiveIsKept(s: State, e: Event)
    requires OneActivePerUser(s)
    ensures OneActivePerUser(Apply(s, e))
  {
    if e.Begin? {
      BeginKeepsOneActive(s, e);
    } else {
      JobsOnlyEnd(s, e);
      hide Apply;
      assert forall j | IsActive(Apply(s, e), j) :: IsActive(s, j);
    }
  }

  // ---------------------------------------------------------------- where rows and turns belong

  ghost predicate Sorted(messages: seq<Message>, nextId: MessageId) {
    && (forall m | m in messages :: m.id < nextId)
    && (forall i, j | 0 <= i < j < |messages| :: messages[i].id < messages[j].id)
  }

  /** A reply stands in the conversation of the message it answers, after it, and its job completed. */
  predicate RowPlaced(m: Message, jobs: map<JobId, Job>, home: map<MessageId, ConversationId>) {
    match m
    case UserMessage(id, conversation, text) => id in home && home[id] == conversation
    case Reply(id, conversation, answers, job) =>
      && answers in home && home[answers] == conversation && answers < id
      && job in jobs && jobs[job].status == Completed
  }

  predicate TurnPlaced(turn: Turn, owners: map<ConversationId, UserId>, home: map<MessageId, ConversationId>) {
    match turn.phase
    case Started => true
    case HistoryRead(c, retried) =>
      && c in owners && owners[c] == turn.user
      && (retried.Some? ==> retried.value in home && home[retried.value] == c)
    case Prepared(c, message) => c in owners && owners[c] == turn.user && message in home && home[message] == c
  }

  ghost predicate Placed(s: State) {
    && Sorted(s.messages, s.nextId)
    && (forall m | m in s.messages :: RowPlaced(m, s.jobs, s.home))
    && (forall j | j in s.turns :: j in s.jobs && s.jobs[j].user == s.turns[j].user && TurnPlaced(s.turns[j], s.owners, s.home))
    && (forall id | id in s.home :: id < s.nextId && s.home[id] in s.owners)
    && s.live <= s.owners.Keys
  }

  lemma {:induction false} LastIsNewest(messages: seq<Message>, conversation: ConversationId, nextId: MessageId)
    requires Sorted(messages, nextId) && LastOf(messages, conversation).Some?
    ensures var last := LastOf(messages, conversation).value;
            && last in messages && last.conversation == conversation
            && forall m | m in messages && m.conversation == conversation :: m.id <= last.id
  {
    var front := messages[..|messages| - 1];
    assert messages == front + [messages[|messages| - 1]];
    if messages[|messages| - 1].conversation != conversation {
      LastIsNewest(front, conversation, nextId);
    }
  }

  lemma {:induction false} WithoutKeepsSorted(messages: seq<Message>, gone: set<MessageId>, nextId: MessageId)
    requires Sorted(messages, nextId)
    ensures Sorted(Without(messages, gone), nextId)
  {
    if messages != [] {
      var front := messages[..|messages| - 1];
      WithoutKeepsSorted(front, gone, nextId);
      var kept := Without(front, gone);
      forall i | 0 <= i < |kept|
        ensures kept[i].id < messages[|messages| - 1].id
      {
        assert kept[i] in front;
      }
    }
  }

  lemma AppendKeepsSorted(messages: seq<Message>, m: Message, nextId: MessageId)
    requires Sorted(messages, nextId) && m.id == nextId
    ensures Sorted(messages + [m], nextId + 1)
  {
    forall i | 0 <= i < |messages| ensures messages[i].id < nextId { assert messages[i] in messages; }
  }

  // ---------------------------------------------------------------- no message is answered twice

  predicate SameAnswer(x: Message, y: Message) {
    x.Reply? && y.Reply? && (x.answers == y.answers || x.job == y.job)
  }

  /** The message a turn will answer, once it knows. */
  function Target(turn: Turn): Option<MessageId> {
    match turn.phase
    case Started => None
    case HistoryRead(c, retried) => retried
    case Prepared(c, message) => Some(message)
  }

  predicate Unanswered(messages: seq<Message>, id: MessageId) {
    forall m | m in messages && m.Reply? :: m.answers != id
  }

  ghost predicate AnsweredOnce(s: State) {
    && (forall x, y | x in s.messages && y in s.messages && SameAnswer(x, y) :: x == y)
    && (forall j | j in s.turns && IsActive(s, j) && Target(s.turns[j]).Some? :: Unanswered(s.messages, Target(s.turns[j]).value))
  }

  ghost predicate Good(s: State) {
    OneActivePerUser(s) && Placed(s) && AnsweredOnce(s)
  }

  lemma BeginIsGood(s: State, user: UserId, job: JobId, text: string, stale: set<JobId>, limited: bool)
    requires Placed(s) && AnsweredOnce(s)
    ensures var s' := BeginTurn(s, user, job, text, stale, limited); Placed(s') && AnsweredOnce(s')
  {
    hide Sorted;
  }

  /** The last message of a conversation, when it is a user's, has no reply anywhere. */
  lemma LastUserMessageIsUnanswered(s: State, conversation: ConversationId)
    requires Placed(s)
    requires var last := LastOf(s.messages, conversation); last.Some? && last.value.UserMessage?
    ensures Unanswered(s.messages, LastOf(s.messages, conversation).value.id)
    ensures LastOf(s.messages, conversation).value.id in s.home
    ensures s.home[LastOf(s.messages, conversation).value.id] == conversation
  {
    LastIsNewest(s.messages, conversation, s.nextId);
    var last := LastOf(s.messages, conversation).value;
    assert RowPlaced(last, s.jobs, s.home);
    forall m | m in s.messages && m.Reply?
      ensures m.answers != last.id
    {
      assert RowPlaced(m, s.jobs, s.home);
    }
  }

  lemma ReadIsGood(s: State, job: JobId, conversation: ConversationId)
    requires Placed(s) && AnsweredOnce(s)
    requires job in s.turns && Owns(s, s.turns[job].user, conversation)
    ensures Placed(Read(s, job, conversation)) && AnsweredOnce(Read(s, job, conversation))
  {
    if Retried(s.messages, conversation, s.turns[job].text).Some? {
      LastUserMessageIsUnanswered(s, conversation);
    }
    hide Sorted, LastOf, RowPlaced;
  }

  lemma ReadTurnIsGood(s: State, job: JobId, conversation: ConversationId)
    requires Placed(s) && AnsweredOnce(s)
    ensures Placed(ReadTurn(s, job, conversation)) && AnsweredOnce(ReadTurn(s, job, conversation))
  {
    if job in s.turns {
      if Owns(s, s.turns[job].user, conversation) {
        ReadIsGood(s, job, conversation);
      } else if conversation !in s.owners {
        var created := s.(live := s.live + {conversation}, owners := s.owners[conversation := s.turns[job].user]);
        assert Placed(created) && AnsweredOnce(created);
        ReadIsGood(created, job, conversation);
      }
    }
    hide Placed, AnsweredOnce, Read;
  }

  lemma FailIsGood(s: State, job: JobId)
    requires Placed(s) && AnsweredOnce(s)
    ensures Placed(Fail(s, job)) && AnsweredOnce(Fail(s, job))
  {
    hide Sorted;
  }

  lemma NewMessageIsUnanswered(s: State)
    requires Placed(s)
    ensures Unanswered(s.messages, s.nextId) && s.nextId !in s.home
  {
    forall m | m in s.messages && m.Reply? ensures m.answers != s.nextId { assert RowPlaced(m, s.jobs, s.home); }
  }

  lemma WriteMessageIsPlaced(s: State, job: JobId, conversation: ConversationId)
    requires Placed(s) && job in s.turns && Owns(s, s.turns[job].user, conversation)
    ensures Placed(WriteMessage(s, job, conversation))
  {
    var s' := WriteMessage(s, job, conversation);
    var row := UserMessage(s.nextId, conversation, s.turns[job].text);
    AppendKeepsSorted(s.messages, row, s.nextId);
    hide Sorted;
    forall m | m in s'.messages ensures RowPlaced(m, s'.jobs, s'.home) {
      if m != row {
        assert m in s.messages && RowPlaced(m, s.jobs, s.home);
      }
    }
    forall j | j in s'.turns ensures TurnPlaced(s'.turns[j], s'.owners, s'.home) {
      assert TurnPlaced(s.turns[j], s.owners, s.home);
    }
  }

  lemma WriteMessageIsAnsweredOnce(s: State, job: JobId, conversation: ConversationId)
    requires Placed(s) && AnsweredOnce(s) && job in s.turns
    ensures AnsweredOnce(WriteMessage(s, job, conversation))
  {
    hide Sorted, RowPlaced, TurnPlaced;
    NewMessageIsUnanswered(s);
  }

  lemma CommitIsGood(s: State, job: JobId)
    requires Placed(s) && AnsweredOnce(s)
    ensures Placed(Commit(s, job)) && AnsweredOnce(Commit(s, job))
  {
    FailIsGood(s, job);
    if job in s.turns && s.turns[job].phase.HistoryRead? {
      var conversation := s.turns[job].phase.conversation;
      assert TurnPlaced(s.turns[job], s.owners, s.home);
      WriteMessageIsPlaced(s, job, conversation);
      WriteMessageIsAnsweredOnce(s, job, conversation);
      if s.turns[job].phase.retried.Some? {
        KeepingTheMessageIsGood(s, job);
      }
    }
    hide Fail, WriteMessage, Placed, AnsweredOnce;
  }

  lemma KeepingTheMessageIsGood(s: State, job: JobId)
    requires Placed(s) && AnsweredOnce(s)
    requires job in s.turns && s.turns[job].phase.HistoryRead? && s.turns[job].phase.retried.Some?
    ensures var phase := s.turns[job].phase;
            var s' := s.(turns := s.turns[job := s.turns[job].(phase := Prepared(phase.conversation, phase.retried.value))]);
            Placed(s') && AnsweredOnce(s')
  {
    hide Sorted, RowPlaced;
  }

  lemma WriteReplyIsPlaced(s: State, job: JobId)
    requires Placed(s) && job in s.turns && s.turns[job].phase.Prepared? && IsActive(s, job)
    ensures Placed(WriteReply(s, job))
  {
    var s' := WriteReply(s, job);
    var row := s'.messages[|s.messages|];
    AppendKeepsSorted(s.messages, row, s.nextId);
    hide Sorted;
    assert TurnPlaced(s.turns[job], s.owners, s.home);
    forall m | m in s'.messages ensures RowPlaced(m, s'.jobs, s'.home) {
      if m != row {
        assert m in s.messages && RowPlaced(m, s.jobs, s.home);
      }
    }
  }

  lemma WriteReplyIsAnsweredOnce(s: State, job: JobId)
    requires Good(s) && job in s.turns && s.turns[job].phase.Prepared? && IsActive(s, job)
    ensures AnsweredOnce(WriteReply(s, job))
  {
    var s' := WriteReply(s, job);
    var row := s'.messages[|s.messages|];
    hide Sorted;
    assert TurnPlaced(s.turns[job], s.owners, s.home);
    forall x | x in s.messages && x.Reply?
      ensures !SameAnswer(x, row)
    {
      assert RowPlaced(x, s.jobs, s.home);
    }
    forall j | j in s'.turns && IsActive(s', j) && Target(s'.turns[j]).Some?
      ensures Unanswered(s'.messages, Target(s'.turns[j]).value)
    {
      assert IsActive(s, j) && TurnPlaced(s.turns[j], s.owners, s.home);
    }
  }

  lemma FinishIsGood(s: State, job: JobId)
    requires Good(s)
    ensures Placed(Finish(s, job)) && AnsweredOnce(Finish(s, job))
  {
    FailIsGood(s, job);
    LeavingIsGood(s, job);
    if job in s.turns && s.turns[job].phase.Prepared? && IsActive(s, job) {
      WriteReplyIsPlaced(s, job);
      WriteReplyIsAnsweredOnce(s, job);
    }
    hide Fail, WriteReply, Placed, AnsweredOnce, OneActivePerUser;
  }

  lemma LeavingIsGood(s: State, job: JobId)
    requires Placed(s) && AnsweredOnce(s)
    ensures Placed(s.(turns := s.turns - {job})) && AnsweredOnce(s.(turns := s.turns - {job}))
  {
    hide Sorted, RowPlaced, TurnPlaced;
  }

  lemma FailingIsGood(s: State, failing: set<JobId>)
    requires Placed(s) && AnsweredOnce(s)
    ensures var s' := s.(jobs := FailJobs(s.jobs, failing)); Placed(s') && AnsweredOnce(s')
  {
    hide Sorted;
  }

  lemma DeletingIsGood(s: State, gone: set<MessageId>, live: set<ConversationId>)
    requires Placed(s) && AnsweredOnce(s) && live <= s.live
    ensures var s' := s.(messages := Without(s.messages, gone), live := live); Placed(s') && AnsweredOnce(s')
  {
    WithoutKeepsSorted(s.messages, gone, s.nextId);
    hide Sorted, RowPlaced, TurnPlaced;
  }

  lemma OpeningIsGood(s: State, user: UserId, conversation: ConversationId, archived: set<ConversationId>)
    requires Placed(s) && AnsweredOnce(s) && conversation !in s.owners
    ensures var s' := s.(archived := archived, live := s.live + {conversation}, owners := s.owners[conversation := user]);
            Placed(s') && AnsweredOnce(s')
  {
    hide Sorted, RowPlaced;
  }

  lemma EventIsGood(s: State, e: Event)
    requires Good(s)
    ensures Good(Apply(s, e))
  {
    OneActiveIsKept(s, e);
    hide Placed, AnsweredOnce, BeginTurn, ReadTurn, Commit, Finish, Fail, OneActivePerUser, FailJobs;
    match e
    case Begin(user, job, text, stale, limited) => BeginIsGood(s, user, job, text, stale, limited);
    case ReadHistory(job, conversation) => ReadTurnIsGood(s, job, conversation);
    case CommitMessage(job) => CommitIsGood(s, job);
    case Complete(job) => FinishIsGood(s, job);
    case FailTurn(job) => FailIsGood(s, job);
    case Vanish(job) => LeavingIsGood(s, job);
    case Reap(job) => FailingIsGood(s, {job});
    case FailTurnsEndedByRestart => FailingIsGood(s, s.jobs.Keys);
    case NewConversation(user, earlier, conversation) =>
      if conversation !in s.owners {
        OpeningIsGood(s, user, conversation, Apply(s, e).archived);
      }
    case DeleteConversation(conversation) =>
      DeletingIsGood(s, OfConversation(s.messages, conversation), s.live - {conversation});
    case DeleteMessages(gone) => DeletingIsGood(s, gone, s.live);
  }

  /** On every run at most one chat job per user is active, no user message has two replies, no job wrote
      two, and every reply was written by a job that completed: a job the reaper failed never answers. */
  lemma {:induction false} NoMessageIsAnsweredTwice(events: seq<Event>)
    ensures Good(Run(events))
    ensures forall user :: |ActiveJobs(Run(events).jobs, user)| <= 1
    ensures forall x, y | x in Run(events).messages && y in Run(events).messages && SameAnswer(x, y) :: x == y
    ensures forall x | x in Run(events).messages && x.Reply? ::
              x.job in Run(events).jobs && Run(events).jobs[x.job].status == Completed
  {
    if events != [] {
      NoMessageIsAnsweredTwice(events[..|events| - 1]);
      EventIsGood(Run(events[..|events| - 1]), events[|events| - 1]);
    }
    var s := Run(events);
    forall user ensures |ActiveJobs(s.jobs, user)| <= 1 { AtMostOneActive(s, user); }
    forall x | x in s.messages && x.Reply?
      ensures x.job in s.jobs && s.jobs[x.job].status == Completed
    {
      assert RowPlaced(x, s.jobs, s.home);
    }
  }

  lemma AtMostOneActive(s: State, user: UserId)
    requires OneActivePerUser(s)
    ensures |ActiveJobs(s.jobs, user)| <= 1
  {
    var active := ActiveJobs(s.jobs, user);
    if active != {} {
      var j :| j in active;
      assert IsActive(s, j);
      forall k | k in active ensures k == j { assert IsActive(s, k); }
      assert active == {j};
    }
  }

  /** An ended job stays as it is, whatever happens later. */
  lemma EndedJobsStay(s: State, e: Event, job: JobId)
    requires job in s.jobs && s.jobs[job].status != Running
    ensures job in Apply(s, e).jobs && Apply(s, e).jobs[job] == s.jobs[job]
  {
    if !e.Begin? {
      JobsOnlyEnd(s, e);
      hide Apply;
    }
  }

  // ---------------------------------------------------------------- what the table itself shows

  predicate AwaitsReply(messages: seq<Message>, conversation: ConversationId) {
    LastOf(messages, conversation).Some? && LastOf(messages, conversation).value.UserMessage?
  }

  /** In every conversation each reply directly follows a user message. */
  predicate Alternating(messages: seq<Message>) {
    messages == [] ||
    var front, last := messages[..|messages| - 1], messages[|messages| - 1];
    Alternating(front) && (last.Reply? ==> AwaitsReply(front, last.conversation))
  }

  function Place(turn: Turn): ConversationId
    requires Target(turn).Some?
  {
    turn.phase.conversation
  }

  ghost predicate TurnsAwait(s: State) {
    forall j | j in s.turns && IsActive(s, j) && Target(s.turns[j]).Some? && Place(s.turns[j]) in s.live ::
      AwaitsReply(s.messages, Place(s.turns[j]))
  }

  lemma LastOfAppend(messages: seq<Message>, m: Message, conversation: ConversationId)
    ensures LastOf(messages + [m], conversation) == if m.conversation == conversation then Some(m) else LastOf(messages, conversation)
  {
    assert (messages + [m])[..|messages|] == messages;
  }

  lemma {:induction false} LastSurvives(messages: seq<Message>, gone: set<MessageId>, deleted: ConversationId, c: ConversationId)
    requires forall m | m in messages :: m.id in gone <==> m.conversation == deleted
    requires c != deleted
    ensures LastOf(Without(messages, gone), c) == LastOf(messages, c)
  {
    if messages != [] {
      var front, last := messages[..|messages| - 1], messages[|messages| - 1];
      assert messages == front + [last];
      LastSurvives(front, gone, deleted, c);
      if last.id !in gone {
        LastOfAppend(Without(front, gone), last, c);
      }
    }
  }

  lemma {:induction false} OthersStillAlternate(messages: seq<Message>, gone: set<MessageId>, deleted: ConversationId)
    requires forall m | m in messages :: m.id in gone <==> m.conversation == deleted
    requires Alternating(messages)
    ensures Alternating(Without(messages, gone))
  {
    if messages != [] {
      var front, last := messages[..|messages| - 1], messages[|messages| - 1];
      assert messages == front + [last];
      OthersStillAlternate(front, gone, deleted);
      if last.id !in gone {
        assert (Without(front, gone) + [last])[..|Without(front, gone)|] == Without(front, gone);
        LastSurvives(front, gone, deleted, last.conversation);
      }
    }
  }

  ghost predicate Orderly(s: State) {
    Alternating(s.messages) && TurnsAwait(s)
  }

  lemma ReadIsOrderly(s: State, job: JobId, conversation: ConversationId)
    requires Orderly(s) && job in s.turns
    ensures Orderly(Read(s, job, conversation))
  {
  }

  lemma WriteMessageIsOrderly(s: State, job: JobId, conversation: ConversationId)
    requires Orderly(s) && job in s.turns
    ensures Orderly(WriteMessage(s, job, conversation))
  {
    hide LastOf;
    var row := UserMessage(s.nextId, conversation, s.turns[job].text);
    assert (s.messages + [row])[..|s.messages|] == s.messages;
    forall c ensures LastOf(s.messages + [row], c) == if row.conversation == c then Some(row) else LastOf(s.messages, c) {
      LastOfAppend(s.messages, row, c);
    }
  }

  lemma WriteReplyIsOrderly(s: State, job: JobId)
    requires Good(s) && Orderly(s)
    requires job in s.turns && s.turns[job].phase.Prepared? && IsActive(s, job) && s.turns[job].phase.conversation in s.live
    ensures Orderly(WriteReply(s, job))
  {
    hide LastOf, Sorted, RowPlaced;
    var s' := WriteReply(s, job);
    var row := s'.messages[|s.messages|];
    assert (s.messages + [row])[..|s.messages|] == s.messages;
    assert TurnPlaced(s.turns[job], s.owners, s.home);
    forall j | j in s'.turns && IsActive(s', j) && Target(s'.turns[j]).Some? && Place(s'.turns[j]) in s'.live
      ensures AwaitsReply(s'.messages, Place(s'.turns[j]))
    {
      assert IsActive(s, j) && TurnPlaced(s.turns[j], s.owners, s.home);
      LastOfAppend(s.messages, row, Place(s.turns[j]));
    }
  }

  lemma DeletingAConversationIsOrderly(s: State, conversation: ConversationId)
    requires Placed(s) && Orderly(s)
    ensures Orderly(Apply(s, DeleteConversation(conversation)))
  {
    var gone := OfConversation(s.messages, conversation);
    forall m | m in s.messages
      ensures m.id in gone <==> m.conversation == conversation
    {
      if m.id in gone {
        var n :| n in s.messages && n.conversation == conversation && n.id == m.id;
        assert n == m;
      }
    }
    OthersStillAlternate(s.messages, gone, conversation);
    forall c | c != conversation ensures LastOf(Without(s.messages, gone), c) == LastOf(s.messages, c) {
      LastSurvives(s.messages, gone, conversation, c);
    }
  }

  lemma BeginIsOrderly(s: State, user: UserId, job: JobId, text: string, stale: set<JobId>, limited: bool)
    requires Orderly(s) && s.turns.Keys <= s.jobs.Keys
    ensures Orderly(BeginTurn(s, user, job, text, stale, limited))
  {
    hide Alternating, AwaitsReply;
  }

  lemma ReadTurnIsOrderly(s: State, job: JobId, conversation: ConversationId)
    requires Orderly(s) && Placed(s)
    ensures Orderly(ReadTurn(s, job, conversation))
  {
    if job in s.turns {
      ReadIsOrderly(s, job, conversation);
      if conversation !in s.owners {
        var created := s.(live := s.live + {conversation}, owners := s.owners[conversation := s.turns[job].user]);
        CreatedIsOrderly(s, created, conversation);
        ReadIsOrderly(created, job, conversation);
      }
    }
    hide Read, Orderly;
  }

  lemma CreatedIsOrderly(s: State, s': State, conversation: ConversationId)
    requires Orderly(s) && Placed(s) && conversation !in s.owners
    requires (s'.messages, s'.turns, s'.jobs) == (s.messages, s.turns, s.jobs) && s'.live <= s.live + {conversation}
    ensures Orderly(s')
  {
    hide Alternating, AwaitsReply, Sorted, RowPlaced;
    forall j | j in s.turns && Target(s.turns[j]).Some? ensures Place(s.turns[j]) != conversation {
      assert TurnPlaced(s.turns[j], s.owners, s.home);
    }
  }

  /** Turns that leave and jobs that end wait for nothing. */
  lemma FewerActiveTurnsAreOrderly(s: State, s': State)
    requires Orderly(s) && s'.messages == s.messages && s'.live == s.live
    requires forall j | j in s'.turns && IsActive(s', j) :: j in s.turns && s'.turns[j] == s.turns[j] && IsActive(s, j)
    ensures Orderly(s')
  {
    hide Alternating, AwaitsReply;
  }

  lemma CommitIsOrderly(s: State, job: JobId)
    requires Orderly(s)
    ensures Orderly(Commit(s, job))
  {
    FewerActiveTurnsAreOrderly(s, Fail(s, job));
    if job in s.turns && s.turns[job].phase.HistoryRead? {
      WriteMessageIsOrderly(s, job, s.turns[job].phase.conversation);
    }
    hide Fail, WriteMessage, Alternating, AwaitsReply;
  }

  lemma FinishIsOrderly(s: State, job: JobId)
    requires Good(s) && Orderly(s)
    ensures Orderly(Finish(s, job))
  {
    FewerActiveTurnsAreOrderly(s, Fail(s, job));
    FewerActiveTurnsAreOrderly(s, s.(turns := s.turns - {job}));
    if job in s.turns && s.turns[job].phase.Prepared? && IsActive(s, job) && s.turns[job].phase.conversation in s.live {
      WriteReplyIsOrderly(s, job);
    }
    hide Fail, WriteReply, Orderly;
  }

  lemma EventIsOrderly(s: State, e: Event)
    requires Good(s) && Orderly(s) && !e.DeleteMessages?
    ensures Orderly(Apply(s, e))
  {
    hide Orderly, BeginTurn, ReadTurn, Commit, Finish, OneActivePerUser, AnsweredOnce, Sorted, RowPlaced, TurnPlaced, Without;
    match e
    case Begin(user, job, text, stale, limited) => BeginIsOrderly(s, user, job, text, stale, limited);
    case ReadHistory(job, conversation) => ReadTurnIsOrderly(s, job, conversation);
    case CommitMessage(job) => CommitIsOrderly(s, job);
    case Complete(job) => FinishIsOrderly(s, job);
    case FailTurn(job) => FewerActiveTurnsAreOrderly(s, Apply(s, e));
    case Vanish(job) => FewerActiveTurnsAreOrderly(s, Apply(s, e));
    case Reap(job) => FewerActiveTurnsAreOrderly(s, Apply(s, e));
    case FailTurnsEndedByRestart => FewerActiveTurnsAreOrderly(s, Apply(s, e));
    case NewConversation(user, earlier, conversation) =>
      if conversation !in s.owners {
        CreatedIsOrderly(s, Apply(s, e), conversation);
      }
    case DeleteConversation(conversation) => DeletingAConversationIsOrderly(s, conversation);
  }

  /** Unless single messages are deleted from under it, every conversation alternates: a reply directly
      follows a user message, and no two replies are neighbours, even when the reaper failed a live turn,
      its message was sent again and the old turn finished late. */
  lemma {:induction false} ConversationsAlternate(events: seq<Event>)
    requires forall e | e in events :: !e.DeleteMessages?
    ensures Alternating(Run(events).messages) && Orderly(Run(events))
  {
    if events != [] {
      ConversationsAlternate(events[..|events| - 1]);
      NoMessageIsAnsweredTwice(events[..|events| - 1]);
      EventIsOrderly(Run(events[..|events| - 1]), events[|events| - 1]);
    }
  }

  // ---------------------------------------------------------------- the start of a turn

  /** The chat jobs of a user that run, by their stored status. */
  predicate HasRunning(jobs: map<JobId, Job>, user: UserId, besides: set<JobId>) {
    exists job :: job in jobs && job !in besides && jobs[job] == Job(user, Running)
  }

  /** The jobs after a turn has begun: its own runs, the user's stale ones have failed, all others are untouched. */
  predicate HasBegun(jobs: map<JobId, Job>, jobs': map<JobId, Job>, user: UserId, job: JobId, stale: set<JobId>) {
    && jobs'.Keys == jobs.Keys + {job}
    && jobs'[job] == Job(user, Running)
    && forall j | j in jobs :: jobs'[j] == if j in stale && jobs[j] == Job(user, Running) then Job(user, Failed) else jobs[j]
  }

  lemma BegunJobs(jobs: map<JobId, Job>, user: UserId, job: JobId, stale: set<JobId>)
    requires job !in jobs
    ensures HasBegun(jobs, FailJobs(jobs, stale * ActiveJobs(jobs, user))[job := Job(user, Running)], user, job, stale)
  {
  }

  lemma ActiveOnceBegun(jobs: map<JobId, Job>, jobs': map<JobId, Job>, user: UserId, job: JobId, stale: set<JobId>)
    requires job !in jobs && HasBegun(jobs, jobs', user, job, stale)
    ensures |ActiveJobs(jobs', user)| > 1 <==> HasRunning(jobs, user, stale)
  {
    var active := ActiveJobs(jobs', user);
    assert job in active;
    if HasRunning(jobs, user, stale) {
      var other :| other in jobs && other !in stale && jobs[other] == Job(user, Running);
      assert jobs'[other] == jobs[other];
      TwoAreMoreThanOne(active, job, other);
    }
    if active == {job} {
      assert |active| == 1;
    } else {
      var other :| other in active && other != job;
      assert jobs[other] == Job(user, Running) && other !in stale;
    }
  }

  /** A request within the limits, with a job id of its own, is refused if and only if the user has a running job
      that is not stale; and then nothing is changed. Otherwise its turn starts with its text, its job runs, exactly
      the user's stale jobs have failed, and every other job is what it was. */
  lemma TurnBegins(s: State, user: UserId, job: JobId, text: string, stale: set<JobId>)
    requires job !in s.jobs
    ensures var s' := Apply(s, Begin(user, job, text, stale, false));
            if HasRunning(s.jobs, user, stale) then s' == s
            else
              && s' == s.(jobs := s'.jobs, turns := s.turns[job := Turn(user, text, Started)])
              && HasBegun(s.jobs, s'.jobs, user, job, stale)
  {
    var jobs := FailJobs(s.jobs, stale * ActiveJobs(s.jobs, user))[job := Job(user, Running)];
    BegunJobs(s.jobs, user, job, stale);
    ActiveOnceBegun(s.jobs, jobs, user, job, stale);
    hide FailJobs, ActiveJobs, HasBegun, HasRunning;
  }

  lemma TwoAreMoreThanOne(jobs: set<JobId>, j: JobId, k: JobId)
    requires j in jobs && k in jobs && j != k
    ensures |jobs| > 1
  {
    if |jobs| <= 1 {
      AtMostOne(jobs, j, k);
    }
  }

  /** A request over a limit, or with a job id already in use, changes nothing. */
  lemma LimitedTurnsChangeNothing(s: State, user: UserId, job: JobId, text: string, stale: set<JobId>, limited: bool)
    requires limited || job in s.jobs
    ensures Apply(s, Begin(user, job, text, stale, limited)) == s
  {
  }

  // ---------------------------------------------------------------- a turn that nothing disturbs

  /** The turn may start on this conversation. */
  predicate MayRead(s: State, job: JobId, conversation: ConversationId) {
    && job in s.turns && s.turns[job].phase.Started? && IsActive(s, job)
    && conversation in s.live && conversation !in s.archived && Owns(s, s.turns[job].user, conversation)
  }

  /** The conversation's last message is a user's with this text. */
  predicate IsSentAgain(s: State, conversation: ConversationId, text: string) {
    var last := LastOf(s.messages, conversation);
    last.Some? && last.value.UserMessage? && last.value.text == text
  }

  lemma TurnAsks(s: State, job: JobId, conversation: ConversationId)
    requires MayRead(s, job, conversation)
    ensures var prepared := Apply(Apply(s, ReadHistory(job, conversation)), CommitMessage(job));
            var text := s.turns[job].text;
            && (prepared.jobs, prepared.live) == (s.jobs, s.live) && job in prepared.turns
            && prepared.messages == (if IsSentAgain(s, conversation, text) then s.messages
                                     else s.messages + [UserMessage(s.nextId, conversation, text)])
            && IsSentAgain(prepared, conversation, text)
            && prepared.turns[job].phase == Prepared(conversation, LastOf(prepared.messages, conversation).value.id)
  {
    hide LastOf;
    LastOfAppend(s.messages, UserMessage(s.nextId, conversation, s.turns[job].text), conversation);
  }

  /** From its request to its reply, a turn nothing disturbs asks its question once, repeats no message sent again,
      and leaves it answered by the last message of the conversation, its job completed. */
  lemma UndisturbedTurnIsAnswered(s: State, user: UserId, job: JobId, text: string, stale: set<JobId>, conversation: ConversationId)
    requires job !in s.jobs && !HasRunning(s.jobs, user, stale)
    requires conversation in s.live && conversation !in s.archived && Owns(s, user, conversation)
    ensures var begun := Apply(s, Begin(user, job, text, stale, false));
            var prepared := Apply(Apply(begun, ReadHistory(job, conversation)), CommitMessage(job));
            var answered := Apply(prepared, Complete(job));
            && prepared.messages == (if IsSentAgain(s, conversation, text) then s.messages
                                     else s.messages + [UserMessage(s.nextId, conversation, text)])
            && IsSentAgain(prepared, conversation, text)
            && answered.messages == prepared.messages
               + [Reply(prepared.nextId, conversation, LastOf(prepared.messages, conversation).value.id, job)]
            && job in answered.jobs && answered.jobs[job] == Job(user, Completed) && job !in answered.turns
  {
    TurnBegins(s, user, job, text, stale);
    var begun := Apply(s, Begin(user, job, text, stale, false));
    assert begun.turns[job] == Turn(user, text, Started) && begun.jobs[job] == Job(user, Running);
    TurnAsks(begun, job, conversation);
    hide LastOf, BeginTurn, ReadTurn, Commit, HasBegun, HasRunning;
  }

  // ---------------------------------------------------------------- how turns end otherwise

  /** A process that starts leaves no turn's job running; nothing else changes. */
  lemma RestartFailsEveryTurn(s: State)
    ensures var s' := Apply(s, FailTurnsEndedByRestart);
            && s' == s.(jobs := s'.jobs) && s'.jobs.Keys == s.jobs.Keys
            && forall j | j in s.jobs ::
                 s'.jobs[j] == if s.jobs[j].status == Running then Job(s.jobs[j].user, Failed) else s.jobs[j]
  {
  }

  /** The reaper, and a turn that fails by itself, end that one job if it still runs. */
  lemma OneJobIsFailed(s: State, job: JobId)
    requires job in s.jobs
    ensures var failed := if s.jobs[job].status == Running then s.jobs[job := Job(s.jobs[job].user, Failed)] else s.jobs;
            && Apply(s, Reap(job)) == s.(jobs := failed)
            && (job in s.turns ==> Apply(s, FailTurn(job)) == s.(jobs := failed, turns := s.turns - {job}))
  {
    var failed := if s.jobs[job].status == Running then s.jobs[job := Job(s.jobs[job].user, Failed)] else s.jobs;
    assert FailJobs(s.jobs, {job}) == failed;
  }

  /** A turn whose job was failed meanwhile, or whose conversation is gone, writes no reply. */
  lemma LateTurnWritesNothing(s: State, job: JobId)
    requires job in s.turns && s.turns[job].phase.Prepared?
    requires !IsActive(s, job) || s.turns[job].phase.conversation !in s.live
    ensures Apply(s, Complete(job)).messages == s.messages && job !in Apply(s, Complete(job)).turns
    ensures !IsActive(Apply(s, Complete(job)), job)
  {
  }

  /** A deleted conversation keeps no message, and the others keep theirs, in order. */
  lemma DeletionIsComplete(s: State, conversation: ConversationId)
    requires Placed(s)
    ensures var s' := Apply(s, DeleteConversation(conversation));
            && (forall m :: m in s'.messages <==> m in s.messages && m.conversation != conversation)
            && conversation !in s'.live
            && forall c | c != conversation :: LastOf(s'.messages, c) == LastOf(s.messages, c)
  {
    var gone := OfConversation(s.messages, conversation);
    forall m | m in s.messages ensures m.id in gone <==> m.conversation == conversation {
      if m.id in gone {
        var n :| n in s.messages && n.conversation == conversation && n.id == m.id;
        assert n == m;
      }
    }
    forall c | c != conversation ensures LastOf(Without(s.messages, gone), c) == LastOf(s.messages, c) {
      LastSurvives(s.messages, gone, conversation, c);
    }
  }

  /** A new conversation is its user's and live, and exactly that user's earlier ones named are archived. */
  lemma NewConversationIsOpen(s: State, user: UserId, earlier: set<ConversationId>, conversation: ConversationId)
    requires conversation !in s.owners
    ensures var s' := Apply(s, NewConversation(user, earlier, conversation));
            && Owns(s', user, conversation) && conversation in s'.live
            && (forall c | c in s.owners :: c in s'.owners && s'.owners[c] == s.owners[c])
            && (forall c :: c in s'.archived <==> c in s.archived || (c in earlier && Owns(s, user, c)))
            && (s'.jobs, s'.turns, s'.messages) == (s.jobs, s.turns, s.messages)
  {
  }

  /** A turn without an active conversation opens one of its user's and reads it empty; one that names a conversation
      that is archived, another user's or gone reads nothing. */
  lemma ReadingOpensAConversation(s: State, job: JobId, conversation: ConversationId)
    requires job in s.turns && s.turns[job].phase.Started?
    ensures conversation !in s.owners && conversation !in s.live ==>
              var s' := Apply(s, ReadHistory(job, conversation));
              && conversation in s'.live && Owns(s', s.turns[job].user, conversation)
              && s'.turns[job].phase == HistoryRead(conversation, Retried(s.messages, conversation, s.turns[job].text))
              && (s'.jobs, s'.messages, s'.archived) == (s.jobs, s.messages, s.archived)
    ensures (conversation in s.live && (conversation in s.archived || !Owns(s, s.turns[job].user, conversation)))
            || (conversation !in s.live && conversation in s.owners) ==>
              Apply(s, ReadHistory(job, conversation)) == s
  {
  }

  /** A message is sent again exactly when it is the conversation's last, a user's, and reads the same. */
  lemma RetriedIsTheUnansweredLast(messages: seq<Message>, conversation: ConversationId, text: string, id: MessageId)
    ensures Retried(messages, conversation, text) == Some(id)
            <==> LastOf(messages, conversation) == Some(UserMessage(id, conversation, text))
  {
    LastIsOfTheConversation(messages, conversation);
  }

  lemma {:induction false} LastIsOfTheConversation(messages: seq<Message>, conversation: ConversationId)
    ensures LastOf(messages, conversation).Some? ==> LastOf(messages, conversation).value.conversation == conversation
  {
    if messages != [] {
      LastIsOfTheConversation(messages[..|messages| - 1], conversation);
    }
  }

  /** Deleting messages deletes exactly those; a turn whose process is gone leaves nothing behind but its job. */
  lemma DeletionsAreExact(s: State, gone: set<MessageId>, job: JobId)
    ensures var s' := Apply(s, DeleteMessages(gone));
            && s' == s.(messages := s'.messages)
            && forall m :: m in s'.messages <==> m in s.messages && m.id !in gone
    ensures Apply(s, Vanish(job)) == s.(turns := s.turns - {job})
  {
  }
}
