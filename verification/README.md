# Songmaker: verified models

Songmaker generates songs on GPU workers, writes lyrics with a co-writer, draws album covers and masters the audio. This
project models the parts of it whose correctness depends on more than one function, in Dafny, and proves what those parts
are for.

| module | what it models |
|---|---|
| `AlignmentPaths`, `AlignmentTables`, `LineIntervals` | aligning lyrics to recognised words: the three-state table filled in place, its traceback, and the highlighted line intervals |
| `ModelTables`, `ModelCaches` | the worker's loaded models: last use, pins, use counts, VRAM budget, eviction plan |
| `WorkerProtocol`, `WorkerHolds`, `WorkerHandover`, `WorkerUses`, `WorkerCycles` | admission of generations and LoRA trainings to one GPU: the hold key in Redis, the queue depth, the two locks, handover of a hold to a training, use counts over whole runs, and what whole requests leave behind |
| `ChatTurns` | co-writer turns: one active turn per user, messages sent again, replies only from active jobs |
| `CoverSwap`, `CoverPublication` | replacing a cover directory by directory; publishing a drawn cover against cancellation and restart |
| `TaskFiles`, `TaskStores` | the worker's task records, event queues of subscribers, result files |
| `RepaintSplice`, `Mastering`, `SampleFormats` | crossfades of a repainted range, envelope, compressor, soft clip, 16-bit samples |
| `Text`, `Dotenv`, `GrafanaPassword` | reading a key of `.env`, and rewriting it so that reading agrees |
| `RateWindow` | the busiest rate-limit window of an access log |
| `Wrappers`, `Numbers` | optional values and results; minimum and truncation |

## How the models relate to the code

**Objects that change.** `ModelCache`, `TaskStore`, `AlignmentTable`, `SimilarityMemo` and the cover directories are classes
whose methods update fields as the source does. Array loops (table rows, envelope, compressor gain, soft clip, crossfades,
interleaving) run in place on arrays. Each such method is tied to a function of the state or the input, and the properties
are proved about that function.

**Protocols.** `WorkerProtocol`, `ChatTurns` and `CoverPublication` are state machines. One event is what the code does
between two suspension points, one Redis script, one committed transaction or one file step; an event that is not enabled
changes nothing. A run is any sequence of events, so every interleaving, expiry, failure, cancellation, death and restart
is a run. `CoverSwap` and `ModelCache` take their outside answers (how each file step ends, GPU readings, children
that fail to start or stop) from arbitrary sequences, so their contracts can say which answer decided.

**Findings.** Five claims are false of the code as written. Each has a concrete witness and the exact condition under
which it holds.

- A handed-over hold can lose its protection when a token is presented to `train_lora` a second time: the refused duplicate
  drops the first one's record (`WorkerProtocol.SecondPresentationBreaksTheHandover`). The protection lasts throughout a run
  if and only if no failed request drops the record of a token that another run owns
  (`WorkerHandover.ProtectedUnlessDropped`), in particular when tokens are presented once
  (`WorkerHandover.HandedOverHoldIsKept`).
- A generate request cancelled while its task is created leaves a use of the model behind, because the cancellation is not
  caught (`WorkerUses.CancelledCreationLosesAUse`). Use counts are exact if and only if no cancellation hit a holder there or
  in a release since the worker last died (`WorkerUses.ExactUnlessLost`).
- A result file loses its record when a task completes twice with different files
  (`TaskFiles.SecondCompletionLosesTheFile`, and on a store `TaskStores.CompleteTwice`). Files stay named throughout a run if
  and only if no completion replaces the last record of a file on disk (`TaskFiles.NamedUnlessDropped`), in particular when
  each task completes at most once (`TaskFiles.CompletedOnceStaysNamed`).
- A line of `.env` that ends with an unusual line break (a form feed or a next-line character, say) is glued to the next
  line when the password in it is replaced (`GrafanaPassword.OtherBreaksSwallowTheNextLine`); rewriting and reading agree
  if and only if the line's break is passed on or nothing follows that could be harmed
  (`GrafanaPassword.RewritingReadsBack`), and always for texts with ordinary breaks (`GrafanaPassword.OrdinaryTextsReadBack`). The doc comment of `scripts/grafana_password.py` promises that every other byte stays;
  the bytes do (`GrafanaPassword.OtherBytesStay`), the line structure only in that case.

- `scripts/dotenv_file.py:3-7` calls a `#` with white space in front of it the start of a comment. Where no value stands
  before it the reader takes the comment for the value (`Dotenv.CommentForAValueIsRead`, with the exact condition); so a
  password line that holds only a comment counts as a password of its own.

**Assumptions.** Floats are reals. Declared model sizes and the VRAM budget are not negative. Ended job states are final,
a lock on an active job's row excludes other writers, and commits are atomic. A Redis command whose request was cancelled
takes effect when it is sent or not at all. A single web process runs restart recovery, before any runner starts. Of `tanh`
only oddness, monotony and `0 <= tanh x <= min(x, 1)` for `x >= 0` is used.

## Model

| member | source | states |
|---|---|---|
| AlignmentPaths.StepIsBest | scripts/lyric_alignment_golden.py:298-319 | each of the three table steps takes the best over every ending it may follow, its back pointer names that ending, and between equal scores the order of the endings decides |
| AlignmentPaths.FirstRowIsFree | scripts/lyric_alignment_golden.py:326-327 | heard words before the first lyric word cost nothing, and that part of an alignment counts as a heard gap |
| AlignmentPaths.NoPathBeatsTheTable | scripts/lyric_alignment_golden.py:322-342 | no alignment whatever, scored move by move, beats the recurrence at the cell and ending it reaches |
| AlignmentPaths.CellIsTheMaximum | scripts/lyric_alignment_golden.py:275-342 | every cell holds per ending exactly the maximum score over all alignments that reach it with that last move, and minus infinity exactly where there is none |
| AlignmentPaths.EveryCellIsReached | scripts/lyric_alignment_golden.py:288-296 | the best score of a cell is never minus infinity |
| AlignmentPaths.BackPointerIsReached | scripts/lyric_alignment_golden.py:358-371 | a back pointer of a reached cell stays in the table, leads to a reached cell, and the move between them accounts for the whole score difference |
| AlignmentPaths.WalkHasTheScore | scripts/lyric_alignment_golden.py:357-371 | the walk along the back pointers, scored independently of the table, has the score of the cell it starts from |
| AlignmentPaths.TracedIsOptimal | scripts/lyric_alignment_golden.py:345-372 | the traced alignment is complete and no complete alignment scores higher |
| AlignmentPaths.LastStepOfATightWalk | scripts/lyric_alignment_golden.py:303-319 | an equally good walk either follows the back pointer or comes from a less preferred ending |
| AlignmentPaths.TracedIsPreferred | scripts/lyric_alignment_golden.py:141-146 | among all optimal alignments the traced one is the one the order of the endings prefers, read from the end |
| AlignmentPaths.MovesInNumbers | scripts/lyric_alignment_golden.py:116-119 | what each move of an alignment costs or earns, in numbers, and that equal words are similar by 1 |
| AlignmentPaths.OneWordIsPaired | scripts/lyric_alignment_golden.py:322-372 | one lyric word and one heard word are paired exactly when they are similar by more than a quarter |
| AlignmentTables.SimilarityMemo.Of | scripts/lyric_alignment_golden.py:348-352 | the memo answers with the similarity of the two words, whatever was asked before |
| AlignmentTables.AlignmentTable.constructor | scripts/lyric_alignment_golden.py:278-282 | a new table holds minus infinity and heard-gap pointers in every cell |
| AlignmentTables.AlignmentTable.Set | scripts/lyric_alignment_golden.py:284-286 | one score and one back pointer change, every other cell and ending stays |
| AlignmentTables.AlignmentTable.BestEndingOf | scripts/lyric_alignment_golden.py:288-293 | the loop finds the best ending, the first in order among equals |
| AlignmentTables.AlignmentTable.SkipLyric | scripts/lyric_alignment_golden.py:298-301 | the lyric-gap entry becomes the recurrence's from the cell above, nothing else changes |
| AlignmentTables.AlignmentTable.ContinueGap | scripts/lyric_alignment_golden.py:303-310 | the heard-gap entry becomes the recurrence's from the cell on the left, nothing else changes |
| AlignmentTables.AlignmentTable.ContinuePair | scripts/lyric_alignment_golden.py:312-319 | the pair entry becomes the recurrence's from the diagonal cell, nothing else changes |
| AlignmentTables.OneCellOnce | scripts/lyric_alignment_golden.py:335 | two positions of the table never share a cell of the flat lists |
| AlignmentTables.FillCell | scripts/lyric_alignment_golden.py:334-341 | in row order, one more cell of the flat lists holds exactly the recurrence's scores and pointers |
| AlignmentTables.FillAlignmentTable | scripts/lyric_alignment_golden.py:322-342 | the filled table is the recurrence at every cell |
| AlignmentTables.StepWritesItsEntry | scripts/lyric_alignment_golden.py:358-371 | one turn of the traceback accounts for exactly the last entry of the anchors of the walk so far |
| AlignmentTables.Trace | scripts/lyric_alignment_golden.py:355-372 | the traceback stays in the table, ends, and yields exactly the sufficiently similar pairs of the traced alignment |
| AlignmentTables.AlignWords | scripts/lyric_alignment_golden.py:345-372 | the anchors are those of an alignment that is optimal among all alignments |
| AlignmentTables.AnchorsAreInOrder | scripts/lyric_alignment_golden.py:361-366 | anchored heard words are later for later lyric words, so none serves two; each is similar enough |
| AlignmentTables.AnchorsAreThePairs | scripts/lyric_alignment_golden.py:361-366 | the anchors are exactly the pairs of the alignment whose similarity is at least 0.6, with that similarity |
| LineIntervals.LyricWords | scripts/lyric_alignment_golden.py:244-250 | words carry line numbers of existing lines, in line order |
| LineIntervals.WordsAreTheTokens | scripts/lyric_alignment_golden.py:244-250 | every token of every line is one lyric word, in its place, and there are no others |
| LineIntervals.HeardLineIsAnchored | scripts/lyric_alignment_golden.py:375-386 | a line that counts as heard has an anchor to take its times from, so neither access fails |
| LineIntervals.DealOut | scripts/lyric_alignment_golden.py:395-397 | every line gets exactly its own words' anchors, in word order |
| LineIntervals.EarlierLineComesFirst | scripts/lyric_alignment_golden.py:395-398 | all heard words of one line come before all heard words of a later line |
| LineIntervals.LitLinesAreWellOrdered | scripts/lyric_alignment_golden.py:382-398 | with heard words ordered in time, lit intervals end after they start and neither starts nor ends go back |
| LineIntervals.AlignLyricsToCues | scripts/lyric_alignment_golden.py:389-398 | one interval per raw line; for an optimal alignment of the lines' words to the heard texts, a line lights exactly when all of its one or two words, or half of its more words, are anchored, from its first anchored word's start to its last one's end; with the times in order it covers every anchored word, and lit lines never go back |
| LineIntervals.LitFromItsWords | scripts/lyric_alignment_golden.py:375-386 | over the lyric words and their anchors: exactly when a line lights, and that its interval runs from its first anchored word to its last |
| LineIntervals.NoAnchoredWordOutside | scripts/lyric_alignment_golden.py:382-386 | with the times in order no anchored word of a lit line is heard outside its interval |
| LineIntervals.JoinHyphenPieces | scripts/lyric_alignment_golden.py:253-261 | the loop joins each piece to the word before it |
| LineIntervals.JoiningKeepsTimesInOrder | scripts/lyric_alignment_golden.py:253-261 | joining keeps the words ordered in time and covers the same span of time |
| LineIntervals.JoinedAreTheGroups | scripts/lyric_alignment_golden.py:253-261 | each joined word is one beginning and all pieces after it, its text theirs run together, from the first's start to the last's end |
| ModelTables.AcquireKeepsGood | src/acestep_worker/model_cache.py:209-216 | acquiring keeps budget, use counts, and table order equal to order of last use |
| ModelTables.LeavingKeepsGood | src/acestep_worker/model_cache.py:184-186 | dropping an idle mode keeps the invariant and frees exactly its declared size |
| ModelTables.LoadKeepsGood | src/acestep_worker/model_cache.py:166-169 | a mode that fits joins as the most recently used, within the budget |
| ModelCaches.ModelCache.AcquireForUse | src/acestep_worker/model_cache.py:209-216 | refused exactly when not loaded; else the mode is last in order, has one use more, and every other use and pin is the same |
| ModelCaches.ModelCache.Release | src/acestep_worker/model_cache.py:218-224 | one use less, none left is forgotten, nothing else changes |
| ModelCaches.ModelCache.ReleaseAndStop | src/acestep_worker/model_cache.py:226-251 | the last use also drops the mode, even when stopping its child raises, which is exactly when this raises; the pin stays |
| ModelCaches.ModelCache.Evict | src/acestep_worker/model_cache.py:175-187 | a mode in use is refused; exactly a child that fails to stop leaves a loaded idle mode as it was; else the mode and its pin go, and no other mode |
| ModelCaches.ModelCache.EvictAll | src/acestep_worker/model_cache.py:189-197 | everything is forgotten, or nothing when a child fails |
| ModelCaches.ModelCache.PlanningUsed | src/acestep_worker/model_cache.py:256-263 | the usage planned against is at least the declared sizes and at least the GPU's next reading, and is one of the two |
| ModelCaches.ModelCache.BuildEvictionPlan | src/acestep_worker/model_cache.py:265-277 | the plan is the shortest least recently used run of unpinned idle modes that makes room, or all of them |
| ModelCaches.PlanDecides | src/acestep_worker/model_cache.py:301-309 | the plan makes room exactly when evicting every evictable mode would |
| ModelCaches.VictimLeaves | src/acestep_worker/model_cache.py:313-322 | each victim is loaded, idle and unpinned when its turn comes, and its declared size is freed |
| ModelCaches.ModelCache.UnloadUntilRoom | src/acestep_worker/model_cache.py:311-323 | each victim was still needed by the readings since the plan, finishing means there is room, and it stops early exactly with the unload that raises |
| ModelCaches.ModelCache.EvictToFit | src/acestep_worker/model_cache.py:301-323 | refused exactly when, with everything evictable gone, the declared sizes or the GPU's next reading leave no room, and then nothing is unloaded; otherwise the victims are a prefix of the shortest run, each still needed when its turn came |
| ModelCaches.ModelCache.Load | src/acestep_worker/model_cache.py:149-173 | for every sequence of readings and failing calls: refused exactly when the mode alone exceeds the budget or, with everything evictable gone, the declared sizes or the next reading leave no room; else exactly the needed, least recently used, idle and unpinned victims leave and the mode is loaded unless a call raises; without victims the reading has room for it; declared sizes never exceed the budget |
| ModelCaches.PrefixIsOldest | src/acestep_worker/model_cache.py:265-277 | victims are loaded, idle and unpinned, and every other such mode was used later |
| ModelCaches.RunningFollowsTheReadings | src/acestep_worker/model_cache.py:320-322 | after each victim the assumed usage falls at least by its size, and lower only to the new reading or the declared sizes |
| WorkerProtocol.NoGenerationUnderAHold | src/acestep_worker/wrapper.py:317-435 | in every reachable state a stored hold excludes registered generations, a positive queue depth and a generation being admitted |
| WorkerProtocol.EventKeepsExclusion | src/acestep_worker/wrapper.py:317-435 | each step of any request, script, expiry, death or start keeps that exclusion |
| WorkerProtocol.RedisKeepsExclusion | src/acestep_worker/heartbeat.py:114-115 | expiry, the web's counter, worker death and start keep it |
| WorkerProtocol.RouteKeepsExclusion | src/acestep_worker/heartbeat.py:29-42 | the reserve, renew and release scripts keep it |
| WorkerProtocol.AdmissionKeepsExclusion | src/acestep_worker/wrapper.py:389-405 | admitting a generation under the lock keeps it, at every suspension point |
| WorkerProtocol.HoldAnswersToItsToken | src/acestep_worker/heartbeat.py:29-42 | a hold ends only by expiry, the start of a worker that was down, or a release naming its token, is prolonged only by a renewal naming it, and never changes its token |
| WorkerProtocol.TrainAnswersToItsToken | src/acestep_worker/wrapper.py:457-608 | a training request touches the hold only if the hold names its token |
| WorkerHolds.RenewalResets | src/acestep_worker/heartbeat.py:29-32 | a renewal by the route, or by a training while its renewal runs, gives the hold of its token fifteen seconds again; any other changes nothing |
| WorkerHolds.TimePasses | src/acestep_worker/heartbeat.py:37-42 | what passes is taken from the hold, and all of it ends it |
| WorkerHolds.RenewedInTimeStands | src/acestep_worker/wrapper.py:130-148 | on every run a hold whose owner renews it before fifteen seconds are over still stands under its token, with what is left, unless it is given back or the worker starts |
| WorkerHolds.ReservationHolds | src/acestep_worker/heartbeat.py:37-42 | a reservation gets fifteen seconds exactly when there is no hold and no queued generation |
| WorkerHolds.QueueCounts | src/songmaker_cli/acestep_state.py:27-31 | a generation is queued exactly when no hold is stored, and counted down when it is done |
| WorkerHolds.StartIsClean | src/acestep_worker/heartbeat.py:114-115 | a starting worker finds no hold and no queued generation, whatever was left |
| WorkerHolds.ReserveRoute | src/acestep_worker/wrapper.py:317-329 | the whole route: refused while generations are registered, else the outcome of its script, and the lock free again |
| WorkerHolds.ReleaseRoute | src/acestep_worker/wrapper.py:340-345 | the whole route: refused for a recorded token, else it ends the hold exactly if the token holds it, and the lock free again |
| WorkerHolds.CacheEventsAreExact | src/acestep_worker/model_cache.py:149-207 | what loads, evictions and pins do to the table the protocol shares |
| WorkerHandover.HandedOverOnce | src/acestep_worker/wrapper.py:151-171 | as long as no failed request drops the record of a token another run owns, exactly the owned tokens are recorded, each with its one training's task |
| WorkerHandover.ProtectedUnlessDropped | src/acestep_worker/wrapper.py:504-518 | on every run the owners of handed-over tokens stay recorded throughout, if and only if no failed request drops the record of a token that another run owns |
| WorkerHandover.ProtectedHoldIsKept | src/acestep_worker/wrapper.py:340-345 | on such runs only expiry, worker start and the training's own cleanup end a handed-over hold; the release route refuses it |
| WorkerHandover.PresentedOnceDropsNobody | src/acestep_worker/wrapper.py:504-518 | a run that presents no token twice drops nobody else's record |
| WorkerHandover.HandedOverHoldIsKept | src/acestep_worker/wrapper.py:340-345 | with tokens presented once, only expiry, worker start and the training's own cleanup end a handed-over hold; the release route refuses it |
| WorkerProtocol.SecondPresentationBreaksTheHandover | src/acestep_worker/wrapper.py:504-518 | a run without expiry or death in which a duplicate request ends the protection and a generation runs beside the training |
| WorkerUses.EventKeepsTheAccount | src/acestep_worker/wrapper.py:389-608 | each step keeps use counts equal to the holders plus the lost uses |
| WorkerUses.UsesAreAccounted | src/acestep_worker/wrapper.py:306-608 | on every run each use count is its holders plus the uses lost to a cancellation; a held mode is loaded |
| WorkerUses.EventLoses | src/acestep_worker/wrapper.py:389-608 | a use of a mode is lost exactly when a cancellation hits a holder of that mode in task creation or in a release, and forgotten exactly with the worker's death |
| WorkerUses.ExactUnlessLost | src/acestep_worker/wrapper.py:306-608 | on every run a use count is exactly the requests that hold the mode, if and only if since the worker's last death no cancellation hit a holder in task creation or a release |
| WorkerUses.CountsAreExact | src/acestep_worker/wrapper.py:306-608 | without a cancellation inside task creation or a release, use counts are exactly the requests that acquired and have not released, on every outcome |
| WorkerUses.CancelledCreationLosesAUse | src/acestep_worker/wrapper.py:398-402 | a run that leaves a use nobody holds, after which the mode cannot be evicted |
| WorkerCycles.GenerationLeavesNoTrace | src/acestep_worker/wrapper.py:306-435 | a generate request that is refused changes nothing; one whose creation fails, whose spawning fails or that runs gives back its use and its registration, only order of use and a task id remain |
| WorkerCycles.TrainingLeavesNoTrace | src/acestep_worker/wrapper.py:317-608 | a training that takes its hold over, spawned or not, gives back hold, record and use; its mode is stopped if nobody else uses it and all use counts are as before |
| WorkerCycles.WhenSetupFails | src/acestep_worker/wrapper.py:457-501 | a training's setup fails at a step exactly when it raises there, its hold is gone, or its token is recorded already |
| WorkerCycles.FailedSetupIsUndone | src/acestep_worker/wrapper.py:504-518 | in any state, wherever a setup fails, the way back gives back its one use, leaves the lock and drops the token's record; the hold stays |
| ChatTurns.NoMessageIsAnsweredTwice | src/songmaker_cli/conversation_api.py:546-809 | on every run no user message has two replies, no job wrote two, each reply's job completed, and at most one chat job per user is active |
| ChatTurns.OneActiveIsKept | src/songmaker_cli/conversation_api.py:546-577 | every step, a new turn above all, keeps at most one active chat job per user |
| ChatTurns.BeginKeepsOneActive | src/songmaker_cli/api_helpers.py:216-257 | whatever a request begins or is refused, its user and every other keep at most one active job |
| ChatTurns.TurnBegins | src/songmaker_cli/conversation_api.py:546-577 | a request within the limits is refused, and changes nothing, if and only if its user has a running job that is not stale; else its turn starts with its text, its job runs, exactly the user's stale jobs have failed and every other job is untouched |
| ChatTurns.LastUserMessageIsUnanswered | src/songmaker_cli/conversation_api.py:667-681 | the message a retry takes up has no reply anywhere |
| ChatTurns.CommitIsGood | src/songmaker_cli/conversation_api.py:614-664 | keeping or writing the message keeps every message's answer unique, though the history was read earlier |
| ChatTurns.FinishIsGood | src/songmaker_cli/conversation_api.py:785-809 | a late turn whose job was failed meanwhile writes nothing; an active one answers an unanswered message |
| ChatTurns.EndedJobsStay | src/songmaker_cli/conversation_api.py:453-465 | an ended job stays as it is, through restarts and the reaper too |
| ChatTurns.ConversationsAlternate | src/songmaker_cli/conversation_api.py:614-809 | every reply directly follows a user message of its conversation, on every run without deletions of single messages |
| ChatTurns.UndisturbedTurnIsAnswered | src/songmaker_cli/conversation_api.py:546-809 | from its request to its reply an undisturbed turn asks its question once, repeats no message sent again, and leaves it answered last and its job completed |
| ChatTurns.RetriedIsTheUnansweredLast | src/songmaker_cli/conversation_api.py:667-681 | a message counts as sent again exactly when it is its conversation's last, a user's, with the same text |
| ChatTurns.ReadingOpensAConversation | src/songmaker_cli/conversation_api.py:624-626 | a turn without an active conversation opens one of its user's; it never reads an archived or another user's |
| ChatTurns.RestartFailsEveryTurn | src/songmaker_cli/conversation_api.py:453-465 | after a restart exactly the jobs that ran have failed |
| ChatTurns.LateTurnWritesNothing | src/songmaker_cli/conversation_api.py:791-795 | a turn whose job has ended, or whose conversation is gone, writes no reply |
| ChatTurns.NewConversationIsOpen | src/songmaker_cli/conversation_api.py:876-886 | a new conversation is its user's, and only that user's earlier ones are archived |
| ChatTurns.DeletionIsComplete | src/songmaker_cli/conversation_api.py:893-901 | a deleted conversation keeps no message and every other keeps its last |
| CoverSwap.CoverStore.RestoreIfOrphaned | src/songmaker_cli/covers.py:461-465 | a set that stepped aside comes back when nothing took its place, and nothing stored changes |
| CoverSwap.CoverStore.RemoveAside | src/songmaker_cli/covers.py:468-488 | a removal stopped inside touches only what stepped aside |
| CoverSwap.CoverStore.StepAside | src/songmaker_cli/covers.py:453-458 | the stored set moves aside whole or not at all |
| CoverSwap.CoverStore.SaveVariants | src/songmaker_cli/covers.py:390-411 | files are half-written only in the staging directory, and complete on return |
| CoverSwap.CoverStore.Swap | src/songmaker_cli/covers.py:238-242 | until the last rename the stored set is the old one |
| CoverSwap.CoverStore.WriteCover | src/songmaker_cli/covers.py:214-253 | stopped anywhere the old set or its complete replacement survives; raising keeps the old set; returning means the new one is in place; the final directory is never half-written; it returns when every step goes well, with nothing left aside, and stops exactly where a step does |
| CoverSwap.CoverStore.WriteAll | src/songmaker_cli/covers.py:214-253 | over any sequence of interrupted writes a stored cover is never lost, and what is stored is explained by how each write ended |
| TaskStores.QueuedInOrder | src/acestep_worker/task_store.py:203-206 | a put on the queue of a live subscriber keeps its stream complete and in order |
| TaskStores.YieldedInOrder | src/acestep_worker/task_store.py:250-257 | one yield keeps the stream in order and stops it at the first terminal event |
| TaskStores.UpdateKeepsGood | src/acestep_worker/task_store.py:164-206 | an update reaches every subscriber of its task and no other |
| TaskStores.NothingIsMissed | src/acestep_worker/task_store.py:239-262 | a subscriber sees the state at subscription and every later event in order up to the first terminal one, none missed, also once its generator has ended; one that left early saw a prefix |
| TaskStores.EventsTellTheState | src/acestep_worker/task_store.py:69-75 | an event is of the kind of its snapshot's state, and terminal exactly when that is done or failed |
| TaskStores.FeedTells | src/acestep_worker/task_store.py:249-257 | every event yielded or queued tells the state its task was in; a feed ends by itself only after it yielded the task done or failed, and nothing before that was terminal |
| TaskFiles.EventDecides | src/acestep_worker/task_store.py:164-206 | a step of the store keeps every registered file on disk named if and only if it is no completion that replaces the last record of one |
| TaskFiles.EventsAreExact | src/acestep_worker/task_store.py:228-277 | what each operation does to files and the records that name them |
| TaskFiles.NamedUnlessDropped | src/acestep_worker/task_store.py:149-277 | throughout every run every registered file on disk is named by a record, if and only if no completion of the run replaces the last record of a file still there |
| TaskFiles.CompletedOnceStaysNamed | src/acestep_worker/task_store.py:149-277 | on every run that completes each task at most once, every registered file still on disk has a live record naming it, throughout |
| TaskFiles.SecondCompletionLosesTheFile | src/acestep_worker/task_store.py:149-155 | create, write, complete, write, complete with another file: the first file is on disk, registered, and no record names it |
| TaskStores.CompleteTwice | src/acestep_worker/task_store.py:149-155 | those five calls on a store end in that state |
| TaskStores.TaskStore.WriteResultFile | src/acestep_worker/task_results.py:20-28 | a result is written under a name never used, registered nowhere yet |
| TaskStores.TaskStore.Create | src/acestep_worker/task_store.py:106-126 | refused exactly for epochs of no training or a phase of no generation; else a pending record without subscribers and with an empty event log |
| TaskStores.TaskStore.Update | src/acestep_worker/task_store.py:164-206 | the written fields, the event in every subscriber's queue, and nothing for an unknown task |
| TaskStores.TaskStore.MarkRunning | src/acestep_worker/task_store.py:128-129 | the task is under way, every subscriber is told, nothing else changes |
| TaskStores.TaskStore.MarkTrainingStarted | src/acestep_worker/task_store.py:131-132 | the start time is set, every subscriber is told, nothing else changes |
| TaskStores.TaskStore.UpdateProgress | src/acestep_worker/task_store.py:134-147 | progress, and phase and epoch where given, are set, every subscriber is told, nothing else changes |
| TaskStores.TaskStore.Complete | src/acestep_worker/task_store.py:149-155 | the record afterwards, with result, full progress, time and file, that state as terminal event in every subscriber's queue, and nothing for an unknown task |
| TaskStores.TaskStore.Fail | src/acestep_worker/task_store.py:157-162 | the record afterwards, with message, kind and time, that state as terminal event in every subscriber's queue; no file changes, and nothing for an unknown task |
| TaskStores.TaskStore.Subscribe | src/acestep_worker/task_store.py:239-247 | the feed starts with an event that tells the state now and is due every event from now on; nothing else changes |
| TaskStores.TaskStore.Next | src/acestep_worker/task_store.py:249-257 | what one turn of the generator yields, waits for, or ends with |
| TaskStores.TaskStore.Leave | src/acestep_worker/task_store.py:258-262 | the queue leaves its task and no other |
| TaskStores.TaskStore.DiscardResult | src/acestep_worker/task_store.py:228-237 | the name is dropped only with the file; exactly a failing removal keeps both |
| TaskStores.TaskStore.CleanupTerminal | src/acestep_worker/task_store.py:264-277 | exactly the records go that have been terminal for longer than the retention and whose file, if any, can be removed, and those files with them |
| CoverPublication.RowsBelongToCompletedJobs | src/songmaker_cli/cover_runner.py:146-382 | on every run a suggestion row belongs to a completed job, at most one per job, its picture on disk; cancelled and failed jobs have none |
| CoverPublication.RowsAppearOnlyWithCompletion | src/songmaker_cli/cover_runner.py:352-382 | a row appears only in the commit that completes its running job, and ended jobs never change |
| CoverPublication.EventIsPlaced | src/songmaker_cli/cover_runner.py:146-382 | every step of a runner, a cancel, the reaper, death and recovery keeps rows, pictures and runners in place |
| CoverPublication.CommitIsPlaced | src/songmaker_cli/cover_runner.py:352-378 | the commit that completes a job and adds its row keeps every row, picture and runner in place |
| CoverPublication.RollBackIsPlaced | src/songmaker_cli/cover_runner.py:379-382 | undoing a moved file removes no picture that a row names |
| CoverPublication.RecoveryRemovesNoSuggestion | src/songmaker_cli/cover_runner.py:90-121 | restart recovery deletes no row and no picture and leaves no job running |
| CoverPublication.OneActiveIsKept | src/songmaker_cli/cover_suggestions.py:66-96 | no step gives an album two active cover jobs: a request is refused while one is queued or running, and no other step makes a job active |
| CoverPublication.RequestIsAdmitted | src/songmaker_cli/cover_suggestions.py:82-96 | a request gets a queued job exactly when its album has none queued or running |
| CoverPublication.ClaimIsTaken | src/songmaker_cli/db/queries/jobs.py:160-174 | a queued job, and no other, goes to one runner and is running from then on |
| CoverPublication.CancelEndsTheJob | src/songmaker_cli/db/queries/jobs.py:202-230 | a cancel or the reaper ends a queued or running job there and then, unless its publication holds the row |
| CoverPublication.ProblemsEndTheJob | src/songmaker_cli/cover_runner.py:146-200 | whatever goes wrong, no row, no picture and nothing staged is left, and a job that has not ended otherwise has failed |
| CoverPublication.RecoveryIsExact | src/songmaker_cli/cover_runner.py:90-121 | recovery fails exactly the running jobs and removes their staging directories |
| CoverPublication.RecoveryDropsInterrupted | src/songmaker_cli/cover_runner.py:98-118 | it would remove exactly the rows and pictures of running jobs |
| CoverPublication.StatusIsPlaced | src/songmaker_cli/db/queries/jobs.py:202-230 | cancelling or failing a job that is not being published keeps everything in place |
| CoverPublication.UndisturbedJobPublishes | src/songmaker_cli/cover_runner.py:146-382 | an undisturbed job ends completed with exactly one row and one picture more and nothing left in staging |
| RepaintSplice.FadesDoNotOverlap | src/songmaker_cli/generate.py:154-167 | fades share the region without overlap, are as long as asked for where there is room, fill it where there is not, and a fade alone may use all of it |
| RepaintSplice.RangeFits | src/songmaker_cli/generate.py:104-121 | clamped range and fades stay inside both takes, for reversed ranges too |
| RepaintSplice.RangeIsInSeconds | src/songmaker_cli/generate.py:104-121 | the range starts and ends at the samples sounding at the given seconds, clamped to the takes; inner ends fade over a twentieth of a second, the takes' own ends not at all |
| RepaintSplice.FadesAreLinear | src/songmaker_cli/generate.py:123-143 | fades run from none to all of the repaint, or back, in equal steps |
| RepaintSplice.WeightIsAFraction | src/songmaker_cli/generate.py:123-147 | the repaint's share of a sample is 0 outside the range, 1 between the fades and a fraction inside them |
| RepaintSplice.FadesAreMonotone | src/songmaker_cli/generate.py:123-143 | the share never falls while fading in and never rises while fading out |
| RepaintSplice.MixIsBetween | src/songmaker_cli/generate.py:126-129 | a mixed sample lies between the two it mixes, in proportion to the weight |
| RepaintSplice.FadeIn | src/songmaker_cli/generate.py:123-130 | the in-place fade-in touches only its slice |
| RepaintSplice.FadeOut | src/songmaker_cli/generate.py:135-142 | the in-place fade-out touches only its slice and keeps the fade-in |
| RepaintSplice.SpliceRepaint | src/songmaker_cli/generate.py:98-151 | every sample of both channels mixes the two takes at its own index by its weight; a reversed or empty range changes nothing |
| Mastering.EnvelopeFollower | src/audio_engine/mastering.py:272-285 | the loop's array is the envelope; an empty signal is an index error |
| Mastering.EnvelopeIsBetween | src/audio_engine/mastering.py:272-285 | any bounds on the magnitudes so far bound the envelope |
| Mastering.EnvelopeIsMonotone | src/audio_engine/mastering.py:272-285 | a louder signal never has a lower envelope, although the coefficient depends on the signal |
| Mastering.EnvelopeSettles | src/audio_engine/mastering.py:280-284 | towards a held level the distance shrinks by the attack or the release coefficient per sample, never crossing it |
| Mastering.GainOnlyTurnsDown | src/audio_engine/mastering.py:339-343 | for ratio at least 1 and a positive threshold the gain is in (0, 1], 1 below the threshold, at least 1/ratio above the noise floor |
| Mastering.GainIsExact | src/audio_engine/mastering.py:339-343 | above the threshold the gain brings the envelope to the threshold plus its excess divided by the ratio |
| Mastering.CompressSignal | src/audio_engine/mastering.py:326-345 | the array computation yields the compressed samples, or the envelope's index error |
| Mastering.CompressionOnlyTurnsDown | src/audio_engine/mastering.py:326-345 | no magnitude is raised, no sign flipped, no sample silenced, none reduced beyond the ratio |
| Mastering.CompressionFollowsTheEnvelope | src/audio_engine/mastering.py:326-345 | after a change of level each sample is turned down by what the envelope still is, in closed form, not by its own size |
| Mastering.QuietSignalsPass | src/audio_engine/mastering.py:339-345 | up to the first sample above the threshold nothing changes |
| Mastering.SteadyToneFollowsTheRatio | src/audio_engine/mastering.py:339-345 | a steady tone comes out at the threshold plus its excess divided by the ratio |
| Mastering.SoftClip | src/audio_engine/mastering.py:189-211 | the masked writes clip each sample; an empty array is returned as it is |
| Mastering.SoftClipStaysBelowTheCeiling | src/audio_engine/mastering.py:189-211 | odd, sign kept, never above the ceiling nor the input, unchanged below the knee and never below it above |
| Mastering.SoftClipIsMonotone | src/audio_engine/mastering.py:201-209 | a louder sample never comes out lower, across the knee too |
| SampleFormats.InterleaveToInt16 | src/audio_engine/audio_io.py:113-125 | left at even and right at odd places, as far as both channels go |
| SampleFormats.QuantisationIsTowardsZero | src/audio_engine/audio_io.py:119 | every result is a 16-bit value; a sample in range loses less than one step, towards silence |
| SampleFormats.QuantisationIsOdd | src/audio_engine/audio_io.py:119 | opposite samples get opposite integers exactly when they are less than full scale |
| SampleFormats.ToInt16IsMonotone | src/audio_engine/audio_io.py:119 | a larger sample never gets a smaller integer |
| SampleFormats.ReadThenWritten | src/audio_engine/audio_io.py:182-183 | decoding a 16-bit sample and encoding it again is the identity |
| SampleFormats.StereoRoundTrip | src/audio_engine/audio_io.py:113-125 | so it is for a whole interleaved stereo buffer |
| SampleFormats.WidthsAgree | src/audio_engine/audio_io.py:180-190 | 8-bit samples survive exactly, 32-bit samples lose their lower half towards zero |
| SampleFormats.DecodingIsExact | src/audio_engine/audio_io.py:180-190 | a decoded sample is its integer's share of its type's full scale; floats are taken as they are |
| SampleFormats.DecodedThenEncoded | src/audio_engine/audio_io.py:113-190 | decoding any integer file and encoding it as 16 bits gives the same, the scaled, or the truncated samples |
| SampleFormats.IntegersBecomeFractions | src/audio_engine/audio_io.py:180-190 | integer formats decode into [-1, 1), sample for sample; only an unknown type is refused |
| SampleFormats.MasteredSamplesAreNotClipped | src/audio_engine/mastering.py:95-96 | after the soft clip at its default ceiling the 16-bit clip never acts |
| Text.LinesAreSplit | scripts/dotenv_file.py:46 | splitting keeps every byte and leaves lines that end where the next begins |
| Text.SplitLinesAreFound | scripts/grafana_password.py:171 | joining such lines and splitting again gives the same lines |
| Text.SpacesAndBreaks | scripts/dotenv_file.py:46-47 | white space and line breaks, character by character |
| Dotenv.EffectiveAssignment | scripts/dotenv_file.py:39-59 | the loop finds the last assignment, its line and value, or the refusal |
| Dotenv.ReadingIsOfTheRaws | scripts/dotenv_file.py:39-59 | the reading depends only on what is assigned to the key: the last value, unless any quote is left open; the named line assigns it and no later one does |
| Dotenv.QuotedReads | scripts/dotenv_file.py:99-117 | the exact reading of any quoted value with any text behind the quote |
| Dotenv.UnquotedReads | scripts/dotenv_file.py:118-133 | a trimmed value without comment in it reads as it stands, with white space and a comment behind it left out; a `$` in it is refused |
| Dotenv.CommentForAValueIsRead | scripts/dotenv_file.py:120-123 | an assignment reads as empty exactly when nothing but white space follows the separator; a comment there is read as the value |
| Dotenv.SplitsAtTheFirstSeparator | scripts/dotenv_file.py:79-86 | a line is split at its first `=` or `:`, and its key is trimmed |
| Dotenv.ExportIsSkipped | scripts/dotenv_file.py:77-78 | an `export` in front is skipped, once |
| GrafanaPassword.NewLineAssigns | scripts/grafana_password.py:163 | the new line assigns the password and no other key, whatever follows on it |
| GrafanaPassword.GluedValue | scripts/dotenv_file.py:118-133 | a value glued to the next line reads as itself exactly when that line is blank or an indented comment |
| GrafanaPassword.ReplacedLines | scripts/grafana_password.py:168-171 | the exact lines of the rewritten text, for every kind of line break |
| GrafanaPassword.OtherBytesStay | scripts/grafana_password.py:168-171 | every byte but the replaced line's content stays |
| GrafanaPassword.OnlyThatLineChanges | scripts/grafana_password.py:168-171 | the lines are the old ones with one content replaced, if and only if that line's break is passed on or it is the last |
| GrafanaPassword.AppendingReadsBack | scripts/grafana_password.py:165-167 | an appended password reads back and every other key reads as before, for every text |
| GrafanaPassword.RewritingReadsBack | scripts/grafana_password.py:161-171 | the password reads back and every other key keeps its value, absence or refusal, if and only if the replaced line's break is passed on or not needed |
| GrafanaPassword.OrdinaryTextsReadBack | scripts/grafana_password.py:161-171 | for every text that breaks lines only at line feeds and carriage returns the password reads back, every other key reads as before, and no other line changes |
| GrafanaPassword.OtherBreaksSwallowTheNextLine | scripts/grafana_password.py:169 | a text whose password line ends with a next-line character, on which rewriting does not read back |
| GrafanaPassword.SecondRunChangesNothing | scripts/grafana_password.py:147-158 | exactly a missing or publicly known password is replaced, and a second run finds the first one's and changes nothing |
| RateWindow.BusiestWindowOfOneClient | scripts/e2e_rate_window.py:73-83 | the two indices find the most requests in any half-open window placed anywhere, and the earliest request that starts such a window |
| RateWindow.LongestRunIsThePeak | scripts/e2e_rate_window.py:73-83 | the longest run narrower than the window is what counting every placement finds |
| RateWindow.WindowIsARun | scripts/e2e_rate_window.py:73-83 | the sorted requests inside any window are one contiguous run |
| RateWindow.SortedSorts | scripts/e2e_rate_window.py:98 | sorting keeps every time and orders them |
| RateWindow.TimesByClient | scripts/e2e_rate_window.py:91-95 | each client's times in log order, clients in the order of their first request |
| RateWindow.BusiestApiWindow | scripts/e2e_rate_window.py:86-103 | nothing exactly when no request counts; else no client sent more in any window, the peak is reached, and earlier clients stayed below |

## Left out

- WorkerProtocol, ChatTurns and CoverPublication model the routes, Redis scripts and transactions as steps of a state machine over values, not as classes: what the interleavings do to each other is the point, and an `async` method body cannot be suspended in Dafny.
- UsesAreAccounted: `evict_all`, which clears the use counts at shutdown by design, is not an event of the worker runs.
- EvictAll: proved for the cache alone, where it also clears the order of use.
- HandedOverHoldIsKept: stated for runs in which each token is presented to `train_lora` once; ProtectedUnlessDropped gives the exact condition, and SecondPresentationBreaksTheHandover shows that one is needed.
- DiscardResult: whether a removal fails is a parameter; so are the tasks whose files a cleanup cannot remove, and a write that fails half-way is not an event, since its file is never registered.
- TrainingLeavesNoTrace: a training whose mode is not loaded holds no use and is not among its cases.
- ConversationsAlternate: deleting single messages is excluded, because the remaining table then shows two replies in a row; NoMessageIsAnsweredTwice covers those runs too.
- NoMessageIsAnsweredTwice: which message a reply answers is recorded as history in the model; the table does not store it.
- LitLinesAreWellOrdered: needs heard words ordered in time, which overlapping cues do not guarantee.
- AlignLyricsToCues: takes the heard words as given; ordering and tokenising the cues (`heard_words`) is not modelled.
- JoinHyphenPieces: what counts as a piece and how its text is stripped are parameters.
- SpliceRepaint: a negative start of the range is not covered; the API refuses it.
- EnvelopeIsBetween: the exponentials that give the coefficients are not computed, only that they lie between 0 and 1.
- RecoveryRemovesNoSuggestion: a picture moved into place by a publication that died before its commit stays on disk without a row; recovery does not look for it.
- BusiestApiWindow: parsing of log lines and the classification of paths are parameters.
- EffectiveAssignment: refusals carry their kind, not their message; `compose_value`, which looks into the environment first, is not modelled.
- Similarity of unequal words (`SequenceMatcher`), normalisation, tokenisation and German number spelling are abstract or absent: the alignment is proved for every similarity.
- Rounding of floats: all arithmetic is over reals.
- Filters, loudness measurement, stereo widening, WAV and MP3 encoding: foreign code, or one-line arithmetic.
- Cover image decoding, path confinement and the removal of a deleted entity's cover.
- The cover prompt and its size budget, the co-writer's context blocks and the compaction of long histories.
- HTTP routes, SSE frames, registration, metrics, subprocesses, credentials and the browser client.
- The swap of the `.env` file on disk and the Grafana calls.
