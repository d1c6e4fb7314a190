# Verification of the learning platform's back end

A Dafny model of the stateful cores of a FastAPI back end for a learning community, with proofs about
every run, schedule or input of each. `dafny verify dfyconfig.toml` checks all of it. The database is
modelled as maps and sequences, each commit or Redis command as one atomic step, and time as an integer
that callers hand in.

Main results:

- **Conversations** (`ConversationForest`, `ConversationRuns`). Branching builds a forest, and the queue walk
  behind deletion, which keeps no visited set, lists every strict descendant exactly once because of the
  invariant that branching keeps. A branch copies exactly the source's messages up to the branch point. Over
  every history of create, fork, archive and delete, no live conversation hangs below a deleted one, a deletion
  time is never overwritten, and root links name the top of their chain.
- **View counting** (`ViewCount`, `ViewCounterProcess`). For any number of workers, any interleaving, failures
  and restarts, accepted views = committed + still in Redis + carried by workers + dropped, with the exact steps
  that drop; every increment waiting in Redis or in a process's memory stays tracked by someone who can collect
  it exactly until a seal or a restart strands it; a viewer is counted once per place that remembers it, and
  what visits let through is what is counted.
- **Token blacklist** (`MemoryBlacklist`, `TokenBlacklist`, `TokenSchedules`, `TokenFallback`). Under every
  schedule of Redis failures, cooldowns, recoveries and overlapping calls, a token this process revoked stays
  revoked, and the answer is exactly that of an unbounded dictionary beside the Redis that can be reached, for
  each fallback; the bounded store agrees with an unbounded map exactly when there is room.
- **Study plans and mastery** (`StudyPlan`, `Mastery`). The greedy plan is the longest affordable prefix and no
  affordable choice holds more items; it stops only where the budget does; mastery lies in (0,1), rises with
  every corrected answer and never rises by ageing.
- **Agent rules and inbox** (`RuleKeys`, `RuleEngine`, `Inbox`). Over every run, a rule's suggestions are spaced
  by its cooldown, capped in every one-hour window, unique per day and never allowed in quiet hours, and a rule
  fires exactly when none of these holds it back; inbox rows keep their status machine; global sweeps equal
  per-user sweeps.
- **Agent chat** (`CallAssembly`, `Transcripts`, `ToolLoop`). Tool calls assembled from a stream do not depend
  on interleaving; every chat has a closed form and ends once within three model calls; transcripts keep each
  tool use answered in order, also after translation to the other wire format.
- **Points and task claims** (`PointsLedger`, `TaskBoard`, `TaskService`). Each user is paid for a task at most
  once and exactly when an approved claim stands; balances are running sums and never negative.
- **Smaller cores** (`UsageBuffer`, `Totp`, `BodyLimit`, `Redaction`). Every usage record has one fate; Base32
  text is the data as one number to base 32; a request within the limit is not disturbed; redaction shows
  exactly what is not below a sensitive key. Base32 follows section 6 of RFC 4648, truncation section 5.3 of RFC
  4226, time steps section 4.2 of RFC 6238.

Where the code and its notes disagree, the model follows the code:

- `app/services/view_count.py:22` says a failed write leaves the increment in Redis; lines 98-113 swap the
  counter to zero before the commit, so a failed commit loses what was captured
  (`ViewCount.FailureLosesCapturedDeltas`, `ViewCount.FailureLosesNothingIff`). Line 103 also forgets a post
  that was counted again after its swap, so a positive counter may be in nobody's pending set
  (`ViewCount.SealKeepsTrackedIff`, `ViewCount.StrandedIncrement`, `ViewCount.StepKeepsCoveredIff`).
  `ViewCount.CapturedThenLost` is a schedule that loses a view.
- `app/core/security_blacklist.py:4` describes a purely in-process dictionary when Redis is not configured; that
  holds exactly with fallback "memory", or with "open" while nothing is revoked: "open" recognises no token and
  "closed" refuses every one (`TokenFallback.NoRedisIsDictionaryIff`, `TokenFallback.NoRedisOpenAndClosed`).
- `app/services/llm_client.py:111` prepares for a usage chunk at the end of the stream; lines 143-144 stop
  reading at the finish reason, before it (`CallAssembly.UsageReportedIff`, `CallAssembly.UsageTailIsLost`).
- `app/repositories/tools_repo.py:466` calls the leaderboard value a balance; it is the highest balance ever
  reached (`PointsLedger.LeaderboardShowsBalanceIff`, `PointsLedger.LeaderboardKeepsSpentPoints`).
- `app/services/auxilio_service.py:733` counts rows by timestamp, so rows deleted earlier at the same instant
  are counted again (`ConversationForest.CountIsNewlyDeletedIff`, `ConversationRuns.SameInstantIsCountedTwice`).
- `app/services/auxilio_service.py:549-550` puts a deferred item back to planned but leaves its completion time
  (`StudyPlan.UpdateKeepsCompletionIff`, `StudyPlan.DeferredKeepsCompletionTime`).
- `app/services/auxilio_agent.py:658` tests the error text, so an upstream error with an empty message counts as
  success (`ToolLoop.EveryChatEndsOnce`, `ToolLoop.CutShortIsErrorIff`).
- `app/core/security_blacklist.py:5` calls the Redis mode consistent across instances; while Redis is failing, a
  token that only another process revoked is not recognised (`TokenSchedules.AgreesWithEveryProcessIff`,
  `TokenSchedules.ElsewhereIsMissedWithoutRedis`).
- `app/services/view_count.py:13` promises correct concurrent deduplication; a viewer passes again in the memory
  of each process that has to do without Redis (`ViewCount.OnePassPerHolder`,
  `ViewCount.SecondPassWhenDegraded`).
- `app/services/view_count.py:24-25` calls counting in process memory still correct within the process; a view
  counted there just before Redis comes back is forgotten by the next flush while its counter stays behind
  (`ViewCount.SealedOwnIff`, `ViewCount.StrandedInMemory`).
- `app/services/agent_automation_service.py:4` calls the cooldown a minimum distance; a firing whose mark failed
  leaves none (`RuleEngine.FiringStartsCooldownIff`, `RuleEngine.UnmarkedFiringIsNotSpaced`).

## Model

| member | source | states |
|---|---|---|
| ConversationForest.AncestorIsOlder | app/services/auxilio_service.py:650-657 | Following parent links any positive number of steps reaches an older row of the same owner, so ancestry has no cycle |
| ConversationForest.RootIsTopOfChain | app/services/auxilio_service.py:650-656 | The root link of every row is the end of its own parent chain |
| ConversationForest.NoLiveBelowDeleted | app/services/auxilio_service.py:698-700 | In a table where live rows have live parents, no live row has a deleted ancestor at any distance |
| ConversationForest.WalkStep | app/services/auxilio_service.py:718-721 | Popping a child and queueing its children keeps the walk free of repeats, inside the descendants and closed under children of listed rows |
| ConversationForest.ClosedWalkIsComplete | app/services/auxilio_service.py:713-721 | A list closed under children holds every descendant at every depth |
| ConversationForest.ConversationService.constructor | app/services/auxilio_service.py:34-35 | Starts with no conversations and no messages |
| ConversationForest.ConversationService.CreateConversationWithUserMessage | app/services/auxilio_service.py:555-566 | Adds one parentless conversation and its first user message, and nothing else |
| ConversationForest.ConversationService.ForkConversation | app/services/auxilio_service.py:622-671 | Fails exactly when the branch point is not a message of the source, leaving everything as it was; otherwise adds the branch row and renumbered copies of the cut transcript and returns their number |
| ConversationForest.ConversationService.SetArchived | app/services/auxilio_service.py:685-692 | Sets or clears the archive time of one row |
| ConversationForest.ConversationService.GroupByParent | app/services/auxilio_service.py:702-715 | For one owner, the group of each parent lists exactly that parent's children, each once |
| ConversationForest.ConversationService.Descendants | app/services/auxilio_service.py:716-721 | The queue walk ends and lists every strict descendant exactly once and nothing else, without a visited set |
| ConversationForest.ConversationService.DeleteConversation | app/services/auxilio_service.py:694-733 | Refuses exactly when it does not cascade and a live descendant exists; otherwise stamps exactly the targets not yet deleted and returns how many targets carry the stamp |
| ConversationForest.ConversationService.AnyLive | app/services/auxilio_service.py:722 | True exactly when some strict descendant is not deleted |
| ConversationForest.ConversationService.Stamp | app/services/auxilio_service.py:727-731 | Stamps exactly the listed rows that were not deleted; a row deleted earlier keeps all its times |
| ConversationForest.ConversationService.CountStamped | app/services/auxilio_service.py:733 | The number of distinct targets whose deletion time equals the given one |
| ConversationForest.CountIsNewlyDeletedIff | app/services/auxilio_service.py:726-733 | The returned count is the number of rows deleted by the call if and only if no target was already deleted at that very instant |
| ConversationForest.CarryingStampIs | app/services/auxilio_service.py:726-733 | The rows counted are those the call ranges over that carry the timestamp afterwards |
| ConversationRuns.ForkKeepsForest | app/services/auxilio_service.py:650-659 | A branch leaves a forest: its parent exists, is older and has the same owner, and its root link is right |
| ConversationRuns.ForkKeepsLiveParentsIff | app/services/auxilio_service.py:631-657 | After a fork live rows still have live parents if and only if the source was not deleted, which the method itself does not check |
| ConversationRuns.SnapshotIsExact | app/services/auxilio_service.py:638-645 | A message is in the snapshot if and only if it belongs to the source and is not after the branch point; `ConversationRuns.ForkCopiesExactly` says so of the branch itself |
| ConversationRuns.ForkCopiesTranscript | app/services/auxilio_service.py:660-671 | The branch's transcript is the source's cut transcript renumbered; every other conversation keeps its own |
| ConversationRuns.BranchPointIsLast | app/services/auxilio_service.py:639-649 | The branch point is the last message copied |
| ConversationRuns.ForkCopiesExactly | app/services/auxilio_service.py:638-671 | A fork appends one message per message of the source that is not after the branch point, in their order, with role, content, tool calls and time kept and new ids and owner; it changes no other message |
| ConversationRuns.ForkCopiesUpToBranchPoint | app/services/auxilio_service.py:638-645 | With a branch point of its own the copies are the source's transcript up to and including that message |
| ConversationRuns.KeptPositions | app/services/auxilio_service.py:638-645 | The kept messages are those at the positions of the source's messages not after the branch point, each once, in order |
| ConversationRuns.ForkedRow | app/services/auxilio_service.py:646-659 | The branch row: owner, parent, branch point, root of the source or the source itself, title marked as a branch and cut to 200 characters |
| ConversationRuns.CreatedRow | app/services/auxilio_service.py:555-566 | A new conversation's row and its first message, field by field |
| ConversationRuns.DeletedRow | app/services/auxilio_service.py:726-731 | A row is stamped exactly when it was not deleted and is the conversation or, with cascade, descends from it; nothing else changes |
| ConversationRuns.DescendsIff | app/services/auxilio_service.py:716-721 | Descent by parent links, as a recursion on one row |
| ConversationRuns.ArchivedRow | app/services/auxilio_service.py:685-692 | Only the archive and update times of one row change |
| ConversationRuns.ApplyIs | app/api/v1/auxilio.py:68-84 | Only the owner of a conversation that is not deleted branches, archives or deletes it; a branch point must be its own message; without cascade it is deleted only when nothing live descends from it |
| ConversationRuns.CreateKeepsSafe | app/services/auxilio_service.py:555-566 | Creating keeps the forest, the live-parent rule and the message order |
| ConversationRuns.ForkKeepsSafe | app/services/auxilio_service.py:622-671 | Forking a live source keeps them too |
| ConversationRuns.DeleteKeepsSafe | app/services/auxilio_service.py:722-733 | A permitted deletion never leaves a live row below a deleted one, cascading or not |
| ConversationRuns.RunKeepsSafe | app/api/v1/auxilio.py:68-84 | Every run of requests on the caller's own live conversations keeps all of this |
| ConversationRuns.EveryRunIsSafe | app/services/auxilio_service.py:650-733 | From the empty database, after any history: ancestors are older, same owner and live when the descendant is live; a root link names the top of the chain |
| ConversationRuns.DeletionIsFinal | app/services/auxilio_service.py:728-731 | Along any run no row disappears, is re-linked or changes owner, and a deletion time once set never changes |
| ConversationRuns.SameInstantIsCountedTwice | app/services/auxilio_service.py:726-733 | A run that creates, branches, deletes the branch and then the parent with cascade at the same instant: one row newly deleted, two counted |
| ConversationRuns.Handle | app/api/v1/auxilio.py:416-451 | One request served by the service moves the database exactly as the run model says |
| ViewCount.DedupKeyIdentifiesViewer | app/services/view_count.py:52-54 | Two identified viewers share a deduplication key only if post and viewer are the same |
| ViewCount.CountKeyIdentifiesPost | app/services/view_count.py:57-58 | Counter keys are injective in the post and never equal a deduplication key |
| ViewCount.StepConserves | app/services/view_count.py:68-114 | No atomic step of any worker creates or destroys an increment of any post |
| ViewCount.RunConserves | app/services/view_count.py:68-114 | Nor does any schedule from any orderly state |
| ViewCount.EveryViewIsAccountedFor | app/services/view_count.py:20-23 | Accepted views are exactly those committed, in Redis, carried by a worker or dropped; nothing is committed twice, and all of them once nothing is in flight or dropped |
| ViewCount.FailureLosesCapturedDeltas | app/services/view_count.py:98-113 | A failed flush puts nothing back: exactly the captured deltas of that worker are lost and the counters stay as they were |
| ViewCount.FailureLosesNothingIff | app/services/view_count.py:22 | A failing flush loses nothing, as the note says, if and only if it had captured nothing |
| ViewCount.CapturedThenLost | app/services/view_count.py:98-113 | A concrete schedule, one view and one flush whose commit fails, ends with the accepted view in no counter, row or worker |
| ViewCount.DroppedGrowsIff | app/services/view_count.py:97-113 | A step drops an increment of a post if and only if it is a failure holding it, a commit for a missing row holding it, the eviction of a positive fallback counter, or the stop of a process that carries it |
| ViewCount.SealKeepsTrackedIff | app/services/view_count.py:103 | Removing a batch keeps a post tracked if and only if it is not in the batch or somebody else tracks it or is about to |
| ViewCount.RestartKeepsTrackedIff | app/services/view_count.py:152-161 | A process that stops leaves its pending posts tracked only by the others |
| ViewCount.OtherStepKeepsTracked | app/services/view_count.py:68-114 | Every other step keeps a post with a positive shared counter tracked |
| ViewCount.StepKeepsSharedIff | app/services/view_count.py:97-103 | A step keeps all increments waiting in Redis tracked if and only if it is no seal or restart that lets go of one nobody else tracks |
| ViewCount.SealedOwnIff | app/services/view_count.py:103 | A seal keeps the increments waiting in the process's own memory tracked if and only if every batch post with one is about to be noted again |
| ViewCount.StepKeepsOwnIff | app/services/view_count.py:97-103 | No other step, of this or another process, lets go of one |
| ViewCount.StepKeepsCoveredIff | app/services/view_count.py:97-103 | A step keeps every waiting increment, in Redis or in process memory, tracked by someone who can collect it if and only if it strands none |
| ViewCount.AlwaysCoveredIff | app/services/view_count.py:97-103 | Along any schedule every waiting increment, in Redis or in process memory, is tracked at all times if and only if no seal and no restart strands one |
| ViewCount.StrandedIncrement | app/services/view_count.py:98-103 | A concrete schedule ends with a positive counter that is in nobody's pending set |
| ViewCount.StrandedInMemory | app/services/view_count.py:24-25 | A concrete schedule, one view counted in memory and flushed after Redis is back, leaves the counter positive and in nobody's pending set |
| ViewCount.OnePassPerHolder | app/services/view_count.py:70-82 | Along any schedule with any Redis failures, until a place forgets the key, a viewer passes exactly once per place, Redis or process memory, that comes to hold it |
| ViewCount.AtMostOnePass | app/services/view_count.py:70-82 | With Redis answering every visit, until its key expires, a viewer is counted at most once per post, and exactly once if the key became set, whatever processes forget or restart; `ViewCount.VisitApprovesIff` says which visits are counted |
| ViewCount.VisitApprovesIff | app/services/view_count.py:70-82 | A visit is counted exactly when the viewer is unidentified or the store that answers, Redis or process memory, has no positive entry for the key; the entry then grows by one, for a repeat too |
| ViewCount.WentOnIsAccepted | app/services/view_count.py:68-84 | Along any schedule the visits of a post that went on to be counted are those accepted since, plus those still to be counted, plus those of a process that stopped in between |
| ViewCount.StepCounts | app/services/view_count.py:68-84 | What one step does to the count of a post and to the requests still to be counted |
| ViewCount.FlushCanStartIff | app/services/view_count.py:87-98 | A flush may start in any idle process and takes each of its pending posts once, in any order |
| ViewCount.FaultsAre | app/services/view_count.py:20-25 | At any moment a key may expire, a fallback counter may be evicted and a process may stop, losing exactly its memory and what it carries |
| ViewCount.SecondPassWhenDegraded | app/services/view_count.py:24-25 | A concrete schedule counts the same viewer twice, once in Redis and once in process memory |
| ViewCounterProcess.ViewCounter.constructor | app/services/view_count.py:45-46 | A new process has nothing pending and no counters |
| ViewCounterProcess.ViewCounter.RecordView | app/services/view_count.py:61-84 | True exactly when the viewer is unidentified or has no positive entry for the post; then one increment and one pending post, otherwise only the deduplication counter moves |
| ViewCounterProcess.ViewTwice | app/services/view_count.py:73-81 | A second uninterrupted call of the same identified viewer returns false and leaves Redis counters, accepted views and pending posts as they were |
| ViewCounterProcess.RecordViewIsSchedule | app/services/view_count.py:61-84 | An uninterrupted call is the schedule of its atomic steps |
| ViewCounterProcess.ViewCounter.GetSetZero | app/services/view_count.py:99 | Returns the counter and leaves zero |
| ViewCounterProcess.ViewCounter.Collect | app/services/view_count.py:97-101 | Zeroes exactly the batch's counters and captures exactly their positive values, each once |
| ViewCounterProcess.ViewCounter.WriteBack | app/services/view_count.py:106-113 | Every existing row grows by its own delta, once |
| ViewCounterProcess.ViewCounter.FlushOnce | app/services/view_count.py:87-114 | The whole new state of a flush; raises exactly when the commit fails with something captured; returns the total captured |
| ViewCounterProcess.FlushIsSchedule | app/services/view_count.py:87-114 | An uninterrupted flush is the schedule of its atomic steps, so the theorems about schedules speak of it |
| ViewCounterProcess.FlushIs | app/services/view_count.py:87-114 | Post by post: a pending counter becomes zero; its value is added to the row when the commit succeeds and the row exists, and is dropped otherwise |
| ViewCounterProcess.FlushLeavesNothingPending | app/services/view_count.py:103 | After a flush nothing is pending; deduplication and accepted views are untouched |
| ViewCounterProcess.SuccessfulFlushMovesPending | app/services/view_count.py:87-114 | A successful flush moves exactly the pending posts' counters into their rows and drops nothing for existing rows |
| MemoryBlacklist.AddKeepsBound | app/core/security_blacklist.py:37-42 | The store never exceeds its limit (at least one) and its insertion order stays in step with its keys |
| MemoryBlacklist.PurgedIsLive | app/core/security_blacklist.py:56-59 | Purging leaves exactly the entries still live |
| MemoryBlacklist.AgreeLater | app/core/security_blacklist.py:44-52 | Agreement with the unbounded map at one moment lasts for all later moments |
| MemoryBlacklist.AddAgreesIff | app/core/security_blacklist.py:37-64 | An insertion agrees with the unbounded map if and only if the key is already stored or fewer than the limit are live |
| MemoryBlacklist.EvictionForgets | app/core/security_blacklist.py:60-64 | Otherwise the oldest live entry is forgotten |
| MemoryBlacklist.RoomyAddIs | app/core/security_blacklist.py:37-42 | With room, or for a key already stored, an insertion changes nothing but its own entry, which keeps its place |
| MemoryBlacklist.CrowdedAddIs | app/core/security_blacklist.py:60-64 | A full store of live entries loses exactly its oldest tenth, at least one, and keeps the rest in order |
| MemoryBlacklist.PurgingAddIs | app/core/security_blacklist.py:56-59 | A full store with expired entries keeps exactly the live ones |
| MemoryBlacklist.MemoryBlacklist.constructor | app/core/security_blacklist.py:33-35 | Starts empty |
| MemoryBlacklist.MemoryBlacklist.Add | app/core/security_blacklist.py:37-42 | The new contents in insertion order, including what eviction removes |
| MemoryBlacklist.MemoryBlacklist.Contains | app/core/security_blacklist.py:44-52 | True exactly for a stored entry before its expiry; forgets only that entry, and only if expired |
| MemoryBlacklist.MemoryBlacklist.EvictToMakeRoom | app/core/security_blacklist.py:54-64 | Removes all expired entries and, only if still full, the oldest tenth (at least one) |
| MemoryBlacklist.MemoryBlacklist.DeleteAll | app/core/security_blacklist.py:58-64 | Removes exactly the listed keys and keeps the order of the rest |
| TokenBlacklist.TokenBlacklist.constructor | app/core/security_blacklist.py:68-81 | Healthy exactly when Redis is configured, nothing revoked |
| TokenBlacklist.TokenBlacklist.Add | app/core/security_blacklist.py:87-106 | Health, cooldown and memory for every way the round trip can end: a failure starts a cooldown, a reply restores health, memory is always written for a positive lifetime |
| TokenBlacklist.TokenBlacklist.Contains | app/core/security_blacklist.py:108-125 | The answer and new state for every configuration, cooldown and reply |
| TokenBlacklist.TokenBlacklist.FallbackContains | app/core/security_blacklist.py:145-150 | "closed" revokes everything, "open" nothing, anything else asks memory |
| TokenBlacklist.TokenBlacklist.MarkHealthy | app/core/security_blacklist.py:129-132 | Healthy afterwards, retry time kept |
| TokenBlacklist.TokenBlacklist.MarkUnhealthy | app/core/security_blacklist.py:134-143 | Unhealthy, next attempt one interval from now |
| TokenSchedules.NextKeepsSound | app/core/security_blacklist.py:99-106 | One call of any kind, however Redis answers and however the call overlaps others, keeps memory in agreement with the ideal unbounded set while there is room |
| TokenSchedules.RevokedStaysRevoked | app/core/security_blacklist.py:87-125 | Unless fallback is "open": after any schedule of failures, cooldowns, recoveries and overlapping calls and whatever Redis answers, a token this process revoked is reported revoked until its latest lifetime ends, as long as there was room at each revocation |
| TokenSchedules.DictionariesAre | app/core/security_blacklist.py:87-106 | What the dictionaries of a schedule stand for: live in the ideal one exactly when this process's last revocation of the token has not run out, in Redis when the last write has not, in the record of all requests when any has not |
| TokenSchedules.OpenTrustsOnlyRedis | app/core/security_blacklist.py:119-125 | With fallback "open" a token is reported revoked if and only if Redis was tried and answered with a hit |
| TokenFallback.NoRedisIsDictionaryIff | app/core/security_blacklist.py:4 | Without Redis, after any schedule, the answers are those of the process's own revocations if and only if the fallback is neither "open" nor "closed", or is "open" and nothing is revoked |
| TokenFallback.NoRedisOpenAndClosed | app/core/security_blacklist.py:145-150 | One token revoked without Redis: not recognised with "open", and another token refused with "closed" |
| TokenSchedules.ReportedWasRevoked | app/core/security_blacklist.py:108-125 | Unless fallback is "closed": a token reported revoked is within a lifetime some process asked for |
| TokenSchedules.AgreesWithIdealSet | app/core/security_blacklist.py:6-10 | With fallback "memory": after any such schedule the answer is exactly that of an unbounded dictionary of this process's own revocations, or a hit from a Redis that was asked |
| TokenSchedules.AnsweredByRedisIff | app/core/security_blacklist.py:108-122 | For every fallback: a lookup that Redis answers is a hit there or, unless the fallback is "open", an own revocation that has not run out |
| TokenSchedules.UnansweredIff | app/core/security_blacklist.py:111-125 | A lookup that Redis does not answer is refused with "closed", let through with "open" and otherwise decided by own revocations |
| TokenSchedules.ClosedRefusesIff | app/core/security_blacklist.py:108-150 | With "closed" a token is refused exactly when Redis was skipped, failed or has it, or an own revocation has not run out |
| TokenSchedules.CooldownIsExact | app/core/security_blacklist.py:127-143 | After a failure Redis is left alone for exactly the retry interval; a reply ends that at once |
| TokenSchedules.AgreesWithEveryProcessIff | app/core/security_blacklist.py:5-6 | It is the answer for the revocations of all processes together if and only if the token is revoked nowhere, still revoked by this process itself, or held by a Redis that was asked |
| TokenSchedules.ElsewhereIsMissedWithoutRedis | app/core/security_blacklist.py:111-125 | A token only another process revoked is missed while Redis fails or is skipped, and found once it answers |
| StudyPlan.CandidatesAreCheapestFirst | app/services/auxilio_service.py:418-489 | The candidates' minutes never decrease along the list |
| StudyPlan.CandidatesAreDistinct | app/services/auxilio_service.py:435-489 | No two candidates share source type and key |
| StudyPlan.CandidatesAre | app/services/auxilio_service.py:418-489 | At most eight due mistakes of 15 minutes, then four weak tags of 25, then four resources of 30, in the order given, each with its goal |
| StudyPlan.GoalForExamIs | app/services/auxilio_service.py:420-434 | A mistake goes to the first goal of its exam, else to the first goal |
| StudyPlan.PackedIsPrefix | app/services/auxilio_service.py:490-501 | The skip-if-it-does-not-fit loop keeps exactly the longest affordable prefix |
| StudyPlan.FirstOnesAreCheapest | app/services/auxilio_service.py:490-501 | Any choice of m candidates, by position, costs at least as much as the first m |
| StudyPlan.PackedIsOptimal | app/services/auxilio_service.py:490-501 | No affordable subset of the candidates holds more items than the plan |
| StudyPlan.PlanWithinBudgetIff | app/services/auxilio_service.py:393-416 | Seven times planned plus focused minutes stays within the weekly budgets if and only if seven times the focused minutes alone does |
| StudyPlan.PlanIsMaximal | app/services/auxilio_service.py:414-416 | A plan that leaves candidates out stops only where the budget does: seven times the planned minutes, the next candidate and the focus together exceed the weekly budgets |
| StudyPlan.WeeklyBudgetIsSum | app/services/auxilio_service.py:393 | Every goal contributes its weekly minutes once |
| StudyPlan.FocusAloneCanExceed | app/services/auxilio_service.py:394-416 | Two minutes of focus on a weekly budget of seven exceed it with an empty plan |
| StudyPlan.RowsKeepSlotsUnique | app/services/auxilio_service.py:494-500 | Generated rows never collide with each other or with existing rows |
| StudyPlan.PlanService.constructor | app/services/auxilio_service.py:34-35 | Starts without plan items |
| StudyPlan.PlanService.GenerateLearningPlan | app/services/auxilio_service.py:383-503 | A day that has a plan is left alone; otherwise exactly the packed candidates are added, and user, day and source stay unique |
| StudyPlan.PlanService.Pack | app/services/auxilio_service.py:490-501 | The loop adds exactly what packing the whole list keeps, in order |
| StudyPlan.PlanService.UpdateLearningPlanItem | app/services/auxilio_service.py:505-553 | Succeeds exactly for an owned item whose deferral, if any, is unlocked, later and meets no item of the same source; which error otherwise; changes only that row; failures change nothing |
| StudyPlan.UpdateKeepsCompletionIff | app/services/auxilio_service.py:526-550 | An update keeps completion time and status in step if and only if it does not defer an item that is or becomes completed |
| StudyPlan.UpdatedItem | app/services/auxilio_service.py:526-552 | Each field of an updated item in terms of the request |
| StudyPlan.DeferredKeepsCompletionTime | app/services/auxilio_service.py:533-550 | A completed item that is deferred is planned again and still carries its completion time |
| Mastery.AddAttempt | app/services/auxilio_service.py:85-103 | One attempt is added to every tag once per mention and to no other tag |
| Mastery.Accumulate | app/services/auxilio_service.py:74-103 | Every tag's statistics are the fold of the attempts that mention it; a tag appears exactly when mentioned |
| Mastery.StatsAreSane | app/services/auxilio_service.py:85-98 | Counts and weighted sums are consistent: correct at most total, weights positive and at most the count |
| Mastery.OneMoreAttempt | app/services/auxilio_service.py:83-103 | One more attempt counts for a tag once per mention; a tag without attempts has nothing |
| Mastery.OccurrencesAre | app/services/auxilio_service.py:85-90 | A tag is mentioned as often as it occurs in the attempt's list |
| Mastery.ScoreInOpenUnit | app/services/auxilio_service.py:107-124 | Mastery is strictly between 0 and 1, confidence in (0,1] |
| Mastery.ScoreIs | app/services/auxilio_service.py:107-124 | The score: smoothed accuracy to six tenths, recent accuracy to four, scaled by the freshness of the attempts; confidence full from weight five |
| Mastery.ScoreExamples | app/services/auxilio_service.py:107-124 | One correct attempt just now scores 0.8, one wrong attempt a half-life ago 0.16 |
| Mastery.CorrectionRaisesScore | app/services/auxilio_service.py:92-123 | Turning any one wrong attempt into a correct one strictly raises the mastery of every tag it mentions |
| Mastery.AgeingCommutes | app/services/auxilio_service.py:86-97 | Scaling every attempt's weight by a factor scales exactly the weighted sums |
| Mastery.AgeingNeverRaises | app/services/auxilio_service.py:112-124 | When all weights shrink together, recency accuracy stays and mastery and confidence never rise |
| Mastery.PassingTimeNeverRaises | app/services/auxilio_service.py:85-124 | When all attempts of a history age together, every practised tag keeps its recency accuracy, and its mastery and confidence do not rise |
| RuleKeys.StampIdentifiesDay | app/services/agent_trigger_service.py:111 | Different days have different stamps |
| RuleKeys.StampReadsAsDate | app/services/agent_trigger_service.py:111 | The stamp is the civil date read as one number, year then month then day, from 1970-01-01 on |
| RuleKeys.MonthRuns | app/services/agent_trigger_service.py:111 | Days follow each other within a month |
| RuleKeys.MonthEnds | app/services/agent_trigger_service.py:111 | The day after the last of a month is the first of the next |
| RuleKeys.YearRuns | app/services/agent_trigger_service.py:111 | The first of January follows after 365 or 366 days by the Gregorian rule |
| RuleKeys.PrefixCountsOnlyItsRule | app/repositories/agent_automation_repo.py:63-69 | A key of one rule starts with another rule's prefix only if they are the same rule |
| RuleKeys.RuleKeyIdentifiesRuleAndDay | app/services/agent_trigger_service.py:111 | Equal keys mean equal rule and equal day |
| RuleKeys.QuietHoursAreAnArc | app/services/agent_automation_service.py:41-52 | Quiet hours are active exactly inside the circular arc from start to end, wrapping midnight, and never when both ends are equal |
| RuleKeys.ParseTimeIff | app/services/agent_automation_service.py:30-38 | Exactly the times 00:00 to 23:59 are read, as the minutes they show |
| RuleKeys.ClockShows | app/services/agent_automation_service.py:41-52 | Day and minute of the day are those of the UTC clock |
| RuleEngine.RuleEngine.constructor | app/services/agent_trigger_service.py:53-58 | Starts without rules over a given inbox |
| RuleEngine.RuleEngine.CountFiredSince | app/repositories/agent_automation_repo.py:55-72 | The number of inbox rows with the rule's prefix created at or after a time |
| RuleEngine.RuleEngine.Arbitrate | app/services/agent_automation_service.py:160-181 | Which gate holds a rule back, in the order switch, quiet hours, cooldown, hourly cap |
| RuleEngine.RuleEngine.EvaluateRule | app/services/agent_trigger_service.py:97-136 | The outcome and whole new state, including a firing whose mark fails after the suggestion was committed |
| RuleEngine.OutcomeIs | app/services/agent_trigger_service.py:97-136 | The outcome of an evaluation in terms of the rule's fields: switch, quiet arc, recorded firing and cooldown, rows of the last hour and cap, signal, day's key; each outcome exactly when the first reason is its own, a firing exactly when there is none |
| RuleEngine.EffectIs | app/services/agent_trigger_service.py:105-136 | A firing adds exactly one suggestion with its key, kind and expiry and, unless marking fails, the firing time; every other outcome changes nothing |
| RuleEngine.EventIs | app/services/agent_automation_service.py:114-151 | What each event of a run does to the state: evaluations, edits, switching, and other producers using the inbox |
| RuleEngine.CountIsRecentRows | app/repositories/agent_automation_repo.py:55-72 | The count is the number of positions whose row has the rule's prefix and is recent enough |
| RuleEngine.QuietIff | app/services/agent_automation_service.py:41-52 | Quiet hours hold exactly on the circular arc between two readable times |
| RuleEngine.FiresAgainAfterCooldown | app/services/agent_automation_service.py:55-60 | A concrete run: a marked rule fires, and fires again after its cooldown |
| RuleEngine.RuleEngine.CreateRule | app/services/agent_automation_service.py:71-100 | Succeeds exactly for a known trigger, the one supported action, valid times and cap; the rule starts disabled; a zero cooldown or cap becomes the default |
| RuleEngine.RuleEngine.UpdateRule | app/services/agent_automation_service.py:114-142 | Succeeds exactly for the owner and a valid patch; keeps a valid rule valid and its firing time and switch |
| RuleEngine.ValidRuleIff | app/services/agent_automation_service.py:71-100 | The rules that can be stored: known trigger, times of day or none, a cap from 1 to 60 |
| RuleEngine.PatchRefusedIff | app/services/agent_automation_service.py:114-142 | An edit of a valid rule is refused exactly when it would make it invalid |
| RuleEngine.PatchedFields | app/services/agent_automation_service.py:114-142 | Exactly the fields named by the edit change |
| RuleEngine.RuleEngine.SetEnabled | app/services/agent_automation_service.py:144-151 | Only the owner switches a rule, and only the switch changes |
| RuleEngine.RuleEngine.ScanEnabledRules | app/services/agent_trigger_service.py:60-95 | The four counters add up to the rules scanned; the state is that of evaluating them in turn; the inbox grows by the created ones plus the failed ones whose suggestion was already committed |
| RuleEngine.FiringKeepsCap | app/services/agent_automation_service.py:178-180 | A firing the arbiter let through keeps every one-hour window within the cap, wherever the window starts |
| RuleEngine.FiringKeepsSpacing | app/services/agent_automation_service.py:55-60 | A firing outside the cooldown comes at least the cooldown after every recorded firing |
| RuleEngine.FiringKeepsGood | app/services/agent_trigger_service.py:111-136 | A rule's own firing keeps all its guarantees |
| RuleEngine.RunKeepsGood | app/services/agent_trigger_service.py:97-136 | So does every run of events that does not edit this rule |
| RuleEngine.RunKeepsConsiderate | app/services/agent_trigger_service.py:99-111 | Along every run each of the rule's rows was allowed no later than it was created, on the day in its key, outside quiet hours |
| RuleEngine.EveryRunIsPolite | app/services/agent_automation_service.py:3-7 | From a fresh rule, over any run: suggestions after a recorded firing are at least the cooldown apart, every one-hour window holds at most the cap, one suggestion per day, each allowed outside quiet hours |
| RuleEngine.NoneAllowedInQuietArc | app/services/agent_automation_service.py:41-52 | Over any run no suggestion was allowed inside the circular quiet interval |
| RuleEngine.FiringStartsCooldownIff | app/services/agent_automation_service.py:183-188 | The whole cooldown follows a firing if and only if the firing was marked or there is no cooldown |
| RuleEngine.UnmarkedFiringIsNotSpaced | app/services/agent_trigger_service.py:128-129 | A concrete run in which a failed mark lets a rule fire twice inside its cooldown; with the mark it fires once |
| RuleEngine.QuietMeansSilent | app/services/agent_automation_service.py:171-175 | An evaluation inside the quiet arc changes nothing |
| RuleEngine.SecondEvaluationOfDayAddsNothing | app/services/agent_inbox_service.py:73-75 | After a firing, evaluating again on the same day adds nothing, whatever else holds |
| Inbox.AgentInbox.constructor | app/services/agent_inbox_service.py:40-43 | Starts empty |
| Inbox.AgentInbox.FindByIdempotencyKey | app/repositories/agent_inbox_repo.py:22-29 | Finds a row of that user and key exactly when one exists |
| Inbox.AgentInbox.CreateSuggestion | app/services/agent_inbox_service.py:47-98 | Rejects exactly unregistered kinds, sources and out-of-range confidence; creates exactly when the user has no row with that key; otherwise returns the existing row and changes nothing |
| Inbox.AgentInbox.PromoteDueSnoozes | app/repositories/agent_inbox_repo.py:60-87 | Every due snoozed row in scope becomes pending and no other row changes; returns how many did |
| Inbox.AgentInbox.ExpireStale | app/repositories/agent_inbox_repo.py:89-116 | Every stale pending row in scope expires and no other row changes; returns how many did |
| Inbox.AgentInbox.SweepAll | app/services/agent_inbox_service.py:112-115 | Promotion then expiry, row by row |
| Inbox.AgentInbox.UpdateStatus | app/services/agent_inbox_service.py:122-152 | Succeeds exactly for a known action on an owned pending row; which error otherwise; changes only that row and refreshes its update time |
| Inbox.ActedRow | app/services/agent_inbox_service.py:128-151 | Accepting, dismissing and snoozing as changes of the row; a snooze lasts an hour by default and at most a week |
| Inbox.SweptRow | app/repositories/agent_inbox_repo.py:60-116 | What a sweep does to one row in terms of its status and times |
| Inbox.CreatedRow | app/services/agent_inbox_service.py:60-98 | A new suggestion is pending with its expiry; invalid or repeated requests add nothing |
| Inbox.ChangesIs | app/repositories/agent_inbox_repo.py:60-116 | The number a bulk update reports is that of the positions whose rows differ |
| Inbox.ApplyKeeps | app/services/agent_inbox_service.py:141-151 | Every request keeps the snooze and resolution times in step with the status and (user, key) unique, and leaves terminal rows alone |
| Inbox.RunKeeps | app/services/agent_inbox_service.py:141-151 | So does every run: accepted, dismissed and expired never change again, and no row changes owner, key or creation time |
| Inbox.EveryInboxIsLawful | app/services/agent_inbox_service.py:47-152 | In every inbox that can arise a row has a snooze time exactly while snoozed, a resolution time exactly when accepted or dismissed, and no user has two rows with one key |
| Inbox.Handle | app/services/agent_inbox_service.py:47-152 | One request served by the inbox moves the rows exactly as the run model says |
| Inbox.SweepLeavesNothingOverdue | app/services/agent_inbox_service.py:111-115 | After a sweep nothing in scope is due for waking or stale, including rows woken by that sweep |
| Inbox.EachUserRow | app/repositories/agent_inbox_repo.py:60-73 | Sweeping listed users one after another, in any order and with repeats, sweeps exactly their rows |
| Inbox.GlobalEqualsPerUserIff | app/services/agent_cron.py:32-37 | The global sweep equals the per-user sweeps if and only if every user with an overdue row is listed |
| CallAssembly.OrderListsPresentIndices | app/services/llm_client.py:128-137 | An index is listed exactly when some fragment names it, and once |
| CallAssembly.OrderIsByFirstAppearance | app/services/llm_client.py:128-154 | Calls are listed in the order in which their first fragments arrive |
| CallAssembly.InterleavingIsIrrelevant | app/services/llm_client.py:128-156 | Streams with the same fragments per index assemble the same number of calls and the same id, name and arguments for each index, however interleaved |
| CallAssembly.CallsHaveIds | app/services/llm_client.py:133 | Every assembled call has a non-empty id |
| CallAssembly.AssembledIs | app/services/llm_client.py:128-142 | A call has the id of the first fragment of its index or one made of the index, and the names and arguments of all of them |
| CallAssembly.FragmentsJoin | app/services/llm_client.py:128-142 | Each index has its own fragments in the order of arrival, however the stream is cut |
| CallAssembly.TextsJoin | app/services/llm_client.py:138-142 | Names and arguments are put together piece by piece in the order of arrival |
| CallAssembly.PieceIs | app/services/llm_client.py:128-142 | A single fragment is found under its own index only and gives its own texts |
| CallAssembly.TextIsReported | app/services/llm_client.py:125-127 | The text of the chunks read reaches the listener complete and in order |
| CallAssembly.UsageReportedIff | app/services/llm_client.py:111-144 | A usage is reported if and only if a chunk carries it and no earlier chunk has a finish reason, however the stream ends |
| CallAssembly.NothingAfterFinishIsRead | app/services/llm_client.py:143-144 | Nothing after the chunk with a finish reason has any effect, be it a usage chunk or a failing connection |
| CallAssembly.UsageTailIsLost | app/services/llm_client.py:111-144 | A concrete reply whose usage chunk follows the finish reason: the usage is not reported; in front of it it is |
| CallAssembly.BrokenStreamAsksForNothing | app/services/llm_client.py:145-160 | A connection failing before the finish reason ends in one failure event, with no tool calls and no done; any other stream ends in exactly one done |
| CallAssembly.AddFragment | app/services/llm_client.py:128-142 | One fragment updates the pending calls so that they hold exactly the fragments so far |
| CallAssembly.AddFragments | app/services/llm_client.py:128-142 | So do all fragments of a chunk |
| CallAssembly.ReadChunk | app/services/llm_client.py:111-142 | The events of a chunk, and fragments taken only from a chunk with a choice |
| CallAssembly.ListCalls | app/services/llm_client.py:148-155 | Lists exactly the assembled calls in order of first appearance |
| CallAssembly.Conclude | app/services/llm_client.py:145-157 | The calls if there are any, then done |
| CallAssembly.StreamOpenAI | app/services/llm_client.py:92-160 | The whole event stream of an accepted request: text and usage as they come, then the calls if there are any and done, or the failure of the connection |
| Transcripts.AssistantBlocks | app/services/llm_client.py:172-190 | The blocks are the text, unless missing or empty, then one tool use per call with its id, name and parsed arguments, unparsable ones becoming empty; they read as the message |
| Transcripts.TranslateMessage | app/services/llm_client.py:170-206 | One message in the other format, or nothing for an unknown role |
| Transcripts.SameTurn | app/services/llm_client.py:170-206 | A message and its rendering are the same turn |
| Transcripts.ToAnthropicMessages | app/services/llm_client.py:163-206 | Translation keeps the conversation: the same turns, tool uses and results with the same ids in the same order; each message of a known role stands, rendered, at its own place |
| Transcripts.TraceAppend | app/services/llm_client.py:169-206 | The conversation of two transcripts joined is the two joined |
| Transcripts.PairedAppend | app/services/llm_client.py:166-167 | Two transcripts in which every use is answered in order make one when joined |
| ToolLoop.IdsAgreeIff | app/services/auxilio_agent.py:671-685 | The id asked with and the id answered with agree if and only if the call has its own id or is not a repeat of an earlier equal call |
| ToolLoop.IdsAre | app/services/auxilio_agent.py:671-685 | A call keeps its id; one without is asked under its own position and answered under that of the first equal call |
| ToolLoop.RequestIs | app/services/auxilio_agent.py:665-680 | The request repeats the calls, missing arguments as an empty object, no text as none |
| ToolLoop.CallIsAnswered | app/services/auxilio_agent.py:682-705 | Call by call: announced, run, reported with the first 200 characters of its own result or rendered exception, and answered with that result wrapped |
| ToolLoop.HeardIs | app/services/auxilio_agent.py:643-656 | What is heard is everything before the first event that says the stream is finished |
| ToolLoop.TextsJoin | app/services/auxilio_agent.py:645-647 | Texts are passed on and collected in the order of arrival |
| ToolLoop.TextIs | app/services/auxilio_agent.py:645-647 | A text event is passed on as it is, any other is not |
| ToolLoop.LastOneCounts | app/services/auxilio_agent.py:648-651 | The last list of calls and the last failure are the ones that count |
| ToolLoop.Listen | app/services/auxilio_agent.py:636-656 | What is heard up to "done": the text, the last list of calls, the last error, and the events passed on |
| ToolLoop.RunTools | app/services/auxilio_agent.py:682-705 | One call and one result event and one tool message per call, in order, also when a tool raises |
| ToolLoop.RunRounds | app/services/auxilio_agent.py:635-714 | Events, transcript and number of model calls of the whole loop |
| ToolLoop.RunChat | app/services/auxilio_agent.py:583-714 | The same for a whole chat, with the empty history, missing configuration and spent budget handled first |
| ToolLoop.ChatIs | app/services/auxilio_agent.py:635-714 | A chat in closed form, given the round at which it stops: transcript, number of model calls, and the events of all rounds followed by the failure, or by the title after a closing sentence when three rounds of tools ended without a word |
| ToolLoop.EarlyExits | app/services/auxilio_agent.py:593-633 | Chats that never reach the model: empty history, missing configuration, spent budget |
| ToolLoop.TitleIs | app/services/auxilio_agent.py:717-720 | The title is the first user message, stripped and on one line, cut after thirty characters; without text it is the default |
| ToolLoop.StripIs | app/services/auxilio_agent.py:708-720 | Stripping removes the blanks at both ends and no others |
| ToolLoop.UntitledWithoutUser | app/services/auxilio_agent.py:717-720 | A chat without a user message has the default title |
| ToolLoop.RoundsEndOnce | app/services/auxilio_agent.py:635-714 | From any round on: one final event, at most the remaining rounds as model calls, and an error exactly when a reached round fails |
| ToolLoop.EveryChatEndsOnce | app/services/auxilio_agent.py:593-714 | Every chat has exactly one done or error, as its last event, and at most three model calls; with history, a model and budget left it is an error if and only if a reached round failed with a non-empty message |
| ToolLoop.RoundIsPairedIff | app/services/auxilio_agent.py:665-705 | A round's block answers every use in order with the same id if and only if its calls can be told apart |
| ToolLoop.AssembledRoundIsPaired | app/services/llm_client.py:145-156 | Calls assembled by the streaming reader always can, so its rounds are always paired |
| ToolLoop.TranscriptIsBlocks | app/services/auxilio_agent.py:681-705 | What the loop adds is one block per round that asked for tools, each an assistant message followed by one tool message per call |
| ToolLoop.BlocksArePaired | app/services/auxilio_agent.py:665-705 | All blocks together are paired when their calls can be told apart |
| ToolLoop.EveryChatIsPaired | app/services/auxilio_agent.py:604-705 | For a history of plain messages, the final transcript is the history followed by blocks and every use in it is answered in order |
| ToolLoop.StreamedRoundIsHeard | app/services/auxilio_agent.py:640-656 | From a round streamed by the reader the loop takes the failure of a connection cut short, and otherwise exactly the assembled calls |
| ToolLoop.EveryStreamedChatIsPaired | app/services/auxilio_agent.py:604-705 | Over streamed rounds every chat is paired, whatever arrives on the wire and however connections end |
| ToolLoop.CutShortIsErrorIff | app/services/auxilio_agent.py:653-660 | A first round cut short ends the chat; the client sees an error if and only if the transport's message is not empty, and otherwise a done |
| PointsLedger.BalanceIsSum | app/repositories/tools_repo.py:420-428 | The recorded balance is the sum of the user's amounts and never negative |
| PointsLedger.SumAppend | app/services/points_service.py:49-102 | A user's sum counts every row of the user once and no other |
| PointsLedger.WrittenRow | app/services/points_service.py:49-102 | The rows that earning and spending write, and when none is written |
| PointsLedger.AppendKeepsConsistent | app/services/points_service.py:62-70 | A row written with the running balance keeps the ledger consistent for every user |
| PointsLedger.PeakIsRunningMaximum | app/repositories/tools_repo.py:465-481 | The leaderboard value is a balance the user once had and no balance ever exceeded it |
| PointsLedger.LeaderboardShowsBalanceIff | app/repositories/tools_repo.py:465-481 | It is at least the balance, and equals it if and only if the balance was never higher |
| PointsLedger.LeaderboardKeepsSpentPoints | app/repositories/tools_repo.py:465-481 | Earning ten and spending four: the balance is six, the leaderboard shows ten |
| PointsLedger.PointsLedger.constructor | app/services/points_service.py:42-44 | Starts with no rows |
| PointsLedger.PointsLedger.LastBalance | app/repositories/tools_repo.py:420-428 | The balance on the user's newest row by time then id, zero without rows |
| PointsLedger.PointsLedger.AddPoints | app/services/points_service.py:49-72 | Fails exactly for a non-positive amount; otherwise one row whose balance is the old sum plus the amount |
| PointsLedger.PointsLedger.DeductPoints | app/services/points_service.py:74-102 | Which error when; otherwise one row whose balance is the old sum minus the amount |
| PointsLedger.PointsLedger.Peaks | app/repositories/tools_repo.py:467-474 | The grouped maximum for exactly the users with rows |
| TaskBoard.ApplyAwards | app/services/task_service.py:215-224 | Only the approval of an open claim pays for a task, and once |
| TaskBoard.ReviewDecides | app/services/task_service.py:204-228 | Before a review the user has no approved claim there; after it one exactly if it approved |
| TaskBoard.ClaimIs | app/services/task_service.py:90-112 | A claim is added exactly for an open task without a claim of that user and with a free place; otherwise nothing changes |
| TaskBoard.CancelIs | app/services/task_service.py:114-127 | Only the claimant withdraws a claim, and only while it is claimed |
| TaskBoard.CancelTaskIs | app/services/task_service.py:129-143 | The same, addressed by task |
| TaskBoard.SubmitIs | app/services/task_service.py:179-199 | Only the claimant submits, once; an empty link leaves the old one |
| TaskBoard.ReviewIs | app/services/task_service.py:201-230 | A review decides an open claim; an approval writes one row with the task's points and is refused when there is nothing to pay |
| TaskBoard.EditsAre | app/services/task_service.py:56-86 | Tasks are added under unused ids, replaced when they exist and deleted when no claim refers to them; nothing else changes |
| TaskBoard.PointsRequestsAre | app/services/points_service.py:49-102 | Points given or taken outside of reviews are rows of their own, never under the source "task" |
| TaskBoard.ApprovalPaysPoints | app/services/task_service.py:215-224 | The claimant's sum grows by exactly the points of the approved task and nobody else's changes |
| TaskBoard.ApplyKeepsKeyed | app/services/task_service.py:98-110 | One claim per user and task, under every request |
| TaskBoard.ApplyKeepsPaid | app/services/task_service.py:201-230 | Every request keeps payments equal to standing approved claims |
| TaskBoard.ApplyKeepsConsistent | app/services/points_service.py:62-101 | Every request keeps every recorded balance the running sum, not negative |
| TaskBoard.ApplyKeepsCaps | app/services/task_service.py:103-110 | Every request keeps active claims within the highest limit the task ever had |
| TaskBoard.RunKeepsSound | app/services/task_service.py:90-230 | Every run keeps all of these |
| TaskBoard.EveryRunIsFair | app/services/task_service.py:90-230 | After any history: paid at most once and exactly when an approved claim stands, claims within the highest limit, balance the running sum and not above the leaderboard value |
| TaskBoard.ActiveWithinUnloweredLimit | app/services/task_service.py:103-107 | A task whose limit was never lowered never has more active claims than its limit |
| TaskBoard.LimitKeptIff | app/services/task_service.py:63-67 | A request keeps active claims within the limit in force if and only if it does not lower that limit below them |
| TaskBoard.LoweredLimitIsExceeded | app/services/task_service.py:63-67 | A concrete run that lowers the limit under a standing claim |
| TaskService.TaskService.constructor | app/services/task_service.py:24-26 | Starts with no tasks, claims or points |
| TaskService.TaskService.GetClaim | app/repositories/tools_repo.py:372-377 | Finds the user's claim on a task exactly when there is one, in any status |
| TaskService.TaskService.CountActiveClaims | app/repositories/tools_repo.py:338-350 | The number of claims on a task that are claimed or submitted |
| TaskService.TaskService.CountActiveClaimsByIds | app/repositories/tools_repo.py:352-370 | The batched count agrees with the single one for every asked task, and omits exactly those with none |
| TaskService.TaskService.CreateTask | app/services/task_service.py:56-61 | Adds one task under an unused id |
| TaskService.TaskService.UpdateTask | app/services/task_service.py:63-79 | Replaces the settings of an existing task, including publishing and closing |
| TaskService.TaskService.DeleteTask | app/services/task_service.py:81-86 | Deletes exactly an existing task without claims |
| TaskService.TaskService.ClaimTask | app/services/task_service.py:90-112 | Succeeds exactly for an open task not yet claimed by the user with a place left; which error otherwise |
| TaskService.TaskService.CancelClaim | app/services/task_service.py:114-127 | Removes exactly an own claim that is still only claimed |
| TaskService.TaskService.CancelTaskClaim | app/services/task_service.py:129-143 | The same, addressed by task |
| TaskService.TaskService.SubmitClaim | app/services/task_service.py:179-199 | Submits exactly an own claim that is still only claimed; an empty link leaves the old one |
| TaskService.TaskService.ReviewClaim | app/services/task_service.py:201-230 | Decides exactly an open claim; an approval that cannot be paid changes nothing |
| UsageBuffer.UsageLog.constructor | app/middleware/api_usage.py:42 | Starts with an empty buffer |
| UsageBuffer.UsageLog.Append | app/middleware/api_usage.py:80 | Appends and, when full, overflows exactly the oldest record |
| UsageBuffer.UsageLog.TakeBatch | app/middleware/api_usage.py:98-100 | Pops the oldest records, in order, up to the batch size |
| UsageBuffer.UsageLog.Write | app/middleware/api_usage.py:102-124 | The batch is persisted as one, or lost as one with the result zero |
| UsageBuffer.UsageLog.FlushOnce | app/middleware/api_usage.py:93-124 | The whole new state and the returned count |
| UsageBuffer.UsageLog.Drain | app/middleware/api_usage.py:166-169 | The shutdown loop ends, in the state of flushing until empty or until a flush returns zero |
| UsageBuffer.SelectSettled | app/middleware/api_usage.py:107-123 | Settling a batch moves exactly its records, in order, to persisted or lost |
| UsageBuffer.RunKeepsGood | app/middleware/api_usage.py:93-124 | Every interleaving of records and flushes keeps the bookkeeping |
| UsageBuffer.RecordIs | app/middleware/api_usage.py:80 | A record goes behind the others; a full buffer loses its oldest, one without capacity the new one |
| UsageBuffer.BeginIs | app/middleware/api_usage.py:93-100 | A flush takes the oldest records, as many as the batch size allows |
| UsageBuffer.EndIs | app/middleware/api_usage.py:102-124 | A write persists the whole batch behind what is there or loses it |
| UsageBuffer.EveryRecordIsAccountedFor | app/middleware/api_usage.py:42-124 | The buffer is a bounded suffix of the history; every earlier record has exactly one fate; the persisted ones are the batches in order, each within the batch size |
| UsageBuffer.SuccessfulDrainPersistsAll | app/middleware/api_usage.py:166-169 | If writes succeed, the drain persists the whole buffer in order and leaves it empty |
| UsageBuffer.FailedWriteStopsDrain | app/middleware/api_usage.py:166-169 | A failing first write loses one batch, stops the drain and leaves the rest in the buffer |
| Totp.BitsReadBack | app/core/totp.py:26-36 | A number of k bits is read back from its k bits |
| Totp.PackUnpack | app/core/totp.py:26-36 | Regrouping bits into numbers undoes writing numbers as bits |
| Totp.UnpackPack | app/core/totp.py:26-36 | And the other way round, for a whole number of groups |
| Totp.PaddingIsRecovered | app/core/totp.py:33-36 | The recomputed padding is exactly what was stripped, is legal, and yields the original length |
| Totp.RoundTrip | app/core/totp.py:26-36 | Decoding an encoded byte string gives it back, also after lower-casing the text |
| Totp.AlphabetIs | app/core/totp.py:23 | The characters are those of the alphabet by position, and no others are read |
| Totp.EncodeIsBaseThirtyTwo | app/core/totp.py:26-28 | The encoding spells the data as one number to base 32, shifted to whole digits, with as few digits as hold it |
| Totp.DecodableIff | app/core/totp.py:31-36 | Text is decoded exactly when it has only letters of the alphabet in either case, beside padding, and no last group that is too short |
| Totp.DecodeIsLeadingBytes | app/core/totp.py:31-36 | Decoding gives the leading whole bytes of the text read as a number to base 32; bits beyond them are dropped |
| Totp.CaseAndPadsAreIgnored | app/core/totp.py:32-36 | Padding anywhere and lower case make no difference to what is decoded |
| Totp.TruncationIsThirtyOneBits | app/core/totp.py:62-68 | Truncation stays inside the 20-byte digest and is the four bytes at the offset, modulo 2^31 |
| Totp.PaddedIsSixDigits | app/core/totp.py:69 | Codes are six digits with leading zeros and read back as the number |
| Totp.CounterBytesAre | app/core/totp.py:60 | The counter is hashed as its eight big-endian bytes |
| Totp.HotpIs | app/core/totp.py:58-69 | A code shows, in six digits, the 31 bits found in the digest at the offset its last four bits name, modulo a million |
| Totp.StepShiftsCounter | app/core/totp.py:74-93 | Moving the time by whole periods moves the counter by as many steps, also for negative times |
| Totp.ScanWindow | app/core/totp.py:92-96 | The loop over the window: the first offset whose code equals the given one, or cannot be made, decides |
| Totp.VerdictIs | app/core/totp.py:92-96 | That loop accepts exactly when some counter of the window has the code, and raises when it meets a counter out of range first |
| Totp.VerifyCode | app/core/totp.py:78-96 | Accepts a six-digit code if and only if it is the code of one of the 2w+1 counters around now; wrong shape is refused first; a bad secret raises, as does a counter out of range that is reached before the code is found |
| BodyLimit.Guard.constructor | app/middleware/body_limit.py:36-38 | Nothing read, nothing sent |
| BodyLimit.Guard.CountingReceive | app/middleware/body_limit.py:60-69 | Counts what arrives; hands over the message, or an empty last chunk once over the limit |
| BodyLimit.Guard.GuardedSend | app/middleware/body_limit.py:73-76 | Raises exactly for a response start after the limit was exceeded; otherwise passes the message on |
| BodyLimit.Guard.Reject | app/middleware/body_limit.py:83-93 | Sends exactly one 413 response |
| BodyLimit.Guard.Call | app/middleware/body_limit.py:45-81 | A whole request for any behaviour of the application, with the early rejection by declared length |
| BodyLimit.PassedIsBoundedPrefix | app/middleware/body_limit.py:60-69 | For any chunking, what is passed on is a prefix of the body of at most the limit, and unchanged when the body fits |
| BodyLimit.ApplicationReadsBoundedPrefix | app/middleware/body_limit.py:57-79 | The same of a whole request, whatever the application does in between; it is flagged exactly when what was read of its body exceeds the limit |
| BodyLimit.DeliveredAt | app/middleware/body_limit.py:60-69 | What a whole request hands over, message by message: the message read, or an empty chunk that ends the body once the limit is exceeded |
| BodyLimit.OnlyRejectionAfterLimit | app/middleware/body_limit.py:73-81 | Once the limit is exceeded no response start of the application reaches the client, only the 413, sent exactly when the application lets the signal through; its other messages pass |
| BodyLimit.FittingRequestIsUndisturbed | app/middleware/body_limit.py:57-79 | A request whose body fits is as if there were no limiter: the application gets every message it asks for and the client every message it sends |
| BodyLimit.OversizedDeclarationIsRejected | app/middleware/body_limit.py:45-52 | A declared length over the limit is answered with 413 and nothing is read |
| Redaction.OutputsAgreeIff | app/services/exception_service.py:32-45 | Two values have equal outputs if and only if they differ only below sensitive keys |
| Redaction.OutputIsMasked | app/services/exception_service.py:32-45 | In the output every sensitive key at any depth holds the mask; keys and lengths are kept |
| Redaction.UnchangedIffMasked | app/services/exception_service.py:32-45 | A value is left as it is if and only if it is already masked |
| Redaction.MaskTwice | app/services/exception_service.py:32-45 | Masking twice is masking once |
| Redaction.SensitiveIff | app/services/exception_service.py:18-29 | A key is sensitive exactly when one of the seven fragments stands somewhere in it, in any case |
| Redaction.VariantsAreSensitive | app/services/exception_service.py:16-29 | `Access_Token` is sensitive and `name` is not |

## Left out

- Routes, schemas, logging, metrics, migrations, network clients and HTML scraping: plumbing without a hard invariant. `llm_client._stream_anthropic`, preset selection, prompts and the budget query are parameters or not part of this model.
- Real cryptography: HMAC-SHA1 is any function that returns 20 bytes. Secret generation, the otpauth link and backup codes are not part of this model.
- Login, refresh tokens, caching, rate limits, events, community, exams, announcements, notifications, level lookup, email masking: not modelled or only easy members.
- Concurrency of task claims, points, inbox and plan requests: modelled one request at a time; the code takes no row lock, so two claims racing for the last place are not ruled out here.
- View counting: a Redis increment that takes effect and then reports failure, so that it is counted in process memory as well; here each increment is counted in one place. (For the blacklist such writes are covered.)
- The clock of one blacklist call: one reading once the round trip is over; the cooldown test before it may have gone either way.
- ViewCounterProcess.ViewCounter.RecordView: does not model the degraded call, because the class is one process with Redis answering, as are Collect and FlushOnce; degraded calls are steps of the schedules in `ViewCount`. A post deleted while its counter waits is the case of a row missing at commit.
- Plan items: titles, reasons, metadata, list order and unknown status words (the type has only the four); goals, due mistakes, weak tags and resources arrive as lists.
- `0.5 ** (age / 30)` is any weight in (0,1]; attempts without a submission time, which the schema does not admit, or from the future do not occur; rounding, last attempt times, labels and the order of weak tags are not part of this model.
- Rule conditions, names and payloads, signal queries and rule deletion: a signal is a number that arrives with the evaluation.
- Calendar: dates from 1970-01-01 on, without Python's end at year 9999; times are ASCII `HH:MM`; the trailing newline and non-ASCII digits that Python's pattern admits are not modelled.
- Text functions (`upper`, `lower`, `strip`, `isdigit`) act on ASCII; keys of redacted dictionaries are strings; tuples are leaves, as in the code.
- Wording: the summary, the budget notice, the closing sentence and the wrapper around tool results are parameters.
- Exceptions that escape `run_chat` (an upstream status of 400 or more, `app/services/llm_client.py:97-99`): the chat then has no final event; only runs that end normally are modelled.
- Task points: `AddPoints` and `DeductPoints` requests with the source "task" are ignored, since only a review makes such rows; leaderboard order and length are left out.
- Requests the body limiter passes through untouched (other protocols and methods without a body), and the text of the 413 answer.
- Renaming conversations and appending messages to them: they touch neither links nor deletion.
- RuleEngine.EveryRunIsPolite: spacing is stated after firings whose mark was recorded, because a firing whose mark failed leaves no cooldown (`RuleEngine.UnmarkedFiringIsNotSpaced`); the cap, the daily limit and the quiet hours hold for every firing.
- Update times of plan items and rules, which the columns refresh on every write.
