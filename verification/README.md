# Verified model of the AI side-quest server

A Dafny model of the parts of the repository where several operations, processes
or deliveries meet: the AI-session protocol, quest attempts and the point ledger,
the Discover feed and its shared cache, and a few small algorithms with bounds.

`dafny verify dfyconfig.toml` checks the whole project.

## How it is organised

Sessions (`server/src/sessions`):

- `SessionRows` has the row of a session, every way it is written, and its life
  cycle; `SessionSteps` the transactions as functions from one database state to
  the next; `SessionInvariants` what each of them keeps; `SessionRuns` what
  therefore holds in every reachable state. `SessionEffects` says what a
  delivered event does to the tables, with every reason, limit and column
  written out.
- `Redelivery` shows that at-least-once delivery is as good as exactly-once,
  `Reordering` that a turn's events may overtake its start, and `TurnOutcome`
  says in plain terms what a turn comes to. `SessionPromises` states what turn
  starts, manual sessions and the recovery job promise.
- `SessionService` is the service and its recovery job in imperative form, proved
  equal to the transactions. `SessionHistory` is the history endpoint with the
  client that pages through it.

Quests (`server/src/quests`, `server/src/points`): `QuestSteps`,
`QuestInvariants`, `QuestRuns` and `QuestService` follow the same plan;
`QuestExpiry` is about the ways an attempt expires, `QuestSettled` about what
never changes again, `QuestEffects` about what looking at an attempt and
submitting it do, `QuestPromises` about starting, answering and the background
job, `QuestQuestions` about grouping rows into questions. In `QuestRuns` the
sessions underneath move freely along their life cycle, which is right for what
holds in all runs; `JointRuns` lets both services take their own steps on one
database, which is right for what does occur. `SessionTiming` says how far back a
session's end can be dated, and `QuestTiming` what that means for an attempt.

Discover (`server/src/discover`): `DiscoverRanking`, `DiscoverPaging` and
`DiscoverNormalization` are the feed, `DiscoverCache` the refresh protocol of
many processes and `DiscoverAnswers` what each of its steps does, `WorkerPool`
and `FeedCandidates` the Hacker News adapter, `HttpClient` the bounded reader and
the retry loop, `RequestGate` the Stack Exchange gate.

`RateLimit` is the rate limiter and `Statistics` the clipped durations.
`Wrappers`, `Ordering` and `Sums` are shared helpers.

## Conventions

- A transaction is one atomic step; a refused request rolls back and returns the
  state it was given. Random ids are parameters that are new when drawn, and
  clocks are parameters too: the session and quest invariants hold for clocks
  that disagree or go back.
- A uuid is its 128-bit value, the order the database compares by. A hash stands
  for what it hashes and an encoded cursor (base64url, section 5 of RFC 4648)
  for its content: both are injective. The place of a string in the collation
  order is an integer, another one for every string.
- Times are milliseconds where the server uses a `Date`, and microseconds where
  the database clock decides (quest clocks, rate limits, statistics, stored
  session starts in the history).
- The quest statuses COMPLETED and FAILED are called `Passed` and `NotPassed`.
- A bulk statement that a check constraint rejects is an error of its own,
  `CheckViolation`.

## Results that differ from what one might expect

- The background job compares the deadline with the untruncated database clock,
  the other two expiry paths with milliseconds, so for less than a millisecond
  the job alone sees an attempt as due (`QuestExpiry.PathsAgree`).
- A session that times out late gets an end in the past. If that puts an
  attempt's deadline before its start, the schema forbids the expired row: the
  attempt can neither expire nor be submitted, its quest cannot be started
  again, and one such row stops the background job for everyone
  (`QuestExpiry.JobIsAllOrNothing`, `TouchFails`, `StuckForever`). Whether it can
  still happen is decided by the session's state (`QuestTiming.StuckIffUntimely`),
  and it does happen (`QuestTiming.StuckIsReachable`).
- A refresh answers FRESH without looking at the age again after its transaction
  has ended, so a slow one can call items fresh that are not
  (`DiscoverCache.FreshWhenAnswered`, `FreshCanBeOld`).
- The worker pool returns no results for a concurrency below one
  (`WorkerPool.SettledIsComplete`); the adapter uses a positive constant.
- A response with an invalid quota is refused after its backoff has been noted
  (`RequestGate.BackoffIsRespected`).
- A session that begins and ends exactly on the boundary of two ranges is counted
  in neither of them, but in a range that contains both
  (`Statistics.SplitCounts`).

## Model

| member | source | states |
|---|---|---|
| `SessionRows.WritesKeepRow` | server/src/sessions/session.service.ts:214-237 | every UPDATE of a session row (manual end, supersession, event, late Stop, adoption, both timeouts) keeps the row constraints and the life cycle and raises the version by exactly one, for any clock |
| `SessionRows.EvolvesTransitive` | server/src/sessions/session.service.ts:740-831 | the life-cycle relation between two versions of a row composes, so it holds over any number of writes |
| `SessionInvariants.ApplyingKeeps` | server/src/sessions/session.service.ts:729-832 | applying one event to a session keeps every session constraint and unique index and follows the life cycle |
| `SessionInvariants.ApplyingDelta` | server/src/sessions/session.service.ts:740-789 | an APPLIED event is one UPDATE that raises the version by one and ends the session by Stop exactly if it is a Stop; any other result leaves the row as it was |
| `SessionInvariants.TurnStartOpens` | server/src/sessions/session.service.ts:616-727 | after a turn start the session table is in order and holds the session of that user and turn |
| `SessionInvariants.ReplayKeepsCore` | server/src/sessions/session.service.ts:834-909 | replaying any list of deferred events, in any number, keeps the session constraints, the event constraints and the audit, and leaves none of them deferred |
| `SessionInvariants.ProcessEventKeeps` | server/src/sessions/session.service.ts:316-564 | every delivery, accepted or refused, keeps all invariants of both tables and moves sessions only along their life cycle |
| `SessionInvariants.StartManualKeeps` | server/src/sessions/session.service.ts:112-174 | starting a manual session keeps all invariants, in particular at most one active manual session per user |
| `SessionInvariants.EndSessionKeeps` | server/src/sessions/session.service.ts:176-258 | ending a session keeps all invariants and the life cycle |
| `SessionInvariants.CleanupKeeps` | server/src/sessions/session-recovery.service.ts:50-132 | the recovery job keeps all invariants at whatever point and time it interleaves |
| `SessionRuns.StepKeeps` | server/src/sessions/session.service.ts:112-258 | every transaction keeps the whole invariant and the life cycle of every session |
| `SessionRuns.RunKeeps` | server/src/sessions/session.service.ts:316-564 | the same over runs of any length and interleaving, with unrelated clocks |
| `SessionRuns.SessionConstraintsNeverHit` | server/src/database/migrations/1784260800000-allow-concurrent-hook-sessions.ts:11-23 | in every reachable state all check constraints and unique indexes of ai_sessions hold: one active manual session per user, one active session per external key, one session per turn, no hook session without a turn |
| `SessionRuns.DeferredNeverStranded` | server/src/sessions/session.service.ts:493-508 | no event is still DEFERRED for a turn that has a session |
| `SessionRuns.EventKeysNeverReused` | server/src/sessions/session.service.ts:380-477 | a device uses each event id and sequence number at most once and a turn stores at most 500 events |
| `SessionRuns.VersionAndStopAudit` | server/src/sessions/session.service.ts:740-831 | a session has exactly one APPLIED Stop if its reason is HOOK_STOP or RECOVERED_LATE_STOP and none otherwise, and its version counts its writes one by one |
| `SessionRuns.LifeCycle` | server/src/sessions/session.service.ts:740-789 | COMPLETED and FAILED are absorbing, ABANDONED leaves only from HEARTBEAT_TIMEOUT to RECOVERED_LATE_STOP, an end time and a turn key are written once |
| `SessionEffects.EventMeaning` | server/src/sessions/session.service.ts:729-831 | what one event makes of its session, column by column: an open session always takes it; an ended one takes only a Stop, only if it was abandoned for a missing heartbeat, no more than 24 hours before, and from a device with an earlier event for it, and is then COMPLETED/RECOVERED_LATE_STOP with the same end; everything else is IGNORED_TERMINAL and changes nothing |
| `SessionEffects.TurnEventMeaning` | server/src/sessions/session.service.ts:566-614 | the same of a delivered event: a session start is only recorded, an event of a turn without a session is DEFERRED, and any other has that effect on the session of its user and turn and on nothing else |
| `SessionEffects.ReplayedMeaning` | server/src/sessions/session.service.ts:857-905 | what replaying one deferred event does: given up as IGNORED_ORPHAN after more than 24 hours, otherwise the effect it would have had when received; and what its row and reply become |
| `SessionEffects.DeliveryMeaning` | server/src/sessions/session.service.ts:316-477 | each of the six errors is given exactly for its reason and changes nothing; everything else succeeds, and a repeated event gets the stored reply and only marks its device as seen |
| `SessionEffects.AcceptedMeaning` | server/src/sessions/session.service.ts:437-563 | the row stored for an accepted event, the reply and the session it shows, and what becomes of the device: last seen now, with the diagnostics sent |
| `SessionPromises.NewTurnTakesOver` | server/src/sessions/session.service.ts:616-727 | a known turn changes nothing and is DUPLICATE or IGNORED_TERMINAL; a new one supersedes, adopts or inserts, with the exact condition and every column written for each, and every other session is untouched |
| `SessionPromises.TurnStartMeaning` | server/src/sessions/session.service.ts:490-512 | the same of a delivered start: its session is opened in this way, exactly the events that waited for the turn are settled and may change that session further, and nothing else happens to either table |
| `SessionPromises.RecoveryClears` | server/src/sessions/session-recovery.service.ts:68-120 | what the job makes of each session and event, with its limits and every column written; after it nothing is overdue, endings are never in the future, and with nothing overdue nothing changes |
| `SessionPromises.RecoveryIsIdempotent` | server/src/sessions/session-recovery.service.ts:68-120 | a second job at the same time changes nothing |
| `SessionPromises.StartManualIsIdempotent` | server/src/sessions/session.service.ts:112-174 | a start sent again under its key, after any run, gets the first reply and changes nothing |
| `SessionPromises.EndIsIdempotent` | server/src/sessions/session.service.ts:176-258 | the same for ending a session |
| `SessionPromises.EndMeaning` | server/src/sessions/session.service.ts:176-258 | an end succeeds exactly for the user's own sessions; what it writes to an open session for each outcome, that an ended one keeps its ending, what is shown and stored, and what an old key gets |
| `SessionPromises.StartManualMeaning` | server/src/sessions/session.service.ts:112-174 | a session is created exactly if the user has no open manual one, with every column; what is shown and stored, and what an old key gets |
| `Redelivery.ResendChangesNothing` | server/src/sessions/session.service.ts:380-419 | a re-sent event changes nothing but the last-seen fields of its device |
| `Redelivery.AtLeastOnceIsExactlyOnce` | server/src/sessions/session.service.ts:380-477 | any run with re-sends ends in the same sessions and events as the run with the re-sends dropped |
| `Redelivery.RedeliveryAfterAcceptance` | server/src/sessions/session.service.ts:380-419 | once an event was answered, every later delivery of it is such a re-send, and a valid device gets the stored answer |
| `Reordering.ReplayIsFold` | server/src/sessions/session.service.ts:834-909 | replaying deferred events has the effect of the reference fold over them |
| `Reordering.ReplayListIsDeliveryOrder` | server/src/sessions/session.service.ts:840-856 | deferred events with distinct receipt times are replayed in the order they were received |
| `Reordering.TurnIsFold` | server/src/sessions/session.service.ts:493-508 | wherever the start falls among a turn's events, every call is accepted and session and per-event results are what the fold says |
| `Reordering.ReorderingTheorem` | server/src/sessions/session.service.ts:493-508 | two deliveries of a turn that differ in where the start falls, and in every time, give the same status, reason, labels, version and per-event results |
| `Reordering.LateStartIsDegraded` | server/src/sessions/session.service.ts:740-831 | what reordering does change: a freshly inserted session is DEGRADED, and if stopped has zero duration |
| `TurnOutcome.StoppedTurn` | server/src/sessions/session.service.ts:791-831 | the first Stop completes a turn; it and the events before it are APPLIED, all later ones IGNORED_TERMINAL |
| `TurnOutcome.OpenTurn` | server/src/sessions/session.service.ts:926-944 | a turn without a Stop waits for the user exactly while a permission request has not been followed by a finished tool, and each event counts one version |
| `TurnOutcome.LabelsOfTurn` | server/src/sessions/session.service.ts:791-831 | of the events that counted, the last one carrying a label decides it |
| `TurnOutcome.TurnWithoutStop` | server/src/sessions/session.service.ts:834-909 | the same of the server's state, however the calls are ordered around the start |
| `TurnOutcome.TurnWithStop` | server/src/sessions/session.service.ts:834-909 | the same for a turn with a Stop: COMPLETED by HOOK_STOP, with the result of each event |
| `SessionService.Service.ApplySessionEvent` | server/src/sessions/session.service.ts:729-832 | the method reaches the table and result of the specification, whose effect SessionEffects.EventMeaning states |
| `SessionService.Service.ApplyTurnStart` | server/src/sessions/session.service.ts:616-727 | the method reaches the table, result and session of the specification (duplicate, adoption, supersession, insert) |
| `SessionService.Service.SelectDeferred` | server/src/sessions/session.service.ts:840-856 | the selected events are the deferred ones of the user and turn, by receipt time and then by id |
| `SessionService.Service.ReprocessDeferredEvents` | server/src/sessions/session.service.ts:834-909 | the loop leaves both tables as the specified replay does |
| `SessionService.Service.ProcessIntegrationEvent` | server/src/sessions/session.service.ts:316-564 | the whole request: new state and answer are those of the specification on every path, and a refused request leaves the state as it was |
| `SessionService.Service.StartManualSession` | server/src/sessions/session.service.ts:112-174 | state and answer are those of the specification |
| `SessionService.Service.EndSession` | server/src/sessions/session.service.ts:176-258 | state and answer are those of the specification |
| `SessionService.Recovery.RunCleanup` | server/src/sessions/session-recovery.service.ts:50-132 | a run is skipped exactly if one is in progress or the lock is taken; otherwise the state is the one SessionPromises.RecoveryClears describes, and the counts are the numbers of turn sessions, manual sessions and events it changed |
| `SessionHistory.GetSessionHistory` | server/src/sessions/session.service.ts:276-314 | the page is the first rows of the status asked for behind the cursor, newest first by start and id; its cursor is the last row's and is there exactly if more rows follow |
| `SessionHistory.BehindIsRest` | server/src/sessions/session.service.ts:276-314 | the rows behind the cursor of a row are exactly the rows that follow it |
| `SessionHistory.GetAllSessionHistory` | src/api/sessionApi.ts:183-214 | the client loop ends, never meets a cursor twice, and returns exactly the user's sessions, newest first |
| `SessionHistory.ReadSessions` | src/api/sessionApi.ts:183-214 | from the tables that any run of the service leaves, the client reads each session of the user once, newest first |
| `SessionHistory.HistoryOnlyGrows` | server/src/sessions/session.service.ts:276-314 | over any further run every session read before is still read, and any two of them in the same order |
| `SessionHistory.PrecisionMatters` | server/src/sessions/session.service.ts:276-314 | with starts finer than a millisecond a session would be skipped |
| `QuestInvariants.StartKeeps` | server/src/quests/quest-attempt.service.ts:65-201 | starting keeps all quest invariants |
| `QuestInvariants.ReplaceKeeps` | server/src/quests/quest-attempt.service.ts:213-273 | replacing answers keeps all quest invariants |
| `QuestInvariants.SubmitKeeps` | server/src/quests/quest-attempt.service.ts:275-431 | submitting keeps all quest invariants: ledger and balance with them |
| `QuestInvariants.ExpireKeeps` | server/src/quests/quest-attempt.service.ts:488-508 | every expiring statement keeps all quest invariants |
| `QuestInvariants.GradeKeepsBalance` | server/src/quests/quest-attempt.service.ts:370-413 | grading changes the balance and the sum of reward snapshots by the same amount |
| `QuestInvariants.CorrectRowsBound` | server/src/quests/quest-attempt.service.ts:355-370 | the rows counted as correct are one per correctly answered question |
| `QuestRuns.SessionTransactionsAreMoves` | server/src/sessions/session.service.ts:316-564 | every transaction of the session service is a move of the sessions that quest runs allow |
| `QuestRuns.StepKeeps` | server/src/quests/quest-attempt.service.ts:130-199 | every quest transaction, the background job and every move of the sessions keep the quest invariants |
| `QuestRuns.RunKeeps` | server/src/quests/quest-attempt.service.ts:130-199 | the same over runs of any length and interleaving |
| `QuestRuns.OneOpenOnePassed` | server/src/database/migrations/1784160000000-initial-schema.ts:393-397 | per user and quest at most one open and one passed attempt, and never both |
| `QuestRuns.LedgerIsPassedAttempts` | server/src/quests/quest-attempt.service.ts:398-413 | ledger entries are in bijection with passed attempts, carry their reward snapshots, and no user has two for a quest |
| `QuestRuns.BalanceIsRewards` | server/src/points/point.service.ts:18-30 | the balance is the sum of the reward snapshots of the passed attempts, and never negative |
| `QuestRuns.LedgerInsertNeverConflicts` | server/src/database/migrations/1784160000000-initial-schema.ts:443-445 | the ledger insert meets neither of its unique constraints |
| `QuestRuns.QuestStaysPlayable` | server/src/quests/quest-attempt.service.ts:324-350 | no submission is refused as an invalid published quest |
| `QuestRuns.GradeMeaning` | server/src/quests/quest-attempt.service.ts:347-396 | the score is the floored percentage of correctly answered questions, 100 only if all are, passing is meeting the pass score, and each answer is marked |
| `QuestExpiry.PathsAgree` | server/src/quests/quest-attempt.service.ts:488-537 | at equal times the batch and the per-attempt check pick the same attempts; the job picks those and exactly the open ones less than a millisecond past the deadline |
| `QuestTiming.JobIsEarlier` | server/src/quests/quest-attempt-recovery.service.ts:48-62 | a run of both services ends in a state in which the job expires an attempt that the per-attempt check at the same time leaves in progress |
| `QuestExpiry.DueStaysDue` | server/src/quests/quest-attempt.service.ts:510-537 | a due attempt stays due and the row an expiry would write stays the same |
| `QuestExpiry.ExpiredFiveMinutesAfterSession` | server/src/quests/quest-attempt.service.ts:488-508 | in every reachable state an expired attempt was completed five minutes after its session ended, whichever path expired it and however late |
| `QuestExpiry.CanSubmitIsInProgress` | server/src/quests/quest-attempt.service.ts:588-605 | after the check canSubmit holds exactly if the attempt is in progress |
| `QuestExpiry.GradedInTime` | server/src/quests/quest-attempt.service.ts:275-431 | an attempt is graded only while its session runs or within five minutes of its end |
| `QuestExpiry.JobIsAllOrNothing` | server/src/quests/quest-attempt-recovery.service.ts:48-62 | the job expires every due attempt if and only if none of them started after its deadline; otherwise it changes nothing |
| `QuestExpiry.TouchFails` | server/src/database/migrations/1784181600000-add-quest-attempt-flow.ts:37-48 | touching an attempt fails exactly if it is due and started after its deadline |
| `QuestExpiry.StuckIsRefused` | server/src/quests/quest-attempt.service.ts:510-537 | looking at it, answering, submitting under a new key and starting its quest again under a new key all fail with the constraint error and change nothing |
| `QuestExpiry.StuckForever` | server/src/quests/quest-attempt.service.ts:510-537 | in every later run past its deadline such an attempt stays as it is, and all of these stay refused |
| `JointRuns.StepProjects` | server/src/sessions/session.service.ts:1061-1066 | a step of both services on one database is a step of each machine, the sessions moving by session transactions only |
| `JointRuns.RunProjects` | server/src/sessions/session.service.ts:316-564 | a joint run keeps both invariants, and its quest part is a run of the quest machine |
| `SessionTiming.ReplayKeepsTimely` | server/src/sessions/session.service.ts:834-909 | replaying events none of which is an early Stop does not date an end too far back |
| `SessionTiming.ReplayEndsTooEarly` | server/src/sessions/session.service.ts:834-909 | replaying a turn with an early Stop, oldest first, ends the session that early |
| `SessionTiming.StepKeepsTimely` | server/src/sessions/session.service.ts:616-832 | a session that is timely for a time stays so under every step whose clock is not before a moment at or after that time |
| `SessionTiming.TimelyStays` | server/src/sessions/session-recovery.service.ts:68-104 | so in no run that goes on from the moment does it turn out to have ended more than five minutes before the time |
| `SessionTiming.UntimelyCanEndTooEarly` | server/src/sessions/session-recovery.service.ts:68-104 | and a session that is not timely does turn out so in some such run: by a late timeout or by a waiting Stop |
| `QuestTiming.StuckIffUntimely` | server/src/quests/quest-attempt.service.ts:88-100 | at every moment from the start on, an attempt in progress can still get stuck if and only if its session is not timely for the start: at the start its last sign of life was over seven minutes old, or a manual session over twelve hours and five minutes old, or over five minutes old with an early Stop waiting that can still be replayed |
| `QuestTiming.StuckIsReachable` | server/src/sessions/session-recovery.service.ts:68-83 | an explicit run of both services from the empty database gets an attempt stuck: device linked, prompt, quest started, and a heartbeat timeout that the recovery job notices late |
| `QuestSettled.RunSettles` | server/src/quests/quest-attempt.service.ts:510-543 | over any run attempts keep their identity, settled attempts and their answers never change, ledger and stored replies only grow |
| `QuestSettled.SubmitIsIdempotent` | server/src/quests/quest-attempt.service.ts:293-301 | a submission sent again after any run gets the first reply and changes nothing |
| `QuestSettled.StartIsIdempotent` | server/src/quests/quest-attempt.service.ts:82-86 | the same for a start |
| `QuestSettled.GradedOnce` | server/src/quests/quest-attempt.service.ts:303-321 | a graded attempt submitted under another key changes nothing and shows the award its pass earned |
| `QuestEffects.TouchMeaning` | server/src/quests/quest-attempt.service.ts:510-537 | a look at an attempt expires it exactly if its session ended more than five minutes ago, as of five minutes after that end, and fails exactly if the attempt started later still |
| `QuestEffects.GetMeaning` | server/src/quests/quest-attempt.service.ts:203-211 | the two errors exactly for their reasons; otherwise the attempt, expired if it is overdue, with its deadline, canSubmit, canRetry and result as they follow from the row |
| `QuestEffects.SubmitMeaning` | server/src/quests/quest-attempt.service.ts:275-431 | each error is given exactly for its reason and changes nothing, QUEST_ATTEMPT_INCOMPLETE exactly if a question has no answer; otherwise an attempt in progress is graded: COMPLETED exactly if the floored percentage of right answers meets the pass score, else FAILED, with that score, each answer marked, and on a pass one ledger entry, which is shown |
| `QuestPromises.StartMeaning` | server/src/quests/quest-attempt.service.ts:65-201 | each of the five refusals is given exactly for its reason and changes nothing; otherwise the user's overdue attempts at the quest are expired and the open one is shown, or, exactly if there is none, a new one that begins now in the user's newest session |
| `QuestPromises.BatchMeaning` | server/src/quests/quest-attempt.service.ts:488-508 | the expiring statement of a start fails exactly if an overdue attempt started too late, and otherwise expires exactly the user's overdue attempts at the quest |
| `QuestPromises.ReplaceMeaning` | server/src/quests/quest-attempt.service.ts:213-273 | each error is given exactly for its reason and changes nothing; otherwise the attempt's answers are exactly the chosen options, ungraded, and all others are kept |
| `QuestPromises.JobMeaning` | server/src/quests/quest-attempt-recovery.service.ts:48-62 | the job expires every attempt whose session ended more than five minutes before its clock, or none if one of them started too late for that |
| `QuestQuestions.OrderedRowsAreClustered` | server/src/quests/quest-attempt.service.ts:550-566 | ordered by position and id, the rows of a question are next to each other |
| `QuestQuestions.GroupQuestions` | server/src/quests/quest-attempt.service.ts:568-586 | the grouping loop yields each question once with exactly its options in row order, and flattening the result gives the rows back |
| `QuestService.LatestOf` | server/src/quests/quest-attempt.service.ts:88-100 | the first row by start and id, descending |
| `QuestService.Service.StartAttempt` | server/src/quests/quest-attempt.service.ts:65-201 | state and answer are those of the specification, with the rollback of a refused start |
| `QuestService.Service.GetAttempt` | server/src/quests/quest-attempt.service.ts:203-211 | state and answer are those of the specification |
| `QuestService.Service.ReplaceAnswers` | server/src/quests/quest-attempt.service.ts:213-273 | state and answer are those of the specification |
| `QuestService.Service.CheckAnswers` | server/src/quests/quest-attempt.service.ts:223-248 | the error given for a list of answers, in the order the checks are made |
| `QuestService.Service.SubmitAttempt` | server/src/quests/quest-attempt.service.ts:275-431 | state and answer are those of the specification on every path; QuestEffects.SubmitMeaning says what they are |
| `QuestService.Service.GradeAnswers` | server/src/quests/quest-attempt.service.ts:322-413 | answers, attempt and ledger become those of the specification, which QuestEffects.SubmitMeaning describes, or nothing changes |
| `QuestPromises.DistinctBySize` | server/src/quests/quest-attempt.service.ts:225-228 | the duplicate check by counting is right: the sizes agree exactly if no question occurs twice |
| `QuestService.Recovery.RunCleanup` | server/src/quests/quest-attempt-recovery.service.ts:36-72 | a run is skipped exactly if one is in progress or the lock is taken; otherwise the state is the specified one, it failed exactly if the statement was rejected, and the count is the number of attempts it changed |
| `DiscoverRanking.BeforeMeaning` | server/src/discover/discover-personalization.ts:36-52 | the comparator's criteria in order, on ranked items: matches, band, engagement, clear value, then newest, source and id; FeedMeaning ties them to the items |
| `DiscoverRanking.CompareAntisymmetric` | server/src/discover/discover-personalization.ts:36-52 | comparing the other way round gives the opposite sign, and zero only for the same id |
| `DiscoverRanking.CompareIsStrictTotal` | server/src/discover/discover-personalization.ts:36-52 | in both modes a strict total order on items with distinct ids |
| `DiscoverRanking.BandFollowsRecency` | server/src/discover/discover-personalization.ts:54-68 | a newer item never falls into a later band |
| `DiscoverRanking.LatestIsMaximum` | server/src/discover/discover-personalization.ts:27-30 | the reference time is the newest item's, or 1970 |
| `DiscoverRanking.SortIsDetermined` | server/src/discover/discover-personalization.ts:31-33 | any sorted arrangement of the items is the same list, whatever the algorithm |
| `DiscoverRanking.RankIgnoresArrivalOrder` | server/src/discover/discover-personalization.ts:22-34 | the ranked list is the same for every permutation of the items |
| `DiscoverRanking.FeedMeaning` | server/src/discover/discover-personalization.ts:22-88 | the feed shows each item once, ordered by the items themselves: number of interests tagged, age behind the newest of up to 1, 7 or 30 days, engagement, reward or pay, date, source, id; and each with exactly its matched interests and reasons |
| `DiscoverNormalization.NormalIsNormalized` | server/src/discover/discover-normalization.ts:39-51 | exactly the items within the bounds that cursors need are results of normalisation, and each is its own |
| `DiscoverNormalization.NormalizeMeaning` | server/src/discover/discover-normalization.ts:39-80 | which items are accepted, bound by bound, and what becomes of each field |
| `DiscoverNormalization.LoadedIsNormal` | server/src/discover/discover-normalization.ts:39-80 | a list is accepted exactly if each of its items is; then the items that reach the feed are within those bounds, of that source and one for each sent, and the cache reads back what was stored |
| `DiscoverNormalization.PagingReadsWhatIsSent` | server/src/discover/discover.service.ts:88-110 | whatever the sources send, reading page after page ends and yields one feed in the order of FeedMeaning: every entry is an accepted item of the category and source asked for, and every such item is shown under its id |
| `DiscoverPaging.MergeMeaning` | server/src/discover/discover.service.ts:91-96 | the merged items are exactly the first selected ones of each id, each once |
| `DiscoverPaging.UniqueItems` | server/src/discover/discover.service.ts:91-96 | the loop yields the merged items, which are exactly the first selected ones of each id |
| `DiscoverPaging.MergedIsListable` | server/src/discover/discover.service.ts:88-98 | the merge of whatever the sources loaded has distinct places in the order and can be listed |
| `DiscoverPaging.CursorComparesAsItem` | server/src/discover/discover.service.ts:264-283 | a cursor compares like the item it was made from |
| `DiscoverPaging.IssuedCursorIsAccepted` | server/src/discover/discover.service.ts:284-324 | every cursor issued lies within the bounds that decoding checks |
| `DiscoverPaging.OtherInterestsAreRefused` | server/src/discover/discover.service.ts:76-86 | a request is refused exactly for a cursor out of its bounds or one for other interests, and a cursor issued for other interests never passes |
| `DiscoverPaging.AfterIsRest` | server/src/discover/discover.service.ts:98-101 | the items after the cursor of an item are exactly the items behind it |
| `DiscoverPaging.PageFrom` | server/src/discover/discover.service.ts:98-110 | each page is the next items in order, with a cursor exactly if more follow |
| `DiscoverPaging.PagingReadsTheFeed` | server/src/discover/discover.service.ts:91-110 | from the loaded items, category and source on: paging until there is no cursor ends after the pages that the feed fills and yields the whole feed in the order of FeedMeaning, one entry for each selected id |
| `DiscoverPaging.PagesAreFull` | server/src/discover/discover.service.ts:98-110 | those are no more pages than needed: all but the last are full |
| `DiscoverCache.StepKeeps` | server/src/discover/discover-cache.service.ts:58-94 | every step of every process, including failures, crashes and purges, keeps the cache invariant |
| `DiscoverCache.RefreshesAreApart` | server/src/discover/discover-cache.service.ts:64-94 | stored entries are at least the freshness period apart, or the purge age if that is shorter |
| `DiscoverCache.OneFetchAtATime` | server/src/discover/discover-cache.service.ts:64-75 | at most one request of all processes fetches or stores |
| `DiscoverCache.OneRefreshPerProcess` | server/src/discover/discover.service.ts:138-145 | at most one refresh of a source per process |
| `DiscoverCache.StatusMeaning` | server/src/discover/discover.service.ts:128-200 | FRESH means an age below the freshness period when that was established, STALE at most the allowed age when answered, UNAVAILABLE no items, and all items were stored by a refresh; DiscoverAnswers says when each is given |
| `DiscoverCache.FreshWhenAnswered` | server/src/discover/discover.service.ts:147-170 | four steps answer FRESH; from the cache the entry is then younger than the freshness period, at the end of a refresh if and only if the transaction ended within that period of the fetch, and for a request that waited if and only if it resumes that soon |
| `DiscoverCache.FreshCanBeOld` | server/src/discover/discover-cache.service.ts:77-93 | from every state about to store or release there is a run to a FRESH answer that is older |
| `DiscoverCache.SlowStoreIsNotFresh` | server/src/discover/discover-cache.service.ts:77-93 | an explicit run of one request from the empty cache to such an answer |
| `DiscoverAnswers.FallbackMeaning` | server/src/discover/discover.service.ts:192-200 | after a failed or skipped refresh the answer is STALE with exactly the entry at hand if its age is at most the allowed one, and UNAVAILABLE without items otherwise |
| `DiscoverAnswers.RequestMeaning` | server/src/discover/discover.service.ts:128-145 | a request sees the row if it is at most seven days old, is answered FRESH at once exactly if the entry is younger than the freshness period, and otherwise waits for the refresh of its process, whose answer it gets, or starts one |
| `DiscoverAnswers.RefreshMeaning` | server/src/discover/discover-cache.service.ts:58-94 | each step of a refresh: a held lock skips it and has the row read again, a young entry found under the lock is taken, otherwise what was fetched is stored and dated, a purge removes rows older than six days and 23 hours, and a failure keeps the entry at hand |
| `WorkerPool.StepKeeps` | server/src/discover/hacker-news.adapter.ts:212-223 | every step of every worker keeps the pool invariant |
| `WorkerPool.CalledOnceAndBounded` | server/src/discover/hacker-news.adapter.ts:207-226 | in every interleaving work is called at most once per index, and never are more than min(concurrency, n) calls unsettled |
| `WorkerPool.SettledIsComplete` | server/src/discover/hacker-news.adapter.ts:207-226 | the results are complete and in place if and only if the concurrency is at least one or there are no values |
| `WorkerPool.PoolEnds` | server/src/discover/hacker-news.adapter.ts:212-225 | some worker can always move until all have stopped, and every step uses up a fixed measure |
| `FeedCandidates.CollectCandidates` | server/src/discover/hacker-news.adapter.ts:60-66 | each listed id once, in the order in which the feeds first list it, with the last feed that does |
| `FeedCandidates.FirstsMeaning` | server/src/discover/hacker-news.adapter.ts:60-66 | that order: the elements of a list, each once, by first occurrence |
| `HttpClient.ReadBoundedBody` | server/src/discover/discover-http-client.ts:166-193 | the exact concatenation within the limit, a failure beyond it, and never more bytes kept than the limit |
| `HttpClient.CopyChunks` | server/src/discover/discover-http-client.ts:187-192 | the buffer holds the concatenation of the chunks |
| `HttpClient.FetchOnce` | server/src/discover/discover-http-client.ts:100-164 | what a successful attempt returned, and which failure an aborted, refused, malformed, overlong or broken one is, each exactly |
| `HttpClient.RetriedStatuses` | server/src/discover/discover-http-client.ts:122-137 | which statuses succeed and which failure each other one is; exactly a rate limit, 408, 425 and a server error lead to another attempt |
| `HttpClient.GetJsonResponse` | server/src/discover/discover-http-client.ts:65-98 | at most maxAttempts (two unless asked otherwise, at most three), each but the last after a timeout, a network failure, a rate limit or an upstream failure, with delays of 250 and 500 ms |
| `RequestGate.StackExchangeRequestGate.ReserveKeys` | server/src/discover/stack-exchange-request-gate.ts:22-36 | all keys are reserved or nothing changes |
| `RequestGate.StackExchangeRequestGate.Record` | server/src/discover/stack-exchange-request-gate.ts:38-60 | the recorded state and error, also when a quota out of range is refused after the backoff was noted |
| `RequestGate.StackExchangeRequestGate.IsQuotaExhausted` | server/src/discover/stack-exchange-request-gate.ts:62-64 | an exhausted quota admits no request at all, any other state admits one without keys |
| `RequestGate.RequestsAreApart` | server/src/discover/stack-exchange-request-gate.ts:22-36 | two requests admitted for a key are at least 60 seconds apart |
| `RequestGate.BackoffIsRespected` | server/src/discover/stack-exchange-request-gate.ts:38-52 | no request is admitted for a key before a recorded backoff ends |
| `RequestGate.QuotaBlocksUntilMidnight` | server/src/discover/stack-exchange-request-gate.ts:54-60 | after a quota of zero nothing is admitted before the next UTC midnight |
| `RequestGate.NextUtcDayIsNextMidnight` | server/src/discover/stack-exchange-request-gate.ts:67-70 | that midnight is strictly later and at most 24 hours away |
| `RequestGate.ReadyIffFree` | server/src/discover/stack-exchange-request-gate.ts:22-52 | a key is ready exactly if no admission within the last minute and no lasting backoff forbids it |
| `RequestGate.AdmittedUnlessForbidden` | server/src/discover/stack-exchange-request-gate.ts:22-60 | a request is admitted if and only if no quota used up today, no recent admission and no lasting backoff forbids any of its keys |
| `RateLimit.Limiter.Consume` | server/src/security/rate-limit.service.ts:16-47 | whatever the order of statements and cleanups, a call within the limit is allowed; unless a cleanup is more than a day ahead of the call or the scope had calls with a shorter window, the decision depends on the calls of the window that reached the table earlier and on nothing else |
| `RateLimit.Buckets.Increment` | server/src/security/rate-limit.service.ts:24-42 | the returned count is at most the number of calls of the window, and equal to it if and only if no cleanup has deleted the counter |
| `RateLimit.Buckets.DeleteExpired` | server/src/security/rate-limit.service.ts:49-60 | a cleanup deletes exactly the counters that had been expired for more than a day |
| `RateLimit.CounterIsCount` | server/src/security/rate-limit.service.ts:24-60 | after any sequence of calls and cleanups a counter is the number of its window's calls if and only if no cleanup ever deleted it, and less otherwise |
| `RateLimit.CleanupsSpareCounter` | server/src/security/rate-limit.service.ts:57-60 | no cleanup deletes the counter of a call's window unless it is more than a day ahead of the call or the scope had calls with a shorter window |
| `RateLimit.CountedTogether` | server/src/security/rate-limit.service.ts:16-42 | two calls under one policy share a counter exactly if scope, identity and aligned window are the same |
| `RateLimit.DelayedCallStartsOver` | server/src/security/rate-limit.service.ts:57-60 | a call delayed by more than the day that cleanups leave finds its counter gone |
| `RateLimit.WindowLimit` | server/src/security/rate-limit.service.ts:16-47 | in each aligned window exactly the first calls up to the limit are allowed |
| `RateLimit.IntervalLimit` | server/src/security/rate-limit.service.ts:16-47 | at most twice the limit in any interval of one window's length |
| `RateLimit.IntervalLimitIsTight` | server/src/security/rate-limit.service.ts:16-47 | and twice the limit does happen, for every limit and window |
| `RateLimit.RetryAfterIsNextWindow` | server/src/security/rate-limit.service.ts:44-47 | waiting the returned time always lands in the next window |
| `Statistics.DurationsAreSound` | server/src/statistics/statistics.service.ts:64-83 | a session counts exactly if it overlaps the part of the range that has passed, with the whole milliseconds it spent there: never negative, never longer than the range |
| `Statistics.SummaryMeaning` | server/src/statistics/statistics.service.ts:64-83 | the summary counts these sessions of the user, and those of them whose timing is degraded, and adds up their durations |
| `Statistics.ActivityMeaning` | server/src/statistics/statistics.service.ts:110-150 | the activity list shows each of these sessions, dated where it enters the range and with its duration, and each reward of the part of the range that has passed, and nothing else |
| `Statistics.WaitIsNotNegative` | server/src/statistics/statistics.service.ts:259-265 | the waiting time is never negative |
| `Statistics.SplitRange` | server/src/statistics/statistics.service.ts:64-92 | the waiting time over a range exceeds that of its halves by at least nothing and at most 1 ms per session across the split |
| `Statistics.SplitCounts` | server/src/statistics/statistics.service.ts:64-92 | the counts of the halves add up, plus the sessions across the split, minus those that began and ended exactly on it |
| `Statistics.ActivitiesAddUpToSummary` | server/src/statistics/statistics.service.ts:117-137 | the session durations of the unpaged activity list add up to the summary's waiting time |

## Left out

- Pages, components and response parsers of the web client: display and
  one-branch validation.
- OAuth, cookies, CSRF, redaction, device linking, account export and deletion,
  analytics, interests, metrics and logging: they would only add easy members or
  are calls into code outside the repository.
- PostgreSQL itself: locks, isolation and deadlocks. Each transaction is one
  step, and a lock that is tried is a parameter.
- `updated_at` columns and event rows without a stored response.
- Quest titles, versions and prompts in what a client is shown of an attempt;
  the questions of the view are modelled separately in `QuestQuestions`.
- The lists of active sessions and of source states, and the numbers of quests and
  points in the statistics summary: single queries.
- Keyset paging of activities, of the point ledger and of saved items. The last
  keeps microseconds that its cursor drops.
- Adapter parsing, URL checks and the text cleaner: of normalisation only
  identities, dates and engagement are modelled, and the rest is assumed to
  accept its own output, which is what cached items are.
- JointRuns.StepProjects: a request under an idempotency key that the other
  service has used is left out; it is refused without a change.
- QuestTiming.StuckIffUntimely: for session steps whose clocks are not before the
  moment, which is at or after the attempt's start, and deleted accounts that
  stay deleted.
- Time-zone arithmetic: a range arrives as its start and end.
- Values that are numbers but not integers, such as a fractional backoff: the
  gate refuses them like other invalid values.
- DiscoverCache.StepKeeps: processes, requests and the shared row are parts of
  one state value rather than objects, because their steps interleave at every
  await; database and process clocks are one clock, and freshness periods are
  positive, as all policies in the server have them.
- WorkerPool.StepKeeps: likewise a state value, for the same reason; work always
  settles, as the adapter's callback catches every failure.
- DiscoverPaging.PagingReadsTheFeed: for items and interests that stay the same
  between requests, which is what the service promises.
- SessionHistory.GetAllSessionHistory: for a history that stays the same between
  requests, with starts in whole milliseconds, which is how they are written.
- RateLimit.Limiter.Consume: windows have a positive length, as all uses in the
  server do; the database refuses to divide by zero.
- RequestGate.AdmittedUnlessForbidden: for a clock after 1970 that does not go
  back.
- HttpClient.GetJsonResponse: URL and header validation and the reset time of a
  rate limit are not part of the model.
