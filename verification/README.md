# EquipED: verified models

EquipED scores teaching documents with language-model agents, fine-tunes adapters for
them from reviewers' corrections, and keeps curricula and roadmaps for the agents to
consult. This project models, in Dafny, the parts of it whose correctness rests on state
kept over many calls, on arithmetic, or on stores that are brought step by step to a
specified shape, and proves what those parts are for.

Run `dafny verify dfyconfig.toml` to check everything.

| files | subject |
|---|---|
| `GateModel`, `GateRuns`, `GateSteps`, `GateTheorems`, `GateTickets`, `GateAccounts`, `ProviderGate` | the admission gate in front of a model provider: a FIFO queue, an in-flight limit, sliding-window quotas, a cooldown and deadlines |
| `RetryPolicy`, `RetryTickets`, `RetryLoop` | the retry loop of one completion: its policy, what becomes of its waiters and tickets, and the loop |
| `SignTest`, `Scoring` | the verdict on an adapter: answer keys, errors, the exact sign test |
| `ChromaRecords`, `ChromaMigration`, `ChromaRuns`, `ChromaDigests` | the resumable copy of vector collections |
| `CurriculumModel`, `CurriculumObjectives`, `CurriculumCourses`, `CurriculumTheorems`, `CurriculumRepeat`, `CurriculumDisputes`, `CurriculumOutcomes`, `CurriculumSuccess`, `CurriculumSeeder` | the convergent seeding of the curriculum map |
| `Upserts`, `RoadmapModel`, `RoadmapSteps`, `RoadmapTheorems`, `RoadmapRepeat`, `RoadmapOutcomes`, `RoadmapSuccess`, `RoadmapSeeder` | the convergent seeding of program roadmaps |
| `HouseRules`, `HouseRuns`, `HouseDecisions`, `HouseLogs` | planning, writing and undoing house-rule corrections |
| `HostSelect`, `HostSelectTwice`, `HostSync` | bringing finished models to a model host |
| `FormValidation`, `FormChecks`, `FormSpec`, `FormShapes`, `FormFaults` | validating an evaluation form against a manifest |
| `Basics`, `Texts` | shared datatypes, row selection and string functions |

## How the models are built

*The gate.* A `World` is the gate's fields together with what an observer has noted: every
admission in order, the tokens recorded for each, who arrived and who gave up. A run is any
sequence of locked steps under a non-decreasing clock, with any number of callers,
spurious wake-ups included. The class `ProviderGate` has the source's fields and methods;
a ghost `World` beside them ties each method to its step, so everything proved of runs
holds of the class. `Acquire` and the retry loop run with other callers' steps in between.
An account of such a run marks each step as the caller's own or the others', so what the
call did, and that it did nothing else, is part of what is proved (`GateAccounts`).

*The seeders.* Sessions do not flush on their own (`apps/server/core/database.py:76`), so a
query selects from the rows as last flushed while the row objects already carry pending
changes. Sessions keep both versions. A run is a function of the tables; the classes
perform it with the script's loops in one transaction, and the theorems are about the
function. Constraints are checked when changes are flushed, and a violation rolls back.

*Functions and what they must be.* A method is proved to do what a function of its inputs
says; the function in turn is held to statements that do not mention it, over the stored
data alone: what a run leaves field by field, exactly when it succeeds, what becomes of
every measurement, which waiter times out.

*The copy and the host.* A budget of writes stops a copy after any write. The host's folder
keeps a ghost history of every single change, so a run that dies leaves one of its states.

## Where the code and its descriptions differ

- The token quota holds over every window if and only if callers do not report more than
  they estimated: a release overwrites the estimate (`TokenQuotaExactlyWhenHonest`).
- One more loss can turn an inconclusive verdict into "better", exactly when it is the pair
  that reaches the minimum (`WhenALossMakesBetter`).
- Records that compare equal can have different digests, because Python compares 1, 1.0 and
  True as equal while their JSON differs (`SameListsDigest`, `SameButDifferentDigest`).
- Curriculum seeding is idempotent over all lists of courses if and only if no row stands
  for two payload codes, one by its code and one by its anchor; a cell of such a row may be
  added and removed for ever (`IdempotentExactlyWhenUndisputed`, `DisputedRunsOscillate`).
  Its cells come out as the payload says if and only if no row taken for a code strays; and
  over all course rows and cells, if and only if the rows are aligned with the payload
  (`CellsExactlyWhenNoneStrays`, `CellsExactEverywhereWhenAligned`,
  `SettledExactlyWhenAligned`).
- Its error for two alias rows of one code is unreachable under the normalised index
  (`NeverBothAliases`).
- Roadmap seeding deletes a payload course that was stored in a dropped year, unless a year
  row is created after it; the next run restores it (`CoursesUnlessLost`, `TwoRunsComplete`,
  `IdempotentExactlyWhenNothingLost`).
- The roadmap seeder means BSIT and BSInfoTech as one program, but the canonical form of
  the second is BSINFOTECH; and its mismatch warning is unreachable (`CanonicalUnlessLegacy`,
  `NoMismatchWarning`).
- A host file whose announced size is wrong is downloaded again on every run (`SyncTwice`,
  `ShortFileIsFetchedAgain`).

## Model

| member | source | states |
|---|---|---|
| `GateSteps.StepKeepsInv` | apps/server/core/llm.py:118-221 | every locked step — arrival, wake-up, interruption, release, block — keeps the gate's ledger, the queue order, the slot limit, non-decreasing admission times, the one-minute cooldown bound and both quotas at every past admission; so no lookup of the oldest event can fail |
| `GateSteps.PurgeLeavesTheWindow` | apps/server/core/llm.py:131-133 | purging leaves exactly the events of the admissions younger than 60 seconds |
| `GateSteps.PurgedGateCountsTheWindow` | apps/server/core/llm.py:145-159 | after a purge the gate's event count and token sum are those of the last 60 seconds, and the waiter at the front is who it says |
| `GateTheorems.RunsCompose` | apps/server/core/llm.py:118-221 | a legal run followed by a legal run is a legal run, with the same outcome |
| `GateTheorems.RequestQuotaOverEveryRun` | apps/server/core/llm.py:131-167 | in every run no half-open interval of 60 seconds holds more than rpm admissions |
| `GateTheorems.TokenQuotaOverEveryRun` | apps/server/core/llm.py:152-166 | in every run the tokens recorded in any 60 seconds exceed tpm by no more than the admitted callers used beyond their own estimates |
| `GateTheorems.HonestTokenQuota` | apps/server/core/llm.py:152-197 | if no release reports more than the estimate of a ticket the quota could have admitted — reports the gate would ignore apart — the tokens of any 60 seconds of any run stay within tpm |
| `GateTheorems.UnderestimateBreaksTheTokenQuota` | apps/server/core/llm.py:152-197 | for every quota, every estimate it admits and every larger usage the gate records, a run whose only report is that one takes a window over the quota |
| `GateTheorems.TokenQuotaExactlyWhenHonest` | apps/server/core/llm.py:152-197 | callers that report usages from a given set of (estimate, usage) pairs keep the token quota in every 60 seconds of every run if and only if no pair reports more than an estimate the quota admits |
| `GateTheorems.AdmittedExactlyWhenThereIsRoom` | apps/server/core/llm.py:144-167 | a pass admits if and only if the caller is first, in time, past the cooldown, a slot is free and both quotas have room in the last 60 seconds |
| `GateTheorems.FirstComeFirstServed` | apps/server/core/llm.py:140-183 | in every run tickets go out in arrival order, never at or after their own deadline, never beyond the limit; an earlier caller was admitted first or gave up, and who gave up is neither admitted nor queued |
| `GateTheorems.WhoRaisesHasLeft` | apps/server/core/llm.py:147-183 | a caller that raised, by deadline or exception, has left the queue |
| `GateTheorems.TimesOutExactlyAtTheDeadline` | apps/server/core/llm.py:144-171 | a pass of any waiter, first in the queue or not, times out if and only if its deadline has come |
| `GateTheorems.StepGivesUpExactly` | apps/server/core/llm.py:144-183 | a step notes a caller as gone if and only if it interrupts that caller or is a pass of it at or after its deadline |
| `GateTheorems.GaveUpExactly` | apps/server/core/llm.py:144-183 | over every run a caller is noted as gone if and only if it was before or some step of the run gave it up that way |
| `GateTheorems.NoAdmissionDuringCooldown` | apps/server/core/llm.py:153-155 | no admission of any later run happens before the cooldown end |
| `GateTheorems.RateLimitedReleaseHoldsPeersOff` | apps/server/core/llm.py:206-221 | the 429 release and the cooldown are one step: in every continuation nobody is admitted before the bounded delay is over |
| `GateTheorems.CooldownEndsWithTheDelay` | apps/server/core/llm.py:199-221 | a step that imposes a delay leaves the later of the old end and the end of the delay, bounded to 0 to 60 seconds; any other step leaves the end alone |
| `GateTheorems.BlockHoldsEverybodyOff` | apps/server/core/llm.py:199-204 | after block_for nobody is admitted in any continuation before the bounded delay is over |
| `GateTheorems.CooldownIsBounded` | apps/server/core/llm.py:199-221 | in every run the cooldown ends at most 60 seconds after the clock |
| `GateTheorems.FrontHoldsTheOthersBack` | apps/server/core/llm.py:144-167 | as long as the waiter at the front stays in the queue it stays at the front, and nobody is admitted |
| `GateTheorems.FrontIsServedWithinAMinute` | apps/server/core/llm.py:144-178 | a waiter that is at the front and stays in the queue is admitted at its first pass with a free slot 60 seconds on, unless a new cooldown or its deadline came first |
| `GateTheorems.SleepIsShort` | apps/server/core/llm.py:168-178 | every wait is positive, at most a quarter second, overshoots neither deadline, cooldown nor the oldest event's expiry by more than a millisecond, and is a quarter second, ends at one of those, or is a millisecond because one of those is that near |
| `GateTickets.EachTicketIsGivenBackOnce` | apps/server/core/llm.py:185-221 | over every run a ticket takes effect in exactly one release or is still out; a second release never counts |
| `ProviderGates.ProviderGate.constructor` | apps/server/core/llm.py:121-129 | a new gate is empty and starts the history |
| `ProviderGates.ProviderGate.Purge` | apps/server/core/llm.py:131-133 | the loop pops exactly the expired prefix |
| `ProviderGates.ProviderGate.TakeTurn` | apps/server/core/llm.py:144-178 | one turn of the waiting loop changes the fields as the pass of the history model does |
| `ProviderGates.ProviderGate.Join` | apps/server/core/llm.py:138-178 | refusal by quota, or joining the queue and taking the first turn |
| `ProviderGates.ProviderGate.Poll` | apps/server/core/llm.py:144-178 | a woken waiter takes one atomic turn, and times out in it if and only if its deadline has come |
| `ProviderGates.ProviderGate.Interruption` | apps/server/core/llm.py:179-183 | an exception removes the waiter from the queue |
| `ProviderGates.ProviderGate.Release` | apps/server/core/llm.py:185-197 | gives back a ticket that is out, records a valid usage, and is otherwise a no-op |
| `ProviderGates.ProviderGate.BlockFor` | apps/server/core/llm.py:199-204 | imposes a bounded cooldown that never shortens the one in force |
| `ProviderGates.ProviderGate.ReleaseAndBlock` | apps/server/core/llm.py:206-221 | release and cooldown in one atomic step |
| `ProviderGates.ProviderGate.Acquire` | apps/server/core/llm.py:135-183 | whatever others do between its turns, acquire queues exactly one waiter of its own (none when the quota refuses it), moves no other, gives nothing back, and ends with its own fresh ticket, admitted at its last turn and before its deadline, or, its deadline come or interrupted, with the caller noted as gone |
| `RetryTickets.SecondReleaseDoesNothing` | apps/server/core/llm.py:187-191 | a release of a ticket already back changes nothing but the clock |
| `RetryTickets.ReportedUsageStays` | apps/server/core/llm.py:458-545 | usage reported by the first release is still recorded at the end of any continuation |
| `RetryTickets.GivenBackOnceEach` | apps/server/core/llm.py:387-545 | tickets that were issued and are back have exactly one effective release each in the whole run |
| `RetryPolicy.RetriesMeetTheDeadline` | apps/server/core/llm.py:518-550 | a retry follows only a retryable reply of an attempt that is not the last; its sleep is the policy's, ends before the deadline, and is over before the next attempt is queued |
| `RetryPolicy.BackoffDoubles` | apps/server/core/llm.py:312-314 | the first retry waits the initial backoff and each later one twice the wait before, up to the maximum |
| `RetryPolicy.WaitsAsAsked` | apps/server/core/llm.py:302-311 | no wait before the schema is dropped, after a 429 the allowed wait nearest to what the server asks for, otherwise the backoff |
| `RetryPolicy.RateLimitHoldsOffAsAsked` | apps/server/core/llm.py:302-517 | a 429 holds everybody off from the answer on for as long as its caller is told to wait, within 0 to 60 seconds |
| `RetryPolicy.AttemptGivesBackOnce` | apps/server/core/llm.py:395-545 | what one attempt does to the gate and when it is over: late, the ticket back unused; otherwise back when the answer is there, with the usage if one was read; only a 429 blocks |
| `RetryPolicy.OnlyRateLimitsBlock` | apps/server/core/llm.py:387-545 | everything a call does to the gate but releases is the cooldown of one of its attempts that met a 429 |
| `RetryPolicy.OneEventPerAttempt` | apps/server/core/llm.py:387-394 | when the call's waiters were served or gave up, the history holds exactly one admission for each that was served, that of its ticket, and none of them is still queued |
| `RetryPolicy.CallEndsExactly` | apps/server/core/llm.py:395-557 | a call whose last waiter was served ends late, with the answer, or with the error of its last reply; with the latter only when that reply is not worth a retry, no attempt is left, or the wait would not end before the deadline |
| `RetryLoop.LocalLLMClient.OnHttpError` | apps/server/core/llm.py:498-523 | the handler: retried or not, after which delay, whether the call falls back from the schema; a 429 releases and blocks in one step, anything else leaves the gate alone |
| `RetryLoop.LocalLLMClient.Try` | apps/server/core/llm.py:395-545 | one attempt: when it is over, how it is left and with exactly which delay, all its releases and cooldowns in order with their times, its ticket back, and after a 429 a cooldown at least as long as the delay |
| `RetryLoop.LocalLLMClient.GenerateResult` | apps/server/core/llm.py:381-557 | the call queues one waiter an attempt and no other, at most max_attempts; each is served or gives up; its releases and cooldowns are exactly those the replies ask for; every ticket is given back once and each adds one quota event; every retry waits exactly the policy's delay; every 429 counts for the call's later attempts too; and the result is the one its last attempt ends with |
| `SignTest.SignTestIsAProbability` | training/evaluate_adapter.py:134-140 | the p-value is symmetric, lies in (0, 1], and is 1 exactly when wins and losses differ by at most one |
| `SignTest.SignTestIsTheExactTest` | training/evaluate_adapter.py:134-140 | the p-value is the share, among all win/loss records of that length, of those at least as lopsided |
| `SignTest.CombCountsRecords` | training/evaluate_adapter.py:139 | the binomial coefficient counts the records with that many wins |
| `SignTest.WinningLowersP` | training/evaluate_adapter.py:134-140 | a further win for the side not behind never raises p |
| `SignTest.LosingRaisesP` | training/evaluate_adapter.py:134-140 | a further loss for the side that stays in front never lowers p |
| `SignTest.ShutoutP` | training/evaluate_adapter.py:134-140 | without a loss the p-value of n decisive pairs is 2 / 2^n |
| `SignTest.VerdictExactly` | training/evaluate_adapter.py:150-196 | the whole verdict told of win and loss records: better or worse if and only if there are enough pairs and the share of records at least as lopsided is below alpha, and then by the majority, checked against the valid rates |
| `SignTest.VerdictSidesWithTheMajority` | training/evaluate_adapter.py:150-196 | "better" always means more wins than losses if and only if alpha is at most 1 |
| `SignTest.NotBothBetter` | training/evaluate_adapter.py:176-196 | exchanging the two sides turns "better" into "worse" |
| `SignTest.AnotherWinKeepsBetter` | training/evaluate_adapter.py:150-196 | with unchanged valid rates one more win keeps "better" |
| `SignTest.WhenALossMakesBetter` | training/evaluate_adapter.py:161-196 | one more loss creates "better" exactly when it is the pair that reaches min_decisive |
| `SignTest.ALossCanMakeBetter` | training/evaluate_adapter.py:161-196 | it does happen: eight wins with a minimum of nine, then one loss |
| `Scoring.ValidateSmeReply` | training/smoke_test_lora_serving.py:86-106 | a reply is accepted if and only if it has measurements and all are well formed; the scores are each criterion's last one |
| `Scoring.AcceptedExactly` | training/smoke_test_lora_serving.py:86-106 | a reply is accepted if and only if it has measurements and each is of a criterion with a whole score from one to four |
| `Scoring.LastScoreIsTheLast` | training/smoke_test_lora_serving.py:104-106 | the score kept for a criterion is that of the last place that measures it |
| `Scoring.AnswerKeyIsTheChange` | training/evaluate_adapter.py:64-81 | the key holds exactly the criteria scored in both replies, differently, at the corrected score; there is none exactly when nothing changed |
| `Scoring.ErrorIsBounded` | training/evaluate_adapter.py:84-95 | errors lie between 0 and three per key entry |
| `Scoring.ErrorsDifferByTheCost` | training/evaluate_adapter.py:84-95 | two replies that agree on every key criterion but one differ in error by what that one costs: its distance from the corrected score, or three if it is missing |
| `Scoring.NearerOnOneWins` | training/evaluate_adapter.py:84-131 | of two replies that agree on every key criterion but one, the one nearer to the corrected score there wins the pair |
| `Scoring.OnePointNearer` | training/evaluate_adapter.py:84-95 | moving one score a point nearer to the corrected one lowers the error by exactly one |
| `Scoring.SilenceCostsTheWorst` | training/evaluate_adapter.py:84-95 | an invalid reply costs what a reply without any key criterion costs, three for each |
| `Scoring.CorrectionAlwaysWins` | training/evaluate_adapter.py:64-131 | against its own key the corrected reply has error 0, the original at least the key's size, so the pair is a win |
| `Scoring.RunEvaluation` | training/evaluate_adapter.py:370-429 | refuses exactly when no pair has a key; wins, losses, ties and skipped pairs add up to all pairs; outcomes, valid counts and verdict are those of the replies, which may differ between pairs with equal prompts |
| `Scoring.KeyedPairsAre` | training/evaluate_adapter.py:64-81 | the pairs evaluated are, in order and once each, those whose two replies have an answer key |
| `Scoring.RunVerdictExactly` | training/evaluate_adapter.py:370-429 | the verdict of a run in terms of the pairs won and lost and the replies that were valid |
| `Scoring.ExchangeSwapsOutcomes` | training/evaluate_adapter.py:109-131 | exchanging the two models exchanges wins and losses pair by pair |
| `Scoring.ExchangedModelsExchangeVerdicts` | training/evaluate_adapter.py:150-429 | if the adapter is judged better, the exchanged run judges worse, at the same p |
| `Scoring.PerfectAdapterIsBetter` | training/evaluate_adapter.py:370-429 | an adapter that gives every correction wins every scoreable pair, and the run judges it better if and only if there are min_decisive of them and 2 / 2^n is below alpha |
| `ChromaRecords.Records` | apps/server/scripts/migrate_chroma_cloud.py:54-75 | reading page by page and sorting yields every row once, in id order, or the first complaint about a vector |
| `ChromaRecords.StoredIsSame` | apps/server/scripts/migrate_chroma_cloud.py:34-38 | what is stored of a sound record compares equal to it, rounding being idempotent |
| `ChromaRecords.SameListsDigest` | apps/server/scripts/migrate_chroma_cloud.py:78-94 | pairwise equal record lists feed the hash the same bytes if and only if their metadata values also have the same kinds |
| `ChromaRecords.SameButDifferentDigest` | apps/server/scripts/migrate_chroma_cloud.py:78-126 | two records equal for the comparison whose digests differ (1 against True in metadata) |
| `ChromaDigests.SameIsSameDigest` | apps/server/scripts/migrate_chroma_cloud.py:78-126 | two records compare equal if and only if they feed the hash the same bytes once the numbers of their metadata are written in one kind |
| `ChromaDigests.FeedsDetermineRecords` | apps/server/scripts/migrate_chroma_cloud.py:78-94 | record lists that feed the hash the same bytes are the same, stored precision apart |
| `ChromaMigration.VerifyingDecidesMirroring` | apps/server/scripts/migrate_chroma_cloud.py:206-210 | the positional comparison of the two sorted lists passes exactly when the destination mirrors the source |
| `ChromaMigration.GroupByShape` | apps/server/scripts/migrate_chroma_cloud.py:131-134 | the groups partition the batch by which optional fields are present, in order of first appearance |
| `ChromaMigration.Destination.AddRecords` | apps/server/scripts/migrate_chroma_cloud.py:129-144 | stopped anywhere, the collection has only grown by copies; when it finishes it has gained exactly the batch's ids |
| `ChromaMigration.Destination.CopyMissing` | apps/server/scripts/migrate_chroma_cloud.py:224-232 | the same for all missing records, batch by batch |
| `ChromaRuns.CheckRecords` | apps/server/scripts/migrate_chroma_cloud.py:192-196 | passes exactly when every destination record is a copy of a source record |
| `ChromaRuns.CheckExisting` | apps/server/scripts/migrate_chroma_cloud.py:183-200 | an existing destination is accepted exactly when metadata, metric and records agree, and, unless applying, none is missing; otherwise the error names what is wrong |
| `ChromaRuns.CopyAndVerify` | apps/server/scripts/migrate_chroma_cloud.py:211-239 | a copy that is not stopped ends mirroring the source and passes its own verification, and an error names its cause |
| `ChromaRuns.MigrateOne` | apps/server/scripts/migrate_chroma_cloud.py:161-250 | one collection in each mode: nothing existing changes, only apply writes, disagreement stops before any write, the summary and its status tell the truth, and an error names its cause |
| `ChromaRuns.MigrateChroma` | apps/server/scripts/migrate_chroma_cloud.py:147-256 | all collections: existing records never change, other modes never write, verify-only succeeds exactly on complete copies, apply completes a resumable store, and a complete store is left as it is |
| `ChromaRuns.CompleteCopiesAgree` | apps/server/scripts/migrate_chroma_cloud.py:223-239 | two complete stores evolved from one start hold the same rows of a source collection |
| `ChromaDigests.MetricsExactly` | apps/server/scripts/migrate_chroma_cloud.py:19-31 | which metric a collection has: what its configuration and metadata say, if they agree, and l2 for a source that says nothing |
| `ChromaDigests.DoneExactlyWithSameDigest` | apps/server/scripts/migrate_chroma_cloud.py:161-250 | a collection counts as copied if and only if the destination has its metric and its records in number and canonical digest |
| `ChromaDigests.CompleteExactlyWithSameDigests` | apps/server/scripts/migrate_chroma_cloud.py:147-256 | a store is complete, and so verify-only succeeds, if and only if that holds of every source collection: stale metadata cannot pass |
| `ChromaRuns.CrashThenResume` | apps/server/scripts/migrate_chroma_cloud.py:129-239 | apply stopped after any number of writes, then again: the second run completes the copy and a third adds nothing |
| `Basics.Query` | apps/server/scripts/seed_curriculum_map.py:54-67 | a query by a condition returns exactly the positions whose rows satisfy it, in order |
| `CurriculumObjectives.ResolveFindsTheAnswer` | apps/server/scripts/seed_curriculum_map.py:51-75 | under the schema's constraints a code stands for at most one row: its anchor, else the program's row of that code |
| `CurriculumObjectives.SameAnswers` | apps/server/scripts/seed_curriculum_map.py:96-117 | earlier pending or flushed work of the run does not change which row a later code stands for |
| `CurriculumObjectives.ObjectivesAreGeneral` | apps/server/scripts/seed_curriculum_map.py:95-117 | whatever the rows: administrators' rows and existing anchors never change, aliases stay aliases, and new anchors sit on rows of that code |
| `CurriculumObjectives.ObjectivesAreExact` | apps/server/scripts/seed_curriculum_map.py:95-117 | when no row stands for two payload codes, each code gets the row that answered for it before the run, corrected, or a new row; no other row changes |
| `CurriculumCourses.MappingFrame` | apps/server/scripts/seed_curriculum_map.py:160-217 | a mapping step stays within its course and its program and raises the version exactly when the course's cells changed |
| `CurriculumCourses.MappingSettles` | apps/server/scripts/seed_curriculum_map.py:168-209 | afterwards the course has the payload's levels, nothing stale, and other cells as before |
| `CurriculumCourses.CoursesAreKept` | apps/server/scripts/seed_curriculum_map.py:119-217 | whatever the payload: unlisted courses, administrator-mapped courses' cells and other programs' cells are unchanged |
| `CurriculumTheorems.RunLeavesTheRestAlone` | apps/server/scripts/seed_curriculum_map.py:78-219 | the same for a whole run, with the committed tables again satisfying every constraint |
| `CurriculumTheorems.NeverBothAliases` | apps/server/scripts/seed_curriculum_map.py:68-74 | the error for two alias rows of one code cannot be raised on a database with the normalised index |
| `CurriculumTheorems.RunIsExact` | apps/server/scripts/seed_curriculum_map.py:78-219 | when no row stands for two payload codes, the exact outcome of a run: objectives, course rows, cells and both version counters |
| `CurriculumOutcomes.ObjectivesEndAsThePayloadSays` | apps/server/scripts/seed_curriculum_map.py:95-117 | when no row stands for two payload codes: the row of each payload objective, if no administrator has it, ends in the program with the payload's description, its code and anchor kept and its version raised by one exactly if program or description differed; or it is new; every other row stays |
| `CurriculumOutcomes.CoursesEndAsThePayloadSays` | apps/server/scripts/seed_curriculum_map.py:119-217 | each listed course ends in the program under the payload's title, its mapping version raised by one exactly if its cells changed; every unlisted course stays |
| `CurriculumSuccess.RunSucceedsExactly` | apps/server/scripts/seed_curriculum_map.py:51-219 | when no row stands for two payload codes, a run over sound tables succeeds if and only if the program is the supported one, no two objectives end at one place of the normalised index, and each course is of the program and, unless mapped by hand, lists levels the table takes |
| `CurriculumSuccess.EmptyDatabaseIsSeeded` | apps/server/scripts/seed_curriculum_map.py:78-219 | a payload of the program whose codes stay apart in upper case and whose levels are known can be seeded into an empty database |
| `CurriculumTheorems.SettledExactlyWhenAligned` | apps/server/scripts/seed_curriculum_map.py:51-117 | after a successful run every payload code stands for a row known by that code if and only if, before it, no row anchored elsewhere could be taken for a code without an anchor |
| `CurriculumRepeat.CellsFollowThePayload` | apps/server/scripts/seed_curriculum_map.py:153-208 | in every seeded course without managed mappings, for every payload objective of the program, the cell has a level exactly when the payload lists it, not blank — provided no row that can be taken for a code strays |
| `CurriculumRepeat.ConvergedStaysPut` | apps/server/scripts/seed_curriculum_map.py:78-219 | converged tables are a fixed point of the run, versions included |
| `CurriculumRepeat.SecondRunChangesNothing` | apps/server/scripts/seed_curriculum_map.py:78-219 | when no row stands for two payload codes, the second run succeeds and changes nothing |
| `CurriculumDisputes.IdempotentExactlyWhenUndisputed` | apps/server/scripts/seed_curriculum_map.py:51-219 | over all lists of courses, a second run changes nothing if and only if no row can be taken for a payload code while it is anchored at another payload code |
| `CurriculumDisputes.CellsExactlyWhenNoneStrays` | apps/server/scripts/seed_curriculum_map.py:51-219 | over all lists of courses, the cells come out exactly as the payload says if and only if no row that can be taken for a code is anchored at another payload code or already has a cell in a course a payload could seed |
| `CurriculumDisputes.CellsExactEverywhereWhenAligned` | apps/server/scripts/seed_curriculum_map.py:51-219 | over all course rows, cells and lists of courses, the cells come out exactly as the payload says if and only if the objective rows are aligned with it |
| `CurriculumDisputes.DisputedRunsOscillate` | apps/server/scripts/seed_curriculum_map.py:153-217 | a concrete disputed row whose cell every run adds or removes in turn while the mapping version keeps rising |
| `CurriculumDisputes.TwoLevelsOfOneCellAreRefused` | apps/server/scripts/seed_curriculum_map.py:168-192 | a course with levels for two codes that share a row, and no cell for it yet, cannot be flushed and fails the run |
| `CurriculumSeeder.Database.SeedObjective` | apps/server/scripts/seed_curriculum_map.py:96-117 | the branches of the objective loop refine the objective step |
| `CurriculumSeeder.Database.SeedCourseRow` | apps/server/scripts/seed_curriculum_map.py:120-151 | finding, creating, refusing or correcting the course row |
| `CurriculumSeeder.Database.PutCourseLevels` | apps/server/scripts/seed_curriculum_map.py:168-189 | the level loop, with rows pending but not flushed invisible to its queries |
| `CurriculumSeeder.Database.DeleteStale` | apps/server/scripts/seed_curriculum_map.py:195-208 | the deletion loop removes exactly the stored stale cells of the course |
| `CurriculumSeeder.Database.SeedCourse` | apps/server/scripts/seed_curriculum_map.py:120-217 | one course, with the version raised when its stored levels changed |
| `CurriculumSeeder.Database.SeedCurriculumMap` | apps/server/scripts/seed_curriculum_map.py:78-219 | the script commits what the run function says, or leaves the committed tables as they were |
| `Upserts.PutOneMore` | apps/server/scripts/seed_roadmaps.py:193-270 | a keyed upsert, in place or at the end, extends the description of what a series of upserts made of a table |
| `RoadmapTheorems.NoMismatchWarning` | apps/server/scripts/seed_roadmaps.py:110-130 | names that agree in lower case are canonically equal, so the mismatch warning is unreachable and the link is set |
| `RoadmapTheorems.CanonicalUnlessLegacy` | apps/server/scripts/seed_roadmaps.py:50-56 | canonicalising a program name is idempotent exactly for names other than the legacy alias |
| `RoadmapTheorems.LegacyNames` | apps/server/scripts/seed_roadmaps.py:50-56 | the two names meant as one have different canonical forms |
| `RoadmapSteps.SeedYearsPlaces` | apps/server/scripts/seed_roadmaps.py:188-270 | after the loops every payload course is placed in its year's row, and flushed exactly as far as the last newly created year |
| `RoadmapTheorems.OneActiveRoadmap` | apps/server/scripts/seed_roadmaps.py:148-183 | the seeded roadmap is the only active one of its program and specialization; others change at most in status |
| `RoadmapTheorems.OnlyThePayloadRemains` | apps/server/scripts/seed_roadmaps.py:272-298 | the roadmap's years are exactly the payload's and every remaining course is one of the payload's in its year; other roadmaps' rows stay, but for a course kept in a dropped year |
| `RoadmapTheorems.CoursesUnlessLost` | apps/server/scripts/seed_roadmaps.py:188-298 | a payload course is there at the end if and only if it was not stored in a dropped year with no year created after it |
| `RoadmapOutcomes.RoadmapEndsAsThePayloadSays` | apps/server/scripts/seed_roadmaps.py:133-298 | field by field: the roadmap row, its years and its courses with their links carry what the payload says, rivals are retired, and a payload course is missing if and only if it was lost |
| `RoadmapSuccess.RunSucceedsExactly` | apps/server/scripts/seed_roadmaps.py:59-298 | a run over sound tables succeeds if and only if the payload is acceptable, the version's row is there at most once, and so is the row of each of the payload's years |
| `RoadmapRepeat.CompleteStaysPut` | apps/server/scripts/seed_roadmaps.py:133-298 | a complete roadmap is a fixed point of the run |
| `RoadmapRepeat.IdempotentExactlyWhenNothingLost` | apps/server/scripts/seed_roadmaps.py:133-298 | a second run changes nothing if and only if the first lost no course |
| `RoadmapRepeat.ClearedRunSucceeds` | apps/server/scripts/seed_roadmaps.py:133-298 | over tables as a run leaves them the next run finds its roadmap and its years, and no constraint or query can make it fail |
| `RoadmapRepeat.TwoRunsComplete` | apps/server/scripts/seed_roadmaps.py:133-298 | after any run the next one succeeds, loses no course and completes the roadmap, and a third changes nothing |
| `RoadmapRepeat.AMovedCourseIsLost` | apps/server/scripts/seed_roadmaps.py:281-296 | a concrete course moved out of a dropped year is deleted instead |
| `RoadmapSeeder.Database.SeedRoadmapRow` | apps/server/scripts/seed_roadmaps.py:148-169 | finding, creating or reactivating the roadmap row |
| `RoadmapSeeder.Database.Retire` | apps/server/scripts/seed_roadmaps.py:171-183 | the retiring loop changes the status of exactly the other stored active rows of the pair |
| `RoadmapSeeder.Database.SeedYear` | apps/server/scripts/seed_roadmaps.py:189-270 | one year and its courses |
| `RoadmapSeeder.Database.DropWhatLeft` | apps/server/scripts/seed_roadmaps.py:272-296 | the two deletion loops remove what the stored rows say has left |
| `RoadmapSeeder.Database.SeedRoadmaps` | apps/server/scripts/seed_roadmaps.py:133-298 | the script commits what the run function says, or rolls back |
| `HouseRules.ApplyRule` | apps/server/scripts/seed_house_rule_edits.py:96-116 | raises a valid score below four by one, and names the reason exactly otherwise |
| `HouseRules.ReferenceIsNearestTheMean` | apps/server/scripts/seed_house_rule_edits.py:129-131 | the reference of valid scores is a valid score within half a point of the mean, halves going up |
| `HouseRules.ExpectationIsTheRule` | apps/server/scripts/seed_house_rule_edits.py:134-136 | what an adapter is expected to score is what the rule does to the base score |
| `HouseRules.SuggestLimits` | apps/server/scripts/seed_house_rule_edits.py:446-452 | the least multiple of 256 with fifteen per cent of room |
| `HouseRules.BuildEvaluationPlan` | apps/server/scripts/seed_house_rule_edits.py:283-383 | the planning loops refine the plan function, guards in order |
| `HouseRuns.NormalizeCodes` | apps/server/scripts/seed_house_rule_edits.py:139-145 | the loop keeps each non-blank code once, in order of first appearance |
| `HouseRuns.NormalizedTwice` | apps/server/scripts/seed_house_rule_edits.py:139-145 | normalising codes is idempotent |
| `HouseRuns.EveryWriteIsProper` | apps/server/scripts/seed_house_rule_edits.py:180-195 | every planned write is in a listed train evaluation, on an edited guidance criterion without a log, and raises a score of 1 to 3 by one |
| `HouseRuns.AtMostOneWriteEach` | apps/server/scripts/seed_house_rule_edits.py:259-423 | no criterion of an evaluation is corrected twice in a run |
| `HouseDecisions.EveryMeasurementIsDecided` | apps/server/scripts/seed_house_rule_edits.py:96-383 | every coded measurement of an exported generation has its plan: raised by one, and written if it is of a train evaluation, if and only if its criterion is edited, guided, score-shaped, measured once, without a log, and scored 1 to 3; otherwise skipped for the one reason that applies |
| `HouseDecisions.PlannedExactlyWhen` | apps/server/scripts/seed_house_rule_edits.py:283-423 | a run is planned if and only if it is well asked, its evaluations are eligible, the reference ones are held out, and every code is measured somewhere |
| `HouseLogs.PreferenceStore.WriteCorrections` | apps/server/scripts/seed_house_rule_edits.py:749-771 | one transaction: every row and the house user, or nothing |
| `HouseLogs.RowsSayTheCorrections` | apps/server/scripts/seed_house_rule_edits.py:755-766 | each row says who corrected what, to which score, in which run, and is one of those cleaning up that run will find |
| `HouseLogs.PreferenceStore.Cleanup` | apps/server/scripts/seed_house_rule_edits.py:800-833 | removes exactly the tagged rows, or refuses and removes none when one is another agent's |
| `HouseLogs.CleanupExactly` | apps/server/scripts/seed_house_rule_edits.py:800-833 | cleaning up refuses if and only if the run's note is on an edit of another agent, and otherwise drops just the run's edits of the house user |
| `HouseLogs.WriteThenCleanup` | apps/server/scripts/seed_house_rule_edits.py:749-833 | cleanup after write is cleanup without the write, and it restores the log exactly when the run id was fresh |
| `HouseLogs.CleanupSparesOtherRuns` | apps/server/scripts/seed_house_rule_edits.py:800-833 | cleaning up one run leaves what another run wrote |
| `HouseLogs.PlanningAgainWritesNothing` | apps/server/scripts/seed_house_rule_edits.py:245-423 | planning after the write succeeds, skips each corrected criterion for its log, is otherwise the same, and writes nothing |
| `HouseLogs.Experiment` | apps/server/scripts/seed_house_rule_edits.py:663-833 | plan, write, plan again, clean up: the log is as before and the plan the same |
| `HostSelect.Select` | training/host_sync.py:188-200 | the grouping loops refine the selection function |
| `HostSelect.RankIsTail` | training/host_sync.py:194-195 | in the sorted group an entry has after it exactly the newer entries of its agent |
| `HostSelect.SelectedExactly` | training/host_sync.py:188-200 | an entry is loaded if and only if it is published or among the newest keep_latest of its agent |
| `HostSelect.SelectedAreAvailable` | training/host_sync.py:188-200 | whatever the entries, only available ones are loaded |
| `HostSelectTwice.SelectedInOrder` | training/host_sync.py:188-200 | what is selected comes agent by agent, oldest version first, and each entry as often as it is available |
| `HostSelectTwice.SelectTwice` | training/host_sync.py:188-200 | selecting again selects the same list, whatever the entries |
| `HostSync.SafeNamesAVersion` | training/host_sync.py:32 | the safe names are exactly those of an agent, a version number and the ending, before at most one newline; none contains a path separator or starts with a dot |
| `HostSync.Host.Receive` | training/host_sync.py:157-175 | the reading loop: what is received goes to the partial file, and it stops exactly when the body is larger than announced |
| `HostSync.Host.Download` | training/host_sync.py:157-185 | exactly when and why it fails; at every write only the entry's own partial file changes, or its target to bytes with the announced digest; on success the target is the body, on every error the partial file is gone and nothing else changed |
| `HostSync.Host.WriteFlags` | training/host_sync.py:203-219 | the flags file is replaced exactly when its text differs |
| `HostSync.Host.Obtain` | training/host_sync.py:266-276 | an entry is there in the end if and only if it was up to date or a whole body of the announced digest comes, and each other case has its error; untouched exactly when up to date; the file is the one that was up to date or the body received |
| `HostSync.Host.Sync` | training/host_sync.py:249-294 | every state of the folder during the run is sane: but for the entries' own partial files it is as before or as announced; with distinct names the available entries, the downloads and the errors are exactly those the folder and the replies give, and the flags list only files that match; nothing is touched when all is up to date |
| `HostSync.Host.SyncTwice` | training/host_sync.py:149-294 | after a first run that obtained everything, the second touches no file if and only if the sizes are as announced, and then changes nothing |
| `HostSync.ShortFileIsFetchedAgain` | training/host_sync.py:149-185 | a concrete body shorter than announced, with the announced checksum: the first run obtains it and the second asks for it again |
| `FormChecks.CheckCriterion` | libs/evaluation-harness/equiped_harness/manifests.py:254-391 | one criterion's issues, from the seen-sets alone |
| `FormChecks.CheckCriteria` | libs/evaluation-harness/equiped_harness/manifests.py:252-391 | the criterion loop: its issues, and seen-sets describing exactly the criteria so far |
| `FormChecks.CheckDomains` | libs/evaluation-harness/equiped_harness/manifests.py:206-391 | the domain loop: exactly the issues of the domains and their criteria, and the total count |
| `FormChecks.EstimatePrompt` | libs/evaluation-harness/equiped_harness/manifests.py:134-155 | the two loops add up what each domain and criterion contributes |
| `FormChecks.ValidateForm` | libs/evaluation-harness/equiped_harness/manifests.py:162-446 | the report holds exactly the justified issues, and the form is valid when there are none |
| `FormSpec.TwoStepIsFolded` | libs/evaluation-harness/equiped_harness/manifests.py:270-296 | the exact test and the case-folded one, in turn, find precisely the codes equal up to case to an earlier one |
| `FormSpec.NoIssueMeansOk` | libs/evaluation-harness/equiped_harness/manifests.py:162-446 | the pass reports nothing if and only if the form meets the plain specification |
| `FormFaults.EveryIssueNamesItsFault` | libs/evaluation-harness/equiped_harness/manifests.py:162-446 | the report holds precisely the faults read off the form place by place: each under its own code and path, a repeated code with the first earlier code it repeats in other letters |
| `FormShapes.ResolveMeasurementShape` | libs/evaluation-harness/equiped_harness/manifests.py:100-113 | the search returns the first capability for the strategy and mode |
| `FormShapes.ResolvesExactlyWhenSupported` | libs/evaluation-harness/equiped_harness/manifests.py:100-127 | for a manifest that keeps its invariants a shape is found exactly for the criteria the validator calls supported |
| `FormShapes.ShapeIsUnique` | libs/evaluation-harness/equiped_harness/contracts/capabilities.py:132-143 | no other capability could have answered |
| `FormShapes.ValidFormsResolve` | libs/evaluation-harness/equiped_harness/manifests.py:100-446 | every criterion of an accepted form resolves to one of the manifest's shapes |
| `FormShapes.EstimateIgnoresOrder` | libs/evaluation-harness/equiped_harness/manifests.py:134-155 | the estimate does not depend on the order of neighbouring domains, and a domain never lowers it |
| `FormShapes.EstimateIsTheTextLength` | libs/evaluation-harness/equiped_harness/manifests.py:134-155 | the estimate is the length of all texts of the form that go into the prompt, put together |

## Left out

Gate and retry loop
- Clock readings are exact reals: rounding of floating-point times is not modelled.
- Threads and condition variables: steps are atomic because the lock makes them so; an exception reaches a caller only while it sleeps.
- HTTP, TLS, JSON, header copying, response-size handling and endpoint checks: an exchange is an arbitrary reply, or a failure of a given kind, at an arbitrary time.
- The table of gates by provider, and the settings: request, limit and quotas are parameters.
- GateTheorems.HonestTokenQuota: estimates are taken as not negative, as the caller computes them (apps/server/core/llm.py:384).
- GateTheorems.FrontIsServedWithinAMinute: says nothing of a front waiter whose slots are all held; how long a request takes is not the gate's to bound.
- RetryLoop.LocalLLMClient.GenerateResult: a not-a-number Retry-After value, or a negative backoff, ends the call in the sleep itself, as it does in the source; the text of errors is not modelled.

Verdict
- Floating point: p-values, rates and levels are exact reals.
- Reply text: replies are modelled after JSON parsing, and white space beyond the blank test is not interpreted.
- Loading held-out archives, reports and exit codes.

Vector copy
- SHA-256: the digest is the sequence of bytes fed to it.
- ChromaRecords.StoredIsSame: single-precision rounding is any idempotent function; signed zero and not-a-number inside metadata are not modelled.
- A source that changes while it is read, and errors of the vendor's client other than an overflowing component.
- Adding an id that already exists: the code never does.

Seeders
- SQL, sessions and identifiers: rows are named by position, which stands for their random identifiers.
- White space and case of names are those of ASCII text.
- CurriculumTheorems.RunIsExact: assumes distinct non-empty objective codes, distinct course codes and distinct codes within a course, which a JSON object gives; for a row that stands for two payload codes only RunLeavesTheRestAlone is claimed.
- CurriculumSuccess.RunSucceedsExactly: likewise, and for tables where no row stands for two payload codes.
- RoadmapTheorems.CoursesUnlessLost: assumes distinct course codes and distinct year and semester pairs in the payload.
- Values of the wrong JSON type in a roadmap payload: the payload is typed.
- Timestamps of roadmap rows, and the printed summaries.

House rules
- The stored envelope, the JSON text fallback and the snapshot's verification: an evaluation carries its measurements and, if verified, its strategies.
- The command line, its confirmations, the CSV report and the exporter.

Host
- The manifest request and its redirects, logging and desktop notification.
- HostSync.Host.WriteFlags: the file is the list of model names it renders, and its temporary file is not modelled.
- HostSelect.SelectedExactly: assumes distinct adapter ids; SelectTwice and SelectedInOrder do not.
- HostSync.Host.Sync: exactly which entries arrive is claimed for lists with distinct file names, as agents and versions give; what holds of every state of the folder is claimed of all lists.

Forms
- FormChecks.ValidateForm: messages are not modelled beyond the earlier code they cite, and the serialised size is a parameter.
- FormShapes.ValidFormsResolve: the manifest invariants used are those about capabilities; the others do not bear on shapes.
- Case folding is any function of the code.

Not modelled at all: the other agents and the orchestrator, snapshots and rubric storage, the schema migrations, the React client and its API, configuration checks and report formatting; they would add members without adding state or arithmetic of this kind.
