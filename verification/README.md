# Model of the SecureLens core

This project models the parts of SecureLens whose behaviour spans many steps, and proves what they
keep. Tables are maps and sequences, one SQL statement is one atomic step, the message broker is
an append-only log, and the outcomes of database and broker calls are parameters.

- **Job scheduler** (`JobStore`, `JobProtocol`, `JobSafety`, `QuietJobs`, `Selections`, `RetryChains`,
  `RetryOrigins`, `RetryBound`, `RetryCounterexamples`, `SchedulerClass`, `JobOutcomes`). Processes share `jobs` and
  `job_executions`; a process inside `queueJob` has a program counter, and any process, the reaper, the
  clock and the message consumer interleave. `JobSafety` and `QuietJobs` hold at the fine granularity,
  where the selection read and the lock are separate steps. `RetryChains`, `RetryOrigins` and
  `RetryBound` use the atomic granularity, select and lock in one step, and the conditions of
  `RetryChains.Orderly`, each checkable before the step: a row is stamped after the job's earlier rows, no
  lock is cleared between lock and insert, and a completion does not carry a time before the job's last
  update. Inserts and produce calls may fail. The comment at `internal/scheduler/scheduler.go:129-130`
  says SKIP LOCKED ensures that only one worker picks up each job; the rows are unlocked again before
  `queueJob` locks them. `Selections` states both what atomic selection gives and exactly when a separate
  selection has gone stale, and `StaleSelectionRunsJobTwice` is a run in which that matters. The
  comment at `internal/scheduler/scheduler.go:182-183` promises at most `max_retries` attempts;
  `RetryBound` proves that for firings without insert faults and says what each fault adds. The model
  follows the code.
- **Cron** (`Calendar`, `CronField`, `Cron`, `CronWords`). Real Gregorian arithmetic, the field parser with its
  64-bit stepping loop (`*/9223372036854775807` wraps on ranges that start at 1), and the bounded
  search. Both day fields must match, as in the code.
- **Scanner pool** (`ScanPool`, `ScanRuns`). Walker, workers, closer and two collectors over three
  bounded channels. `WithWorkers(0)` returns an empty result without an error.
- **Gate** (`Governance`, `PolicyEffects`, `Redaction`, `RedactionRules`). The policy fold and the right-to-left splicing.
- **Event bus** (`EventBus`, `BusPublishing`, `EventBusClass`). The lossy queue, the registry of SSE clients and the
  fan-out. Registering an id again drops the old client without closing its `Done`.
- **Residency** (`Residency`, `ResidencyClass`, `ResidencyCount`, `ResidencyRaces`). The stored violations
  against a recomputation, with list limits and faults as parameters; `ResidencyRaces` interleaves the
  statements of two requests. A rule that allows the empty region is
  judged differently by the two evaluators, and the fallback count treats untagged datasources
  differently from the stored table; both are stated as exact conditions.
- **Checksums, labels, masks** (`Checksum`, `ChecksumPlaces`, `Labels`, `Masking`,
  `MaskingByKind`). `Labels` proves the upgrade at both
  granularities: as one atomic call, and with its read and its write interleaved with other calls.

Source code that updates state in place is modelled by classes whose methods are proved against the
functions of the same component; the properties are proved about those functions and about runs. Tables,
limits and units are also stated as literal values, apart from the definitions they come from.

## Model

| member | source | states |
|---|---|---|
| JobSafety.LockIsExclusive | internal/scheduler/scheduler.go:236-299 | in every interleaving of any number of processes, with stale selections, crashes and faults, acquisitions minus effective releases of a job is 0 or 1, and 1 exactly while `locked_by` is set |
| JobSafety.LedgerStep | internal/scheduler/scheduler.go:106-126 | each statement, compensation, reap or completion keeps that balance |
| JobSafety.MessagesTraceToLocks | internal/scheduler/scheduler.go:257-281 | every produced message leads to its own execution row and that row to its own successful lock of the same job, worker and attempt |
| JobSafety.RowsTraceToLocks | internal/scheduler/scheduler.go:257-269 | rows with or without a message come from distinct successful locks |
| JobSafety.TraceableStep | internal/scheduler/scheduler.go:236-292 | each step keeps the tracing, including what every process in the middle of `queueJob` owns |
| JobSafety.AttemptsNeverExceedLimit | internal/scheduler/scheduler.go:181-233 | every row of every run has an attempt between 1 and max(1, `max_retries`), stale selections included |
| JobSafety.AttemptsStep | internal/scheduler/scheduler.go:176-231 | each step keeps rows, selected picks and locked picks within that limit |
| JobSafety.RunsAreSafe | internal/scheduler/scheduler.go:94-299 | the three invariants hold together after every run |
| JobSafety.LimitsAreFixed | internal/scheduler/scheduler.go:94-380 | no step adds a job, removes one or changes its retry limit |
| QuietJobs.QuietStep | internal/scheduler/scheduler.go:94-103 | no scheduler step of any process touches a job that is exhausted, or unlocked and neither scheduled nor failed, and that no process holds |
| QuietJobs.QuietForever | internal/scheduler/scheduler.go:94-103 | over any number of such steps its row stays as it is and it gets no further execution: a job left pending and unlocked by the reaper waits for a completion |
| RetryOrigins.AttemptFollowsStatus | internal/scheduler/scheduler.go:176-231 | atomic select and lock, orderly environment: every execution's lock found the job scheduled or failed; its attempt is 1 in the first case and the attempt of the job's previous execution plus 1 in the second |
| RetryOrigins.ContinuingStep | internal/scheduler/scheduler.go:94-299 | each orderly step keeps that for rows and for locks whose row is still to come |
| RetryChains.LastAttemptIsChainLength | internal/scheduler/scheduler.go:187-192 | the LATERAL join reads exactly the length of the job's open chain |
| RetryChains.RetryIffChainIsShort | internal/scheduler/scheduler.go:193-196 | a failed, unlocked job is offered for retry exactly while its chain is shorter than `max_retries` and 2^length minutes have passed since its last update |
| RetryChains.ChainsAreBounded | internal/scheduler/scheduler.go:181-233 | no chain, that is attempts 1, 2, 3, ... in a row, is longer than max(1, `max_retries`) |
| RetryBound.FiringIsQueuedAtMost | internal/scheduler/scheduler.go:181-233 | from any state of an orderly run on, a job that never succeeds and meets no insert fault gets at most max(1, `max_retries`) further rows |
| RetryBound.QueuedAtMost | internal/scheduler/scheduler.go:236-291 | with insert faults: at most max(1, `max_retries`) rows for the firing under way, for each failed insert of the job, and for each one still to be compensated |
| RetryBound.PotentialStep | internal/scheduler/scheduler.go:236-291 | each orderly step keeps rows plus what may still be added, except that a failed insert adds one firing |
| RetryChains.ExhaustedIffChainIsFull | internal/scheduler/scheduler.go:193-197 | a failed job is exhausted exactly when its chain has `max_retries` entries |
| RetryChains.FullChainIsLeftAlone | internal/scheduler/scheduler.go:94-103 | from then on any number of ticks of any processes leaves the job unchanged |
| RetryChains.BackoffIsCumulative | internal/scheduler/scheduler.go:194-199 | attempt m of a chain was locked at least 2^m - 2 minutes after its attempt 1 |
| RetryChains.CumulativeBackoff | internal/scheduler/scheduler.go:183-196 | the geometric sum behind it, for any sequence of lock times that backs off |
| RetryChains.ChainedStep | internal/scheduler/scheduler.go:94-299 | every orderly step keeps stamps increasing, attempts in sequence, chains backed off and lock holders about to extend their chain |
| RetryChains.ChainedIffNoEarlyRelease | internal/scheduler/scheduler.go:236-299 | of the steps that meet the timing conditions, exactly those that clear no lock between lock and insert keep it |
| RetryChains.RetryWaits | internal/scheduler/scheduler.go:193-197 | a retry is picked only 2^last minutes after the chain's last lock |
| RetryCounterexamples.StaleSelectionRunsJobTwice | internal/scheduler/scheduler.go:128-178 | fine granularity: a run in which the same due firing is queued twice, the second time after it completed and an hour before it is due |
| Selections.StaleExactlyIf | internal/scheduler/scheduler.go:128-247 | fine granularity: when the lock statement takes effect on a row read as due, the job is no longer due exactly when its row was written since and the last write did not reschedule it for a time that has passed |
| Selections.ReopenedBetweenClaims | internal/scheduler/scheduler.go:129-142 | atomic granularity: between a lock of a job and its next claim some reap, compensation or completion set it to scheduled or failed; otherwise one worker picks it up |
| Selections.LockedIsBusyStep | internal/scheduler/scheduler.go:236-299 | a locked job is pending or running, whatever interleaves |
| RetryCounterexamples.InsertFaultRestartsIff | internal/scheduler/scheduler.go:263-268 | after a failed insert and its unlock the job is due with attempt 1 exactly when its next run is not ahead; otherwise a pending retry is dropped |
| RetryCounterexamples.InsertFaultQueuesAgain | internal/scheduler/scheduler.go:263-268 | a run in which one failed insert lets a job with two retries be queued three times |
| RetryCounterexamples.LateReleaseRepeatsAttempt | internal/scheduler/scheduler.go:359-368 | a redelivered completion clears a lock that is between lock and insert: attempt 2 is queued twice |
| SchedulerClass.Scheduler.ReleaseStaleJobs | internal/scheduler/scheduler.go:106-126 | the tables afterwards are the specified release of all locks older than ten minutes, and the count is returned |
| SchedulerClass.Scheduler.QueueJob | internal/scheduler/scheduler.go:236-299 | in-place statements end in the specified tables for every combination of faults |
| SchedulerClass.Scheduler.ProcessDueJobs | internal/scheduler/scheduler.go:128-178 | queues each selected row with attempt 1, in order |
| SchedulerClass.Scheduler.RetryFailedJobs | internal/scheduler/scheduler.go:181-233 | queues each selected row with its next attempt, in order |
| SchedulerClass.Scheduler.Tick | internal/scheduler/scheduler.go:94-103 | release, then due jobs, then retries |
| SchedulerClass.Scheduler.CompleteJob | internal/scheduler/scheduler.go:302-380 | final status, next run and unlock, whoever holds the lock; an unknown job only gets its execution updated |
| SchedulerClass.QueueJobIsProtocolPath | internal/scheduler/scheduler.go:236-299 | an uninterrupted `queueJob` with any faults is a path of the interleaving model |
| SchedulerClass.QueueJobOutcome | internal/scheduler/scheduler.go:236-299 | a message exists exactly when neither insert nor produce failed; the lock stays exactly then or when its compensation failed; other jobs are untouched |
| SchedulerClass.FaultsAreIsolated | internal/scheduler/scheduler.go:175-177 | in one pass each job ends as if it had been queued alone |
| JobOutcomes.ReapedAfterTenMinutes | internal/scheduler/scheduler.go:106-126 | the row a lock left is freed by the reaper exactly when more than 600 seconds have passed, and otherwise stays |
| JobOutcomes.ReapedIffOld | internal/scheduler/scheduler.go:108-118 | over every run the reaper frees a lock exactly when it was taken more than 600 seconds ago; a running job then counts as failed, any other keeps its status |
| JobOutcomes.StampedStep | internal/scheduler/scheduler.go:238-245 | each step keeps every held lock stamped with the time it was taken |
| JobOutcomes.QueueJobRows | internal/scheduler/scheduler.go:236-292 | the row, lock, execution and message of one `queueJob`, and what each fault leaves of them |
| JobOutcomes.TickQueuesAtMostFifteen | internal/scheduler/scheduler.go:94-103 | one tick adds at most ten due and five retry executions |
| JobOutcomes.SelectionsAreOrdered | internal/scheduler/scheduler.go:137-198 | due jobs come never-planned first, then by next run; retries by last update |
| JobOutcomes.RetryNeeds | internal/scheduler/scheduler.go:193-196 | a retry needs a failed, unlocked job with a retry left and 2^attempt times 60 seconds since its last update |
| JobOutcomes.StartMarksRunning | internal/external/kafka.go:2014-2021 | a consumer that starts a message marks its job running and leaves the lock |
| JobOutcomes.CompletionOutcome | internal/scheduler/scheduler.go:302-368 | everything one completion writes |
| JobOutcomes.RecurringIsDueAtNextRun | internal/scheduler/scheduler.go:336-368 | a recurring job that succeeded is due again, with attempt 1, exactly from its next run on |
| JobOutcomes.OneTimeIsNotPickedAgain | internal/scheduler/scheduler.go:352-356 | a one-time job that succeeded is left alone by every later scheduler step, unless a process still holds a stale selection |
| Calendar.YearBrackets | internal/scheduler/scheduler.go:434-445 | the cycle arithmetic finds the year whose days bracket any day number |
| Calendar.YearIsUnique | internal/scheduler/scheduler.go:434-445 | day numbers and (year, day of year) determine each other |
| Calendar.DateRoundTrip | internal/scheduler/scheduler.go:434-437 | every valid date survives the conversion to a day number and back |
| Calendar.DayRoundTrip | internal/scheduler/scheduler.go:434-437 | so does every day number |
| Calendar.KnownDates | internal/scheduler/scheduler.go:436 | day numbers and weekdays of 1 January 1970 and 29 February 2000 |
| CronField.ParseCronField | internal/scheduler/scheduler.go:450-481 | the list loop returns the specified values, or nil exactly for an unusable field, 64-bit wrap-around included |
| CronField.ParseEvery | internal/scheduler/scheduler.go:466-468 | the stepping loop on 64-bit integers ends and returns the specified list |
| CronField.ListedIffSelected | internal/scheduler/scheduler.go:459-470 | an in-range value is listed for `*/n` exactly when it is congruent to min modulo n, and likewise for the other forms |
| CronField.ListInRangeIffNoWrap | internal/scheduler/scheduler.go:466-468 | all listed values are in range exactly when min + n does not overflow |
| Cron.ParseCronSchedule | internal/scheduler/scheduler.go:418-448 | returns the least minute after now that fires within the horizon, nil exactly when none does or the text is unusable |
| Cron.Search | internal/scheduler/scheduler.go:434-447 | the minute loop, by the invariant that nothing fired so far |
| Cron.MatchesIffFires | internal/scheduler/scheduler.go:483-489 | `matchesCron` on the parsed lists agrees with the meaning of the fields; an unparseable day, month or weekday acts like `*` |
| Cron.NextRunIsUnique | internal/scheduler/scheduler.go:418-448 | text and minute determine the answer |
| Cron.SearchSucceeds | internal/scheduler/scheduler.go:439-445 | with an unrestricted weekday and a listed date of a common year the 366-day search always succeeds |
| Cron.AlwaysFoundIff | internal/scheduler/scheduler.go:439-447 | with an unrestricted weekday it succeeds at every minute if and only if such a date is listed |
| Cron.SearchSucceedsWithinADay | internal/scheduler/scheduler.go:439-445 | with unrestricted date fields it succeeds within 1440 minutes |
| Cron.SearchSucceedsWithinAWeek | internal/scheduler/scheduler.go:439-445 | with only a weekday restriction it succeeds within seven days |
| Cron.SearchSucceedsInMonth | internal/scheduler/scheduler.go:439-445 | with an unrestricted day of the month the search always succeeds, whatever months and weekdays are listed |
| Calendar.DateRepeats | internal/scheduler/scheduler.go:434-445 | month, day and weekday repeat after 146097 days |
| Cron.AlwaysFoundIffOverOneCycle | internal/scheduler/scheduler.go:439-447 | for any schedule, restricted weekdays included: the search succeeds at every minute if and only if some date fires in the 366 days from each day of one calendar cycle |
| Cron.FridayThe13thIsMissed | internal/scheduler/scheduler.go:439-447 | with a day and a weekday, which must both match, it may fail: Friday the 13th is not found from 14 July 2001 |
| Cron.HorizonIsTight | internal/scheduler/scheduler.go:439-445 | for 1 March at midnight, asked across a leap day, the answer is the very last minute searched |
| Cron.LeapDayIsMissed | internal/scheduler/scheduler.go:405-410 | 29 February alone is not found from 1 March 2025 |
| Cron.MidnightTexts | internal/scheduler/scheduler.go:418-428 | the texts of both examples parse to the schedules meant |
| CronWords.LineMeans | internal/scheduler/scheduler.go:418-489 | a line "minute hour day month weekday" of `*`, `*/n` and `n` is a schedule exactly when minute and hour are usable, and fires exactly when every usable word holds of its own part of the time |
| CronWords.OnlyFiveWords | internal/scheduler/scheduler.go:419-422 | any other number of words is no schedule |
| CronWords.AtoiSigns | internal/scheduler/scheduler.go:461-473 | signed decimals are read |
| CronWords.AtoiRefuses | internal/scheduler/scheduler.go:461-473 | anything but digits after the sign is refused |
| CronWords.SpacesSeparate | internal/scheduler/scheduler.go:419 | the white space of ASCII separates words, more of it changes nothing |
| Cron.SameDayNextMonth | internal/scheduler/scheduler.go:399-400 | a month later is the same day and time of the next month when it has that day, otherwise the days too many run on |
| Cron.FieldsOfJoined | internal/scheduler/scheduler.go:419 | splitting a space-separated line gives its words back |
| Cron.CalculateNextRun | internal/scheduler/scheduler.go:384-414 | nil exactly for the empty schedule; otherwise the shortcut, duration, cron or daily result, in the future except for a non-positive duration |
| Cron.MonthLaterIsLater | internal/scheduler/scheduler.go:399-400 | `AddDate(0, 1, 0)` moves 28 to 31 days ahead |
| ScanPool.StepConserves | agent/scanner/scanner.go:91-153 | each channel operation, scan or close keeps findings, errors, files, bytes and steps in balance |
| ScanPool.PhasesStep | agent/scanner/scanner.go:117-128 | each step keeps the order of closes and never sends on a closed channel |
| ScanRuns.RunConserves | agent/scanner/scanner.go:85-163 | in every reachable state, unscanned, in-worker, in-channel and collected findings and errors add up to the same multiset |
| ScanRuns.NoSendAfterClose | agent/scanner/scanner.go:117-128 | no interleaving sends on a closed channel |
| ScanRuns.ChannelsStayBounded | agent/scanner/scanner.go:91-93 | no channel ever holds more than a hundred elements |
| ScanRuns.ReturnedIsComplete | agent/scanner/scanner.go:155-162 | what is returned holds the findings of all files scanned without error, one error per failing file, the number of files and the bytes of the successes |
| ScanRuns.CompleteIffWorkers | agent/scanner/scanner.go:56-60 | the result is complete exactly when a worker was started or there was nothing to scan |
| ScanRuns.NeverStuck | agent/scanner/scanner.go:91-158 | with a worker, every state before the return has an enabled step despite the bounded channels |
| ScanRuns.RunsEndAfterRunLength | agent/scanner/scanner.go:91-158 | every schedule ends, after the same number of steps |
| Masking.JoinOfSplit | agent/scanner/scanner.go:299-308 | joining the parts of a split text gives the text back |
| Masking.SplitOfJoin | agent/scanner/scanner.go:299-308 | parts without the separator survive join and split |
| Masking.PartsCount | agent/scanner/scanner.go:299-300 | a text has one part more than separators, so the EMAIL branch means exactly one `@` |
| Masking.EmailMask | agent/scanner/scanner.go:298-309 | the mask of an address, byte by byte: same length, stars exactly inside the local part and the first domain part |
| Masking.EmailKeepsSeparators | agent/scanner/scanner.go:298-309 | the `@` and every domain `.` keep their place |
| Masking.MaskCovers | agent/scanner/scanner.go:292-343 | in all length-keeping branches each byte is the original or a star |
| Masking.FewBytesStayVisible | agent/scanner/scanner.go:325-342 | at most 8 bytes of tokens and 6 of default values stay visible |
| Masking.OnlyLastFourDigitsShow | agent/scanner/scanner.go:310-324 | masks of SSNs, cards and phones depend only on the digit count and the last four digits |
| MaskingByKind.EmailByParts | agent/scanner/scanner.go:298-309 | for an address written as local, first domain part and rest: which bytes show, without splitting |
| MaskingByKind.TokenKeepsEnds | agent/scanner/scanner.go:325-328 | the six kinds of keys and tokens keep their first and last four bytes when longer than eight |
| MaskingByKind.PlainKeepsEnds | agent/scanner/scanner.go:339-342 | values without a format of their own keep their first and last three bytes, or the first two when at most six long |
| MaskingByKind.ShortShowsNothing | agent/scanner/scanner.go:293-295 | up to four bytes show nothing |
| MaskingByKind.SsnMask | agent/scanner/scanner.go:310-314 | `***-**-` and the last four digits |
| MaskingByKind.CardMask | agent/scanner/scanner.go:315-319 | `****-****-****-` and the last four digits |
| MaskingByKind.PhoneMask | agent/scanner/scanner.go:320-324 | the digit count and the last four digits |
| MaskingByKind.KeyMask | agent/scanner/scanner.go:329-330 | a private key is replaced by a fixed text |
| MaskingByKind.UrlMask | agent/scanner/scanner.go:331-334 | the scheme up to the first `://` and nothing else |
| MaskingByKind.IndexIsFirst | agent/scanner/scanner.go:332 | the first occurrence is found |
| Masking.UnmaskedIff | agent/scanner/scanner.go:292-343 | exactly which star-free values are returned unmasked |
| Redaction.ShouldRedact | internal/api/gate.go:123-151 | the nested loops decide whether an active redaction or AI policy covers the type or it is sensitive by default |
| Redaction.IneligibleIsRedacted | internal/api/gate.go:123-151 | a class refused for AI is also redacted |
| RedactionRules.ReportedIff | internal/api/gate.go:123-195 | for in-bounds, disjoint entities an entity is reported, with its mask, exactly when its type is one of eight sensitive ones or an active redaction or AI policy that decodes asks for it by name or `*` |
| RedactionRules.SensitiveIsReported | internal/api/gate.go:108-112 | whatever the policies, the eight sensitive types are reported |
| RedactionRules.OthersAreLeftAlone | internal/api/gate.go:123-151 | without such a policy no other type is |
| RedactionRules.MustGoIsHidden | internal/api/gate.go:159-195 | texts that differ only inside sensitive or asked-for spans give equal outputs |
| RedactionRules.NamedMasks | internal/api/gate.go:89-105 | the fifteen masks with a wording of their own |
| RedactionRules.OtherMasks | internal/api/gate.go:115-120 | any other type is masked by its upper-cased name |
| RedactionRules.OutOfBoundsFallsBack | internal/api/gate.go:185-194 | an out-of-bounds entity has its value replaced once and is reported without a position |
| RedactionRules.FallbackReplacesFirst | internal/api/gate.go:187 | the first occurrence is replaced, nothing when there is none |
| Redaction.SortByStart | internal/api/gate.go:159-164 | a permutation with descending starts, ties in any order |
| Redaction.RedactSensitiveData | internal/api/gate.go:154-198 | the loop applies the accepted entities of such an order from right to left, fallback included |
| Redaction.RedactionIsLeftToRight | internal/api/gate.go:159-197 | for in-bounds, non-empty, disjoint spans the result is the left-to-right concatenation of gaps and masks, no fallback is taken and the reports are the accepted entities in descending order |
| Redaction.OrderIsIrrelevant | internal/api/gate.go:159-164 | permuting the entities, or breaking ties differently, changes nothing |
| Redaction.RedactionHidesContent | internal/api/gate.go:159-195 | texts that agree outside the accepted spans give the same output |
| Redaction.LoopRebuilds | internal/api/gate.go:169-195 | the loop invariant: after each splice the text is the untouched left part plus the finished right part |
| Governance.MatchesConditions | internal/domain/govern.go:100-160 | every non-empty condition list is met, nothing else |
| Governance.EvaluatePolicies | internal/domain/govern.go:53-98 | the decision is the maximum over active matching policies in allow < redact < deny; applied ids, violations and redactions are listed in policy order |
| PolicyEffects.NothingIsAllowed | internal/domain/govern.go:53-59 | without policies everything is allowed |
| PolicyEffects.MissedPolicyChangesNothing | internal/domain/govern.go:61-160 | an inactive policy, or one with a non-empty list of classes, destinations, roles or labels that misses the context, changes nothing in the result |
| PolicyEffects.MetPolicyApplies | internal/domain/govern.go:72-160 | an active policy whose every list is empty or met adds its id, raises the decision to its action, and adds its violation or its redactions |
| PolicyEffects.AiDenyBlocks | internal/domain/govern.go:163-189 | an active AI policy that denies a class present makes the data ineligible, with that reason |
| PolicyEffects.OnlyAiDenyBlocks | internal/domain/govern.go:163-189 | nothing else does |
| Governance.OrderDoesNotMatter | internal/domain/govern.go:61-95 | the decision depends only on the set of policies |
| Governance.NeverWeaker | internal/domain/govern.go:61-115 | adding policies or classifications never weakens the decision |
| Governance.DecisionMatchesViolations | internal/domain/govern.go:76-82 | the decision is deny exactly when there is a violation |
| Governance.RedactionCount | internal/domain/govern.go:83-92 | the redaction list has (matching redact policies) times (classifications) entries |
| Governance.RedactionListed | internal/domain/govern.go:83-92 | an entry is listed exactly when its class is present and a matching policy uses its strategy |
| Governance.CheckAIEligibility | internal/domain/govern.go:163-189 | eligible exactly when no active AI deny policy names a class; the reasons are exactly the offending pairs |
| Governance.IneligibleIsDenied | internal/domain/govern.go:163-189 | a policy that refuses a class for AI makes `EvaluatePolicies` deny a query that carries it and meets its other conditions |
| EventBus.EmittedSplits | internal/events/bus.go:51-57 | emitted events split exactly into dispatched, queued and dropped ones, in order |
| EventBus.ClientsSeeSubsequence | internal/events/bus.go:86-106 | received plus buffered messages are an order-preserving subsequence of the broadcasts for the client while registered; the rest was dropped, and without drops nothing is missing |
| BusPublishing.StepPublishes | internal/events/bus.go:115-141 | a step adds to the broadcasts exactly its direct call, or the dispatched event with its own name, data and tenant when that name is listed |
| BusPublishing.StepDelivers | internal/events/bus.go:86-106 | and every registered client concerned gets it at the end of its buffer while that holds fewer than a hundred; no other buffer changes |
| BusPublishing.ListedIffBroadcast | internal/events/bus.go:147-181 | the thirty listed event names |
| BusPublishing.LogIsMerge | internal/events/bus.go:115-141 | over every run the broadcasts are the direct calls and the listed dispatched events, each in order, and nothing else |
| BusPublishing.ClientsSeeEmittedEvents | internal/events/bus.go:51-141 | from emission to client: what a client holds is an order-preserving part of the listed events and direct calls for it |
| BusPublishing.EmitQueues | internal/events/bus.go:51-57 | the queue takes an event while it holds fewer than a thousand |
| BusPublishing.RegisterAdds | internal/events/bus.go:60-72 | a new client starts empty under its id and tenant |
| EventBus.VisibleMeansConcerned | internal/events/bus.go:96-98 | a client is owed exactly the broadcasts without a tenant or with its own |
| EventBus.DropsOnlyWhenFull | internal/events/bus.go:51-104 | an event or message is dropped exactly when it meets a full queue or buffer |
| EventBus.DoneClosesAtMostOnce | internal/events/bus.go:75-83 | `Done` closes at most once, and only on leaving the registry |
| EventBus.ReplacedClientIsNeverClosed | internal/events/bus.go:60-72 | a client whose id is registered again, which the HTTP handler avoids by fresh ids, is never closed in the rest of the run |
| EventBus.ClosedIffUnregistered | internal/events/bus.go:75-83 | over every run `Done` of a client has been closed once if it was unregistered and never otherwise |
| EventBus.QueueStep | internal/events/bus.go:51-57 | each step keeps the queue bounded and the split of events |
| EventBus.ClientsStep | internal/events/bus.go:60-106 | each step keeps every client record and the registry consistent |
| EventBusClass.Hub.EmitEvent | internal/events/bus.go:51-57 | non-blocking send to the bounded queue |
| EventBusClass.Hub.RegisterSSEClient | internal/events/bus.go:60-72 | a fresh record under the id, replacing the old one without closing it |
| EventBusClass.Hub.UnregisterSSEClient | internal/events/bus.go:75-83 | closes `Done` and removes the id; unknown ids change nothing |
| EventBusClass.Hub.BroadcastSSE | internal/events/bus.go:86-106 | the loop in any order of the map offers each registered client of the tenant the message exactly once |
| EventBusClass.Hub.DispatchOne | internal/events/bus.go:115-141 | takes the oldest event and broadcasts it when its name is on the list |
| EventBusClass.FanOutContinues | internal/events/bus.go:96-105 | no two ids share a client, so no client is offered a message twice |
| Residency.StepAgreesIff | internal/api/residency.go:32-170 | from agreeing tables a fault-free request keeps stored violations equal to the recomputation if and only if no row beyond a list limit matters and the empty region does not meet a listed rule that allows it |
| Residency.CreateAgreesIff | internal/api/residency.go:62-116 | the condition for creating a rule |
| Residency.DeleteAgrees | internal/api/residency.go:183-204 | deleting a rule always keeps agreement |
| Residency.UpdateAgreesIff | internal/api/residency.go:121-170 | the condition for changing a region |
| Residency.RunsAgree | internal/api/residency.go:82-204 | over every run within the limits, without faults and without an empty allowed region, stored pairs and regions are the recomputed ones |
| Residency.RegionChangeRepairs | internal/api/residency.go:121-170 | whatever faults left behind, one fault-free change to a non-empty region makes the datasource's rows right and touches no other |
| Residency.EmptyRegionDisagreement | internal/api/residency.go:104-150 | the two evaluators differ on a rule that allows the empty region |
| Residency.ListSizes | internal/api/residency.go:69-134 | a creation evaluates at most 10000 datasources, a region change at most 500 rules |
| Residency.UntaggedIsStored | internal/api/residency.go:98-115 | an untagged datasource violates a rule as the empty region and is stored with it |
| ResidencyRaces.CreateRaceBreaksIff | internal/api/residency.go:32-170 | statements of a rule creation and a region change interleaved in any way: exactly which orders and regions leave a wrong row |
| ResidencyRaces.CreateRaceStoresOldRegion | internal/api/residency.go:62-116 | such a run stores a violation for the region the datasource has left |
| ResidencyRaces.ChangeRaceBreaksIff | internal/api/residency.go:121-170 | the same for two changes of one region |
| ResidencyRaces.EditRaceBreaksIff | internal/api/datasource.go:186-220 | the same for a request that sends no region but writes back the one it has read |
| ResidencyClass.Store.CreateRule | internal/api/residency.go:32-78 | inserts the rule, then its violations |
| ResidencyClass.Store.PersistViolationsForRule | internal/api/residency.go:82-116 | the insert loop adds exactly the rows of listed datasources outside the allowed regions, keeping rows that exist |
| ResidencyClass.Store.ReevaluateViolations | internal/api/residency.go:121-170 | delete and insert loop: exactly the rows of listed active rules the region violates |
| ResidencyClass.Store.DeleteRule | internal/api/residency.go:183-204 | removes the rule and its violations; an unknown rule changes nothing |
| ResidencyClass.Store.UpdateDataSource | internal/api/datasource.go:182-220 | re-evaluates exactly when a region is sent |
| ResidencyCount.CountViolationsInline | internal/api/residency.go:455-486 | the nested loops compute the specified count |
| ResidencyCount.StoredCountAgainstInline | internal/api/residency.go:426-438 | the stored table exceeds the inline count by one row per further rule and untagged datasource; equal exactly when all are tagged or at most one rule exists |
| ResidencyCount.RunsCountAlike | internal/api/residency.go:426-438 | the same after every ordinary run from empty tables |
| Checksum.LuhnCheck | agent/scanner/patterns.go:266-281 | the alternating loop equals the recursive right-to-left sum of Annex B of ISO/IEC 7812-1 |
| ChecksumPlaces.LuhnByPlaces | agent/scanner/patterns.go:266-281 | counted from the right, the check digit first, every second digit counts as the digit sum of its double, the others as themselves |
| ChecksumPlaces.CheckDigit | internal/api/classify.go:316-331 | the check digit is what the places of the prefix miss to the next multiple of ten |
| ChecksumPlaces.KnownNumber | agent/scanner/patterns.go:266-281 | 18 is valid, 81 is not |
| ChecksumPlaces.TestCardIsValid | agent/scanner/patterns.go:211-217 | 4111 1111 1111 1111 is a valid card number |
| ChecksumPlaces.CardByPlaces | internal/api/classify.go:303-314 | 13 to 19 digits, whatever stands between them, and the checksum by places |
| ChecksumPlaces.DigitsAreTheDigits | agent/scanner/patterns.go:256-264 | the characters 0 to 9 are kept, in order |
| ChecksumPlaces.RoutingNeedsNineDigits | internal/api/classify.go:357-366 | anything but nine digits is refused |
| ChecksumPlaces.RoutingByPlaces | internal/api/classify.go:357-370 | the nine digits count 3, 7, 1, 3, 7, 1, 3, 7, 1 |
| Checksum.SingleErrorIsDetected | agent/scanner/patterns.go:266-281 | a valid number with one digit changed is invalid |
| Checksum.ExactlyOneDigitFits | agent/scanner/patterns.go:266-281 | at any place exactly one digit makes a number valid |
| Checksum.CheckDigitIsUnique | agent/scanner/patterns.go:266-281 | every prefix has exactly one check digit |
| Checksum.TranspositionIsDetected | internal/api/classify.go:316-331 | an adjacent transposition is invalid except for equal digits, 09 and 90 |
| Checksum.JumpIsNotDetected | internal/api/classify.go:316-331 | swapping digits two apart never changes validity |
| Checksum.TwinErrorIsDetected | internal/api/classify.go:316-331 | aa written as bb is invalid except for 22-55, 33-66 and 44-77 |
| Checksum.ExtractDigits | agent/scanner/patterns.go:256-264 | keeps exactly the digits, in order |
| Checksum.ValidateCreditCard | agent/scanner/patterns.go:211-217 | 13 to 19 digits with a valid checksum |
| Checksum.CardTypoIsDetected | internal/api/classify.go:303-314 | separators do not matter, and one mistyped digit of a formatted card number is rejected |
| Checksum.CardTranspositionIsDetected | internal/api/classify.go:303-331 | so is a transposition, with separators between the digits or not, except 09 and 90 |
| Checksum.ValidateRoutingNumber | internal/api/classify.go:357-370 | nine digits whose weighted sum is a multiple of ten |
| Checksum.RoutingTypoIsDetected | internal/api/classify.go:361-369 | one wrong digit is rejected |
| Checksum.RoutingTransposition | internal/api/classify.go:361-369 | an adjacent transposition passes exactly for digits congruent modulo five |
| Labels.ComputeLabel | internal/api/auto_governance.go:64-78 | one pass computes the highest label and the distinct types |
| Labels.DistinctListsEachOnce | internal/api/auto_governance.go:66-73 | every type is listed exactly once |
| Labels.HighestIsMaximum | internal/api/auto_governance.go:65-78 | that label is the priority maximum of INTERNAL and all mapped labels |
| Labels.LabelTable.AutoApplyGovernance | internal/api/auto_governance.go:59-106 | creates a missing label, replaces only a weaker one, skips empty batches and empty dataset ids |
| Labels.FirstLabel | internal/api/auto_governance.go:14-47 | the label each entity type asks for, INTERNAL when it is not mapped |
| Labels.Ranking | internal/api/auto_governance.go:49-55 | RESTRICTED > HIGHLY_CONFIDENTIAL > CONFIDENTIAL > INTERNAL > PUBLIC, unknown labels with PUBLIC |
| Labels.NothingToLabel | internal/api/auto_governance.go:59-81 | without classifications or a dataset id nothing is stored |
| Labels.RunsReachMaximum | internal/api/auto_governance.go:59-106 | after any calls from any stored label the final one is the strongest of it and everything seen |
| Labels.FinalLabelIsMaximum | internal/api/auto_governance.go:59-106 | from no label it is the maximum of everything seen |
| Labels.SplitAndOrderDoNotMatter | internal/api/auto_governance.go:59-106 | how classifications are split, ordered or repeated does not matter |
| Labels.RepeatingChangesNothing | internal/api/auto_governance.go:59-106 | re-running a batch changes nothing |
| Labels.NeverDowngraded | internal/api/auto_governance.go:100-105 | a call never lowers a label and replaces it exactly when it asks for a stronger one |
| Labels.UndisturbedWriteIsApply | internal/api/auto_governance.go:84-105 | read and write as separate steps: with nothing in between they are the atomic call |
| Labels.StaleWriteLowersIff | internal/api/auto_governance.go:84-105 | a write lowers the label exactly when it upgrades what it read and a stronger label arrived in between |
| Labels.WriteFallsShortIff | internal/api/auto_governance.go:84-105 | a write leaves a present label below what its batch asks for exactly when that label is weaker and the call does not update, because it read none or a stronger one |
| Labels.WriteKeepsMaximumIff | internal/api/auto_governance.go:84-105 | both together: when the label after a write is the stronger of the stored and the asked one |
| Labels.AlwaysDueIff | internal/api/auto_governance.go:84-105 | for any interleaving the label is the maximum of the initial one and everything finished after every step exactly when every write meets that condition |
| Labels.OverlappingCallsLoseUpgrade | internal/api/classify.go:957-967 | two overlapping background calls that update and end below what was seen |
| Labels.OverlappingInsertsLoseLabel | internal/api/auto_governance.go:89-99 | two overlapping first calls: the second insert meets the unique index and the stronger label is lost |
| Labels.OneAtATimeReachesMaximum | internal/api/auto_governance.go:84-105 | if calls for one dataset do not overlap, any interleaving ends with the maximum of the initial label and everything finished |

## Left out

- HTTP handlers, JSON decoding, SQL text, Kafka, logging and audit rows: calls into libraries; decoded policies and call outcomes are parameters.
- The scheduler's `Start` and `Stop`, its ticker and its `running` flag: they only decide when `tick` runs.
- `runJobNow` (`internal/api/observability_jobs.go`): it queues without taking the lock.
- The consumer in `internal/external/kafka.go`: only the statements that mark a job running, report an execution and complete a job are steps. A completion may set any next run, so its variant, which writes NULL for a failed recurring job, is covered; its own label code is not modelled.
- Liveness of a job left pending and unlocked: no query selects it, so only `QuietJobs.QuietForever` is claimed.
- Different clocks in the scheduler process and the database: one clock serves both, and `RetryChains.Orderly` says where their order matters.
- SchedulerClass.Scheduler.QueueJob: runs uninterrupted; interleaving is the business of `JobProtocol`, tied to it by `QueueJobIsProtocolPath`.
- Jobs that are created, deleted, or get another `max_retries` or schedule during a run.
- `time.ParseDuration`, time zones and daylight saving: the duration is a parameter and the calendar is UTC.
- The either-day rule of the crontab utility: the code does not have it.
- Directory walking, exclusion rules, regular expressions and the confidence threshold of `scanFile`: a file carries what scanning it returns. `onProgress` is not called.
- The validators of SSNs, phone numbers, IP addresses, IBANs, SWIFT codes and VINs.
- Redaction.RedactionIsLeftToRight: overlapping or out-of-bounds spans are covered only by the loop itself, `Redaction.RedactSensitiveData`.
- The order `sort.Slice` gives entities with equal starts: left open, and shown not to matter for disjoint spans.
- Upper-casing of non-ASCII entity types in the default mask.
- `detectPatterns` and `evaluatePolicy` of the policy handlers, whose offsets are not adjusted between replacements.
- The `source_type` condition: the decoded struct has it, `matchesConditions` never looks at it.
- Event handlers registered with `On`, event timestamps, and the JSON step of `extractTenantID`: the tenant is part of the event.
- Two records of SSE clients are told apart by index instead of by pointer.
- Several tenants in the residency tables, rule names and regulations, tagging and region detection, which do not refresh the table, and datasource creation and deletion.
- ResidencyClass.Store.CreateRule: one request at a time; `ResidencyRaces` interleaves the statements of two requests, for the row of one rule and one datasource.
- Which rows a limited `List` leaves out: any, not the oldest.
- Manual label assignments while calls are under way, and the policy coverage step of `autoApplyGovernance`.
- Labels.NeverDowngraded: holds for the atomic call; `Labels.StaleWriteLowersIff` and `Labels.WriteKeepsMaximumIff` say exactly when the separate steps break it.
- Non-ASCII text in `Checksum`: strings are bytes, and no byte of a longer rune is a digit.
- Vector search, catalogue, sign-on, assistant code, the Python services and the frontend.
